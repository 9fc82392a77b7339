/** SHA-1 as FIPS 180-4 defines it. */
module Sha1Spec {
  import opened Bytes
  import opened BlockStream

  type word = bv32

  // Section 2.2.2: addition modulo 2^32.
  function Add(x: word, y: word): word { x + y }

  datatype Hash = Hash(a: word, b: word, c: word, d: word, e: word)

  // Section 2.2.2: rotation to the left.
  function Rotl5(x: word): word { (x << 5) | (x >> 27) }
  function Rotl30(x: word): word { (x << 30) | (x >> 2) }
  function Rotl1(x: word): word { (x << 1) | (x >> 31) }

  // Section 4.1.1.
  function F(t: nat, x: word, y: word, z: word): word
    requires t < 80
  {
    if t < 20 then (x & y) ^ (!x & z)
    else if t < 40 then x ^ y ^ z
    else if t < 60 then (x & y) ^ (x & z) ^ (y & z)
    else x ^ y ^ z
  }

  // Section 4.2.1.
  function K(t: nat): word
    requires t < 80
  {
    if t < 20 then 0x5a827999 else if t < 40 then 0x6ed9eba1 else if t < 60 then 0x8f1bbcdc else 0xca62c1d6
  }

  // Section 5.3.1.
  const H0 := Hash(0x67452301, 0xefcdab89, 0x98badcfe, 0x10325476, 0xc3d2e1f0)

  /** A byte as a word. */
  function Widen(b: byte): (w: word)
    ensures w < 256
  {
    b as word
  }

  /** Four bytes side by side, most significant first. */
  function Concat(x: word, y: word, z: word, w: word): word {
    (x << 24) | (y << 16) | (z << 8) | w
  }

  // Section 5.2.1: the j-th word of a block.
  function BlockWord(m: Block, j: nat): word
    requires j < 16
  {
    Concat(Widen(m[4 * j]), Widen(m[4 * j + 1]), Widen(m[4 * j + 2]), Widen(m[4 * j + 3]))
  }

  // Section 6.1.2, step 1: the first n words of the message schedule.
  function W(m: Block, n: nat): (w: seq<word>)
    requires n <= 80
    ensures |w| == n
  {
    if n == 0 then []
    else
      var w := W(m, n - 1);
      w + [if n <= 16 then BlockWord(m, n - 1) else Rotl1(w[n - 4] ^ w[n - 9] ^ w[n - 15] ^ w[n - 17])]
  }

  // Section 6.1.2, step 3: one round on the working variables.
  function Round(v: Hash, t: nat, wt: word): Hash
    requires t < 80
  {
    Hash(Add(Add(Add(Add(Rotl5(v.a), F(t, v.b, v.c, v.d)), v.e), K(t)), wt), v.a, Rotl30(v.b), v.c, v.d)
  }

  /** The working variables before round t. */
  function Rounds(h: Hash, w: seq<word>, t: nat): Hash
    requires t <= 80 == |w|
  {
    if t == 0 then h else Round(Rounds(h, w, t - 1), t - 1, w[t - 1])
  }

  // Section 6.1.2, step 4.
  function Compress(h: Hash, m: Block): Hash {
    var v := Rounds(h, W(m, 80), 80);
    Hash(Add(h.a, v.a), Add(h.b, v.b), Add(h.c, v.c), Add(h.d, v.d), Add(h.e, v.e))
  }

  /** The i-th byte of a word, most significant first. */
  function WordByte(w: word, i: nat): byte
    requires i < 4
  {
    var shifted := if i == 0 then w >> 24 else if i == 1 then w >> 16 else if i == 2 then w >> 8 else w;
    (shifted & 0xff) as int
  }

  function WordOf(h: Hash, i: nat): word
    requires i < 5
  {
    if i == 0 then h.a else if i == 1 then h.b else if i == 2 then h.c else if i == 3 then h.d else h.e
  }

  /** The first n bytes of the five words side by side. */
  function HashBytes(h: Hash, n: nat): (d: seq<byte>)
    requires n <= 20
    ensures |d| == n
  {
    if n == 0 then [] else HashBytes(h, n - 1) + [WordByte(WordOf(h, (n - 1) / 4), (n - 1) % 4)]
  }

  // Section 6.1.2: the message digest.
  function Sha1(m: seq<byte>): (d: seq<byte>)
    requires 8 * |m| < U64
    ensures |d| == 20
  {
    HashBytes(Absorb(Compress, H0, Pad(m)), 20)
  }
}
