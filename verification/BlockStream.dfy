/** Hashing a message block by block, for any compression function. */
module BlockStream {
  import opened Bytes

  const U64 := 0x1_0000_0000_0000_0000

  type Block = b: seq<byte> | |b| == 64 witness Zeros(64)

  /** The value after the blocks of m, whose length is a multiple of the block size. */
  function Absorb<H>(f: (H, Block) -> H, h: H, m: seq<byte>): H
    requires |m| % 64 == 0
    decreases |m|
  {
    if m == [] then h else f(Absorb(f, h, m[..|m| - 64]), m[|m| - 64..])
  }

  lemma AbsorbBlock<H>(f: (H, Block) -> H, h: H, m: seq<byte>, b: Block)
    requires |m| % 64 == 0
    ensures Absorb(f, h, m + b) == f(Absorb(f, h, m), b)
  {
    assert (m + b)[..|m|] == m && (m + b)[|m|..] == b;
  }

  /** The bit counter after k blocks, with its width. */
  function Counted(k: nat): nat {
    if k == 0 then 0 else (Counted(k - 1) + 512) % U64
  }

  lemma {:induction false} CountedIs(k: nat)
    requires 512 * k < U64
    ensures Counted(k) == 512 * k
  {
    if k > 0 {
      CountedIs(k - 1);
    }
  }

  /** Whole blocks of the message are in the hash value, the remainder is in the buffer,
      and the bit counter covers the whole blocks modulo its width. */
  ghost predicate Streaming<H>(f: (H, Block) -> H, h0: H, message: seq<byte>, buffer: seq<byte>, h: H, bits: nat) {
    var n := |message| - |buffer|;
    && |buffer| < 64 && 0 <= n && n % 64 == 0
    && buffer == message[n..]
    && h == Absorb(f, h0, message[..n])
    && bits == Counted(n / 64)
  }

  lemma StreamStart<H>(f: (H, Block) -> H, h0: H)
    ensures Streaming(f, h0, [], [], h0, 0)
  {
  }

  lemma StreamByte<H>(f: (H, Block) -> H, h0: H, message: seq<byte>, buffer: seq<byte>, h: H, bits: nat, b: byte)
    requires Streaming(f, h0, message, buffer, h, bits) && |buffer| < 63
    ensures Streaming(f, h0, message + [b], buffer + [b], h, bits)
  {
    var n := |message| - |buffer|;
    assert (message + [b])[..n] == message[..n];
  }

  lemma PrefixAndBlock(message: seq<byte>, n: nat, buffer: seq<byte>, b: byte)
    requires n + 63 == |message| && buffer == message[n..]
    ensures (message + [b])[..n + 64] == message[..n] + (buffer + [b])
  {
    assert message == message[..n] + buffer;
  }

  lemma StreamBlock<H>(f: (H, Block) -> H, h0: H, message: seq<byte>, buffer: seq<byte>, h: H, bits: nat, b: byte)
    requires Streaming(f, h0, message, buffer, h, bits) && |buffer| == 63
    ensures Streaming(f, h0, message + [b], [], f(h, buffer + [b]), (bits + 512) % U64)
  {
    var n := |message| - 63;
    var block: Block := buffer + [b];
    AbsorbBlock(f, h0, message[..n], block);
    PrefixAndBlock(message, n, buffer, b);
    assert (n + 64) / 64 - 1 == n / 64;
  }

  // ---- padding: FIPS 180-4 section 5.1.1 ----

  /** A number as n bytes, most significant first; eight of them hold the length in bits. */
  function LengthBytes(bits: nat, n: nat): (b: seq<byte>)
    ensures |b| == n
  {
    if n == 0 then [] else LengthBytes(bits / 0x100, n - 1) + [bits % 0x100]
  }

  /** The number of zero bytes after the 0x80 byte: the least that makes whole blocks. */
  function PadZeros(n: nat): (k: nat)
    ensures k < 64 && (n + 1 + k) % 64 == 56
  {
    (119 - n % 64) % 64
  }

  lemma PaddedLength(n: nat)
    ensures (n + 1 + PadZeros(n) + 8) % 64 == 0
  {
  }

  /** The message, a one bit, zeros up to eight bytes before the end of a block, the length. */
  function PadWith(m: seq<byte>, length: seq<byte>): (p: seq<byte>)
    requires |length| == 8
    ensures |p| % 64 == 0
  {
    PaddedLength(|m|);
    m + [0x80] + Zeros(PadZeros(|m|)) + length
  }

  function Pad(m: seq<byte>): (p: seq<byte>)
    requires 8 * |m| < U64
    ensures |p| % 64 == 0
  {
    PadWith(m, LengthBytes(8 * |m|, 8))
  }

  lemma ZerosNeeded(n: nat, d: nat)
    requires n % 64 == 0 && d < 64
    ensures PadZeros(n + d) == if d < 56 then 55 - d else 119 - d
  {
  }

  /** When the length fits after the remainder, padding makes one more block. */
  lemma PadShort<H>(f: (H, Block) -> H, h0: H, message: seq<byte>, buffer: seq<byte>, h: H, bits: nat, length: seq<byte>)
    requires Streaming(f, h0, message, buffer, h, bits) && |buffer| < 56 && |length| == 8
    ensures Absorb(f, h0, PadWith(message, length)) == f(h, buffer + [0x80] + Zeros(55 - |buffer|) + length)
  {
    var n := |message| - |buffer|;
    var last := buffer + [0x80] + Zeros(55 - |buffer|) + length;
    ZerosNeeded(n, |buffer|);
    AbsorbBlock(f, h0, message[..n], last);
    assert PadWith(message, length) == message[..n] + last;
  }

  lemma LongTail(buffer: seq<byte>, length: seq<byte>)
    requires 56 <= |buffer| < 64
    ensures buffer + [0x80] + Zeros(119 - |buffer|) + length ==
            (buffer + [0x80] + Zeros(63 - |buffer|)) + (Zeros(56) + length)
  {
  }

  lemma AbsorbTwoBlocks<H>(f: (H, Block) -> H, h: H, m: seq<byte>, b: Block, c: Block)
    requires |m| % 64 == 0
    ensures Absorb(f, h, m + b + c) == f(f(Absorb(f, h, m), b), c)
  {
    AbsorbBlock(f, h, m, b);
    AbsorbBlock(f, h, m + b, c);
  }

  lemma LongPadding(message: seq<byte>, n: nat, buffer: seq<byte>, length: seq<byte>)
    requires n <= |message| && n % 64 == 0 && buffer == message[n..] && 56 <= |buffer| < 64 && |length| == 8
    ensures PadWith(message, length) == message[..n] + (buffer + [0x80] + Zeros(63 - |buffer|)) + (Zeros(56) + length)
  {
    ZerosNeeded(n, |buffer|);
    LongTail(buffer, length);
    assert message == message[..n] + buffer;
  }

  /** Otherwise it fills the block and adds another. */
  lemma PadLong<H>(f: (H, Block) -> H, h0: H, message: seq<byte>, buffer: seq<byte>, h: H, bits: nat, length: seq<byte>)
    requires Streaming(f, h0, message, buffer, h, bits) && |buffer| >= 56 && |length| == 8
    ensures Absorb(f, h0, PadWith(message, length)) ==
            f(f(h, buffer + [0x80] + Zeros(63 - |buffer|)), Zeros(56) + length)
  {
    var n := |message| - |buffer|;
    LongPadding(message, n, buffer, length);
    AbsorbTwoBlocks(f, h0, message[..n], buffer + [0x80] + Zeros(63 - |buffer|), Zeros(56) + length);
  }

  /** Padding and hashing, for any compression function and any way to write the result. */
  function Digest<H>(f: (H, Block) -> H, h0: H, m: seq<byte>): H
    requires 8 * |m| < U64
  {
    Absorb(f, h0, Pad(m))
  }
}
