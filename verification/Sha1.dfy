/** The streaming hash of sha1.c: a buffered block, hashed in place whenever it is full. */
module Sha1 {
  import opened BlockStream
  import opened Bytes
  import opened Sha1Spec

  ghost predicate IsCompress(f: (Hash, Block) -> Hash) {
    forall h, m {:trigger Compress(h, m)} :: f(h, m) == Compress(h, m)
  }

  lemma {:induction false} AbsorbCompress(f: (Hash, Block) -> Hash, h: Hash, m: seq<byte>)
    requires IsCompress(f) && |m| % 64 == 0
    ensures Absorb(f, h, m) == Absorb(Compress, h, m)
    decreases |m|
  {
    if m != [] {
      AbsorbCompress(f, h, m[..|m| - 64]);
      assert f(Absorb(f, h, m[..|m| - 64]), m[|m| - 64..]) == Compress(Absorb(f, h, m[..|m| - 64]), m[|m| - 64..]);
    }
  }

  /** SHA1_CTX.  `message` is what sha1_update has been given since sha1_init. */
  class Sha1Context {
    const data: array<byte>
    var datalen: nat
    var bitlen: nat
    const state: array<word>
    const k: array<word>
    ghost var message: seq<byte>
    /** The compression function: the streaming below is the same for any. */
    ghost const f: (Hash, Block) -> Hash

    ghost predicate Allocated()
      reads this
    {
      data.Length == 64 && state.Length == 5 && k.Length == 4 && state != k
    }

    ghost predicate Constants()
      requires Allocated()
      reads this, k
    {
      k[0] == 0x5a827999 && k[1] == 0x6ed9eba1 && k[2] == 0x8f1bbcdc && k[3] == 0xca62c1d6
    }

    ghost function Value(): Hash
      requires Allocated()
      reads this, state
    {
      Hash(state[0], state[1], state[2], state[3], state[4])
    }

    ghost predicate Valid()
      reads this, data, state, k
    {
      && Allocated() && Constants() && IsCompress(f)
      && datalen < 64
      && Streaming(f, H0, message, data[..datalen], Value(), bitlen)
    }

    constructor ()
      ensures Allocated() && IsCompress(f) && fresh(data) && fresh(state) && fresh(k)
    {
      f := Compress;
      data := new byte[64];
      state := new word[5];
      k := new word[4];
      datalen, bitlen := 0, 0;
      message := [];
    }

    /** sha1_init */
    method Init()
      requires Allocated() && IsCompress(f)
      modifies this, state, k
      ensures Valid() && message == []
    {
      datalen := 0;
      bitlen := 0;
      state[0] := 0x67452301;
      state[1] := 0xEFCDAB89;
      state[2] := 0x98BADCFE;
      state[3] := 0x10325476;
      state[4] := 0xc3d2e1f0;
      k[0] := 0x5a827999;
      k[1] := 0x6ed9eba1;
      k[2] := 0x8f1bbcdc;
      k[3] := 0xca62c1d6;
      message := [];
      StreamStart(f, H0);
      assert Value() == H0 && data[..datalen] == [];
    }

    /** One word, most significant byte first. */
    method LoadWord(ghost block: Block, ghost i: nat, j: nat) returns (w: word)
      requires data.Length == 64 && block == data[..] && i < 16 && j == 4 * i
      ensures w == BlockWord(block, i)
    {
      w := Add(Add(Add(Widen(data[j]) << 24, Widen(data[j + 1]) << 16), Widen(data[j + 2]) << 8), Widen(data[j + 3]));
      SumIsConcatenation(Widen(data[j]), Widen(data[j + 1]), Widen(data[j + 2]), Widen(data[j + 3]));
    }

    /** The first loop of sha1_transform: the words of the block. */
    method Load(ghost block: Block, m: array<word>)
      requires data.Length == 64 && block == data[..] && m.Length == 80
      modifies m
      ensures m[..16] == W(block, 16)
    {
      var i, j := 0, 0;
      while i < 16
        invariant 0 <= i <= 16 && j == 4 * i
        invariant m[..i] == W(block, i)
      {
        m[i] := LoadWord(block, i, j);
        LoadStep(block, i);
        i, j := i + 1, j + 4;
      }
    }

    /** One word of the schedule from four before it. */
    method ExpandWord(m: array<word>, i: nat, ghost w: seq<word>)
      requires 16 <= i < m.Length && m[..i] == w
      modifies m
      ensures m[..i] == w && m[i] == Rotl1(w[i - 3] ^ w[i - 8] ^ w[i - 14] ^ w[i - 16])
    {
      m[i] := m[i - 3] ^ m[i - 8] ^ m[i - 14] ^ m[i - 16];
      m[i] := (m[i] << 1) | (m[i] >> 31);
    }

    /** The second loop: the rest of the message schedule. */
    method Expand(ghost block: Block, m: array<word>)
      requires m.Length == 80
      requires m[..16] == W(block, 16)
      modifies m
      ensures m[..] == W(block, 80)
    {
      var i := 16;
      while i < 80
        invariant 16 <= i <= 80
        invariant m[..i] == W(block, i)
      {
        ghost var w := m[..i];
        ExpandWord(m, i, w);
        ExpandStep(block, i, w);
        assert m[..i + 1] == w + [m[i]];
        i := i + 1;
      }
    }

    /** The four round loops. */
    method Run(m: array<word>, ghost w: seq<word>, h: Hash) returns (a: word, b: word, c: word, d: word, e: word)
      requires m.Length == 80 && m[..] == w
      requires k.Length == 4 && k[0] == 0x5a827999 && k[1] == 0x6ed9eba1 && k[2] == 0x8f1bbcdc && k[3] == 0xca62c1d6
      ensures Hash(a, b, c, d, e) == Rounds(h, w, 80)
    {
      a, b, c, d, e := h.a, h.b, h.c, h.d, h.e;
      var i := 0;
      while i < 20
        invariant 0 <= i <= 20 && Hash(a, b, c, d, e) == Rounds(h, w, i)
      {
        var t := Add(Add(Add(Add((a << 5) | (a >> 27), (b & c) ^ (!b & d)), e), k[0]), m[i]);
        RoundCh(a, b, c, d, e, i, w[i]);
        e := d;
        d := c;
        c := (b << 30) | (b >> 2);
        b := a;
        a := t;
        i := i + 1;
      }
      while i < 40
        invariant 20 <= i <= 40 && Hash(a, b, c, d, e) == Rounds(h, w, i)
      {
        var t := Add(Add(Add(Add((a << 5) | (a >> 27), b ^ c ^ d), e), k[1]), m[i]);
        RoundParity(a, b, c, d, e, i, w[i]);
        e := d;
        d := c;
        c := (b << 30) | (b >> 2);
        b := a;
        a := t;
        i := i + 1;
      }
      while i < 60
        invariant 40 <= i <= 60 && Hash(a, b, c, d, e) == Rounds(h, w, i)
      {
        var t := Add(Add(Add(Add((a << 5) | (a >> 27), (b & c) ^ (b & d) ^ (c & d)), e), k[2]), m[i]);
        RoundMaj(a, b, c, d, e, i, w[i]);
        e := d;
        d := c;
        c := (b << 30) | (b >> 2);
        b := a;
        a := t;
        i := i + 1;
      }
      while i < 80
        invariant 60 <= i <= 80 && Hash(a, b, c, d, e) == Rounds(h, w, i)
      {
        var t := Add(Add(Add(Add((a << 5) | (a >> 27), b ^ c ^ d), e), k[3]), m[i]);
        RoundParity(a, b, c, d, e, i, w[i]);
        e := d;
        d := c;
        c := (b << 30) | (b >> 2);
        b := a;
        a := t;
        i := i + 1;
      }
    }

    /** sha1_transform, on the context's own buffer. */
    method Transform()
      requires Allocated() && Constants()
      modifies state
      ensures Value() == Compress(old(Value()), data[..])
    {
      ghost var block: Block := data[..];
      var m := new word[80];
      Load(block, m);
      Expand(block, m);
      var h := Hash(state[0], state[1], state[2], state[3], state[4]);
      var a, b, c, d, e := Run(m, W(block, 80), h);
      Finish(h, block, Hash(a, b, c, d, e));
      state[0] := Add(state[0], a);
      state[1] := Add(state[1], b);
      state[2] := Add(state[2], c);
      state[3] := Add(state[3], d);
      state[4] := Add(state[4], e);
    }

    /** A byte goes into the buffer. */
    method Store(b: byte)
      requires Allocated() && datalen < 64
      modifies this`datalen, this`message, data
      ensures datalen == old(datalen) + 1 && message == old(message) + [b]
      ensures data[..datalen] == old(data[..datalen]) + [b]
    {
      data[datalen] := b;
      datalen := datalen + 1;
      message := message + [b];
    }

    /** A full buffer is hashed. */
    method Flush(ghost before: seq<byte>, ghost buffer: seq<byte>, ghost b: byte)
      requires Allocated() && Constants() && IsCompress(f) && |buffer| == 63 && data[..] == buffer + [b] && message == before + [b]
      requires Streaming(f, H0, before, buffer, Value(), bitlen)
      modifies this`datalen, this`bitlen, state
      ensures Valid()
    {
      ghost var h, block: Block := Value(), buffer + [b];
      StreamBlock(f, H0, before, buffer, h, bitlen, b);
      assert data[..] == block;
      Transform();
      assert Value() == f(h, block) by {
        assert Value() == Compress(h, block);
      }
      bitlen := (bitlen + 512) % U64;
      datalen := 0;
      assert data[..datalen] == [];
    }

    /** The body of the loop of sha1_update. */
    method Feed(b: byte)
      requires Valid()
      modifies this, data, state
      ensures Valid() && message == old(message) + [b]
    {
      ghost var before, buffer := message, data[..datalen];
      Store(b);
      if datalen == 64 {
        assert data[..] == buffer + [b];
        Flush(before, buffer, b);
      } else {
        StreamByte(f, H0, before, buffer, Value(), bitlen, b);
      }
    }

    /** sha1_update */
    method Update(bytes: seq<byte>)
      requires Valid()
      modifies this, data, state
      ensures Valid() && message == old(message) + bytes
    {
      var i := 0;
      while i < |bytes|
        invariant 0 <= i <= |bytes|
        invariant Valid() && message == old(message) + bytes[..i]
      {
        Feed(bytes[i]);
        i := i + 1;
      }
    }

    /** The big-endian bit count at the end of the last block. */
    method PutLength()
      requires data.Length == 64
      modifies data
      ensures data[..56] == old(data[..56])
      ensures data[56..] == LengthBytes(bitlen, 8)
    {
      data[63] := bitlen % 0x100;
      data[62] := bitlen / 0x100 % 0x100;
      data[61] := bitlen / 0x1_0000 % 0x100;
      data[60] := bitlen / 0x100_0000 % 0x100;
      data[59] := bitlen / 0x1_0000_0000 % 0x100;
      data[58] := bitlen / 0x100_0000_0000 % 0x100;
      data[57] := bitlen / 0x1_0000_0000_0000 % 0x100;
      data[56] := bitlen / 0x100_0000_0000_0000 % 0x100;
      LengthInPlace(data[..], bitlen);
      assert data[56..] == data[..][56..];
    }

    /** Zero bytes from position i up to `end`. */
    method Fill(i: nat, end: nat)
      requires Allocated() && i <= end <= 64
      modifies data
      ensures data[..i] == old(data[..i]) && data[i..end] == Zeros(end - i)
    {
      var j := i;
      while j < end
        invariant i <= j <= end
        invariant data[..i] == old(data[..i])
        invariant forall x | i <= x < j :: data[x] == 0
      {
        data[j] := 0;
        j := j + 1;
      }
    }

    /** The length fits after the remainder, the 0x80 byte and zeros. */
    method PadShortBuffer()
      requires Valid() && datalen < 56
      modifies data
      ensures forall length: seq<byte> | |length| == 8 ::
        f(Value(), data[..56] + length) == Absorb(f, H0, PadWith(message, length))
    {
      ghost var buffer := data[..datalen];
      data[datalen] := 0x80;
      assert data[..datalen + 1] == buffer + [0x80];
      Fill(datalen + 1, 56);
      assert data[..56] == buffer + [0x80] + Zeros(55 - datalen);
      forall length: seq<byte> | |length| == 8 {
        PadShort(f, H0, message, buffer, Value(), bitlen, length);
      }
    }

    /** It does not: the block is filled with zeros and hashed. */
    method FillBlock()
      requires Allocated() && Constants() && datalen < 64
      modifies data, state
      ensures Value() == Compress(old(Value()), old(data[..datalen]) + [0x80] + Zeros(63 - datalen))
    {
      ghost var buffer := data[..datalen];
      data[datalen] := 0x80;
      assert data[..datalen + 1] == buffer + [0x80];
      Fill(datalen + 1, 64);
      assert data[..] == buffer + [0x80] + Zeros(63 - datalen);
      Transform();
    }

    /** Then zeros start the next block. */
    method PadLongBuffer()
      requires Valid() && datalen >= 56
      modifies data, state
      ensures forall length: seq<byte> | |length| == 8 ::
        f(Value(), data[..56] + length) == Absorb(f, H0, PadWith(message, length))
    {
      ghost var buffer, h := data[..datalen], Value();
      FillBlock();
      Fill(0, 56);
      assert data[..56] == Zeros(56);
      forall length: seq<byte> | |length| == 8 {
        PadLong(f, H0, message, buffer, h, bitlen, length);
      }
    }

    /** The first part of sha1_final: all of the last block but its last eight bytes. */
    method PadBuffer()
      requires Valid()
      modifies data, state
      ensures forall length: seq<byte> | |length| == 8 ::
        f(Value(), data[..56] + length) == Absorb(f, H0, PadWith(message, length))
    {
      if datalen < 56 {
        PadShortBuffer();
      } else {
        PadLongBuffer();
      }
    }

    /** The second part: the length and the last block. */
    method Close(ghost length: seq<byte>)
      requires Allocated() && Constants() && |length| == 8 && length == LengthBytes((bitlen + datalen * 8) % U64, 8)
      modifies this, data, state
      ensures Allocated() && message == old(message)
      ensures Value() == Compress(old(Value()), old(data[..56]) + length)
    {
      bitlen := (bitlen + datalen * 8) % U64;
      PutLength();
      assert data[..] == old(data[..56]) + length;
      Transform();
    }

    /** sha1_final */
    method Final(hash: array<byte>)
      requires Valid() && hash.Length >= 20 && hash != data
      requires 8 * |message| < U64
      modifies this, data, state, hash
      ensures hash[..20] == HashBytes(Digest(f, H0, old(message)), 20)
    {
      BitsOfMessage(|message|, datalen, bitlen);
      PadBuffer();
      Close(LengthBytes(8 * |message|, 8));
      HashBytesColumns(Value());
      Output(hash, HashBytes(Value(), 20));
    }

    /** The i-th byte of each of the five words. */
    method OutputColumn(hash: array<byte>, i: nat)
      requires Allocated() && hash.Length >= 20 && i < 4
      modifies hash
      ensures DigestColumn(hash[..20], Value(), i)
      ensures forall x | 0 <= x < 20 && x % 4 != i :: hash[x] == old(hash[x])
    {
      hash[i] := WordByte(state[0], i);
      hash[i + 4] := WordByte(state[1], i);
      hash[i + 8] := WordByte(state[2], i);
      hash[i + 12] := WordByte(state[3], i);
      hash[i + 16] := WordByte(state[4], i);
    }

    /** The hash value, most significant byte of each word first. */
    method Output(hash: array<byte>, ghost digest: seq<byte>)
      requires Allocated() && hash.Length >= 20 && |digest| == 20
      requires forall x | 0 <= x < 4 :: DigestColumn(digest, Value(), x)
      modifies hash
      ensures hash[..20] == digest
    {
      var i := 0;
      while i < 4
        invariant 0 <= i <= 4
        invariant forall x | 0 <= x < 20 && x % 4 < i :: hash[x] == digest[x]
      {
        OutputColumn(hash, i);
        SameColumn(hash[..20], digest, Value(), i);
        i := i + 1;
      }
    }
  }

  lemma SameColumn(a: seq<byte>, b: seq<byte>, h: Hash, i: nat)
    requires |a| == 20 && |b| == 20 && i < 4 && DigestColumn(a, h, i) && DigestColumn(b, h, i)
    ensures forall x | 0 <= x < 20 && x % 4 == i :: a[x] == b[x]
  {
    forall x | 0 <= x < 20 && x % 4 == i
      ensures a[x] == b[x]
    {
      assert x == i || x == i + 4 || x == i + 8 || x == i + 12 || x == i + 16;
    }
  }

  function Concatenated(chunks: seq<seq<byte>>): seq<byte> {
    if chunks == [] then [] else Concatenated(chunks[..|chunks| - 1]) + chunks[|chunks| - 1]
  }

  lemma OneMoreChunk(chunks: seq<seq<byte>>, i: nat)
    requires i < |chunks|
    ensures Concatenated(chunks[..i + 1]) == Concatenated(chunks[..i]) + chunks[i]
  {
    assert chunks[..i + 1][..i] == chunks[..i];
  }

  lemma Regrouped(a: seq<byte>, b: seq<byte>, c: seq<byte>)
    ensures a + b + c == a + (b + c)
  {
  }

  /** Any number of calls of sha1_update. */
  method UpdateAll(context: Sha1Context, chunks: seq<seq<byte>>)
    requires context.Valid()
    modifies context, context.data, context.state
    ensures context.Valid() && context.message == old(context.message) + Concatenated(chunks)
  {
    var i := 0;
    while i < |chunks|
      invariant 0 <= i <= |chunks|
      invariant context.Valid() && context.message == old(context.message) + Concatenated(chunks[..i])
    {
      OneMoreChunk(chunks, i);
      Regrouped(old(context.message), Concatenated(chunks[..i]), chunks[i]);
      context.Update(chunks[i]);
      i := i + 1;
    }
    assert chunks[..i] == chunks;
  }

  /** sha1_final into a buffer of its own. */
  method FinalDigest(context: Sha1Context) returns (digest: seq<byte>)
    requires context.Valid() && 8 * |context.message| < U64
    modifies context, context.data, context.state
    ensures digest == HashBytes(Digest(context.f, H0, old(context.message)), 20)
  {
    var hash := new byte[20];
    context.Final(hash);
    digest := hash[..20];
  }

  /** sha1_init on a new context. */
  method Start() returns (context: Sha1Context)
    ensures fresh(context) && fresh(context.data) && fresh(context.state)
    ensures context.Valid() && context.message == []
  {
    context := new Sha1Context();
    context.Init();
  }

  /** init, any number of updates, final. */
  method Run(chunks: seq<seq<byte>>) returns (digest: seq<byte>, ghost f: (Hash, Block) -> Hash)
    requires 8 * |Concatenated(chunks)| < U64
    ensures IsCompress(f) && digest == HashBytes(Digest(f, H0, Concatenated(chunks)), 20)
  {
    var context := Start();
    UpdateAll(context, chunks);
    f := context.f;
    assert context.message == Concatenated(chunks);
    digest := FinalDigest(context);
  }

  lemma DigestIsSha1(f: (Hash, Block) -> Hash, m: seq<byte>)
    requires IsCompress(f) && 8 * |m| < U64
    ensures HashBytes(Digest(f, H0, m), 20) == Sha1(m)
  {
    AbsorbCompress(f, H0, Pad(m));
  }

  /** The digest is that of the standard, and depends on the message only. */
  method HashChunks(chunks: seq<seq<byte>>) returns (digest: seq<byte>)
    requires 8 * |Concatenated(chunks)| < U64
    ensures digest == Sha1(Concatenated(chunks))
  {
    ghost var f;
    digest, f := Run(chunks);
    DigestIsSha1(f, Concatenated(chunks));
  }

  /** init, one update, final. */
  method HashMessage(message: seq<byte>) returns (digest: seq<byte>)
    requires 8 * |message| < U64
    ensures digest == Sha1(message)
  {
    assert Concatenated([message]) == message;
    digest := HashChunks([message]);
  }

  /** The i-th bytes of the five words of a digest. */
  ghost predicate DigestColumn(digest: seq<byte>, h: Hash, i: nat)
    requires |digest| == 20 && i < 4
  {
    && digest[i] == WordByte(h.a, i) && digest[4 + i] == WordByte(h.b, i) && digest[8 + i] == WordByte(h.c, i)
    && digest[12 + i] == WordByte(h.d, i) && digest[16 + i] == WordByte(h.e, i)
  }

  lemma {:induction false} HashByteAt(h: Hash, n: nat, k: nat)
    requires k < n <= 20
    ensures HashBytes(h, n)[k] == WordByte(WordOf(h, k / 4), k % 4)
    decreases n
  {
    if k < n - 1 {
      HashByteAt(h, n - 1, k);
    }
  }

  lemma HashBytesColumn(h: Hash, x: nat)
    requires x < 4
    ensures DigestColumn(HashBytes(h, 20), h, x)
  {
    HashByteAt(h, 20, x);
    HashByteAt(h, 20, 4 + x);
    HashByteAt(h, 20, 8 + x);
    HashByteAt(h, 20, 12 + x);
    HashByteAt(h, 20, 16 + x);
  }

  lemma HashBytesColumns(h: Hash)
    ensures forall x | 0 <= x < 4 :: DigestColumn(HashBytes(h, 20), h, x)
  {
    forall x | 0 <= x < 4
      ensures DigestColumn(HashBytes(h, 20), h, x)
    {
      HashBytesColumn(h, x);
    }
  }

  lemma Quotients(x: nat)
    ensures x / 0x100 / 0x100 == x / 0x1_0000 && x / 0x1_0000 / 0x100 == x / 0x100_0000
    ensures x / 0x100_0000 / 0x100 == x / 0x1_0000_0000 && x / 0x1_0000_0000 / 0x100 == x / 0x100_0000_0000
    ensures x / 0x100_0000_0000 / 0x100 == x / 0x1_0000_0000_0000
    ensures x / 0x1_0000_0000_0000 / 0x100 == x / 0x100_0000_0000_0000
  {
  }

  /** The eight bytes, each by its own shift as the code has it. */
  lemma EightBytes(x: nat)
    ensures LengthBytes(x, 8) ==
      [x / 0x100_0000_0000_0000 % 0x100, x / 0x1_0000_0000_0000 % 0x100, x / 0x100_0000_0000 % 0x100,
       x / 0x1_0000_0000 % 0x100, x / 0x100_0000 % 0x100, x / 0x1_0000 % 0x100, x / 0x100 % 0x100, x % 0x100]
  {
    Quotients(x);
    var q1, q2, q3 := x / 0x100, x / 0x1_0000, x / 0x100_0000;
    var q4, q5, q6, q7 := x / 0x1_0000_0000, x / 0x100_0000_0000, x / 0x1_0000_0000_0000, x / 0x100_0000_0000_0000;
    assert LengthBytes(q7, 1) == [q7 % 0x100];
    assert LengthBytes(q6, 2) == [q7 % 0x100, q6 % 0x100];
    assert LengthBytes(q5, 3) == [q7 % 0x100, q6 % 0x100, q5 % 0x100];
    assert LengthBytes(q4, 4) == [q7 % 0x100, q6 % 0x100, q5 % 0x100, q4 % 0x100];
    assert LengthBytes(q3, 5) == [q7 % 0x100, q6 % 0x100, q5 % 0x100, q4 % 0x100, q3 % 0x100];
    assert LengthBytes(q2, 6) == [q7 % 0x100, q6 % 0x100, q5 % 0x100, q4 % 0x100, q3 % 0x100, q2 % 0x100];
    assert LengthBytes(q1, 7) == [q7 % 0x100, q6 % 0x100, q5 % 0x100, q4 % 0x100, q3 % 0x100, q2 % 0x100, q1 % 0x100];
  }

  lemma LengthInPlace(block: seq<byte>, x: nat)
    requires |block| == 64
    requires block[56] == x / 0x100_0000_0000_0000 % 0x100 && block[57] == x / 0x1_0000_0000_0000 % 0x100
    requires block[58] == x / 0x100_0000_0000 % 0x100 && block[59] == x / 0x1_0000_0000 % 0x100
    requires block[60] == x / 0x100_0000 % 0x100 && block[61] == x / 0x1_0000 % 0x100
    requires block[62] == x / 0x100 % 0x100 && block[63] == x % 0x100
    ensures block[56..] == LengthBytes(x, 8)
  {
    EightBytes(x);
  }

  /** The counter and the remainder make up the message length. */
  lemma BitsOfMessage(total: nat, rest: nat, bits: nat)
    requires rest <= total && (total - rest) % 64 == 0 && 8 * total < U64 && bits == Counted((total - rest) / 64)
    ensures (bits + rest * 8) % U64 == 8 * total
  {
    CountedIs((total - rest) / 64);
  }

  /** The code adds the shifted bytes of a word where the standard concatenates them. */
  lemma SumIsConcatenation(x: word, y: word, z: word, w: word)
    requires x < 256 && y < 256 && z < 256 && w < 256
    ensures Add(Add(Add(x << 24, y << 16), z << 8), w) == Concat(x, y, z, w)
  {
  }

  lemma LoadStep(m: Block, n: nat)
    requires n < 16
    ensures W(m, n + 1) == W(m, n) + [BlockWord(m, n)]
  {
  }

  lemma ExpandStep(m: Block, n: nat, w: seq<word>)
    requires 16 <= n < 80 && w == W(m, n)
    ensures W(m, n + 1) == w + [Rotl1(w[n - 3] ^ w[n - 8] ^ w[n - 14] ^ w[n - 16])]
  {
  }

  lemma RoundCh(a: word, b: word, c: word, d: word, e: word, t: nat, w: word)
    requires t < 20
    ensures Round(Hash(a, b, c, d, e), t, w) ==
            Hash(Add(Add(Add(Add((a << 5) | (a >> 27), (b & c) ^ (!b & d)), e), 0x5a827999), w), a, (b << 30) | (b >> 2), c, d)
  {
  }

  lemma RoundParity(a: word, b: word, c: word, d: word, e: word, t: nat, w: word)
    requires 20 <= t < 40 || 60 <= t < 80
    ensures Round(Hash(a, b, c, d, e), t, w) ==
            Hash(Add(Add(Add(Add((a << 5) | (a >> 27), b ^ c ^ d), e), if t < 40 then 0x6ed9eba1 else 0xca62c1d6), w),
                 a, (b << 30) | (b >> 2), c, d)
  {
  }

  lemma RoundMaj(a: word, b: word, c: word, d: word, e: word, t: nat, w: word)
    requires 40 <= t < 60
    ensures Round(Hash(a, b, c, d, e), t, w) ==
            Hash(Add(Add(Add(Add((a << 5) | (a >> 27), (b & c) ^ (b & d) ^ (c & d)), e), 0x8f1bbcdc), w), a, (b << 30) | (b >> 2), c, d)
  {
  }

  lemma Finish(h: Hash, m: Block, v: Hash)
    requires v == Rounds(h, W(m, 80), 80)
    ensures Compress(h, m) == Hash(Add(h.a, v.a), Add(h.b, v.b), Add(h.c, v.c), Add(h.d, v.d), Add(h.e, v.e))
  {
  }
}
