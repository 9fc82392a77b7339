/** CRC-32 as zlib computes it, one byte at a time. */
module Crc32 {
  import opened Bytes

  function Shift(c: bv32): bv32 {
    if c & 1 == 1 then (c >> 1) ^ 0xedb88320 else c >> 1
  }

  function Feed(c: bv32, b: byte): bv32 {
    Shift(Shift(Shift(Shift(Shift(Shift(Shift(Shift(c ^ (b as bv32)))))))))
  }

  function Not(x: bv32): bv32 { !x }

  lemma NotNot(x: bv32)
    ensures Not(Not(x)) == x
  {
  }

  function Fold<S>(f: (S, byte) -> S, s: S, data: seq<byte>): S {
    if data == [] then s else f(Fold(f, s, data[..|data| - 1]), data[|data| - 1])
  }

  lemma {:induction false} FoldInTwo<S>(f: (S, byte) -> S, s: S, a: seq<byte>, b: seq<byte>)
    ensures Fold(f, s, a + b) == Fold(f, Fold(f, s, a), b)
    decreases |b|
  {
    if b == [] {
      assert a + b == a;
    } else {
      assert (a + b)[..|a + b| - 1] == a + b[..|b| - 1];
      FoldInTwo(f, s, a, b[..|b| - 1]);
    }
  }

  /** crc32(crc, data, length) */
  function Crc(crc: bv32, data: seq<byte>): bv32 {
    Not(Fold(Feed, Not(crc), data))
  }

  /** The checksum of a whole is the checksum of its pieces taken one after another. */
  lemma CrcInTwo(crc: bv32, a: seq<byte>, b: seq<byte>)
    ensures Crc(Crc(crc, a), b) == Crc(crc, a + b)
  {
    FoldInTwo(Feed, Not(crc), a, b);
    NotNot(Fold(Feed, Not(crc), a));
  }

  function Checksum(data: seq<byte>): (n: nat)
    ensures n < U32
  {
    Crc(0, data) as int
  }

  lemma FoldOneMore<S>(f: (S, byte) -> S, s: S, data: seq<byte>, n: nat)
    requires n < |data|
    ensures Fold(f, s, data[..n + 1]) == f(Fold(f, s, data[..n]), data[n])
  {
    assert data[..n + 1][..n] == data[..n];
  }

  /** The register byte by byte over "123456789". */
  ghost predicate FeedsDigits(f: (bv32, byte) -> bv32) {
    && f(0xffffffff, 49) == 0x7c231048 && f(0x7c231048, 50) == 0xb0acbb32 && f(0xb0acbb32, 51) == 0x77b79c2d
    && f(0x77b79c2d, 52) == 0x641c1f5c && f(0x641c1f5c, 53) == 0x340ac5e3 && f(0x340ac5e3, 54) == 0xf68d2c9e
    && f(0xf68d2c9e, 55) == 0xaffc9660 && f(0xaffc9660, 56) == 0x651f2550 && f(0x651f2550, 57) == 0x340bc6d9
  }

  lemma FeedDigits()
    ensures FeedsDigits(Feed)
  {
  }

  lemma FoldDigits(f: (bv32, byte) -> bv32, d: seq<byte>)
    requires FeedsDigits(f) && d == [49, 50, 51, 52, 53, 54, 55, 56, 57]
    ensures Fold(f, 0xffffffff, d) == 0x340bc6d9
  {
    assert d[..0] == [] && d[..9] == d;
    FoldOneMore(f, 0xffffffff, d, 0);
    FoldOneMore(f, 0xffffffff, d, 1);
    FoldOneMore(f, 0xffffffff, d, 2);
    FoldOneMore(f, 0xffffffff, d, 3);
    FoldOneMore(f, 0xffffffff, d, 4);
    FoldOneMore(f, 0xffffffff, d, 5);
    FoldOneMore(f, 0xffffffff, d, 6);
    FoldOneMore(f, 0xffffffff, d, 7);
    FoldOneMore(f, 0xffffffff, d, 8);
  }

  /** The check value published with this CRC: the checksum of "123456789". */
  lemma KnownAnswer()
    ensures Crc(0, [49, 50, 51, 52, 53, 54, 55, 56, 57]) == 0xcbf43926
  {
    FeedDigits();
    FoldDigits(Feed, [49, 50, 51, 52, 53, 54, 55, 56, 57]);
  }
}
