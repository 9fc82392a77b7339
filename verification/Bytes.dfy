/** Bytes, and the little-endian and big-endian integers the file formats are made of. */
module Bytes {

  type byte = x: int | 0 <= x < 256

  const SLASH: byte := 47

  const U16 := 0x1_0000
  const U32 := 0x1_0000_0000

  function Le16(b: seq<byte>, i: nat): (n: nat)
    requires i + 2 <= |b|
    ensures n < U16
  {
    (b[i] as int) + 0x100 * (b[i + 1] as int)
  }

  function Le32(b: seq<byte>, i: nat): (n: nat)
    requires i + 4 <= |b|
    ensures n < U32
  {
    (b[i] as int) + 0x100 * (b[i + 1] as int) + 0x1_0000 * (b[i + 2] as int) + 0x100_0000 * (b[i + 3] as int)
  }

  function Be32(b: seq<byte>, i: nat): (n: nat)
    requires i + 4 <= |b|
    ensures n < U32
  {
    0x100_0000 * (b[i] as int) + 0x1_0000 * (b[i + 1] as int) + 0x100 * (b[i + 2] as int) + (b[i + 3] as int)
  }

  /** The number that bytes are, most significant first, and least significant first. */
  function BigEndian(b: seq<byte>): nat {
    if b == [] then 0 else 256 * BigEndian(b[..|b| - 1]) + (b[|b| - 1] as int)
  }

  function LittleEndian(b: seq<byte>): nat {
    if b == [] then 0 else (b[0] as int) + 256 * LittleEndian(b[1..])
  }

  lemma Be32IsBigEndian(b: seq<byte>, i: nat)
    requires i + 4 <= |b|
    ensures Be32(b, i) == BigEndian(b[i..i + 4])
  {
    var d := b[i..i + 4];
    assert BigEndian(d[..1]) == d[0];
    assert d[..2][..1] == d[..1] && BigEndian(d[..2]) == 256 * BigEndian(d[..1]) + d[1] as int;
    assert d[..3][..2] == d[..2] && BigEndian(d[..3]) == 256 * BigEndian(d[..2]) + d[2] as int;
    assert BigEndian(d) == 256 * BigEndian(d[..3]) + d[3] as int;
  }

  lemma Le16IsLittleEndian(b: seq<byte>, i: nat)
    requires i + 2 <= |b|
    ensures Le16(b, i) == LittleEndian(b[i..i + 2])
  {
    var d := b[i..i + 2];
    assert LittleEndian(d[1..]) == d[1];
  }

  lemma Le32IsLittleEndian(b: seq<byte>, i: nat)
    requires i + 4 <= |b|
    ensures Le32(b, i) == LittleEndian(b[i..i + 4])
  {
    Le16IsLittleEndian(b, i + 2);
    var d := b[i..i + 4];
    assert d[1..][1..] == b[i + 2..i + 4];
  }

  function PutLe16(n: nat): (b: seq<byte>)
    requires n < U16
    ensures |b| == 2 && Le16(b, 0) == n
  {
    [n % 0x100, n / 0x100]
  }

  /** The four digits of n in base 256. */
  lemma Digits(n: nat)
    requires n < U32
    ensures n / 0x100_0000 < 0x100
    ensures n == n % 0x100 + 0x100 * (n / 0x100 % 0x100) + 0x1_0000 * (n / 0x1_0000 % 0x100) + 0x100_0000 * (n / 0x100_0000)
  {
    var q := n / 0x100;
    var r := q / 0x100;
    assert n / 0x1_0000 == r && n / 0x100_0000 == r / 0x100;
  }

  function PutLe32(n: nat): (b: seq<byte>)
    requires n < U32
    ensures |b| == 4 && Le32(b, 0) == n
  {
    Digits(n);
    [n % 0x100, n / 0x100 % 0x100, n / 0x1_0000 % 0x100, n / 0x100_0000]
  }

  function Zeros(n: nat): (z: seq<byte>)
    ensures |z| == n && forall i | 0 <= i < n :: z[i] == 0
  {
    seq(n, i => 0)
  }
}
