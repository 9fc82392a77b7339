/** Which end record the VPK reader accepts, by the bytes of the file. */
module ZipDirectory {
  import opened Bytes
  import opened Zip

  /** The bytes "PK\5\6" with room for a whole record. */
  ghost predicate SignatureAt(file: seq<byte>, at: nat) {
    at + 22 <= |file| && file[at..at + 4] == [80, 75, 5, 6]
  }

  /** The last signature that is within 65,558 bytes of the end of the file: one record and its
      longest comment. */
  ghost predicate IsLast(file: seq<byte>, at: nat) {
    SignatureAt(file, at) && |file| <= at + 65558 && forall j: nat | j > at :: !SignatureAt(file, j)
  }

  /** An unsplit archive with as many entries as this record says, short of the ZIP64 mark, and
      a directory inside the file. */
  ghost predicate Describes(file: seq<byte>, at: nat, d: Directory)
    requires at + 22 <= |file|
  {
    && file[at + 4..at + 8] == [0, 0, 0, 0]
    && LittleEndian(file[at + 8..at + 10]) == LittleEndian(file[at + 10..at + 12]) == d.count != 65535
    && LittleEndian(file[at + 16..at + 20]) == d.offset
    && d.offset + LittleEndian(file[at + 12..at + 16]) <= |file|
  }

  lemma SignatureIs(b: seq<byte>, i: nat)
    requires i + 4 <= |b|
    ensures Le32(b, i) == EOCD_SIGNATURE <==> b[i..i + 4] == [80, 75, 5, 6]
  {
    assert b[i..i + 4] == [b[i], b[i + 1], b[i + 2], b[i + 3]];
  }

  lemma TailSlice(file: seq<byte>, skip: nat, i: nat, n: nat)
    requires skip == |file| - |Tail(file)| && i + n <= |Tail(file)|
    ensures Tail(file)[i..i + n] == file[skip + i..skip + i + n]
  {
  }

  /** The scan stops at the last signature, or there is none within reach. */
  lemma ScanIsLast(file: seq<byte>)
    requires |file| >= 22
    ensures var skip, found := |file| - |Tail(file)|, ScanBack(Tail(file), |Tail(file)| - 22);
      && (found.Some? ==> IsLast(file, skip + found.value))
      && (found.None? ==> forall at: nat :: !IsLast(file, at))
  {
    var tail := Tail(file);
    var skip, found := |file| - |tail|, ScanBack(tail, |tail| - 22);
    forall j: nat | j + 22 <= |tail|
      ensures SignatureAt(file, skip + j) <==> Le32(tail, j) == EOCD_SIGNATURE
    {
      SignatureIs(tail, j);
      TailSlice(file, skip, j, 4);
    }
    var from := if found.Some? then found.value + 1 else 0;
    forall at: nat | at >= skip + from
      ensures !SignatureAt(file, at)
    {
      if at + 22 <= |file| {
        assert SignatureAt(file, skip + (at - skip)) <==> Le32(tail, at - skip) == EOCD_SIGNATURE;
      }
    }
  }

  lemma OneLast(file: seq<byte>, a: nat, b: nat)
    requires IsLast(file, a) && IsLast(file, b)
    ensures a == b
  {
  }

  /** The fields of a record in the tail are those of the file. */
  lemma FieldsOfTail(tail: seq<byte>, file: seq<byte>, i: nat, at: nat)
    requires i + 22 <= |tail| && at + 22 <= |file| && tail[i..i + 22] == file[at..at + 22]
    ensures Le16(tail, i + 8) == LittleEndian(file[at + 8..at + 10])
    ensures Le16(tail, i + 10) == LittleEndian(file[at + 10..at + 12])
    ensures Le32(tail, i + 12) == LittleEndian(file[at + 12..at + 16])
    ensures Le32(tail, i + 16) == LittleEndian(file[at + 16..at + 20])
  {
    Le16IsLittleEndian(tail, i + 8);
    Le16IsLittleEndian(tail, i + 10);
    Le32IsLittleEndian(tail, i + 12);
    Le32IsLittleEndian(tail, i + 16);
    Inner(tail, file, i, at, 8, 10);
    Inner(tail, file, i, at, 10, 12);
    Inner(tail, file, i, at, 12, 16);
    Inner(tail, file, i, at, 16, 20);
  }

  lemma Inner(tail: seq<byte>, file: seq<byte>, i: nat, at: nat, from: nat, to: nat)
    requires i + 22 <= |tail| && at + 22 <= |file| && tail[i..i + 22] == file[at..at + 22] && from <= to <= 22
    ensures tail[i + from..i + to] == file[at + from..at + to]
  {
    SliceOfRecord(tail, i, from, to);
    SliceOfRecord(file, at, from, to);
  }

  lemma SliceOfRecord(b: seq<byte>, i: nat, from: nat, to: nat)
    requires i + 22 <= |b| && from <= to <= 22
    ensures b[i + from..i + to] == b[i..i + 22][from..to]
  {
    var s := b[i..i + 22];
    assert forall k | 0 <= k < to - from :: s[from..to][k] == b[i + from..i + to][k];
  }

  lemma RecordIs(file: seq<byte>, skip: nat, i: nat, d: Directory)
    requires skip == |file| - |Tail(file)| && i + 22 <= |Tail(file)|
    ensures EndRecordAt(Tail(file), i, |file|) == Ok(d) <==> Describes(file, skip + i, d)
  {
    var tail, at := Tail(file), skip + i;
    TailSlice(file, skip, i, 22);
    FieldsOfTail(tail, file, i, at);
    Inner(tail, file, i, at, 4, 8);
    DisksAreZero(tail, i);
  }

  lemma DisksAreZero(b: seq<byte>, i: nat)
    requires i + 22 <= |b|
    ensures Le16(b, i + 4) == 0 && Le16(b, i + 6) == 0 <==> b[i + 4..i + 8] == [0, 0, 0, 0]
  {
    assert b[i + 4..i + 8] == [b[i + 4], b[i + 5], b[i + 6], b[i + 7]];
  }

  /** The directory is found exactly when the last signature within reach is that of a record
      that describes it; an earlier record is not tried. */
  lemma DirectoryIsExact(file: seq<byte>, d: Directory)
    requires |file| >= 22
    ensures FindDirectory(file) == Ok(d) <==> exists at: nat :: IsLast(file, at) && Describes(file, at, d)
  {
    ScanIsLast(file);
    var skip, found := |file| - |Tail(file)|, ScanBack(Tail(file), |Tail(file)| - 22);
    if found.Some? {
      RecordIs(file, skip, found.value, d);
      forall at: nat | IsLast(file, at)
        ensures at == skip + found.value
      {
        OneLast(file, at, skip + found.value);
      }
    }
  }
}
