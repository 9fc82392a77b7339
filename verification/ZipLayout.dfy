/** The record layouts of the ZIP APPNOTE, as the writer of an archive fills them:
    sections 4.3.7 (local header), 4.3.12 (central header) and 4.3.16 (end record). */
module ZipLayout {
  import opened Bytes
  import opened Layout
  import opened Zip

  /** An entry as its two records say it, whether or not what they say is so.  The reader
      ignores madeBy, needed, time, date, internal, and `sums`, the checksum and the sizes of
      the local header. */
  datatype Fields = Fields(name: seq<byte>, compression: nat, crc: nat, size: nat, payload: seq<byte>, flags: nat, disk: nat,
                           attributes: nat, localCompression: nat, sums: seq<byte>, madeBy: nat, needed: nat, time: nat,
                           date: nat, internal: nat, localExtra: seq<byte>, extra: seq<byte>, comment: seq<byte>)

  /** The widths of the fields. */
  predicate Fits(e: Fields) {
    && |e.name| < U16 && e.compression < U16 && e.crc < U32 && e.size < U32 && |e.payload| < U32 && e.flags < U16
    && e.disk < U16 && e.attributes < U32 && e.localCompression < U16 && |e.sums| == 12
    && e.madeBy < U16 && e.needed < U16 && e.time < U16 && e.date < U16 && e.internal < U16
    && |e.localExtra| < U16 && |e.extra| < U16 && |e.comment| < U16
  }

  type Item = e: Fields | Fits(e) witness Fields([], 0, 0, 0, [], 0, 0, 0, 0, Zeros(12), 0, 0, 0, 0, 0, [], [], [])

  // ---- section 4.3.7 ----

  function LocalFront(e: Item): (b: seq<byte>)
    ensures |b| == 14
  {
    PutLe32(LOCAL_SIGNATURE) + PutLe16(e.needed) + PutLe16(e.flags) + PutLe16(e.localCompression) +
    PutLe16(e.time) + PutLe16(e.date)
  }

  function LocalBack(e: Item): (b: seq<byte>)
    ensures |b| == 16
  {
    e.sums + PutLe16(|e.name|) + PutLe16(|e.localExtra|)
  }

  function LocalHeader(e: Item): (b: seq<byte>)
    ensures |b| == 30
  {
    LocalFront(e) + LocalBack(e)
  }

  function Local(e: Item): (b: seq<byte>)
    ensures |b| == 30 + |e.name| + |e.localExtra| + |e.payload|
  {
    LocalHeader(e) + e.name + e.localExtra + e.payload
  }

  // ---- section 4.3.12 ----

  function CentralFront(e: Item): (b: seq<byte>)
    ensures |b| == 16
  {
    PutLe32(CENTRAL_SIGNATURE) + PutLe16(e.madeBy) + PutLe16(e.needed) + PutLe16(e.flags) + PutLe16(e.compression) +
    PutLe16(e.time) + PutLe16(e.date)
  }

  function CentralSizes(e: Item): (b: seq<byte>)
    ensures |b| == 18
  {
    PutLe32(e.crc) + PutLe32(|e.payload|) + PutLe32(e.size) +
    PutLe16(|e.name|) + PutLe16(|e.extra|) + PutLe16(|e.comment|)
  }

  function CentralBack(e: Item, offset: nat): (b: seq<byte>)
    ensures |b| == 12
  {
    PutLe16(e.disk) + PutLe16(e.internal) + PutLe32(e.attributes) + PutLe32(offset % U32)
  }

  function CentralHeader(e: Item, offset: nat): (b: seq<byte>)
    ensures |b| == 46
  {
    CentralFront(e) + CentralSizes(e) + CentralBack(e, offset)
  }

  function CentralRecord(e: Item, offset: nat): (b: seq<byte>)
    ensures |b| == 46 + |e.name| + |e.extra| + |e.comment|
  {
    CentralHeader(e, offset) + e.name + e.extra + e.comment
  }

  // ---- section 4.3.16 ----

  function EndRecord(count: nat, size: nat, offset: nat, comment: seq<byte>): (b: seq<byte>)
    requires count < U16 && size < U32 && offset < U32 && |comment| < U16
    ensures |b| == 22 + |comment|
  {
    PutLe32(EOCD_SIGNATURE) + PutLe16(0) + PutLe16(0) + PutLe16(count) + PutLe16(count) +
    PutLe32(size) + PutLe32(offset) + PutLe16(|comment|) + comment
  }

  /** The records start with "PK\3\4", "PK\1\2" and "PK\5\6". */
  lemma Signatures(e: Item, offset: nat, count: nat, size: nat, comment: seq<byte>)
    requires count < U16 && size < U32 && offset < U32 && |comment| < U16
    ensures Local(e)[..4] == [80, 75, 3, 4] && CentralRecord(e, offset)[..4] == [80, 75, 1, 2]
    ensures EndRecord(count, size, offset, comment)[..4] == [80, 75, 5, 6]
  {
    var l, c := LocalFront(e), CentralFront(e);
    assert l[..4] == [80, 75, 3, 4] && c[..4] == [80, 75, 1, 2];
    assert Local(e)[..4] == l[..4] && CentralRecord(e, offset)[..4] == c[..4];
  }

  // ---- reading a field out of its record ----

  lemma CentralFrontFields(e: Item)
    ensures var h := CentralFront(e); Le32(h, 0) == CENTRAL_SIGNATURE && Le16(h, 8) == e.flags && Le16(h, 10) == e.compression
  {
    var h := CentralFront(e);
    Read32([], CENTRAL_SIGNATURE, h[4..], h, 0);
    Read16(h[..8], e.flags, h[10..], h, 8);
    Read16(h[..10], e.compression, h[12..], h, 10);
  }

  lemma CentralSizesFields(e: Item)
    ensures var h := CentralSizes(e);
      && Le32(h, 0) == e.crc && Le32(h, 4) == |e.payload| && Le32(h, 8) == e.size
      && Le16(h, 12) == |e.name| && Le16(h, 14) == |e.extra| && Le16(h, 16) == |e.comment|
  {
    var h := CentralSizes(e);
    Read32([], e.crc, h[4..], h, 0);
    Read32(h[..4], |e.payload|, h[8..], h, 4);
    Read32(h[..8], e.size, h[12..], h, 8);
    Read16(h[..12], |e.name|, h[14..], h, 12);
    Read16(h[..14], |e.extra|, h[16..], h, 14);
    Read16(h[..16], |e.comment|, [], h, 16);
  }

  lemma CentralBackFields(e: Item, offset: nat)
    requires offset < U32
    ensures var h := CentralBack(e, offset); Le16(h, 0) == e.disk && Le32(h, 4) == e.attributes && Le32(h, 8) == offset
  {
    var h := CentralBack(e, offset);
    Read16([], e.disk, h[2..], h, 0);
    Read32(h[..4], e.attributes, h[8..], h, 4);
    Read32(h[..8], offset, [], h, 8);
  }

  lemma LocalFrontFields(e: Item)
    ensures var h := LocalFront(e); Le32(h, 0) == LOCAL_SIGNATURE && Le16(h, 8) == e.localCompression
  {
    var h := LocalFront(e);
    Read32([], LOCAL_SIGNATURE, h[4..], h, 0);
    Read16(h[..8], e.localCompression, h[10..], h, 8);
  }

  lemma LocalBackFields(e: Item)
    ensures var h := LocalBack(e); Le16(h, 12) == |e.name| && Le16(h, 14) == |e.localExtra|
  {
    var h := LocalBack(e);
    Read16(h[..12], |e.name|, h[14..], h, 12);
    Read16(h[..14], |e.localExtra|, [], h, 14);
  }

  lemma EndRecordFields(count: nat, size: nat, offset: nat, comment: seq<byte>)
    requires count < U16 && size < U32 && offset < U32 && |comment| < U16
    ensures var h := EndRecord(count, size, offset, comment);
      && Le32(h, 0) == EOCD_SIGNATURE && Le16(h, 4) == 0 && Le16(h, 6) == 0 && Le16(h, 8) == count
      && Le16(h, 10) == count && Le32(h, 12) == size && Le32(h, 16) == offset
  {
    var h := EndRecord(count, size, offset, comment);
    Read32([], EOCD_SIGNATURE, h[4..], h, 0);
    Read16(h[..4], 0, h[6..], h, 4);
    Read16(h[..6], 0, h[8..], h, 6);
    Read16(h[..8], count, h[10..], h, 8);
    Read16(h[..10], count, h[12..], h, 10);
    Read32(h[..12], size, h[16..], h, 12);
    Read32(h[..16], offset, h[20..], h, 16);
  }

  /** What the reader makes of the central header of an item. */
  function CentralOf(e: Item, offset: nat): Central {
    Central(e.flags, e.compression, e.crc, |e.payload|, e.size, |e.name|, |e.extra|, |e.comment|, e.disk, e.attributes, offset)
  }

  lemma CentralParts(e: Item, offset: nat)
    ensures var h := CentralHeader(e, offset);
      h[0..16] == CentralFront(e) && h[16..34] == CentralSizes(e) && h[34..46] == CentralBack(e, offset)
  {
  }

  lemma CentralDecodes(e: Item, offset: nat)
    requires offset < U32
    ensures var h := CentralHeader(e, offset); Le32(h, 0) == CENTRAL_SIGNATURE && DecodeCentral(h) == CentralOf(e, offset)
  {
    var h := CentralHeader(e, offset);
    CentralParts(e, offset);
    CentralFrontFields(e);
    CentralSizesFields(e);
    CentralBackFields(e, offset);
    Inside32(h, 0, CentralFront(e), 0);
    Inside16(h, 0, CentralFront(e), 8);
    Inside16(h, 0, CentralFront(e), 10);
    Inside32(h, 16, CentralSizes(e), 0);
    Inside32(h, 16, CentralSizes(e), 4);
    Inside32(h, 16, CentralSizes(e), 8);
    Inside16(h, 16, CentralSizes(e), 12);
    Inside16(h, 16, CentralSizes(e), 14);
    Inside16(h, 16, CentralSizes(e), 16);
    Inside16(h, 34, CentralBack(e, offset), 0);
    Inside32(h, 34, CentralBack(e, offset), 4);
    Inside32(h, 34, CentralBack(e, offset), 8);
  }

  lemma LocalDecodes(e: Item)
    ensures var h := LocalHeader(e);
      && Le32(h, 0) == LOCAL_SIGNATURE && Le16(h, 8) == e.localCompression && Le16(h, 26) == |e.name| && Le16(h, 28) == |e.localExtra|
  {
    var h := LocalHeader(e);
    assert h[0..14] == LocalFront(e) && h[14..30] == LocalBack(e);
    LocalFrontFields(e);
    LocalBackFields(e);
    Inside32(h, 0, LocalFront(e), 0);
    Inside16(h, 0, LocalFront(e), 8);
    Inside16(h, 14, LocalBack(e), 12);
    Inside16(h, 14, LocalBack(e), 14);
  }
}
