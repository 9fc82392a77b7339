/** The sealing of head.bin in package_installer.c: three digests written into a copy of the
    template, each over a range that its header fields name. */
module HeadBin {
  import opened Options
  import opened InstallErrors
  import opened Bytes
  import opened CStrings
  import opened Sha1Spec
  import Streaming = Sha1
  import Sfo
  import BlockStream

  const LENGTH := 1072

  // ---- fpkg_hmac ----

  /** The block that the second hash takes: parts of the first digest and zeros. */
  function Rearranged(d: seq<byte>): (b: seq<byte>)
    requires |d| == 20
    ensures |b| == 64
  {
    var quad := d[12..16] + [d[16], d[1], d[2], d[3]];
    d[4..12] + d[4..12] + quad + quad + Zeros(32)
  }

  predicate Hashable(data: seq<byte>) {
    8 * |data| < BlockStream.U64
  }

  function Tag(data: seq<byte>): (t: seq<byte>)
    ensures |t| == 16
  {
    if Hashable(data) then Sha1(Rearranged(Sha1(data)))[..16] else Zeros(16)
  }

  /** `bytes` put into b at a place. */
  function Put(b: seq<byte>, at: nat, bytes: seq<byte>): (r: seq<byte>)
    requires at + |bytes| <= |b|
    ensures |r| == |b|
  {
    b[..at] + bytes + b[at + |bytes|..]
  }

  /** memcpy into `buffer` */
  method Copy(buffer: array<byte>, at: nat, bytes: seq<byte>)
    requires at + |bytes| <= buffer.Length
    modifies buffer
    ensures buffer[..] == Put(old(buffer[..]), at, bytes)
  {
    forall i | 0 <= i < |bytes| {
      buffer[at + i] := bytes[i];
    }
    assert buffer[at..at + |bytes|] == bytes;
    assert buffer[..] == buffer[..at] + buffer[at..at + |bytes|] + buffer[at + |bytes|..];
  }

  /** Four assignments in a row. */
  method SetFour(buffer: array<byte>, at: nat, a: byte, b: byte, c: byte, d: byte)
    requires at + 4 <= buffer.Length
    modifies buffer
    ensures buffer[..] == Put(old(buffer[..]), at, [a, b, c, d])
  {
    buffer[at] := a;
    buffer[at + 1] := b;
    buffer[at + 2] := c;
    buffer[at + 3] := d;
  }

  /** Byte by byte: 4 to 11 twice, then twice the eight bytes 12 to 16 and 1 to 3, then zeros. */
  lemma RearrangedBytes(d: seq<byte>, i: nat)
    requires |d| == 20 && i < 64
    ensures Rearranged(d)[i] ==
      if i < 16 then d[4 + i % 8] else if i >= 32 then 0 else if i % 8 < 5 then d[12 + i % 8] else d[i % 8 - 4]
  {
    var quad := d[12..16] + [d[16], d[1], d[2], d[3]];
    var eight := d[4..12];
    assert Rearranged(d) == eight + eight + quad + quad + Zeros(32);
    if i < 32 {
      assert Rearranged(d)[i] == (if i < 16 then eight[i % 8] else quad[i % 8]);
    }
  }

  lemma RearrangedSteps(d: seq<byte>, quad: seq<byte>)
    requires |d| == 20 && quad == d[12..16] + [d[16], d[1], d[2], d[3]]
    ensures var b := Put(Put(Zeros(64), 0, d[4..12]), 8, d[4..12]);
      var c := Put(Put(b, 16, d[12..16]), 20, [d[16], d[1], d[2], d[3]]);
      c[16..24] == quad && Put(c, 24, quad) == Rearranged(d)
  {
    var eight := d[4..12];
    var b := Put(Put(Zeros(64), 0, eight), 8, eight);
    assert b == eight + eight + Zeros(48);
    var c := Put(Put(b, 16, d[12..16]), 20, [d[16], d[1], d[2], d[3]]);
    assert c == eight + eight + quad + Zeros(40);
    assert Put(c, 24, quad) == eight + eight + quad + quad + Zeros(32);
  }

  /** The 64-byte buffer of fpkg_hmac. */
  method Rearrange(d: seq<byte>) returns (buffer: array<byte>)
    requires |d| == 20
    ensures fresh(buffer) && buffer[..] == Rearranged(d)
  {
    buffer := new byte[64](i => 0);
    assert buffer[..] == Zeros(64);
    Copy(buffer, 0, d[4..12]);
    Copy(buffer, 8, d[4..12]);
    Copy(buffer, 16, d[12..16]);
    SetFour(buffer, 20, d[16], d[1], d[2], d[3]);
    RearrangedSteps(d, d[12..16] + [d[16], d[1], d[2], d[3]]);
    Copy(buffer, 24, buffer[..][16..24]);
  }

  /** fpkg_hmac: the first 16 bytes of the second digest. */
  method FpkgHmac(data: seq<byte>) returns (hmac: seq<byte>)
    requires Hashable(data)
    ensures hmac == Tag(data)
  {
    var sha1 := Streaming.HashMessage(data);
    var buffer := Rearrange(sha1);
    sha1 := Streaming.HashMessage(buffer[..]);
    hmac := sha1[..16];
  }

  // ---- the seal, for any tag function ----

  /** The content id field: 48 bytes at 0x30, the characters and then zeros. */
  function PutId(head: seq<byte>, id: seq<byte>): (h: seq<byte>)
    requires |head| == LENGTH && |id| <= 48
    ensures |h| == LENGTH && h[0x30..0x60] == id + Zeros(48 - |id|) && h[..0x30] == head[..0x30] && h[0x60..] == head[0x60..]
  {
    head[..0x30] + (id + Zeros(48 - |id|)) + head[0x60..]
  }

  /** The tag of a range, written at a place. */
  function PutTag(tag: seq<byte> -> seq<byte>, head: seq<byte>, at: nat, from: nat, length: nat): (h: seq<byte>)
    requires |head| == LENGTH && at + 16 <= LENGTH && from + length <= LENGTH && |tag(head[from..from + length])| == 16
    ensures |h| == LENGTH && h[at..at + 16] == tag(head[from..from + length])
    ensures h[..at] == head[..at] && h[at + 16..] == head[at + 16..]
  {
    head[..at] + tag(head[from..from + length]) + head[at + 16..]
  }

  datatype Sealing = Refused | Sealed(head: seq<byte>)

  ghost predicate IsTag(tag: seq<byte> -> seq<byte>) {
    forall d :: |tag(d)| == 16
  }

  /** A tag right after the range from the start that it covers, whose length is in a field. */
  ghost function SealPrefix(tag: seq<byte> -> seq<byte>, head: seq<byte>, field: nat): (r: Sealing)
    requires |head| == LENGTH && field + 4 <= LENGTH && IsTag(tag)
    ensures r.Sealed? ==> |r.head| == LENGTH
  {
    var length := Be32(head, field);
    if length + 16 > LENGTH then Refused else Sealed(PutTag(tag, head, length, 0, length))
  }

  /** A tag of the range at the offset in the second field, less its last 64 bytes. */
  ghost function SealRange(tag: seq<byte> -> seq<byte>, head: seq<byte>): (r: Sealing)
    requires |head| == LENGTH && IsTag(tag)
    ensures r.Sealed? ==> |r.head| == LENGTH
  {
    var offset, length, output := Be32(head, 0x8), Be32(head, 0x10), Be32(head, 0xD4);
    if length < 64 || offset + length > LENGTH || output + 16 > LENGTH then Refused
    else Sealed(PutTag(tag, head, output, offset, length - 64))
  }

  /** A prefix is refused exactly when its tag would leave the head.  Otherwise the tag of the
      bytes before it stands at the length, and no other byte has changed. */
  lemma SealPrefixIs(tag: seq<byte> -> seq<byte>, head: seq<byte>, field: nat)
    requires |head| == LENGTH && field + 4 <= LENGTH && IsTag(tag)
    ensures var r := SealPrefix(tag, head, field);
      var n := BigEndian(head[field..field + 4]);
      if n > 1056 then r.Refused?
      else r.Sealed? && r.head[n..n + 16] == tag(head[..n]) && r.head[..n] == head[..n] && r.head[n + 16..] == head[n + 16..]
  {
    var n := Be32(head, field);
    Be32IsBigEndian(head, field);
    if n + 16 <= LENGTH {
      assert head[0..0 + n] == head[..n];
    }
  }

  /** A range is refused exactly when it is shorter than 64 bytes, or it or its tag would
      leave the head. */
  lemma SealRangeIs(tag: seq<byte> -> seq<byte>, head: seq<byte>)
    requires |head| == LENGTH && IsTag(tag)
    ensures var r := SealRange(tag, head);
      var offset, length, at := BigEndian(head[8..12]), BigEndian(head[16..20]), BigEndian(head[212..216]);
      if length < 64 || offset + length > 1072 || at > 1056 then r.Refused?
      else
        && r.Sealed? && r.head[at..at + 16] == tag(head[offset..offset + length - 64])
        && r.head[..at] == head[..at] && r.head[at + 16..] == head[at + 16..]
  {
    var offset, length, at := Be32(head, 0x8), Be32(head, 0x10), Be32(head, 0xD4);
    Be32IsBigEndian(head, 8);
    Be32IsBigEndian(head, 16);
    Be32IsBigEndian(head, 212);
    if length >= 64 {
      assert offset + (length - 64) == offset + length - 64;
    }
  }

  ghost function Seal(tag: seq<byte> -> seq<byte>, head: seq<byte>, id: seq<byte>): (r: Sealing)
    requires |head| == LENGTH && |id| <= 48 && IsTag(tag)
    ensures r.Sealed? ==> |r.head| == LENGTH
  {
    match SealPrefix(tag, PutId(head, id), 0xD0)
    case Refused => Refused
    case Sealed(h) =>
      match SealRange(tag, h)
      case Refused => Refused
      case Sealed(h) => SealPrefix(tag, h, 0xE8)
  }

  /** The header fields of the template. */
  predicate TemplateFields(head: seq<byte>)
    requires |head| == LENGTH
  {
    && Be32(head, 0x8) == 0x280 && Be32(head, 0x10) == 0x190 && Be32(head, 0xD0) == 0x100
    && Be32(head, 0xD4) == 0x410 && Be32(head, 0xE8) == 0x420
  }

  /** All three tags are those of the bytes they stand for, as they are now. */
  ghost predicate TagsValid(tag: seq<byte> -> seq<byte>, head: seq<byte>)
    requires |head| == LENGTH
  {
    && head[0x100..0x110] == tag(head[0..0x100])
    && head[0x410..0x420] == tag(head[0x280..0x3D0])
    && head[0x420..0x430] == tag(head[0..0x420])
  }

  /** A field, or a range, is the same where the bytes around it are. */
  lemma SameField(a: seq<byte>, b: seq<byte>, lo: nat, hi: nat, i: nat)
    requires lo <= i && i + 4 <= hi <= |a| && hi <= |b| && a[lo..hi] == b[lo..hi]
    ensures Be32(a, i) == Be32(b, i)
  {
    var s, t, k := a[lo..hi], b[lo..hi], i - lo;
    assert s[k] == t[k] && s[k + 1] == t[k + 1] && s[k + 2] == t[k + 2] && s[k + 3] == t[k + 3];
  }

  lemma SameRange(a: seq<byte>, b: seq<byte>, n: nat, i: nat, j: nat)
    requires i <= j <= n <= |a| && n <= |b| && a[..n] == b[..n]
    ensures a[i..j] == b[i..j]
  {
    assert a[i..j] == a[..n][i..j];
  }

  lemma SameFields(a: seq<byte>, b: seq<byte>)
    requires |a| == |b| == LENGTH && TemplateFields(a) && a[0..0x30] == b[0..0x30] && a[0xD0..0xEC] == b[0xD0..0xEC]
    ensures TemplateFields(b)
  {
    SameField(a, b, 0, 0x30, 0x8);
    SameField(a, b, 0, 0x30, 0x10);
    SameField(a, b, 0xD0, 0xEC, 0xD0);
    SameField(a, b, 0xD0, 0xEC, 0xD4);
    SameField(a, b, 0xD0, 0xEC, 0xE8);
  }

  ghost predicate HasId(head: seq<byte>, id: seq<byte>)
    requires |head| == LENGTH && |id| <= 48
  {
    head[0x30..0x60] == id + Zeros(48 - |id|)
  }

  /** What the three steps do to a head with the template's fields. */
  ghost function SealTemplate(tag: seq<byte> -> seq<byte>, head: seq<byte>): (h: seq<byte>)
    requires |head| == LENGTH && IsTag(tag)
    ensures |h| == LENGTH
  {
    PutTag(tag, PutTag(tag, PutTag(tag, head, 0x100, 0, 0x100), 0x410, 0x280, 0x150), 0x420, 0, 0x420)
  }

  lemma TagKeepsFields(tag: seq<byte> -> seq<byte>, head: seq<byte>, at: nat, from: nat, length: nat)
    requires |head| == LENGTH && IsTag(tag) && TemplateFields(head)
    requires 0x100 <= at && at + 16 <= LENGTH && from + length <= LENGTH
    ensures TemplateFields(PutTag(tag, head, at, from, length))
  {
    var h := PutTag(tag, head, at, from, length);
    SameRange(head, h, at, 0, 0x30);
    SameRange(head, h, at, 0xD0, 0xEC);
    SameFields(head, h);
  }

  lemma IdKeepsFields(head: seq<byte>, id: seq<byte>)
    requires |head| == LENGTH && |id| <= 48 && TemplateFields(head)
    ensures TemplateFields(PutId(head, id))
  {
    var h := PutId(head, id);
    assert h[0xD0..0xEC] == h[0x60..][0x70..0x8C] && head[0xD0..0xEC] == head[0x60..][0x70..0x8C];
    assert h[0..0x30] == h[..0x30] && head[0..0x30] == head[..0x30];
    SameFields(head, h);
  }

  lemma SealIsTemplate(tag: seq<byte> -> seq<byte>, head: seq<byte>, id: seq<byte>)
    requires |head| == LENGTH && |id| <= 48 && IsTag(tag) && TemplateFields(head)
    ensures TemplateFields(PutId(head, id)) && Seal(tag, head, id) == Sealed(SealTemplate(tag, PutId(head, id)))
    ensures TemplateFields(SealTemplate(tag, PutId(head, id)))
  {
    var h0 := PutId(head, id);
    IdKeepsFields(head, id);
    TagKeepsFields(tag, h0, 0x100, 0, 0x100);
    var h1 := PutTag(tag, h0, 0x100, 0, 0x100);
    TagKeepsFields(tag, h1, 0x410, 0x280, 0x150);
    var h2 := PutTag(tag, h1, 0x410, 0x280, 0x150);
    TagKeepsFields(tag, h2, 0x420, 0, 0x420);
  }

  /** Later tags leave alone what earlier ones cover, so all of them stand at the end. */
  lemma TemplateTags(tag: seq<byte> -> seq<byte>, head: seq<byte>)
    requires |head| == LENGTH && IsTag(tag)
    ensures var h := SealTemplate(tag, head);
      && TagsValid(tag, h) && h[..0x100] == head[..0x100] && h[0x110..0x410] == head[0x110..0x410]
  {
    var h1 := PutTag(tag, head, 0x100, 0, 0x100);
    var h2 := PutTag(tag, h1, 0x410, 0x280, 0x150);
    var h3 := PutTag(tag, h2, 0x420, 0, 0x420);
    SameRange(h2, h3, 0x420, 0, 0x420);
    SameRange(h2, h3, 0x420, 0, 0x100);
    SameRange(h1, h2, 0x410, 0, 0x100);
    SameRange(head, h1, 0x100, 0, 0x100);
    SameRange(h2, h3, 0x420, 0x100, 0x110);
    SameRange(h1, h2, 0x410, 0x100, 0x110);
    SameRange(h2, h3, 0x420, 0x280, 0x3D0);
    SameRange(h1, h2, 0x410, 0x280, 0x3D0);
    SameRange(h2, h3, 0x420, 0x410, 0x420);
    SameRange(h2, h3, 0x420, 0x110, 0x410);
    SameRange(h1, h2, 0x410, 0x110, 0x410);
    assert h1[0x110..0x410] == h1[0x110..][..0x300] && head[0x110..0x410] == head[0x110..][..0x300];
    assert h3[..0x100] == h3[0..0x100] && head[..0x100] == head[0..0x100];
  }

  lemma AroundId(head: seq<byte>, id: seq<byte>)
    requires |head| == LENGTH && |id| <= 48
    ensures var h0 := PutId(head, id);
      h0[..0x30] == head[..0x30] && h0[0x60..0x100] == head[0x60..0x100] && h0[0x110..0x410] == head[0x110..0x410]
  {
    var h0 := PutId(head, id);
    assert h0[0x60..0x100] == h0[0x60..][..0xA0] && head[0x60..0x100] == head[0x60..][..0xA0];
    assert h0[0x110..0x410] == h0[0x60..][0xB0..0x3B0] && head[0x110..0x410] == head[0x60..][0xB0..0x3B0];
  }

  lemma FrontKept(h: seq<byte>, h0: seq<byte>)
    requires |h| == |h0| == LENGTH && h[..0x100] == h0[..0x100]
    ensures h[..0x30] == h0[..0x30] && h[0x30..0x60] == h0[0x30..0x60] && h[0x60..0x100] == h0[0x60..0x100]
  {
    SameRange(h, h0, 0x100, 0x30, 0x60);
    SameRange(h, h0, 0x100, 0x60, 0x100);
    assert h[..0x30] == h[..0x100][..0x30] && h0[..0x30] == h0[..0x100][..0x30];
  }

  /** Sealing a template succeeds; all three tags are then valid for the final bytes, the
      last of them over the first two, and nothing else has changed but the content id. */
  lemma SealedTagsAreValid(tag: seq<byte> -> seq<byte>, head: seq<byte>, id: seq<byte>)
    requires |head| == LENGTH && |id| <= 48 && IsTag(tag) && TemplateFields(head)
    ensures var r := Seal(tag, head, id);
      && r.Sealed? && TagsValid(tag, r.head) && TemplateFields(r.head) && HasId(r.head, id)
      && r.head[..0x30] == head[..0x30] && r.head[0x60..0x100] == head[0x60..0x100] && r.head[0x110..0x410] == head[0x110..0x410]
  {
    var h0 := PutId(head, id);
    SealIsTemplate(tag, head, id);
    TemplateTags(tag, h0);
    FrontKept(SealTemplate(tag, h0), h0);
    AroundId(head, id);
  }

  lemma PutSameTag(tag: seq<byte> -> seq<byte>, head: seq<byte>, at: nat, from: nat, length: nat)
    requires |head| == LENGTH && IsTag(tag) && at + 16 <= LENGTH && from + length <= LENGTH
    requires head[at..at + 16] == tag(head[from..from + length])
    ensures PutTag(tag, head, at, from, length) == head
  {
    assert head == head[..at] + head[at..at + 16] + head[at + 16..];
  }

  lemma PutSameId(head: seq<byte>, id: seq<byte>)
    requires |head| == LENGTH && |id| <= 48 && HasId(head, id)
    ensures PutId(head, id) == head
  {
    assert head == head[..0x30] + head[0x30..0x60] + head[0x60..];
  }

  lemma TemplateTagsStay(tag: seq<byte> -> seq<byte>, head: seq<byte>)
    requires |head| == LENGTH && IsTag(tag) && TagsValid(tag, head)
    ensures SealTemplate(tag, head) == head
  {
    PutSameTag(tag, head, 0x100, 0, 0x100);
    PutSameTag(tag, head, 0x410, 0x280, 0x150);
    PutSameTag(tag, head, 0x420, 0, 0x420);
  }

  /** A head whose tags are valid and whose content id is already there stays as it is. */
  lemma SealStays(tag: seq<byte> -> seq<byte>, head: seq<byte>, id: seq<byte>)
    requires |head| == LENGTH && |id| <= 48 && IsTag(tag) && TemplateFields(head)
    requires TagsValid(tag, head) && HasId(head, id)
    ensures Seal(tag, head, id) == Sealed(head)
  {
    PutSameId(head, id);
    SealIsTemplate(tag, head, id);
    TemplateTagsStay(tag, head);
  }

  /** Sealing again with the same content id changes nothing. */
  lemma SealIsIdempotent(tag: seq<byte> -> seq<byte>, head: seq<byte>, id: seq<byte>)
    requires |head| == LENGTH && |id| <= 48 && IsTag(tag) && TemplateFields(head)
    ensures var r := Seal(tag, head, id); r.Sealed? && Seal(tag, r.head, id) == r
  {
    SealedTagsAreValid(tag, head, id);
    SealStays(tag, Seal(tag, head, id).head, id);
  }

  // ---- the code ----

  ghost predicate IsFpkgTag(tag: seq<byte> -> seq<byte>) {
    IsTag(tag) && forall d {:trigger Tag(d)} | Hashable(d) :: tag(d) == Tag(d)
  }

  method TagOf(data: seq<byte>, ghost tag: seq<byte> -> seq<byte>) returns (hmac: seq<byte>)
    requires IsFpkgTag(tag) && Hashable(data)
    ensures hmac == tag(data)
  {
    hmac := FpkgHmac(data);
  }

  /** fpkg_hmac over a range of the head, copied to a place in it. */
  method WriteTag(head: array<byte>, at: nat, from: nat, length: nat, ghost tag: seq<byte> -> seq<byte>)
    requires head.Length == LENGTH && at + 16 <= LENGTH && from + length <= LENGTH && IsFpkgTag(tag)
    modifies head
    ensures head[..] == PutTag(tag, old(head[..]), at, from, length)
  {
    var data := head[from..from + length];
    assert data == head[..][from..from + length];
    var hmac := TagOf(data, tag);
    Copy(head, at, hmac);
  }

  /** The first and the last of the three tags. */
  method SealPrefixInPlace(head: array<byte>, field: nat, ghost tag: seq<byte> -> seq<byte>) returns (result: int)
    requires head.Length == LENGTH && field + 4 <= LENGTH && IsFpkgTag(tag)
    modifies head
    ensures var r := SealPrefix(tag, old(head[..]), field);
      if r.Sealed? then result == 0 && head[..] == r.head else result == ERROR_SFO
  {
    var length := Be32(head[..], field);
    if length + 16 > LENGTH {
      return ERROR_SFO;
    }
    WriteTag(head, length, 0, length, tag);
    return 0;
  }

  /** The second. */
  method SealRangeInPlace(head: array<byte>, ghost tag: seq<byte> -> seq<byte>) returns (result: int)
    requires head.Length == LENGTH && IsFpkgTag(tag)
    modifies head
    ensures var r := SealRange(tag, old(head[..]));
      if r.Sealed? then result == 0 && head[..] == r.head else result == ERROR_SFO
  {
    var offset := Be32(head[..], 0x8);
    var length := Be32(head[..], 0x10);
    var output := Be32(head[..], 0xD4);
    if length < 64 || offset + length > LENGTH || output + 16 > LENGTH {
      return ERROR_SFO;
    }
    WriteTag(head, output, offset, length - 64, tag);
    return 0;
  }

  /** memset and memcpy of the content id field */
  method WriteId(head: array<byte>, id: seq<byte>)
    requires head.Length == LENGTH && |id| <= 48
    modifies head
    ensures head[..] == PutId(old(head[..]), id)
  {
    Copy(head, 0x30, Zeros(48));
    Copy(head, 0x30, id);
  }

  /** The part of make_head_bin from the content id to the last tag. */
  method SealHead(head: array<byte>, id: seq<byte>, ghost tag: seq<byte> -> seq<byte>) returns (result: int)
    requires head.Length == LENGTH && |id| <= 48 && IsFpkgTag(tag)
    modifies head
    ensures var r := Seal(tag, old(head[..]), id);
      if r.Sealed? then result == 0 && head[..] == r.head else result == ERROR_SFO
  {
    WriteId(head, id);
    result := SealPrefixInPlace(head, 0xD0, tag);
    if result < 0 {
      return;
    }
    result := SealRangeInPlace(head, tag);
    if result < 0 {
      return;
    }
    result := SealPrefixInPlace(head, 0xE8, tag);
  }

  /** "TITLE_ID", "CONTENT_ID", "EP9000-" and "_00-0000000000000000" */
  const TITLE_ID: seq<byte> := [84, 73, 84, 76, 69, 95, 73, 68]
  const CONTENT_ID: seq<byte> := [67, 79, 78, 84, 69, 78, 84, 95, 73, 68]
  const DEFAULT_START: seq<byte> := [69, 80, 57, 48, 48, 48, 45]
  const DEFAULT_END: seq<byte> := [95, 48, 48, 45, 48, 48, 48, 48, 48, 48, 48, 48, 48, 48, 48, 48, 48, 48, 48, 48]

  predicate ValidTitleId(t: seq<byte>) {
    |t| == 9 && forall i | 0 <= i < 9 :: 65 <= t[i] <= 90 || 48 <= t[i] <= 57
  }

  /** valid_title_id */
  method IsValidTitleId(t: seq<byte>) returns (valid: bool)
    ensures valid == ValidTitleId(t)
  {
    if |t| != 9 {
      return false;
    }
    var i := 0;
    while i < 9
      invariant 0 <= i <= 9 && forall k | 0 <= k < i :: 65 <= t[k] <= 90 || 48 <= t[k] <= 57
    {
      if !((t[i] >= 65 && t[i] <= 90) || (t[i] >= 48 && t[i] <= 57)) {
        return false;
      }
      i := i + 1;
    }
    return true;
  }

  /** The content id of the package: its own when it has one, else one made from the title. */
  function ContentId(sfo: seq<byte>, title: seq<byte>): (id: seq<byte>)
    requires |title| == 9
    ensures |id| < 48
  {
    match Sfo.Find(sfo, CONTENT_ID)
    case Some(v) => if v != [] then Sfo.Cut(v, 48) else DEFAULT_START + title + DEFAULT_END
    case None => DEFAULT_START + title + DEFAULT_END
  }

  /** A zeroed array of n bytes after a lookup, as a C string. */
  method LookUp(sfo: seq<byte>, key: seq<byte>, n: nat) returns (result: int, text: seq<byte>)
    requires 0 !in key && n > 0
    ensures result == 0 <==> Sfo.Find(sfo, key).Some?
    ensures result != 0 ==> result == ERROR_SFO
    ensures text == match Sfo.Find(sfo, key) case Some(v) => Sfo.Cut(v, n) case None => []
  {
    var buffer := new byte[n](i => 0);
    result := Sfo.SfoString(sfo, key, buffer, n);
    text := CString(buffer[..]);
    if result == 0 {
      var s := Sfo.Cut(Sfo.Find(sfo, key).value, n);
      Sfo.FindIsClean(sfo, key);
      assert buffer[..][..|s|] == s;
      CStringIs(buffer[..], |s|);
    } else {
      CStringIs(buffer[..], 0);
    }
  }

  /** The first half of make_head_bin: the title id, or why there is none. */
  method FindTitle(sfo: seq<byte>) returns (result: int, title: seq<byte>)
    ensures var found := Sfo.Find(sfo, TITLE_ID);
      if found.None? then result == ERROR_SFO
      else if !ValidTitleId(found.value) then result == ERROR_TITLE_ID
      else result == 0 && title == found.value
  {
    result, title := LookUp(sfo, TITLE_ID, 12);
    if result == 0 {
      var valid := IsValidTitleId(title);
      if !valid {
        result := ERROR_TITLE_ID;
      }
    }
  }

  /** The choice between the package's own content id and the default. */
  method SelectId(sfo: seq<byte>, title: seq<byte>) returns (id: seq<byte>)
    requires |title| == 9
    ensures id == ContentId(sfo, title)
  {
    var found, content := LookUp(sfo, CONTENT_ID, 48);
    id := if content != [] then content else DEFAULT_START + title + DEFAULT_END;
  }

  /** malloc and memcpy of the template, and the seal. */
  method SealCopy(template: seq<byte>, id: seq<byte>, ghost tag: seq<byte> -> seq<byte>)
    returns (result: int, head: seq<byte>)
    requires |template| == LENGTH && |id| <= 48 && IsFpkgTag(tag)
    ensures var r := Seal(tag, template, id);
      if r.Sealed? then result == 0 && head == r.head else result == ERROR_SFO
  {
    var buffer := new byte[LENGTH](i requires 0 <= i < LENGTH => template[i]);
    assert buffer[..] == template;
    result := SealHead(buffer, id, tag);
    head := buffer[..];
  }

  /** What the calls outside this file answer: read_file, malloc, ensure_parent_directory,
      sceIoOpen and sceIoWrite. */
  datatype Calls = Calls(read: int, hasMemory: bool, parent: int, open: int, written: int)

  predicate AllAnswer(calls: Calls) {
    calls.read >= 0 && calls.hasMemory && calls.parent >= 0 && calls.open >= 0 && calls.written == LENGTH
  }

  /** The first of the calls that write head.bin to fail decides. */
  predicate Wrote(calls: Calls, result: int) {
    if calls.parent < 0 then result == calls.parent
    else if calls.open < 0 then result == calls.open
    else if calls.written < 0 then result == calls.written
    else if calls.written != LENGTH then result == ERROR_IO
    else result >= 0
  }

  /** The last steps of make_head_bin: head.bin is written in one call. */
  method WriteHead(calls: Calls) returns (result: int)
    ensures Wrote(calls, result)
  {
    result := calls.parent;
    if result >= 0 {
      if calls.open < 0 {
        result := calls.open;
      } else if calls.written != LENGTH {
        result := if calls.written < 0 then calls.written else ERROR_IO;
      }
    }
  }

  /** From the title id on: which content id is used, and how far the seal and the file get. */
  method SealPackage(sfo: seq<byte>, title: seq<byte>, template: seq<byte>, calls: Calls, ghost tag: seq<byte> -> seq<byte>)
    returns (result: int, head: seq<byte>)
    requires |title| == 9 && |template| == LENGTH && IsFpkgTag(tag)
    ensures var r := Seal(tag, template, ContentId(sfo, title));
      if !calls.hasMemory then result == ERROR_MEMORY
      else if r.Refused? then result == ERROR_SFO
      else Wrote(calls, result) && head == r.head
  {
    var id := SelectId(sfo, title);
    if !calls.hasMemory {
      return ERROR_MEMORY, [];
    }
    result, head := SealCopy(template, id, tag);
    if result >= 0 {
      result := WriteHead(calls);
    }
  }

  /** make_head_bin for any tag: `head` is what head.bin holds after a success. */
  method MakeHeadWith(sfo: seq<byte>, template: seq<byte>, calls: Calls, ghost tag: seq<byte> -> seq<byte>)
    returns (result: int, title: Option<seq<byte>>, head: seq<byte>)
    requires |template| == LENGTH && IsFpkgTag(tag)
    ensures Made(tag, sfo, template, calls, result, title, head)
  {
    title := None;
    if calls.read < 0 {
      return calls.read, title, [];
    }
    var parsed;
    result, parsed := FindTitle(sfo);
    if result < 0 {
      return result, title, [];
    }
    result, head := SealPackage(sfo, parsed, template, calls, tag);
    if result >= 0 {
      result, title := 0, Some(parsed);
    }
  }

  /** Success iff every call answers, the title id is valid and the header fields are in
      range; then the file holds the sealed template.  Each failure has its code. */
  ghost predicate Made(tag: seq<byte> -> seq<byte>, sfo: seq<byte>, template: seq<byte>, calls: Calls,
                       result: int, title: Option<seq<byte>>, head: seq<byte>)
    requires |template| == LENGTH && IsTag(tag)
  {
    var found := Sfo.Find(sfo, TITLE_ID);
    && (result == 0 <==> title.Some?) && result <= 0
    && if calls.read < 0 then result == calls.read
       else if found.None? then result == ERROR_SFO
       else if !ValidTitleId(found.value) then result == ERROR_TITLE_ID
       else if !calls.hasMemory then result == ERROR_MEMORY
       else
         var r := Seal(tag, template, ContentId(sfo, found.value));
         if r.Refused? then result == ERROR_SFO
         else Wrote(calls, result) && (result == 0 ==> title == found && head == r.head)
  }

  /** The content id field holds the package's own content id when that is not empty, cut to
      47 bytes, and else the default around the title id; then zeros. */
  ghost predicate ShowsId(own: Option<seq<byte>>, title: seq<byte>, field: seq<byte>) {
    if own.Some? && own.value != [] then
      if |own.value| < 48 then field == own.value + Zeros(48 - |own.value|) else field == own.value[..47] + [0]
    else
      field == DEFAULT_START + title + DEFAULT_END + Zeros(12)
  }

  lemma ContentIdShows(sfo: seq<byte>, title: seq<byte>, field: seq<byte>)
    requires |title| == 9 && field == ContentId(sfo, title) + Zeros(48 - |ContentId(sfo, title)|)
    ensures ShowsId(Sfo.Find(sfo, CONTENT_ID), title, field)
  {
  }

  /** Nine characters, each a capital letter or a digit. */
  predicate IsTitle(t: seq<byte>) {
    |t| == 9 && forall c | c in t :: 65 <= c <= 90 || 48 <= c <= 57
  }

  lemma TitleIs(t: seq<byte>)
    ensures ValidTitleId(t) <==> IsTitle(t)
  {
    if ValidTitleId(t) {
      forall c | c in t
        ensures 65 <= c <= 90 || 48 <= c <= 57
      {
        var i :| 0 <= i < |t| && t[i] == c;
      }
    } else if |t| == 9 {
      var i :| 0 <= i < 9 && !(65 <= t[i] <= 90 || 48 <= t[i] <= 57);
      assert t[i] in t;
    }
  }

  /** The head that a success leaves. */
  ghost predicate HeadMade(tag: seq<byte> -> seq<byte>, sfo: seq<byte>, template: seq<byte>, head: seq<byte>)
    requires |template| == LENGTH
  {
    && |head| == LENGTH && TagsValid(tag, head)
    && Sfo.Find(sfo, TITLE_ID).Some? && ShowsId(Sfo.Find(sfo, CONTENT_ID), Sfo.Find(sfo, TITLE_ID).value, head[0x30..0x60])
    && head[..0x30] == template[..0x30] && head[0x60..0x100] == template[0x60..0x100]
    && head[0x110..0x410] == template[0x110..0x410]
  }

  lemma MadeFromTemplate(tag: seq<byte> -> seq<byte>, sfo: seq<byte>, template: seq<byte>, calls: Calls,
                         result: int, title: Option<seq<byte>>, head: seq<byte>)
    requires |template| == LENGTH && IsTag(tag) && TemplateFields(template)
    requires Made(tag, sfo, template, calls, result, title, head)
    ensures result == 0 <==>
      AllAnswer(calls) && Sfo.Find(sfo, TITLE_ID).Some? && IsTitle(Sfo.Find(sfo, TITLE_ID).value)
    ensures result == 0 ==> HeadMade(tag, sfo, template, head)
  {
    var found := Sfo.Find(sfo, TITLE_ID);
    if found.Some? {
      TitleIs(found.value);
    }
    if found.Some? && ValidTitleId(found.value) {
      SealedTagsAreValid(tag, template, ContentId(sfo, found.value));
      if result == 0 {
        ContentIdShows(sfo, found.value, head[0x30..0x60]);
      }
    }
  }

  lemma TagIsFpkgTag()
    ensures IsFpkgTag(Tag)
  {
  }

  /** make_head_bin: with the template's fields it succeeds iff every call answers and the
      package has a valid title id, and then all tags are those of fpkg_hmac. */
  method MakeHeadBin(sfo: seq<byte>, template: seq<byte>, calls: Calls)
    returns (result: int, title: Option<seq<byte>>, head: seq<byte>)
    requires |template| == LENGTH
    ensures Made(Tag, sfo, template, calls, result, title, head)
    ensures TemplateFields(template) ==>
      && (result == 0 <==>
            AllAnswer(calls) && Sfo.Find(sfo, TITLE_ID).Some? && IsTitle(Sfo.Find(sfo, TITLE_ID).value))
      && (result == 0 ==> HeadMade(Tag, sfo, template, head))
  {
    TagIsFpkgTag();
    result, title, head := MakeHeadWith(sfo, template, calls, Tag);
    if TemplateFields(template) {
      MadeFromTemplate(Tag, sfo, template, calls, result, title, head);
    }
  }
}
