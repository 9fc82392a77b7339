/** What a conforming writer puts into an archive, the reader takes out of it. */
module ZipRoundTrip {
  import opened Options
  import opened Bytes
  import opened ArchivePath
  import opened CStrings
  import opened Layout
  import opened Crc32
  import opened Inflate
  import opened InstallErrors
  import opened Zip
  import opened ZipLayout

  // ---- the writer ----

  /** The central headers of items whose local headers start at `offset`. */
  function Centrals<E>(local: E -> seq<byte>, central: (E, nat) -> seq<byte>, es: seq<E>, offset: nat): seq<byte> {
    if es == [] then [] else central(es[0], offset) + Centrals(local, central, es[1..], offset + |local(es[0])|)
  }

  /** Local headers are 32-bit addressed and entries 16-bit counted, short of the ZIP64 marks. */
  predicate Sized(es: seq<Item>, comment: seq<byte>) {
    && |Table(Local, es)| < U32 && |Centrals(Local, CentralRecord, es, 0)| < U32
    && |es| < 0xFFFF && |comment| < U16
  }

  function Archive(es: seq<Item>, comment: seq<byte>): seq<byte>
    requires Sized(es, comment)
  {
    var locals, centrals := Table(Local, es), Centrals(Local, CentralRecord, es, 0);
    locals + centrals + EndRecord(|es|, |centrals|, |locals|, comment)
  }

  /** No later end-of-central-directory signature; holds at once when there is no comment. */
  predicate LastSignature(file: seq<byte>, at: nat) {
    forall j | at < j <= |file| - 22 :: Le32(file, j) != EOCD_SIGNATURE
  }

  // ---- the end record is found ----

  lemma TailShift32(file: seq<byte>, i: nat)
    requires i + 4 <= |Tail(file)|
    ensures Le32(Tail(file), i) == Le32(file, |file| - |Tail(file)| + i)
  {
  }

  lemma EndFound(file: seq<byte>, at: nat)
    requires |file| >= 22 && |file| - |Tail(file)| <= at <= |file| - 22
    requires Le32(file, at) == EOCD_SIGNATURE && LastSignature(file, at)
    ensures ScanBack(Tail(file), |Tail(file)| - 22) == Some(at - (|file| - |Tail(file)|))
  {
    var tail := Tail(file);
    var skip := |file| - |tail|;
    TailShift32(file, at - skip);
    forall j | at - skip < j <= |tail| - 22
      ensures Le32(tail, j) != EOCD_SIGNATURE
    {
      TailShift32(file, j);
      assert Le32(file, skip + j) != EOCD_SIGNATURE;
    }
  }

  lemma EndRecordReads(tail: seq<byte>, i: nat, fileSize: nat, count: nat, size: nat, offset: nat, comment: seq<byte>)
    requires count < 0xFFFF && size < U32 && offset < U32 && |comment| < U16 && offset + size <= fileSize
    requires i + 22 + |comment| == |tail| && tail[i..] == EndRecord(count, size, offset, comment)
    ensures Le32(tail, i) == EOCD_SIGNATURE && EndRecordAt(tail, i, fileSize) == Ok(Directory(offset, count))
  {
    var h := EndRecord(count, size, offset, comment);
    assert tail[i..i + |h|] == h;
    EndRecordFields(count, size, offset, comment);
    Inside32(tail, i, h, 0);
    Inside16(tail, i, h, 4);
    Inside16(tail, i, h, 6);
    Inside16(tail, i, h, 8);
    Inside16(tail, i, h, 10);
    Inside32(tail, i, h, 12);
    Inside32(tail, i, h, 16);
  }

  lemma DirectoryFound(file: seq<byte>, at: nat, count: nat, size: nat, offset: nat, comment: seq<byte>)
    requires count < 0xFFFF && size < U32 && offset < U32 && |comment| < U16 && offset + size <= |file|
    requires at + 22 + |comment| == |file| && file[at..] == EndRecord(count, size, offset, comment)
    requires LastSignature(file, at)
    ensures FindDirectory(file) == Ok(Directory(offset, count))
  {
    var tail := Tail(file);
    var i := at - (|file| - |tail|);
    assert tail[i..] == file[at..];
    EndRecordReads(tail, i, |file|, count, size, offset, comment);
    TailShift32(file, i);
    EndFound(file, at);
  }

  // ---- what an entry says, and what is to be made of it ----

  predicate IsDirectory(name: seq<byte>) {
    name != [] && name[|name| - 1] == SLASH
  }

  function Chop(s: seq<byte>): seq<byte> {
    if s == [] then [] else s[..|s| - 1]
  }

  /** A file goes to `path` if its payload is what the header says. */
  function JudgePayload(setup: Setup, e: Item, path: seq<byte>): Result<Op> {
    if e.localCompression != e.compression then Err(-0x7102)
    else if e.compression == 0 then
      if |e.payload| != e.size then Err(-0x7105)
      else if Checksum(e.payload) != e.crc then Err(-0x7102)
      else Ok(WriteFile(path, e.payload))
    else
      match setup.inflate(e.payload)
      case BadStream => Err(-0x7102)
      case Inflated(data) =>
        if |data| % 0x1_0000_0000 != e.size || Checksum(data) != e.crc then Err(-0x7102) else Ok(WriteFile(path, data))
  }

  /** What an entry comes to after entries of `total` bytes in all: encrypted, split, ZIP64 and
      otherwise compressed ones are refused, then unsafe names, then types other than file and
      directory, then sizes beyond 4 GiB, then paths beyond 1023 characters. */
  function Judge(setup: Setup, e: Item, total: nat): Result<Op> {
    var name := CString(e.name);
    if e.flags % 2 != 0 || e.disk != 0 || e.name == [] || |e.name| >= 512 || e.size == 0xffff_ffff ||
       (e.compression != 0 && e.compression != 8) then Err(-0x7102)
    else if !SafeName(name) then Err(-0x7103)
    else if e.attributes / 0x1000_0000 !in {0, 4, 8} then Err(-0x7104)
    else if total + e.size > 0x1_0000_0000 then Err(-0x7105)
    else if |setup.stage| + 1 + |name| >= 1024 then Err(-0x7103)
    else if IsDirectory(e.name) then Ok(MakeDirectory(Chop(setup.stage + [SLASH] + name)))
    else JudgePayload(setup, e, setup.stage + [SLASH] + name)
  }

  /** The first entry that is refused decides. */
  function Judged<E>(judge: (E, nat) -> Result<Op>, size: E -> nat, es: seq<E>, total: nat): Result<seq<Op>> {
    if es == [] then Ok([])
    else
      match judge(es[0], total)
      case Err(code) => Err(code)
      case Ok(op) =>
        match Judged(judge, size, es[1..], total + size(es[0]))
        case Err(code) => Err(code)
        case Ok(ops) => Ok([op] + ops)
  }

  lemma LocalParts(e: Item)
    ensures var skip := 30 + |e.name| + |e.localExtra|;
      Local(e)[0..30] == LocalHeader(e) && |Local(e)| == skip + |e.payload| && Local(e)[skip..skip + |e.payload|] == e.payload
  {
  }

  lemma FindPayloadIs(file: seq<byte>, c: Central, h: seq<byte>)
    requires |h| == 30 && Has(file, c.localOffset, h) && Le32(h, 0) == LOCAL_SIGNATURE && Le16(h, 8) == c.compression
    requires c.localOffset + 30 + Le16(h, 26) + Le16(h, 28) + c.compressed <= |file|
    ensures FindPayload(file, c) == Ok(c.localOffset + 30 + Le16(h, 26) + Le16(h, 28))
  {
  }

  lemma PayloadThere(file: seq<byte>, e: Item, offset: nat)
    requires Has(file, offset, Local(e))
    ensures Has(file, offset, LocalHeader(e)) && Has(file, offset + 30 + |e.name| + |e.localExtra|, e.payload)
  {
    LocalParts(e);
    HasNested(file, offset, Local(e), 0, LocalHeader(e));
    HasNested(file, offset, Local(e), 30 + |e.name| + |e.localExtra|, e.payload);
  }

  lemma PayloadFound(file: seq<byte>, e: Item, offset: nat)
    requires Has(file, offset, Local(e))
    ensures var payload := offset + 30 + |e.name| + |e.localExtra|;
      && FindPayload(file, CentralOf(e, offset)) == (if e.localCompression == e.compression then Ok(payload) else Err(ERROR_ARCHIVE))
      && Has(file, payload, e.payload)
  {
    PayloadThere(file, e, offset);
    LocalDecodes(e);
    if e.localCompression == e.compression {
      FindPayloadIs(file, CentralOf(e, offset), LocalHeader(e));
    } else {
      FindPayloadRefuses(file, CentralOf(e, offset), LocalHeader(e));
    }
  }

  lemma FindPayloadRefuses(file: seq<byte>, c: Central, h: seq<byte>)
    requires |h| == 30 && Has(file, c.localOffset, h) && Le16(h, 8) != c.compression
    ensures FindPayload(file, c) == Err(ERROR_ARCHIVE)
  {
  }

  /** What is read agrees with what was judged. */
  ghost predicate Agrees(r: Result<Visit>, j: Result<Op>, next: nat, size: nat) {
    match j
    case Err(code) => r == Err(code)
    case Ok(op) => r.Ok? && r.value.op == op && r.value.next == next && r.value.declaredSize == size
  }

  lemma UnpackJudged(setup: Setup, c: Central, e: Item, path: seq<byte>)
    requires c.compression == e.compression == e.localCompression && c.crc == e.crc && c.compressed == |e.payload|
    requires c.uncompressed == e.size
    ensures var u := Unpack(setup, c, e.payload);
      JudgePayload(setup, e, path) == if u.Ok? then Ok(WriteFile(path, u.value)) else Err(u.code)
  {
  }

  lemma FileReads(setup: Setup, file: seq<byte>, e: Item, cursor: nat, offset: nat, path: seq<byte>)
    requires Has(file, offset, Local(e))
    ensures var c := CentralOf(e, offset);
      Agrees(FileVisit(setup, file, cursor, c, path), JudgePayload(setup, e, path), Next(cursor, c), e.size)
  {
    PayloadFound(file, e, offset);
    if e.localCompression == e.compression {
      UnpackJudged(setup, CentralOf(e, offset), e, path);
    }
  }

  lemma CentralPlaces(file: seq<byte>, e: Item, cursor: nat, offset: nat)
    requires offset < U32 && Has(file, cursor, CentralRecord(e, offset))
    ensures Has(file, cursor, CentralHeader(e, offset)) && Has(file, cursor + 46, e.name)
  {
    var r := CentralRecord(e, offset);
    assert r[0..46] == CentralHeader(e, offset) && r[46..46 + |e.name|] == e.name;
    HasNested(file, cursor, r, 0, CentralHeader(e, offset));
    HasNested(file, cursor, r, 46, e.name);
  }

  lemma HeaderAcceptable(file: seq<byte>, e: Item, cursor: nat, offset: nat)
    requires offset + |Local(e)| < U32 && Has(file, cursor, CentralRecord(e, offset))
    ensures AcceptableCentral(CentralOf(e, offset), Next(cursor, CentralOf(e, offset)), |file|) <==>
      e.flags % 2 == 0 && e.disk == 0 && e.name != [] && |e.name| < 512 && e.size != 0xffff_ffff &&
      (e.compression == 0 || e.compression == 8)
  {
  }

  lemma EntryIsNamed(setup: Setup, file: seq<byte>, h: seq<byte>, c: Central, cursor: nat, total: nat)
    requires |h| == 46 && Has(file, cursor, h) && Le32(h, 0) == CENTRAL_SIGNATURE && DecodeCentral(h) == c
    ensures Entry(setup, file, cursor, total) ==
      if AcceptableCentral(c, Next(cursor, c), |file|) then NamedEntry(setup, file, cursor, c, total) else Err(ERROR_ARCHIVE)
  {
  }

  lemma NamedRefuses(setup: Setup, file: seq<byte>, c: Central, raw: seq<byte>, cursor: nat, total: nat)
    requires AcceptableCentral(c, Next(cursor, c), |file|) && c.nameSize == |raw| && Has(file, cursor + 46, raw)
    ensures var name, r := CString(raw), NamedEntry(setup, file, cursor, c, total);
      && (!SafeName(name) ==> r == Err(-0x7103))
      && (SafeName(name) && c.attributes / 0x1000_0000 !in {0, 4, 8} ==> r == Err(-0x7104))
      && (SafeName(name) && c.attributes / 0x1000_0000 in {0, 4, 8} && total + c.uncompressed > 0x1_0000_0000 ==>
            r == Err(-0x7105))
      && (SafeName(name) && c.attributes / 0x1000_0000 in {0, 4, 8} && total + c.uncompressed <= 0x1_0000_0000 ==>
            |setup.stage| + 1 + |name| >= 1024 ==> r == Err(-0x7103))
  {
  }

  lemma NamedReads(setup: Setup, file: seq<byte>, c: Central, raw: seq<byte>, cursor: nat, total: nat)
    requires AcceptableCentral(c, Next(cursor, c), |file|) && c.nameSize == |raw| && Has(file, cursor + 46, raw)
    requires SafeName(CString(raw)) && c.attributes / 0x1000_0000 in {0, 4, 8}
    requires total + c.uncompressed <= 0x1_0000_0000 && |setup.stage| + 1 + |CString(raw)| < 1024
    ensures var path := setup.stage + [SLASH] + CString(raw);
      NamedEntry(setup, file, cursor, c, total) ==
      if IsDirectory(raw) then Ok(Visit(cursor, Next(cursor, c), c.uncompressed, 0, 0, MakeDirectory(Chop(path))))
      else FileVisit(setup, file, cursor, c, path)
  {
    assert file[cursor + 46..cursor + 46 + c.nameSize] == raw;
    var path := Destination(setup, CString(raw));
    assert IsDirectory(raw) ==> path[..|path| - 1] == Chop(path);
  }

  /** One round on an entry's two records, wherever they stand, comes to what the entry says. */
  lemma EntryReads(setup: Setup, file: seq<byte>, e: Item, cursor: nat, offset: nat, total: nat)
    requires offset + |Local(e)| < U32 && Has(file, offset, Local(e)) && Has(file, cursor, CentralRecord(e, offset))
    ensures Agrees(Entry(setup, file, cursor, total), Judge(setup, e, total), cursor + |CentralRecord(e, offset)|, e.size)
  {
    var c := CentralOf(e, offset);
    CentralPlaces(file, e, cursor, offset);
    CentralDecodes(e, offset);
    HeaderAcceptable(file, e, cursor, offset);
    EntryIsNamed(setup, file, CentralHeader(e, offset), c, cursor, total);
    if AcceptableCentral(c, Next(cursor, c), |file|) {
      NamedAgrees(setup, file, e, cursor, offset, total);
    }
  }

  lemma NamedAgrees(setup: Setup, file: seq<byte>, e: Item, cursor: nat, offset: nat, total: nat)
    requires offset + |Local(e)| < U32 && Has(file, offset, Local(e)) && Has(file, cursor, CentralRecord(e, offset))
    requires AcceptableCentral(CentralOf(e, offset), Next(cursor, CentralOf(e, offset)), |file|)
    ensures Agrees(NamedEntry(setup, file, cursor, CentralOf(e, offset), total), Judge(setup, e, total),
                   Next(cursor, CentralOf(e, offset)), e.size)
  {
    var c, name := CentralOf(e, offset), CString(e.name);
    CentralPlaces(file, e, cursor, offset);
    HeaderAcceptable(file, e, cursor, offset);
    NamedRefuses(setup, file, c, e.name, cursor, total);
    if SafeName(name) && e.attributes / 0x1000_0000 in {0, 4, 8} && total + e.size <= 0x1_0000_0000 &&
       |setup.stage| + 1 + |name| < 1024 {
      NamedReads(setup, file, c, e.name, cursor, total);
      FileReads(setup, file, e, cursor, offset, setup.stage + [SLASH] + name);
    }
  }

  // ---- the whole directory ----

  /** An element with its two records in the file. */
  ghost predicate Placed<E>(local: E -> seq<byte>, central: (E, nat) -> seq<byte>, file: seq<byte>, e: E, cursor: nat,
                            offset: nat) {
    offset + |local(e)| < U32 && Has(file, offset, local(e)) && Has(file, cursor, central(e, offset))
  }

  /** One round on any element, wherever it is placed, agrees with its judgement and moves past
      its header. */
  ghost predicate ReadsOne<E(!new)>(local: E -> seq<byte>, central: (E, nat) -> seq<byte>, size: E -> nat,
                                    judge: (E, nat) -> Result<Op>, entry: (nat, nat) -> Result<Visit>, file: seq<byte>) {
    forall e, cursor: nat, offset: nat, total: nat
      {:trigger Placed(local, central, file, e, cursor, offset), judge(e, total)} |
      Placed(local, central, file, e, cursor, offset) ::
      Agrees(entry(cursor, total), judge(e, total), cursor + |central(e, offset)|, size(e))
  }

  /** The visits do these operations. */
  ghost predicate Do(vs: seq<Visit>, ops: seq<Op>) {
    |vs| == |ops| && forall i | 0 <= i < |vs| :: vs[i].op == ops[i]
  }

  ghost predicate AllAgree(r: Result<seq<Visit>>, j: Result<seq<Op>>) {
    match j
    case Err(code) => r == Err(code)
    case Ok(ops) => r.Ok? && Do(r.value, ops)
  }

  lemma {:induction false} WalkReads<E(!new)>(local: E -> seq<byte>, central: (E, nat) -> seq<byte>, size: E -> nat,
                                              judge: (E, nat) -> Result<Op>, entry: (nat, nat) -> Result<Visit>,
                                              file: seq<byte>, es: seq<E>, cursor: nat, offset: nat, total: nat)
    requires ReadsOne(local, central, size, judge, entry, file) && offset + |Table(local, es)| < U32
    requires Has(file, offset, Table(local, es)) && Has(file, cursor, Centrals(local, central, es, offset))
    ensures AllAgree(Walk(entry, cursor, |es|, total), Judged(judge, size, es, total))
    decreases |es|
  {
    if es != [] {
      var e, rest := es[0], es[1..];
      var after := offset + |local(e)|;
      HasSplits(file, offset, local(e), Table(local, rest));
      HasSplits(file, cursor, central(e, offset), Centrals(local, central, rest, after));
      assert Placed(local, central, file, e, cursor, offset);
      WalkReads(local, central, size, judge, entry, file, rest, cursor + |central(e, offset)|, after, total + size(e));
      var r := judge(e, total);
      assert Agrees(entry(cursor, total), r, cursor + |central(e, offset)|, size(e));
    }
  }

  function Size(e: Item): nat { e.size }

  function JudgeIn(setup: Setup): (Item, nat) -> Result<Op> {
    (e: Item, total: nat) => Judge(setup, e, total)
  }

  lemma ReadsItems(setup: Setup, file: seq<byte>)
    ensures ReadsOne(Local, CentralRecord, Size, JudgeIn(setup), EntryOf(setup, file), file)
  {
    forall e: Item, cursor: nat, offset: nat, total: nat | Placed(Local, CentralRecord, file, e, cursor, offset)
      ensures Agrees(EntryOf(setup, file)(cursor, total), JudgeIn(setup)(e, total), cursor + |CentralRecord(e, offset)|, Size(e))
    {
      EntryReads(setup, file, e, cursor, offset, total);
    }
  }

  lemma ArchiveParts(es: seq<Item>, comment: seq<byte>)
    requires Sized(es, comment)
    requires LastSignature(Archive(es, comment), |Archive(es, comment)| - 22 - |comment|)
    ensures var file := Archive(es, comment); var locals := Table(Local, es);
      && |file| >= 22 && FindDirectory(file) == Ok(Directory(|locals|, |es|))
      && Has(file, 0, locals) && Has(file, |locals|, Centrals(Local, CentralRecord, es, 0))
  {
    var file := Archive(es, comment);
    var locals, centrals := Table(Local, es), Centrals(Local, CentralRecord, es, 0);
    assert file[|locals + centrals|..] == EndRecord(|es|, |centrals|, |locals|, comment);
    DirectoryFound(file, |locals + centrals|, |es|, |centrals|, |locals|, comment);
  }

  /** Every archive, whatever its entries say: reading it does what they say in order, or
      reports the code of the first that is refused. */
  lemma ReadOfArchive(setup: Setup, es: seq<Item>, comment: seq<byte>)
    requires Sized(es, comment)
    requires LastSignature(Archive(es, comment), |Archive(es, comment)| - 22 - |comment|)
    ensures AllAgree(Read(setup, Archive(es, comment)), Judged(JudgeIn(setup), Size, es, 0))
  {
    var file := Archive(es, comment);
    ArchiveParts(es, comment);
    ReadsItems(setup, file);
    WalkReads(Local, CentralRecord, Size, JudgeIn(setup), EntryOf(setup, file), file, es, |Table(Local, es)|, 0, 0);
  }

  // ---- entries that say what is so ----

  /** The content of a stored or a deflated file. */
  function ContentOf(setup: Setup, e: Item): seq<byte> {
    if e.compression == 0 then e.payload
    else match setup.inflate(e.payload) case BadStream => [] case Inflated(data) => data
  }

  /** A file, stored or deflated, with its size and its checksum. */
  predicate Honest(setup: Setup, e: Item) {
    && e.localCompression == e.compression && (e.compression == 8 ==> setup.inflate(e.payload) != BadStream)
    && e.size == |ContentOf(setup, e)| && e.crc == Checksum(ContentOf(setup, e))
  }

  /** Within the limits of the code: a safe NUL-free name, not encrypted, stored or deflated,
      and a Unix type that is absent, a regular file or a directory. */
  predicate Acceptable(setup: Setup, e: Item) {
    && e.flags % 2 == 0 && e.disk == 0 && (e.compression == 0 || e.compression == 8) && e.size != 0xffff_ffff
    && 0 < |e.name| < 512 && 0 !in e.name && SafeName(e.name) && |setup.stage| + 1 + |e.name| < 1024
    && e.attributes / 0x1000_0000 in {0, 4, 8} && (!IsDirectory(e.name) ==> Honest(setup, e))
  }

  function TotalSize(es: seq<Item>): nat {
    if es == [] then 0 else es[0].size + TotalSize(es[1..])
  }

  /** What extracting an entry means. */
  function OpOf(setup: Setup, e: Item): Op {
    if IsDirectory(e.name) then MakeDirectory(setup.stage + [SLASH] + WithoutTrailingSlash(e.name))
    else WriteFile(setup.stage + [SLASH] + e.name, ContentOf(setup, e))
  }

  lemma ChopDirectory(stage: seq<byte>, name: seq<byte>)
    requires IsDirectory(name)
    ensures Chop(stage + [SLASH] + name) == stage + [SLASH] + WithoutTrailingSlash(name)
  {
  }

  lemma HonestPayload(setup: Setup, e: Item, path: seq<byte>)
    requires Honest(setup, e) && (e.compression == 0 || e.compression == 8)
    ensures JudgePayload(setup, e, path) == Ok(WriteFile(path, ContentOf(setup, e)))
  {
  }

  lemma AcceptableIsJudged(setup: Setup, e: Item, total: nat)
    requires Acceptable(setup, e) && total + e.size <= 0x1_0000_0000
    ensures Judge(setup, e, total) == Ok(OpOf(setup, e))
  {
    CStringOfClean(e.name);
    if IsDirectory(e.name) {
      ChopDirectory(setup.stage, e.name);
    } else {
      HonestPayload(setup, e, setup.stage + [SLASH] + e.name);
    }
  }

  lemma {:induction false} AcceptablesAreJudged(setup: Setup, es: seq<Item>, total: nat)
    requires (forall e | e in es :: Acceptable(setup, e)) && total + TotalSize(es) <= 0x1_0000_0000
    ensures var r := Judged(JudgeIn(setup), Size, es, total);
      r.Ok? && |r.value| == |es| && forall i | 0 <= i < |es| :: r.value[i] == OpOf(setup, es[i])
    decreases |es|
  {
    if es != [] {
      AcceptableIsJudged(setup, es[0], total);
      AcceptablesAreJudged(setup, es[1..], total + es[0].size);
    }
  }

  /** Reading back an archive of stored and deflated files and directories yields exactly the
      entries that went in, in order. */
  lemma ReadInvertsArchive(setup: Setup, es: seq<Item>, comment: seq<byte>)
    requires Sized(es, comment) && TotalSize(es) <= 0x1_0000_0000 && forall e | e in es :: Acceptable(setup, e)
    requires LastSignature(Archive(es, comment), |Archive(es, comment)| - 22 - |comment|)
    ensures var r := Read(setup, Archive(es, comment));
      r.Ok? && |r.value| == |es| && forall i | 0 <= i < |es| :: r.value[i].op == OpOf(setup, es[i])
  {
    ReadOfArchive(setup, es, comment);
    AcceptablesAreJudged(setup, es, 0);
  }
}
