/** The VPK reader of package_installer.c as a function of the bytes of the archive:
    what it visits, what it writes, and which error it reports, when no I/O call fails. */
module Zip {
  import opened InstallErrors
  import opened Options
  import opened Bytes
  import opened Crc32
  import opened Inflate
  import opened ArchivePath
  import opened CStrings

  datatype Result<+T> = Ok(value: T) | Err(code: int)

  const PATH_MAX := 1024
  const TOTAL_MAX := 0x1_0000_0000
  const TAIL_MAX := 0x10016
  const EOCD_SIGNATURE := 0x06054B50
  const CENTRAL_SIGNATURE := 0x02014B50
  const LOCAL_SIGNATURE := 0x04034B50

  /** A change below the stage directory. */
  datatype Op = MakeDirectory(path: seq<byte>) | WriteFile(path: seq<byte>, data: seq<byte>)

  /** One round of the header walk.  For a directory no payload is looked at. */
  datatype Visit = Visit(cursor: nat, next: nat, declaredSize: nat, payload: nat, payloadSize: nat, op: Op)

  /** Where the entries go, and the decoder of compressed ones. */
  datatype Setup = Setup(stage: seq<byte>, zlib: Decoder) {
    function inflate(bytes: seq<byte>): Inflated {
      Decode(zlib, zlib.start, bytes)
    }
  }

  // ---- end of central directory: APPNOTE section 4.3.16 ----

  /** The scan backwards from `index`: the last place with the signature, if there is one. */
  function ScanBack(tail: seq<byte>, index: nat): (r: Option<nat>)
    requires index + 22 <= |tail|
    ensures r.Some? ==> r.value <= index && Le32(tail, r.value) == EOCD_SIGNATURE
    ensures forall j | (if r.Some? then r.value + 1 else 0) <= j <= index :: Le32(tail, j) != EOCD_SIGNATURE
  {
    if Le32(tail, index) == EOCD_SIGNATURE then Some(index)
    else if index == 0 then None
    else ScanBack(tail, index - 1)
  }

  datatype Directory = Directory(offset: nat, count: nat)

  function Tail(file: seq<byte>): seq<byte> {
    if |file| < TAIL_MAX then file else file[|file| - TAIL_MAX..]
  }

  /** The record found first decides; an earlier one is not tried. */
  function DirectoryIn(tail: seq<byte>, fileSize: nat): Result<Directory>
    requires |tail| >= 22
  {
    match ScanBack(tail, |tail| - 22)
    case None => Err(ERROR_ARCHIVE)
    case Some(i) => EndRecordAt(tail, i, fileSize)
  }

  function EndRecordAt(tail: seq<byte>, i: nat, fileSize: nat): Result<Directory>
    requires i + 22 <= |tail|
  {
    var entries := Le16(tail, i + 10);
    if Le16(tail, i + 4) == 0 && Le16(tail, i + 6) == 0 && entries == Le16(tail, i + 8) && entries != 0xFFFF &&
       Le32(tail, i + 16) + Le32(tail, i + 12) <= fileSize
    then Ok(Directory(Le32(tail, i + 16), entries))
    else Err(ERROR_ARCHIVE)
  }

  function FindDirectory(file: seq<byte>): Result<Directory>
    requires |file| >= 22
  {
    DirectoryIn(Tail(file), |file|)
  }

  // ---- central directory header: APPNOTE section 4.3.12 ----

  datatype Central = Central(flags: nat, compression: nat, crc: nat, compressed: nat, uncompressed: nat, nameSize: nat,
                             extraSize: nat, commentSize: nat, disk: nat, attributes: nat, localOffset: nat)

  function DecodeCentral(h: seq<byte>): Central
    requires |h| == 46
  {
    Central(Le16(h, 8), Le16(h, 10), Le32(h, 16), Le32(h, 20), Le32(h, 24), Le16(h, 28),
            Le16(h, 30), Le16(h, 32), Le16(h, 34), Le32(h, 38), Le32(h, 42))
  }

  function Next(cursor: nat, c: Central): nat {
    cursor + 46 + c.nameSize + c.extraSize + c.commentSize
  }

  predicate AcceptableCentral(c: Central, next: nat, fileSize: nat) {
    && c.flags % 2 == 0 && c.disk == 0 && 0 < c.nameSize < PATH_MAX / 2
    && c.compressed != 0xFFFF_FFFF && c.uncompressed != 0xFFFF_FFFF && c.localOffset != 0xFFFF_FFFF
    && (c.compression == 0 || c.compression == 8) && next <= fileSize
  }

  /** The file type bits of the Unix mode, (attributes >> 16) & 0170000, in units of 0010000. */
  function UnixType(attributes: nat): nat {
    attributes / 0x1000_0000
  }

  predicate AcceptableType(attributes: nat) {
    UnixType(attributes) == 0 || UnixType(attributes) == 8 || UnixType(attributes) == 4
  }

  function Destination(setup: Setup, name: seq<byte>): seq<byte> {
    setup.stage + [SLASH] + name
  }

  // ---- local header: APPNOTE section 4.3.7 ----

  /** Where the payload of an entry starts, if its local header is right and it fits. */
  function FindPayload(file: seq<byte>, c: Central): Result<nat> {
    if c.localOffset + 30 > |file| then Err(ERROR_ARCHIVE)
    else
      var h := file[c.localOffset..c.localOffset + 30];
      if Le32(h, 0) != LOCAL_SIGNATURE || Le16(h, 8) != c.compression then Err(ERROR_ARCHIVE)
      else
        var payload := c.localOffset + 30 + Le16(h, 26) + Le16(h, 28);
        if payload + c.compressed > |file| then Err(ERROR_ARCHIVE) else Ok(payload)
  }

  /** extract_zip_data: the 32-bit output count and the checksum must agree with the header. */
  function Unpack(setup: Setup, c: Central, bytes: seq<byte>): Result<seq<byte>> {
    if c.compression == 0 then
      if c.compressed != c.uncompressed then Err(ERROR_ARCHIVE_SIZE)
      else if Checksum(bytes) != c.crc then Err(ERROR_ARCHIVE)
      else Ok(bytes)
    else
      match setup.inflate(bytes)
      case BadStream => Err(ERROR_ARCHIVE)
      case Inflated(data) =>
        if |data| % U32 != c.uncompressed || Checksum(data) != c.crc then Err(ERROR_ARCHIVE) else Ok(data)
  }

  function FileVisit(setup: Setup, file: seq<byte>, cursor: nat, c: Central, destination: seq<byte>): Result<Visit> {
    match FindPayload(file, c)
    case Err(e) => Err(e)
    case Ok(payload) =>
      match Unpack(setup, c, file[payload..payload + c.compressed])
      case Err(e) => Err(e)
      case Ok(data) =>
        Ok(Visit(cursor, Next(cursor, c), c.uncompressed, payload, c.compressed, WriteFile(destination, data)))
  }

  /** What follows the checks on the header itself. */
  function NamedEntry(setup: Setup, file: seq<byte>, cursor: nat, c: Central, total: nat): Result<Visit>
    requires AcceptableCentral(c, Next(cursor, c), |file|)
  {
    var raw := file[cursor + 46..cursor + 46 + c.nameSize];
    var name := CString(raw);
    if !SafeName(name) then Err(ERROR_ARCHIVE_PATH)
    else if !AcceptableType(c.attributes) then Err(ERROR_ARCHIVE_TYPE)
    else if c.uncompressed > TOTAL_MAX - total then Err(ERROR_ARCHIVE_SIZE)
    else
      var destination := Destination(setup, name);
      if |destination| >= PATH_MAX then Err(ERROR_ARCHIVE_PATH)
      else if raw[|raw| - 1] == SLASH then
        Ok(Visit(cursor, Next(cursor, c), c.uncompressed, 0, 0, MakeDirectory(destination[..|destination| - 1])))
      else FileVisit(setup, file, cursor, c, destination)
  }

  function Entry(setup: Setup, file: seq<byte>, cursor: nat, total: nat): Result<Visit> {
    if cursor + 46 > |file| then Err(ERROR_ARCHIVE)
    else
      var h := file[cursor..cursor + 46];
      var c := DecodeCentral(h);
      if Le32(h, 0) != CENTRAL_SIGNATURE || !AcceptableCentral(c, Next(cursor, c), |file|) then Err(ERROR_ARCHIVE)
      else NamedEntry(setup, file, cursor, c, total)
  }

  /** The loop over the central directory: `count` entries are left. */
  function Walk(entry: (nat, nat) -> Result<Visit>, cursor: nat, count: nat, total: nat): Result<seq<Visit>>
    decreases count
  {
    if count == 0 then Ok([])
    else
      match entry(cursor, total)
      case Err(e) => Err(e)
      case Ok(v) =>
        match Walk(entry, v.next, count - 1, total + v.declaredSize)
        case Err(e) => Err(e)
        case Ok(vs) => Ok([v] + vs)
  }

  function EntryOf(setup: Setup, file: seq<byte>): (nat, nat) -> Result<Visit> {
    (cursor: nat, total: nat) => Entry(setup, file, cursor, total)
  }

  /** extract_vpk */
  function Read(setup: Setup, file: seq<byte>): Result<seq<Visit>> {
    if |file| < 22 then Err(ERROR_ARCHIVE)
    else
      match FindDirectory(file)
      case Err(e) => Err(e)
      case Ok(d) => Walk(EntryOf(setup, file), d.offset, d.count, 0)
  }
}
