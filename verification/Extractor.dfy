/** The extraction of package_installer.c as it runs: partial reads and writes, a checksum
    kept chunk by chunk, and clean-up on failure, against scripted I/O. */
module Extractor {
  import opened InstallErrors
  import opened Bytes
  import opened Crc32
  import opened ArchivePath
  import opened CStrings
  import opened Inflate
  import opened StageTree
  import opened StageDisk
  import opened Zip
  import ZipSoundness

  const IO_BUFFER := 64 * 1024

  /** Every payload read that is answered here gets its whole chunk. */
  predicate Whole(chunks: seq<int>) {
    forall i | 0 <= i < |chunks| :: chunks[i] >= IO_BUFFER
  }

  /** A failure stays known, and there is one only if a call failed or a payload came short. */
  twostate predicate Kept(input: Input)
    reads input
  {
    (old(input.failed) ==> input.failed) && (old(input.Calm()) ==> input.Calm() && input.failed == old(input.failed))
  }

  /** The open archive.  The scripts say what the coming calls return, any integers at all: one
      is for seeks, for memory and for the pieces in which headers are read, the other for the
      reads of payloads.  A call beyond them succeeds in full. */
  class Input {
    const bytes: seq<byte>
    /** How far calls of inflate read on, see Inflate.Stream. */
    const ahead: seq<nat>
    var position: nat
    var script: seq<int>
    var chunks: seq<int>
    /** A call has failed, or a payload read came short. */
    ghost var failed: bool

    /** No call to come fails; headers come in pieces of any size, payloads in whole chunks. */
    predicate Calm()
      reads this
    {
      Succeeds(script) && Whole(chunks)
    }

    constructor (bytes: seq<byte>, script: seq<int>, chunks: seq<int>, ahead: seq<nat>)
      ensures this.bytes == bytes && this.script == script && this.chunks == chunks && !failed
    {
      this.bytes, this.script, this.chunks, this.ahead, position, failed := bytes, script, chunks, ahead, 0, false;
    }

    /** sceIoLseek from the start */
    method Seek(offset: nat) returns (result: int)
      modifies this
      ensures Kept(this)
      ensures if result < 0 then failed else position == offset && failed == old(failed)
    {
      result := 0;
      if script != [] {
        result, script := script[0], script[1..];
      }
      if result < 0 {
        failed := true;
      } else {
        position := offset;
      }
    }

    /** sceIoRead: some of the bytes, none at the end of the file, or an error. */
    method Read(buffer: array<byte>, from: nat, length: nat) returns (n: int)
      requires from + length <= buffer.Length && length > 0
      modifies this, buffer
      ensures Kept(this)
      ensures 0 < n ==>
        && n <= length && old(position) + n == position <= |bytes| && failed == old(failed)
        && buffer[..from + n] == old(buffer[..from]) + bytes[old(position)..position]
      ensures n <= 0 ==> position == old(position) && (failed || (n == 0 && position >= |bytes|))
    {
      n := length;
      if script != [] {
        n, script := script[0], script[1..];
      }
      if n > length {
        n := length;
      }
      if n > 0 && position + n > |bytes| {
        n := if position < |bytes| then |bytes| - position else 0;
      } else if n <= 0 {
        failed := true;
      }
      if n > 0 {
        Deliver(buffer, from, bytes[position..position + n]);
        position := position + n;
      }
    }

    /** sceIoRead of a chunk of payload that the file has; to come short is to fail. */
    method ReadChunk(buffer: array<byte>, length: nat) returns (n: int)
      requires length <= buffer.Length && length <= IO_BUFFER && position + length <= |bytes|
      modifies this, buffer
      ensures Kept(this) && n <= length
      ensures if n == length then
                && position == old(position) + length && failed == old(failed)
                && buffer[..length] == bytes[old(position)..position]
              else failed
    {
      n := length;
      if chunks != [] {
        n, chunks := chunks[0], chunks[1..];
      }
      if n > length {
        n := length;
      }
      if n != length {
        failed := true;
      }
      if n > 0 {
        Deliver(buffer, 0, bytes[position..position + n]);
        position := position + n;
      }
    }

    static method Deliver(buffer: array<byte>, from: nat, piece: seq<byte>)
      requires from + |piece| <= buffer.Length
      modifies buffer
      ensures buffer[..from + |piece|] == old(buffer[..from]) + piece
    {
      forall i | 0 <= i < |piece| {
        buffer[from + i] := piece[i];
      }
    }

    /** Whether memory for a buffer is to be had. */
    method Allocate() returns (ok: bool)
      modifies this`script, this`failed
      ensures Kept(this)
      ensures if ok then failed == old(failed) else failed
    {
      ok := true;
      if script != [] {
        ok, script := script[0] >= 0, script[1..];
      }
      if !ok {
        failed := true;
      }
    }
  }

  /** read_at: all of the range, whatever the pieces, or an error. */
  method ReadAt(input: Input, offset: nat, buffer: array<byte>, size: nat) returns (result: int)
    requires size <= buffer.Length
    modifies input, buffer
    ensures Kept(input)
    ensures result <= 0
    ensures result == 0 && size > 0 ==>
      offset + size <= |input.bytes| && buffer[..size] == input.bytes[offset..offset + size]
    ensures result < 0 && !input.failed ==> result == ERROR_IO && offset + size > |input.bytes|
  {
    var sought := input.Seek(offset);
    if sought < 0 {
      return ERROR_IO;
    }
    var done := 0;
    while done < size
      invariant done <= size && input.position == offset + done && Kept(input)
      invariant done > 0 ==> offset + done <= |input.bytes| && buffer[..done] == input.bytes[offset..offset + done]
    {
      var read := input.Read(buffer, done, size - done);
      if read <= 0 {
        return if read < 0 then read else ERROR_IO;
      }
      done := done + read;
      assert input.bytes[offset..offset + done] ==
             input.bytes[offset..offset + done - read] + input.bytes[offset + done - read..offset + done];
    }
    return 0;
  }

  /** The file behind a descriptor is one; nothing else has changed since `before`. */
  ghost predicate OnlyFile(before: Tree, disk: Disk, fd: Path)
    reads disk
  {
    FileAt(disk.tree, fd) && disk.tree - {fd} == before - {fd}
  }

  /** write_all */
  method WriteAll(disk: Disk, fd: Path, buffer: array<byte>, size: nat) returns (result: int)
    requires FileAt(disk.tree, fd) && size <= buffer.Length
    modifies disk
    ensures DiskKept(disk) && result <= 0 && OnlyFile(old(disk.tree), disk, fd)
    ensures result == 0 ==> disk.tree[fd].data == old(disk.tree)[fd].data + buffer[..size]
    ensures result < 0 ==> disk.failed
  {
    var done := 0;
    while done < size
      invariant done <= size && DiskKept(disk) && OnlyFile(old(disk.tree), disk, fd)
      invariant disk.tree[fd].data == old(disk.tree)[fd].data + buffer[..done]
    {
      var written := disk.Write(fd, buffer, done, size - done);
      if written <= 0 {
        return if written < 0 then written else ERROR_IO;
      }
      assert buffer[..done] + buffer[done..done + written] == buffer[..done + written];
      done := done + written;
    }
    return 0;
  }

  /** The checksum of nothing is zero. */
  lemma CrcOfNothing()
    ensures Crc(0, []) == 0
  {
    NotNot(0);
  }

  lemma SliceGrows(b: seq<byte>, from: nat, done: nat, more: nat)
    requires from + done + more <= |b|
    ensures b[from..from + done + more] == b[from..from + done] + b[from + done..from + done + more]
  {
  }

  /** The file holds the data, the checksum is theirs, and the 32-bit count their number. */
  ghost predicate Written(disk: Disk, fd: Path, data: seq<byte>, checksum: bv32, produced: nat)
    reads disk
  {
    FileAt(disk.tree, fd) && disk.tree[fd].data == data && checksum == Crc(0, data) && produced == |data| % U32
  }

  lemma CountWraps(data: seq<byte>, piece: seq<byte>)
    ensures (|data| % U32 + |piece|) % U32 == |data + piece| % U32
  {
  }

  /** A piece of output is summed, written and counted. */
  method Emit(disk: Disk, fd: Path, buffer: array<byte>, n: nat, ghost data: seq<byte>, checksum: bv32, produced: nat)
    returns (result: int, sum: bv32, total: nat)
    requires Written(disk, fd, data, checksum, produced) && n <= buffer.Length
    modifies disk
    ensures DiskKept(disk) && result <= 0 && OnlyFile(old(disk.tree), disk, fd)
    ensures if result < 0 then disk.failed else Written(disk, fd, data + buffer[..n], sum, total)
  {
    sum := Crc(checksum, buffer[..n]);
    CrcInTwo(0, data, buffer[..n]);
    total := (produced + n) % U32;
    CountWraps(data, buffer[..n]);
    result := WriteAll(disk, fd, buffer, n);
  }

  // ---- a stored payload ----

  /** One round: a whole chunk is read, summed and written. */
  method CopyChunk(input: Input, disk: Disk, fd: Path, buffer: array<byte>, ghost from: nat, ghost done: nat,
                   chunk: nat, checksum: bv32, produced: nat)
    returns (result: int, sum: bv32, total: nat)
    requires from + done + chunk <= |input.bytes| && 0 < chunk <= buffer.Length && chunk <= IO_BUFFER
    requires input.position == from + done
    requires Written(disk, fd, input.bytes[from..from + done], checksum, produced)
    modifies input, disk, buffer
    ensures Kept(input) && DiskKept(disk)
    ensures result <= 0 && OnlyFile(old(disk.tree), disk, fd)
    ensures if result < 0 then input.failed || disk.failed
            else Written(disk, fd, input.bytes[from..from + done + chunk], sum, total) && input.position == from + done + chunk
  {
    sum, total := checksum, produced;
    var read := input.ReadChunk(buffer, chunk);
    if read != chunk {
      return if read < 0 then read else ERROR_IO, sum, total;
    }
    assert buffer[..chunk] == input.bytes[from + done..from + done + chunk];
    SliceGrows(input.bytes, from, done, chunk);
    result, sum, total := Emit(disk, fd, buffer, chunk, input.bytes[from..from + done], checksum, produced);
  }

  /** The loop of extract_zip_data for a stored payload. */
  method CopyStored(input: Input, disk: Disk, fd: Path, ghost from: nat, size: nat)
    returns (result: int, checksum: bv32, produced: nat)
    requires input.position == from && from + size <= |input.bytes|
    requires FileAt(disk.tree, fd) && disk.tree[fd].data == []
    modifies input, disk
    ensures Kept(input) && DiskKept(disk)
    ensures result <= 0 && OnlyFile(old(disk.tree), disk, fd)
    ensures if result < 0 then input.failed || disk.failed
            else Written(disk, fd, input.bytes[from..from + size], checksum, produced)
  {
    var buffer := new byte[IO_BUFFER];
    var left: nat := size;
    checksum, produced := 0, 0;
    CrcOfNothing();
    while left > 0
      invariant left <= size && input.position == from + (size - left)
      invariant Written(disk, fd, input.bytes[from..from + (size - left)], checksum, produced)
      invariant Kept(input) && DiskKept(disk)
      invariant OnlyFile(old(disk.tree), disk, fd)
    {
      var chunk := if left < IO_BUFFER then left else IO_BUFFER;
      result, checksum, produced := CopyChunk(input, disk, fd, buffer, from, size - left, chunk, checksum, produced);
      if result < 0 {
        return;
      }
      left := left - chunk;
    }
    result := 0;
  }

  // ---- a deflated payload ----

  /** What the stream still has to give, after what the file holds, is `whole`, what the
      payload decodes to; `left` bytes of it have not been read. */
  ghost predicate Inflating(input: Input, stream: Stream, whole: Inflated, payload: seq<byte>, left: nat, data: seq<byte>)
    reads input, stream
  {
    && left <= |payload| && input.position + left <= |input.bytes|
    && input.bytes[input.position..input.position + left] == payload[|payload| - left..]
    && whole == Prepend(data, stream.Remaining(payload[|payload| - left..]))
  }

  lemma RestSplits(bytes: seq<byte>, at: nat, payload: seq<byte>, left: nat, chunk: nat)
    requires chunk <= left <= |payload| && at + left <= |bytes| && bytes[at..at + left] == payload[|payload| - left..]
    ensures payload[|payload| - left..] == bytes[at..at + chunk] + payload[|payload| - (left - chunk)..]
    ensures bytes[at + chunk..at + left] == payload[|payload| - (left - chunk)..]
  {
    var rest := payload[|payload| - left..];
    assert bytes[at..at + chunk] == rest[..chunk] && bytes[at + chunk..at + left] == rest[chunk..];
    assert payload[|payload| - (left - chunk)..] == rest[chunk..];
  }

  /** The stream has used up its input: the next chunk is read. */
  method Refill(input: Input, stream: Stream, buffer: array<byte>, chunk: nat, ghost whole: Inflated,
                ghost payload: seq<byte>, ghost left: nat, ghost data: seq<byte>)
    returns (result: int)
    requires Inflating(input, stream, whole, payload, left, data) && stream.input == []
    requires 0 < chunk <= left && chunk <= buffer.Length && chunk <= IO_BUFFER
    modifies input, stream, buffer
    ensures Kept(input) && result <= 0
    ensures stream.pending == old(stream.pending) && (result < 0 ==> input.failed)
    ensures result == 0 ==> Inflating(input, stream, whole, payload, left - chunk, data) && |stream.input| == chunk
  {
    RestSplits(input.bytes, input.position, payload, left, chunk);
    var read := input.ReadChunk(buffer, chunk);
    if read != chunk {
      return if read < 0 then read else ERROR_IO;
    }
    ghost var rest := payload[|payload| - (left - chunk)..];
    assert payload[|payload| - left..] == buffer[..chunk] + rest;
    stream.Supply(buffer[..chunk], rest);
    assert input.bytes[input.position..input.position + (left - chunk)] == rest;
    return 0;
  }

  /** What one round of the loop comes to. */
  datatype Turn = Again | Finished | Stopped(error: int)

  /** What a call of inflate and its code mean for the whole payload. */
  method Judge(stream: Stream, code: int, n: nat, left: nat, ghost whole: Inflated, ghost payload: seq<byte>,
               ghost data: seq<byte>)
    returns (turn: Turn)
    requires left <= |payload|
    requires whole == Prepend(data, stream.Remaining(payload[|payload| - left..]))
    requires code == Z_STREAM_END ==> stream.Remaining(payload[|payload| - left..]) == Inflated([])
    requires code == Z_DATA_ERROR ==> stream.Remaining(payload[|payload| - left..]) == BadStream
    requires code == Z_BUF_ERROR || (code == Z_OK && n == 0 && stream.input == [] && left == 0) ==>
      left == 0 && stream.input == [] && stream.pending == [] && stream.z.verdict(stream.state) == Going
    requires code in {Z_OK, Z_STREAM_END, Z_DATA_ERROR, Z_BUF_ERROR}
    ensures turn.Again? ==> code == Z_OK
    ensures turn.Finished? ==> whole == Inflated(data)
    ensures turn.Stopped? ==> turn.error == ERROR_ARCHIVE && whole == BadStream
  {
    if code == Z_STREAM_END {
      assert data + [] == data;
      turn := Finished;
    } else if code != Z_OK || (n == 0 && |stream.input| == 0 && left == 0) {
      if code != Z_DATA_ERROR {
        CutShort(stream.z, stream.state, []);
      }
      turn := Stopped(ERROR_ARCHIVE);
    } else {
      turn := Again;
    }
  }

  /** Input was taken in, or output given out. */
  predicate Progress(stream: Stream, hadInput: int, hadPending: nat)
    reads stream
  {
    (|stream.input| < hadInput) || (|stream.input| == hadInput && |stream.pending| < hadPending)
  }

  /** inflate is called once. */
  method CallInflate(stream: Stream, buffer: array<byte>, left: nat, ghost whole: Inflated, ghost payload: seq<byte>,
                     ghost data: seq<byte>)
    returns (turn: Turn, n: nat)
    requires left <= |payload| && whole == Prepend(data, stream.Remaining(payload[|payload| - left..]))
    requires (stream.input == [] ==> left == 0) && buffer.Length > 0
    modifies stream, buffer
    ensures n <= buffer.Length && whole == Prepend(data + buffer[..n], stream.Remaining(payload[|payload| - left..]))
    ensures turn.Again? ==> Progress(stream, |old(stream.input)|, |old(stream.pending)|)
    ensures turn.Finished? ==> whole == Inflated(data + buffer[..n])
    ensures turn.Stopped? ==> turn.error == ERROR_ARCHIVE && whole == BadStream
  {
    ghost var rest := payload[|payload| - left..];
    var code;
    code, n := stream.Inflate(buffer, rest);
    PrependTwice(data, buffer[..n], stream.Remaining(rest));
    turn := Judge(stream, code, n, left, whole, payload, data + buffer[..n]);
  }

  /** The output of one call is written, if there is any. */
  method EmitAny(disk: Disk, fd: Path, buffer: array<byte>, n: nat, ghost data: seq<byte>, checksum: bv32, produced: nat)
    returns (result: int, sum: bv32, total: nat)
    requires Written(disk, fd, data, checksum, produced) && n <= buffer.Length
    modifies disk
    ensures DiskKept(disk) && result <= 0 && OnlyFile(old(disk.tree), disk, fd)
    ensures if result < 0 then disk.failed else Written(disk, fd, data + buffer[..n], sum, total)
  {
    result, sum, total := 0, checksum, produced;
    if n > 0 {
      result, sum, total := Emit(disk, fd, buffer, n, data, checksum, produced);
    } else {
      assert data + buffer[..n] == data;
    }
  }

  /** inflate is called once, and its output is written. */
  method Pump(input: Input, disk: Disk, stream: Stream, fd: Path, buffer: array<byte>, left: nat, checksum: bv32, produced: nat,
              ghost whole: Inflated, ghost payload: seq<byte>, ghost data: seq<byte>)
    returns (turn: Turn, sum: bv32, total: nat, ghost more: seq<byte>)
    requires Inflating(input, stream, whole, payload, left, data) && Written(disk, fd, data, checksum, produced)
    requires (stream.input == [] ==> left == 0) && buffer.Length > 0
    modifies input`script, input`failed, disk, stream, buffer
    ensures Kept(input) && DiskKept(disk) && OnlyFile(old(disk.tree), disk, fd)
    ensures turn.Again? ==> Inflating(input, stream, whole, payload, left, more) && Written(disk, fd, more, sum, total)
    ensures turn.Again? ==> Progress(stream, |old(stream.input)|, |old(stream.pending)|)
    ensures turn.Finished? ==> whole == Inflated(more) && Written(disk, fd, more, sum, total)
    ensures turn.Stopped? ==> turn.error < 0
    ensures turn.Stopped? && !input.failed && !disk.failed ==>
      turn.error == ERROR_ARCHIVE && whole == BadStream
  {
    sum, total, more := checksum, produced, data;
    var granted := input.Allocate();
    if !granted {
      return Stopped(ERROR_ARCHIVE), sum, total, more;
    }
    var n, written;
    turn, n := CallInflate(stream, buffer, left, whole, payload, data);
    more := data + buffer[..n];
    written, sum, total := EmitAny(disk, fd, buffer, n, data, checksum, produced);
    if written < 0 {
      turn := Stopped(written);
    }
  }

  /** One round: the next chunk if the last is used up, and one call of inflate. */
  method InflateRound(input: Input, disk: Disk, stream: Stream, fd: Path, inBuffer: array<byte>, outBuffer: array<byte>,
                      left: nat, checksum: bv32, produced: nat, ghost whole: Inflated, ghost payload: seq<byte>, ghost data: seq<byte>)
    returns (turn: Turn, rest: nat, sum: bv32, total: nat, ghost more: seq<byte>)
    requires Inflating(input, stream, whole, payload, left, data) && Written(disk, fd, data, checksum, produced)
    requires inBuffer.Length >= IO_BUFFER && outBuffer.Length > 0 && inBuffer != outBuffer
    modifies input, disk, stream, inBuffer, outBuffer
    ensures Kept(input) && DiskKept(disk) && OnlyFile(old(disk.tree), disk, fd)
    ensures turn.Again? ==> Inflating(input, stream, whole, payload, rest, more)
    ensures turn.Again? ==> Progress(stream, old(left + |stream.input|) - rest, |old(stream.pending)|)
    ensures turn.Again? || turn.Finished? ==> Written(disk, fd, more, sum, total)
    ensures turn.Finished? ==> whole == Inflated(more)
    ensures turn.Stopped? ==> turn.error < 0
    ensures turn.Stopped? && !input.failed && !disk.failed ==>
      turn.error == ERROR_ARCHIVE && whole == BadStream
  {
    rest, sum, total, more := left, checksum, produced, data;
    if |stream.input| == 0 && left > 0 {
      var chunk := if left < IO_BUFFER then left else IO_BUFFER;
      var filled := Refill(input, stream, inBuffer, chunk, whole, payload, left, data);
      if filled < 0 {
        return Stopped(filled), rest, sum, total, more;
      }
      rest := left - chunk;
    }
    turn, sum, total, more := Pump(input, disk, stream, fd, outBuffer, rest, checksum, produced, whole, payload, data);
  }

  method InflateLoop(input: Input, disk: Disk, stream: Stream, fd: Path, inBuffer: array<byte>, outBuffer: array<byte>,
                     ghost whole: Inflated, ghost payload: seq<byte>, size: nat)
    returns (result: int, checksum: bv32, produced: nat)
    requires Inflating(input, stream, whole, payload, size, []) && FileAt(disk.tree, fd) && disk.tree[fd].data == []
    requires inBuffer.Length >= IO_BUFFER && outBuffer.Length > 0 && inBuffer != outBuffer
    modifies input, disk, stream, inBuffer, outBuffer
    ensures Kept(input) && DiskKept(disk)
    ensures result <= 0 && OnlyFile(old(disk.tree), disk, fd)
    ensures result == 0 ==> Written(disk, fd, disk.tree[fd].data, checksum, produced)
    ensures result == 0 ==> whole == Inflated(disk.tree[fd].data)
    ensures result < 0 && !input.failed && !disk.failed ==>
      result == ERROR_ARCHIVE && whole == BadStream
  {
    CrcOfNothing();
    checksum, produced := 0, 0;
    var left: nat := size;
    ghost var data := [];
    while true
      invariant Inflating(input, stream, whole, payload, left, data) && Written(disk, fd, data, checksum, produced)
      invariant Kept(input) && DiskKept(disk)
      invariant OnlyFile(old(disk.tree), disk, fd)
      decreases left + |stream.input|, |stream.pending|
    {
      var turn;
      turn, left, checksum, produced, data :=
        InflateRound(input, disk, stream, fd, inBuffer, outBuffer, left, checksum, produced, whole, payload, data);
      match turn {
        case Finished => return 0, checksum, produced;
        case Stopped(error) => return error, checksum, produced;
        case Again =>
      }
    }
  }

  /** The part of extract_zip_data for a deflated payload. */
  method InflateAll(input: Input, disk: Disk, z: Decoder, fd: Path, ghost from: nat, size: nat)
    returns (result: int, checksum: bv32, produced: nat)
    requires input.position == from && from + size <= |input.bytes|
    requires FileAt(disk.tree, fd) && disk.tree[fd].data == []
    modifies input, disk
    ensures Kept(input) && DiskKept(disk)
    ensures result <= 0 && OnlyFile(old(disk.tree), disk, fd)
    ensures result == 0 ==> Written(disk, fd, disk.tree[fd].data, checksum, produced)
    ensures result == 0 ==> Decode(z, z.start, input.bytes[from..from + size]) == Inflated(disk.tree[fd].data)
    ensures result < 0 && !input.failed && !disk.failed ==>
      result == ERROR_ARCHIVE && Decode(z, z.start, input.bytes[from..from + size]) == BadStream
  {
    checksum, produced := 0, 0;
    var granted := input.Allocate();
    if !granted {
      return ERROR_ARCHIVE, checksum, produced;
    }
    ghost var payload := input.bytes[from..from + size];
    ghost var whole := Decode(z, z.start, payload);
    assert payload[|payload| - size..] == payload;
    var stream := new Stream(z, input.ahead, payload);
    PrependNothing(whole);
    var inBuffer, outBuffer := new byte[IO_BUFFER], new byte[IO_BUFFER];
    result, checksum, produced := InflateLoop(input, disk, stream, fd, inBuffer, outBuffer, whole, payload, size);
  }

  // ---- extract_zip_data ----

  /** A failed extraction takes away the file at the destination at most, and adds nothing
      but directories. */
  ghost predicate Abandoned(before: Tree, after: Tree, p: Path) {
    && (forall q | q in before && q != p :: q in after && after[q] == before[q])
    && (forall q | q in after :: (q in before && after[q] == before[q]) || after[q] == Folder)
  }

  ghost predicate OneLess(before: Tree, after: Tree) {
    exists p :: Abandoned(before, after, p)
  }

  lemma GrownIsOneLess(before: Tree, after: Tree)
    requires Grown(before, after)
    ensures OneLess(before, after)
  {
    assert Abandoned(before, after, []);
  }

  lemma RemovedIsAbandoned(before: Tree, grown: Tree, filled: Tree, p: Path)
    requires Grown(before, grown) && filled - {p} == grown - {p}
    ensures OneLess(before, filled - {p})
  {
    assert Abandoned(before, filled - {p}, p) by {
      assert forall q | q in grown && q != p :: q in grown - {p} && (grown - {p})[q] == grown[q];
    }
  }

  /** The two loops, by the compression method. */
  method Fill(input: Input, disk: Disk, setup: Setup, c: Central, from: nat, fd: Path)
    returns (result: int, checksum: bv32, produced: nat)
    requires input.position == from && from + c.compressed <= |input.bytes|
    requires FileAt(disk.tree, fd) && disk.tree[fd].data == [] && (c.compression == 0 || c.compression == 8)
    modifies input, disk
    ensures Kept(input) && DiskKept(disk)
    ensures result <= 0 && OnlyFile(old(disk.tree), disk, fd)
    ensures result == 0 ==> Written(disk, fd, disk.tree[fd].data, checksum, produced)
    ensures var bytes := input.bytes[from..from + c.compressed];
      && (result == 0 && c.compression == 0 ==> c.compressed == c.uncompressed && disk.tree[fd].data == bytes)
      && (result == 0 && c.compression == 8 ==> setup.inflate(bytes) == Inflated(disk.tree[fd].data))
      && (result < 0 && !input.failed && !disk.failed ==>
            if c.compression == 0 then c.compressed != c.uncompressed && result == ERROR_ARCHIVE_SIZE
            else setup.inflate(bytes) == BadStream && result == ERROR_ARCHIVE)
  {
    checksum, produced := 0, 0;
    if c.compression == 0 {
      if c.compressed != c.uncompressed {
        return ERROR_ARCHIVE_SIZE, checksum, produced;
      }
      result, checksum, produced := CopyStored(input, disk, fd, from, c.compressed);
    } else {
      result, checksum, produced := InflateAll(input, disk, setup.zlib, fd, from, c.compressed);
    }
  }

  /** From the seek to the removal, the destination being open. */
  method FillAndCheck(input: Input, disk: Disk, setup: Setup, c: Central, from: nat, fd: Path) returns (result: int)
    requires from + c.compressed <= |input.bytes| && (c.compression == 0 || c.compression == 8) && c.uncompressed < U32
    requires FileAt(disk.tree, fd) && disk.tree[fd].data == []
    modifies input, disk
    ensures Kept(input) && DiskKept(disk)
    ensures result <= 0 && OnlyFile(old(disk.tree), disk, fd)
    ensures var unpacked := Unpack(setup, c, input.bytes[from..from + c.compressed]);
      && (result == 0 ==> unpacked == Ok(disk.tree[fd].data))
      && (result < 0 && !input.failed && !disk.failed ==> unpacked == Err(result))
  {
    var sought := input.Seek(from);
    if sought < 0 {
      return ERROR_IO;
    }
    var granted := input.Allocate();
    if !granted {
      return ERROR_MEMORY;
    }
    var checksum, produced;
    result, checksum, produced := Fill(input, disk, setup, c, from, fd);
    if result >= 0 && (produced != c.uncompressed || checksum as int != c.crc) {
      result := ERROR_ARCHIVE;
    }
  }

  /** `place` is PlaceOp; where it is a parameter its definition does not matter. */
  ghost predicate IsPlaceOp(place: (Tree, Op) -> Outcome) {
    forall t, op {:trigger PlaceOp(t, op)} :: place(t, op) == PlaceOp(t, op)
  }

  lemma NoParent(place: (Tree, Op) -> Outcome, t: Tree, path: seq<byte>)
    requires IsPlaceOp(place) && MakeParentAt(t, path).Failed?
    ensures forall data :: place(t, WriteFile(path, data)).Failed?
  {
    forall data
      ensures place(t, WriteFile(path, data)).Failed?
    {
      assert PlaceOp(t, WriteFile(path, data)).Failed?;
    }
  }

  lemma WithParent(place: (Tree, Op) -> Outcome, t: Tree, path: seq<byte>, u: Tree)
    requires IsPlaceOp(place) && MakeParentAt(t, path) == Done(u)
    ensures forall data ::
              place(t, WriteFile(path, data)) == (if CanOpen(u, Key(path)) then Done(u[Key(path) := File(data)]) else Failed)
  {
    forall data
      ensures place(t, WriteFile(path, data)) == if CanOpen(u, Key(path)) then Done(u[Key(path) := File(data)]) else Failed
    {
      assert PlaceOp(t, WriteFile(path, data)) == StoreAt(t, path, data);
    }
  }

  /** ensure_parent_directory and sceIoOpen. */
  method OpenFor(disk: Disk, path: seq<byte>, ghost place: (Tree, Op) -> Outcome) returns (result: int, fd: Path, ghost grown: Tree)
    requires IsPlaceOp(place)
    modifies disk
    ensures DiskKept(disk) && fd == Key(path) && Grown(old(disk.tree), grown)
    ensures if result < 0 then
              disk.tree == grown && (disk.failed || forall data :: place(old(disk.tree), WriteFile(path, data)).Failed?)
            else
              && disk.tree == grown[fd := File([])]
              && forall data :: place(old(disk.tree), WriteFile(path, data)) == Done(grown[fd := File(data)])
  {
    fd := Key(path);
    result := EnsureParentDirectory(disk, path);
    grown := disk.tree;
    if result < 0 {
      if !disk.failed {
        NoParent(place, old(disk.tree), path);
      }
      return;
    }
    WithParent(place, old(disk.tree), path, disk.tree);
    result, fd := disk.Open(path);
  }

  /** extract_zip_data; `blocked` says that the file system has something else in the way. */
  method ExtractData(input: Input, disk: Disk, setup: Setup, c: Central, from: nat, path: seq<byte>,
                     ghost place: (Tree, Op) -> Outcome)
    returns (result: int, ghost data: seq<byte>, ghost blocked: bool)
    requires from + c.compressed <= |input.bytes| && (c.compression == 0 || c.compression == 8)
    requires c.uncompressed < U32 && IsPlaceOp(place)
    modifies input, disk
    ensures Kept(input) && DiskKept(disk) && result <= 0
    ensures var unpacked := Unpack(setup, c, input.bytes[from..from + c.compressed]);
      && (result == 0 ==> unpacked == Ok(data) && place(old(disk.tree), WriteFile(path, data)) == Done(disk.tree))
      && (result < 0 && !input.failed && !disk.failed && !blocked ==> unpacked == Err(result))
    ensures result < 0 ==> OneLess(old(disk.tree), disk.tree)
    ensures blocked ==> result < 0
    ensures blocked && !disk.failed ==> forall data :: place(old(disk.tree), WriteFile(path, data)).Failed?
  {
    var fd;
    ghost var grown;
    data := [];
    result, fd, grown := OpenFor(disk, path, place);
    blocked := result < 0;
    if result < 0 {
      GrownIsOneLess(old(disk.tree), disk.tree);
      return;
    }
    result := FillAndCheck(input, disk, setup, c, from, fd);
    if result < 0 {
      RemovedIsAbandoned(old(disk.tree), grown, disk.tree, fd);
      disk.Remove(path);
    } else {
      OnlyAt(grown, disk.tree, fd, File([]));
      data := disk.tree[fd].data;
    }
  }

  /** A map that differs at one key only. */
  lemma OnlyAt<K, V>(before: map<K, V>, after: map<K, V>, key: K, start: V)
    requires key in after && after - {key} == before[key := start] - {key}
    ensures after == before[key := after[key]]
  {
    forall k | k in before || k in after
      ensures k in after && (k != key ==> k in before && after[k] == before[k])
    {
      if k != key {
        assert k in after - {key} <==> k in before[key := start] - {key};
        assert k in after - {key} ==> (after - {key})[k] == (before[key := start] - {key})[k];
      }
    }
  }

  /** The checks on the end record at `index`. */
  method ReadEndRecord(tail: seq<byte>, index: nat, fileSize: nat) returns (result: int, offset: nat, count: nat)
    requires index + 22 <= |tail|
    ensures EndRecordAt(tail, index, fileSize) == if result == 0 then Ok(Directory(offset, count)) else Err(result)
    ensures result <= 0
  {
    result, offset, count := ERROR_ARCHIVE, 0, 0;
    var disk, centralDisk := Le16(tail, index + 4), Le16(tail, index + 6);
    var entriesOnDisk, entries := Le16(tail, index + 8), Le16(tail, index + 10);
    var centralSize, centralOffset := Le32(tail, index + 12), Le32(tail, index + 16);
    if disk == 0 && centralDisk == 0 && entries == entriesOnDisk && entries != 0xFFFF &&
       centralOffset + centralSize <= fileSize {
      result, offset, count := 0, centralOffset, entries;
    }
  }

  /** The scan of find_central_directory. */
  method ScanTail(tail: seq<byte>, fileSize: nat) returns (result: int, offset: nat, count: nat)
    requires |tail| >= 22
    ensures DirectoryIn(tail, fileSize) == if result == 0 then Ok(Directory(offset, count)) else Err(result)
    ensures result <= 0
  {
    var index := |tail| - 22;
    while true
      invariant 0 <= index && index + 22 <= |tail| && ScanBack(tail, |tail| - 22) == ScanBack(tail, index)
      decreases index
    {
      if Le32(tail, index) == EOCD_SIGNATURE {
        result, offset, count := ReadEndRecord(tail, index, fileSize);
        return;
      }
      if index == 0 {
        return ERROR_ARCHIVE, 0, 0;
      }
      index := index - 1;
    }
  }

  lemma TailIs(file: seq<byte>, size: nat)
    requires size == (if |file| < TAIL_MAX then |file| else TAIL_MAX)
    ensures file[|file| - size..|file| - size + size] == Tail(file)
  {
  }

  /** find_central_directory */
  method FindCentral(input: Input) returns (result: int, offset: nat, count: nat)
    requires |input.bytes| >= 22
    modifies input
    ensures Kept(input) && result <= 0
    ensures result == 0 ==> FindDirectory(input.bytes) == Ok(Directory(offset, count))
    ensures result < 0 && !input.failed ==> FindDirectory(input.bytes) == Err(result)
  {
    offset, count := 0, 0;
    var size := if |input.bytes| < TAIL_MAX then |input.bytes| else TAIL_MAX;
    var granted := input.Allocate();
    if !granted {
      return ERROR_MEMORY, offset, count;
    }
    var buffer := new byte[size];
    result := ReadAt(input, |input.bytes| - size, buffer, size);
    if result < 0 {
      return;
    }
    TailIs(input.bytes, size);
    assert buffer[..] == buffer[..size];
    result, offset, count := ScanTail(buffer[..], |input.bytes|);
  }

  /** The local header of a file entry: where its payload starts. */
  method Locate(input: Input, c: Central) returns (result: int, from: nat)
    modifies input
    ensures Kept(input) && result <= 0
    ensures result == 0 ==> FindPayload(input.bytes, c) == Ok(from) && from + c.compressed <= |input.bytes|
    ensures result < 0 && !input.failed ==> FindPayload(input.bytes, c) == Err(result)
  {
    from := 0;
    var buffer := new byte[30];
    result := ReadAt(input, c.localOffset, buffer, 30);
    if result < 0 {
      return ERROR_ARCHIVE, from;
    }
    var h := buffer[..];
    assert h == buffer[..30];
    if Le32(h, 0) != LOCAL_SIGNATURE || Le16(h, 8) != c.compression {
      return ERROR_ARCHIVE, from;
    }
    from := c.localOffset + 30 + Le16(h, 26) + Le16(h, 28);
    if from + c.compressed > |input.bytes| {
      return ERROR_ARCHIVE, from;
    }
  }

  lemma FileVisitOf(setup: Setup, file: seq<byte>, cursor: nat, c: Central, path: seq<byte>)
    ensures FileVisit(setup, file, cursor, c, path) ==
      match FindPayload(file, c)
      case Err(e) => Err(e)
      case Ok(from) =>
        match Unpack(setup, c, file[from..from + c.compressed])
        case Err(e) => Err(e)
        case Ok(data) => Ok(Visit(cursor, Next(cursor, c), c.uncompressed, from, c.compressed, WriteFile(path, data)))
  {
  }

  /** A file entry, its payload having been located. */
  method ExtractLocated(input: Input, disk: Disk, setup: Setup, c: Central, cursor: nat, from: nat, path: seq<byte>,
                        ghost place: (Tree, Op) -> Outcome)
    returns (result: int, ghost visit: Visit, ghost blocked: bool)
    requires (c.compression == 0 || c.compression == 8) && c.uncompressed < U32 && IsPlaceOp(place)
    requires FindPayload(input.bytes, c) == Ok(from) && from + c.compressed <= |input.bytes|
    modifies input, disk
    ensures Kept(input) && DiskKept(disk)
    ensures Round(FileVisit(setup, input.bytes, cursor, c, path), result, visit, blocked, place, old(disk.tree), input, disk)
  {
    ghost var data := [];
    FileVisitOf(setup, input.bytes, cursor, c, path);
    result, data, blocked := ExtractData(input, disk, setup, c, from, path, place);
    visit := Visit(cursor, Next(cursor, c), c.uncompressed, from, c.compressed, WriteFile(path, data));
  }

  /** A file entry, from its local header on. */
  method ExtractFile(input: Input, disk: Disk, setup: Setup, c: Central, cursor: nat, path: seq<byte>,
                     ghost place: (Tree, Op) -> Outcome)
    returns (result: int, ghost visit: Visit, ghost blocked: bool)
    requires (c.compression == 0 || c.compression == 8) && c.uncompressed < U32 && IsPlaceOp(place)
    modifies input, disk
    ensures Kept(input) && DiskKept(disk)
    ensures Round(FileVisit(setup, input.bytes, cursor, c, path), result, visit, blocked, place, old(disk.tree), input, disk)
  {
    visit, blocked := Visit(cursor, Next(cursor, c), c.uncompressed, 0, c.compressed, WriteFile(path, [])), false;
    GrownIsOneLess(disk.tree, disk.tree);
    var from;
    result, from := Locate(input, c);
    if result == 0 {
      result, visit, blocked := ExtractLocated(input, disk, setup, c, cursor, from, path, place);
    }
  }

  /** The outcome of one round against what the reader says about it. */
  ghost predicate Round(r: Result<Visit>, result: int, visit: Visit, blocked: bool,
                        place: (Tree, Op) -> Outcome, before: Tree, input: Input, disk: Disk)
    reads input, disk
  {
    && result <= 0 && (blocked ==> result < 0)
    && (result == 0 ==> r == Ok(visit) && place(before, visit.op) == Done(disk.tree))
    && (result < 0 ==> OneLess(before, disk.tree))
    && (result < 0 && !input.failed && !disk.failed && !blocked ==> r == Err(result))
    && (blocked && !disk.failed && r.Ok? ==> place(before, r.value.op).Failed?)
  }

  /** The end of a round: a directory is made, or a file extracted. */
  method ExtractTo(input: Input, disk: Disk, setup: Setup, c: Central, cursor: nat, raw: seq<byte>, destination: seq<byte>,
                   ghost place: (Tree, Op) -> Outcome)
    returns (result: int, ghost visit: Visit, ghost blocked: bool)
    requires (c.compression == 0 || c.compression == 8) && c.uncompressed < U32 && IsPlaceOp(place) && raw != [] && destination != []
    modifies input, disk
    ensures Kept(input) && DiskKept(disk)
    ensures Round(if raw[|raw| - 1] == SLASH then
                    Ok(Visit(cursor, Next(cursor, c), c.uncompressed, 0, 0, MakeDirectory(destination[..|destination| - 1])))
                  else FileVisit(setup, input.bytes, cursor, c, destination),
                  result, visit, blocked, place, old(disk.tree), input, disk)
  {
    if raw[|raw| - 1] == SLASH {
      visit := Visit(cursor, Next(cursor, c), c.uncompressed, 0, 0, MakeDirectory(destination[..|destination| - 1]));
      result := EnsureDirectory(disk, destination[..|destination| - 1]);
      assert PlaceOp(old(disk.tree), visit.op) == MakeDirectoryAt(old(disk.tree), destination[..|destination| - 1]);
      GrownIsOneLess(old(disk.tree), disk.tree);
      blocked := result < 0;
    } else {
      result, visit, blocked := ExtractFile(input, disk, setup, c, cursor, destination, place);
    }
  }

  /** The part of extract_vpk after the checks on the header. */
  method ExtractNamed(input: Input, disk: Disk, setup: Setup, c: Central, cursor: nat, total: nat,
                      ghost place: (Tree, Op) -> Outcome)
    returns (result: int, ghost visit: Visit, ghost blocked: bool)
    requires AcceptableCentral(c, Next(cursor, c), |input.bytes|) && total <= TOTAL_MAX && c.uncompressed < U32 && IsPlaceOp(place)
    modifies input, disk
    ensures Kept(input) && DiskKept(disk)
    ensures Round(NamedEntry(setup, input.bytes, cursor, c, total), result, visit, blocked, place, old(disk.tree), input, disk)
  {
    visit, blocked := Visit(cursor, Next(cursor, c), c.uncompressed, 0, 0, MakeDirectory([])), false;
    GrownIsOneLess(disk.tree, disk.tree);
    var buffer := new byte[PATH_MAX / 2];
    result := ReadAt(input, cursor + 46, buffer, c.nameSize);
    if result < 0 {
      return;
    }
    var raw := buffer[..c.nameSize];
    assert raw == input.bytes[cursor + 46..cursor + 46 + c.nameSize];
    var name := CString(raw);
    var safe := IsSafeArchivePath(name);
    if !safe {
      return ERROR_ARCHIVE_PATH, visit, blocked;
    }
    if UnixType(c.attributes) != 0 && UnixType(c.attributes) != 8 && UnixType(c.attributes) != 4 {
      return ERROR_ARCHIVE_TYPE, visit, blocked;
    }
    var room: nat := TOTAL_MAX - total;
    if c.uncompressed > room {
      return ERROR_ARCHIVE_SIZE, visit, blocked;
    }
    var destination := Destination(setup, name);
    if |destination| >= PATH_MAX {
      return ERROR_ARCHIVE_PATH, visit, blocked;
    }
    result, visit, blocked := ExtractTo(input, disk, setup, c, cursor, raw, destination, place);
  }

  lemma NamedVisit(setup: Setup, file: seq<byte>, c: Central, cursor: nat, total: nat)
    requires AcceptableCentral(c, Next(cursor, c), |file|) && NamedEntry(setup, file, cursor, c, total).Ok?
    ensures var v := NamedEntry(setup, file, cursor, c, total).value;
      v.next == Next(cursor, c) && v.declaredSize == c.uncompressed && total + v.declaredSize <= TOTAL_MAX
  {
  }

  /** A central header stands at the cursor. */
  predicate HeaderAt(file: seq<byte>, cursor: nat) {
    cursor + 46 <= |file| && Le32(file[cursor..cursor + 46], 0) == CENTRAL_SIGNATURE
  }

  /** The header at the cursor is read. */
  method ReadCentral(input: Input, cursor: nat) returns (result: int, c: Central)
    modifies input
    ensures Kept(input) && result <= 0
    ensures result == 0 ==> HeaderAt(input.bytes, cursor) && c == DecodeCentral(input.bytes[cursor..cursor + 46])
    ensures result < 0 && !input.failed ==> result == ERROR_ARCHIVE && !HeaderAt(input.bytes, cursor)
    ensures c.uncompressed < U32
  {
    var buffer := new byte[46];
    result := ReadAt(input, cursor, buffer, 46);
    var h := buffer[..];
    c := DecodeCentral(h);
    if result < 0 {
      return ERROR_ARCHIVE, c;
    }
    assert h == buffer[..46];
    if Le32(h, 0) != CENTRAL_SIGNATURE {
      return ERROR_ARCHIVE, c;
    }
  }

  /** The header at the cursor, and what follows. */
  method ExtractEntry(input: Input, disk: Disk, setup: Setup, cursor: nat, total: nat,
                      ghost place: (Tree, Op) -> Outcome)
    returns (result: int, next: nat, size: nat, ghost visit: Visit, ghost blocked: bool)
    requires total <= TOTAL_MAX && IsPlaceOp(place)
    modifies input, disk
    ensures Kept(input) && DiskKept(disk)
    ensures Round(Zip.Entry(setup, input.bytes, cursor, total), result, visit, blocked, place, old(disk.tree), input, disk)
    ensures result == 0 ==> next == visit.next && size == visit.declaredSize && total + size <= TOTAL_MAX
  {
    next, size, visit, blocked := cursor, 0, Visit(cursor, cursor, 0, 0, 0, MakeDirectory([])), false;
    GrownIsOneLess(disk.tree, disk.tree);
    var c;
    result, c := ReadCentral(input, cursor);
    if result < 0 {
      return;
    }
    next := Next(cursor, c);
    if c.flags % 2 != 0 || c.disk != 0 || c.nameSize == 0 || c.nameSize >= PATH_MAX / 2 || c.compressed == 0xFFFF_FFFF ||
       c.uncompressed == 0xFFFF_FFFF || c.localOffset == 0xFFFF_FFFF || (c.compression != 0 && c.compression != 8) ||
       next > |input.bytes| {
      return ERROR_ARCHIVE, next, size, visit, blocked;
    }
    size := c.uncompressed;
    result, visit, blocked := ExtractNamed(input, disk, setup, c, cursor, total, place);
    if result == 0 {
      NamedVisit(setup, input.bytes, c, cursor, total);
    }
  }

  // ---- the loop ----

  /** The rounds that the reader makes from a cursor on. */
  ghost predicate Yields(entry: (nat, nat) -> Result<Visit>, vs: seq<Visit>, cursor: nat, total: nat) {
    vs == [] ||
    (entry(cursor, total) == Ok(vs[0]) && Yields(entry, vs[1..], vs[0].next, total + vs[0].declaredSize))
  }

  function End(vs: seq<Visit>, cursor: nat): nat {
    if vs == [] then cursor else vs[|vs| - 1].next
  }

  lemma {:induction false} YieldsOneMore(entry: (nat, nat) -> Result<Visit>, vs: seq<Visit>, v: Visit, cursor: nat, total: nat)
    requires Yields(entry, vs, cursor, total)
    requires entry(End(vs, cursor), total + ZipSoundness.Declared(vs)) == Ok(v)
    ensures Yields(entry, vs + [v], cursor, total)
    ensures ZipSoundness.Declared(vs + [v]) == ZipSoundness.Declared(vs) + v.declaredSize
    decreases |vs|
  {
    var all := vs + [v];
    if vs == [] {
      assert all == [v] && [v][1..] == [];
    } else {
      assert all[1..] == vs[1..] + [v] && End(vs[1..], vs[0].next) == End(vs, cursor);
      YieldsOneMore(entry, vs[1..], v, vs[0].next, total + vs[0].declaredSize);
    }
  }

  /** The reader's whole walk, in terms of the rounds already made. */
  lemma {:induction false} WalkFrom(entry: (nat, nat) -> Result<Visit>, vs: seq<Visit>, cursor: nat, count: nat, total: nat)
    requires Yields(entry, vs, cursor, total) && |vs| <= count
    ensures var rest := Walk(entry, End(vs, cursor), count - |vs|, total + ZipSoundness.Declared(vs));
      Walk(entry, cursor, count, total) == if rest.Err? then rest else Ok(vs + rest.value)
    decreases |vs|
  {
    if vs != [] {
      assert End(vs[1..], vs[0].next) == End(vs, cursor);
      WalkFrom(entry, vs[1..], vs[0].next, count - 1, total + vs[0].declaredSize);
      assert forall ws: seq<Visit> :: [vs[0]] + (vs[1..] + ws) == vs + ws;
    } else {
      assert forall ws: seq<Visit> :: [] + ws == ws;
    }
  }

  /** Part of the way through the directory d: the rounds made, and what they have done. */
  ghost predicate Underway(entry: (nat, nat) -> Result<Visit>, done: seq<Visit>, d: Directory,
                           place: (Tree, Op) -> Outcome, before: Tree, disk: Disk)
    reads disk
  {
    && Yields(entry, done, d.offset, 0) && |done| <= d.count && ZipSoundness.Declared(done) <= TOTAL_MAX
    && PlaceVisits(place, before, done) == Done(disk.tree)
  }

  /** Where the loop stopped short: what the rounds made have done, less one file at most
      and with directories added. */
  ghost predicate StoppedAfter(entry: (nat, nat) -> Result<Visit>, done: seq<Visit>, d: Directory,
                           place: (Tree, Op) -> Outcome, before: Tree, disk: Disk)
    reads disk
  {
    && Yields(entry, done, d.offset, 0) && |done| < d.count
    && PlaceVisits(place, before, done).Done? && OneLess(PlaceVisits(place, before, done).tree, disk.tree)
  }

  /** The next operation cannot be placed where the rounds made have led. */
  ghost predicate Obstructed(entry: (nat, nat) -> Result<Visit>, done: seq<Visit>, d: Directory,
                           place: (Tree, Op) -> Outcome, before: Tree) {
    var r, o := entry(End(done, d.offset), ZipSoundness.Declared(done)), PlaceVisits(place, before, done);
    r.Ok? && o.Done? ==> place(o.tree, r.value.op).Failed?
  }

  lemma OneMore(entry: (nat, nat) -> Result<Visit>, done: seq<Visit>, v: Visit, start: nat,
                place: (Tree, Op) -> Outcome, before: Tree)
    requires Yields(entry, done, start, 0) && entry(End(done, start), ZipSoundness.Declared(done)) == Ok(v)
    requires PlaceVisits(place, before, done).Done?
    ensures Yields(entry, done + [v], start, 0) && End(done + [v], start) == v.next
    ensures ZipSoundness.Declared(done + [v]) == ZipSoundness.Declared(done) + v.declaredSize
    ensures PlaceVisits(place, before, done + [v]) == place(PlaceVisits(place, before, done).tree, v.op)
  {
    YieldsOneMore(entry, done, v, start, 0);
    assert (done + [v])[..|done|] == done;
  }

  /** The loop of extract_vpk over the directory d. */
  method ExtractEntries(input: Input, disk: Disk, setup: Setup, d: Directory, ghost entry: (nat, nat) -> Result<Visit>,
                        ghost place: (Tree, Op) -> Outcome)
    returns (result: int, ghost done: seq<Visit>, ghost blocked: bool)
    requires forall cursor: nat, total: nat :: entry(cursor, total) == Zip.Entry(setup, input.bytes, cursor, total)
    requires IsPlaceOp(place)
    modifies input, disk
    ensures Kept(input) && DiskKept(disk) && result <= 0
    ensures result == 0 ==> |done| == d.count && Underway(entry, done, d, place, old(disk.tree), disk)
    ensures result < 0 ==> StoppedAfter(entry, done, d, place, old(disk.tree), disk)
    ensures result < 0 && !input.failed && !disk.failed && !blocked ==>
      entry(End(done, d.offset), ZipSoundness.Declared(done)) == Err(result)
    ensures blocked ==> result < 0 && (disk.failed || Obstructed(entry, done, d, place, old(disk.tree)))
  {
    result, done, blocked := 0, [], false;
    var index, cursor, total := 0, d.offset, 0;
    while index < d.count
      invariant index == |done| <= d.count && cursor == End(done, d.offset) && total == ZipSoundness.Declared(done)
      invariant Kept(input) && DiskKept(disk) && result == 0 && !blocked
      invariant Underway(entry, done, d, place, old(disk.tree), disk)
    {
      var next, size;
      ghost var visit;
      result, next, size, visit, blocked := ExtractEntry(input, disk, setup, cursor, total, place);
      if result < 0 {
        return;
      }
      OneMore(entry, done, visit, d.offset, place, old(disk.tree));
      done := done + [visit];
      index, cursor, total := index + 1, next, total + size;
    }
  }

  lemma WalkDone(entry: (nat, nat) -> Result<Visit>, done: seq<Visit>, start: nat)
    requires Yields(entry, done, start, 0)
    ensures Walk(entry, start, |done|, 0) == Ok(done)
  {
    WalkFrom(entry, done, start, |done|, 0);
    assert done + [] == done;
  }

  lemma WalkStops(entry: (nat, nat) -> Result<Visit>, done: seq<Visit>, start: nat, count: nat, error: int)
    requires Yields(entry, done, start, 0) && |done| < count
    requires entry(End(done, start), ZipSoundness.Declared(done)) == Err(error)
    ensures Walk(entry, start, count, 0) == Err(error)
  {
    WalkFrom(entry, done, start, count, 0);
  }

  lemma {:induction false} FailedStays(place: (Tree, Op) -> Outcome, t: Tree, done: seq<Visit>, more: seq<Visit>)
    requires PlaceVisits(place, t, done).Failed?
    ensures PlaceVisits(place, t, done + more).Failed?
    decreases |more|
  {
    if more == [] {
      assert done + more == done;
    } else {
      FailedStays(place, t, done, more[..|more| - 1]);
      assert (done + more)[..|done + more| - 1] == done + more[..|more| - 1];
    }
  }

  lemma WalkFirst(entry: (nat, nat) -> Result<Visit>, cursor: nat, count: nat, total: nat)
    requires count > 0 && Walk(entry, cursor, count, total).Ok?
    ensures var r, vs := entry(cursor, total), Walk(entry, cursor, count, total).value;
      r.Ok? && vs != [] && vs[0] == r.value
  {
  }

  lemma FailedNext(place: (Tree, Op) -> Outcome, t: Tree, done: seq<Visit>, rest: seq<Visit>)
    requires PlaceVisits(place, t, done).Done? && rest != []
    requires place(PlaceVisits(place, t, done).tree, rest[0].op).Failed?
    ensures PlaceVisits(place, t, done + rest).Failed?
  {
    var more := done + [rest[0]];
    assert more[..|done|] == done && more[|done|] == rest[0];
    FailedStays(place, t, more, rest[1..]);
    assert done + rest == more + rest[1..];
  }

  lemma WalkObstructed(entry: (nat, nat) -> Result<Visit>, done: seq<Visit>, d: Directory,
                       place: (Tree, Op) -> Outcome, before: Tree)
    requires Yields(entry, done, d.offset, 0) && |done| < d.count
    requires PlaceVisits(place, before, done).Done? && Obstructed(entry, done, d, place, before)
    ensures var r := Walk(entry, d.offset, d.count, 0); r.Ok? ==> PlaceVisits(place, before, r.value).Failed?
  {
    var end, total, count: nat := End(done, d.offset), ZipSoundness.Declared(done), d.count - |done|;
    WalkFrom(entry, done, d.offset, d.count, 0);
    assert 0 + total == total;
    if Walk(entry, end, count, total).Ok? {
      WalkFirst(entry, end, count, total);
      FailedNext(place, before, done, Walk(entry, end, count, total).value);
    }
  }

  /** extract_vpk on an opened file, against the reader: a success is the reader's, and the
      tree is then what its operations make of it.  When no call failed, every error is the
      reader's too, unless something in the tree is in an entry's way. */
  method ExtractVpk(input: Input, disk: Disk, setup: Setup)
    returns (result: int, ghost done: seq<Visit>, ghost blocked: bool)
    modifies input, disk
    ensures Kept(input) && DiskKept(disk) && result <= 0
    ensures result == 0 ==> Read(setup, input.bytes) == Ok(done) && PlaceVisits(PlaceOp, old(disk.tree), done) == Done(disk.tree)
    ensures result < 0 ==>
      PlaceVisits(PlaceOp, old(disk.tree), done).Done? && OneLess(PlaceVisits(PlaceOp, old(disk.tree), done).tree, disk.tree)
    ensures done != [] ==>
      && |input.bytes| >= 22 && FindDirectory(input.bytes).Ok?
      && Yields(EntryOf(setup, input.bytes), done, FindDirectory(input.bytes).value.offset, 0)
    ensures result < 0 && !input.failed && !disk.failed && !blocked ==> Read(setup, input.bytes) == Err(result)
    ensures blocked && !disk.failed ==>
      result < 0 && (Read(setup, input.bytes).Ok? ==> PlaceVisits(PlaceOp, old(disk.tree), Read(setup, input.bytes).value).Failed?)
  {
    done, blocked := [], false;
    GrownIsOneLess(disk.tree, disk.tree);
    if |input.bytes| < 22 {
      return ERROR_ARCHIVE, done, blocked;
    }
    var found, offset, count := FindCentral(input);
    if found < 0 {
      return found, done, blocked;
    }
    var d := Directory(offset, count);
    ghost var entry := EntryOf(setup, input.bytes);
    result, done, blocked := ExtractEntries(input, disk, setup, d, entry, PlaceOp);
    if result == 0 {
      WalkDone(entry, done, offset);
    } else if blocked && !disk.failed {
      WalkObstructed(entry, done, d, PlaceOp, old(disk.tree));
    } else if !input.failed && !disk.failed {
      WalkStops(entry, done, offset, count, result);
    }
  }
}
