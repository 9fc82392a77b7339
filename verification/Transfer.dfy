/** The bounded download loop (ftpvita_retr.h) and the upload loop (ftpvita_store.h).
    The callbacks are oracles: a script says what each call returns, any integer at all.
    A return value within the documented contract moves that many bytes.  What a callback
    answered last is kept in a ghost field. */
module Transfer {
  import opened Options
  import opened Bytes

  const INT_MAX := 0x7fff_ffff
  const U64 := 0x1_0000_0000_0000_0000

  datatype Stage = Complete | Range | EarlyEof | ReadFailed | SendFailed | ReceiveFailed | WriteFailed

  datatype RetrResult = RetrResult(stage: Stage, code: int, netErrno: int, bytesRead: nat, bytesSent: nat)

  datatype StoreResult = StoreResult(stage: Stage, code: int, netErrno: int, bytesReceived: nat, bytesWritten: nat)

  /** Up to n of the bytes asked for, or a return value whatever was asked for, with an errno. */
  datatype Answer = UpTo(n: nat) | Raw(code: int, netErrno: int)

  /** Every call makes progress inside its contract, in pieces of any size. */
  predicate Flows(script: seq<Answer>) {
    forall i | 0 <= i < |script| :: script[i].UpTo? && script[i].n > 0
  }

  /** What the next call returns when `length` bytes are asked for and `limit` are there;
      after the script all that is there. */
  function Returned(script: seq<Answer>, length: nat, limit: nat): int {
    if script == [] then if length <= limit then length else limit
    else
      match script[0]
      case UpTo(n) => var m := if n <= length then n else length; if m <= limit then m else limit
      case Raw(code, _) => if 0 < code <= length && code > limit then limit else code
  }

  function Errno(script: seq<Answer>): int {
    if script != [] && script[0].Raw? then script[0].netErrno else 0
  }

  function Rest(script: seq<Answer>): seq<Answer> {
    if script == [] then [] else script[1..]
  }

  lemma FlowsOn(script: seq<Answer>, length: nat, limit: nat)
    requires Flows(script)
    ensures Flows(Rest(script)) && 0 <= Returned(script, length, limit) <= length
    ensures Returned(script, length, limit) == 0 <==> length == 0 || limit == 0
  {
  }

  /** An opened file and the data socket of a download.  `sent` is what the socket took. */
  class RetrIo {
    const file: seq<byte>
    var position: nat
    var readResults: seq<Answer>
    var sendResults: seq<Answer>
    var sent: seq<byte>
    ghost var lastRead: Option<int>
    ghost var lastSend: Option<(int, int)>

    constructor (file: seq<byte>, position: nat, readResults: seq<Answer>, sendResults: seq<Answer>)
      ensures this.file == file && this.position == position && sent == []
      ensures this.readResults == readResults && this.sendResults == sendResults && lastRead == None && lastSend == None
    {
      this.file, this.position, this.readResults, this.sendResults, sent := file, position, readResults, sendResults, [];
      lastRead, lastSend := None, None;
    }

    /** Reads and sends still to come stay inside their contracts. */
    predicate Calm()
      reads this
    {
      Flows(readResults) && Flows(sendResults)
    }

    /** sceIoRead: never more than what is left of the file; 0 at its end. */
    method Read(buffer: array<byte>, length: nat) returns (n: int)
      requires length <= buffer.Length
      modifies this`position, this`readResults, this`lastRead, buffer
      ensures lastRead == Some(n)
      ensures 0 < n <= length ==>
        position == old(position) + n <= |file| && buffer[..n] == file[old(position)..position]
      ensures !(0 < n <= length) ==> position == old(position)
      ensures Flows(old(readResults)) ==>
        Flows(readResults) && 0 <= n <= length && (n == 0 ==> length == 0 || position >= |file|)
    {
      var limit := if position < |file| then |file| - position else 0;
      n := Returned(readResults, length, limit);
      if Flows(readResults) {
        FlowsOn(readResults, length, limit);
      }
      readResults := Rest(readResults);
      lastRead := Some(n);
      if 0 < n <= length {
        forall i | 0 <= i < n {
          buffer[i] := file[position + i];
        }
        position := position + n;
      }
    }

    /** sceNetSend: a prefix of the pending bytes, or a failure with an errno. */
    method Send(buffer: array<byte>, from: nat, pending: nat) returns (n: int, netError: int)
      requires from + pending <= buffer.Length
      modifies this`sendResults, this`sent, this`lastSend
      ensures lastSend == Some((n, netError))
      ensures sent == if 0 < n <= pending then old(sent) + buffer[from..from + n] else old(sent)
      ensures Flows(old(sendResults)) ==> Flows(sendResults) && (pending > 0 ==> 0 < n <= pending)
    {
      n, netError := Returned(sendResults, pending, pending), Errno(sendResults);
      if Flows(sendResults) {
        FlowsOn(sendResults, pending, pending);
      }
      sendResults := Rest(sendResults);
      lastSend := Some((n, netError));
      if 0 < n <= pending {
        sent := sent + buffer[from..from + n];
      }
    }
  }

  predicate ValidArguments(io: object?, buffer: array?<byte>, bufferSize: nat) {
    io != null && buffer != null && 0 < bufferSize <= INT_MAX
  }

  function Piece(file: seq<byte>, from: nat, length: nat): seq<byte> {
    if from + length <= |file| then file[from..from + length] else []
  }

  function Least(a: nat, b: nat): nat {
    if a < b then a else b
  }

  /** A send that stopped a download answered outside 1..pending; only an error has an errno. */
  ghost predicate SendStopped(io: RetrIo, code: int, netErrno: int, pending: nat)
    reads io
  {
    && io.lastSend.Some? && io.lastSend.value.0 == code && !(0 < code <= pending)
    && netErrno == if code < 0 then io.lastSend.value.1 else 0
  }

  /** A read that stopped a download answered 0, or outside 0..requested. */
  ghost predicate ReadStopped(io: RetrIo, stage: Stage, code: int, netErrno: int, requested: nat)
    reads io
  {
    && io.lastRead == Some(code) && netErrno == 0
    && (if stage == EarlyEof then code == 0 else !(0 <= code <= requested))
  }

  /** What a download that did not fail on its arguments reports. */
  ghost predicate RetrReport(io: RetrIo, result: RetrResult, bufferSize: nat, start: nat, extent: nat)
    reads io
  {
    && result.bytesSent <= result.bytesRead <= extent - start
    && match result.stage
       case Complete => result.bytesSent == extent - start && result.code == 0 && result.netErrno == 0
       case EarlyEof =>
         && result.bytesSent == result.bytesRead < extent - start
         && ReadStopped(io, EarlyEof, result.code, result.netErrno, Least(extent - start - result.bytesRead, bufferSize))
       case ReadFailed =>
         && result.bytesSent == result.bytesRead < extent - start
         && ReadStopped(io, ReadFailed, result.code, result.netErrno, Least(extent - start - result.bytesRead, bufferSize))
       case SendFailed =>
         && result.bytesSent < result.bytesRead
         && SendStopped(io, result.code, result.netErrno, result.bytesRead - result.bytesSent)
       case _ => false
  }

  /** ftpvita_retr_extent.  A missing callback is a null `io`.  When every call makes progress
      inside its contract the download is complete iff the file is long enough, and otherwise
      ends early at the end of the file. */
  method RetrExtent(io: RetrIo?, buffer: array?<byte>, bufferSize: nat, start: nat, extent: nat)
    returns (result: RetrResult)
    requires extent < U64
    requires io != null ==> io.position == start && io.lastRead == None && io.lastSend == None
    requires buffer != null ==> bufferSize <= buffer.Length
    modifies io, buffer
    ensures result.stage == Range <==> !(ValidArguments(io, buffer, bufferSize) && start <= extent)
    ensures result.stage == Range ==> result.bytesSent == 0 && (io != null ==> io.sent == old(io.sent))
    ensures result.stage != Range ==>
      && RetrReport(io, result, bufferSize, start, extent)
      && io.position == start + result.bytesRead
      && (result.bytesRead > 0 ==> io.position <= |io.file|)
      && io.sent == old(io.sent) + Piece(io.file, start, result.bytesSent)
    ensures result.stage != Range && old(io.Calm()) ==>
      && result.stage == (if extent <= |io.file| || start == extent then Complete else EarlyEof)
      && (result.stage == EarlyEof ==> result.bytesRead == if start <= |io.file| then |io.file| - start else 0)
  {
    result := RetrResult(Complete, 0, 0, 0, 0);
    if io == null || buffer == null || bufferSize == 0 || bufferSize > INT_MAX || start > extent {
      return result.(stage := Range);
    }
    var remaining := extent - start;
    ghost var done := 0;
    while remaining > 0
      invariant 0 <= remaining && done + remaining == extent - start
      invariant result == RetrResult(Complete, 0, 0, done, done)
      invariant Delivered(io, start, done, done, old(io.sent)) && (old(io.Calm()) ==> io.Calm())
    {
      var requested := if remaining < bufferSize then remaining else bufferSize;
      var stage, code, netErrno, read, sent := MoveChunk(io, buffer, requested, start, done, old(io.sent));
      result := result.(bytesRead := result.bytesRead + read, bytesSent := result.bytesSent + sent);
      if stage != Complete {
        return result.(stage := stage, code := code, netErrno := netErrno);
      }
      remaining := remaining - read;
      done := done + read;
    }
  }

  /** The file has been read up to start + read, and its bytes up to start + sent have gone
      out after what went out before. */
  ghost predicate Delivered(io: RetrIo, start: nat, read: nat, sent: nat, before: seq<byte>)
    reads io
  {
    && io.position == start + read && (read > 0 ==> io.position <= |io.file|)
    && io.sent == before + Piece(io.file, start, sent)
  }

  /** One chunk: read some of it, and send what was read. */
  method MoveChunk(io: RetrIo, buffer: array<byte>, requested: nat, ghost start: nat, ghost done: nat, ghost before: seq<byte>)
    returns (stage: Stage, code: int, netErrno: int, read: nat, sent: nat)
    requires 0 < requested <= buffer.Length && Delivered(io, start, done, done, before)
    modifies io, buffer
    ensures sent <= read <= requested && Delivered(io, start, done + read, done + sent, before)
    ensures match stage
            case Complete => sent == read > 0 && code == 0 && netErrno == 0
            case EarlyEof => read == 0 && ReadStopped(io, stage, code, netErrno, requested)
            case ReadFailed => read == 0 && ReadStopped(io, stage, code, netErrno, requested)
            case SendFailed => sent < read && SendStopped(io, code, netErrno, read - sent)
            case _ => false
    ensures old(io.Calm()) ==> io.Calm() && (stage == Complete || (stage == EarlyEof && io.position >= |io.file|))
  {
    var bytesRead := io.Read(buffer, requested);
    if bytesRead <= 0 || bytesRead > requested {
      return if bytesRead == 0 then EarlyEof else ReadFailed, bytesRead, 0, 0, 0;
    }
    read := bytesRead;
    ghost var chunk := io.file[start + done..start + done + read];
    sent, code, netErrno := SendChunk(io, buffer, read, chunk);
    SentPiece(io.file, start, done, chunk, sent, before);
    stage := if sent < read then SendFailed else Complete;
  }

  lemma SliceOfPrefix(s: seq<byte>, n: nat, from: nat, to: nat)
    requires from <= to <= n <= |s|
    ensures s[..n][from..to] == s[from..to]
  {
  }

  /** The inner loop: the first `length` bytes of the buffer, until all are sent or a send fails. */
  method SendChunk(io: RetrIo, buffer: array<byte>, length: nat, ghost chunk: seq<byte>)
    returns (position: nat, code: int, netErrno: int)
    requires length <= buffer.Length && buffer[..length] == chunk
    modifies io`sendResults, io`sent, io`lastSend
    ensures position <= length && io.sent == old(io.sent) + chunk[..position]
    ensures if position == length then code == 0 && netErrno == 0 else SendStopped(io, code, netErrno, length - position)
    ensures Flows(old(io.sendResults)) ==> Flows(io.sendResults) && position == length
  {
    position, code, netErrno := 0, 0, 0;
    while position < length
      invariant position <= length && io.sent == old(io.sent) + chunk[..position]
      invariant Flows(old(io.sendResults)) ==> Flows(io.sendResults)
    {
      var pending := length - position;
      var sent, netError := io.Send(buffer, position, pending);
      if sent <= 0 || sent > pending {
        return position, sent, if sent < 0 then netError else 0;
      }
      SliceOfPrefix(buffer[..], length, position, position + sent);
      assert buffer[position..position + sent] == buffer[..][position..position + sent] && chunk == buffer[..][..length];
      assert chunk[..position] + chunk[position..position + sent] == chunk[..position + sent];
      position := position + sent;
    }
  }

  /** The first bytes of a chunk read at start + done extend what has been sent. */
  lemma SentPiece(file: seq<byte>, start: nat, done: nat, chunk: seq<byte>, sent: nat, before: seq<byte>)
    requires start + done + |chunk| <= |file| && chunk == file[start + done..start + done + |chunk|] && sent <= |chunk|
    ensures before + Piece(file, start, done) + chunk[..sent] == before + Piece(file, start, done + sent)
  {
    assert chunk[..sent] == Piece(file, start + done, sent);
    PiecesMeet(file, start, done, sent);
    assert before + Piece(file, start, done) + chunk[..sent] == before + (Piece(file, start, done) + chunk[..sent]);
  }

  lemma PiecesMeet(file: seq<byte>, start: nat, done: nat, more: nat)
    requires done + more > 0 ==> start + done + more <= |file|
    ensures Piece(file, start, done) + Piece(file, start + done, more) == Piece(file, start, done + more)
  {
  }

  /** The data peer and the destination file of an upload.  The peer sends `incoming`;
      it may close before the end of it, and the bytes after that are never seen.
      `received` is what the socket delivered, `file` what the file holds. */
  class StoreIo {
    var incoming: seq<byte>
    var recvResults: seq<Answer>
    var writeResults: seq<Answer>
    var file: seq<byte>
    ghost const base: seq<byte>
    ghost var received: seq<byte>
    ghost var lastReceive: Option<(int, int)>
    ghost var lastWrite: Option<int>

    constructor (incoming: seq<byte>, file: seq<byte>, recvResults: seq<Answer>, writeResults: seq<Answer>)
      ensures this.incoming == incoming && this.file == file && base == file && received == []
      ensures this.recvResults == recvResults && this.writeResults == writeResults && lastReceive == None && lastWrite == None
    {
      this.incoming, this.file, this.recvResults, this.writeResults := incoming, file, recvResults, writeResults;
      base, received, lastReceive, lastWrite := file, [], None, None;
    }

    /** Receives and writes still to come stay inside their contracts. */
    predicate Calm()
      reads this
    {
      Flows(recvResults) && Flows(writeResults)
    }

    /** sceNetRecv: its precondition is that everything received has been written. */
    method Receive(buffer: array<byte>, length: nat) returns (n: int, netError: int)
      requires length <= buffer.Length
      requires file == base + received
      modifies this`incoming, this`recvResults, this`received, this`lastReceive, buffer
      ensures lastReceive == Some((n, netError))
      ensures 0 < n <= length ==>
        n <= |old(incoming)| && buffer[..n] == old(incoming)[..n] &&
        incoming == old(incoming)[n..] && received == old(received) + old(incoming)[..n]
      ensures !(0 < n <= length) ==> incoming == old(incoming) && received == old(received)
      ensures Flows(old(recvResults)) ==> Flows(recvResults) && 0 <= n <= length && (n == 0 ==> length == 0 || incoming == [])
    {
      n, netError := Returned(recvResults, length, |incoming|), Errno(recvResults);
      if Flows(recvResults) {
        FlowsOn(recvResults, length, |incoming|);
      }
      recvResults := Rest(recvResults);
      lastReceive := Some((n, netError));
      if 0 < n <= length {
        forall i | 0 <= i < n {
          buffer[i] := incoming[i];
        }
        received := received + incoming[..n];
        incoming := incoming[n..];
      }
    }

    /** sceIoWrite: a prefix of the pending bytes goes to the end of the file, or it fails. */
    method Write(buffer: array<byte>, from: nat, pending: nat) returns (n: int)
      requires from + pending <= buffer.Length
      modifies this`writeResults, this`file, this`lastWrite
      ensures lastWrite == Some(n)
      ensures file == if 0 < n <= pending then old(file) + buffer[from..from + n] else old(file)
      ensures Flows(old(writeResults)) ==> Flows(writeResults) && (pending > 0 ==> 0 < n <= pending)
    {
      n := Returned(writeResults, pending, pending);
      if Flows(writeResults) {
        FlowsOn(writeResults, pending, pending);
      }
      writeResults := Rest(writeResults);
      lastWrite := Some(n);
      if 0 < n <= pending {
        file := file + buffer[from..from + n];
      }
    }
  }

  /** A receive that stopped an upload answered outside 0..bufferSize; only an error has an errno. */
  ghost predicate ReceiveStopped(io: StoreIo, code: int, netErrno: int, bufferSize: nat)
    reads io
  {
    && io.lastReceive.Some? && io.lastReceive.value.0 == code && !(0 <= code <= bufferSize)
    && netErrno == if code < 0 then io.lastReceive.value.1 else 0
  }

  /** A write that stopped an upload answered outside 1..pending. */
  ghost predicate WriteStopped(io: StoreIo, code: int, pending: nat)
    reads io
  {
    io.lastWrite == Some(code) && !(0 < code <= pending)
  }

  /** What an upload that did not fail on its arguments reports. */
  ghost predicate StoreReport(io: StoreIo, result: StoreResult, bufferSize: nat)
    reads io
  {
    && result.bytesWritten <= result.bytesReceived
    && match result.stage
       case Complete =>
         && result.bytesWritten == result.bytesReceived && result.code == 0 && result.netErrno == 0
         && io.lastReceive.Some? && io.lastReceive.value.0 == 0
       case ReceiveFailed =>
         && result.bytesWritten == result.bytesReceived
         && ReceiveStopped(io, result.code, result.netErrno, bufferSize)
       case WriteFailed =>
         && result.bytesWritten < result.bytesReceived && result.netErrno == 0
         && WriteStopped(io, result.code, result.bytesReceived - result.bytesWritten)
       case _ => false
  }

  /** ftpvita_store_stream.  When every call makes progress inside its contract the whole
      stream arrives in the file. */
  method StoreStream(io: StoreIo?, buffer: array?<byte>, bufferSize: nat) returns (result: StoreResult)
    requires io != null ==> |io.incoming| < U64 && io.file == io.base && io.received == []
    requires io != null ==> io.lastReceive == None && io.lastWrite == None
    requires buffer != null ==> bufferSize <= buffer.Length
    modifies io, buffer
    ensures result.stage == Range <==> !ValidArguments(io, buffer, bufferSize)
    ensures result.stage == Range ==> io != null ==> io.file == old(io.file) && io.incoming == old(io.incoming)
    ensures result.stage != Range ==>
      && StoreReport(io, result, bufferSize)
      && result.bytesReceived <= |old(io.incoming)|
      && io.received == old(io.incoming)[..result.bytesReceived]
      && io.incoming == old(io.incoming)[result.bytesReceived..]
      && io.file == old(io.file) + io.received[..result.bytesWritten]
    ensures result.stage != Range && old(io.Calm()) ==>
      result.stage == Complete && result.bytesReceived == |old(io.incoming)|
  {
    result := StoreResult(Complete, 0, 0, 0, 0);
    if io == null || buffer == null || bufferSize == 0 || bufferSize > INT_MAX {
      return result.(stage := Range);
    }
    while true
      invariant result.bytesReceived <= |old(io.incoming)|
      invariant result == StoreResult(Complete, 0, 0, result.bytesReceived, result.bytesReceived)
      invariant io.received == old(io.incoming)[..result.bytesReceived]
      invariant io.incoming == old(io.incoming)[result.bytesReceived..]
      invariant io.file == old(io.file) + io.received && (old(io.Calm()) ==> io.Calm())
      decreases |io.incoming|
    {
      var received, netError := io.Receive(buffer, bufferSize);
      if received == 0 {
        return;
      }
      if received < 0 || received > bufferSize {
        return result.(stage := ReceiveFailed, code := received, netErrno := if received < 0 then netError else 0);
      }
      ghost var done := result.bytesReceived;
      result := result.(bytesReceived := result.bytesReceived + received);
      var written, code := WriteChunk(io, buffer, received);
      result := result.(bytesWritten := result.bytesWritten + written);
      assert io.received[..done + written] == io.received[..done] + buffer[..written];
      if written < received {
        return result.(stage := WriteFailed, code := code);
      }
    }
  }

  /** The inner loop: the first `length` bytes of the buffer, until all are written or a write fails. */
  method WriteChunk(io: StoreIo, buffer: array<byte>, length: nat) returns (position: nat, code: int)
    requires length <= buffer.Length
    modifies io`writeResults, io`file, io`lastWrite
    ensures position <= length && io.file == old(io.file) + buffer[..position]
    ensures if position == length then code == 0 else WriteStopped(io, code, length - position)
    ensures Flows(old(io.writeResults)) ==> Flows(io.writeResults) && position == length
  {
    position, code := 0, 0;
    while position < length
      invariant position <= length && io.file == old(io.file) + buffer[..position]
      invariant Flows(old(io.writeResults)) ==> Flows(io.writeResults)
    {
      var pending := length - position;
      var written := io.Write(buffer, position, pending);
      if written <= 0 || written > pending {
        return position, written;
      }
      assert buffer[..position] + buffer[position..position + written] == buffer[..position + written];
      position := position + written;
    }
  }

  /** An upload followed by a download from any restart offset returns the bytes that were
      uploaded, however either side was fragmented: whenever every call makes progress inside
      its contract, and otherwise whenever both report that they are complete. */
  method UploadThenDownload(data: seq<byte>, recvResults: seq<Answer>, writeResults: seq<Answer>,
                            readResults: seq<Answer>, sendResults: seq<Answer>, uploadSize: nat, downloadSize: nat, start: nat)
    returns (up: StoreResult, down: RetrResult, got: seq<byte>)
    requires |data| < U64 && 0 < uploadSize <= INT_MAX && 0 < downloadSize <= INT_MAX && start <= |data|
    ensures Flows(recvResults) && Flows(writeResults) && Flows(readResults) && Flows(sendResults) ==>
      up.stage == Complete && down.stage == Complete && got == data[start..]
    ensures up.stage == Complete && up.bytesReceived == |data| && down.stage == Complete ==> got == data[start..]
  {
    var store := new StoreIo(data, [], recvResults, writeResults);
    var buffer := new byte[uploadSize];
    up := StoreStream(store, buffer, uploadSize);
    var retr := new RetrIo(store.file, start, readResults, sendResults);
    var extent := |store.file|;
    var buffer2 := new byte[downloadSize];
    assert extent <= |data|;
    down := RetrExtent(retr, buffer2, downloadSize, start, extent);
    got := retr.sent;
  }
}
