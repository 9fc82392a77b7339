/** The command port: receiving a request in pieces (cmd.c), cutting it into words in place
    (parser.c), and deciding what to run. */
module Command {
  import opened Options
  import opened Bytes
  import opened CStrings
  import opened Tokens

  const ARG_MAX := 20
  const REQUEST_BYTES := 256

  // ---- parse_cmd ----

  /** The k-th argument starts before `upto` with the k-th word, and a NUL follows it
      unless it reaches the end of the region. */
  ghost predicate ArgumentAt(cmd: seq<byte>, size: nat, upto: nat, start: nat, word: seq<byte>)
    requires upto <= size <= |cmd|
  {
    && IsWord(word) && start + |word| <= upto && cmd[start..start + |word|] == word
    && (start + |word| < size ==> start + |word| < upto && cmd[start + |word|] == 0)
  }

  ghost predicate Arguments(cmd: seq<byte>, size: nat, upto: nat, starts: seq<nat>, words: seq<seq<byte>>)
    requires upto <= size <= |cmd|
  {
    |starts| == |words| && forall k | 0 <= k < |starts| :: ArgumentAt(cmd, size, upto, starts[k], words[k])
  }

  lemma ArgumentsStay(cmd: seq<byte>, after: seq<byte>, size: nat, upto: nat, further: nat, starts: seq<nat>, words: seq<seq<byte>>)
    requires upto <= further <= size <= |cmd| == |after| && after[..upto] == cmd[..upto]
    requires Arguments(cmd, size, upto, starts, words)
    ensures Arguments(after, size, further, starts, words)
  {
    forall k | 0 <= k < |starts|
      ensures ArgumentAt(after, size, further, starts[k], words[k])
    {
      var i, j := starts[k], starts[k] + |words[k]|;
      assert ArgumentAt(cmd, size, upto, i, words[k]);
      assert after[i..j] == after[..upto][i..j] && cmd[i..j] == cmd[..upto][i..j];
      if j < size {
        assert after[..upto][j] == cmd[..upto][j];
      }
    }
  }

  /** The inner loop over separators, which become NULs. */
  method SkipBlanks(cmd: array<byte>, size: nat, from: nat) returns (cursor: nat)
    requires from <= size <= cmd.Length
    modifies cmd
    ensures from <= cursor <= size && cmd[..from] == old(cmd[..from]) && cmd[size..] == old(cmd[size..])
    ensures cursor < size ==> !IsSeparator(cmd[cursor])
    ensures Parse(old(cmd[from..size])) == Parse(cmd[cursor..size])
  {
    cursor := from;
    while cursor < size && (cmd[cursor] == 32 || cmd[cursor] == 9 || cmd[cursor] == 13)
      invariant from <= cursor <= size && cmd[..from] == old(cmd[..from]) && cmd[cursor..] == old(cmd[cursor..])
      invariant Parse(old(cmd[from..size])) == Parse(cmd[cursor..size])
    {
      ghost var rest := cmd[cursor..size];
      ParseSeparator(rest);
      assert rest[1..] == cmd[cursor + 1..size];
      cmd[cursor] := 0;
      cursor := cursor + 1;
      assert cmd[cursor..size] == rest[1..];
    }
  }

  /** The inner loop over the characters of a word. */
  method SkipWord(cmd: array<byte>, size: nat, from: nat) returns (cursor: nat)
    requires from < size <= cmd.Length && IsWordChar(cmd[from])
    ensures from < cursor <= size && IsWord(cmd[from..cursor]) && (cursor < size ==> !IsWordChar(cmd[cursor]))
  {
    cursor := from;
    while cursor < size && cmd[cursor] != 0 && cmd[cursor] != 32 && cmd[cursor] != 9 && cmd[cursor] != 13 && cmd[cursor] != 10
      invariant from <= cursor <= size && forall k | from <= k < cursor :: IsWordChar(cmd[k])
    {
      cursor := cursor + 1;
    }
  }

  /** One word: what ended it becomes a NUL. */
  method TakeArgument(cmd: array<byte>, size: nat, from: nat)
    returns (cursor: nat, terminal: bool, ghost word: seq<byte>, ghost rest: seq<seq<byte>>)
    requires from < size <= cmd.Length && IsWordChar(cmd[from])
    modifies cmd
    ensures from < cursor <= size && cmd[..from] == old(cmd[..from]) && cmd[size..] == old(cmd[size..])
    ensures ArgumentAt(cmd[..], size, cursor, from, word)
    ensures old(Parse(cmd[from..size])) == [word] + rest
    ensures rest == if terminal then [] else Parse(cmd[cursor..size])
  {
    ghost var b := cmd[from..size];
    cursor := SkipWord(cmd, size, from);
    ghost var n := cursor - from;
    word := cmd[from..cursor];
    assert b[..n] == word;
    ParseWord(b, n);
    terminal := false;
    if cursor < size {
      terminal := cmd[cursor] == 0 || cmd[cursor] == 10;
      assert b[n + 1..] == cmd[cursor + 1..size];
      cmd[cursor] := 0;
      cursor := cursor + 1;
      assert cmd[cursor..size] == b[n + 1..];
    }
    rest := if terminal then [] else Parse(cmd[cursor..size]);
    assert cmd[from..from + n] == word;
  }

  /** The words found, and those that the rest of the region still spells. */
  ghost predicate Progress(cmd: seq<byte>, size: nat, cursor: nat, starts: seq<nat>, words: seq<seq<byte>>,
                           rest: seq<seq<byte>>, all: seq<seq<byte>>) {
    cursor <= size <= |cmd| && Arguments(cmd, size, cursor, starts, words) && all == words + rest
  }

  lemma AfterBlanks(before: seq<byte>, after: seq<byte>, size: nat, cursor: nat, start: nat, starts: seq<nat>,
                    words: seq<seq<byte>>, rest: seq<seq<byte>>, all: seq<seq<byte>>)
    requires Progress(before, size, cursor, starts, words, rest, all)
    requires cursor <= start <= size && |after| == |before| && after[..cursor] == before[..cursor]
    ensures Progress(after, size, start, starts, words, rest, all)
  {
    ArgumentsStay(before, after, size, cursor, start, starts, words);
  }

  lemma AfterArgument(before: seq<byte>, after: seq<byte>, size: nat, start: nat, cursor: nat, starts: seq<nat>,
                      words: seq<seq<byte>>, word: seq<byte>, rest: seq<seq<byte>>, all: seq<seq<byte>>)
    requires Progress(before, size, start, starts, words, [word] + rest, all)
    requires start <= cursor <= size && |after| == |before| && after[..start] == before[..start]
    requires ArgumentAt(after, size, cursor, start, word)
    ensures Progress(after, size, cursor, starts + [start], words + [word], rest, all)
  {
    ArgumentsStay(before, after, size, start, cursor, starts, words);
    assert words + ([word] + rest) == words + [word] + rest;
  }

  lemma AllFound(cmd: seq<byte>, size: nat, cursor: nat, starts: seq<nat>, words: seq<seq<byte>>, all: seq<seq<byte>>)
    requires Progress(cmd, size, cursor, starts, words, [], all)
    ensures all == words && Arguments(cmd, size, size, starts, all)
  {
    ArgumentsStay(cmd, cmd, size, cursor, size, starts, words);
  }

  const TOO_MANY := -1

  /** parse_cmd: fails exactly when there are too many words, and otherwise leaves each
      word in place as a string of its own. */
  method ParseCmd(cmd: array<byte>, size: nat, argList: array<nat>, argMax: nat) returns (count: int)
    requires size <= cmd.Length && argMax <= argList.Length
    modifies cmd, argList
    ensures cmd[size..] == old(cmd[size..])
    ensures argMax == 0 ==> count == 0
    ensures argMax > 0 ==>
      var words := old(Parse(cmd[..size]));
      if |words| > argMax then count == TOO_MANY
      else count == |words| && Arguments(cmd[..], size, size, argList[..count], words)
  {
    count := 0;
    if argMax == 0 {
      return;
    }
    var cursor := 0;
    ghost var words: seq<seq<byte>> := [];
    ghost var all := Parse(cmd[..size]);
    assert cmd[0..size] == cmd[..size];
    while cursor < size
      invariant 0 <= count <= argMax && cursor <= size && cmd[size..] == old(cmd[size..])
      invariant Progress(cmd[..], size, cursor, argList[..count], words, Parse(cmd[cursor..size]), all)
    {
      ghost var before, rest := cmd[..], Parse(cmd[cursor..size]);
      var start := SkipBlanks(cmd, size, cursor);
      AfterBlanks(before, cmd[..], size, cursor, start, argList[..count], words, rest, all);
      if start >= size || cmd[start] == 0 || cmd[start] == 10 {
        ParseEnd(cmd[start..size]);
        AllFound(cmd[..], size, start, argList[..count], words, all);
        return;
      }
      if count == argMax {
        TooMany(cmd[start..size]);
        return TOO_MANY;
      }
      before := cmd[..];
      ghost var word;
      var terminal;
      cursor, terminal, word, rest := TakeArgument(cmd, size, start);
      AfterArgument(before, cmd[..], size, start, cursor, argList[..count], words, word, rest, all);
      argList[count] := start;
      count := count + 1;
      words := words + [word];
      if terminal {
        AllFound(cmd[..], size, cursor, argList[..count], words, all);
        return;
      }
    }
    ParseEnd(cmd[cursor..size]);
    AllFound(cmd[..], size, cursor, argList[..count], words, all);
  }

  lemma TooMany(b: seq<byte>)
    requires b != [] && IsWordChar(b[0])
    ensures Parse(b) != []
  {
  }

  // ---- receive_command ----

  /** Every call delivers something until the stream is at its end, in pieces of any size. */
  predicate Flows(script: seq<int>) {
    forall i | 0 <= i < |script| :: script[i] > 0
  }

  /** A connection that delivers `incoming`, in pieces that the script decides; a negative
      number is an error, and zero is the end of the stream. */
  class Connection {
    const incoming: seq<byte>
    /** The last error answered, or 0. */
    ghost var error: int
    var position: nat
    var script: seq<int>
    /** A call has found the stream at its end. */
    var ended: bool

    constructor (incoming: seq<byte>, script: seq<int>)
      ensures this.incoming == incoming && this.script == script && position == 0 && !ended && error == 0
    {
      this.incoming, this.script, position, ended, error := incoming, script, 0, false, 0;
    }

    /** sceNetRecv */
    method Recv(buffer: array<byte>, from: nat, length: nat) returns (n: int)
      requires from + length <= buffer.Length && length > 0 && position <= |incoming|
      modifies this, buffer
      ensures position <= |incoming|
      ensures n <= 0 ==> position == old(position) && buffer[..from] == old(buffer[..from])
      ensures ended == (old(ended) || n == 0) && error == (if n < 0 then n else old(error))
      ensures Flows(old(script)) ==> Flows(script) && (n <= 0 ==> n == 0 && position == |incoming|)
      ensures n > 0 ==>
        && n <= length && position == old(position) + n
        && buffer[..from + n] == old(buffer[..from]) + incoming[old(position)..position]
    {
      n := length;
      if script != [] {
        n, script := script[0], script[1..];
      }
      if n > length {
        n := length;
      }
      if n > |incoming| - position {
        n := |incoming| - position;
      }
      if n > 0 {
        ghost var before := buffer[..from];
        forall i | 0 <= i < n {
          buffer[from + i] := incoming[position + i];
        }
        assert buffer[from..from + n] == incoming[position..position + n];
        assert buffer[..from] == before;
        position := position + n;
      } else if n == 0 {
        ended := true;
      } else {
        error := n;
      }
    }
  }

  /** receive_command: bytes of the stream up to a newline that has arrived, the capacity,
      or its end, and a NUL after them. */
  method ReceiveCommand(connection: Connection, cmd: array<byte>, capacity: nat) returns (result: int, tooLong: bool)
    requires cmd.Length == capacity + 1 && connection.position == 0 && !connection.ended && connection.error == 0
    modifies connection, cmd
    ensures result == connection.error < 0 || (result >= 0 && connection.error == 0)
    ensures Flows(old(connection.script)) ==> result >= 0 && (connection.ended ==> result == |connection.incoming|)
    ensures result >= 0 ==>
      && result <= capacity && result <= |connection.incoming| && cmd[..result] == connection.incoming[..result] && cmd[result] == 0
      && (NEWLINE in connection.incoming[..result] || result == capacity || connection.ended)
    ensures tooLong <==> result == capacity && capacity <= |connection.incoming| && NEWLINE !in connection.incoming[..capacity]
    ensures connection.position <= |connection.incoming| && (result >= 0 ==> connection.position == result)
  {
    var used := 0;
    tooLong := false;
    while used < capacity
      invariant used == connection.position <= capacity && used <= |connection.incoming| && !connection.ended
      invariant cmd[..used] == connection.incoming[..used]
      invariant connection.error == 0 && (Flows(old(connection.script)) ==> Flows(connection.script))
    {
      var received := connection.Recv(cmd, used, capacity - used);
      if received < 0 {
        return received, false;
      }
      if received == 0 {
        break;
      }
      assert connection.incoming[..used] + connection.incoming[used..used + received] == connection.incoming[..used + received];
      used := used + received;
      if NEWLINE in cmd[..used] {
        break;
      }
    }
    if used == capacity && NEWLINE !in cmd[..used] {
      tooLong := true;
    }
    cmd[used] := 0;
    result := used;
  }

  // ---- cmd_handle ----

  datatype Outcome = TooManyArguments | Empty | UnknownCommand | WrongArgumentCount | Execute(words: seq<seq<byte>>)

  /** A command by name, and the number of arguments it takes. */
  datatype Definition = Definition(name: seq<byte>, argCount: nat)

  /** cmd_get_definition: the first definition with the name. */
  function GetDefinition(commands: seq<Definition>, name: seq<byte>): Option<nat> {
    if commands == [] then None
    else if commands[0].name == name then Some(commands[0].argCount)
    else GetDefinition(commands[1..], name)
  }

  /** What a list of words asks for. */
  function Decide(words: seq<seq<byte>>, commands: seq<Definition>): Outcome {
    if |words| > ARG_MAX then TooManyArguments
    else if words == [] then Empty
    else
      match GetDefinition(commands, words[0])
      case None => UnknownCommand
      case Some(n) => if n != |words| - 1 then WrongArgumentCount else Execute(words)
  }

  /** An argument is the string at its start, when a NUL follows the region. */
  lemma ArgumentIsString(cmd: seq<byte>, size: nat, start: nat, word: seq<byte>)
    requires size < |cmd| && cmd[size] == 0 && ArgumentAt(cmd, size, size, start, word)
    ensures CString(cmd[start..]) == word
  {
    var t := cmd[start..];
    assert t[..|word|] == word;
    assert forall c | c in word :: IsWordChar(c);
    CStringIs(t, |word|);
  }

  /** The strings that the argument pointers stand for. */
  method Strings(cmd: array<byte>, size: nat, starts: seq<nat>, ghost words: seq<seq<byte>>)
    returns (strings: seq<seq<byte>>)
    requires size < cmd.Length && cmd[size] == 0 && Arguments(cmd[..], size, size, starts, words)
    ensures strings == words
  {
    strings := [];
    for k := 0 to |starts|
      invariant strings == words[..k]
    {
      ArgumentIsString(cmd[..], size, starts[k], words[k]);
      assert cmd[..][starts[k]..] == cmd[starts[k]..];
      strings := strings + [CString(cmd[starts[k]..])];
    }
  }

  /** cmd_handle, up to the call of the executor. */
  method CmdHandle(cmd: array<byte>, size: nat, commands: seq<Definition>) returns (outcome: Outcome)
    requires size < cmd.Length && cmd[size] == 0
    modifies cmd
    ensures outcome == Decide(Parse(old(cmd[..size])), commands)
  {
    ghost var words := Parse(cmd[..size]);
    ghost var tail := cmd[size..];
    var argList := new nat[ARG_MAX];
    var count := ParseCmd(cmd, size, argList, ARG_MAX);
    if count == TOO_MANY {
      return TooManyArguments;
    }
    if count == 0 {
      return Empty;
    }
    assert cmd[size] == tail[0];
    var strings := Strings(cmd, size, argList[..count], words);
    match GetDefinition(commands, strings[0]) {
      case None => outcome := UnknownCommand;
      case Some(n) => outcome := if n != count - 1 then WrongArgumentCount else Execute(strings);
    }
  }

  datatype Response = NotConfigured | ReceiveFailed | TooLong | Handled(outcome: Outcome)

  /** configure_socket_io_timeout, by what its two calls return. */
  method Configure(sendTimeout: int, receiveTimeout: int) returns (result: int)
    ensures result < 0 <==> sendTimeout < 0 || receiveTimeout < 0
  {
    if sendTimeout < 0 {
      return sendTimeout;
    }
    return receiveTimeout;
  }

  /** What a stream of commands is answered. */
  function Respond(incoming: seq<byte>, commands: seq<Definition>): Response {
    if REQUEST_BYTES <= |incoming| && NEWLINE !in incoming[..REQUEST_BYTES] then TooLong
    else Handled(Decide(Parse(incoming), commands))
  }

  /** One connection of cmd_thread.  With its timeouts set, and as long as every call delivers
      something until the stream ends, the response is a function of the stream, however it
      was cut into pieces.  Otherwise the response is that of the bytes that arrived, unless
      a call failed.  Without its timeouts a connection is not read. */
  method Serve(connection: Connection, commands: seq<Definition>, sendTimeout: int, receiveTimeout: int)
    returns (response: Response)
    requires connection.position == 0 && !connection.ended && connection.error == 0
    modifies connection
    ensures response.NotConfigured? <==> sendTimeout < 0 || receiveTimeout < 0
    ensures response.NotConfigured? ==> connection.position == 0
    ensures response.ReceiveFailed? <==> !response.NotConfigured? && connection.error < 0
    ensures !response.NotConfigured? && Flows(old(connection.script)) ==> response == Respond(connection.incoming, commands)
    ensures connection.position <= |connection.incoming|
    ensures !response.NotConfigured? && !response.ReceiveFailed? ==>
      response == Respond(connection.incoming[..connection.position], commands)
    ensures !response.NotConfigured? && !response.ReceiveFailed? && !connection.ended ==>
      response == Respond(connection.incoming, commands)
  {
    var cmd := new byte[REQUEST_BYTES + 1](i => 0);
    var configured := Configure(sendTimeout, receiveTimeout);
    if configured < 0 {
      return NotConfigured;
    }
    var size, tooLong := ReceiveCommand(connection, cmd, REQUEST_BYTES);
    if tooLong {
      return TooLong;
    }
    if size < 0 {
      return ReceiveFailed;
    }
    ghost var stream := connection.incoming;
    RespondToPrefix(stream, size, commands);
    if size > 0 {
      var outcome := CmdHandle(cmd, size, commands);
      response := Handled(outcome);
    } else {
      response := Handled(Empty);
    }
  }

  /** Short of the limit, or with a newline, the bytes that arrived are answered by their words;
      with a newline, what follows them changes nothing. */
  lemma RespondToPrefix(stream: seq<byte>, size: nat, commands: seq<Definition>)
    requires size <= |stream| && size <= REQUEST_BYTES && (NEWLINE in stream[..size] || size < REQUEST_BYTES)
    ensures Respond(stream[..size], commands) == Handled(Decide(Parse(stream[..size]), commands))
    ensures NEWLINE in stream[..size] || size == |stream| ==> Respond(stream, commands) == Respond(stream[..size], commands)
  {
    if NEWLINE in stream[..size] {
      LineOfPrefix(stream, size);
      if REQUEST_BYTES <= |stream| {
        assert stream[..size] == stream[..REQUEST_BYTES][..size];
      }
    } else {
      assert size == |stream| ==> stream[..size] == stream;
    }
  }

  // ---- which response it is ----

  /** The first definition with a name. */
  ghost predicate IsFirstNamed(commands: seq<Definition>, name: seq<byte>, i: nat) {
    i < |commands| && commands[i].name == name && forall j | 0 <= j < i :: commands[j].name != name
  }

  /** The first definition with the name takes n arguments. */
  ghost predicate Takes(commands: seq<Definition>, name: seq<byte>, n: nat) {
    exists i: nat :: IsFirstNamed(commands, name, i) && commands[i].argCount == n
  }

  lemma {:induction false} LookupIsFirst(commands: seq<Definition>, name: seq<byte>, n: nat)
    ensures GetDefinition(commands, name) == Some(n) <==> Takes(commands, name, n)
  {
    if commands != [] && commands[0].name == name {
      assert IsFirstNamed(commands, name, 0);
    } else if commands != [] {
      LookupIsFirst(commands[1..], name, n);
      forall i: nat {:trigger IsFirstNamed(commands, name, i)}
        ensures IsFirstNamed(commands, name, i) <==> i > 0 && IsFirstNamed(commands[1..], name, i - 1)
      {
        if i > 0 {
          FirstInTail(commands, name, i);
        }
      }
      forall i: nat | IsFirstNamed(commands[1..], name, i)
        ensures IsFirstNamed(commands, name, i + 1)
      {
        FirstInTail(commands, name, i + 1);
      }
    }
  }

  lemma FirstInTail(commands: seq<Definition>, name: seq<byte>, i: nat)
    requires commands != [] && commands[0].name != name && i > 0
    ensures IsFirstNamed(commands, name, i) <==> IsFirstNamed(commands[1..], name, i - 1)
  {
    if IsFirstNamed(commands[1..], name, i - 1) {
      forall j | 0 <= j < i
        ensures commands[j].name != name
      {
        assert j > 0 ==> commands[1..][j - 1].name != name;
      }
    }
    if IsFirstNamed(commands, name, i) {
      assert forall j | 0 <= j < i - 1 :: commands[1..][j] == commands[j + 1];
    }
  }

  lemma {:induction false} LookupFails(commands: seq<Definition>, name: seq<byte>)
    ensures GetDefinition(commands, name).None? <==> forall d | d in commands :: d.name != name
  {
    if commands != [] {
      LookupFails(commands[1..], name);
      assert commands[0] in commands && forall d | d in commands :: d == commands[0] || d in commands[1..];
    }
  }

  /** The response to a stream of fewer than 256 bytes up to its newline, by the words that it
      spells: one of five, each in exactly its own case. */
  lemma RespondIsExact(stream: seq<byte>, ws: seq<seq<byte>>, commands: seq<Definition>)
    requires Spells(stream, ws) && (|stream| < 256 || 10 in stream[..256])
    ensures var r := Respond(stream, commands);
      && r.Handled?
      && (r.outcome.TooManyArguments? <==> |ws| > 20)
      && (r.outcome.Empty? <==> ws == [])
      && (r.outcome.UnknownCommand? <==> 0 < |ws| <= 20 && forall d | d in commands :: d.name != ws[0])
      && (r.outcome.WrongArgumentCount? <==> 0 < |ws| <= 20 && exists n: nat :: n + 1 != |ws| && Takes(commands, ws[0], n))
      && (r.outcome.Execute? <==> 0 < |ws| <= 20 && Takes(commands, ws[0], |ws| - 1))
      && (r.outcome.Execute? ==> r.outcome.words == ws)
  {
    ParseIsExact(stream, ws);
    if 0 < |ws| <= 20 {
      LookupFails(commands, ws[0]);
      var found := GetDefinition(commands, ws[0]);
      forall n: nat
        ensures found == Some(n) <==> Takes(commands, ws[0], n)
      {
        LookupIsFirst(commands, ws[0], n);
      }
    }
  }

  /** A stream is too long exactly when its first 256 bytes have no newline. */
  lemma TooLongIsExact(stream: seq<byte>, commands: seq<Definition>)
    ensures Respond(stream, commands).TooLong? <==> |stream| >= 256 && forall i | 0 <= i < 256 :: stream[i] != 10
  {
    if |stream| >= 256 {
      assert forall i | 0 <= i < 256 :: stream[..256][i] == stream[i];
    }
  }
}
