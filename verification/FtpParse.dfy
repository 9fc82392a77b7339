/** The bounded parsers of ftpvita_parse.h.  A C string is the sequence of its characters;
    the position after the last one holds the NUL. */
module FtpParse {
  import opened Options
  import opened Bytes
  import opened FtpGrammar
  import opened FtpPort

  type uint32 = x: int | 0 <= x < U32

  /** The character at a position, the terminator included and nothing past it. */
  function CharAt(s: seq<byte>, i: nat): byte
    requires i <= |s|
  {
    if i < |s| then s[i] else 0
  }

  predicate IsCommandChar(c: byte) { !IsBlank(c) && !IsLineEnd(c) }

  predicate IsArgumentChar(c: byte) { c != 9 && !IsLineEnd(c) }

  /** The blank-skipping loop that all of the parsers have. */
  method SkipBlanks(s: seq<byte>, from: nat) returns (cursor: nat)
    requires 0 !in s && from <= |s|
    ensures cursor == Skip(IsBlank, s, from)
  {
    cursor := from;
    while CharAt(s, cursor) == 32 || CharAt(s, cursor) == 9
      invariant from <= cursor <= |s| && Skip(IsBlank, s, cursor) == Skip(IsBlank, s, from)
      decreases |s| - cursor
    {
      cursor := cursor + 1;
    }
  }

  // ---- ftpvita_parse_rest_offset ----

  lemma NextDigit(s: seq<byte>, from: nat, i: nat)
    requires from <= i < |s|
    ensures Val(s[from..i + 1]) == 10 * Val(s[from..i]) + (s[i] as int - 48)
  {
    var t := s[from..i + 1];
    assert t[..|t| - 1] == s[from..i];
  }

  lemma PrefixAtMost(s: seq<byte>, from: nat, i: nat)
    requires from <= |s| && from <= i <= Skip(IsDigit, s, from)
    ensures Val(s[from..i]) <= Val(s[from..Skip(IsDigit, s, from)])
  {
    var t := s[from..Skip(IsDigit, s, from)];
    SkipCovers(IsDigit, s, from);
    ValGrows(t, i - from);
    assert t[..i - from] == s[from..i];
  }

  /** v(i) is the value of the digits from `from` up to i; it never falls while digits last. */
  ghost predicate Prefixes(v: int -> int, s: seq<byte>, from: nat, to: nat) {
    && from <= to <= |s| && v(from) == 0
    && (forall i {:trigger s[i]} | from <= i < to :: v(i + 1) == 10 * v(i) + (s[i] as int - 48))
    && (forall i {:trigger v(i)} | from <= i <= to :: v(i) <= v(to))
  }

  ghost function PrefixValue(s: seq<byte>, from: nat): int -> int
    requires from <= |s|
  {
    i => if from <= i <= |s| then Val(s[from..i]) else 0
  }

  lemma PrefixSteps(s: seq<byte>, from: nat)
    requires from <= |s|
    ensures var v := PrefixValue(s, from);
      forall i {:trigger s[i]} | from <= i < Skip(IsDigit, s, from) :: v(i + 1) == 10 * v(i) + (s[i] as int - 48)
  {
    forall i | from <= i < Skip(IsDigit, s, from)
      ensures PrefixValue(s, from)(i + 1) == 10 * PrefixValue(s, from)(i) + (s[i] as int - 48)
    {
      NextDigit(s, from, i);
    }
  }

  lemma PrefixValues(s: seq<byte>, from: nat)
    requires from <= |s|
    ensures Prefixes(PrefixValue(s, from), s, from, Skip(IsDigit, s, from))
  {
    var v, to := PrefixValue(s, from), Skip(IsDigit, s, from);
    assert s[from..from] == [];
    PrefixSteps(s, from);
    forall i | from <= i <= to
      ensures v(i) <= v(to)
    {
      PrefixAtMost(s, from, i);
    }
  }

  /** The digits of an offset; the guard is before the multiplication, so nothing wraps. */
  method RestDigits(s: seq<byte>, from: nat, ghost v: int -> int) returns (ok: bool, value: uint32, cursor: nat)
    requires 0 !in s && from <= |s| && Prefixes(v, s, from, Skip(IsDigit, s, from))
    ensures var to := Skip(IsDigit, s, from); (ok <==> v(to) <= REST_MAX) && (ok ==> value == v(to) && cursor == to)
  {
    ghost var to := Skip(IsDigit, s, from);
    ok, value, cursor := true, 0, from;
    while CharAt(s, cursor) >= 48 && CharAt(s, cursor) <= 57
      invariant from <= cursor <= to && Skip(IsDigit, s, cursor) == to
      invariant value == v(cursor) <= REST_MAX
      decreases |s| - cursor
    {
      var digit: uint32 := CharAt(s, cursor) - 48;
      if value > (REST_MAX - digit) / 10 {
        assert v(cursor + 1) > REST_MAX;
        return false, value, cursor;
      }
      value := value * 10 + digit;
      cursor := cursor + 1;
    }
  }

  /** ftpvita_parse_rest_offset */
  method ParseRestOffset(s: seq<byte>) returns (ok: bool, offset: uint32)
    requires 0 !in s
    ensures RestOffset(s) == if ok then Some(offset) else None
  {
    offset := 0;
    var from := SkipBlanks(s, 0);
    if CharAt(s, from) < 48 || CharAt(s, from) > 57 {
      return false, offset;
    }
    PrefixValues(s, from);
    var inRange, value, to := RestDigits(s, from, PrefixValue(s, from));
    if !inRange {
      return false, offset;
    }
    var end := SkipBlanks(s, to);
    if CharAt(s, end) != 0 && CharAt(s, end) != 13 && CharAt(s, end) != 10 {
      return false, offset;
    }
    return true, value;
  }

  // ---- ftpvita_parse_port_tuple ----

  /** The digits of one number, which is given up once it is above 255. */
  method PortDigits(s: seq<byte>, from: nat, ghost v: int -> int)
    returns (ok: bool, value: uint32, cursor: nat, digits: nat)
    requires 0 !in s && from <= |s| && Prefixes(v, s, from, Skip(IsDigit, s, from))
    ensures var to := Skip(IsDigit, s, from);
      (ok <==> v(to) <= 255) && (ok ==> value == v(to) && cursor == to && digits == to - from)
  {
    ghost var to := Skip(IsDigit, s, from);
    ok, value, cursor, digits := true, 0, from, 0;
    while CharAt(s, cursor) >= 48 && CharAt(s, cursor) <= 57
      invariant from <= cursor <= to && Skip(IsDigit, s, cursor) == to
      invariant value == v(cursor) <= 255 && digits == cursor - from
      decreases |s| - cursor
    {
      value := value * 10 + (CharAt(s, cursor) - 48);
      if value > 255 {
        assert v(cursor + 1) > 255;
        return false, value, cursor, digits;
      }
      digits := digits + 1;
      cursor := cursor + 1;
    }
  }

  /** One number. */
  method PortNumber(s: seq<byte>, from: nat) returns (ok: bool, value: uint32, cursor: nat)
    requires 0 !in s && from <= |s|
    ensures var to := Skip(IsDigit, s, from);
      && (ok <==> to > from && Val(s[from..to]) <= 255)
      && (ok ==> value == Val(s[from..to]) && cursor == to)
  {
    PrefixValues(s, from);
    var small, number, next, digits := PortDigits(s, from, PrefixValue(s, from));
    ok, value, cursor := small && digits != 0, number, next;
  }

  /** Numbers already read, in front of what the rest of the text gives. */
  function Prepend(done: seq<int>, r: Option<Tuple>): Option<Tuple> {
    match r
    case None => None
    case Some(t) => Some(Tuple(done + t.values, t.end))
  }

  /** One step of the parse of k numbers from i on, `numbers` being what is parsed. */
  ghost predicate ParsesNumber(numbers: (nat, nat) -> Option<Tuple>, s: seq<byte>, i: nat, k: nat)
    requires i <= |s| && k > 0
  {
    var e := Skip(IsDigit, s, i);
    numbers(i, k) ==
      if e == i || Val(s[i..e]) > 255 then None
      else if k == 1 then Some(Tuple([Val(s[i..e])], e))
      else if e < |s| && s[e] == COMMA then Prepend([Val(s[i..e])], numbers(e + 1, k - 1))
      else None
  }

  ghost predicate ParsesNumbers(numbers: (nat, nat) -> Option<Tuple>, s: seq<byte>) {
    forall i: nat, k: nat | i <= |s| && k > 0 :: ParsesNumber(numbers, s, i, k)
  }

  function NumbersOf(s: seq<byte>): (nat, nat) -> Option<Tuple> {
    (i: nat, k: nat) => if i <= |s| && k > 0 then Numbers(Val, s, i, k) else None
  }

  lemma NumbersParse(s: seq<byte>)
    ensures ParsesNumbers(NumbersOf(s), s)
  {
    forall i: nat, k: nat | i <= |s| && k > 0
      ensures ParsesNumber(NumbersOf(s), s, i, k)
    {
    }
  }

  /** One round: a number, and a comma unless it is the last. */
  method PortRound(s: seq<byte>, from: nat, last: bool, ghost k: nat, ghost numbers: (nat, nat) -> Option<Tuple>)
    returns (ok: bool, value: uint32, cursor: nat)
    requires 0 !in s && from <= |s| && k > 0 && (last <==> k == 1) && ParsesNumber(numbers, s, from, k)
    ensures cursor <= |s|
    ensures if !ok then numbers(from, k) == None
            else if last then numbers(from, k) == Some(Tuple([value], cursor))
            else numbers(from, k) == Prepend([value], numbers(cursor, k - 1))
  {
    cursor := from;
    var good, number, next := PortNumber(s, from);
    value := number;
    if !good {
      return false, value, cursor;
    }
    cursor := next;
    if !last {
      if CharAt(s, cursor) != 44 {
        return false, value, cursor;
      }
      cursor := cursor + 1;
    }
    ok := true;
  }

  /** The loop over the numbers. */
  method PortNumbers(s: seq<byte>, values: array<uint32>, ghost numbers: (nat, nat) -> Option<Tuple>)
    returns (ok: bool, cursor: nat)
    requires 0 !in s && values.Length > 0 && ParsesNumbers(numbers, s)
    modifies values
    ensures cursor <= |s|
    ensures numbers(0, values.Length) == if ok then Some(Tuple(values[..], cursor)) else None
  {
    cursor := 0;
    var count := values.Length;
    ghost var all := numbers(0, count);
    PrependNothing(all);
    var index := 0;
    while index < count
      invariant 0 <= index <= count && cursor <= |s|
      invariant all == if index < count then Prepend(values[..index], numbers(cursor, count - index))
                       else Some(Tuple(values[..index], cursor))
    {
      ghost var before := values[..index];
      var good, value, next := PortRound(s, cursor, index == count - 1, count - index, numbers);
      if !good {
        return false, cursor;
      }
      cursor := next;
      values[index] := value;
      assert values[..index + 1] == before + [value];
      if index < count - 1 {
        PrependOneMore(before, value, numbers(cursor, count - index - 1));
      }
      index := index + 1;
    }
    assert values[..index] == values[..];
    ok := true;
  }

  lemma PrependNothing(r: Option<Tuple>)
    ensures Prepend([], r) == r
  {
    if r.Some? {
      assert [] + r.value.values == r.value.values;
    }
  }

  lemma PrependOneMore(done: seq<int>, v: int, r: Option<Tuple>)
    ensures Prepend(done, Prepend([v], r)) == Prepend(done + [v], r)
  {
    if r.Some? {
      assert done + ([v] + r.value.values) == done + [v] + r.value.values;
    }
  }

  /** ftpvita_parse_port_tuple */
  method ParsePortTuple(s: seq<byte>, values: array<uint32>) returns (ok: bool)
    requires 0 !in s && values.Length == SIX
    modifies values
    ensures ok <==> PortTuple(s).Some?
    ensures ok ==> values[..] == PortTuple(s).value
  {
    NumbersParse(s);
    var good, cursor := PortNumbers(s, values, NumbersOf(s));
    if !good {
      return false;
    }
    cursor := SkipBlanks(s, cursor);
    return CharAt(s, cursor) == 0 || CharAt(s, cursor) == 13 || CharAt(s, cursor) == 10;
  }

  // ---- ftpvita_parse_command_line and ftpvita_copy_command_argument ----

  datatype CommandLine = CommandLine(verb: seq<byte>, arguments: seq<byte>)

  /** Blanks, a verb that leaves room for a NUL in its buffer, blanks, and the arguments. */
  function SplitLine(line: seq<byte>, size: nat): Option<CommandLine> {
    var from := Skip(IsBlank, line, 0);
    var to := Skip(IsCommandChar, line, from);
    if size >= 2 && 0 < to - from < size
    then Some(CommandLine(line[from..to], line[Skip(IsBlank, line, to)..]))
    else None
  }

  /** The loop that copies the verb while there is room. */
  method CopyVerb(line: seq<byte>, from: nat, command: array<byte>, size: nat) returns (ok: bool, length: nat)
    requires 0 !in line && from <= |line| && 0 < size <= command.Length
    modifies command
    ensures var to := Skip(IsCommandChar, line, from);
      (ok <==> to - from < size) && (ok ==> length == to - from && command[..length] == line[from..to])
  {
    length := 0;
    ghost var to := Skip(IsCommandChar, line, from);
    while CharAt(line, from + length) != 0 && CharAt(line, from + length) != 32 && CharAt(line, from + length) != 9 &&
          CharAt(line, from + length) != 13 && CharAt(line, from + length) != 10
      invariant from + length <= |line| && length < size && Skip(IsCommandChar, line, from + length) == to
      invariant command[..length] == line[from..from + length]
      decreases |line| - length
    {
      if length + 1 >= size {
        return false, length;
      }
      ghost var before := command[..length];
      command[length] := CharAt(line, from + length);
      assert command[..length + 1] == before + [line[from + length]];
      assert line[from..from + length + 1] == line[from..from + length] + [line[from + length]];
      length := length + 1;
    }
    ok := true;
  }

  /** ftpvita_parse_command_line */
  method ParseCommandLine(line: seq<byte>, command: array<byte>, size: nat) returns (ok: bool, arguments: nat)
    requires 0 !in line && size <= command.Length
    modifies command
    ensures ok <==> SplitLine(line, size).Some?
    ensures ok ==>
      var r := SplitLine(line, size).value;
      arguments <= |line| && line[arguments..] == r.arguments && |r.verb| < size &&
      command[..|r.verb|] == r.verb && command[|r.verb|] == 0
  {
    arguments := 0;
    if size < 2 {
      return false, arguments;
    }
    var cursor := SkipBlanks(line, 0);
    var fits, length := CopyVerb(line, cursor, command, size);
    if !fits || length == 0 {
      return false, arguments;
    }
    command[length] := 0;
    arguments := SkipBlanks(line, cursor + length);
    ok := true;
  }

  /** Blanks, a verb without blanks and line ends, blanks, and arguments, which start after a
      blank or with a line end. */
  ghost predicate SplitAs(line: seq<byte>, lead: seq<byte>, verb: seq<byte>, gap: seq<byte>, arguments: seq<byte>) {
    && line == lead + verb + gap + arguments && Blanks(lead) && Blanks(gap)
    && (forall c | c in verb :: c != 32 && c != 9 && c != 13 && c != 10)
    && (arguments == [] || arguments[0] == 13 || arguments[0] == 10 ||
        (gap != [] && arguments[0] != 32 && arguments[0] != 9))
  }

  /** A verb after blanks, then blanks and arguments: each is found where it was put. */
  lemma SplitLineOf(line: seq<byte>, lead: seq<byte>, verb: seq<byte>, gap: seq<byte>, arguments: seq<byte>, size: nat)
    requires SplitAs(line, lead, verb, gap, arguments) && 0 < |verb| < size
    ensures SplitLine(line, size) == Some(CommandLine(verb, arguments))
  {
    var from, to := |lead|, |lead| + |verb|;
    var end := to + |gap|;
    assert line[0..from] == lead && line[from..to] == verb && line[to..end] == gap && line[end..] == arguments;
    assert line[from] == verb[0] && verb[0] in verb;
    SkipIs(IsBlank, line, 0, from);
    if gap != [] {
      assert line[to] == gap[0] && gap[0] in gap;
    } else if arguments != [] {
      assert line[to] == arguments[0];
    }
    SkipIs(IsCommandChar, line, from, to);
    if arguments != [] {
      assert line[end] == arguments[0];
    }
    SkipIs(IsBlank, line, to, end);
  }

  /** A line is refused exactly when its first word is missing or does not fit the buffer. */
  lemma SplitLineIsExact(line: seq<byte>, size: nat, verb: seq<byte>, arguments: seq<byte>)
    ensures SplitLine(line, size) == Some(CommandLine(verb, arguments)) <==>
      0 < |verb| < size && exists lead, gap :: SplitAs(line, lead, verb, gap, arguments)
  {
    if SplitLine(line, size) == Some(CommandLine(verb, arguments)) {
      var from := Skip(IsBlank, line, 0);
      var to := Skip(IsCommandChar, line, from);
      var end := Skip(IsBlank, line, to);
      SkipCovers(IsBlank, line, 0);
      SkipCovers(IsCommandChar, line, from);
      SkipCovers(IsBlank, line, to);
      assert line == line[0..from] + line[from..to] + line[to..end] + line[end..];
      assert SplitAs(line, line[0..from], verb, line[to..end], arguments);
    }
    if 0 < |verb| < size && exists lead, gap :: SplitAs(line, lead, verb, gap, arguments) {
      var lead, gap :| SplitAs(line, lead, verb, gap, arguments);
      SplitLineOf(line, lead, verb, gap, arguments, size);
    }
  }

  /** The argument ends before the first tab, carriage return or newline. */
  lemma ArgumentSpan(s: seq<byte>)
    ensures var n := Skip(IsArgumentChar, s, 0);
      && (forall k | 0 <= k < n :: s[k] != 9 && s[k] != 13 && s[k] != 10)
      && (n < |s| ==> s[n] == 9 || s[n] == 13 || s[n] == 10)
  {
    SkipCovers(IsArgumentChar, s, 0);
    var t := s[0..Skip(IsArgumentChar, s, 0)];
    assert forall k | 0 <= k < |t| :: t[k] == s[k] && t[k] in t;
  }

  /** ftpvita_copy_command_argument */
  method CopyCommandArgument(arguments: seq<byte>, output: array<byte>, size: nat) returns (ok: bool)
    requires 0 !in arguments && size <= output.Length
    modifies output
    ensures var n := Skip(IsArgumentChar, arguments, 0);
      && (forall k | 0 <= k < n :: arguments[k] != 9 && arguments[k] != 13 && arguments[k] != 10)
      && (n < |arguments| ==> arguments[n] == 9 || arguments[n] == 13 || arguments[n] == 10)
      && (ok <==> 0 < n < size)
      && (ok ==> output[..n] == arguments[..n] && output[n] == 0)
      && (!ok && size > 0 ==> output[0] == 0)
  {
    ArgumentSpan(arguments);
    if size == 0 {
      return false;
    }
    var length := 0;
    ghost var n := Skip(IsArgumentChar, arguments, 0);
    while CharAt(arguments, length) != 0 && CharAt(arguments, length) != 13 && CharAt(arguments, length) != 10 &&
          CharAt(arguments, length) != 9
      invariant length <= |arguments| && length < size && Skip(IsArgumentChar, arguments, length) == n
      invariant output[..length] == arguments[..length]
      decreases |arguments| - length
    {
      if length + 1 >= size {
        output[0] := 0;
        return false;
      }
      output[length] := CharAt(arguments, length);
      length := length + 1;
    }
    if length == 0 {
      output[0] := 0;
      return false;
    }
    output[length] := 0;
    ok := true;
  }
}
