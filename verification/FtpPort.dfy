/** The host-port argument of RFC 959 section 5.3.2: six numbers with commas between them. */
module FtpPort {
  import opened Options
  import opened Bytes
  import opened FtpGrammar

  datatype Tuple = Tuple(values: seq<int>, end: nat)

  /** `k` numbers from i on, each at most 255, a comma before each but the first. */
  function Numbers(val: seq<byte> -> int, s: seq<byte>, i: nat, k: nat): (r: Option<Tuple>)
    requires i <= |s| && k > 0
    ensures r.Some? ==> |r.value.values| == k && i <= r.value.end <= |s|
    decreases k
  {
    var e := Skip(IsDigit, s, i);
    if e == i || val(s[i..e]) > 255 then None
    else if k == 1 then Some(Tuple([val(s[i..e])], e))
    else if e < |s| && s[e] == COMMA then
      match Numbers(val, s, e + 1, k - 1)
      case None => None
      case Some(t) => Some(Tuple([val(s[i..e])] + t.values, t.end))
    else None
  }

  /** `k` of them, blanks, and the end. */
  function Numbered(val: seq<byte> -> int, s: seq<byte>, k: nat): (r: Option<seq<int>>)
    requires k > 0
    ensures r.Some? ==> |r.value| == k
  {
    match Numbers(val, s, 0, k)
    case None => None
    case Some(t) => if AtEnd(s, Skip(IsBlank, s, t.end)) then Some(t.values) else None
  }

  const SIX: nat := 6

  function PortTuple(s: seq<byte>): (r: Option<seq<int>>)
    ensures r.Some? ==> |r.value| == 6
  {
    Numbered(Val, s, SIX)
  }

  /** Numerals with commas between them. */
  function Joined(nums: seq<seq<byte>>): seq<byte> {
    if nums == [] then []
    else if |nums| == 1 then nums[0]
    else nums[0] + ([44] + Joined(nums[1..]))
  }

  function Vals(val: seq<byte> -> int, nums: seq<seq<byte>>): (vs: seq<int>)
    ensures |vs| == |nums| && forall i | 0 <= i < |nums| :: vs[i] == val(nums[i])
  {
    seq(|nums|, i requires 0 <= i < |nums| => val(nums[i]))
  }

  ghost predicate SmallNumerals(val: seq<byte> -> int, nums: seq<seq<byte>>) {
    forall d | d in nums :: Numeral(d) && val(d) <= 255
  }

  /** Numerals with commas between them stand in s from i to `end`. */
  ghost predicate StandAt(s: seq<byte>, i: nat, nums: seq<seq<byte>>, end: nat)
    requires nums != []
    decreases |nums|
  {
    var e := i + |nums[0]|;
    && e <= end <= |s| && s[i..e] == nums[0]
    && if |nums| == 1 then e == end else e < end && s[e] == COMMA && StandAt(s, e + 1, nums[1..], end)
  }

  lemma CommaInside(s: seq<byte>, i: nat, d: seq<byte>, rest: seq<byte>)
    requires i + |d| + 1 + |rest| <= |s| && s[i..i + |d| + 1 + |rest|] == d + ([COMMA] + rest)
    ensures var e := i + |d|; s[i..e] == d && s[e] == COMMA && s[e + 1..e + 1 + |rest|] == rest
  {
    var t := s[i..i + |d| + 1 + |rest|];
    assert t[..|d|] == d && t[|d|] == COMMA && t[|d| + 1..] == rest;
  }

  lemma AroundComma(s: seq<byte>, i: nat, e: nat, end: nat)
    requires i <= e < end <= |s| && s[e] == COMMA
    ensures s[i..end] == s[i..e] + ([COMMA] + s[e + 1..end])
  {
  }

  lemma {:induction false} JoinedStands(s: seq<byte>, i: nat, nums: seq<seq<byte>>)
    requires nums != [] && i + |Joined(nums)| <= |s| && s[i..i + |Joined(nums)|] == Joined(nums)
    ensures StandAt(s, i, nums, i + |Joined(nums)|)
    decreases |nums|
  {
    var d, end := nums[0], i + |Joined(nums)|;
    var e := i + |d|;
    if |nums| > 1 {
      var rest := Joined(nums[1..]);
      CommaInside(s, i, d, rest);
      JoinedStands(s, e + 1, nums[1..]);
    }
  }

  lemma OneNumber(val: seq<byte> -> int, s: seq<byte>, i: nat, d: seq<byte>)
    requires i + |d| <= |s| && s[i..i + |d|] == d && Numeral(d) && val(d) <= 255
    requires i + |d| < |s| ==> !IsDigit(s[i + |d|])
    ensures Numbers(val, s, i, 1) == Some(Tuple([val(d)], i + |d|))
  {
    SkipIs(IsDigit, s, i, i + |d|);
  }

  lemma MoreNumbers(val: seq<byte> -> int, s: seq<byte>, i: nat, d: seq<byte>, e: nat, k: nat, t: Tuple)
    requires e == i + |d| < |s| && s[i..e] == d && s[e] == COMMA && Numeral(d) && val(d) <= 255
    requires k > 1 && Numbers(val, s, e + 1, k - 1) == Some(t)
    ensures Numbers(val, s, i, k) == Some(Tuple([val(d)] + t.values, t.end))
  {
    SkipIs(IsDigit, s, i, e);
  }

  lemma ValsSplit(val: seq<byte> -> int, nums: seq<seq<byte>>)
    requires nums != []
    ensures Vals(val, nums) == [val(nums[0])] + Vals(val, nums[1..])
  {
  }

  lemma SmallTail(val: seq<byte> -> int, nums: seq<seq<byte>>)
    requires nums != [] && SmallNumerals(val, nums)
    ensures Numeral(nums[0]) && val(nums[0]) <= 255 && SmallNumerals(val, nums[1..])
  {
    assert nums[0] in nums && forall n | n in nums[1..] :: n in nums;
  }

  lemma OneStanding(val: seq<byte> -> int, s: seq<byte>, i: nat, nums: seq<seq<byte>>, end: nat)
    requires |nums| == 1 && StandAt(s, i, nums, end) && SmallNumerals(val, nums) && (end < |s| ==> !IsDigit(s[end]))
    ensures Numbers(val, s, i, 1) == Some(Tuple(Vals(val, nums), end))
  {
    SmallTail(val, nums);
    OneNumber(val, s, i, nums[0]);
    assert Vals(val, nums) == [val(nums[0])];
  }

  lemma MoreStanding(val: seq<byte> -> int, s: seq<byte>, i: nat, nums: seq<seq<byte>>, end: nat)
    requires |nums| > 1 && StandAt(s, i, nums, end) && Numeral(nums[0]) && val(nums[0]) <= 255
    requires Numbers(val, s, i + |nums[0]| + 1, |nums| - 1) == Some(Tuple(Vals(val, nums[1..]), end))
    ensures Numbers(val, s, i, |nums|) == Some(Tuple(Vals(val, nums), end))
  {
    ValsSplit(val, nums);
    MoreNumbers(val, s, i, nums[0], i + |nums[0]|, |nums|, Tuple(Vals(val, nums[1..]), end));
  }

  lemma {:induction false} NumbersStanding(val: seq<byte> -> int, s: seq<byte>, i: nat, nums: seq<seq<byte>>, end: nat)
    requires nums != [] && StandAt(s, i, nums, end) && SmallNumerals(val, nums) && (end < |s| ==> !IsDigit(s[end]))
    ensures Numbers(val, s, i, |nums|) == Some(Tuple(Vals(val, nums), end))
    decreases |nums|
  {
    if |nums| == 1 {
      OneStanding(val, s, i, nums, end);
    } else {
      SmallTail(val, nums);
      NumbersStanding(val, s, i + |nums[0]| + 1, nums[1..], end);
      MoreStanding(val, s, i, nums, end);
    }
  }

  lemma JoinOneMore(d: seq<byte>, rest: seq<seq<byte>>)
    requires rest != []
    ensures Joined([d] + rest) == d + ([COMMA] + Joined(rest))
  {
    assert ([d] + rest)[1..] == rest;
  }

  lemma ValsOneMore(val: seq<byte> -> int, d: seq<byte>, rest: seq<seq<byte>>)
    ensures Vals(val, [d] + rest) == [val(d)] + Vals(val, rest)
  {
  }

  lemma NumberedStanding(val: seq<byte> -> int, s: seq<byte>, nums: seq<seq<byte>>, end: nat, trail: seq<byte>, rest: seq<byte>)
    requires nums != [] && SmallNumerals(val, nums) && IsTail(trail, rest)
    requires StandAt(s, 0, nums, end) && end <= |s| && s[end..] == trail + rest
    ensures Numbered(val, s, |nums|) == Some(Vals(val, nums))
  {
    if end < |s| {
      assert s[end] == (trail + rest)[0];
      assert trail != [] ==> trail[0] in trail;
    }
    NumbersStanding(val, s, 0, nums, end);
    SkipsTail(s, end, trail, rest);
  }

  lemma TwoPieces(a: seq<byte>, b: seq<byte>, s: seq<byte>, n: nat)
    requires s == a + b && n == |a|
    ensures s[0..0 + n] == a && s[n..] == b
  {
  }

  lemma JoinedInFront(s: seq<byte>, joined: seq<byte>, nums: seq<seq<byte>>, tail: seq<byte>)
    requires nums != [] && joined == Joined(nums) && s == joined + tail
    ensures StandAt(s, 0, nums, |joined|) && s[|joined|..] == tail
  {
    TwoPieces(joined, tail, s, |joined|);
    JoinedStands(s, 0, nums);
  }

  /** Any numerals up to 255, leading zeros and all, are read as their values. */
  lemma NumberedOfJoined(val: seq<byte> -> int, nums: seq<seq<byte>>, trail: seq<byte>, rest: seq<byte>)
    requires nums != [] && SmallNumerals(val, nums) && IsTail(trail, rest)
    ensures Numbered(val, Joined(nums) + (trail + rest), |nums|) == Some(Vals(val, nums))
  {
    var joined := Joined(nums);
    JoinedInFront(joined + (trail + rest), joined, nums, trail + rest);
    NumberedStanding(val, joined + (trail + rest), nums, |joined|, trail, rest);
  }

  lemma {:induction false} NumbersAreJoined(val: seq<byte> -> int, s: seq<byte>, i: nat, k: nat)
    returns (nums: seq<seq<byte>>)
    requires i <= |s| && k > 0 && Numbers(val, s, i, k).Some?
    ensures |nums| == k && SmallNumerals(val, nums) && Vals(val, nums) == Numbers(val, s, i, k).value.values
    ensures Joined(nums) == s[i..Numbers(val, s, i, k).value.end]
    decreases k
  {
    var e := Skip(IsDigit, s, i);
    var d := s[i..e];
    SkipCovers(IsDigit, s, i);
    if k == 1 {
      nums := [d];
      assert Vals(val, nums) == [val(d)];
    } else {
      var rest := NumbersAreJoined(val, s, e + 1, k - 1);
      var end := Numbers(val, s, e + 1, k - 1).value.end;
      nums := [d] + rest;
      JoinOneMore(d, rest);
      ValsOneMore(val, d, rest);
      AroundComma(s, i, e, end);
    }
  }

  ghost predicate Spells(val: seq<byte> -> int, s: seq<byte>, nums: seq<seq<byte>>, trail: seq<byte>, rest: seq<byte>) {
    SmallNumerals(val, nums) && IsTail(trail, rest) && s == Joined(nums) + (trail + rest)
  }

  lemma ThreePieces(s: seq<byte>, at: nat, end: nat)
    requires at <= end <= |s|
    ensures s == s[0..at] + (s[at..end] + s[end..])
  {
  }

  /** Nothing else is accepted. */
  lemma NumberedIsJoined(val: seq<byte> -> int, s: seq<byte>, k: nat)
    returns (nums: seq<seq<byte>>, trail: seq<byte>, rest: seq<byte>)
    requires k > 0 && Numbered(val, s, k).Some?
    ensures |nums| == k && Spells(val, s, nums, trail, rest) && Numbered(val, s, k) == Some(Vals(val, nums))
  {
    nums := NumbersAreJoined(val, s, 0, k);
    var at := Numbers(val, s, 0, k).value.end;
    var end := Skip(IsBlank, s, at);
    SkipCovers(IsBlank, s, at);
    trail, rest := s[at..end], s[end..];
    ThreePieces(s, at, end);
  }

  /** The parser accepts exactly six numerals up to 255 with commas between them, then
      blanks and the end of the line, and reads their values. */
  lemma PortTupleIsExact(s: seq<byte>, values: seq<int>)
    ensures PortTuple(s) == Some(values) <==>
      exists nums, trail, rest :: |nums| == 6 && Spells(Val, s, nums, trail, rest) && values == Vals(Val, nums)
  {
    if PortTuple(s) == Some(values) {
      var nums, trail, rest := NumberedIsJoined(Val, s, SIX);
      assert |nums| == SIX && Spells(Val, s, nums, trail, rest) && values == Vals(Val, nums);
    }
    forall nums, trail, rest | |nums| == SIX && Spells(Val, s, nums, trail, rest) && values == Vals(Val, nums)
      ensures PortTuple(s) == Some(values)
    {
      NumberedOfJoined(Val, nums, trail, rest);
    }
  }

  // ---- PASV and PORT ----

  /** The numbers that PASV prints: the address and then the port as they lie in memory,
      which for a socket address is most significant byte first. */
  function PasvNumbers(address: seq<byte>, sinPort: nat): (n: seq<byte>)
    requires |address| == 4 && sinPort < U16
    ensures |n| == 6
  {
    address + [sinPort % 0x100, sinPort / 0x100]
  }

  function Decimals(ns: seq<byte>): (nums: seq<seq<byte>>)
    ensures |nums| == |ns| && forall i | 0 <= i < |ns| :: nums[i] == Decimal(ns[i])
  {
    seq(|ns|, i requires 0 <= i < |ns| => Decimal(ns[i]))
  }

  /** sceNetHtons on a little-endian machine. */
  function Htons(port: nat): (n: nat)
    requires port < U16
    ensures n < U16 && n % 0x100 == port / 0x100 && n / 0x100 == port % 0x100
  {
    port % 0x100 * 0x100 + port / 0x100
  }

  /** The port that PORT computes from the last two numbers. */
  function PortOf(values: seq<int>): int
    requires |values| == 6
  {
    values[5] + values[4] * 256
  }

  lemma DecimalsSpell(ns: seq<byte>)
    ensures SmallNumerals(Val, Decimals(ns)) && Vals(Val, Decimals(ns)) == ns
  {
    forall i | 0 <= i < |ns|
      ensures Numeral(Decimals(ns)[i]) && Val(Decimals(ns)[i]) == ns[i]
    {
      DecimalSpells(ns[i]);
    }
  }

  /** Parsing the six numbers that PASV prints gives back the address and the port. */
  lemma PortInvertsPasv(address: seq<byte>, port: nat, trail: seq<byte>, rest: seq<byte>)
    requires |address| == 4 && port < U16 && IsTail(trail, rest)
    ensures var r := PortTuple(Joined(Decimals(PasvNumbers(address, Htons(port)))) + (trail + rest));
      r.Some? && r.value[..4] == address && PortOf(r.value) == port
  {
    var ns := PasvNumbers(address, Htons(port));
    DecimalsSpell(ns);
    NumberedOfJoined(Val, Decimals(ns), trail, rest);
    assert ns[..4] == address;
  }
}
