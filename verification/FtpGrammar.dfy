/** Numerals, blanks and line ends in the arguments of FTP commands: what the texts mean. */
module FtpGrammar {
  import opened Options
  import opened Bytes

  const COMMA: byte := 44

  predicate IsBlank(c: byte) { c == 32 || c == 9 }

  predicate IsDigit(c: byte) { 48 <= c <= 57 }

  predicate IsLineEnd(c: byte) { c == 13 || c == 10 }

  /** The first position from i on, at or before the end, whose byte is not in the class. */
  function Skip(kind: byte -> bool, s: seq<byte>, i: nat): (r: nat)
    requires i <= |s|
    ensures i <= r <= |s| && (r < |s| ==> !kind(s[r]))
    decreases |s| - i
  {
    if i < |s| && kind(s[i]) then Skip(kind, s, i + 1) else i
  }

  ghost predicate All(kind: byte -> bool, s: seq<byte>) {
    forall c | c in s :: kind(c)
  }

  lemma {:induction false} SkipCovers(kind: byte -> bool, s: seq<byte>, i: nat)
    requires i <= |s|
    ensures All(kind, s[i..Skip(kind, s, i)])
    decreases |s| - i
  {
    if i < |s| && kind(s[i]) {
      SkipCovers(kind, s, i + 1);
      var r := Skip(kind, s, i + 1);
      assert s[i..r] == [s[i]] + s[i + 1..r];
    }
  }

  lemma {:induction false} SkipIs(kind: byte -> bool, s: seq<byte>, i: nat, r: nat)
    requires i <= r <= |s| && All(kind, s[i..r]) && (r < |s| ==> !kind(s[r]))
    ensures Skip(kind, s, i) == r
    decreases |s| - i
  {
    if i < r {
      assert s[i] in s[i..r];
      forall c | c in s[i + 1..r]
        ensures kind(c)
      {
        assert s[i + 1..r] == s[i..r][1..];
      }
      SkipIs(kind, s, i + 1, r);
    }
  }

  /** The number that digits spell. */
  function Val(ds: seq<byte>): int {
    if ds == [] then 0 else 10 * Val(ds[..|ds| - 1]) + (ds[|ds| - 1] as int - 48)
  }

  lemma {:induction false} ValGrows(ds: seq<byte>, n: nat)
    requires n <= |ds| && All(IsDigit, ds)
    ensures 0 <= Val(ds[..n]) <= Val(ds)
    decreases |ds|
  {
    if n < |ds| {
      var m := |ds| - 1;
      assert ds[m] in ds;
      assert ds[..m][..n] == ds[..n];
      ValGrows(ds[..m], n);
    } else if n > 0 {
      assert ds[..n] == ds;
      assert ds[n - 1] in ds;
      ValGrows(ds[..n - 1], n - 1);
      assert ds[..n - 1][..n - 1] == ds[..n - 1];
    }
  }

  /** Decimal printing. */
  function Decimal(n: nat): (ds: seq<byte>)
    ensures ds != []
  {
    if n < 10 then [48 + n] else Decimal(n / 10) + [48 + n % 10]
  }

  lemma {:induction false} DecimalSpells(n: nat)
    ensures All(IsDigit, Decimal(n)) && Val(Decimal(n)) == n
    decreases n
  {
    if n >= 10 {
      DecimalSpells(n / 10);
      var ds := Decimal(n);
      assert ds[..|ds| - 1] == Decimal(n / 10);
    } else {
      assert [48 + n][..0] == [];
    }
  }

  /** The text ends here, or its line does. */
  predicate AtEnd(s: seq<byte>, i: nat)
    requires i <= |s|
  {
    i == |s| || IsLineEnd(s[i])
  }

  // ---- REST ----

  const REST_MAX := 0x7fff_ffff

  /** Blanks, digits, blanks, and the end; no more than the limit. */
  function RestOffset(s: seq<byte>): Option<int> {
    var from := Skip(IsBlank, s, 0);
    var to := Skip(IsDigit, s, from);
    var end := Skip(IsBlank, s, to);
    if to > from && Val(s[from..to]) <= REST_MAX && AtEnd(s, end) then Some(Val(s[from..to])) else None
  }

  /** One decimal digit or more. */
  ghost predicate Numeral(ds: seq<byte>) {
    ds != [] && forall c | c in ds :: 48 <= c <= 57
  }

  /** Blanks and tabs. */
  ghost predicate Blanks(s: seq<byte>) {
    forall c | c in s :: c == 32 || c == 9
  }

  /** Blanks, and then nothing, or the end of the line and anything. */
  ghost predicate IsTail(trail: seq<byte>, rest: seq<byte>) {
    Blanks(trail) && (rest == [] || rest[0] == 13 || rest[0] == 10)
  }

  lemma SkipsTail(s: seq<byte>, i: nat, trail: seq<byte>, rest: seq<byte>)
    requires i <= |s| && s[i..] == trail + rest && IsTail(trail, rest)
    ensures AtEnd(s, Skip(IsBlank, s, i))
  {
    var r := i + |trail|;
    assert s[i..r] == s[i..][..|trail|] == trail;
    if r < |s| {
      assert s[r] == s[i..][|trail|] == rest[0];
    }
    SkipIs(IsBlank, s, i, r);
  }

  /** Whatever digits, with any number of leading zeros: the value, up to the limit. */
  lemma RestOffsetOfNumeral(lead: seq<byte>, ds: seq<byte>, trail: seq<byte>, rest: seq<byte>)
    requires Blanks(lead) && Numeral(ds) && IsTail(trail, rest)
    ensures RestOffset(lead + ds + trail + rest) == if Val(ds) <= REST_MAX then Some(Val(ds)) else None
  {
    var s := lead + ds + trail + rest;
    var from, to := |lead|, |lead| + |ds|;
    assert s[0..from] == lead && s[from..to] == ds && s[to..] == trail + rest;
    assert s[from] == ds[0] && ds[0] in ds;
    SkipIs(IsBlank, s, 0, from);
    if to < |s| {
      assert s[to] == (trail + rest)[0];
      if trail != [] {
        assert trail[0] in trail;
      }
    }
    SkipIs(IsDigit, s, from, to);
    SkipsTail(s, to, trail, rest);
  }

  ghost predicate SpellsOffset(s: seq<byte>, lead: seq<byte>, ds: seq<byte>, trail: seq<byte>, rest: seq<byte>) {
    s == lead + ds + trail + rest && Blanks(lead) && Numeral(ds) && IsTail(trail, rest)
  }

  lemma RestOffsetIsNumeral(s: seq<byte>) returns (lead: seq<byte>, ds: seq<byte>, trail: seq<byte>, rest: seq<byte>)
    requires RestOffset(s).Some?
    ensures SpellsOffset(s, lead, ds, trail, rest) && Val(ds) == RestOffset(s).value <= REST_MAX
  {
    var from := Skip(IsBlank, s, 0);
    var to := Skip(IsDigit, s, from);
    var end := Skip(IsBlank, s, to);
    SkipCovers(IsBlank, s, 0);
    SkipCovers(IsDigit, s, from);
    SkipCovers(IsBlank, s, to);
    lead, ds, trail, rest := s[0..from], s[from..to], s[to..end], s[end..];
  }

  /** The parser accepts exactly blanks, a numeral of value up to the limit with any number
      of leading zeros, blanks and the end of the line, and reads that value. */
  lemma RestOffsetIsExact(s: seq<byte>, n: int)
    ensures RestOffset(s) == Some(n) <==>
      exists lead, ds, trail, rest :: SpellsOffset(s, lead, ds, trail, rest) && n == Val(ds) <= 2147483647
  {
    if RestOffset(s) == Some(n) {
      var lead, ds, trail, rest := RestOffsetIsNumeral(s);
      assert SpellsOffset(s, lead, ds, trail, rest) && n == Val(ds) <= 2147483647;
    }
    forall lead, ds, trail, rest | SpellsOffset(s, lead, ds, trail, rest) && n == Val(ds) <= 2147483647
      ensures RestOffset(s) == Some(n)
    {
      RestOffsetOfNumeral(lead, ds, trail, rest);
    }
  }

  /** Printing an offset and parsing it back. */
  lemma RestOffsetOfDecimal(n: nat)
    ensures RestOffset(Decimal(n)) == if n <= 2147483647 then Some(n) else None
  {
    DecimalSpells(n);
    RestOffsetOfNumeral([], Decimal(n), [], []);
    assert [] + Decimal(n) + [] + [] == Decimal(n);
  }
}
