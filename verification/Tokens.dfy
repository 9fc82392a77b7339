/** The words of a command line, and the text that spells them. */
module Tokens {
  import opened Bytes

  const NEWLINE: byte := 10

  predicate IsSeparator(c: byte) {
    c == 32 || c == 9 || c == 13
  }

  predicate IsEnd(c: byte) {
    c == 0 || c == NEWLINE
  }

  predicate IsWordChar(c: byte) {
    !IsSeparator(c) && !IsEnd(c)
  }

  /** The bytes before the first newline or NUL. */
  function Line(b: seq<byte>): (s: seq<byte>)
    ensures |s| <= |b|
  {
    if b == [] || IsEnd(b[0]) then [] else [b[0]] + Line(b[1..])
  }

  /** The length of the run of non-separators that s starts with. */
  function RunLength(s: seq<byte>): (n: nat)
    ensures n <= |s|
    ensures s != [] && !IsSeparator(s[0]) ==> n > 0
  {
    if s == [] || IsSeparator(s[0]) then 0 else 1 + RunLength(s[1..])
  }

  /** The separated words of a line. */
  function Words(s: seq<byte>): seq<seq<byte>> {
    if s == [] then []
    else if IsSeparator(s[0]) then Words(s[1..])
    else [s[..RunLength(s)]] + Words(s[RunLength(s)..])
  }

  /** A word has none of NUL, tab, newline, carriage return and blank. */
  ghost predicate IsWord(w: seq<byte>) {
    w != [] && forall c | c in w :: c != 0 && c != 9 && c != 10 && c != 13 && c != 32
  }

  // ---- lines ----

  lemma {:induction false} LineIs(b: seq<byte>, n: nat)
    requires n <= |b| && (forall c | c in b[..n] :: !IsEnd(c)) && (n < |b| ==> IsEnd(b[n]))
    ensures Line(b) == b[..n]
  {
    if n > 0 {
      assert b[0] in b[..n];
      assert b[1..][..n - 1] == b[..n][1..];
      LineIs(b[1..], n - 1);
    }
  }

  lemma {:induction false} LineEnds(b: seq<byte>)
    ensures var n := |Line(b)|; Line(b) == b[..n] && (forall c | c in b[..n] :: !IsEnd(c)) && (n < |b| ==> IsEnd(b[n]))
  {
    if b != [] && !IsEnd(b[0]) {
      LineEnds(b[1..]);
      var n := |Line(b[1..])|;
      assert b[..n + 1] == [b[0]] + b[1..][..n];
    }
  }

  /** What follows the end of a line, and how much of it is there, changes nothing. */
  lemma LineOfPrefix(b: seq<byte>, n: nat)
    requires n <= |b| && NEWLINE in b[..n]
    ensures Line(b[..n]) == Line(b)
  {
    var p := b[..n];
    LineEnds(p);
    var k := |Line(p)|;
    if k == n {
      assert p[..k] == p && IsEnd(NEWLINE);
    }
    assert p[..k] == b[..k];
    LineIs(b, k);
  }

  // ---- words ----

  lemma {:induction false} RunIs(s: seq<byte>, n: nat)
    requires n <= |s| && (forall c | c in s[..n] :: !IsSeparator(c)) && (n < |s| ==> IsSeparator(s[n]))
    ensures RunLength(s) == n
  {
    if n > 0 {
      assert s[0] in s[..n];
      assert s[1..][..n - 1] == s[..n][1..];
      RunIs(s[1..], n - 1);
    }
  }

  /** Blanks, tabs and carriage returns. */
  ghost predicate IsGap(gap: seq<byte>) {
    forall c | c in gap :: c == 32 || c == 9 || c == 13
  }

  /** Leading separators do not matter. */
  lemma {:induction false} SkipSeparators(gap: seq<byte>, s: seq<byte>)
    requires IsGap(gap)
    ensures Words(gap + s) == Words(s)
  {
    if gap == [] {
      assert gap + s == s;
    } else {
      assert gap[0] in gap && forall c | c in gap[1..] :: c in gap;
      assert (gap + s)[0] == gap[0] && (gap + s)[1..] == gap[1..] + s;
      SkipSeparators(gap[1..], s);
    }
  }

  lemma TakeWord(w: seq<byte>, s: seq<byte>)
    requires IsWord(w) && (s != [] ==> IsSeparator(s[0]))
    ensures Words(w + s) == [w] + Words(s)
  {
    var all := w + s;
    assert all[..|w|] == w && all[|w|..] == s;
    assert all[0] in w;
    RunIs(all, |w|);
  }

  // ---- the words of a command, front to back ----

  /** Blanks and words in turn: a gap before each word. */
  function Spelled(gaps: seq<seq<byte>>, ws: seq<seq<byte>>): seq<byte>
    requires |gaps| == |ws|
  {
    if ws == [] then [] else gaps[0] + (ws[0] + Spelled(gaps[1..], ws[1..]))
  }

  /** The gap between two words is not empty; the one before the first may be. */
  ghost predicate Separated(gaps: seq<seq<byte>>) {
    (forall g | g in gaps :: IsGap(g)) && forall i | 0 < i < |gaps| :: gaps[i] != []
  }

  lemma {:induction false} WordsOfSpelled(gaps: seq<seq<byte>>, ws: seq<seq<byte>>, trail: seq<byte>)
    requires |gaps| == |ws| && Separated(gaps) && IsGap(trail) && forall w | w in ws :: IsWord(w)
    ensures Words(Spelled(gaps, ws) + trail) == ws
    decreases |ws|
  {
    if ws == [] {
      assert Spelled(gaps, ws) + trail == trail + [];
      SkipSeparators(trail, []);
    } else {
      var rest := Spelled(gaps[1..], ws[1..]);
      assert Spelled(gaps, ws) + trail == gaps[0] + (ws[0] + (rest + trail));
      if |ws| > 1 {
        assert gaps[1..][0] == gaps[1] && gaps[1] in gaps && gaps[1] != [] && gaps[1][0] in gaps[1];
        assert (rest + trail)[0] == gaps[1][0];
      } else {
        assert rest + trail == trail && (trail != [] ==> trail[0] in trail);
      }
      TakeWord(ws[0], rest + trail);
      assert gaps[0] in gaps;
      SkipSeparators(gaps[0], ws[0] + (rest + trail));
      assert forall i | 0 <= i < |gaps| - 1 :: gaps[1..][i] == gaps[i + 1];
      WordsOfSpelled(gaps[1..], ws[1..], trail);
    }
  }

  lemma {:induction false} SpelledHasNoEnd(gaps: seq<seq<byte>>, ws: seq<seq<byte>>)
    requires |gaps| == |ws| && (forall g | g in gaps :: IsGap(g)) && forall w | w in ws :: IsWord(w)
    ensures forall c | c in Spelled(gaps, ws) :: !IsEnd(c)
    decreases |ws|
  {
    if ws != [] {
      SpelledHasNoEnd(gaps[1..], ws[1..]);
      var rest := Spelled(gaps[1..], ws[1..]);
      assert gaps[0] in gaps && ws[0] in ws;
      forall c | c in Spelled(gaps, ws)
        ensures !IsEnd(c)
      {
        assert c in gaps[0] || c in ws[0] || c in rest;
      }
    }
  }

  /** The bytes b spell the words with these gaps, up to a newline, a NUL or their end. */
  ghost predicate SpelledAs(b: seq<byte>, ws: seq<seq<byte>>, gaps: seq<seq<byte>>, trail: seq<byte>, rest: seq<byte>) {
    && |gaps| == |ws| && Separated(gaps) && IsGap(trail) && (forall w | w in ws :: IsWord(w))
    && (rest == [] || rest[0] == 10 || rest[0] == 0)
    && b == Spelled(gaps, ws) + trail + rest
  }

  /** What is spelt out is read back. */
  lemma ParseInvertsSpelling(b: seq<byte>, ws: seq<seq<byte>>, gaps: seq<seq<byte>>, trail: seq<byte>, rest: seq<byte>)
    requires SpelledAs(b, ws, gaps, trail, rest)
    ensures Parse(b) == ws
  {
    var line := Spelled(gaps, ws) + trail;
    SpelledHasNoEnd(gaps, ws);
    assert b[..|line|] == line;
    forall c | c in line
      ensures !IsEnd(c)
    {
      assert c in Spelled(gaps, ws) || c in trail;
    }
    LineIs(b, |line|);
    WordsOfSpelled(gaps, ws, trail);
  }

  // ---- one step of a scan over the rest of the buffer ----

  function Parse(b: seq<byte>): seq<seq<byte>> {
    Words(Line(b))
  }

  lemma ParseSeparator(b: seq<byte>)
    requires b != [] && IsSeparator(b[0])
    ensures Parse(b) == Parse(b[1..])
  {
    assert ([b[0]] + Line(b[1..]))[1..] == Line(b[1..]);
  }

  lemma ParseEnd(b: seq<byte>)
    requires b == [] || IsEnd(b[0])
    ensures Parse(b) == []
  {
  }

  /** The word at the front, and then nothing, or what is after one separator. */
  lemma ParseWord(b: seq<byte>, n: nat)
    requires n <= |b| && IsWord(b[..n]) && (n < |b| ==> !IsWordChar(b[n]))
    ensures Parse(b) == [b[..n]] + (if n == |b| || IsEnd(b[n]) then [] else Parse(b[n + 1..]))
  {
    var w := b[..n];
    if n == |b| || IsEnd(b[n]) {
      LineIs(b, n);
      TakeWord(w, []);
      assert w + [] == w;
    } else {
      var tail := b[n + 1..];
      LineEnds(tail);
      var k := |Line(tail)|;
      var line := w + ([b[n]] + Line(tail));
      assert b[..n + 1 + k] == line;
      forall c | c in line
        ensures !IsEnd(c)
      {
        assert c in w || c == b[n] || c in Line(tail);
      }
      LineIs(b, n + 1 + k);
      TakeWord(w, [b[n]] + Line(tail));
      SkipSeparators([b[n]], Line(tail));
    }
  }

  // ---- every line is the spelling of its words ----

  lemma {:induction false} FrontWord(b: seq<byte>) returns (n: nat)
    requires b != [] && IsWordChar(b[0])
    ensures 0 < n <= |b| && IsWord(b[..n]) && (n < |b| ==> !IsWordChar(b[n]))
  {
    n := 1;
    if |b| > 1 && IsWordChar(b[1]) {
      n := FrontWord(b[1..]);
      assert b[..n + 1] == [b[0]] + b[1..][..n];
      n := n + 1;
    }
  }

  lemma SpelledWithBlank(c: byte, b: seq<byte>, ws: seq<seq<byte>>, gaps: seq<seq<byte>>, trail: seq<byte>, rest: seq<byte>)
    returns (moreGaps: seq<seq<byte>>, moreTrail: seq<byte>)
    requires SpelledAs(b, ws, gaps, trail, rest) && IsSeparator(c)
    ensures SpelledAs([c] + b, ws, moreGaps, moreTrail, rest) && (ws != [] ==> moreGaps[0] != [])
  {
    moreGaps, moreTrail := gaps, trail;
    if ws == [] {
      moreTrail := [c] + trail;
      assert [c] + b == Spelled(gaps, ws) + moreTrail + rest;
    } else {
      moreGaps := [[c] + gaps[0]] + gaps[1..];
      assert moreGaps[1..] == gaps[1..] && gaps[0] in gaps;
      assert Spelled(moreGaps, ws) == [c] + Spelled(gaps, ws);
      forall g | g in moreGaps
        ensures IsGap(g)
      {
        assert g == [c] + gaps[0] || g in gaps;
      }
    }
  }

  lemma SpelledWithWord(w: seq<byte>, b: seq<byte>, ws: seq<seq<byte>>, gaps: seq<seq<byte>>, trail: seq<byte>, rest: seq<byte>)
    requires SpelledAs(b, ws, gaps, trail, rest) && IsWord(w) && (ws != [] ==> gaps[0] != [])
    ensures SpelledAs(w + b, [w] + ws, [[]] + gaps, trail, rest)
  {
    var moreGaps, moreWs := [[]] + gaps, [w] + ws;
    assert moreGaps[1..] == gaps && moreWs[1..] == ws;
    assert Spelled(moreGaps, moreWs) == w + Spelled(gaps, ws);
    forall g | g in moreGaps
      ensures IsGap(g)
    {
      assert g == [] || g in gaps;
    }
  }

  lemma ParseFront(b: seq<byte>, n: nat)
    requires n <= |b| && IsWord(b[..n]) && (n < |b| ==> !IsWordChar(b[n]))
    ensures Parse(b) == [b[..n]] + Parse(b[n..])
    ensures Parse(b[n..]) != [] ==> n < |b| && IsSeparator(b[n])
  {
    ParseWord(b, n);
    if n < |b| && IsSeparator(b[n]) {
      ParseSeparator(b[n..]);
      assert b[n..][1..] == b[n + 1..];
    } else {
      ParseEnd(b[n..]);
    }
  }

  /** A spelling that starts with a gap when its text starts with a separator. */
  ghost predicate SpelledFrom(b: seq<byte>, ws: seq<seq<byte>>, gaps: seq<seq<byte>>, trail: seq<byte>, rest: seq<byte>) {
    SpelledAs(b, ws, gaps, trail, rest) && (b != [] && IsSeparator(b[0]) && ws != [] ==> gaps[0] != [])
  }

  lemma SpellingEnd(b: seq<byte>)
    requires b == [] || IsEnd(b[0])
    ensures Parse(b) == [] && SpelledFrom(b, [], [], [], b)
  {
    assert b == Spelled([], []) + [] + b;
  }

  lemma SpellingBlank(b: seq<byte>, ws: seq<seq<byte>>, gaps: seq<seq<byte>>, trail: seq<byte>, rest: seq<byte>)
    returns (moreGaps: seq<seq<byte>>, moreTrail: seq<byte>)
    requires b != [] && IsSeparator(b[0]) && SpelledFrom(b[1..], ws, gaps, trail, rest)
    ensures SpelledFrom(b, ws, moreGaps, moreTrail, rest)
  {
    moreGaps, moreTrail := SpelledWithBlank(b[0], b[1..], ws, gaps, trail, rest);
    assert [b[0]] + b[1..] == b;
  }

  lemma SpellingWord(b: seq<byte>, n: nat, ws: seq<seq<byte>>, gaps: seq<seq<byte>>, trail: seq<byte>, rest: seq<byte>)
    requires 0 < n <= |b| && IsWord(b[..n]) && IsWordChar(b[0]) && (ws != [] ==> n < |b| && IsSeparator(b[n]))
    requires SpelledFrom(b[n..], ws, gaps, trail, rest)
    ensures SpelledFrom(b, [b[..n]] + ws, [[]] + gaps, trail, rest)
  {
    SpelledWithWord(b[..n], b[n..], ws, gaps, trail, rest);
    assert b[..n] + b[n..] == b;
  }

  lemma {:induction false} SpellingOf(b: seq<byte>) returns (gaps: seq<seq<byte>>, trail: seq<byte>, rest: seq<byte>)
    ensures SpelledFrom(b, Parse(b), gaps, trail, rest)
    decreases |b|
  {
    if b == [] || IsEnd(b[0]) {
      SpellingEnd(b);
      gaps, trail, rest := [], [], b;
    } else if IsSeparator(b[0]) {
      ParseSeparator(b);
      gaps, trail, rest := SpellingOf(b[1..]);
      gaps, trail := SpellingBlank(b, Parse(b[1..]), gaps, trail, rest);
    } else {
      var n := FrontWord(b);
      ParseFront(b, n);
      gaps, trail, rest := SpellingOf(b[n..]);
      SpellingWord(b, n, Parse(b[n..]), gaps, trail, rest);
      gaps := [[]] + gaps;
    }
  }

  ghost predicate Spells(b: seq<byte>, ws: seq<seq<byte>>) {
    exists gaps, trail, rest :: SpelledAs(b, ws, gaps, trail, rest)
  }

  /** The words read are exactly those that the bytes spell. */
  lemma ParseIsExact(b: seq<byte>, ws: seq<seq<byte>>)
    ensures Parse(b) == ws <==> Spells(b, ws)
  {
    var gaps, trail, rest := SpellingOf(b);
    if Spells(b, ws) {
      var g, t, r :| SpelledAs(b, ws, g, t, r);
      ParseInvertsSpelling(b, ws, g, t, r);
    }
  }
}
