/** The check that keeps archive entries beneath the installation directory
    (is_safe_archive_path in package_installer.c). */
module ArchivePath {
  import opened Bytes

  const DOT: byte := 46
  const COLON: byte := 58
  const BACKSLASH: byte := 92

  /** The '/'-separated components, empty ones included. */
  function Components(s: seq<byte>): (cs: seq<seq<byte>>)
    ensures |cs| >= 1
  {
    if SLASH !in s then [s]
    else
      var k := FirstSlash(s);
      [s[..k]] + Components(s[k + 1..])
  }

  /** The position of the first '/', or the length. */
  function FirstSlash(s: seq<byte>): (k: nat)
    ensures k <= |s| && SLASH !in s[..k] && (k < |s| ==> s[k] == SLASH)
    ensures SLASH in s ==> k < |s|
  {
    if s == [] || s[0] == SLASH then 0 else 1 + FirstSlash(s[1..])
  }

  predicate GoodComponent(c: seq<byte>) {
    c != [] && c != [DOT] && c != [DOT, DOT]
  }

  function WithoutTrailingSlash(s: seq<byte>): seq<byte> {
    if s != [] && s[|s| - 1] == SLASH then s[..|s| - 1] else s
  }

  /** What the check means: relative, no drive or backslash, and every component names
      something; one trailing '/' is allowed. */
  predicate SafeName(s: seq<byte>) {
    COLON !in s && BACKSLASH !in s && AllGood(s)
  }

  predicate AllGood(s: seq<byte>) {
    forall c | c in Components(WithoutTrailingSlash(s)) :: GoodComponent(c)
  }

  /** The first slash is where any prefix without one ends at a slash. */
  lemma {:induction false} FirstSlashIs(s: seq<byte>, k: nat)
    requires k <= |s| && SLASH !in s[..k] && (k < |s| ==> s[k] == SLASH)
    ensures FirstSlash(s) == k
  {
    if k > 0 {
      assert s[0] in s[..k];
      assert s[1..][..k - 1] == s[..k][1..];
      FirstSlashIs(s[1..], k - 1);
    }
  }

  lemma SplitAt(s: seq<byte>, k: nat)
    requires k < |s| && SLASH !in s[..k] && s[k] == SLASH
    ensures Components(s) == [s[..k]] + Components(s[k + 1..])
  {
    FirstSlashIs(s, k);
    assert s[k] in s;
  }

  /** One round of the scan: the component before the slash, and the rest unless the slash ends the name. */
  lemma ScanStep(rest: seq<byte>, k: nat)
    requires k < |rest| && SLASH !in rest[..k] && rest[k] == SLASH
    ensures k + 1 == |rest| ==> Components(WithoutTrailingSlash(rest)) == [rest[..k]]
    ensures k + 1 < |rest| ==>
      Components(WithoutTrailingSlash(rest)) == [rest[..k]] + Components(WithoutTrailingSlash(rest[k + 1..]))
  {
    var t := WithoutTrailingSlash(rest);
    if k + 1 == |rest| {
      assert t == rest[..k];
    } else {
      assert t[..k] == rest[..k] && t[k + 1..] == WithoutTrailingSlash(rest[k + 1..]);
      SplitAt(t, k);
    }
  }

  /** The scan looks at the component up to the first slash or the end, then at the rest. */
  lemma AllGoodStep(rest: seq<byte>, k: nat)
    requires k <= |rest| && SLASH !in rest[..k] && (k < |rest| ==> rest[k] == SLASH)
    ensures AllGood(rest) <==> GoodComponent(rest[..k]) && (k + 1 >= |rest| || AllGood(rest[k + 1..]))
  {
    var cs := Components(WithoutTrailingSlash(rest));
    if k < |rest| {
      ScanStep(rest, k);
    } else {
      assert rest[..k] == rest && cs == [rest];
    }
    assert cs[0] == rest[..k];
    if k + 1 < |rest| {
      var more := Components(WithoutTrailingSlash(rest[k + 1..]));
      assert forall c :: c in cs <==> c == rest[..k] || c in more;
    }
  }

  /** The component that starts at i ends at `end`. */
  ghost predicate ComponentAt(path: seq<byte>, i: int, end: int) {
    0 <= i <= end <= |path| && SLASH !in path[i..end] && (end < |path| ==> path[end] == SLASH)
  }

  /** The test on the length and the first characters of a component. */
  predicate NamesSomething(path: seq<byte>, i: nat, end: nat)
    requires i <= end <= |path|
  {
    !(end == i || (end - i == 1 && path[i] == DOT) || (end - i == 2 && path[i] == DOT && path[i + 1] == DOT))
  }

  /** strchr(path + from, '/'), or the end of the string. */
  method FindSlash(path: seq<byte>, from: nat) returns (end: nat)
    requires from <= |path|
    ensures ComponentAt(path, from, end)
  {
    end := from;
    while end < |path| && path[end] != SLASH
      invariant from <= end <= |path| && SLASH !in path[from..end]
    {
      end := end + 1;
    }
  }

  lemma GoodPiece(path: seq<byte>, from: nat, end: nat)
    requires from <= end <= |path|
    ensures GoodComponent(path[from..end]) <==> NamesSomething(path, from, end)
  {
    var c := path[from..end];
    if end - from == 1 {
      assert c == [path[from]];
    } else if end - from == 2 {
      assert c == [path[from], path[from + 1]];
    }
  }

  /** What the scan has still to decide when it stands at position i. */
  ghost predicate GoodFrom(path: seq<byte>, i: nat)
    requires i <= |path|
  {
    AllGood(path[i..])
  }

  lemma GoodFromStep(path: seq<byte>, i: nat, end: nat)
    requires ComponentAt(path, i, end)
    ensures GoodFrom(path, i) <==> NamesSomething(path, i, end) && (end + 1 >= |path| || GoodFrom(path, end + 1))
  {
    GoodPiece(path, i, end);
    assert path[i..][..end - i] == path[i..end];
    AllGoodStep(path[i..], end - i);
    if end + 1 < |path| {
      assert path[i..][end - i + 1..] == path[end + 1..];
    }
  }

  ghost predicate Stepwise(path: seq<byte>, accepts: int -> bool) {
    forall i, end :: ComponentAt(path, i, end) ==>
      (accepts(i) <==> NamesSomething(path, i, end) && (end + 1 >= |path| || accepts(end + 1)))
  }

  lemma GoodFromIsStepwise(path: seq<byte>, accepts: int -> bool)
    requires forall i :: accepts(i) <==> 0 <= i <= |path| && GoodFrom(path, i)
    ensures Stepwise(path, accepts)
  {
    forall i, end | ComponentAt(path, i, end)
      ensures accepts(i) <==> NamesSomething(path, i, end) && (end + 1 >= |path| || accepts(end + 1))
    {
      GoodFromStep(path, i, end);
    }
  }

  /** The loop of is_safe_archive_path.  `accepts` is what is left to decide at each position. */
  method Scan(path: seq<byte>, ghost accepts: int -> bool) returns (safe: bool)
    requires path != []
    requires Stepwise(path, accepts)
    ensures safe == accepts(0)
  {
    var component := 0;
    while component < |path|
      invariant component <= |path|
      invariant if component < |path| then accepts(0) <==> accepts(component) else accepts(0)
    {
      var end := FindSlash(path, component);
      var length := end - component;
      if length == 0 || (length == 1 && path[component] == DOT) ||
         (length == 2 && path[component] == DOT && path[component + 1] == DOT) {
        return false;
      }
      if end == |path| || end + 1 == |path| {
        return true;
      }
      component := end + 1;
    }
    return true;
  }

  lemma EmptyStart(path: seq<byte>)
    requires path == [] || path[0] == SLASH
    ensures !AllGood(path)
  {
    AllGoodStep(path, 0);
  }

  /** is_safe_archive_path on the characters of a C string. */
  method IsSafeArchivePath(path: seq<byte>) returns (safe: bool)
    ensures safe == SafeName(path)
  {
    if path == [] || path[0] == SLASH || path[0] == BACKSLASH || COLON in path || BACKSLASH in path {
      if path == [] || path[0] == SLASH {
        EmptyStart(path);
      }
      return false;
    }
    ghost var accepts := i => 0 <= i <= |path| && GoodFrom(path, i);
    GoodFromIsStepwise(path, accepts);
    safe := Scan(path, accepts);
    assert path[0..] == path;
  }

  // ---- what the check buys ----

  /** Lexical resolution on a stack of directory names; None when ".." leaves the stack. */
  datatype Resolved = Escapes | At(stack: seq<seq<byte>>)

  function Resolve(components: seq<seq<byte>>, stack: seq<seq<byte>>): Resolved {
    if components == [] then At(stack)
    else if components[0] == [] || components[0] == [DOT] then Resolve(components[1..], stack)
    else if components[0] == [DOT, DOT] then
      if stack == [] then Escapes else Resolve(components[1..], stack[..|stack| - 1])
    else Resolve(components[1..], stack + [components[0]])
  }

  lemma {:induction false} GoodComponentsPush(components: seq<seq<byte>>, stack: seq<seq<byte>>)
    requires forall c | c in components :: GoodComponent(c)
    ensures Resolve(components, stack) == At(stack + components)
  {
    if components == [] {
      assert stack + components == stack;
    } else {
      assert GoodComponent(components[0]);
      GoodComponentsPush(components[1..], stack + [components[0]]);
      assert stack + [components[0]] + components[1..] == stack + components;
    }
  }

  lemma JoinAt(a: seq<byte>, b: seq<byte>, k: nat)
    requires k < |a|
    ensures var s := a + [SLASH] + b; s[..k] == a[..k] && s[k] == a[k] && s[k + 1..] == a[k + 1..] + [SLASH] + b
  {
  }

  lemma JoinEnd(a: seq<byte>, b: seq<byte>)
    ensures var s := a + [SLASH] + b; s[..|a|] == a && s[|a|] == SLASH && s[|a| + 1..] == b
  {
  }

  lemma JoinAtSlash(a: seq<byte>, b: seq<byte>, k: nat)
    requires k < |a| && SLASH !in a[..k] && a[k] == SLASH
    ensures Components(a + [SLASH] + b) == [a[..k]] + Components(a[k + 1..] + [SLASH] + b)
  {
    JoinAt(a, b, k);
    SplitAt(a + [SLASH] + b, k);
  }

  lemma JoinWithoutSlash(a: seq<byte>, b: seq<byte>)
    requires SLASH !in a
    ensures Components(a + [SLASH] + b) == [a] + Components(b)
  {
    JoinEnd(a, b);
    SplitAt(a + [SLASH] + b, |a|);
  }

  lemma PrependJoin(c: seq<byte>, a: seq<seq<byte>>, b: seq<seq<byte>>)
    ensures [c] + (a + b) == ([c] + a) + b
  {
  }

  lemma {:induction false} ComponentsOfJoin(a: seq<byte>, b: seq<byte>)
    ensures Components(a + [SLASH] + b) == Components(a) + Components(b)
    decreases |a|
  {
    if SLASH in a {
      var k := FirstSlash(a);
      JoinAtSlash(a, b, k);
      ComponentsOfJoin(a[k + 1..], b);
      assert Components(a) == [a[..k]] + Components(a[k + 1..]);
      PrependJoin(a[..k], Components(a[k + 1..]), Components(b));
    } else {
      JoinWithoutSlash(a, b);
    }
  }

  lemma {:induction false} ResolveInTwo(a: seq<seq<byte>>, b: seq<seq<byte>>, stack: seq<seq<byte>>)
    requires Resolve(a, stack).At?
    ensures Resolve(a + b, stack) == Resolve(b, Resolve(a, stack).stack)
    decreases |a|
  {
    if a == [] {
      assert a + b == b;
    } else {
      assert (a + b)[1..] == a[1..] + b;
      if a[0] == [] || a[0] == [DOT] {
        ResolveInTwo(a[1..], b, stack);
      } else if a[0] == [DOT, DOT] {
        ResolveInTwo(a[1..], b, stack[..|stack| - 1]);
      } else {
        ResolveInTwo(a[1..], b, stack + [a[0]]);
      }
    }
  }

  /** An accepted name resolves to a place strictly beneath the directory it is joined to:
      nothing is popped, and each of its components is one level. */
  lemma SafeNameStaysBeneath(stage: seq<byte>, name: seq<byte>)
    requires SafeName(name) && Resolve(Components(stage), []).At?
    ensures Resolve(Components(stage + [SLASH] + WithoutTrailingSlash(name)), []) ==
            At(Resolve(Components(stage), []).stack + Components(WithoutTrailingSlash(name)))
    ensures |Components(WithoutTrailingSlash(name))| >= 1
  {
    var inner := WithoutTrailingSlash(name);
    ComponentsOfJoin(stage, inner);
    ResolveInTwo(Components(stage), Components(inner), []);
    GoodComponentsPush(Components(inner), Resolve(Components(stage), []).stack);
  }

  lemma {:induction false} ResolveBound(components: seq<seq<byte>>, stack: seq<seq<byte>>)
    requires Resolve(components, stack).At?
    ensures |Resolve(components, stack).stack| <= |stack| + |components|
    ensures (exists c | c in components :: !GoodComponent(c)) ==> |Resolve(components, stack).stack| < |stack| + |components|
  {
    if components != [] {
      var c := components[0];
      var next := if c == [] || c == [DOT] then stack else if c == [DOT, DOT] then stack[..|stack| - 1] else stack + [c];
      ResolveBound(components[1..], next);
      assert forall d | d in components :: d == c || d in components[1..];
    }
  }

  /** The names accepted are exactly those without ':' and '\' that go down one level for each
      component: none is "", "." or "..", and the first is not empty, so the name is relative. */
  lemma SafeNameIsExact(name: seq<byte>)
    ensures var cs := Components(WithoutTrailingSlash(name));
      SafeName(name) <==> 58 !in name && 92 !in name && Resolve(cs, []) == At(cs)
  {
    var cs := Components(WithoutTrailingSlash(name));
    if AllGood(name) {
      GoodComponentsPush(cs, []);
      assert [] + cs == cs;
    } else if Resolve(cs, []).At? {
      ResolveBound(cs, []);
    }
  }
}
