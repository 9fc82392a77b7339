/** What the intrusive client list means, as a sequence from head to tail. */
module ListSpec {

  const MAX_CLIENTS := 8

  ghost predicate NoDuplicates<T>(s: seq<T>) {
    forall i, j :: 0 <= i < j < |s| ==> s[i] != s[j]
  }

  /** The sequence without (the first occurrence of) x. */
  function Without<T(==)>(s: seq<T>, x: T): seq<T> {
    if s == [] then []
    else if s[0] == x then s[1..]
    else [s[0]] + Without(s[1..], x)
  }

  /** Taking x out of a duplicate-free sequence removes x and nothing else. */
  lemma {:induction false} WithoutIsRemoval<T>(s: seq<T>, x: T)
    requires NoDuplicates(s)
    ensures NoDuplicates(Without(s, x)) && x !in Without(s, x)
    ensures forall y :: y in Without(s, x) <==> y in s && y != x
    ensures |Without(s, x)| == if x in s then |s| - 1 else |s|
  {
    if s != [] {
      assert forall y :: y in s <==> y == s[0] || y in s[1..];
      if s[0] == x {
        assert x !in s[1..];
      } else {
        WithoutIsRemoval(s[1..], x);
        assert s[0] !in s[1..];
      }
    }
  }

  lemma {:induction false} WithoutAt<T>(s: seq<T>, k: nat)
    requires NoDuplicates(s) && k < |s|
    ensures Without(s, s[k]) == s[..k] + s[k + 1..]
  {
    if k > 0 {
      WithoutAt(s[1..], k - 1);
    }
  }
}
