/** Runs put together, and what can be reached from a state. */
module InterlockRuns {
  import opened Interlock

  lemma {:induction false} ExecInTwo(s: State, first: seq<Action>, second: seq<Action>)
    requires Exec(s, first).To?
    ensures Exec(s, first + second) == Exec(Exec(s, first).state, second)
    decreases |first|
  {
    if first == [] {
      assert first + second == second;
    } else {
      assert (first + second)[1..] == first[1..] + second;
      ExecInTwo(Step(s, first[0]).state, first[1..], second);
    }
  }

  ghost predicate Leads(s: State, t: State) {
    exists run :: Exec(s, run) == To(t)
  }

  ghost predicate Reachable(s: State) {
    Leads(Initial(), s)
  }

  lemma Stays(s: State)
    ensures Leads(s, s)
  {
    assert Exec(s, []) == To(s);
  }

  lemma Follows(s: State, t: State, u: State)
    requires Leads(s, t) && Leads(t, u)
    ensures Leads(s, u)
  {
    var first :| Exec(s, first) == To(t);
    var second :| Exec(t, second) == To(u);
    ExecInTwo(s, first, second);
    assert Exec(s, first + second) == To(u);
  }

  lemma OneMore(s: State, t: State, a: Action, u: State)
    requires Leads(s, t) && Step(t, a) == To(u)
    ensures Leads(s, u)
  {
    assert [a][1..] == [] && Exec(t, [a]) == To(u);
    Follows(s, t, u);
  }
}
