/** What can follow the clearing of transfer_active in teardown, and what cannot. */
module InterlockExact {
  import opened Options
  import opened Interlock
  import opened InterlockInvariant
  import opened InterlockSafety
  import opened InterlockRuns
  import opened InterlockDrain

  /** Teardown joins detached clients, outside the mutex. */
  predicate Joining(t: State) {
    t.teardown.Join? && t.mutex == Free && t.numberClients == 0 && !t.transferActive
  }

  function CallerWith(t: State, r: CallerId, pc: CallerPc, quiesce: bool, owner: Option<CallerId>): State {
    t.(callers := t.callers[r := pc], quiesce := quiesce, guardOwner := owner)
  }

  lemma CallerGoes(s: State, t: State, r: CallerId, pc: CallerPc, m: Mutex)
    requires Leads(s, t) && r in t.callers && CallerStep(t, r) == To(MoveCaller(t, r, pc).(mutex := m))
    ensures Leads(s, t.(callers := t.callers[r := pc], mutex := m))
  {
    OneMore(s, t, CallerAct(r), t.(callers := t.callers[r := pc], mutex := m));
  }

  // ---- what a reboot call can do in the drain ----

  lemma LocksAndReads(t: State, r: CallerId)
    requires Joining(t) && r in t.callers && t.callers[r] == Lock
    ensures Leads(t, t.(callers := t.callers[r := Decide(0, false)], mutex := Held(ByCaller(r))))
  {
    Stays(t);
    CallerGoes(t, t, r, ReadClients, Held(ByCaller(r)));
    var t1 := t.(callers := t.callers[r := ReadClients], mutex := Held(ByCaller(r)));
    CallerGoes(t, t1, r, ReadTransfer(0), t1.mutex);
    var t2 := t1.(callers := t1.callers[r := ReadTransfer(0)]);
    CallerGoes(t, t2, r, Decide(0, false), t2.mutex);
    assert t.callers[r := ReadClients][r := ReadTransfer(0)][r := Decide(0, false)] == t.callers[r := Decide(0, false)];
  }

  lemma DecidesAndReturns(s: State, t: State, r: CallerId)
    requires Leads(s, t) && r in t.callers && t.callers[r] == Decide(0, false) && t.mutex == Held(ByCaller(r))
    ensures Leads(s, t.(callers := t.callers[r := Granted], mutex := Free))
  {
    CallerGoes(s, t, r, UnlockGranted, t.mutex);
    var t1 := t.(callers := t.callers[r := UnlockGranted]);
    CallerGoes(s, t1, r, Granted, Free);
    assert t.callers[r := UnlockGranted][r := Granted] == t.callers[r := Granted];
  }

  lemma Grants(t: State, r: CallerId)
    requires Joining(t) && r in t.callers && t.callers[r] == Lock
    ensures Leads(t, t.(callers := t.callers[r := Granted]))
  {
    LocksAndReads(t, r);
    var t1 := t.(callers := t.callers[r := Decide(0, false)], mutex := Held(ByCaller(r)));
    DecidesAndReturns(t, t1, r);
    assert t1.(callers := t1.callers[r := Granted], mutex := Free) == t.(callers := t.callers[r := Granted]);
  }

  /** The call gives the guard back: refused at once, or granted and then cancelled. */
  lemma LetsGo(t: State, r: CallerId)
    requires Joining(t) && r in t.callers && t.callers[r] in {Lock, AbandonGuard, Granted}
    ensures Leads(t, CallerWith(t, r, Idle, false, None))
  {
    if t.callers[r] == Lock {
      Grants(t, r);
      var t1 := t.(callers := t.callers[r := Granted]);
      OneMore(t, t1, CallerAct(r), CallerWith(t1, r, Idle, false, None));
      assert t1.callers[r := Idle] == t.callers[r := Idle];
    } else {
      Stays(t);
      OneMore(t, t, CallerAct(r), CallerWith(t, r, Idle, false, None));
    }
  }

  /** The guard is clear, or its owner can give it back without the mutex. */
  ghost predicate GuardCanGo(t: State) {
    t.quiesce ==> t.guardOwner.Some? && t.guardOwner.value in t.callers
                  && t.callers[t.guardOwner.value] in {Lock, AbandonGuard, Granted}
  }

  lemma GuardGoes(t: State, r: CallerId) returns (u: State)
    requires Joining(t) && GuardCanGo(t) && r in t.callers && t.callers[r] == Cas
    ensures Leads(t, u) && Joining(u) && !u.quiesce && u.clients == t.clients && r in u.callers && u.callers[r] == Cas
  {
    if t.quiesce {
      LetsGo(t, t.guardOwner.value);
      u := CallerWith(t, t.guardOwner.value, Idle, false, None);
    } else {
      Stays(t);
      u := t;
    }
  }

  // ---- from the clearing to the bad state ----

  ghost predicate CanGoBad(s: State) {
    exists t :: Leads(s, t) && Bad(t)
  }

  lemma BadLater(s: State, t: State)
    requires Leads(s, t) && CanGoBad(t)
    ensures CanGoBad(s)
  {
    var u :| Leads(t, u) && Bad(u);
    Follows(s, t, u);
  }

  predicate Admitted(t: State, c: ClientId) {
    c in t.clients && t.clients[c].pc == Transferring
  }

  lemma LockGoesBad(t: State, r: CallerId, c: ClientId)
    requires Joining(t) && r in t.callers && t.callers[r] == Lock && Admitted(t, c)
    ensures CanGoBad(t)
  {
    Grants(t, r);
    var u := t.(callers := t.callers[r := Granted]);
    assert u.callers[r] == Granted && Admitted(u, c);
  }

  lemma CasGoesBad(t: State, r: CallerId, c: ClientId)
    requires Joining(t) && !t.quiesce && r in t.callers && t.callers[r] == Cas && Admitted(t, c)
    ensures CanGoBad(t)
  {
    var u := TakeGuard(t, r);
    Stays(t);
    OneMore(t, t, CallerAct(r), u);
    LockGoesBad(u, r, c);
    BadLater(t, u);
  }

  lemma RecheckGoesBad(t: State, r: CallerId, c: ClientId)
    requires Joining(t) && !t.quiesce && r in t.callers && t.callers[r] == Cas
    requires c in t.clients && t.clients[c].pc == BeginRecheck
    ensures CanGoBad(t)
  {
    var u := MoveClient(t, c, Transferring);
    Stays(t);
    OneMore(t, t, ClientAct(c, true), u);
    CasGoesBad(u, r, c);
    BadLater(t, u);
  }

  /** A client in the loop that owns nothing can be admitted while no guard is set. */
  function AdmittedNext(t: State, d: ClientId): State
    requires d in t.clients
  {
    MoveClient(t, d, Transferring).(transferActive := true, transferOwner := Some(d))
  }

  lemma AdmitFromCas(s: State, t: State, d: ClientId)
    requires Leads(s, t) && !t.transferActive && !t.quiesce && d in t.clients && t.clients[d].pc == BeginCas
    ensures Leads(s, AdmittedNext(t, d))
  {
    OneMore(s, t, ClientAct(d, true), TakeTransfer(t, d));
    OneMore(s, TakeTransfer(t, d), ClientAct(d, true), AdmittedNext(t, d));
  }

  lemma AdmitFromGuard(s: State, t: State, d: ClientId)
    requires Leads(s, t) && !t.transferActive && !t.quiesce && d in t.clients && t.clients[d].pc == BeginGuard
    ensures Leads(s, AdmittedNext(t, d))
  {
    var u := MoveClient(t, d, BeginCas);
    OneMore(s, t, ClientAct(d, true), u);
    AdmitFromCas(s, u, d);
    assert AdmittedNext(u, d) == AdmittedNext(t, d);
  }

  lemma CanBeAdmitted(t: State, d: ClientId)
    requires !t.transferActive && !t.quiesce && d in t.clients && InLoop(t.clients[d].pc) && !Holding(t.clients[d].pc)
    ensures Leads(t, AdmittedNext(t, d))
  {
    Stays(t);
    if t.clients[d].pc == Serving {
      var u := MoveClient(t, d, BeginGuard);
      OneMore(t, t, ClientAct(d, true), u);
      AdmitFromGuard(t, u, d);
      assert AdmittedNext(u, d) == AdmittedNext(t, d);
    } else if t.clients[d].pc == BeginGuard {
      AdmitFromGuard(t, t, d);
    } else {
      AdmitFromCas(t, t, d);
    }
  }

  lemma UndoGoesBad(t: State, r: CallerId, c: ClientId, d: ClientId)
    requires Joining(t) && !t.quiesce && r in t.callers && t.callers[r] == Cas
    requires c in t.clients && t.clients[c].pc == BeginUndo
    requires d in t.clients && d != c && InLoop(t.clients[d].pc) && !Holding(t.clients[d].pc)
    ensures CanGoBad(t)
  {
    CanBeAdmitted(t, d);
    var u := AdmittedNext(t, d);
    var v := ReleaseTransfer(u, c);
    OneMore(t, u, ClientAct(c, true), v);
    CasGoesBad(v, r, d);
    BadLater(t, v);
  }

  /** Teardown leaves the mutex. */
  function Left(s: State): State
    requires s.teardown.DropTransfer?
  {
    DropTransferFlag(s).(teardown := Join(s.teardown.rest), mutex := Free)
  }

  lemma LeavesTheMutex(s: State)
    requires GuardInv(s) && LifeInv(s) && s.teardown.DropTransfer?
    ensures Leads(Cleared(s), Left(s)) && Joining(Left(s)) && GuardCanGo(Left(s))
  {
    Stays(Cleared(s));
    OneMore(Cleared(s), Cleared(s), TeardownAct, Left(s));
    assert s.quiesce ==> OwnsGuard(CallerAt(s, s.guardOwner.value)) && !CallerInside(CallerAt(s, s.guardOwner.value));
  }

  lemma CasAtRiskGoesBad(t: State, r: CallerId, c: ClientId, d: ClientId)
    requires Joining(t) && GuardCanGo(t) && r in t.callers && t.callers[r] == Cas && c in t.clients
    requires t.clients[c].pc in {Transferring, BeginRecheck, BeginUndo}
    requires t.clients[c].pc == BeginUndo ==>
               d in t.clients && d != c && InLoop(t.clients[d].pc) && !Holding(t.clients[d].pc)
    ensures CanGoBad(t)
  {
    var u := GuardGoes(t, r);
    match t.clients[c].pc {
      case Transferring => CasGoesBad(u, r, c);
      case BeginRecheck => RecheckGoesBad(u, r, c);
      case BeginUndo => UndoGoesBad(u, r, c, d);
    }
    BadLater(t, u);
  }

  /** A call between its two checks goes on to the compare-and-swap. */
  lemma CheckedAtRiskGoesBad(t: State, r: CallerId, c: ClientId, d: ClientId)
    requires Joining(t) && GuardCanGo(t) && r in t.callers && t.callers[r] == CheckMutex && c in t.clients
    requires t.clients[c].pc in {Transferring, BeginRecheck, BeginUndo}
    requires t.clients[c].pc == BeginUndo ==>
               d in t.clients && d != c && InLoop(t.clients[d].pc) && !Holding(t.clients[d].pc)
    ensures CanGoBad(t)
  {
    var u := MoveCaller(t, r, Cas);
    Stays(t);
    OneMore(t, t, CallerAct(r), u);
    CasAtRiskGoesBad(u, r, c, d);
    BadLater(t, u);
  }

  lemma SomeOther(s: State, c: ClientId) returns (d: ClientId)
    requires GuardInv(s) && s.teardown.DropTransfer? && c in s.clients && Holding(s.clients[c].pc)
    ensures SomeOtherInLoop(s, c) ==> d in s.clients && d != c && InLoop(s.clients[d].pc) && !Holding(s.clients[d].pc)
  {
    OnlyHolder(s, c);
    if SomeOtherInLoop(s, c) {
      d :| d in s.clients && d != c && InLoop(s.clients[d].pc);
    } else {
      d := c;
    }
  }

  lemma RiskFromGoesBad(s: State, c: ClientId)
    requires GuardInv(s) && LifeInv(s) && s.teardown.DropTransfer? && c in s.clients && RiskFrom(s, c)
    ensures CanGoBad(Left(s))
  {
    LeavesTheMutex(s);
    var d := SomeOther(s, c);
    if r :| r in s.callers && s.callers[r] == Cas {
      CasAtRiskGoesBad(Left(s), r, c, d);
    } else if r :| r in s.callers && s.callers[r] == CheckMutex {
      CheckedAtRiskGoesBad(Left(s), r, c, d);
    } else {
      var q :| q in s.callers && s.callers[q] == Lock;
      LockGoesBad(Left(s), q, c);
    }
  }

  lemma RiskGoesBad(s: State)
    requires GuardInv(s) && LifeInv(s) && s.teardown.DropTransfer? && Risk(s)
    ensures CanGoBad(Cleared(s))
  {
    var c :| c in s.clients && RiskFrom(s, c);
    RiskFromGoesBad(s, c);
    LeavesTheMutex(s);
    BadLater(Cleared(s), Left(s));
  }

  // ---- and only from there ----

  lemma ClearedInvariants(s: State, run: seq<Action>)
    requires GuardInv(s) && LifeInv(s) && s.teardown.DropTransfer? && Exec(Cleared(s), run).To?
    ensures GuardInv(Exec(Cleared(s), run).state) && LifeInv(Exec(Cleared(s), run).state)
    ensures Phase(Exec(Cleared(s), run).state.teardown) >= 5
  {
    assert Step(s, TeardownAct) == To(Cleared(s));
    StepKeepsGuard(s, TeardownAct);
    StepKeepsLife(s, TeardownAct);
    RunKeepsGuard(Cleared(s), run);
    RunKeepsLife(Cleared(s), run);
    PhaseGrows(Cleared(s), run);
  }

  lemma NoRiskNoBad(s: State, run: seq<Action>)
    requires GuardInv(s) && LifeInv(s) && s.teardown.DropTransfer? && !Risk(s) && Exec(Cleared(s), run).To?
    ensures !Bad(Exec(Cleared(s), run).state)
  {
    ClearedInvariants(s, run);
    var t := Exec(Cleared(s), run).state;
    if Draining(t) {
      AfterClearing(s, run);
      SafeDrainIsSafe(t);
    } else if Phase(t.teardown) >= 7 {
      NothingLeftToDrain(t);
    }
  }

  lemma NoRiskNeverBad(s: State)
    requires GuardInv(s) && LifeInv(s) && s.teardown.DropTransfer? && !Risk(s)
    ensures !CanGoBad(Cleared(s))
  {
    forall t | Leads(Cleared(s), t)
      ensures !Bad(t)
    {
      var more :| Exec(Cleared(s), more) == To(t);
      NoRiskNoBad(s, more);
    }
  }

  lemma ClearedIsNext(s: State)
    requires s.teardown.DropTransfer?
    ensures Step(s, TeardownAct) == To(Cleared(s))
  {
  }

  lemma RiskDecides(s: State)
    requires GuardInv(s) && LifeInv(s) && s.teardown.DropTransfer?
    ensures CanGoBad(Cleared(s)) <==> Risk(s)
  {
    if Risk(s) {
      RiskGoesBad(s);
    } else {
      NoRiskNeverBad(s);
    }
  }

  /** At the clearing of transfer_active, in every run: a reboot call can still come to
      return 1 beside an admitted transfer iff there is a risk. */
  lemma RiskIsExact(run: seq<Action>)
    requires Exec(Initial(), run).To? && Exec(Initial(), run).state.teardown.DropTransfer?
    ensures var s := Exec(Initial(), run).state;
      Step(s, TeardownAct) == To(Cleared(s)) && (CanGoBad(Cleared(s)) <==> Risk(s))
  {
    Reach(run);
    ClearedIsNext(Exec(Initial(), run).state);
    RiskDecides(Exec(Initial(), run).state);
  }

  // ---- single flight in the drain ----

  ghost predicate NoHolder(s: State) {
    forall c | c in s.clients :: !Holding(s.clients[c].pc)
  }

  lemma OrderlyHasOneOwner(s: State)
    requires Orderly(s)
    ensures OneOwner(s)
  {
    forall c, d | c in s.clients && d in s.clients && Holding(s.clients[c].pc) && Holding(s.clients[d].pc)
      ensures c == d
    {
      assert s.transferOwner == Some(c) && s.transferOwner == Some(d);
    }
  }

  lemma OneOwnerLater(s: State, run: seq<Action>)
    requires GuardInv(s) && LifeInv(s) && s.teardown.DropTransfer? && NoHolder(s) && Exec(Cleared(s), run).To?
    ensures OneOwner(Exec(Cleared(s), run).state)
  {
    ClearedInvariants(s, run);
    var t := Exec(Cleared(s), run).state;
    if Draining(t) {
      ClearedInvariants(s, []);
      ClearedWithoutHolder(s);
      DrainStaysOrderly(Cleared(s), run);
      OrderlyHasOneOwner(t);
    } else {
      NothingLeftToDrain(t);
    }
  }

  /** Single flight holds from the clearing on, through the drain and after it, iff no
      thread owned the flag that was cleared. */
  lemma SingleFlightInDrain(run: seq<Action>)
    requires Exec(Initial(), run).To? && Exec(Initial(), run).state.teardown.DropTransfer?
    ensures var s := Exec(Initial(), run).state;
      (forall t | Leads(Cleared(s), t) :: OneOwner(t)) <==> NoHolder(s)
  {
    Reach(run);
    var s := Exec(Initial(), run).state;
    if NoHolder(s) {
      forall t | Leads(Cleared(s), t)
        ensures OneOwner(t)
      {
        var more :| Exec(Cleared(s), more) == To(t);
        OneOwnerLater(s, more);
      }
    } else {
      Stays(Cleared(s));
      var c :| c in s.clients && Holding(s.clients[c].pc);
      assert Holding(Cleared(s).clients[c].pc) && !Cleared(s).transferActive;
    }
  }
}
