/** What holds in every interleaving of any number of threads. */
module InterlockSafety {
  import opened Options
  import ListSpec
  import opened Interlock
  import opened InterlockInvariant
  import opened InterlockProof

  lemma ClientStepKeepsGuard(s: State, c: ClientId, choice: bool)
    requires GuardInv(s) && c in s.clients && ClientStep(s, c, choice).To?
    ensures GuardInv(ClientStep(s, c, choice).state)
  {
    ClientKeepsGuard(s, c, choice, Phase(s.teardown));
    ClientKeepsPhase(s, c, choice);
  }

  lemma ServerStepKeepsGuard(s: State, choice: bool)
    requires GuardInv(s) && ServerStep(s, choice).To?
    ensures GuardInv(ServerStep(s, choice).state)
  {
    ServerKeepsGuard(s, choice, Phase(s.teardown));
    ServerKeepsPhase(s, choice);
  }

  lemma CallerStepKeepsGuard(s: State, r: CallerId)
    requires GuardInv(s) && CallerStep(s, r).To?
    ensures GuardInv(CallerStep(s, r).state)
  {
    CallerKeepsGuard(s, r, Phase(s.teardown));
    CallerKeepsPhase(s, r);
  }

  lemma AbortStepKeepsGuard(s: State, r: CallerId)
    requires GuardInv(s) && AbortStep(s, r).To?
    ensures GuardInv(AbortStep(s, r).state)
  {
    AbortKeepsGuard(s, r, Phase(s.teardown));
    AbortKeepsPhase(s, r);
  }

  lemma StepKeepsGuard(s: State, a: Action)
    requires GuardInv(s) && Step(s, a).To?
    ensures GuardInv(Step(s, a).state)
  {
    match a
    case ClientAct(c, choice) => ClientStepKeepsGuard(s, c, choice);
    case ServerAct(choice) => ServerStepKeepsGuard(s, choice);
    case CallerAct(r) => CallerStepKeepsGuard(s, r);
    case AbortAct(r) => AbortStepKeepsGuard(s, r);
    case TeardownAct => TeardownKeepsGuard(s);
  }

  lemma StepKeepsLife(s: State, a: Action)
    requires GuardInv(s) && LifeInv(s) && Step(s, a).To?
    ensures LifeInv(Step(s, a).state)
  {
    match a
    case ClientAct(c, choice) => ClientKeepsLife(s, c, choice);
    case ServerAct(choice) => ServerKeepsLife(s, choice);
    case CallerAct(r) => CallerKeepsLife(s, r);
    case AbortAct(r) => AbortKeepsLife(s, r);
    case TeardownAct => TeardownKeepsLife(s);
  }

  /** The flag protocol is safe by itself: its proof never looks at the list or the mutex. */
  lemma {:induction false} RunKeepsGuard(s: State, run: seq<Action>)
    requires GuardInv(s) && Exec(s, run).To?
    ensures GuardInv(Exec(s, run).state)
    decreases |run|
  {
    if run != [] {
      StepKeepsGuard(s, run[0]);
      RunKeepsGuard(Step(s, run[0]).state, run[1..]);
    }
  }

  lemma {:induction false} RunKeepsLife(s: State, run: seq<Action>)
    requires GuardInv(s) && LifeInv(s) && Exec(s, run).To?
    ensures LifeInv(Exec(s, run).state)
    decreases |run|
  {
    if run != [] {
      StepKeepsGuard(s, run[0]);
      StepKeepsLife(s, run[0]);
      RunKeepsLife(Step(s, run[0]).state, run[1..]);
    }
  }

  lemma Reach(run: seq<Action>)
    requires Exec(Initial(), run).To?
    ensures GuardInv(Exec(Initial(), run).state) && LifeInv(Exec(Initial(), run).state)
  {
    RunKeepsGuard(Initial(), run);
    RunKeepsLife(Initial(), run);
  }

  // ---- reboot safety ----

  /** No thread that might still use the mutex is left once nobody is left to join. */
  lemma NothingLeftToDrain(s: State)
    requires TeardownOk(s) && Phase(s.teardown) >= 4 && Rest(s.teardown) == []
    ensures forall c | c in s.clients :: !Active(s.clients[c].pc) && !s.clients[c].pc.DeleteUnlock?
  {
  }

  /** A reboot call that returned 1, until it is cancelled and until teardown clears the
      guard: the guard is set, no client is on the list, and the accept thread is not
      about to insert one. */
  lemma GrantedMeansNoClients(run: seq<Action>, r: CallerId)
    requires Exec(Initial(), run).To?
    requires CallerAt(Exec(Initial(), run).state, r) == Granted
    requires Exec(Initial(), run).state.teardown != Finished
    ensures var s := Exec(Initial(), run).state;
      && s.quiesce && s.guardOwner == Some(r)
      && s.list == [] && s.numberClients == 0 && !s.server.AddInsert?
  {
    Reach(run);
  }

  /** The double check in client_begin_transfer alone: a caller that saw no transfer after
      setting the guard rules out an admitted transfer, until teardown clears the flag. */
  lemma DoubleCheckAlone(s: State, run: seq<Action>, r: CallerId)
    requires GuardInv(s) && Exec(s, run).To?
    requires SawNoTransfer(CallerAt(Exec(s, run).state, r))
    requires Phase(Exec(s, run).state.teardown) <= 4
    ensures NoneAdmitted(Exec(s, run).state) && Exec(s, run).state.quiesce
  {
    RunKeepsGuard(s, run);
  }

  /** A call that has returned 0, or has been cancelled, leaves no guard of its own: while
      the guard is set it belongs to a call that has not returned 0. */
  lemma GuardBelongsToSomeone(run: seq<Action>)
    requires Exec(Initial(), run).To? && Exec(Initial(), run).state.quiesce
    ensures var s := Exec(Initial(), run).state;
      exists r :: r in s.callers && OwnsGuard(s.callers[r]) && s.guardOwner == Some(r)
  {
    Reach(run);
    var s := Exec(Initial(), run).state;
    assert OwnsGuard(CallerAt(s, s.guardOwner.value));
  }

  // ---- single flight ----

  /** transfer_active is set exactly when a thread owns it, and one thread owns it at most. */
  ghost predicate OneOwner(s: State) {
    && (s.transferActive <==> exists c :: c in s.clients && Holding(s.clients[c].pc))
    && (forall c, d | c in s.clients && d in s.clients && Holding(s.clients[c].pc) && Holding(s.clients[d].pc) :: c == d)
  }

  /** Outside the drain transfer_active is set exactly when a thread owns it, one thread
      owns it at most, and that thread is still on the client list or was taken off it by
      a teardown that has not dropped the flag yet. */
  lemma SingleFlight(run: seq<Action>)
    requires Exec(Initial(), run).To? && !Draining(Exec(Initial(), run).state)
    ensures var s := Exec(Initial(), run).state;
      && OneOwner(s)
      && (forall c | c in s.clients && Holding(s.clients[c].pc) ::
            c in s.list || (c in s.detached && s.teardown.DropTransfer?))
  {
    Reach(run);
    var s := Exec(Initial(), run).state;
    if Phase(s.teardown) >= 7 {
      NothingLeftToDrain(s);
    } else {
      forall c, d | c in s.clients && d in s.clients && Holding(s.clients[c].pc) && Holding(s.clients[d].pc)
        ensures c == d
      {
        assert s.transferOwner == Some(c) && s.transferOwner == Some(d);
      }
      forall c | c in s.clients && Holding(s.clients[c].pc)
        ensures c in s.list || (c in s.detached && s.teardown.DropTransfer?)
      {
        assert ClientOk(s, c, s.clients[c]);
      }
    }
  }

  lemma CountIsLength(run: seq<Action>)
    requires Exec(Initial(), run).To?
    ensures Exec(Initial(), run).state.numberClients == |Exec(Initial(), run).state.list|
  {
    Reach(run);
  }

  /** Zero clients implies no transfer, before teardown takes clients off the list and
      again once it has joined them all. */
  lemma NoClientsNoTransfer(run: seq<Action>)
    requires Exec(Initial(), run).To? && Exec(Initial(), run).state.numberClients == 0
    requires !(4 <= Phase(Exec(Initial(), run).state.teardown) <= 6)
    ensures !Exec(Initial(), run).state.transferActive
  {
    CountIsLength(run);
    SingleFlight(run);
  }

  // ---- hand-off of thread objects and records ----

  /** Nothing is deleted or freed twice; a listed record has not been freed and its thread
      object still exists; a thread object goes only when its thread has ended or never ran. */
  lemma NothingTwice(run: seq<Action>, c: ClientId)
    requires Exec(Initial(), run).To? && c in Exec(Initial(), run).state.clients
    ensures var s := Exec(Initial(), run).state; var cl := s.clients[c];
      && cl.deletions <= 1 && cl.frees <= 1
      && (c in s.list ==> cl.frees == 0 && cl.deletions == 0)
      && (cl.deletions == 1 ==> cl.pc == Gone || cl.pc == Unstarted)
  {
    Reach(run);
    var s := Exec(Initial(), run).state;
    assert ClientOk(s, c, s.clients[c]);
  }

  /** Whoever runs last, a client that is gone was freed once and its thread object was
      deleted once, except that teardown still owes the threads it has yet to join. */
  lemma EachDeletedOnce(run: seq<Action>, c: ClientId)
    requires Exec(Initial(), run).To? && c in Exec(Initial(), run).state.clients
    requires Exec(Initial(), run).state.clients[c].pc == Gone
    ensures var s := Exec(Initial(), run).state; var cl := s.clients[c];
      && cl.frees == 1
      && cl.deletions == (if c in Rest(s.teardown) then 0 else 1)
      && (s.teardown == Finished ==> cl.deletions == 1)
  {
    Reach(run);
    var s := Exec(Initial(), run).state;
    assert ClientOk(s, c, s.clients[c]);
  }

  /** Threads that ftpvita_fini does not wait for: once it has returned, a client is gone, or
      it took itself off the list before the detach and only has its own record and its own
      thread object left to give back. */
  lemma LeftAfterFini(run: seq<Action>, c: ClientId)
    requires Exec(Initial(), run).To? && Exec(Initial(), run).state.teardown == Finished
    requires c in Exec(Initial(), run).state.clients
    ensures var s := Exec(Initial(), run).state; var pc := s.clients[c].pc;
      && pc in {Gone, Closing(true), Exiting(true)}
      && (pc != Gone ==> c !in s.detached)
  {
    Reach(run);
    var s := Exec(Initial(), run).state;
    NothingLeftToDrain(s);
    assert ClientOk(s, c, s.clients[c]);
  }

  /** Teardown's fixed array takes every client: none is left marked as listed. */
  lemma DetachTakesEveryClient(run: seq<Action>)
    requires Exec(Initial(), run).To? && Exec(Initial(), run).state.teardown == Detach
    ensures var s := Exec(Initial(), run).state;
      && |s.list| <= ListSpec.MAX_CLIENTS
      && DetachAll(s).teardown == DropTransfer(s.list)
      && forall c | c in s.clients :: !DetachAll(s).clients[c].inList
  {
    Reach(run);
  }

  /** No client thread, nor the accept thread, nor teardown locks or unlocks the mutex
      after its deletion.  Only a reboot call that was in flight when teardown began can,
      or an abort call. */
  lemma MutexOutlivesItsUsers(run: seq<Action>, a: Actor)
    requires Exec(Initial(), run).To? && a in Exec(Initial(), run).state.afterDelete
    ensures a.ByAbort? || (a.ByCaller? && Exec(Initial(), run).state.inFlightAtFini)
  {
    Reach(run);
  }

  /** While ftpvita_abort_clients walks the list it is alone in the mutex, or the list is
      empty for good, and no record on the list has been freed. */
  lemma AbortWalksLiveList(run: seq<Action>, r: CallerId)
    requires Exec(Initial(), run).To? && CallerAt(Exec(Initial(), run).state, r) == AbortInside
    ensures var s := Exec(Initial(), run).state;
      && (s.mutex == Held(ByAbort(r)) || (s.mutex == Deleted && s.list == []))
      && (s.mutex == Held(ByAbort(r)) ==>
            && !ServerInside(s.server) && !TeardownInside(s.teardown)
            && forall c | c in s.clients :: !ClientInside(s.clients[c].pc))
      && forall c | c in s.list :: c in s.clients && s.clients[c].frees == 0
  {
    Reach(run);
    var s := Exec(Initial(), run).state;
    forall c | c in s.list
      ensures c in s.clients && s.clients[c].frees == 0
    {
      assert ClientOk(s, c, s.clients[c]);
    }
  }
}
