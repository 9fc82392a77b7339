/** Runs that end in the states which the theorems leave open. */
module InterlockWitness {
  import opened Options
  import opened Interlock
  import opened InterlockInvariant
  import opened InterlockRuns

  const LISTED := Client(Serving, true, Running, 0, 0)

  /** One client is accepted and serves. */
  function OneClient(): State {
    Initial().(nextClient := 1, clients := map[0 := LISTED], list := [0], numberClients := 1)
  }

  const FRESH := Client(Unstarted, false, Dormant, 0, 0)

  function Inserting(): State {
    Initial().(nextClient := 1, clients := map[0 := FRESH], mutex := Held(ByServer), server := AddInsert(0))
  }

  lemma InsertingReachable()
    ensures Reachable(Inserting())
  {
    var s0 := Initial();
    Stays(s0);
    var s1 := s0.(nextClient := 1, clients := map[0 := FRESH], server := AddLock(0));
    assert Accept(s0) == s1;
    OneMore(Initial(), s0, ServerAct(true), s1);
    var s2 := s1.(mutex := Held(ByServer), server := AddGuard(0));
    OneMore(Initial(), s1, ServerAct(true), s2);
    OneMore(Initial(), s2, ServerAct(true), Inserting());
  }

  lemma OneClientReachable()
    ensures Reachable(OneClient())
  {
    InsertingReachable();
    var s3 := Inserting();
    var s4 := s3.(clients := map[0 := FRESH.(inList := true)], list := [0], numberClients := 1, server := AddUnlock(0));
    assert Insert(s3, 0) == s4;
    OneMore(Initial(), s3, ServerAct(true), s4);
    var s5 := s4.(mutex := Free, server := Start(0));
    OneMore(Initial(), s4, ServerAct(true), s5);
    assert StartThread(s5, 0) == OneClient();
    OneMore(Initial(), s5, ServerAct(true), OneClient());
  }

  /** It holds an admitted transfer, a reboot call is past its checks, the listener is closed. */
  function TransferAndCall(): State {
    OneClient().(clients := map[0 := LISTED.(pc := Transferring)], transferActive := true, transferOwner := Some(0),
                 callers := map[0 := Cas], server := Stopped)
  }

  lemma TransferAndCallReachable()
    ensures Reachable(TransferAndCall())
  {
    OneClientReachable();
    var s0 := OneClient();
    var s1 := s0.(clients := map[0 := LISTED.(pc := BeginGuard)]);
    OneMore(Initial(), s0, ClientAct(0, true), s1);
    var s2 := s1.(clients := map[0 := LISTED.(pc := BeginCas)]);
    OneMore(Initial(), s1, ClientAct(0, true), s2);
    var s3 := s2.(clients := map[0 := LISTED.(pc := BeginRecheck)], transferActive := true, transferOwner := Some(0));
    OneMore(Initial(), s2, ClientAct(0, true), s3);
    var s4 := s3.(clients := map[0 := LISTED.(pc := Transferring)]);
    OneMore(Initial(), s3, ClientAct(0, true), s4);
    var s5 := s4.(callers := map[0 := Check]);
    OneMore(Initial(), s4, CallerAct(0), s5);
    var s6 := s5.(callers := map[0 := CheckMutex]);
    OneMore(Initial(), s5, CallerAct(0), s6);
    var s7 := s6.(callers := map[0 := Cas]);
    OneMore(Initial(), s6, CallerAct(0), s7);
    OneMore(Initial(), s7, ServerAct(false), TransferAndCall());
  }

  /** Teardown took the client off the list, cleared transfer_active and waits for it. */
  function DrainingOne(): State {
    TransferAndCall().(initialized := false, inFlightAtFini := true, list := [], numberClients := 0,
                       clients := map[0 := LISTED.(pc := Transferring, inList := false)], detached := {0},
                       transferActive := false, transferOwner := None, teardown := Join([0]))
  }

  function DetachingOne(): State {
    TransferAndCall().(initialized := false, inFlightAtFini := true, mutex := Held(ByTeardown), teardown := Detach)
  }

  lemma DetachingOneReachable()
    ensures Reachable(DetachingOne())
  {
    TransferAndCallReachable();
    var s0 := TransferAndCall();
    var s1 := s0.(initialized := false, inFlightAtFini := true, teardown := WaitServer);
    assert 0 in s0.callers && InFlight(s0.callers[0]);
    OneMore(Initial(), s0, TeardownAct, s1);
    var s2 := s1.(teardown := LockList);
    OneMore(Initial(), s1, TeardownAct, s2);
    OneMore(Initial(), s2, TeardownAct, DetachingOne());
  }

  lemma DrainingOneReachable()
    ensures Reachable(DrainingOne())
  {
    DetachingOneReachable();
    var s3 := DetachingOne();
    var s4 := s3.(list := [], numberClients := 0, clients := map[0 := LISTED.(pc := Transferring, inList := false)],
                  detached := {0}, teardown := DropTransfer([0]));
    assert DetachAll(s3).clients == s4.clients && DetachAll(s3).detached == s4.detached;
    OneMore(Initial(), s3, TeardownAct, s4);
    var s5 := s4.(transferActive := false, transferOwner := None, teardown := UnlockList([0]));
    OneMore(Initial(), s4, TeardownAct, s5);
    OneMore(Initial(), s5, TeardownAct, DrainingOne());
  }

  /** The call sees the counts that teardown has reset. */
  function Deceived(): State {
    DrainingOne().(callers := map[0 := Decide(0, false)], quiesce := true, guardOwner := Some(0), mutex := Held(ByCaller(0)))
  }

  lemma DeceivedReachable()
    ensures Reachable(Deceived())
  {
    DrainingOneReachable();
    var s0 := DrainingOne();
    var s1 := s0.(callers := map[0 := Lock], quiesce := true, guardOwner := Some(0));
    OneMore(Initial(), s0, CallerAct(0), s1);
    var s2 := s1.(callers := map[0 := ReadClients], mutex := Held(ByCaller(0)));
    OneMore(Initial(), s1, CallerAct(0), s2);
    var s3 := s2.(callers := map[0 := ReadTransfer(0)]);
    OneMore(Initial(), s2, CallerAct(0), s3);
    OneMore(Initial(), s3, CallerAct(0), Deceived());
  }

  /** A reboot call returns 1 while a detached client still transfers. */
  lemma GrantedWhileDraining() returns (s: State)
    ensures Reachable(s) && CallerAt(s, 0) == Granted && s.teardown != Finished
    ensures Draining(s) && s.inFlightAtFini && !NoneAdmitted(s)
  {
    DeceivedReachable();
    var s4 := Deceived();
    var s5 := s4.(callers := map[0 := UnlockGranted]);
    OneMore(Initial(), s4, CallerAct(0), s5);
    s := s5.(callers := map[0 := Granted], mutex := Free);
    OneMore(Initial(), s5, CallerAct(0), s);
    assert s.clients[0].pc == Transferring;
  }

  // ---- a thread that teardown does not wait for ----

  /** The client has taken itself off the list and still has to free its record. */
  function LeavingOne(): State {
    OneClient().(clients := map[0 := LISTED.(pc := Closing(true), inList := false)], list := [], numberClients := 0,
                 server := Stopped)
  }

  lemma LeavingOneReachable()
    ensures Reachable(LeavingOne())
  {
    OneClientReachable();
    var s0 := OneClient();
    var s1 := s0.(clients := map[0 := LISTED.(pc := DeleteLock)]);
    OneMore(Initial(), s0, ClientAct(0, false), s1);
    var s2 := s1.(clients := map[0 := LISTED.(pc := DeleteBody)], mutex := Held(ByClient(0)));
    OneMore(Initial(), s1, ClientAct(0, false), s2);
    var s3 := s2.(clients := map[0 := LISTED.(pc := DeleteUnlock(true), inList := false)], list := [], numberClients := 0);
    assert ClientDeletes(s2, 0) == s3;
    OneMore(Initial(), s2, ClientAct(0, false), s3);
    var s4 := s3.(clients := map[0 := LISTED.(pc := Closing(true), inList := false)], mutex := Free);
    OneMore(Initial(), s3, ClientAct(0, false), s4);
    OneMore(Initial(), s4, ServerAct(false), LeavingOne());
  }

  function LeavingAt(teardown: TeardownPc, mutex: Mutex): State {
    LeavingOne().(initialized := false, teardown := teardown, mutex := mutex)
  }

  lemma LeavingWhileDetaching()
    ensures Reachable(LeavingAt(Join([]), Free))
  {
    LeavingOneReachable();
    OneMore(Initial(), LeavingOne(), TeardownAct, LeavingAt(WaitServer, Free));
    OneMore(Initial(), LeavingAt(WaitServer, Free), TeardownAct, LeavingAt(LockList, Free));
    OneMore(Initial(), LeavingAt(LockList, Free), TeardownAct, LeavingAt(Detach, Held(ByTeardown)));
    var s := LeavingAt(Detach, Held(ByTeardown));
    var t := LeavingAt(DropTransfer([]), Held(ByTeardown));
    assert DetachAll(s).clients == t.clients && DetachAll(s).detached == t.detached;
    OneMore(Initial(), s, TeardownAct, t);
    OneMore(Initial(), t, TeardownAct, LeavingAt(UnlockList([]), Held(ByTeardown)));
    OneMore(Initial(), LeavingAt(UnlockList([]), Held(ByTeardown)), TeardownAct, LeavingAt(Join([]), Free));
  }

  /** ftpvita_fini has returned, and a client thread still has to free its record. */
  lemma RunningAfterFini() returns (s: State)
    ensures Reachable(s) && s.teardown == Finished && 0 in s.clients && s.clients[0].pc == Closing(true)
    ensures s.clients[0].thread == Running && s.clients[0].frees == 0
  {
    LeavingWhileDetaching();
    OneMore(Initial(), LeavingAt(Join([]), Free), TeardownAct, LeavingAt(DeleteMutex, Free));
    OneMore(Initial(), LeavingAt(DeleteMutex, Free), TeardownAct, LeavingAt(ResetList, Deleted));
    OneMore(Initial(), LeavingAt(ResetList, Deleted), TeardownAct, LeavingAt(ResetTransfer, Deleted));
    OneMore(Initial(), LeavingAt(ResetTransfer, Deleted), TeardownAct, LeavingAt(ResetGuard, Deleted));
    OneMore(Initial(), LeavingAt(ResetGuard, Deleted), TeardownAct, LeavingAt(Finished, Deleted));
    s := LeavingAt(Finished, Deleted);
  }

  // ---- an abort that teardown does not wait for ----

  function AbortingAt(pc: CallerPc, teardown: TeardownPc, mutex: Mutex): State {
    Initial().(server := Stopped, callers := map[0 := pc], initialized := false, teardown := teardown, mutex := mutex)
  }

  /** An abort call reads the identifier of the mutex after teardown has begun. */
  lemma AbortDuringFini()
    ensures Reachable(AbortingAt(AbortLock, Join([]), Free))
  {
    var s0 := Initial();
    Stays(s0);
    var s1 := s0.(server := Stopped);
    OneMore(s0, s0, ServerAct(false), s1);
    var s2 := s1.(initialized := false, teardown := WaitServer);
    OneMore(s0, s1, TeardownAct, s2);
    OneMore(s0, s2, AbortAct(0), AbortingAt(AbortCheck, WaitServer, Free));
    OneMore(s0, AbortingAt(AbortCheck, WaitServer, Free), AbortAct(0), AbortingAt(AbortLock, WaitServer, Free));
    OneMore(s0, AbortingAt(AbortLock, WaitServer, Free), TeardownAct, AbortingAt(AbortLock, LockList, Free));
    OneMore(s0, AbortingAt(AbortLock, LockList, Free), TeardownAct, AbortingAt(AbortLock, Detach, Held(ByTeardown)));
    var s := AbortingAt(AbortLock, Detach, Held(ByTeardown));
    var t := AbortingAt(AbortLock, DropTransfer([]), Held(ByTeardown));
    assert DetachAll(s).clients == t.clients && DetachAll(s).detached == t.detached;
    OneMore(s0, s, TeardownAct, t);
    OneMore(s0, t, TeardownAct, AbortingAt(AbortLock, UnlockList([]), Held(ByTeardown)));
    OneMore(s0, AbortingAt(AbortLock, UnlockList([]), Held(ByTeardown)), TeardownAct, AbortingAt(AbortLock, Join([]), Free));
  }

  /** Such a call locks the mutex after its deletion, though no reboot call was in flight. */
  lemma AbortAfterDelete() returns (s: State)
    ensures Reachable(s) && ByAbort(0) in s.afterDelete && !s.inFlightAtFini
  {
    AbortDuringFini();
    var s1 := AbortingAt(AbortLock, DeleteMutex, Free);
    OneMore(Initial(), AbortingAt(AbortLock, Join([]), Free), TeardownAct, s1);
    var s2 := AbortingAt(AbortLock, ResetList, Deleted);
    OneMore(Initial(), s1, TeardownAct, s2);
    s := AbortingAt(Idle, ResetList, Deleted).(afterDelete := {ByAbort(0)});
    OneMore(Initial(), s2, AbortAct(0), s);
  }
}
