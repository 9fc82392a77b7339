/** What each operation comes to when its thread runs alone: when it succeeds, and what it
    leaves behind. */
module InterlockAlone {
  import opened Options
  import opened ListSpec
  import opened Interlock
  import opened InterlockRuns

  /** The same thread n times. */
  function Times(a: Action, n: nat): seq<Action> {
    seq(n, i => a)
  }

  /** Where n actions of the same thread lead. */
  function Alone(s: State, a: Action): nat -> Move {
    (n: nat) => Exec(s, Times(a, n))
  }

  function StepOf(a: Action): State -> Move {
    (t: State) => Step(t, a)
  }

  /** `step` is the action a; where it is a parameter its definition does not matter. */
  ghost predicate IsStep(step: State -> Move, a: Action) {
    forall t {:trigger Step(t, a)} :: step(t) == Step(t, a)
  }

  ghost predicate LeadsOn(run: nat -> Move, n: nat, step: State -> Move, t: State) {
    run(n) == To(t) ==> run(n + 1) == step(t)
  }

  /** `run(n)` is where n actions lead, one after another from s. */
  ghost predicate RunsAlone(run: nat -> Move, step: State -> Move, a: Action, s: State) {
    run(0) == To(s) && IsStep(step, a) && forall n: nat, t :: LeadsOn(run, n, step, t)
  }

  lemma RunningAlone(s: State, a: Action)
    ensures RunsAlone(Alone(s, a), StepOf(a), a, s)
  {
    forall n: nat, t
      ensures LeadsOn(Alone(s, a), n, StepOf(a), t)
    {
      if Exec(s, Times(a, n)) == To(t) {
        assert Times(a, n + 1) == Times(a, n) + [a] && [a][1..] == [];
        ExecInTwo(s, Times(a, n), [a]);
        assert Step(t, a).To? ==> Exec(t, [a]) == To(Step(t, a).state);
      }
    }
  }

  lemma Next(run: nat -> Move, step: State -> Move, a: Action, s: State, n: nat, t: State, u: State)
    requires RunsAlone(run, step, a, s) && run(n) == To(t) && step(t) == To(u)
    ensures run(n + 1) == To(u)
  {
    assert LeadsOn(run, n, step, t);
  }

  // ---- ftpvita_prepare_for_reboot ----

  function With(s: State, r: CallerId, pc: CallerPc): State {
    s.(callers := s.callers[r := pc])
  }

  /** The guard is taken by r. */
  function Guarded(s: State, r: CallerId, pc: CallerPc, m: Mutex): State {
    s.(callers := s.callers[r := pc], quiesce := true, guardOwner := Some(r), mutex := m)
  }

  lemma FromIdle(step: State -> Move, s: State, r: CallerId)
    requires IsStep(step, CallerAct(r))
    ensures CallerAt(s, r) == Idle ==> step(s) == To(With(s, r, Check))
    ensures step(With(s, r, Check)) == To(With(s, r, if s.initialized then CheckMutex else Idle))
  {
    var t := With(s, r, Check);
    assert Step(s, CallerAct(r)) == CallerStep(s, r) && Step(t, CallerAct(r)) == CallerStep(t, r);
    assert s.callers[r := Check][r := CheckMutex] == s.callers[r := CheckMutex];
    assert s.callers[r := Check][r := Idle] == s.callers[r := Idle];
  }

  lemma FromCheckMutex(step: State -> Move, s: State, r: CallerId)
    requires IsStep(step, CallerAct(r))
    ensures step(With(s, r, CheckMutex)) == To(With(s, r, if s.mutex == Deleted then Idle else Cas))
  {
    var t := With(s, r, CheckMutex);
    assert Step(t, CallerAct(r)) == CallerStep(t, r);
    assert s.callers[r := CheckMutex][r := Idle] == s.callers[r := Idle];
    assert s.callers[r := CheckMutex][r := Cas] == s.callers[r := Cas];
  }

  lemma FromCas(step: State -> Move, s: State, r: CallerId)
    requires IsStep(step, CallerAct(r))
    ensures step(With(s, r, Cas)) == To(if s.quiesce then With(s, r, Idle) else Guarded(s, r, Lock, s.mutex))
  {
    var t := With(s, r, Cas);
    assert Step(t, CallerAct(r)) == CallerStep(t, r);
    assert s.callers[r := Cas][r := Idle] == s.callers[r := Idle];
    assert s.callers[r := Cas][r := Lock] == s.callers[r := Lock];
  }

  lemma FromLock(step: State -> Move, s: State, r: CallerId)
    requires IsStep(step, CallerAct(r))
    ensures step(Guarded(s, r, Lock, Free)) == To(Guarded(s, r, ReadClients, Held(ByCaller(r))))
  {
    var t := Guarded(s, r, Lock, Free);
    assert Step(t, CallerAct(r)) == CallerStep(t, r);
    assert s.callers[r := Lock][r := ReadClients] == s.callers[r := ReadClients];
  }

  lemma FromReads(step: State -> Move, s: State, r: CallerId, n: nat)
    requires IsStep(step, CallerAct(r))
    ensures step(Guarded(s, r, ReadClients, Held(ByCaller(r)))) ==
            To(Guarded(s, r, ReadTransfer(s.numberClients), Held(ByCaller(r))))
    ensures step(Guarded(s, r, ReadTransfer(n), Held(ByCaller(r)))) ==
            To(Guarded(s, r, Decide(n, s.transferActive), Held(ByCaller(r))))
  {
    var t, u := Guarded(s, r, ReadClients, Held(ByCaller(r))), Guarded(s, r, ReadTransfer(n), Held(ByCaller(r)));
    assert Step(t, CallerAct(r)) == CallerStep(t, r) && Step(u, CallerAct(r)) == CallerStep(u, r);
    assert s.callers[r := ReadClients][r := ReadTransfer(s.numberClients)] == s.callers[r := ReadTransfer(s.numberClients)];
    assert s.callers[r := ReadTransfer(n)][r := Decide(n, s.transferActive)] == s.callers[r := Decide(n, s.transferActive)];
  }

  lemma FromDecide(step: State -> Move, s: State, r: CallerId, n: nat, transfer: bool)
    requires IsStep(step, CallerAct(r)) && !s.quiesce && s.guardOwner == None
    ensures step(Guarded(s, r, Decide(n, transfer), Held(ByCaller(r)))) ==
            To(if n == 0 && !transfer then Guarded(s, r, UnlockGranted, Held(ByCaller(r)))
               else With(s, r, UnlockRefused).(mutex := Held(ByCaller(r))))
  {
    var t := Guarded(s, r, Decide(n, transfer), Held(ByCaller(r)));
    assert Step(t, CallerAct(r)) == CallerStep(t, r);
    assert s.callers[r := Decide(n, transfer)][r := UnlockGranted] == s.callers[r := UnlockGranted];
    assert s.callers[r := Decide(n, transfer)][r := UnlockRefused] == s.callers[r := UnlockRefused];
  }

  lemma FromUnlock(step: State -> Move, s: State, r: CallerId)
    requires IsStep(step, CallerAct(r))
    ensures step(Guarded(s, r, UnlockGranted, Held(ByCaller(r)))) == To(Guarded(s, r, Granted, Free))
    ensures step(With(s, r, UnlockRefused).(mutex := Held(ByCaller(r)))) == To(With(s, r, Idle).(mutex := Free))
  {
    var t, u := Guarded(s, r, UnlockGranted, Held(ByCaller(r))), With(s, r, UnlockRefused).(mutex := Held(ByCaller(r)));
    assert Step(t, CallerAct(r)) == CallerStep(t, r) && Step(u, CallerAct(r)) == CallerStep(u, r);
    assert s.callers[r := UnlockGranted][r := Granted] == s.callers[r := Granted];
    assert s.callers[r := UnlockRefused][r := Idle] == s.callers[r := Idle];
  }

  lemma ReachesCas(run: nat -> Move, step: State -> Move, s: State, r: CallerId)
    requires RunsAlone(run, step, CallerAct(r), s) && CallerAt(s, r) == Idle && s.initialized && s.mutex != Deleted
    ensures run(3) == To(With(s, r, Cas))
  {
    FromIdle(step, s, r);
    FromCheckMutex(step, s, r);
    Next(run, step, CallerAct(r), s, 0, s, With(s, r, Check));
    Next(run, step, CallerAct(r), s, 1, With(s, r, Check), With(s, r, CheckMutex));
    Next(run, step, CallerAct(r), s, 2, With(s, r, CheckMutex), With(s, r, Cas));
  }

  lemma ReachesDecide(run: nat -> Move, step: State -> Move, s: State, r: CallerId)
    requires RunsAlone(run, step, CallerAct(r), s)
    requires CallerAt(s, r) == Idle && s.initialized && s.mutex == Free && !s.quiesce
    ensures run(7) == To(Guarded(s, r, Decide(s.numberClients, s.transferActive), Held(ByCaller(r))))
  {
    var a, inside := CallerAct(r), Held(ByCaller(r));
    ReachesCas(run, step, s, r);
    FromCas(step, s, r);
    FromLock(step, s, r);
    FromReads(step, s, r, s.numberClients);
    Next(run, step, a, s, 3, With(s, r, Cas), Guarded(s, r, Lock, Free));
    Next(run, step, a, s, 4, Guarded(s, r, Lock, Free), Guarded(s, r, ReadClients, inside));
    Next(run, step, a, s, 5, Guarded(s, r, ReadClients, inside), Guarded(s, r, ReadTransfer(s.numberClients), inside));
    Next(run, step, a, s, 6, Guarded(s, r, ReadTransfer(s.numberClients), inside),
         Guarded(s, r, Decide(s.numberClients, s.transferActive), inside));
  }

  /** On a live server with the mutex free and no guard set, a reboot call alone is granted iff
      there is no client and no transfer; a refused one leaves everything as it was. */
  lemma RebootAlone(run: nat -> Move, step: State -> Move, s: State, r: CallerId)
    requires RunsAlone(run, step, CallerAct(r), s)
    requires CallerAt(s, r) == Idle && s.initialized && s.mutex == Free && !s.quiesce && s.guardOwner == None
    ensures run(9) ==
            To(if s.numberClients == 0 && !s.transferActive
               then s.(callers := s.callers[r := Granted], quiesce := true, guardOwner := Some(r))
               else s.(callers := s.callers[r := Idle]))
  {
    var a, inside := CallerAct(r), Held(ByCaller(r));
    ReachesDecide(run, step, s, r);
    FromDecide(step, s, r, s.numberClients, s.transferActive);
    FromUnlock(step, s, r);
    var decided := Guarded(s, r, Decide(s.numberClients, s.transferActive), inside);
    if s.numberClients == 0 && !s.transferActive {
      Next(run, step, a, s, 7, decided, Guarded(s, r, UnlockGranted, inside));
      Next(run, step, a, s, 8, Guarded(s, r, UnlockGranted, inside), Guarded(s, r, Granted, Free));
    } else {
      Next(run, step, a, s, 7, decided, With(s, r, UnlockRefused).(mutex := inside));
      Next(run, step, a, s, 8, With(s, r, UnlockRefused).(mutex := inside), With(s, r, Idle).(mutex := Free));
    }
  }

  /** The same of the transition system's own runs. */
  lemma RebootRuns(s: State, r: CallerId)
    requires CallerAt(s, r) == Idle && s.initialized && s.mutex == Free && !s.quiesce && s.guardOwner == None
    ensures Exec(s, Times(CallerAct(r), 9)) ==
            To(if s.numberClients == 0 && !s.transferActive
               then s.(callers := s.callers[r := Granted], quiesce := true, guardOwner := Some(r))
               else s.(callers := s.callers[r := Idle]))
  {
    RunningAlone(s, CallerAct(r));
    RebootAlone(Alone(s, CallerAct(r)), StepOf(CallerAct(r)), s, r);
  }

  /** On a server that is not initialised, without a mutex, or with a guard set, the call is
      refused after its second, third or fourth action, and changes nothing. */
  lemma RefusedAtOnce(run: nat -> Move, step: State -> Move, s: State, r: CallerId)
    requires RunsAlone(run, step, CallerAct(r), s) && CallerAt(s, r) == Idle
    ensures !s.initialized ==> run(2) == To(s.(callers := s.callers[r := Idle]))
    ensures s.initialized && s.mutex == Deleted ==> run(3) == To(s.(callers := s.callers[r := Idle]))
    ensures s.initialized && s.mutex != Deleted && s.quiesce ==> run(4) == To(s.(callers := s.callers[r := Idle]))
  {
    var a := CallerAct(r);
    FromIdle(step, s, r);
    Next(run, step, a, s, 0, s, With(s, r, Check));
    if !s.initialized {
      Next(run, step, a, s, 1, With(s, r, Check), With(s, r, Idle));
    } else if s.mutex == Deleted {
      FromCheckMutex(step, s, r);
      Next(run, step, a, s, 1, With(s, r, Check), With(s, r, CheckMutex));
      Next(run, step, a, s, 2, With(s, r, CheckMutex), With(s, r, Idle));
    } else if s.quiesce {
      ReachesCas(run, step, s, r);
      FromCas(step, s, r);
      Next(run, step, a, s, 3, With(s, r, Cas), With(s, r, Idle));
    }
  }

  /** ftpvita_cancel_reboot clears the guard. */
  lemma CancelAlone(run: nat -> Move, step: State -> Move, s: State, r: CallerId)
    requires RunsAlone(run, step, CallerAct(r), s) && CallerAt(s, r) == Granted
    ensures run(1) == To(s.(callers := s.callers[r := Idle], quiesce := false, guardOwner := None))
  {
    var u := s.(callers := s.callers[r := Idle], quiesce := false, guardOwner := None);
    assert Step(s, CallerAct(r)) == To(u);
    Next(run, step, CallerAct(r), s, 0, s, u);
  }

  // ---- ftpvita_abort_clients ----

  lemma FromAbortCheck(step: State -> Move, s: State, r: CallerId)
    requires IsStep(step, AbortAct(r)) && s.mutex == Free
    ensures CallerAt(s, r) == Idle ==> step(s) == To(With(s, r, AbortCheck))
    ensures step(With(s, r, AbortCheck)) == To(With(s, r, AbortLock))
  {
    var t := With(s, r, AbortCheck);
    assert Step(s, AbortAct(r)) == AbortStep(s, r) && Step(t, AbortAct(r)) == AbortStep(t, r);
    assert s.callers[r := AbortCheck][r := AbortLock] == s.callers[r := AbortLock];
  }

  lemma FromAbortLock(step: State -> Move, s: State, r: CallerId)
    requires IsStep(step, AbortAct(r)) && s.mutex == Free
    ensures step(With(s, r, AbortLock)) == To(With(s, r, AbortInside).(mutex := Held(ByAbort(r))))
    ensures step(With(s, r, AbortInside).(mutex := Held(ByAbort(r)))) == To(With(s, r, Idle))
  {
    var t, u := With(s, r, AbortLock), With(s, r, AbortInside).(mutex := Held(ByAbort(r)));
    assert Step(t, AbortAct(r)) == AbortStep(t, r) && Step(u, AbortAct(r)) == AbortStep(u, r);
    assert s.callers[r := AbortLock][r := AbortInside] == s.callers[r := AbortInside];
    assert s.callers[r := AbortInside][r := Idle] == s.callers[r := Idle];
  }

  /** With the mutex free, an abort gets to walk the list, and leaves everything as it was. */
  lemma AbortAlone(run: nat -> Move, step: State -> Move, s: State, r: CallerId)
    requires RunsAlone(run, step, AbortAct(r), s) && CallerAt(s, r) == Idle && s.mutex == Free
    ensures run(3) == To(s.(callers := s.callers[r := AbortInside], mutex := Held(ByAbort(r))))
    ensures run(4) == To(s.(callers := s.callers[r := Idle]))
  {
    var a, inside := AbortAct(r), With(s, r, AbortInside).(mutex := Held(ByAbort(r)));
    FromAbortCheck(step, s, r);
    FromAbortLock(step, s, r);
    Next(run, step, a, s, 0, s, With(s, r, AbortCheck));
    Next(run, step, a, s, 1, With(s, r, AbortCheck), With(s, r, AbortLock));
    Next(run, step, a, s, 2, With(s, r, AbortLock), inside);
    Next(run, step, a, s, 3, inside, With(s, r, Idle));
  }

  // ---- client_begin_transfer and client_end_transfer ----

  /** The client c as given, and the transfer flag. */
  function Client1(s: State, c: ClientId, cl: Client): State {
    s.(clients := s.clients[c := cl])
  }

  function Flag(s: State, active: bool, owner: Option<ClientId>): State {
    s.(transferActive := active, transferOwner := owner)
  }

  lemma PutTwice(s: State, c: ClientId, x: Client, y: Client)
    ensures s.clients[c := x][c := y] == s.clients[c := y]
    ensures c in s.clients && s.clients[c] == y ==> s.clients[c := y] == s.clients
  {
  }

  lemma FromServing(step: State -> Move, s: State, c: ClientId)
    requires IsStep(step, ClientAct(c, true)) && c in s.clients && s.clients[c].pc == Serving
    ensures step(s) == To(Client1(s, c, s.clients[c].(pc := BeginGuard)))
    ensures step(Client1(s, c, s.clients[c].(pc := BeginGuard))) ==
            To(if s.quiesce then s else Client1(s, c, s.clients[c].(pc := BeginCas)))
  {
    var cl := s.clients[c];
    var t := Client1(s, c, cl.(pc := BeginGuard));
    assert Step(s, ClientAct(c, true)) == ClientStep(s, c, true) && Step(t, ClientAct(c, true)) == ClientStep(t, c, true);
    PutTwice(s, c, cl.(pc := BeginGuard), cl.(pc := BeginCas));
    PutTwice(s, c, cl.(pc := BeginGuard), cl);
    assert cl.(pc := Serving) == cl;
  }

  lemma FromBeginCas(step: State -> Move, s: State, c: ClientId)
    requires IsStep(step, ClientAct(c, true)) && c in s.clients && s.clients[c].pc == Serving
    ensures step(Client1(s, c, s.clients[c].(pc := BeginCas))) ==
            To(if s.transferActive then s else Flag(Client1(s, c, s.clients[c].(pc := BeginRecheck)), true, Some(c)))
  {
    var cl := s.clients[c];
    var t := Client1(s, c, cl.(pc := BeginCas));
    assert Step(t, ClientAct(c, true)) == ClientStep(t, c, true);
    PutTwice(s, c, cl.(pc := BeginCas), cl.(pc := BeginRecheck));
    PutTwice(s, c, cl.(pc := BeginCas), cl);
    assert cl.(pc := Serving) == cl;
  }

  lemma FromRecheck(step: State -> Move, s: State, c: ClientId)
    requires IsStep(step, ClientAct(c, true)) && c in s.clients && !s.quiesce
    ensures step(Flag(Client1(s, c, s.clients[c].(pc := BeginRecheck)), true, Some(c))) ==
            To(Flag(Client1(s, c, s.clients[c].(pc := Transferring)), true, Some(c)))
  {
    var cl := s.clients[c];
    var t := Flag(Client1(s, c, cl.(pc := BeginRecheck)), true, Some(c));
    assert Step(t, ClientAct(c, true)) == ClientStep(t, c, true);
    PutTwice(s, c, cl.(pc := BeginRecheck), cl.(pc := Transferring));
  }

  lemma FromTransferring(step: State -> Move, s: State, c: ClientId)
    requires IsStep(step, ClientAct(c, true)) && c in s.clients && s.clients[c].pc == Serving
    requires !s.transferActive && s.transferOwner == None
    ensures step(Flag(Client1(s, c, s.clients[c].(pc := Transferring)), true, Some(c))) == To(s)
  {
    var cl := s.clients[c];
    var t := Flag(Client1(s, c, cl.(pc := Transferring)), true, Some(c));
    assert Step(t, ClientAct(c, true)) == ClientStep(t, c, true);
    PutTwice(s, c, cl.(pc := Transferring), cl);
    assert cl.(pc := Serving) == cl;
  }

  /** A client alone is admitted iff neither flag is set; a refused one leaves everything as it
      was, and so does an admitted one when it has ended its transfer. */
  lemma TransferAlone(run: nat -> Move, step: State -> Move, s: State, c: ClientId)
    requires RunsAlone(run, step, ClientAct(c, true), s)
    requires c in s.clients && s.clients[c].pc == Serving && (!s.transferActive ==> s.transferOwner == None)
    ensures s.quiesce ==> run(2) == To(s)
    ensures !s.quiesce && s.transferActive ==> run(3) == To(s)
    ensures !s.quiesce && !s.transferActive ==>
      run(4) == To(s.(clients := s.clients[c := s.clients[c].(pc := Transferring)],
                      transferActive := true, transferOwner := Some(c)))
    ensures !s.quiesce && !s.transferActive ==> run(5) == To(s)
  {
    var a, cl := ClientAct(c, true), s.clients[c];
    FromServing(step, s, c);
    Next(run, step, a, s, 0, s, Client1(s, c, cl.(pc := BeginGuard)));
    if s.quiesce {
      Next(run, step, a, s, 1, Client1(s, c, cl.(pc := BeginGuard)), s);
    } else {
      FromBeginCas(step, s, c);
      Next(run, step, a, s, 1, Client1(s, c, cl.(pc := BeginGuard)), Client1(s, c, cl.(pc := BeginCas)));
      if s.transferActive {
        Next(run, step, a, s, 2, Client1(s, c, cl.(pc := BeginCas)), s);
      } else {
        AdmittedAlone(run, step, s, c);
      }
    }
  }

  lemma AdmittedAlone(run: nat -> Move, step: State -> Move, s: State, c: ClientId)
    requires RunsAlone(run, step, ClientAct(c, true), s)
    requires c in s.clients && s.clients[c].pc == Serving && !s.quiesce && !s.transferActive && s.transferOwner == None
    requires run(2) == To(Client1(s, c, s.clients[c].(pc := BeginCas)))
    ensures run(4) == To(Flag(Client1(s, c, s.clients[c].(pc := Transferring)), true, Some(c))) && run(5) == To(s)
  {
    var a, cl := ClientAct(c, true), s.clients[c];
    var taken := Flag(Client1(s, c, cl.(pc := BeginRecheck)), true, Some(c));
    var admitted := Flag(Client1(s, c, cl.(pc := Transferring)), true, Some(c));
    FromBeginCas(step, s, c);
    FromRecheck(step, s, c);
    FromTransferring(step, s, c);
    Next(run, step, a, s, 2, Client1(s, c, cl.(pc := BeginCas)), taken);
    Next(run, step, a, s, 3, taken, admitted);
    Next(run, step, a, s, 4, admitted, s);
  }

  // ---- the accept thread ----

  /** The accept thread works on c, whose record is as given. */
  function At(s: State, c: ClientId, cl: Client, server: ServerPc, m: Mutex): State {
    s.(clients := s.clients[c := cl], server := server, mutex := m)
  }

  function Accepted(s: State): State {
    s.(nextClient := s.nextClient + 1)
  }

  const NEW := Client(Unstarted, false, Dormant, 0, 0)
  const NEW_LISTED := Client(Unstarted, true, Dormant, 0, 0)

  lemma FromAccepting(step: State -> Move, s: State, choice: bool)
    requires IsStep(step, ServerAct(choice)) && s.server == Accepting && choice && s.mutex == Free
    ensures step(s) == To(At(Accepted(s), s.nextClient, NEW, AddLock(s.nextClient), Free))
  {
    assert Step(s, ServerAct(choice)) == ServerStep(s, choice);
  }

  lemma FromAddLock(step: State -> Move, s: State, c: ClientId, choice: bool)
    requires IsStep(step, ServerAct(choice))
    ensures step(At(s, c, NEW, AddLock(c), Free)) == To(At(s, c, NEW, AddGuard(c), Held(ByServer)))
    ensures step(At(s, c, NEW, AddGuard(c), Held(ByServer))) ==
            To(At(s, c, NEW, if s.quiesce then AddRefused(c) else AddInsert(c), Held(ByServer)))
  {
    var t, u := At(s, c, NEW, AddLock(c), Free), At(s, c, NEW, AddGuard(c), Held(ByServer));
    assert Step(t, ServerAct(choice)) == ServerStep(t, choice) && Step(u, ServerAct(choice)) == ServerStep(u, choice);
  }

  function InList(s: State, c: ClientId): State {
    s.(list := [c] + s.list, numberClients := s.numberClients + 1)
  }

  lemma FromAddInsert(step: State -> Move, s: State, c: ClientId, choice: bool)
    requires IsStep(step, ServerAct(choice))
    ensures step(At(s, c, NEW, AddInsert(c), Held(ByServer))) ==
            To(if s.numberClients >= 8 then At(s, c, NEW, AddRefused(c), Held(ByServer))
               else At(InList(s, c), c, NEW_LISTED, AddUnlock(c), Held(ByServer)))
  {
    var t := At(s, c, NEW, AddInsert(c), Held(ByServer));
    assert Step(t, ServerAct(choice)) == ServerStep(t, choice);
    PutTwice(s, c, NEW, NEW_LISTED);
  }

  lemma FromAddUnlock(step: State -> Move, s: State, c: ClientId, choice: bool)
    requires IsStep(step, ServerAct(choice))
    ensures step(At(s, c, NEW_LISTED, AddUnlock(c), Held(ByServer))) == To(At(s, c, NEW_LISTED, Start(c), Free))
    ensures step(At(s, c, NEW_LISTED, Start(c), Free)) ==
            To(if choice then At(s, c, Client(Serving, true, Running, 0, 0), Accepting, Free)
               else At(s, c, NEW_LISTED, UndoLock(c), Free))
  {
    var t, u := At(s, c, NEW_LISTED, AddUnlock(c), Held(ByServer)), At(s, c, NEW_LISTED, Start(c), Free);
    assert Step(t, ServerAct(choice)) == ServerStep(t, choice) && Step(u, ServerAct(choice)) == ServerStep(u, choice);
    PutTwice(s, c, NEW_LISTED, Client(Serving, true, Running, 0, 0));
  }

  lemma FromRefused(step: State -> Move, s: State, c: ClientId, choice: bool)
    requires IsStep(step, ServerAct(choice))
    ensures step(At(s, c, NEW, AddRefused(c), Held(ByServer))) == To(At(s, c, NEW, DropThread(c), Free))
    ensures step(At(s, c, NEW, UndoUnlock(c), Held(ByServer))) == To(At(s, c, NEW, DropThread(c), Free))
  {
    var t, u := At(s, c, NEW, AddRefused(c), Held(ByServer)), At(s, c, NEW, UndoUnlock(c), Held(ByServer));
    assert Step(t, ServerAct(choice)) == ServerStep(t, choice) && Step(u, ServerAct(choice)) == ServerStep(u, choice);
  }

  lemma FromDrop(step: State -> Move, s: State, c: ClientId, choice: bool)
    requires IsStep(step, ServerAct(choice))
    ensures step(At(s, c, NEW, DropThread(c), Free)) ==
            To(At(s, c, Client(Unstarted, false, Removed, 1, 0), DropRecord(c), Free))
    ensures step(At(s, c, Client(Unstarted, false, Removed, 1, 0), DropRecord(c), Free)) ==
            To(At(s, c, Client(Gone, false, Removed, 1, 1), Accepting, Free))
  {
    var dropped := Client(Unstarted, false, Removed, 1, 0);
    var t, u := At(s, c, NEW, DropThread(c), Free), At(s, c, dropped, DropRecord(c), Free);
    assert Step(t, ServerAct(choice)) == ServerStep(t, choice) && Step(u, ServerAct(choice)) == ServerStep(u, choice);
    PutTwice(s, c, NEW, dropped);
    PutTwice(s, c, dropped, Client(Gone, false, Removed, 1, 1));
  }

  lemma GivesBack(run: nat -> Move, step: State -> Move, choice: bool, s: State, n: nat, t: State, c: ClientId)
    requires RunsAlone(run, step, ServerAct(choice), s) && run(n) == To(At(t, c, NEW, DropThread(c), Free))
    ensures run(n + 2) == To(At(t, c, Client(Gone, false, Removed, 1, 1), Accepting, Free))
  {
    var dropped := At(t, c, Client(Unstarted, false, Removed, 1, 0), DropRecord(c), Free);
    FromDrop(step, t, c, choice);
    Next(run, step, ServerAct(choice), s, n, At(t, c, NEW, DropThread(c), Free), dropped);
    Next(run, step, ServerAct(choice), s, n + 1, dropped, At(t, c, Client(Gone, false, Removed, 1, 1), Accepting, Free));
  }

  lemma ReachesInsert(run: nat -> Move, step: State -> Move, s: State)
    requires RunsAlone(run, step, ServerAct(true), s) && s.server == Accepting && s.mutex == Free
    ensures var c := s.nextClient;
      run(3) == To(At(Accepted(s), c, NEW, if s.quiesce then AddRefused(c) else AddInsert(c), Held(ByServer)))
  {
    var a, c, t := ServerAct(true), s.nextClient, Accepted(s);
    FromAccepting(step, s, true);
    FromAddLock(step, t, c, true);
    Next(run, step, a, s, 0, s, At(t, c, NEW, AddLock(c), Free));
    Next(run, step, a, s, 1, At(t, c, NEW, AddLock(c), Free), At(t, c, NEW, AddGuard(c), Held(ByServer)));
    Next(run, step, a, s, 2, At(t, c, NEW, AddGuard(c), Held(ByServer)),
         At(t, c, NEW, if s.quiesce then AddRefused(c) else AddInsert(c), Held(ByServer)));
  }

  lemma ListedAlone(run: nat -> Move, step: State -> Move, s: State, t: State, c: ClientId)
    requires RunsAlone(run, step, ServerAct(true), s) && t.numberClients < 8
    requires run(3) == To(At(t, c, NEW, AddInsert(c), Held(ByServer)))
    ensures run(6) == To(At(InList(t, c), c, Client(Serving, true, Running, 0, 0), Accepting, Free))
  {
    var a, u := ServerAct(true), InList(t, c);
    FromAddInsert(step, t, c, true);
    FromAddUnlock(step, u, c, true);
    Next(run, step, a, s, 3, At(t, c, NEW, AddInsert(c), Held(ByServer)), At(u, c, NEW_LISTED, AddUnlock(c), Held(ByServer)));
    Next(run, step, a, s, 4, At(u, c, NEW_LISTED, AddUnlock(c), Held(ByServer)), At(u, c, NEW_LISTED, Start(c), Free));
    Next(run, step, a, s, 5, At(u, c, NEW_LISTED, Start(c), Free), At(u, c, Client(Serving, true, Running, 0, 0), Accepting, Free));
  }

  /** An accepted connection is listed, in front, and served iff no reboot is requested and
      fewer than eight clients are listed; otherwise its thread and its record are given back. */
  lemma AcceptAlone(run: nat -> Move, step: State -> Move, s: State)
    requires RunsAlone(run, step, ServerAct(true), s) && s.server == Accepting && s.mutex == Free
    ensures !s.quiesce && s.numberClients < 8 ==>
      run(6) ==
      To(s.(clients := s.clients[s.nextClient := Client(Serving, true, Running, 0, 0)], nextClient := s.nextClient + 1,
            list := [s.nextClient] + s.list, numberClients := s.numberClients + 1))
    ensures s.quiesce || s.numberClients >= 8 ==>
      run(if s.quiesce then 6 else 7) ==
      To(s.(clients := s.clients[s.nextClient := Client(Gone, false, Removed, 1, 1)], nextClient := s.nextClient + 1))
  {
    var a, c, t := ServerAct(true), s.nextClient, Accepted(s);
    ReachesInsert(run, step, s);
    FromRefused(step, t, c, true);
    var refused, dropping := At(t, c, NEW, AddRefused(c), Held(ByServer)), At(t, c, NEW, DropThread(c), Free);
    if s.quiesce {
      Next(run, step, a, s, 3, refused, dropping);
      GivesBack(run, step, true, s, 4, t, c);
    } else if s.numberClients >= 8 {
      FromAddInsert(step, t, c, true);
      Next(run, step, a, s, 3, At(t, c, NEW, AddInsert(c), Held(ByServer)), refused);
      Next(run, step, a, s, 4, refused, dropping);
      GivesBack(run, step, true, s, 5, t, c);
    } else {
      ListedAlone(run, step, s, t, c);
    }
  }

  function OffList(s: State, c: ClientId): State
    requires s.numberClients > 0
  {
    s.(list := Without(s.list, c), numberClients := s.numberClients - 1)
  }

  lemma FromUndo(step: State -> Move, s: State, c: ClientId)
    requires IsStep(step, ServerAct(false)) && s.numberClients > 0
    ensures step(At(s, c, NEW_LISTED, UndoLock(c), Free)) == To(At(s, c, NEW_LISTED, UndoBody(c), Held(ByServer)))
    ensures step(At(s, c, NEW_LISTED, UndoBody(c), Held(ByServer))) ==
            To(At(OffList(s, c), c, NEW, UndoUnlock(c), Held(ByServer)))
  {
    var t, u := At(s, c, NEW_LISTED, UndoLock(c), Free), At(s, c, NEW_LISTED, UndoBody(c), Held(ByServer));
    assert Step(t, ServerAct(false)) == ServerStep(t, false) && Step(u, ServerAct(false)) == ServerStep(u, false);
    PutTwice(s, c, NEW_LISTED, NEW);
  }

  /** A thread that does not start: the client leaves the list again and is given back. */
  lemma StartFails(run: nat -> Move, step: State -> Move, s: State, c: ClientId)
    requires RunsAlone(run, step, ServerAct(false), s)
    requires s.server == Start(c) && s.mutex == Free && s.numberClients > 0
    requires c in s.clients && s.clients[c] == Client(Unstarted, true, Dormant, 0, 0)
    ensures run(6) ==
      To(s.(clients := s.clients[c := Client(Gone, false, Removed, 1, 1)], list := Without(s.list, c),
            numberClients := s.numberClients - 1, server := Accepting))
  {
    var a, t := ServerAct(false), OffList(s, c);
    PutTwice(s, c, NEW, NEW_LISTED);
    assert s == At(s, c, NEW_LISTED, Start(c), Free);
    FromAddUnlock(step, s, c, false);
    FromUndo(step, s, c);
    FromRefused(step, t, c, false);
    Next(run, step, a, s, 0, s, At(s, c, NEW_LISTED, UndoLock(c), Free));
    Next(run, step, a, s, 1, At(s, c, NEW_LISTED, UndoLock(c), Free), At(s, c, NEW_LISTED, UndoBody(c), Held(ByServer)));
    Next(run, step, a, s, 2, At(s, c, NEW_LISTED, UndoBody(c), Held(ByServer)), At(t, c, NEW, UndoUnlock(c), Held(ByServer)));
    Next(run, step, a, s, 3, At(t, c, NEW, UndoUnlock(c), Held(ByServer)), At(t, c, NEW, DropThread(c), Free));
    GivesBack(run, step, false, s, 4, t, c);
  }

  // ---- a client that ends ----

  /** The client c as given, and who holds the mutex. */
  function In(s: State, c: ClientId, cl: Client, m: Mutex): State {
    s.(clients := s.clients[c := cl], mutex := m)
  }

  lemma FromServingOut(step: State -> Move, s: State, c: ClientId)
    requires IsStep(step, ClientAct(c, false)) && c in s.clients && s.clients[c].pc == Serving && s.mutex == Free
    ensures step(s) == To(In(s, c, s.clients[c].(pc := DeleteLock), Free))
    ensures step(In(s, c, s.clients[c].(pc := DeleteLock), Free)) ==
            To(In(s, c, s.clients[c].(pc := DeleteBody), Held(ByClient(c))))
  {
    var cl := s.clients[c];
    var t := In(s, c, cl.(pc := DeleteLock), Free);
    assert Step(s, ClientAct(c, false)) == ClientStep(s, c, false) && Step(t, ClientAct(c, false)) == ClientStep(t, c, false);
    PutTwice(s, c, cl.(pc := DeleteLock), cl.(pc := DeleteBody));
  }

  lemma FromDeleteBody(step: State -> Move, s: State, c: ClientId, cl: Client)
    requires IsStep(step, ClientAct(c, false)) && cl.pc == DeleteBody && (cl.inList ==> s.numberClients > 0)
    ensures step(In(s, c, cl, Held(ByClient(c)))) ==
            To(In(if cl.inList then OffList(s, c) else s, c, cl.(pc := DeleteUnlock(cl.inList), inList := false), Held(ByClient(c))))
  {
    var t := In(s, c, cl, Held(ByClient(c)));
    assert Step(t, ClientAct(c, false)) == ClientStep(t, c, false);
    PutTwice(s, c, cl, cl.(pc := DeleteUnlock(cl.inList), inList := false));
  }

  lemma FromDeleteUnlock(step: State -> Move, s: State, c: ClientId, cl: Client, own: bool)
    requires IsStep(step, ClientAct(c, false))
    ensures step(In(s, c, cl.(pc := DeleteUnlock(own)), Held(ByClient(c)))) == To(In(s, c, cl.(pc := Closing(own)), Free))
    ensures step(In(s, c, cl.(pc := Closing(own)), Free)) ==
            To(In(s, c, cl.(pc := Exiting(own), frees := cl.frees + 1), Free))
  {
    var t, u := In(s, c, cl.(pc := DeleteUnlock(own)), Held(ByClient(c))), In(s, c, cl.(pc := Closing(own)), Free);
    assert Step(t, ClientAct(c, false)) == ClientStep(t, c, false) && Step(u, ClientAct(c, false)) == ClientStep(u, c, false);
    PutTwice(s, c, cl.(pc := DeleteUnlock(own)), cl.(pc := Closing(own)));
    PutTwice(s, c, cl.(pc := Closing(own)), cl.(pc := Exiting(own), frees := cl.frees + 1));
  }

  lemma FromExiting(step: State -> Move, s: State, c: ClientId, cl: Client, own: bool)
    requires IsStep(step, ClientAct(c, false)) && cl.pc == Exiting(own)
    ensures step(In(s, c, cl, Free)) ==
            To(In(s, c, if own then cl.(pc := Gone, thread := Removed, deletions := cl.deletions + 1)
                        else cl.(pc := Gone, thread := Ended), Free))
  {
    var t := In(s, c, cl, Free);
    assert Step(t, ClientAct(c, false)) == ClientStep(t, c, false);
    PutTwice(s, c, cl, if own then cl.(pc := Gone, thread := Removed, deletions := cl.deletions + 1)
                       else cl.(pc := Gone, thread := Ended));
  }

  lemma Leaves(run: nat -> Move, step: State -> Move, s: State, t: State, c: ClientId, own: bool)
    requires RunsAlone(run, step, ClientAct(c, false), s)
    requires run(3) == To(In(t, c, Client(DeleteUnlock(own), false, Running, 0, 0), Held(ByClient(c))))
    ensures run(6) == To(In(t, c, if own then Client(Gone, false, Removed, 1, 1) else Client(Gone, false, Ended, 0, 1), Free))
  {
    var a, cl := ClientAct(c, false), Client(DeleteUnlock(own), false, Running, 0, 0);
    var freed := Client(Exiting(own), false, Running, 0, 1);
    FromDeleteUnlock(step, t, c, cl, own);
    FromExiting(step, t, c, freed, own);
    Next(run, step, a, s, 3, In(t, c, cl, Held(ByClient(c))), In(t, c, cl.(pc := Closing(own)), Free));
    Next(run, step, a, s, 4, In(t, c, cl.(pc := Closing(own)), Free), In(t, c, freed, Free));
    Next(run, step, a, s, 5, In(t, c, freed, Free),
         In(t, c, if own then Client(Gone, false, Removed, 1, 1) else Client(Gone, false, Ended, 0, 1), Free));
  }

  /** A listed client that ends leaves the list and gives back its record and its thread; one
      that teardown has detached gives back its record and leaves its thread to be joined. */
  lemma LeaveAlone(run: nat -> Move, step: State -> Move, s: State, c: ClientId, inList: bool)
    requires RunsAlone(run, step, ClientAct(c, false), s)
    requires c in s.clients && s.clients[c] == Client(Serving, inList, Running, 0, 0) && s.mutex == Free
    requires inList ==> s.numberClients > 0
    ensures inList ==>
      run(6) ==
      To(s.(clients := s.clients[c := Client(Gone, false, Removed, 1, 1)], list := Without(s.list, c),
            numberClients := s.numberClients - 1))
    ensures !inList ==> run(6) == To(s.(clients := s.clients[c := Client(Gone, false, Ended, 0, 1)]))
  {
    var a, cl := ClientAct(c, false), s.clients[c];
    var body := Client(DeleteBody, inList, Running, 0, 0);
    FromServingOut(step, s, c);
    FromDeleteBody(step, s, c, body);
    Next(run, step, a, s, 0, s, In(s, c, cl.(pc := DeleteLock), Free));
    Next(run, step, a, s, 1, In(s, c, cl.(pc := DeleteLock), Free), In(s, c, body, Held(ByClient(c))));
    var t := if inList then OffList(s, c) else s;
    Next(run, step, a, s, 2, In(s, c, body, Held(ByClient(c))),
         In(t, c, Client(DeleteUnlock(inList), false, Running, 0, 0), Held(ByClient(c))));
    Leaves(run, step, s, t, c, inList);
  }

  // ---- ftpvita_fini ----

  function Begun(s: State, t: TeardownPc, m: Mutex): State {
    s.(initialized := false, teardown := t, mutex := m,
       inFlightAtFini := exists r :: r in s.callers && InFlight(s.callers[r]))
  }

  lemma FromFini(step: State -> Move, s: State)
    requires IsStep(step, TeardownAct) && s.server == Stopped && s.mutex == Free
    ensures s.teardown == NotStarted ==> step(s) == To(Begun(s, WaitServer, Free))
    ensures step(Begun(s, WaitServer, Free)) == To(Begun(s, LockList, Free))
    ensures step(Begun(s, LockList, Free)) == To(Begun(s, Detach, Held(ByTeardown)))
  {
    assert Step(s, TeardownAct) == TeardownStep(s);
    assert Step(Begun(s, WaitServer, Free), TeardownAct) == To(Begun(s, LockList, Free));
    assert Step(Begun(s, LockList, Free), TeardownAct) == To(Begun(s, Detach, Held(ByTeardown)));
  }

  /** Every listed client is off the list, and the transfer flag is cleared. */
  function Detached(s: State, t: TeardownPc, m: Mutex, active: bool, owner: Option<ClientId>): State {
    s.(clients := map c | c in s.clients :: (if c in s.list then s.clients[c].(inList := false) else s.clients[c]),
       list := [], numberClients := 0, detached := (set c | c in s.list), teardown := t, mutex := m,
       transferActive := active, transferOwner := owner)
  }

  lemma FromDetach(step: State -> Move, s: State)
    requires IsStep(step, TeardownAct) && s.teardown == Detach && |s.list| <= 8
    ensures step(s) == To(Detached(s, DropTransfer(s.list), s.mutex, s.transferActive, s.transferOwner))
  {
    assert Step(s, TeardownAct) == To(DetachAll(s));
  }

  lemma FromDropTransfer(step: State -> Move, s: State, list: seq<ClientId>)
    requires IsStep(step, TeardownAct)
    requires s.teardown == DropTransfer(list) && s.mutex == Held(ByTeardown)
    ensures var t := s.(transferActive := false, transferOwner := None, teardown := UnlockList(list));
      step(s) == To(t) && step(t) == To(t.(mutex := Free, teardown := Join(list)))
  {
    var t := s.(transferActive := false, transferOwner := None, teardown := UnlockList(list));
    assert Step(s, TeardownAct) == To(t) && Step(t, TeardownAct) == To(t.(mutex := Free, teardown := Join(list)));
  }

  /** Teardown takes every client off the list, clears the transfer flag, and goes on to join
      those clients. */
  lemma FiniDetaches(run: nat -> Move, step: State -> Move, s: State)
    requires RunsAlone(run, step, TeardownAct, s)
    requires s.teardown == NotStarted && s.server == Stopped && s.mutex == Free && |s.list| <= 8
    ensures run(6) == To(
      s.(initialized := false, inFlightAtFini := exists r :: r in s.callers && InFlight(s.callers[r]),
         clients := map c | c in s.clients :: (if c in s.list then s.clients[c].(inList := false) else s.clients[c]),
         list := [], numberClients := 0, detached := (set c | c in s.list),
         transferActive := false, transferOwner := None, teardown := Join(s.list)))
  {
    var a, b := TeardownAct, Begun(s, Detach, Held(ByTeardown));
    FromFini(step, s);
    Next(run, step, a, s, 0, s, Begun(s, WaitServer, Free));
    Next(run, step, a, s, 1, Begun(s, WaitServer, Free), Begun(s, LockList, Free));
    Next(run, step, a, s, 2, Begun(s, LockList, Free), b);
    FromDetach(step, b);
    var d := Detached(b, DropTransfer(s.list), Held(ByTeardown), s.transferActive, s.transferOwner);
    Next(run, step, a, s, 3, b, d);
    FromDropTransfer(step, d, s.list);
    var e := d.(transferActive := false, transferOwner := None, teardown := UnlockList(s.list));
    Next(run, step, a, s, 4, d, e);
    Next(run, step, a, s, 5, e, e.(mutex := Free, teardown := Join(s.list)));
  }

  /** A client whose thread has ended is joined, and its thread deleted; until then teardown waits. */
  lemma FiniJoins(s: State, rest: seq<ClientId>)
    requires s.teardown == Join(rest) && rest != [] && rest[0] in s.clients
    ensures var c, cl := rest[0], s.clients[rest[0]];
      Step(s, TeardownAct) ==
        if cl.thread == Ended || cl.thread == Removed
        then To(s.(clients := s.clients[c := cl.(thread := Removed, deletions := cl.deletions + 1)], teardown := Join(rest[1..])))
        else Blocked
  {
  }

  lemma FromJoined(step: State -> Move, s: State)
    requires IsStep(step, TeardownAct) && s.teardown == Join([])
    ensures step(s) == To(s.(teardown := DeleteMutex))
    ensures step(s.(teardown := DeleteMutex)) == To(s.(teardown := ResetList, mutex := Deleted))
  {
    assert Step(s, TeardownAct) == To(s.(teardown := DeleteMutex));
    assert Step(s.(teardown := DeleteMutex), TeardownAct) == To(s.(teardown := ResetList, mutex := Deleted));
  }

  lemma FromReset(step: State -> Move, s: State)
    requires IsStep(step, TeardownAct) && s.teardown == ResetList
    ensures var t := s.(teardown := ResetTransfer, list := [], numberClients := 0);
      && step(s) == To(t) && step(t) == To(t.(teardown := ResetGuard, transferActive := false, transferOwner := None))
  {
    var t := s.(teardown := ResetTransfer, list := [], numberClients := 0);
    assert Step(s, TeardownAct) == To(t);
    assert Step(t, TeardownAct) == To(t.(teardown := ResetGuard, transferActive := false, transferOwner := None));
  }

  lemma FromResetGuard(step: State -> Move, s: State)
    requires IsStep(step, TeardownAct) && s.teardown == ResetGuard
    ensures step(s) == To(s.(teardown := Finished, quiesce := false, guardOwner := None))
  {
    assert Step(s, TeardownAct) == TeardownStep(s);
  }

  /** With nobody left to join, teardown deletes the mutex and resets every variable. */
  lemma FiniEnds(run: nat -> Move, step: State -> Move, s: State)
    requires RunsAlone(run, step, TeardownAct, s) && s.teardown == Join([])
    ensures run(5) ==
      To(s.(teardown := Finished, mutex := Deleted, list := [], numberClients := 0, transferActive := false,
            transferOwner := None, quiesce := false, guardOwner := None))
  {
    var a, s2 := TeardownAct, s.(teardown := ResetList, mutex := Deleted);
    FromJoined(step, s);
    FromReset(step, s2);
    Next(run, step, a, s, 0, s, s.(teardown := DeleteMutex));
    Next(run, step, a, s, 1, s.(teardown := DeleteMutex), s2);
    var s3 := s2.(teardown := ResetTransfer, list := [], numberClients := 0);
    var s4 := s3.(teardown := ResetGuard, transferActive := false, transferOwner := None);
    FromResetGuard(step, s4);
    Next(run, step, a, s, 2, s2, s3);
    Next(run, step, a, s, 3, s3, s4);
    Next(run, step, a, s, 4, s4, s4.(teardown := Finished, quiesce := false, guardOwner := None));
  }
}
