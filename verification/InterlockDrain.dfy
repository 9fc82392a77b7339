/** What the clearing of transfer_active in teardown can lead to while detached clients
    still run: the exact condition, at the moment of the clearing, for a reboot call to
    return 1 beside an admitted transfer. */
module InterlockDrain {
  import opened Options
  import opened Interlock
  import opened InterlockInvariant
  import opened InterlockProof
  import opened InterlockSafety

  ghost predicate SomeCallerAt(s: State, pc: CallerPc) {
    exists r :: r in s.callers && s.callers[r] == pc
  }

  /** A reboot call has passed its first check and has yet to take the guard. */
  ghost predicate SomeCallerBeforeCas(s: State) {
    SomeCallerAt(s, CheckMutex) || SomeCallerAt(s, Cas)
  }

  ghost predicate SomeOtherInLoop(s: State, c: ClientId) {
    exists d :: d in s.clients && d != c && InLoop(s.clients[d].pc)
  }

  /** A client that will own a flag it no longer holds, and a reboot call that can still
      come to see the flag clear: one that has yet to take the guard, or that has taken it
      while the client is already past its re-check. */
  ghost predicate RiskFrom(s: State, c: ClientId)
    requires c in s.clients
  {
    match s.clients[c].pc
    case Transferring => SomeCallerBeforeCas(s) || SomeCallerAt(s, Lock)
    case BeginRecheck => SomeCallerBeforeCas(s)
    case BeginUndo => SomeCallerBeforeCas(s) && SomeOtherInLoop(s, c)
    case _ => false
  }

  /** Read at the state in which teardown is about to clear transfer_active. */
  ghost predicate Risk(s: State) {
    exists c :: c in s.clients && RiskFrom(s, c)
  }

  /** A reboot call has returned 1 and a transfer is admitted. */
  ghost predicate Bad(s: State) {
    && s.teardown != Finished && !NoneAdmitted(s)
    && exists r :: r in s.callers && s.callers[r] == Granted
  }

  // ---- safe ways to drain ----

  /** The invariant of the flags as it was before the drain. */
  ghost predicate Orderly(s: State) {
    GuardInvAt(s, 0)
  }

  /** No call can take the guard any more, and nothing is admitted beside one that has it. */
  ghost predicate NoNewCall(s: State) {
    && !s.initialized && !SomeCallerBeforeCas(s)
    && forall r | r in s.callers && OwnsGuard(s.callers[r]) && s.callers[r] != AbandonGuard :: NoneAdmitted(s)
  }

  /** One client is about to give up its attempt, and no other will make one. */
  ghost predicate LastUndo(s: State) {
    && !s.transferActive && s.transferOwner == None
    && exists c :: c in s.clients && s.clients[c].pc == BeginUndo && !SomeOtherInLoop(s, c)
  }

  ghost predicate SafeDrain(s: State) {
    Orderly(s) || NoNewCall(s) || LastUndo(s)
  }

  lemma SafeDrainIsSafe(s: State)
    requires GuardInv(s) && Phase(s.teardown) <= 10 && SafeDrain(s)
    ensures !Bad(s)
  {
    forall r | r in s.callers && s.callers[r] == Granted
      ensures NoneAdmitted(s)
    {
      assert OwnsGuard(s.callers[r]) && SawNoTransfer(s.callers[r]);
      if LastUndo(s) {
        var c :| c in s.clients && s.clients[c].pc == BeginUndo && !SomeOtherInLoop(s, c);
        assert forall d | d in s.clients && d != c :: !InLoop(s.clients[d].pc);
      }
    }
  }

  // ---- what a step leaves alone ----

  /** Only the client c moves, and no flag of the reboot calls changes. */
  ghost predicate OnlyClient(s: State, s': State, c: ClientId) {
    && s'.quiesce == s.quiesce && s'.callers == s.callers && s'.initialized == s.initialized
    && c in s'.clients && (forall d | d in s.clients :: d in s'.clients)
    && (forall d | d in s'.clients && d != c :: d in s.clients && s'.clients[d] == s.clients[d])
  }

  lemma LoopFrame(s: State, c: ClientId, choice: bool)
    requires c in s.clients && InLoop(s.clients[c].pc)
    ensures OnlyClient(s, LoopStep(s, c, choice), c)
  {
  }

  lemma LocksFrame(s: State, c: ClientId)
    requires c in s.clients && ClientLocks(s, c).To?
    ensures OnlyClient(s, ClientLocks(s, c).state, c)
  {
  }

  lemma DeletesFrame(s: State, c: ClientId)
    requires c in s.clients
    ensures OnlyClient(s, ClientDeletes(s, c), c)
  {
  }

  lemma UnlocksFrame(s: State, c: ClientId, own: bool)
    requires c in s.clients
    ensures OnlyClient(s, ClientUnlocks(s, c, own), c)
  {
  }

  lemma FreesFrame(s: State, c: ClientId, own: bool)
    requires c in s.clients
    ensures OnlyClient(s, ClientFrees(s, c, own), c) && OnlyClient(s, ClientExits(s, c, own), c)
  {
  }

  lemma ClientFrame(s: State, c: ClientId, choice: bool)
    requires c in s.clients && ClientStep(s, c, choice).To?
    ensures OnlyClient(s, ClientStep(s, c, choice).state, c)
  {
    match s.clients[c].pc
    case DeleteLock => LocksFrame(s, c);
    case DeleteBody => DeletesFrame(s, c);
    case DeleteUnlock(own) => UnlocksFrame(s, c, own);
    case Closing(own) => FreesFrame(s, c, own);
    case Exiting(own) => FreesFrame(s, c, own);
    case _ => LoopFrame(s, c, choice);
  }

  /** Which moves within the loop admit a transfer. */
  ghost predicate AdmitsOnlyAfterRecheck(s: State, s': State, c: ClientId)
    requires c in s.clients
  {
    c in s'.clients && (s'.clients[c].pc == Transferring ==> !s.quiesce && s.clients[c].pc == BeginRecheck)
  }

  lemma MoveAdmits(s: State, c: ClientId, pc: ClientPc)
    requires c in s.clients && (pc == Transferring ==> !s.quiesce && s.clients[c].pc == BeginRecheck)
    ensures AdmitsOnlyAfterRecheck(s, MoveClient(s, c, pc), c)
    ensures AdmitsOnlyAfterRecheck(s, ReleaseTransfer(s, c), c) && AdmitsOnlyAfterRecheck(s, TakeTransfer(s, c), c)
  {
  }

  lemma LoopAdmits(s: State, c: ClientId, choice: bool)
    requires c in s.clients && InLoop(s.clients[c].pc)
    ensures AdmitsOnlyAfterRecheck(s, LoopStep(s, c, choice), c)
  {
    match s.clients[c].pc
    case Serving => MoveAdmits(s, c, if choice then BeginGuard else DeleteLock);
    case BeginGuard => MoveAdmits(s, c, if s.quiesce then Serving else BeginCas);
    case BeginCas => MoveAdmits(s, c, Serving);
    case BeginRecheck => MoveAdmits(s, c, if s.quiesce then BeginUndo else Transferring);
    case BeginUndo => MoveAdmits(s, c, Serving);
    case Transferring => MoveAdmits(s, c, Serving);
  }

  /** A client past the loop stays there and leaves transfer_active alone. */
  ghost predicate StaysOut(s: State, s': State, c: ClientId) {
    && c in s'.clients && !InLoop(s'.clients[c].pc)
    && s'.transferActive == s.transferActive && s'.transferOwner == s.transferOwner
  }

  lemma LocksOutside(s: State, c: ClientId)
    requires c in s.clients && ClientLocks(s, c).To?
    ensures StaysOut(s, ClientLocks(s, c).state, c)
  {
  }

  lemma DeletesOutside(s: State, c: ClientId)
    requires c in s.clients
    ensures StaysOut(s, ClientDeletes(s, c), c)
  {
  }

  lemma UnlocksOutside(s: State, c: ClientId, own: bool)
    requires c in s.clients
    ensures StaysOut(s, ClientUnlocks(s, c, own), c)
  {
  }

  lemma FreesOutside(s: State, c: ClientId, own: bool)
    requires c in s.clients
    ensures StaysOut(s, ClientFrees(s, c, own), c) && StaysOut(s, ClientExits(s, c, own), c)
  {
  }

  lemma OutsideLoop(s: State, c: ClientId)
    requires c in s.clients && EndStep(s, c).To?
    ensures StaysOut(s, EndStep(s, c).state, c)
  {
    match s.clients[c].pc
    case DeleteLock => LocksOutside(s, c);
    case DeleteBody => DeletesOutside(s, c);
    case DeleteUnlock(own) => UnlocksOutside(s, c, own);
    case Closing(own) => FreesOutside(s, c, own);
    case Exiting(own) => FreesOutside(s, c, own);
  }

  lemma ClientAdmits(s: State, c: ClientId, choice: bool)
    requires c in s.clients && ClientStep(s, c, choice).To?
    ensures AdmitsOnlyAfterRecheck(s, ClientStep(s, c, choice).state, c)
  {
    if InLoop(s.clients[c].pc) { LoopAdmits(s, c, choice); } else { OutsideLoop(s, c); }
  }

  /** Only the caller r moves; clients and transfer_active stay.  The guard is new only from
      the compare-and-swap, which is reached only while the server is initialised. */
  ghost predicate OnlyCaller(s: State, s': State, r: CallerId) {
    && s'.clients == s.clients && s'.initialized == s.initialized
    && s'.transferActive == s.transferActive && s'.transferOwner == s.transferOwner
    && (forall q | q in s'.callers && q != r :: q in s.callers && s'.callers[q] == s.callers[q])
    && CallerMoves(s.initialized, CallerAt(s, r), CallerAt(s', r))
  }

  predicate CallerMoves(initialized: bool, from: CallerPc, to: CallerPc) {
    && (to == CheckMutex ==> initialized) && (to == Cas ==> from == CheckMutex)
    && (OwnsGuard(to) && to != AbandonGuard ==> (OwnsGuard(from) && from != AbandonGuard) || from == Cas)
  }

  lemma MovesFrame(s: State, r: CallerId, pc: CallerPc)
    requires CallerMoves(s.initialized, CallerAt(s, r), pc)
    ensures OnlyCaller(s, MoveCaller(s, r, pc), r)
  {
  }

  lemma ReleasesFrame(s: State, r: CallerId, pc: CallerPc)
    requires CallerMoves(s.initialized, CallerAt(s, r), pc)
    ensures OnlyCaller(s, ReleaseGuard(s, r, pc), r)
  {
  }

  lemma CallerMutexFrame(s: State, r: CallerId, pc: CallerPc, m: Mutex, after: set<Actor>)
    requires CallerMoves(s.initialized, CallerAt(s, r), pc)
    ensures OnlyCaller(s, MoveCaller(s.(mutex := m, afterDelete := after), r, pc), r)
  {
  }

  lemma UnlocksCallerFrame(s: State, r: CallerId, pc: CallerPc)
    requires CallerMoves(s.initialized, CallerAt(s, r), pc)
    ensures OnlyCaller(s, CallerUnlocks(s, r, pc), r)
  {
    var m, after := UnlockIs(s, ByCaller(r));
    CallerMutexFrame(s, r, pc, m, after);
  }

  lemma TakesFrame(s: State, r: CallerId)
    requires CallerAt(s, r) == Cas
    ensures OnlyCaller(s, TakeGuard(s, r), r)
  {
  }

  lemma LocksCallerFrame(s: State, r: CallerId)
    requires CallerAt(s, r) == Lock && CallerLocks(s, r).To?
    ensures OnlyCaller(s, CallerLocks(s, r).state, r)
  {
  }

  lemma CallerFrame(s: State, r: CallerId)
    requires CallerStep(s, r).To?
    ensures OnlyCaller(s, CallerStep(s, r).state, r)
  {
    match CallerAt(s, r)
    case Idle => MovesFrame(s, r, Check);
    case Check => MovesFrame(s, r, if s.initialized then CheckMutex else Idle);
    case CheckMutex => MovesFrame(s, r, if s.mutex == Deleted then Idle else Cas);
    case Cas => MovesFrame(s, r, Idle); TakesFrame(s, r);
    case Lock => LocksCallerFrame(s, r);
    case AbandonGuard => ReleasesFrame(s, r, Idle);
    case ReadClients => MovesFrame(s, r, ReadTransfer(s.numberClients));
    case ReadTransfer(n) => MovesFrame(s, r, Decide(n, s.transferActive));
    case Decide(n, t) =>
      if n != 0 || t { ReleasesFrame(s, r, UnlockRefused); } else { MovesFrame(s, r, UnlockGranted); }
    case UnlockRefused => UnlocksCallerFrame(s, r, Idle);
    case UnlockGranted => UnlocksCallerFrame(s, r, Granted);
    case Granted => ReleasesFrame(s, r, Idle);
  }

  lemma AbortFrame(s: State, r: CallerId)
    requires AbortStep(s, r).To?
    ensures OnlyCaller(s, AbortStep(s, r).state, r)
  {
    var pc, m, after := AbortIs(s, r);
    CallerMutexFrame(s, r, pc, m, after);
  }

  // ---- steps keep the drain safe ----

  lemma ClientKeepsNoNewCall(s: State, c: ClientId, choice: bool)
    requires GuardInvAt(s, 5) && NoNewCall(s) && c in s.clients && ClientStep(s, c, choice).To?
    ensures NoNewCall(ClientStep(s, c, choice).state)
  {
    ClientFrame(s, c, choice);
    ClientAdmits(s, c, choice);
  }

  lemma CallerKeepsNoNewCall(s: State, s': State, r: CallerId)
    requires NoNewCall(s) && OnlyCaller(s, s', r)
    ensures NoNewCall(s')
  {
  }

  lemma UndoMakesOrderly(s: State, c: ClientId)
    requires GuardInvAt(s, 5) && !s.transferActive && c in s.clients && s.clients[c].pc == BeginUndo && !SomeOtherInLoop(s, c)
    ensures Orderly(ReleaseTransfer(s, c))
  {
    var s' := ReleaseTransfer(s, c);
    assert forall d | d in s'.clients && d != c :: !InLoop(s'.clients[d].pc);
  }

  lemma ClientKeepsLastUndo(s: State, c: ClientId, choice: bool)
    requires GuardInvAt(s, 5) && LastUndo(s) && c in s.clients && ClientStep(s, c, choice).To?
    ensures SafeDrain(ClientStep(s, c, choice).state)
  {
    var u :| u in s.clients && s.clients[u].pc == BeginUndo && !SomeOtherInLoop(s, u);
    if c == u {
      UndoMakesOrderly(s, c);
    } else {
      OutsideLoop(s, c);
      ClientFrame(s, c, choice);
      var s' := ClientStep(s, c, choice).state;
      assert !SomeOtherInLoop(s', u);
    }
  }

  lemma CallerKeepsLastUndo(s: State, s': State, r: CallerId)
    requires LastUndo(s) && OnlyCaller(s, s', r)
    ensures LastUndo(s')
  {
    var u :| u in s.clients && s.clients[u].pc == BeginUndo && !SomeOtherInLoop(s, u);
    assert !SomeOtherInLoop(s', u);
  }

  lemma ClientKeepsSafeDrain(s: State, c: ClientId, choice: bool)
    requires GuardInvAt(s, 5) && SafeDrain(s) && c in s.clients && ClientStep(s, c, choice).To?
    ensures SafeDrain(ClientStep(s, c, choice).state)
  {
    if Orderly(s) {
      ClientKeepsGuard(s, c, choice, 0);
    } else if NoNewCall(s) {
      ClientKeepsNoNewCall(s, c, choice);
    } else {
      ClientKeepsLastUndo(s, c, choice);
    }
  }

  lemma OnlyCallerKeepsSafeDrain(s: State, s': State, r: CallerId)
    requires SafeDrain(s) && !Orderly(s) && OnlyCaller(s, s', r)
    ensures SafeDrain(s')
  {
    if NoNewCall(s) {
      CallerKeepsNoNewCall(s, s', r);
    } else {
      CallerKeepsLastUndo(s, s', r);
    }
  }

  lemma CallerKeepsSafeDrain(s: State, r: CallerId)
    requires SafeDrain(s) && CallerStep(s, r).To?
    ensures SafeDrain(CallerStep(s, r).state)
  {
    if Orderly(s) {
      CallerKeepsGuard(s, r, 0);
    } else {
      CallerFrame(s, r);
      OnlyCallerKeepsSafeDrain(s, CallerStep(s, r).state, r);
    }
  }

  lemma AbortKeepsSafeDrain(s: State, r: CallerId)
    requires SafeDrain(s) && AbortStep(s, r).To?
    ensures SafeDrain(AbortStep(s, r).state)
  {
    if Orderly(s) {
      AbortKeepsGuard(s, r, 0);
    } else {
      AbortFrame(s, r);
      OnlyCallerKeepsSafeDrain(s, AbortStep(s, r).state, r);
    }
  }

  /** Teardown's own steps in the drain change neither flags nor program counters. */
  ghost predicate SamePlaces(s: State, s': State) {
    && SameFlags(s, s') && s'.initialized == s.initialized && ServerOk(s')
    && (forall c | c in s'.clients :: c in s.clients) && (forall c | c in s.clients :: c in s'.clients)
    && (forall c | c in s.clients :: s'.clients[c].pc == s.clients[c].pc)
  }

  lemma SamePlacesKeepSafeDrain(s: State, s': State)
    requires SamePlaces(s, s') && SafeDrain(s)
    ensures SafeDrain(s')
  {
    if LastUndo(s) {
      var u :| u in s.clients && s.clients[u].pc == BeginUndo && !SomeOtherInLoop(s, u);
      assert !SomeOtherInLoop(s', u);
    }
  }

  lemma MutexKeepsPlaces(s: State, m: Mutex, after: set<Actor>, t: TeardownPc)
    requires ServerOk(s)
    ensures SamePlaces(s, s.(mutex := m, afterDelete := after, teardown := t))
  {
  }

  lemma UnlockKeepsPlaces(s: State, rest: seq<ClientId>)
    requires ServerOk(s)
    ensures SamePlaces(s, Unlock(s, ByTeardown).(teardown := Join(rest)))
  {
    var m, after := UnlockIs(s, ByTeardown);
    MutexKeepsPlaces(s, m, after, Join(rest));
  }

  lemma JoinKeepsPlaces(s: State, rest: seq<ClientId>)
    requires ServerOk(s) && rest != [] && JoinFirst(s, rest).To?
    ensures SamePlaces(s, JoinFirst(s, rest).state)
  {
  }

  lemma TeardownKeepsPlaces(s: State)
    requires GuardInv(s) && Draining(s) && TeardownStep(s).To? && Draining(TeardownStep(s).state)
    ensures SamePlaces(s, TeardownStep(s).state)
  {
    match s.teardown
    case UnlockList(rest) => UnlockKeepsPlaces(s, rest);
    case Join(rest) => JoinKeepsPlaces(s, rest);
  }

  lemma StepKeepsSafeDrain(s: State, a: Action)
    requires GuardInv(s) && s.server == Stopped && SafeDrain(s) && Draining(s) && Step(s, a).To? && Draining(Step(s, a).state)
    ensures SafeDrain(Step(s, a).state)
  {
    match a
    case ClientAct(c, choice) => ClientKeepsSafeDrain(s, c, choice);
    case ServerAct(choice) =>
    case CallerAct(r) => CallerKeepsSafeDrain(s, r);
    case AbortAct(r) => AbortKeepsSafeDrain(s, r);
    case TeardownAct =>
      TeardownKeepsPlaces(s);
      SamePlacesKeepSafeDrain(s, TeardownStep(s).state);
  }

  lemma StepKeepsOrderly(s: State, a: Action)
    requires GuardInv(s) && s.server == Stopped && Orderly(s) && Draining(s) && Step(s, a).To? && Draining(Step(s, a).state)
    ensures Orderly(Step(s, a).state)
  {
    match a
    case ClientAct(c, choice) => ClientKeepsGuard(s, c, choice, 0);
    case ServerAct(choice) =>
    case CallerAct(r) => CallerKeepsGuard(s, r, 0);
    case AbortAct(r) => AbortKeepsGuard(s, r, 0);
    case TeardownAct => TeardownKeepsPlaces(s);
  }

  // ---- the moment of the clearing ----

  function Cleared(s: State): State
    requires s.teardown.DropTransfer?
  {
    DropTransferFlag(s).(teardown := UnlockList(s.teardown.rest))
  }

  lemma OnlyHolder(s: State, c: ClientId)
    requires GuardInv(s) && s.teardown.DropTransfer? && c in s.clients && Holding(s.clients[c].pc)
    ensures forall d | d in s.clients && Holding(s.clients[d].pc) :: d == c
  {
    assert s.transferOwner == Some(c);
  }

  lemma ClearedWithoutHolder(s: State)
    requires GuardInv(s) && s.teardown.DropTransfer? && forall c | c in s.clients :: !Holding(s.clients[c].pc)
    ensures Orderly(Cleared(s))
  {
  }

  lemma ClearedWithoutCas(s: State)
    requires GuardInv(s) && MutexOk(s) && !s.initialized && s.teardown.DropTransfer? && !SomeCallerBeforeCas(s)
    requires SomeCallerAt(s, Lock) ==> NoneAdmitted(s)
    ensures NoNewCall(Cleared(s))
  {
    forall r | r in s.callers && OwnsGuard(s.callers[r]) && s.callers[r] != AbandonGuard
      ensures NoneAdmitted(s)
    {
      assert !CallerInside(s.callers[r]);
    }
  }

  lemma ClearedWithoutRisk(s: State)
    requires GuardInv(s) && MutexOk(s) && !s.initialized && s.teardown.DropTransfer? && !Risk(s)
    ensures SafeDrain(Cleared(s))
  {
    if c :| c in s.clients && Holding(s.clients[c].pc) {
      OnlyHolder(s, c);
      assert !RiskFrom(s, c);
      if SomeCallerBeforeCas(s) {
        assert !SomeOtherInLoop(Cleared(s), c);
        assert LastUndo(Cleared(s));
      } else {
        ClearedWithoutCas(s);
      }
    } else {
      ClearedWithoutHolder(s);
    }
  }

  // ---- runs ----

  lemma StepKeepsPhase(s: State, a: Action)
    requires Step(s, a).To?
    ensures Step(s, a).state.teardown == s.teardown || (a == TeardownAct && Step(s, a) == TeardownStep(s))
  {
    match a
    case ClientAct(c, choice) => ClientKeepsPhase(s, c, choice);
    case ServerAct(choice) => ServerKeepsPhase(s, choice);
    case CallerAct(r) => CallerKeepsPhase(s, r);
    case AbortAct(r) => AbortKeepsPhase(s, r);
    case TeardownAct =>
  }

  lemma MovesOnBeforeDetach(s: State)
    requires Phase(s.teardown) <= 2 && TeardownStep(s).To?
    ensures Phase(TeardownStep(s).state.teardown) == Phase(s.teardown) + 1
  {
  }

  lemma MovesOnInDrain(s: State)
    requires 3 <= Phase(s.teardown) <= 6 && TeardownStep(s).To?
    ensures Phase(s.teardown) <= Phase(TeardownStep(s).state.teardown) <= Phase(s.teardown) + 1
  {
  }

  lemma MovesOnAfterDrain(s: State)
    requires 7 <= Phase(s.teardown) && TeardownStep(s).To?
    ensures Phase(TeardownStep(s).state.teardown) == Phase(s.teardown) + 1
  {
  }

  lemma TeardownMovesOn(s: State)
    requires TeardownStep(s).To?
    ensures Phase(s.teardown) <= Phase(TeardownStep(s).state.teardown) <= Phase(s.teardown) + 1
  {
    if Phase(s.teardown) <= 2 {
      MovesOnBeforeDetach(s);
    } else if Phase(s.teardown) <= 6 {
      MovesOnInDrain(s);
    } else {
      MovesOnAfterDrain(s);
    }
  }

  lemma StepMovesOn(s: State, a: Action)
    requires Step(s, a).To?
    ensures Phase(s.teardown) <= Phase(Step(s, a).state.teardown) <= Phase(s.teardown) + 1
  {
    StepKeepsPhase(s, a);
    if a == TeardownAct {
      TeardownMovesOn(s);
    }
  }

  lemma {:induction false} PhaseGrows(s: State, run: seq<Action>)
    requires Exec(s, run).To?
    ensures Phase(s.teardown) <= Phase(Exec(s, run).state.teardown)
    decreases |run|
  {
    if run != [] {
      StepMovesOn(s, run[0]);
      PhaseGrows(Step(s, run[0]).state, run[1..]);
    }
  }

  /** A run through the drain, split at its first step. */
  lemma FirstOfDrain(s: State, run: seq<Action>)
    requires Exec(s, run).To? && run != [] && Draining(s) && Draining(Exec(s, run).state)
    ensures Step(s, run[0]).To? && Draining(Step(s, run[0]).state)
  {
    StepMovesOn(s, run[0]);
    PhaseGrows(Step(s, run[0]).state, run[1..]);
  }

  lemma StoppedInDrain(s: State)
    requires LifeInv(s) && Draining(s)
    ensures s.server == Stopped
  {
  }

  lemma StepKeepsBoth(s: State, a: Action)
    requires GuardInv(s) && LifeInv(s) && Step(s, a).To?
    ensures GuardInv(Step(s, a).state) && LifeInv(Step(s, a).state)
  {
    StepKeepsGuard(s, a);
    StepKeepsLife(s, a);
  }

  lemma {:induction false} DrainStaysSafe(s: State, run: seq<Action>)
    requires GuardInv(s) && LifeInv(s) && SafeDrain(s) && Draining(s)
    requires Exec(s, run).To? && Draining(Exec(s, run).state)
    ensures SafeDrain(Exec(s, run).state)
    decreases |run|
  {
    if run != [] {
      FirstOfDrain(s, run);
      StepKeepsBoth(s, run[0]);
      StoppedInDrain(s);
      StepKeepsSafeDrain(s, run[0]);
      DrainStaysSafe(Step(s, run[0]).state, run[1..]);
    }
  }

  lemma {:induction false} DrainStaysOrderly(s: State, run: seq<Action>)
    requires GuardInv(s) && LifeInv(s) && Orderly(s) && Draining(s)
    requires Exec(s, run).To? && Draining(Exec(s, run).state)
    ensures Orderly(Exec(s, run).state)
    decreases |run|
  {
    if run != [] {
      FirstOfDrain(s, run);
      StepKeepsBoth(s, run[0]);
      StoppedInDrain(s);
      StepKeepsOrderly(s, run[0]);
      DrainStaysOrderly(Step(s, run[0]).state, run[1..]);
    }
  }

  /** Where a run reaches the drain, it clears the flag. */
  lemma {:induction false} ClearsOnTheWay(s: State, run: seq<Action>) returns (k: nat)
    requires Exec(s, run).To? && Phase(s.teardown) <= 4 && Phase(Exec(s, run).state.teardown) >= 5
    ensures k < |run| && run[k] == TeardownAct && Exec(s, run[..k]).To? && Exec(s, run[..k]).state.teardown.DropTransfer?
    ensures Exec(s, run) == Exec(Cleared(Exec(s, run[..k]).state), run[k + 1..])
    decreases |run|
  {
    var s' := Step(s, run[0]).state;
    StepMovesOn(s, run[0]);
    if Phase(s'.teardown) == 5 {
      k := 0;
      StepKeepsPhase(s, run[0]);
      assert run[..0] == [];
    } else {
      var j := ClearsOnTheWay(s', run[1..]);
      k := j + 1;
      assert run[..k][1..] == run[1..][..j] && run[k + 1..] == run[1..][j + 1..];
    }
  }

  /** Somewhere in the run teardown cleared transfer_active at a risk. */
  ghost predicate ClearedAtRisk(run: seq<Action>) {
    exists k {:trigger run[..k]} | 0 <= k < |run| :: run[k] == TeardownAct && RiskAfter(run[..k])
  }

  ghost predicate RiskAfter(run: seq<Action>) {
    && Exec(Initial(), run).To?
    && var s := Exec(Initial(), run).state;
    && s.teardown.DropTransfer? && Risk(s)
  }

  lemma AfterClearing(s: State, run: seq<Action>)
    requires GuardInv(s) && LifeInv(s) && s.teardown.DropTransfer? && !Risk(s)
    requires Exec(Cleared(s), run).To? && Draining(Exec(Cleared(s), run).state)
    ensures SafeDrain(Exec(Cleared(s), run).state)
  {
    ClearedWithoutRisk(s);
    StepKeepsGuard(s, TeardownAct);
    StepKeepsLife(s, TeardownAct);
    DrainStaysSafe(Cleared(s), run);
  }

  lemma InTheDrain(run: seq<Action>, r: CallerId)
    requires Exec(Initial(), run).To? && Draining(Exec(Initial(), run).state)
    requires CallerAt(Exec(Initial(), run).state, r) == Granted
    ensures NoneAdmitted(Exec(Initial(), run).state) || ClearedAtRisk(run)
  {
    Reach(run);
    var k := ClearsOnTheWay(Initial(), run);
    Reach(run[..k]);
    if Risk(Exec(Initial(), run[..k]).state) {
      assert RiskAfter(run[..k]);
    } else {
      AfterClearing(Exec(Initial(), run[..k]).state, run[k + 1..]);
      SafeDrainIsSafe(Exec(Initial(), run).state);
    }
  }

  lemma InFlightInTheDrain(s: State, r: CallerId)
    requires GuardInv(s) && LifeInv(s) && Draining(s) && CallerAt(s, r) == Granted
    ensures s.inFlightAtFini || NoneAdmitted(s)
  {
  }

  /** In every run: beside a reboot call that returned 1 no transfer is admitted, until
      teardown ends, unless teardown cleared the flag at a risk and is still draining. */
  lemma GrantedMeansNoTransfer(run: seq<Action>, r: CallerId)
    requires Exec(Initial(), run).To?
    requires CallerAt(Exec(Initial(), run).state, r) == Granted
    requires Exec(Initial(), run).state.teardown != Finished
    ensures var s := Exec(Initial(), run).state;
      NoneAdmitted(s) || (Draining(s) && s.inFlightAtFini && ClearedAtRisk(run))
  {
    Reach(run);
    var s := Exec(Initial(), run).state;
    if Draining(s) {
      InTheDrain(run, r);
      InFlightInTheDrain(s, r);
    } else {
      OutsideTheDrain(s, r);
    }
  }

  lemma OutsideTheDrain(s: State, r: CallerId)
    requires GuardInv(s) && LifeInv(s) && !Draining(s) && CallerAt(s, r) == Granted && s.teardown != Finished
    ensures NoneAdmitted(s)
  {
    if Phase(s.teardown) >= 7 {
      NothingLeftToDrain(s);
    }
  }
}
