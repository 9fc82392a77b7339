/** Every action of every thread keeps both invariants. */
module InterlockProof {
  import opened Options
  import opened ListSpec
  import opened Interlock
  import opened InterlockInvariant

  // ---- GuardInv, with no help from LifeInv ----

  ghost predicate SameFlags(s: State, s': State) {
    && s'.quiesce == s.quiesce && s'.guardOwner == s.guardOwner
    && s'.transferActive == s.transferActive && s'.transferOwner == s.transferOwner
    && s'.callers == s.callers
  }

  /** A client outside client_begin_transfer's critical part moves, or appears. */
  lemma QuietClientKeepsGuard(s: State, s': State, c: ClientId, cl: Client, phase: nat)
    requires GuardInvAt(s, phase) && SameFlags(s, s') && ServerOk(s')
    requires s'.clients == s.clients[c := cl]
    requires !Holding(cl.pc) && (c in s.clients ==> !Holding(s.clients[c].pc))
    ensures GuardInvAt(s', phase)
  {
  }

  lemma TakeTransferKeepsGuard(s: State, c: ClientId, phase: nat)
    requires GuardInvAt(s, phase) && c in s.clients && s.clients[c].pc == BeginCas && !s.transferActive
    ensures GuardInvAt(TakeTransfer(s, c), phase)
  {
  }

  lemma RecheckKeepsGuard(s: State, c: ClientId, phase: nat)
    requires GuardInvAt(s, phase) && c in s.clients && s.clients[c].pc == BeginRecheck
    ensures GuardInvAt(MoveClient(s, c, if s.quiesce then BeginUndo else Transferring), phase)
  {
  }

  lemma ReleaseTransferKeepsGuard(s: State, c: ClientId, phase: nat)
    requires GuardInvAt(s, phase) && c in s.clients && Holding(s.clients[c].pc)
    ensures GuardInvAt(ReleaseTransfer(s, c), phase)
  {
  }

  lemma MoveKeepsGuard(s: State, c: ClientId, pc: ClientPc, phase: nat)
    requires GuardInvAt(s, phase) && c in s.clients
    requires s.clients[c].pc != Unstarted && !Holding(s.clients[c].pc) && !Holding(pc)
    ensures GuardInvAt(MoveClient(s, c, pc), phase)
  {
    QuietClientKeepsGuard(s, MoveClient(s, c, pc), c, s.clients[c].(pc := pc), phase);
  }

  lemma LoopKeepsGuard(s: State, c: ClientId, choice: bool, phase: nat)
    requires GuardInvAt(s, phase) && c in s.clients && InLoop(s.clients[c].pc)
    ensures GuardInvAt(LoopStep(s, c, choice), phase)
  {
    match s.clients[c].pc
    case Serving => MoveKeepsGuard(s, c, if choice then BeginGuard else DeleteLock, phase);
    case BeginGuard => MoveKeepsGuard(s, c, if s.quiesce then Serving else BeginCas, phase);
    case BeginCas => if s.transferActive { MoveKeepsGuard(s, c, Serving, phase); } else { TakeTransferKeepsGuard(s, c, phase); }
    case BeginRecheck => RecheckKeepsGuard(s, c, phase);
    case BeginUndo => ReleaseTransferKeepsGuard(s, c, phase);
    case Transferring => ReleaseTransferKeepsGuard(s, c, phase);
  }

  /** The mutex and the history of its misuse do not matter to the flags. */
  lemma MutexKeepsGuard(s: State, m: Mutex, after: set<Actor>, phase: nat)
    requires GuardInvAt(s, phase)
    ensures GuardInvAt(s.(mutex := m, afterDelete := after), phase)
  {
  }

  lemma UnlockKeepsGuard(s: State, a: Actor, phase: nat)
    requires GuardInvAt(s, phase)
    ensures GuardInvAt(Unlock(s, a), phase)
  {
    MutexKeepsGuard(s, Unlock(s, a).mutex, Unlock(s, a).afterDelete, phase);
  }

  lemma LockKeepsGuard(s: State, a: Actor, phase: nat)
    requires GuardInvAt(s, phase) && LockIgnoringErrors(s, a).To?
    ensures GuardInvAt(LockIgnoringErrors(s, a).state, phase)
  {
    var s' := LockIgnoringErrors(s, a).state;
    MutexKeepsGuard(s, s'.mutex, s'.afterDelete, phase);
  }

  lemma ClientLocksKeepsGuard(s: State, c: ClientId, phase: nat)
    requires GuardInvAt(s, phase) && c in s.clients && s.clients[c].pc == DeleteLock && ClientLocks(s, c).To?
    ensures GuardInvAt(ClientLocks(s, c).state, phase)
  {
    LockKeepsGuard(s, ByClient(c), phase);
    MoveKeepsGuard(LockIgnoringErrors(s, ByClient(c)).state, c, DeleteBody, phase);
  }

  lemma ClientDeletesKeepsGuard(s: State, c: ClientId, phase: nat)
    requires GuardInvAt(s, phase) && c in s.clients && s.clients[c].pc == DeleteBody
    ensures GuardInvAt(ClientDeletes(s, c), phase)
  {
    QuietClientKeepsGuard(s, ClientDeletes(s, c), c, ClientDeletes(s, c).clients[c], phase);
  }

  lemma ClientUnlocksKeepsGuard(s: State, c: ClientId, own: bool, phase: nat)
    requires GuardInvAt(s, phase) && c in s.clients && s.clients[c].pc == DeleteUnlock(own)
    ensures GuardInvAt(ClientUnlocks(s, c, own), phase)
  {
    UnlockKeepsGuard(s, ByClient(c), phase);
    MoveKeepsGuard(Unlock(s, ByClient(c)), c, Closing(own), phase);
  }

  lemma ClientFreesKeepsGuard(s: State, c: ClientId, own: bool, phase: nat)
    requires GuardInvAt(s, phase) && c in s.clients && s.clients[c].pc == Closing(own)
    ensures GuardInvAt(ClientFrees(s, c, own), phase)
  {
    QuietClientKeepsGuard(s, ClientFrees(s, c, own), c, ClientFrees(s, c, own).clients[c], phase);
  }

  lemma ClientExitsKeepsGuard(s: State, c: ClientId, own: bool, phase: nat)
    requires GuardInvAt(s, phase) && c in s.clients && s.clients[c].pc == Exiting(own)
    ensures GuardInvAt(ClientExits(s, c, own), phase)
  {
    QuietClientKeepsGuard(s, ClientExits(s, c, own), c, ClientExits(s, c, own).clients[c], phase);
  }

  lemma ClientKeepsGuard(s: State, c: ClientId, choice: bool, phase: nat)
    requires GuardInvAt(s, phase) && c in s.clients && ClientStep(s, c, choice).To?
    ensures GuardInvAt(ClientStep(s, c, choice).state, phase)
  {
    match s.clients[c].pc
    case DeleteLock => ClientLocksKeepsGuard(s, c, phase);
    case DeleteBody => ClientDeletesKeepsGuard(s, c, phase);
    case DeleteUnlock(own) => ClientUnlocksKeepsGuard(s, c, own, phase);
    case Closing(own) => ClientFreesKeepsGuard(s, c, own, phase);
    case Exiting(own) => ClientExitsKeepsGuard(s, c, own, phase);
    case _ => LoopKeepsGuard(s, c, choice, phase);
  }

  lemma MoveServerKeepsGuard(s: State, pc: ServerPc, phase: nat)
    requires GuardInvAt(s, phase)
    requires ServerClient(pc) == None || ServerClient(pc) == ServerClient(s.server)
    ensures GuardInvAt(s.(server := pc), phase)
  {
  }

  lemma AcceptKeepsGuard(s: State, phase: nat)
    requires GuardInvAt(s, phase) && s.server == Accepting
    ensures GuardInvAt(Accept(s), phase)
  {
    QuietClientKeepsGuard(s, Accept(s), s.nextClient, Client(Unstarted, false, Dormant, 0, 0), phase);
  }

  lemma InsertKeepsGuard(s: State, c: ClientId, phase: nat)
    requires GuardInvAt(s, phase) && s.server == AddInsert(c)
    ensures GuardInvAt(Insert(s, c), phase)
  {
    QuietClientKeepsGuard(s, Insert(s, c), c, s.clients[c].(inList := true), phase);
  }

  lemma StartThreadKeepsGuard(s: State, c: ClientId, phase: nat)
    requires GuardInvAt(s, phase) && s.server == Start(c)
    ensures GuardInvAt(StartThread(s, c), phase)
  {
    QuietClientKeepsGuard(s, StartThread(s, c), c, StartThread(s, c).clients[c], phase);
  }

  lemma DeleteFromListKeepsGuard(s: State, c: ClientId, phase: nat)
    requires GuardInvAt(s, phase) && c in s.clients && s.clients[c].pc == Unstarted
    ensures GuardInvAt(DeleteFromList(s, c, Unstarted, Unstarted), phase)
  {
    QuietClientKeepsGuard(s, DeleteFromList(s, c, Unstarted, Unstarted), c, s.clients[c].(inList := false), phase);
  }

  lemma ServerDeletesKeepsGuard(s: State, c: ClientId, phase: nat)
    requires GuardInvAt(s, phase) && s.server == UndoBody(c)
    ensures GuardInvAt(ServerDeletes(s, c), phase)
  {
    DeleteFromListKeepsGuard(s, c, phase);
    MoveServerKeepsGuard(DeleteFromList(s, c, Unstarted, Unstarted), UndoUnlock(c), phase);
  }

  lemma DropThreadKeepsGuard(s: State, c: ClientId, phase: nat)
    requires GuardInvAt(s, phase) && s.server == DropThread(c)
    ensures GuardInvAt(DropThreadObject(s, c), phase)
  {
    QuietClientKeepsGuard(s, DropThreadObject(s, c), c, DropThreadObject(s, c).clients[c], phase);
  }

  lemma FreeRecordKeepsGuard(s: State, c: ClientId, phase: nat)
    requires GuardInvAt(s, phase) && s.server == DropRecord(c)
    ensures GuardInvAt(FreeRecord(s, c), phase)
  {
    QuietClientKeepsGuard(s, FreeRecord(s, c), c, FreeRecord(s, c).clients[c], phase);
  }

  lemma ServerLocksKeepsGuard(s: State, pc: ServerPc, phase: nat)
    requires GuardInvAt(s, phase) && ServerClient(pc) == ServerClient(s.server) && ServerLocks(s, pc).To?
    ensures GuardInvAt(ServerLocks(s, pc).state, phase)
  {
    LockKeepsGuard(s, ByServer, phase);
    MoveServerKeepsGuard(LockIgnoringErrors(s, ByServer).state, pc, phase);
  }

  lemma ServerUnlocksKeepsGuard(s: State, pc: ServerPc, phase: nat)
    requires GuardInvAt(s, phase) && ServerClient(pc) == ServerClient(s.server)
    ensures GuardInvAt(ServerUnlocks(s, pc), phase)
  {
    UnlockKeepsGuard(s, ByServer, phase);
    MoveServerKeepsGuard(Unlock(s, ByServer), pc, phase);
  }

  lemma AddKeepsGuard(s: State, phase: nat)
    requires GuardInvAt(s, phase) && Adding(s.server) && AddStep(s).To?
    ensures GuardInvAt(AddStep(s).state, phase)
  {
    match s.server
    case AddLock(c) => ServerLocksKeepsGuard(s, AddGuard(c), phase);
    case AddGuard(c) => MoveServerKeepsGuard(s, if s.quiesce then AddRefused(c) else AddInsert(c), phase);
    case AddInsert(c) =>
      if s.numberClients >= MAX_CLIENTS { MoveServerKeepsGuard(s, AddRefused(c), phase); } else { InsertKeepsGuard(s, c, phase); }
    case AddRefused(c) => ServerUnlocksKeepsGuard(s, DropThread(c), phase);
    case AddUnlock(c) => ServerUnlocksKeepsGuard(s, Start(c), phase);
  }

  lemma StartKeepsGuard(s: State, choice: bool, phase: nat)
    requires GuardInvAt(s, phase) && s.server != Accepting && s.server != Stopped && StartStep(s, choice).To?
    ensures GuardInvAt(StartStep(s, choice).state, phase)
  {
    match s.server
    case Start(c) => if choice { StartThreadKeepsGuard(s, c, phase); } else { MoveServerKeepsGuard(s, UndoLock(c), phase); }
    case UndoLock(c) => ServerLocksKeepsGuard(s, UndoBody(c), phase);
    case UndoBody(c) => ServerDeletesKeepsGuard(s, c, phase);
    case UndoUnlock(c) => ServerUnlocksKeepsGuard(s, DropThread(c), phase);
    case DropThread(c) => DropThreadKeepsGuard(s, c, phase);
    case DropRecord(c) => FreeRecordKeepsGuard(s, c, phase);
    case _ =>
  }

  lemma ServerKeepsGuard(s: State, choice: bool, phase: nat)
    requires GuardInvAt(s, phase) && ServerStep(s, choice).To?
    ensures GuardInvAt(ServerStep(s, choice).state, phase)
  {
    if s.server == Accepting {
      if choice { AcceptKeepsGuard(s, phase); } else { MoveServerKeepsGuard(s, Stopped, phase); }
    } else if Adding(s.server) {
      AddKeepsGuard(s, phase);
    } else {
      StartKeepsGuard(s, choice, phase);
    }
  }

  lemma MoveCallerKeepsGuard(s: State, r: CallerId, pc: CallerPc, phase: nat)
    requires GuardInvAt(s, phase)
    requires OwnsGuard(pc) == OwnsGuard(CallerAt(s, r))
    requires SawNoTransfer(pc) && phase <= 4 ==> SawNoTransfer(CallerAt(s, r)) || !s.transferActive
    ensures GuardInvAt(MoveCaller(s, r, pc), phase)
  {
  }

  lemma TakeGuardKeepsGuard(s: State, r: CallerId, phase: nat)
    requires GuardInvAt(s, phase) && CallerAt(s, r) == Cas && !s.quiesce
    ensures GuardInvAt(TakeGuard(s, r), phase)
  {
  }

  lemma ReleaseGuardKeepsGuard(s: State, r: CallerId, pc: CallerPc, phase: nat)
    requires GuardInvAt(s, phase) && OwnsGuard(CallerAt(s, r)) && !OwnsGuard(pc)
    ensures GuardInvAt(ReleaseGuard(s, r, pc), phase)
  {
  }

  lemma CallerEntersKeepsGuard(s: State, r: CallerId, pc: CallerPc, m: Mutex, after: set<Actor>, phase: nat)
    requires GuardInvAt(s, phase) && CallerAt(s, r) == Lock && (pc == ReadClients || pc == AbandonGuard)
    ensures GuardInvAt(MoveCaller(s, r, pc).(mutex := m, afterDelete := after), phase)
  {
    MoveCallerKeepsGuard(s, r, pc, phase);
    MutexKeepsGuard(MoveCaller(s, r, pc), m, after, phase);
  }

  lemma CallerLocksKeepsGuard(s: State, r: CallerId, phase: nat)
    requires GuardInvAt(s, phase) && CallerAt(s, r) == Lock && CallerLocks(s, r).To?
    ensures GuardInvAt(CallerLocks(s, r).state, phase)
  {
    var after := s.afterDelete + {ByCaller(r)};
    match s.mutex
    case Free => CallerEntersKeepsGuard(s, r, ReadClients, Held(ByCaller(r)), s.afterDelete, phase);
    case Deleted => CallerEntersKeepsGuard(s, r, AbandonGuard, Deleted, after, phase);
  }

  predicate Unlocking(from: CallerPc, to: CallerPc) {
    (from == UnlockRefused && to == Idle) || (from == UnlockGranted && to == Granted)
  }

  lemma CallerUnlocksKeepsGuard(s: State, r: CallerId, pc: CallerPc, phase: nat)
    requires GuardInvAt(s, phase)
    requires Unlocking(CallerAt(s, r), pc)
    ensures GuardInvAt(CallerUnlocks(s, r, pc), phase)
  {
    UnlockKeepsGuard(s, ByCaller(r), phase);
    MoveCallerKeepsGuard(Unlock(s, ByCaller(r)), r, pc, phase);
  }

  lemma CallerInsideKeepsGuard(s: State, r: CallerId, phase: nat)
    requires GuardInvAt(s, phase) && CallerInside(CallerAt(s, r)) && CallerStep(s, r).To?
    ensures GuardInvAt(CallerStep(s, r).state, phase)
  {
    match CallerAt(s, r)
    case ReadClients => MoveCallerKeepsGuard(s, r, ReadTransfer(s.numberClients), phase);
    case ReadTransfer(n) => MoveCallerKeepsGuard(s, r, Decide(n, s.transferActive), phase);
    case Decide(n, transfer) =>
      if n != 0 || transfer {
        ReleaseGuardKeepsGuard(s, r, UnlockRefused, phase);
      } else {
        MoveCallerKeepsGuard(s, r, UnlockGranted, phase);
      }
    case UnlockRefused => CallerUnlocksKeepsGuard(s, r, Idle, phase);
    case UnlockGranted => CallerUnlocksKeepsGuard(s, r, Granted, phase);
  }

  lemma CallerKeepsGuard(s: State, r: CallerId, phase: nat)
    requires GuardInvAt(s, phase) && CallerStep(s, r).To?
    ensures GuardInvAt(CallerStep(s, r).state, phase)
  {
    match CallerAt(s, r)
    case Idle => MoveCallerKeepsGuard(s, r, Check, phase);
    case Check => MoveCallerKeepsGuard(s, r, if s.initialized then CheckMutex else Idle, phase);
    case CheckMutex => MoveCallerKeepsGuard(s, r, if s.mutex == Deleted then Idle else Cas, phase);
    case Cas => if s.quiesce { MoveCallerKeepsGuard(s, r, Idle, phase); } else { TakeGuardKeepsGuard(s, r, phase); }
    case Lock => CallerLocksKeepsGuard(s, r, phase);
    case AbandonGuard => ReleaseGuardKeepsGuard(s, r, Idle, phase);
    case Granted => ReleaseGuardKeepsGuard(s, r, Idle, phase);
    case _ => CallerInsideKeepsGuard(s, r, phase);
  }

  lemma AbortMovesKeepGuard(s: State, r: CallerId, pc: CallerPc, m: Mutex, after: set<Actor>, phase: nat)
    requires GuardInvAt(s, phase) && !OwnsGuard(CallerAt(s, r)) && !OwnsGuard(pc)
    ensures GuardInvAt(MoveCaller(s.(mutex := m, afterDelete := after), r, pc), phase)
  {
    MutexKeepsGuard(s, m, after, phase);
    MoveCallerKeepsGuard(s.(mutex := m, afterDelete := after), r, pc, phase);
  }

  lemma UnlockIs(s: State, a: Actor) returns (m: Mutex, after: set<Actor>)
    ensures Unlock(s, a) == s.(mutex := m, afterDelete := after)
    ensures m == (if s.mutex == Held(a) then Free else s.mutex)
    ensures after == (if s.mutex == Deleted then s.afterDelete + {a} else s.afterDelete)
  {
    m, after := s.mutex, s.afterDelete;
    if s.mutex == Deleted {
      after := s.afterDelete + {a};
    } else if s.mutex == Held(a) {
      m := Free;
    }
  }

  /** Every step of an abort is a move of its caller and a change of the mutex at most. */
  lemma AbortIs(s: State, r: CallerId) returns (pc: CallerPc, m: Mutex, after: set<Actor>)
    requires AbortStep(s, r).To?
    ensures AbortStep(s, r).state == MoveCaller(s.(mutex := m, afterDelete := after), r, pc)
    ensures AbortChanges(s, r, pc, m, after)
  {
    m, after := s.mutex, s.afterDelete;
    match CallerAt(s, r)
    case Idle => pc := AbortCheck;
    case AbortCheck => pc := if s.mutex == Deleted then Idle else AbortLock;
    case AbortLock =>
      if s.mutex == Free {
        pc, m := AbortInside, Held(ByAbort(r));
      } else {
        pc, after := Idle, s.afterDelete + {ByAbort(r)};
      }
    case AbortInside =>
      pc := Idle;
      m, after := UnlockIs(s, ByAbort(r));
  }

  predicate AbortChanges(s: State, r: CallerId, pc: CallerPc, m: Mutex, after: set<Actor>) {
    && (CallerAt(s, r) == Idle || Aborting(CallerAt(s, r))) && (pc == Idle || Aborting(pc))
    && (after == s.afterDelete || (after == s.afterDelete + {ByAbort(r)} && s.mutex == Deleted))
    && if pc == AbortInside then s.mutex == Free && m == Held(ByAbort(r))
       else if CallerAt(s, r) == AbortInside then m == (if s.mutex == Held(ByAbort(r)) then Free else s.mutex)
       else m == s.mutex
  }

  lemma AbortKeepsGuard(s: State, r: CallerId, phase: nat)
    requires GuardInvAt(s, phase) && AbortStep(s, r).To?
    ensures GuardInvAt(AbortStep(s, r).state, phase)
  {
    var pc, m, after := AbortIs(s, r);
    AbortMovesKeepGuard(s, r, pc, m, after, phase);
  }

  lemma DetachKeepsGuard(s: State)
    requires GuardInv(s) && s.teardown == Detach
    ensures GuardInv(DetachAll(s))
  {
  }

  lemma JoinKeepsGuard(s: State, rest: seq<ClientId>)
    requires GuardInv(s) && s.teardown == Join(rest) && rest != [] && JoinFirst(s, rest).To?
    ensures GuardInv(JoinFirst(s, rest).state)
  {
  }

  lemma MoveTeardownKeepsGuard(s: State, t: TeardownPc)
    requires GuardInv(s) && Phase(s.teardown) <= Phase(t) <= 10
    requires Phase(t) <= 4 || 5 <= Phase(s.teardown)
    ensures GuardInv(s.(teardown := t))
  {
  }

  lemma LockListKeepsGuard(s: State)
    requires GuardInv(s) && s.teardown == LockList && LockIgnoringErrors(s, ByTeardown).To?
    ensures GuardInv(LockIgnoringErrors(s, ByTeardown).state.(teardown := Detach))
  {
    LockKeepsGuard(s, ByTeardown, Phase(s.teardown));
    MoveTeardownKeepsGuard(LockIgnoringErrors(s, ByTeardown).state, Detach);
  }

  lemma UnlockListKeepsGuard(s: State, rest: seq<ClientId>)
    requires GuardInv(s) && s.teardown == UnlockList(rest)
    ensures GuardInv(Unlock(s, ByTeardown).(teardown := Join(rest)))
  {
    UnlockKeepsGuard(s, ByTeardown, Phase(s.teardown));
    MoveTeardownKeepsGuard(Unlock(s, ByTeardown), Join(rest));
  }

  lemma DeleteMutexKeepsGuard(s: State)
    requires GuardInv(s) && s.teardown == DeleteMutex
    ensures GuardInv(s.(mutex := Deleted, teardown := ResetList))
  {
  }

  lemma BeginTeardownKeepsGuard(s: State)
    requires GuardInv(s) && s.teardown == NotStarted
    ensures GuardInv(BeginTeardown(s))
  {
  }

  lemma ResetListKeepsGuard(s: State)
    requires GuardInv(s) && s.teardown == ResetList
    ensures GuardInv(s.(list := [], numberClients := 0, teardown := ResetTransfer))
  {
  }

  lemma DropTransferKeepsGuard(s: State, t: TeardownPc)
    requires GuardInv(s) && 4 <= Phase(s.teardown) <= 10 && 5 <= Phase(t) <= 10
    ensures GuardInv(DropTransferFlag(s).(teardown := t))
  {
  }

  lemma ResetGuardKeepsGuard(s: State)
    requires GuardInv(s) && s.teardown == ResetGuard
    ensures GuardInv(DropGuardFlag(s).(teardown := Finished))
  {
  }

  lemma TeardownKeepsGuard(s: State)
    requires GuardInv(s) && TeardownStep(s).To?
    ensures GuardInv(TeardownStep(s).state)
  {
    match s.teardown
    case NotStarted => BeginTeardownKeepsGuard(s);
    case WaitServer => MoveTeardownKeepsGuard(s, LockList);
    case LockList => LockListKeepsGuard(s);
    case Detach => DetachKeepsGuard(s);
    case DropTransfer(rest) => DropTransferKeepsGuard(s, UnlockList(rest));
    case UnlockList(rest) => UnlockListKeepsGuard(s, rest);
    case Join(rest) => if rest != [] { JoinKeepsGuard(s, rest); } else { MoveTeardownKeepsGuard(s, DeleteMutex); }
    case DeleteMutex => DeleteMutexKeepsGuard(s);
    case ResetList => ResetListKeepsGuard(s);
    case ResetTransfer => DropTransferKeepsGuard(s, ResetGuard);
    case ResetGuard => ResetGuardKeepsGuard(s);
    case Finished =>
  }

  // ---- only teardown moves teardown ----

  lemma ClientMoveKeepsPhase(s: State, c: ClientId, pc: ClientPc)
    requires c in s.clients
    ensures MoveClient(s, c, pc).teardown == s.teardown
    ensures TakeTransfer(s, c).teardown == s.teardown && ReleaseTransfer(s, c).teardown == s.teardown
  {
  }

  lemma LoopKeepsPhase(s: State, c: ClientId, choice: bool)
    requires c in s.clients && InLoop(s.clients[c].pc)
    ensures LoopStep(s, c, choice).teardown == s.teardown
  {
    match s.clients[c].pc
    case Serving => ClientMoveKeepsPhase(s, c, if choice then BeginGuard else DeleteLock);
    case BeginGuard => ClientMoveKeepsPhase(s, c, if s.quiesce then Serving else BeginCas);
    case BeginCas => ClientMoveKeepsPhase(s, c, Serving);
    case BeginRecheck => ClientMoveKeepsPhase(s, c, if s.quiesce then BeginUndo else Transferring);
    case _ => ClientMoveKeepsPhase(s, c, Serving);
  }

  lemma ClientDeletesKeepsPhase(s: State, c: ClientId)
    requires c in s.clients
    ensures ClientDeletes(s, c).teardown == s.teardown
    ensures ClientLocks(s, c).To? ==> ClientLocks(s, c).state.teardown == s.teardown
  {
  }

  lemma EndKeepsPhase(s: State, c: ClientId)
    requires c in s.clients && EndStep(s, c).To?
    ensures EndStep(s, c).state.teardown == s.teardown
  {
    match s.clients[c].pc
    case DeleteLock => ClientDeletesKeepsPhase(s, c);
    case DeleteBody => ClientDeletesKeepsPhase(s, c);
    case _ =>
  }

  lemma ClientKeepsPhase(s: State, c: ClientId, choice: bool)
    requires c in s.clients && ClientStep(s, c, choice).To?
    ensures ClientStep(s, c, choice).state.teardown == s.teardown
  {
    if InLoop(s.clients[c].pc) { LoopKeepsPhase(s, c, choice); } else { EndKeepsPhase(s, c); }
  }

  lemma ServerMutexKeepsPhase(s: State, pc: ServerPc)
    ensures ServerUnlocks(s, pc).teardown == s.teardown
    ensures ServerLocks(s, pc).To? ==> ServerLocks(s, pc).state.teardown == s.teardown
  {
  }

  lemma AddKeepsPhase(s: State)
    requires Adding(s.server) && s.server.c in s.clients && AddStep(s).To?
    ensures AddStep(s).state.teardown == s.teardown
  {
    match s.server
    case AddLock(c) => ServerMutexKeepsPhase(s, AddGuard(c));
    case AddRefused(c) => ServerMutexKeepsPhase(s, DropThread(c));
    case AddUnlock(c) => ServerMutexKeepsPhase(s, Start(c));
    case _ =>
  }

  lemma ServerDeletesKeepsPhase(s: State, c: ClientId)
    requires c in s.clients
    ensures ServerDeletes(s, c).teardown == s.teardown
  {
  }

  lemma StartKeepsPhase(s: State, choice: bool)
    requires s.server != Accepting && s.server != Stopped && s.server.c in s.clients && StartStep(s, choice).To?
    ensures StartStep(s, choice).state.teardown == s.teardown
  {
    match s.server
    case UndoLock(c) => ServerMutexKeepsPhase(s, UndoBody(c));
    case UndoBody(c) => ServerDeletesKeepsPhase(s, c);
    case UndoUnlock(c) => ServerMutexKeepsPhase(s, DropThread(c));
    case _ =>
  }

  lemma ServerKeepsPhase(s: State, choice: bool)
    requires ServerStep(s, choice).To?
    ensures ServerStep(s, choice).state.teardown == s.teardown
  {
    if s.server != Accepting {
      if Adding(s.server) { AddKeepsPhase(s); } else { StartKeepsPhase(s, choice); }
    }
  }

  lemma CallerInsideKeepsPhase(s: State, r: CallerId)
    requires CallerInside(CallerAt(s, r))
    ensures CallerStep(s, r).To? && CallerStep(s, r).state.teardown == s.teardown
  {
  }

  lemma CallerKeepsPhase(s: State, r: CallerId)
    requires CallerStep(s, r).To?
    ensures CallerStep(s, r).state.teardown == s.teardown
  {
    if CallerInside(CallerAt(s, r)) {
      CallerInsideKeepsPhase(s, r);
    }
  }

  lemma AbortKeepsPhase(s: State, r: CallerId)
    requires AbortStep(s, r).To?
    ensures AbortStep(s, r).state.teardown == s.teardown
  {
    var pc, m, after := AbortIs(s, r);
  }

  // ---- LifeInv ----

  /** The two flags do not occur in LifeInv. */
  lemma FlagsKeepLife(s: State, active: bool, owner: Option<ClientId>)
    requires LifeInv(s)
    ensures LifeInv(s.(transferActive := active, transferOwner := owner))
  {
  }

  /** A record changes in a way that its own clause allows; the others look at what did not change. */
  lemma OneClientKeepsClients(s: State, c: ClientId, cl: Client)
    requires ClientsOk(s) && ClientOk(s, c, cl)
    ensures ClientsOk(SetClient(s, c, cl))
  {
  }

  /** The clauses that do not speak of records and the list. */
  ghost predicate RestOk(s: State) {
    MutexOk(s) && TeardownOk(s) && CallersOk(s)
  }

  lemma QuietClientKeepsList(s: State, c: ClientId, cl: Client)
    requires ListOk(s) && c in s.clients && cl.inList == s.clients[c].inList
    ensures ListOk(SetClient(s, c, cl))
  {
  }

  lemma QuietClientKeepsRest(s: State, c: ClientId, cl: Client)
    requires RestOk(s) && c in s.clients && s.clients[c].pc != Gone
    requires !ClientInside(cl.pc) && (Active(cl.pc) ==> Active(s.clients[c].pc))
    ensures RestOk(SetClient(s, c, cl))
  {
  }

  /** A client moves outside its critical section and stays on the list, or off it. */
  lemma QuietClientKeepsLife(s: State, c: ClientId, cl: Client)
    requires LifeInv(s) && c in s.clients && ClientOk(s, c, cl) && cl.inList == s.clients[c].inList
    requires !ClientInside(s.clients[c].pc) && !ClientInside(cl.pc)
    requires s.clients[c].pc != Gone
    requires Active(cl.pc) ==> Active(s.clients[c].pc)
    ensures LifeInv(SetClient(s, c, cl))
  {
    OneClientKeepsClients(s, c, cl);
    QuietClientKeepsList(s, c, cl);
    QuietClientKeepsRest(s, c, cl);
  }

  lemma LoopMoveKeepsLife(s: State, c: ClientId, pc: ClientPc)
    requires LifeInv(s) && ServerOk(s) && c in s.clients && InLoop(s.clients[c].pc) && (InLoop(pc) || pc == DeleteLock)
    ensures LifeInv(MoveClient(s, c, pc))
  {
    QuietClientKeepsLife(s, c, s.clients[c].(pc := pc));
  }

  lemma ReleaseKeepsLife(s: State, c: ClientId)
    requires LifeInv(s) && ServerOk(s) && c in s.clients && Holding(s.clients[c].pc)
    ensures LifeInv(ReleaseTransfer(s, c))
  {
    LoopMoveKeepsLife(s, c, Serving);
    FlagsKeepLife(MoveClient(s, c, Serving), false, None);
  }

  lemma LoopKeepsLife(s: State, c: ClientId, choice: bool)
    requires LifeInv(s) && ServerOk(s) && c in s.clients && InLoop(s.clients[c].pc)
    ensures LifeInv(LoopStep(s, c, choice))
  {
    match s.clients[c].pc
    case Serving => LoopMoveKeepsLife(s, c, if choice then BeginGuard else DeleteLock);
    case BeginGuard => LoopMoveKeepsLife(s, c, if s.quiesce then Serving else BeginCas);
    case BeginCas =>
      if s.transferActive {
        LoopMoveKeepsLife(s, c, Serving);
      } else {
        LoopMoveKeepsLife(s, c, BeginRecheck);
        FlagsKeepLife(MoveClient(s, c, BeginRecheck), true, Some(c));
      }
    case BeginRecheck => LoopMoveKeepsLife(s, c, if s.quiesce then BeginUndo else Transferring);
    case BeginUndo => ReleaseKeepsLife(s, c);
    case Transferring => ReleaseKeepsLife(s, c);
  }

  /** A thread that may still lock the mutex keeps teardown from deleting it. */
  lemma MutexAlive(s: State, c: ClientId)
    requires TeardownOk(s) && MutexOk(s) && c in s.clients
    requires Active(s.clients[c].pc) || s.clients[c].pc.DeleteUnlock?
    ensures s.mutex != Deleted
  {
  }

  lemma ClientEnters(s: State, c: ClientId)
    requires MutexOk(s) && TeardownOk(s) && s.mutex == Free && c in s.clients && s.clients[c].pc == DeleteLock
    ensures var s' := MoveClient(s.(mutex := Held(ByClient(c))), c, DeleteBody); MutexOk(s') && TeardownOk(s')
  {
  }

  lemma ClientEntersQuietly(s: State, c: ClientId)
    requires ClientsOk(s) && ListOk(s) && CallersOk(s) && c in s.clients && s.clients[c].pc == DeleteLock
    ensures var s' := MoveClient(s.(mutex := Held(ByClient(c))), c, DeleteBody); ClientsOk(s') && ListOk(s') && CallersOk(s')
  {
  }

  lemma ClientLocksKeepsLife(s: State, c: ClientId)
    requires LifeInv(s) && c in s.clients && s.clients[c].pc == DeleteLock && ClientLocks(s, c).To?
    ensures LifeInv(ClientLocks(s, c).state)
  {
    MutexAlive(s, c);
    ClientEnters(s, c);
    ClientEntersQuietly(s, c);
  }

  lemma ClientDeletesListed(s: State, c: ClientId)
    requires LifeInv(s) && c in s.clients && s.clients[c].pc == DeleteBody && s.clients[c].inList
    ensures LifeInv(ClientDeletes(s, c))
  {
    WithoutIsRemoval(s.list, c);
    assert s.numberClients > 0;
  }

  lemma ClientStaysInMutex(s: State, c: ClientId)
    requires MutexOk(s) && TeardownOk(s) && CallersOk(s) && c in s.clients && s.clients[c].pc == DeleteBody
    ensures var s' := MoveClient(s, c, DeleteUnlock(false)); MutexOk(s') && TeardownOk(s') && CallersOk(s')
  {
  }

  lemma ClientDeletesDetached(s: State, c: ClientId)
    requires LifeInv(s) && c in s.clients && s.clients[c].pc == DeleteBody && !s.clients[c].inList
    ensures LifeInv(MoveClient(s, c, DeleteUnlock(false)))
  {
    ClientStaysInMutex(s, c);
    OneClientKeepsClients(s, c, s.clients[c].(pc := DeleteUnlock(false)));
  }

  lemma ClientDeletesKeepsLife(s: State, c: ClientId)
    requires LifeInv(s) && c in s.clients && s.clients[c].pc == DeleteBody
    ensures LifeInv(ClientDeletes(s, c))
  {
    if s.clients[c].inList { ClientDeletesListed(s, c); } else { ClientDeletesDetached(s, c); }
  }

  lemma ClientHoldsMutex(s: State, c: ClientId, own: bool)
    requires MutexOk(s) && TeardownOk(s) && c in s.clients && s.clients[c].pc == DeleteUnlock(own)
    ensures s.mutex == Held(ByClient(c)) && MutexOk(MoveClient(s, c, Closing(own)).(mutex := Free))
  {
  }

  lemma ClientLeavesMutex(s: State, c: ClientId, own: bool)
    requires ClientsOk(s) && ListOk(s)
    requires c in s.clients && s.clients[c].pc == DeleteUnlock(own)
    ensures var s' := MoveClient(s, c, Closing(own)).(mutex := Free); ClientsOk(s') && ListOk(s')
  {
  }

  lemma ClientLeavesRest(s: State, c: ClientId, own: bool)
    requires TeardownOk(s) && CallersOk(s)
    requires c in s.clients && s.clients[c].pc == DeleteUnlock(own)
    ensures var s' := MoveClient(s, c, Closing(own)).(mutex := Free); TeardownOk(s') && CallersOk(s')
  {
  }

  lemma ClientUnlocksKeepsLife(s: State, c: ClientId, own: bool)
    requires LifeInv(s) && c in s.clients && s.clients[c].pc == DeleteUnlock(own)
    ensures LifeInv(ClientUnlocks(s, c, own))
  {
    ClientHoldsMutex(s, c, own);
    ClientLeavesMutex(s, c, own);
    ClientLeavesRest(s, c, own);
  }

  lemma FreedOk(s: State, c: ClientId, own: bool)
    requires ClientsOk(s) && c in s.clients && s.clients[c].pc == Closing(own)
    ensures ClientOk(s, c, ClientFrees(s, c, own).clients[c])
  {
  }

  lemma ClientFreesKeepsLife(s: State, c: ClientId, own: bool)
    requires LifeInv(s) && ServerOk(s) && c in s.clients && s.clients[c].pc == Closing(own)
    ensures LifeInv(ClientFrees(s, c, own))
  {
    FreedOk(s, c, own);
    QuietClientKeepsLife(s, c, ClientFrees(s, c, own).clients[c]);
  }

  lemma ExitedOk(s: State, c: ClientId, own: bool)
    requires ClientsOk(s) && TeardownOk(s) && c in s.clients && s.clients[c].pc == Exiting(own)
    ensures ClientOk(s, c, ClientExits(s, c, own).clients[c])
  {
  }

  lemma ClientExitsKeepsLife(s: State, c: ClientId, own: bool)
    requires LifeInv(s) && c in s.clients && s.clients[c].pc == Exiting(own)
    ensures LifeInv(ClientExits(s, c, own))
  {
    ExitedOk(s, c, own);
    QuietClientKeepsLife(s, c, ClientExits(s, c, own).clients[c]);
  }

  lemma ClientKeepsLife(s: State, c: ClientId, choice: bool)
    requires LifeInv(s) && ServerOk(s) && c in s.clients && ClientStep(s, c, choice).To?
    ensures LifeInv(ClientStep(s, c, choice).state)
  {
    match s.clients[c].pc
    case DeleteLock => ClientLocksKeepsLife(s, c);
    case DeleteBody => ClientDeletesKeepsLife(s, c);
    case DeleteUnlock(own) => ClientUnlocksKeepsLife(s, c, own);
    case Closing(own) => ClientFreesKeepsLife(s, c, own);
    case Exiting(own) => ClientExitsKeepsLife(s, c, own);
    case _ => LoopKeepsLife(s, c, choice);
  }

  lemma AcceptKeepsLife(s: State)
    requires LifeInv(s) && ServerOk(s) && s.server == Accepting
    ensures LifeInv(Accept(s))
  {
  }

  /** The accept thread goes from one statement to the next without the mutex. */
  lemma MoveServerKeepsLife(s: State, pc: ServerPc)
    requires LifeInv(s) && ServerOk(s)
    requires (s.server == Accepting && pc == Stopped) || (s.server.Start? && pc == UndoLock(s.server.c))
    ensures LifeInv(s.(server := pc))
  {
  }

  lemma AddGuardKeepsCallers(s: State, c: ClientId)
    requires CallersOk(s) && ServerOk(s) && s.server == AddGuard(c)
    requires s.quiesce <==> s.guardOwner.Some?
    requires Phase(s.teardown) <= 10 ==> CallersOwn(s)
    ensures CallersOk(s.(server := if s.quiesce then AddRefused(c) else AddInsert(c)))
  {
  }

  lemma AddGuardKeepsRest(s: State, c: ClientId)
    requires ClientsOk(s) && ListOk(s) && MutexOk(s) && TeardownOk(s) && ServerOk(s) && s.server == AddGuard(c)
    ensures var s' := s.(server := if s.quiesce then AddRefused(c) else AddInsert(c));
      ClientsOk(s') && ListOk(s') && MutexOk(s') && TeardownOk(s')
  {
  }

  lemma AddGuardKeepsLife(s: State, c: ClientId)
    requires LifeInv(s) && ServerOk(s) && s.server == AddGuard(c)
    requires s.quiesce <==> s.guardOwner.Some?
    requires Phase(s.teardown) <= 10 ==> CallersOwn(s)
    ensures LifeInv(s.(server := if s.quiesce then AddRefused(c) else AddInsert(c)))
  {
    AddGuardKeepsCallers(s, c);
    AddGuardKeepsRest(s, c);
  }

  lemma AddFullKeepsLife(s: State, c: ClientId)
    requires LifeInv(s) && ServerOk(s) && s.server == AddInsert(c)
    ensures LifeInv(s.(server := AddRefused(c)))
  {
  }

  lemma InsertKeepsLife(s: State, c: ClientId)
    requires LifeInv(s) && ServerOk(s) && s.server == AddInsert(c) && s.numberClients < MAX_CLIENTS
    ensures LifeInv(Insert(s, c))
  {
  }

  lemma StartThreadKeepsLife(s: State, c: ClientId)
    requires LifeInv(s) && ServerOk(s) && s.server == Start(c)
    ensures LifeInv(StartThread(s, c))
  {
  }

  predicate ServerEnters(from: ServerPc, to: ServerPc) {
    (from.AddLock? && to == AddGuard(from.c)) || (from.UndoLock? && to == UndoBody(from.c))
  }

  lemma ServerEntersMutex(s: State, pc: ServerPc)
    requires MutexOk(s) && TeardownOk(s) && s.mutex == Free && ServerEnters(s.server, pc)
    ensures var s' := s.(mutex := Held(ByServer), server := pc); MutexOk(s') && TeardownOk(s')
  {
  }

  lemma ServerEntersQuietly(s: State, pc: ServerPc)
    requires ClientsOk(s) && ListOk(s) && CallersOk(s) && ServerOk(s) && ServerEnters(s.server, pc)
    ensures var s' := s.(mutex := Held(ByServer), server := pc); ClientsOk(s') && ListOk(s') && CallersOk(s')
  {
  }

  lemma ServerLocksKeepsLife(s: State, pc: ServerPc)
    requires LifeInv(s) && ServerOk(s) && ServerLocks(s, pc).To? && ServerEnters(s.server, pc)
    ensures LifeInv(ServerLocks(s, pc).state)
  {
    assert s.mutex == Free;
    ServerEntersMutex(s, pc);
    ServerEntersQuietly(s, pc);
  }

  lemma ServerUnlocksKeepsLife(s: State, pc: ServerPc)
    requires LifeInv(s) && ServerOk(s)
    requires (s.server.AddRefused? && pc == DropThread(s.server.c)) || (s.server.AddUnlock? && pc == Start(s.server.c)) ||
             (s.server.UndoUnlock? && pc == DropThread(s.server.c))
    ensures LifeInv(ServerUnlocks(s, pc))
  {
  }

  lemma ServerDeletesRecords(s: State, c: ClientId)
    requires ClientsOk(s) && ListOk(s) && ServerOk(s) && s.server == UndoBody(c)
    ensures ClientsOk(ServerDeletes(s, c)) && ListOk(ServerDeletes(s, c))
  {
    WithoutIsRemoval(s.list, c);
  }

  lemma ServerDeletesMutex(s: State, c: ClientId)
    requires MutexOk(s) && ServerOk(s) && s.server == UndoBody(c)
    ensures MutexOk(ServerDeletes(s, c))
  {
  }

  lemma ServerDeletesTeardown(s: State, c: ClientId)
    requires TeardownOk(s) && ServerOk(s) && s.server == UndoBody(c)
    ensures TeardownOk(ServerDeletes(s, c))
  {
  }

  lemma EmptyWithout(list: seq<ClientId>, c: ClientId)
    ensures list == [] ==> Without(list, c) == []
  {
  }

  /** A list that was empty stays so, and nothing else that CallersOk looks at changes. */
  lemma SmallerListKeepsCallers(s: State, s': State)
    requires CallersOk(s) && (s.list == [] ==> s'.list == []) && !s'.server.AddInsert?
    requires s'.callers == s.callers && s'.teardown == s.teardown && s'.afterDelete == s.afterDelete
    requires s'.inFlightAtFini == s.inFlightAtFini && s'.detached == s.detached
    ensures CallersOk(s')
  {
  }

  lemma ServerDeletesFields(s: State, c: ClientId, t: State)
    requires ServerOk(s) && s.server == UndoBody(c) && t == ServerDeletes(s, c)
    ensures (s.list == [] ==> t.list == []) && !t.server.AddInsert?
    ensures t.callers == s.callers && t.teardown == s.teardown && t.afterDelete == s.afterDelete
    ensures t.inFlightAtFini == s.inFlightAtFini && t.detached == s.detached
  {
    EmptyWithout(s.list, c);
  }

  lemma ServerDeletesCallers(s: State, c: ClientId)
    requires CallersOk(s) && ServerOk(s) && s.server == UndoBody(c)
    ensures CallersOk(ServerDeletes(s, c))
  {
    ServerDeletesFields(s, c, ServerDeletes(s, c));
    SmallerListKeepsCallers(s, ServerDeletes(s, c));
  }

  lemma ServerDeletesKeepsLife(s: State, c: ClientId)
    requires LifeInv(s) && ServerOk(s) && s.server == UndoBody(c)
    ensures LifeInv(ServerDeletes(s, c))
  {
    ServerDeletesRecords(s, c);
    ServerDeletesMutex(s, c);
    ServerDeletesTeardown(s, c);
    ServerDeletesCallers(s, c);
  }

  lemma DropThreadRecords(s: State, c: ClientId)
    requires ClientsOk(s) && ListOk(s) && ServerOk(s) && s.server == DropThread(c)
    ensures ClientsOk(DropThreadObject(s, c)) && ListOk(DropThreadObject(s, c))
  {
  }

  lemma DropThreadRest(s: State, c: ClientId)
    requires RestOk(s) && ServerOk(s) && s.server == DropThread(c)
    ensures RestOk(DropThreadObject(s, c))
  {
  }

  lemma DropThreadKeepsLife(s: State, c: ClientId)
    requires LifeInv(s) && ServerOk(s) && s.server == DropThread(c)
    ensures LifeInv(DropThreadObject(s, c))
  {
    DropThreadRecords(s, c);
    DropThreadRest(s, c);
  }

  lemma FreeRecordRecords(s: State, c: ClientId)
    requires ClientsOk(s) && ListOk(s) && TeardownOk(s) && ServerOk(s) && s.server == DropRecord(c)
    ensures ClientsOk(FreeRecord(s, c)) && ListOk(FreeRecord(s, c))
  {
  }

  lemma FreeRecordRest(s: State, c: ClientId)
    requires RestOk(s) && ServerOk(s) && s.server == DropRecord(c)
    ensures RestOk(FreeRecord(s, c))
  {
  }

  lemma FreeRecordKeepsLife(s: State, c: ClientId)
    requires LifeInv(s) && ServerOk(s) && s.server == DropRecord(c)
    ensures LifeInv(FreeRecord(s, c))
  {
    FreeRecordRecords(s, c);
    FreeRecordRest(s, c);
  }

  lemma AddKeepsLife(s: State)
    requires LifeInv(s) && GuardInv(s) && Adding(s.server) && AddStep(s).To?
    ensures LifeInv(AddStep(s).state)
  {
    match s.server
    case AddLock(c) => ServerLocksKeepsLife(s, AddGuard(c));
    case AddGuard(c) => AddGuardKeepsLife(s, c);
    case AddInsert(c) => if s.numberClients >= MAX_CLIENTS { AddFullKeepsLife(s, c); } else { InsertKeepsLife(s, c); }
    case AddRefused(c) => ServerUnlocksKeepsLife(s, DropThread(c));
    case AddUnlock(c) => ServerUnlocksKeepsLife(s, Start(c));
  }

  lemma StartKeepsLife(s: State, choice: bool)
    requires LifeInv(s) && ServerOk(s) && s.server != Accepting && s.server != Stopped && StartStep(s, choice).To?
    ensures LifeInv(StartStep(s, choice).state)
  {
    match s.server
    case Start(c) => if choice { StartThreadKeepsLife(s, c); } else { MoveServerKeepsLife(s, UndoLock(c)); }
    case UndoLock(c) => ServerLocksKeepsLife(s, UndoBody(c));
    case UndoBody(c) => ServerDeletesKeepsLife(s, c);
    case UndoUnlock(c) => ServerUnlocksKeepsLife(s, DropThread(c));
    case DropThread(c) => DropThreadKeepsLife(s, c);
    case DropRecord(c) => FreeRecordKeepsLife(s, c);
    case _ =>
  }

  lemma ServerKeepsLife(s: State, choice: bool)
    requires LifeInv(s) && GuardInv(s) && ServerStep(s, choice).To?
    ensures LifeInv(ServerStep(s, choice).state)
  {
    if s.server == Accepting {
      if choice { AcceptKeepsLife(s); } else { MoveServerKeepsLife(s, Stopped); }
    } else if Adding(s.server) {
      AddKeepsLife(s);
    } else {
      StartKeepsLife(s, choice);
    }
  }

  // ---- LifeInv, reboot callers ----

  lemma GuardFlagKeepsLife(s: State, quiesce: bool, owner: Option<CallerId>)
    requires LifeInv(s)
    ensures LifeInv(s.(quiesce := quiesce, guardOwner := owner))
  {
  }

  /** A caller that neither enters nor leaves the mutex and has learnt nothing new about the list. */
  lemma MoveCallerKeepsLife(s: State, r: CallerId, pc: CallerPc)
    requires LifeInv(s)
    requires CallerInside(pc) == CallerInside(CallerAt(s, r)) && (pc == AbortInside <==> CallerAt(s, r) == AbortInside)
    requires InFlight(pc) ==> InFlight(CallerAt(s, r)) || (CallerAt(s, r) == Check && s.initialized)
    requires SawNoClients(pc) ==> SawNoClients(CallerAt(s, r)) && pc != Granted
    ensures LifeInv(MoveCaller(s, r, pc))
  {
    MoveCallerOutsideCalls(s, r, pc);
    MoveCallerKeepsMutex(s, r, pc);
    MoveCallerKeepsCallers(s, r, pc);
  }

  lemma MoveCallerKeepsMutex(s: State, r: CallerId, pc: CallerPc)
    requires MutexOk(s)
    requires CallerInside(pc) == CallerInside(CallerAt(s, r)) && (pc == AbortInside <==> CallerAt(s, r) == AbortInside)
    ensures MutexOk(MoveCaller(s, r, pc))
  {
  }

  lemma MoveCallerKeepsCallers(s: State, r: CallerId, pc: CallerPc)
    requires CallersOk(s) && TeardownOk(s)
    requires InFlight(pc) ==> InFlight(CallerAt(s, r)) || (CallerAt(s, r) == Check && s.initialized)
    requires SawNoClients(pc) ==> SawNoClients(CallerAt(s, r)) && pc != Granted
    ensures CallersOk(MoveCaller(s, r, pc))
  {
  }

  /** All but CallersOk and MutexOk do not speak of the callers. */
  lemma MoveCallerOutsideCalls(s: State, r: CallerId, pc: CallerPc)
    requires ClientsOk(s) && ListOk(s) && TeardownOk(s)
    ensures ClientsOk(MoveCaller(s, r, pc)) && ListOk(MoveCaller(s, r, pc)) && TeardownOk(MoveCaller(s, r, pc))
  {
  }

  lemma CheckKeepsLife(s: State, r: CallerId)
    requires LifeInv(s) && CallerAt(s, r) == Check
    ensures LifeInv(MoveCaller(s, r, if s.initialized then CheckMutex else Idle))
  {
    MoveCallerKeepsLife(s, r, if s.initialized then CheckMutex else Idle);
  }

  lemma TakeGuardKeepsLife(s: State, r: CallerId)
    requires LifeInv(s) && CallerAt(s, r) == Cas
    ensures LifeInv(TakeGuard(s, r)) && LifeInv(MoveCaller(s, r, Idle))
  {
    MoveCallerKeepsLife(s, r, Idle);
    MoveCallerKeepsLife(s, r, Lock);
    GuardFlagKeepsLife(MoveCaller(s, r, Lock), true, Some(r));
  }

  lemma ReleaseGuardKeepsLife(s: State, r: CallerId, pc: CallerPc)
    requires LifeInv(s)
    requires CallerInside(pc) == CallerInside(CallerAt(s, r)) && CallerAt(s, r) != AbortInside
    requires pc == Idle || (pc == UnlockRefused && InFlight(CallerAt(s, r)))
    ensures LifeInv(ReleaseGuard(s, r, pc))
  {
    MoveCallerKeepsLife(s, r, pc);
    GuardFlagKeepsLife(MoveCaller(s, r, pc), false, None);
  }

  /** Under the mutex a count of zero means an empty list, and no insertion under way. */
  lemma ReadClientsKeepsLife(s: State, r: CallerId)
    requires LifeInv(s) && CallerAt(s, r) == ReadClients
    ensures LifeInv(MoveCaller(s, r, ReadTransfer(s.numberClients)))
  {
  }

  lemma CallerLocksKeepsLife(s: State, r: CallerId)
    requires LifeInv(s) && CallerAt(s, r) == Lock && s.mutex == Free
    ensures LifeInv(MoveCaller(s, r, ReadClients).(mutex := Held(ByCaller(r))))
  {
  }

  lemma CallerFailsToLockKeepsLife(s: State, r: CallerId)
    requires LifeInv(s) && CallerAt(s, r) == Lock && s.mutex == Deleted
    ensures LifeInv(MoveCaller(s, r, AbandonGuard).(afterDelete := s.afterDelete + {ByCaller(r)}))
  {
  }

  lemma CallerFreesMutex(s: State, r: CallerId, pc: CallerPc)
    requires MutexOk(s) && s.mutex != Deleted && Unlocking(CallerAt(s, r), pc)
    ensures s.mutex == Held(ByCaller(r)) && MutexOk(MoveCaller(s, r, pc).(mutex := Free))
  {
  }

  lemma CallerFreesCallers(s: State, r: CallerId, pc: CallerPc)
    requires CallersOk(s) && MutexOk(s) && TeardownOk(s) && s.mutex != Deleted && Unlocking(CallerAt(s, r), pc)
    ensures CallersOk(MoveCaller(s, r, pc).(mutex := Free))
  {
  }

  lemma CallerUnlocksAlive(s: State, r: CallerId, pc: CallerPc)
    requires LifeInv(s) && s.mutex != Deleted && Unlocking(CallerAt(s, r), pc)
    ensures s.mutex == Held(ByCaller(r)) && LifeInv(MoveCaller(s, r, pc).(mutex := Free))
  {
    CallerFreesRest(s, r, pc);
    CallerFreesMutex(s, r, pc);
    CallerFreesCallers(s, r, pc);
  }

  lemma CallerFreesRest(s: State, r: CallerId, pc: CallerPc)
    requires ClientsOk(s) && ListOk(s) && TeardownOk(s)
    ensures var s' := MoveCaller(s, r, pc).(mutex := Free); ClientsOk(s') && ListOk(s') && TeardownOk(s')
  {
  }

  lemma CallerUnlocksDead(s: State, r: CallerId, pc: CallerPc)
    requires LifeInv(s) && s.mutex == Deleted
    requires Unlocking(CallerAt(s, r), pc)
    ensures LifeInv(MoveCaller(s, r, pc).(afterDelete := s.afterDelete + {ByCaller(r)}))
  {
  }

  lemma CallerUnlocksKeepsLife(s: State, r: CallerId, pc: CallerPc)
    requires LifeInv(s)
    requires Unlocking(CallerAt(s, r), pc)
    ensures LifeInv(CallerUnlocks(s, r, pc))
  {
    if s.mutex == Deleted { CallerUnlocksDead(s, r, pc); } else { CallerUnlocksAlive(s, r, pc); }
  }

  lemma DecideKeepsLife(s: State, r: CallerId, n: nat, transfer: bool)
    requires LifeInv(s) && CallerAt(s, r) == Decide(n, transfer)
    ensures LifeInv(CallerStep(s, r).state)
  {
    if n != 0 || transfer { ReleaseGuardKeepsLife(s, r, UnlockRefused); } else { MoveCallerKeepsLife(s, r, UnlockGranted); }
  }

  lemma CallerUnlockingKeepsLife(s: State, r: CallerId)
    requires LifeInv(s) && (CallerAt(s, r) == UnlockRefused || CallerAt(s, r) == UnlockGranted)
    ensures LifeInv(CallerStep(s, r).state)
  {
    CallerUnlocksKeepsLife(s, r, if CallerAt(s, r) == UnlockRefused then Idle else Granted);
  }

  lemma CallerInsideKeepsLife(s: State, r: CallerId)
    requires LifeInv(s) && CallerInside(CallerAt(s, r)) && CallerStep(s, r).To?
    ensures LifeInv(CallerStep(s, r).state)
  {
    match CallerAt(s, r)
    case ReadClients => ReadClientsKeepsLife(s, r);
    case ReadTransfer(n) => MoveCallerKeepsLife(s, r, Decide(n, s.transferActive));
    case Decide(n, transfer) => DecideKeepsLife(s, r, n, transfer);
    case _ => CallerUnlockingKeepsLife(s, r);
  }

  lemma CallerChecksKeepLife(s: State, r: CallerId)
    requires LifeInv(s) && CallerAt(s, r) in {Idle, Check, CheckMutex, Cas}
    ensures LifeInv(CallerStep(s, r).state)
  {
    match CallerAt(s, r)
    case Idle => MoveCallerKeepsLife(s, r, Check);
    case Check => CheckKeepsLife(s, r);
    case CheckMutex => MoveCallerKeepsLife(s, r, if s.mutex == Deleted then Idle else Cas);
    case Cas => TakeGuardKeepsLife(s, r);
  }

  lemma CallerKeepsLife(s: State, r: CallerId)
    requires LifeInv(s) && CallerStep(s, r).To?
    ensures LifeInv(CallerStep(s, r).state)
  {
    if CallerAt(s, r) in {Idle, Check, CheckMutex, Cas} {
      CallerChecksKeepLife(s, r);
    } else {
      match CallerAt(s, r)
      case Lock => if s.mutex == Deleted { CallerFailsToLockKeepsLife(s, r); } else { CallerLocksKeepsLife(s, r); }
      case AbandonGuard => ReleaseGuardKeepsLife(s, r, Idle);
      case Granted => ReleaseGuardKeepsLife(s, r, Idle);
      case _ => CallerInsideKeepsLife(s, r);
    }
  }

  // ---- LifeInv, aborts ----

  lemma AbortKeepsCallers(s: State, r: CallerId, pc: CallerPc, m: Mutex, after: set<Actor>)
    requires CallersOk(s) && MutexOk(s) && AbortChanges(s, r, pc, m, after)
    ensures CallersOk(MoveCaller(s.(mutex := m, afterDelete := after), r, pc))
  {
  }

  lemma AbortKeepsMutex(s: State, r: CallerId, pc: CallerPc, m: Mutex, after: set<Actor>)
    requires MutexOk(s) && AbortChanges(s, r, pc, m, after)
    ensures MutexOk(MoveCaller(s.(mutex := m, afterDelete := after), r, pc))
  {
  }

  lemma AbortKeepsRest(s: State, r: CallerId, pc: CallerPc, m: Mutex, after: set<Actor>)
    requires ClientsOk(s) && ListOk(s) && TeardownOk(s)
    ensures var s' := MoveCaller(s.(mutex := m, afterDelete := after), r, pc); ClientsOk(s') && ListOk(s') && TeardownOk(s')
  {
  }

  lemma AbortKeepsLife(s: State, r: CallerId)
    requires LifeInv(s) && AbortStep(s, r).To?
    ensures LifeInv(AbortStep(s, r).state)
  {
    var pc, m, after := AbortIs(s, r);
    AbortKeepsCallers(s, r, pc, m, after);
    AbortKeepsMutex(s, r, pc, m, after);
    AbortKeepsRest(s, r, pc, m, after);
  }

  // ---- LifeInv, teardown ----

  lemma BeginTeardownKeepsLife(s: State)
    requires LifeInv(s) && s.teardown == NotStarted
    ensures LifeInv(BeginTeardown(s))
  {
  }

  lemma WaitServerKeepsLife(s: State)
    requires LifeInv(s) && s.teardown == WaitServer && s.server == Stopped
    ensures LifeInv(s.(teardown := LockList))
  {
  }

  lemma LockListKeepsLife(s: State)
    requires LifeInv(s) && s.teardown == LockList && s.mutex == Free
    ensures LifeInv(s.(mutex := Held(ByTeardown), teardown := Detach))
  {
  }

  lemma DetachKeepsLife(s: State)
    requires LifeInv(s) && s.teardown == Detach
    ensures LifeInv(DetachAll(s))
  {
    DetachRecords(s);
    DetachMutex(s);
    DetachTeardown(s);
    DetachCallers(s);
  }

  lemma DetachRecords(s: State)
    requires LifeInv(s) && s.teardown == Detach
    ensures ClientsOk(DetachAll(s)) && ListOk(DetachAll(s))
  {
  }

  lemma DetachMutex(s: State)
    requires MutexOk(s) && s.teardown == Detach
    ensures MutexOk(DetachAll(s))
  {
  }

  lemma ActiveIsListed(s: State, c: ClientId)
    requires ClientsOk(s) && ListOk(s) && TeardownOk(s) && MutexOk(s) && s.teardown == Detach && c in s.clients
    ensures Active(s.clients[c].pc) || s.clients[c].pc.DeleteUnlock? ==> c in s.list
  {
    assert ClientOk(s, c, s.clients[c]);
  }

  lemma DetachTeardown(s: State)
    requires ClientsOk(s) && ListOk(s) && TeardownOk(s) && MutexOk(s) && s.teardown == Detach
    ensures TeardownOk(DetachAll(s))
  {
    forall c | c in s.clients
      ensures Active(s.clients[c].pc) || s.clients[c].pc.DeleteUnlock? ==> c in s.list
    {
      ActiveIsListed(s, c);
    }
    ListIsDetached(s);
  }

  lemma ListIsDetached(s: State)
    requires ListOk(s) && TeardownOk(s) && s.teardown == Detach
    requires forall c | c in s.clients :: Active(s.clients[c].pc) || s.clients[c].pc.DeleteUnlock? ==> c in s.list
    ensures TeardownOk(DetachAll(s))
  {
  }

  lemma DetachCallers(s: State)
    requires CallersOk(s) && s.teardown == Detach
    ensures CallersOk(DetachAll(s))
  {
  }

  lemma DropTransferKeepsLife(s: State, rest: seq<ClientId>)
    requires LifeInv(s) && s.teardown == DropTransfer(rest)
    ensures LifeInv(DropTransferFlag(s).(teardown := UnlockList(rest)))
  {
  }

  lemma UnlockListRecords(s: State, rest: seq<ClientId>)
    requires ClientsOk(s) && ListOk(s) && s.teardown == UnlockList(rest)
    ensures var t := s.(mutex := Free, teardown := Join(rest)); ClientsOk(t) && ListOk(t)
  {
  }

  lemma UnlockListRest(s: State, rest: seq<ClientId>)
    requires TeardownOk(s) && CallersOk(s) && s.teardown == UnlockList(rest)
    ensures var t := s.(mutex := Free, teardown := Join(rest)); TeardownOk(t) && CallersOk(t)
  {
  }

  lemma UnlockListMutex(s: State, rest: seq<ClientId>)
    requires MutexOk(s) && s.teardown == UnlockList(rest)
    ensures MutexOk(s.(mutex := Free, teardown := Join(rest))) && s.mutex == Held(ByTeardown)
  {
  }

  lemma UnlockListKeepsLife(s: State, rest: seq<ClientId>)
    requires LifeInv(s) && s.teardown == UnlockList(rest)
    ensures LifeInv(Unlock(s, ByTeardown).(teardown := Join(rest)))
  {
    UnlockListRecords(s, rest);
    UnlockListRest(s, rest);
    UnlockListMutex(s, rest);
    assert Unlock(s, ByTeardown) == s.(mutex := Free);
  }

  lemma JoinKeepsLife(s: State, rest: seq<ClientId>)
    requires LifeInv(s) && s.teardown == Join(rest) && rest != [] && JoinFirst(s, rest).To?
    ensures LifeInv(JoinFirst(s, rest).state)
  {
    JoinRecords(s, rest);
    JoinMutex(s, rest);
    JoinTeardown(s, rest);
    JoinCallers(s, rest);
  }

  lemma JoinOthers(s: State, rest: seq<ClientId>, c: ClientId)
    requires ClientsOk(s) && TeardownOk(s) && s.teardown == Join(rest) && rest != [] && JoinFirst(s, rest).To?
    requires c in s.clients && c != rest[0]
    ensures ClientOk(JoinFirst(s, rest).state, c, s.clients[c])
  {
    assert c in rest <==> c in rest[1..];
  }

  lemma JoinedRecord(s: State, rest: seq<ClientId>)
    requires ClientsOk(s) && TeardownOk(s) && s.teardown == Join(rest) && rest != [] && JoinFirst(s, rest).To?
    ensures var s' := JoinFirst(s, rest).state; ClientOk(s', rest[0], s'.clients[rest[0]])
  {
    assert rest[0] in rest && rest[0] !in rest[1..];
    assert ClientOk(s, rest[0], s.clients[rest[0]]);
  }

  lemma JoinRecords(s: State, rest: seq<ClientId>)
    requires ClientsOk(s) && TeardownOk(s) && ListOk(s) && s.teardown == Join(rest) && rest != [] && JoinFirst(s, rest).To?
    ensures ClientsOk(JoinFirst(s, rest).state) && ListOk(JoinFirst(s, rest).state)
  {
    var s' := JoinFirst(s, rest).state;
    forall c | c in s'.clients
      ensures ClientOk(s', c, s'.clients[c])
    {
      if c == rest[0] { JoinedRecord(s, rest); } else { JoinOthers(s, rest, c); }
    }
  }

  lemma JoinMutex(s: State, rest: seq<ClientId>)
    requires MutexOk(s) && s.teardown == Join(rest) && rest != [] && JoinFirst(s, rest).To?
    ensures MutexOk(JoinFirst(s, rest).state)
  {
  }

  lemma JoinTeardown(s: State, rest: seq<ClientId>)
    requires ClientsOk(s) && TeardownOk(s) && s.teardown == Join(rest) && rest != [] && JoinFirst(s, rest).To?
    ensures TeardownOk(JoinFirst(s, rest).state)
  {
    assert ClientOk(s, rest[0], s.clients[rest[0]]);
    assert forall c :: c in rest <==> c == rest[0] || c in rest[1..];
  }

  lemma JoinCallers(s: State, rest: seq<ClientId>)
    requires CallersOk(s) && s.teardown == Join(rest) && rest != [] && JoinFirst(s, rest).To?
    ensures CallersOk(JoinFirst(s, rest).state)
  {
  }

  lemma JoinedKeepsLife(s: State)
    requires LifeInv(s) && s.teardown == Join([])
    ensures LifeInv(s.(teardown := DeleteMutex))
  {
    JoinedRecords(s);
    JoinedRest(s);
  }

  lemma JoinedRecords(s: State)
    requires ClientsOk(s) && ListOk(s) && s.teardown == Join([])
    ensures ClientsOk(s.(teardown := DeleteMutex)) && ListOk(s.(teardown := DeleteMutex))
  {
  }

  lemma JoinedRest(s: State)
    requires RestOk(s) && s.teardown == Join([])
    ensures RestOk(s.(teardown := DeleteMutex))
  {
  }

  lemma DeleteMutexKeepsLife(s: State)
    requires LifeInv(s) && s.teardown == DeleteMutex
    ensures LifeInv(s.(mutex := Deleted, teardown := ResetList))
  {
  }

  lemma ResetListKeepsLife(s: State)
    requires LifeInv(s) && s.teardown == ResetList
    ensures LifeInv(s.(list := [], numberClients := 0, teardown := ResetTransfer))
  {
    ResetListRecords(s);
    ResetListRest(s);
  }

  lemma ResetListRecords(s: State)
    requires ClientsOk(s) && ListOk(s) && TeardownOk(s) && s.teardown == ResetList
    ensures var s' := s.(list := [], numberClients := 0, teardown := ResetTransfer); ClientsOk(s') && ListOk(s')
  {
  }

  lemma ResetListRest(s: State)
    requires RestOk(s) && s.teardown == ResetList
    ensures RestOk(s.(list := [], numberClients := 0, teardown := ResetTransfer))
  {
  }

  lemma ResetTransferKeepsLife(s: State)
    requires LifeInv(s) && s.teardown == ResetTransfer
    ensures LifeInv(DropTransferFlag(s).(teardown := ResetGuard))
  {
  }

  lemma ResetGuardKeepsLife(s: State)
    requires LifeInv(s) && s.teardown == ResetGuard
    ensures LifeInv(DropGuardFlag(s).(teardown := Finished))
  {
  }

  lemma TeardownKeepsLife(s: State)
    requires LifeInv(s) && TeardownStep(s).To?
    ensures LifeInv(TeardownStep(s).state)
  {
    match s.teardown
    case NotStarted => BeginTeardownKeepsLife(s);
    case WaitServer => WaitServerKeepsLife(s);
    case LockList => LockListKeepsLife(s);
    case Detach => DetachKeepsLife(s);
    case DropTransfer(rest) => DropTransferKeepsLife(s, rest);
    case UnlockList(rest) => UnlockListKeepsLife(s, rest);
    case Join(rest) => if rest != [] { JoinKeepsLife(s, rest); } else { JoinedKeepsLife(s); }
    case DeleteMutex => DeleteMutexKeepsLife(s);
    case ResetList => ResetListKeepsLife(s);
    case ResetTransfer => ResetTransferKeepsLife(s);
    case ResetGuard => ResetGuardKeepsLife(s);
    case Finished =>
  }
}
