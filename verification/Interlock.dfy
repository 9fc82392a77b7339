/** The admission protocol of ftpvita.c as an interleaving transition system.

    Any number of client threads, the accept thread, one teardown caller and any
    number of reboot callers share the two atomic flags, the client counter, the
    mutex and the client list.  One action is one atomic access, one lock or unlock,
    or one stretch of code that touches only mutex-protected data under the mutex.
    A run starts where ftpvita_init has reset the globals and ends in teardown. */
module Interlock {
  import opened Options
  import opened ListSpec

  type ClientId = nat
  type CallerId = nat

  datatype Actor = ByServer | ByTeardown | ByClient(c: ClientId) | ByCaller(r: CallerId) | ByAbort(r: CallerId)

  /** Deleted is both the deletion and the clearing of client_list_mtx: a call that reads the
      identifier in between goes on just as one that has read it before. */
  datatype Mutex = Free | Held(holder: Actor) | Deleted

  /** A kernel thread object.  Removed is the state after sceKernelDeleteThread. */
  datatype ThreadObject = Dormant | Running | Ended | Removed

  /** Where a client thread stands.  `own` is the local delete_own_thread. */
  datatype ClientPc =
    | Unstarted
    | Serving
    | BeginGuard | BeginCas | BeginRecheck | BeginUndo
    | Transferring
    | DeleteLock | DeleteBody | DeleteUnlock(own: bool)
    | Closing(own: bool)
    | Exiting(own: bool)
    | Gone

  /** A client record with its thread; `deletions` and `frees` count the
      sceKernelDeleteThread and free calls made on them. */
  datatype Client = Client(pc: ClientPc, inList: bool, thread: ThreadObject, deletions: nat, frees: nat)

  datatype ServerPc =
    | Accepting
    | AddLock(c: ClientId) | AddGuard(c: ClientId) | AddInsert(c: ClientId)
    | AddRefused(c: ClientId) | AddUnlock(c: ClientId)
    | Start(c: ClientId)
    | UndoLock(c: ClientId) | UndoBody(c: ClientId) | UndoUnlock(c: ClientId)
    | DropThread(c: ClientId) | DropRecord(c: ClientId)
    | Stopped

  /** A caller of ftpvita_prepare_for_reboot or ftpvita_abort_clients.  Idle is also where a
      refused call, an abort and ftpvita_cancel_reboot return to; Granted is a reboot call
      that returned 1. */
  datatype CallerPc =
    | Idle
    | Check | CheckMutex | Cas | Lock | AbandonGuard
    | ReadClients | ReadTransfer(clients: nat) | Decide(clients: nat, transfer: bool)
    | UnlockRefused | UnlockGranted
    | Granted
    | AbortCheck | AbortLock | AbortInside

  /** ftpvita_fini.  `rest` is the part of client_thids still to be joined. */
  datatype TeardownPc =
    | NotStarted
    | WaitServer
    | LockList | Detach
    | DropTransfer(rest: seq<ClientId>) | UnlockList(rest: seq<ClientId>) | Join(rest: seq<ClientId>)
    | DeleteMutex
    | ResetList | ResetTransfer | ResetGuard
    | Finished

  /** The shared variables, every program counter, and history:
      `transferOwner` and `guardOwner` name the thread whose compare-and-swap last set
      the flag, `detached` the clients teardown took off the list, `afterDelete` the
      threads that locked or unlocked the mutex after its deletion, and
      `inFlightAtFini` whether a reboot call was between its checks and its return
      when teardown began. */
  datatype State = State(
    transferActive: bool,
    quiesce: bool,
    initialized: bool,
    numberClients: nat,
    list: seq<ClientId>,
    mutex: Mutex,
    nextClient: ClientId,
    clients: map<ClientId, Client>,
    server: ServerPc,
    callers: map<CallerId, CallerPc>,
    teardown: TeardownPc,
    transferOwner: Option<ClientId>,
    guardOwner: Option<CallerId>,
    detached: set<ClientId>,
    afterDelete: set<Actor>,
    inFlightAtFini: bool)

  /** `choice` resolves what the environment decides: a transfer command or the end of
      the session, an accepted connection or a closed listener, a thread that starts. */
  datatype Action =
    | ClientAct(c: ClientId, choice: bool)
    | ServerAct(choice: bool)
    | CallerAct(r: CallerId)
    | AbortAct(r: CallerId)
    | TeardownAct

  /** What one action of one thread leads to: nothing while it has to wait. */
  datatype Move = Blocked | To(state: State)

  function Initial(): State {
    State(false, false, true, 0, [], Free, 0, map[], Accepting, map[], NotStarted, None, None, {}, {}, false)
  }

  function CallerAt(s: State, r: CallerId): CallerPc {
    if r in s.callers then s.callers[r] else Idle
  }

  function MoveCaller(s: State, r: CallerId, pc: CallerPc): State {
    s.(callers := s.callers[r := pc])
  }

  function SetClient(s: State, c: ClientId, cl: Client): State {
    s.(clients := s.clients[c := cl])
  }

  function MoveClient(s: State, c: ClientId, pc: ClientPc): State
    requires c in s.clients
  {
    SetClient(s, c, s.clients[c].(pc := pc))
  }

  /** sceKernelLockMutex whose result is ignored: it waits while the mutex is held and
      goes on unprotected when the mutex no longer exists. */
  function LockIgnoringErrors(s: State, a: Actor): Move {
    match s.mutex
    case Free => To(s.(mutex := Held(a)))
    case Held(_) => Blocked
    case Deleted => To(s.(afterDelete := s.afterDelete + {a}))
  }

  function Unlock(s: State, a: Actor): State {
    if s.mutex == Deleted then s.(afterDelete := s.afterDelete + {a})
    else if s.mutex == Held(a) then s.(mutex := Free)
    else s
  }

  /** The body of client_list_delete under the mutex.  The caller goes on to `kept` when
      the record was not on the list and to `removed` when it was. */
  function DeleteFromList(s: State, c: ClientId, kept: ClientPc, removed: ClientPc): State
    requires c in s.clients
  {
    if !s.clients[c].inList then MoveClient(s, c, kept)
    else
      SetClient(s, c, s.clients[c].(inList := false, pc := removed)).(
        list := Without(s.list, c),
        numberClients := if s.numberClients > 0 then s.numberClients - 1 else 0)
  }

  function DropTransferFlag(s: State): State {
    s.(transferActive := false, transferOwner := None)
  }

  function DropGuardFlag(s: State): State {
    s.(quiesce := false, guardOwner := None)
  }

  // ---- client threads ----

  function TakeTransfer(s: State, c: ClientId): State
    requires c in s.clients
  {
    MoveClient(s, c, BeginRecheck).(transferActive := true, transferOwner := Some(c))
  }

  function ReleaseTransfer(s: State, c: ClientId): State
    requires c in s.clients
  {
    DropTransferFlag(MoveClient(s, c, Serving))
  }

  function ClientLocks(s: State, c: ClientId): Move
    requires c in s.clients
  {
    match LockIgnoringErrors(s, ByClient(c))
    case Blocked => Blocked
    case To(s1) => To(MoveClient(s1, c, DeleteBody))
  }

  function ClientDeletes(s: State, c: ClientId): State
    requires c in s.clients
  {
    DeleteFromList(s, c, DeleteUnlock(false), DeleteUnlock(true))
  }

  function ClientUnlocks(s: State, c: ClientId, own: bool): State
    requires c in s.clients
  {
    MoveClient(Unlock(s, ByClient(c)), c, Closing(own))
  }

  function ClientFrees(s: State, c: ClientId, own: bool): State
    requires c in s.clients
  {
    SetClient(s, c, s.clients[c].(pc := Exiting(own), frees := s.clients[c].frees + 1))
  }

  function ClientExits(s: State, c: ClientId, own: bool): State
    requires c in s.clients
  {
    var cl := s.clients[c];
    SetClient(s, c, if own then cl.(pc := Gone, thread := Removed, deletions := cl.deletions + 1)
                    else cl.(pc := Gone, thread := Ended))
  }

  /** In the command loop, or inside a transfer command. */
  predicate InLoop(pc: ClientPc) {
    pc == Serving || pc == BeginGuard || pc == BeginCas || pc == BeginRecheck || pc == BeginUndo || pc == Transferring
  }

  function LoopStep(s: State, c: ClientId, choice: bool): State
    requires c in s.clients && InLoop(s.clients[c].pc)
  {
    match s.clients[c].pc
    case Serving => MoveClient(s, c, if choice then BeginGuard else DeleteLock)
    case BeginGuard => MoveClient(s, c, if s.quiesce then Serving else BeginCas)
    case BeginCas => if s.transferActive then MoveClient(s, c, Serving) else TakeTransfer(s, c)
    case BeginRecheck => MoveClient(s, c, if s.quiesce then BeginUndo else Transferring)
    case BeginUndo => ReleaseTransfer(s, c)
    case Transferring => ReleaseTransfer(s, c)
  }

  /** Past the loop: client_list_delete, the closing of the record, the end of the thread. */
  function EndStep(s: State, c: ClientId): Move
    requires c in s.clients
  {
    match s.clients[c].pc
    case DeleteLock => ClientLocks(s, c)
    case DeleteBody => To(ClientDeletes(s, c))
    case DeleteUnlock(own) => To(ClientUnlocks(s, c, own))
    case Closing(own) => To(ClientFrees(s, c, own))
    case Exiting(own) => To(ClientExits(s, c, own))
    case _ => Blocked
  }

  function ClientStep(s: State, c: ClientId, choice: bool): Move
    requires c in s.clients
  {
    if InLoop(s.clients[c].pc) then To(LoopStep(s, c, choice)) else EndStep(s, c)
  }

  // ---- the accept thread ----

  function Accept(s: State): State {
    var c := s.nextClient;
    SetClient(s, c, Client(Unstarted, false, Dormant, 0, 0)).(nextClient := c + 1, server := AddLock(c))
  }

  function ServerLocks(s: State, pc: ServerPc): Move {
    match LockIgnoringErrors(s, ByServer)
    case Blocked => Blocked
    case To(s1) => To(s1.(server := pc))
  }

  function ServerUnlocks(s: State, pc: ServerPc): State {
    Unlock(s, ByServer).(server := pc)
  }

  function Insert(s: State, c: ClientId): State
    requires c in s.clients
  {
    SetClient(s, c, s.clients[c].(inList := true)).(
      list := [c] + s.list, numberClients := s.numberClients + 1, server := AddUnlock(c))
  }

  function StartThread(s: State, c: ClientId): State
    requires c in s.clients
  {
    SetClient(s, c, s.clients[c].(pc := Serving, thread := Running)).(server := Accepting)
  }

  function ServerDeletes(s: State, c: ClientId): State
    requires c in s.clients
  {
    DeleteFromList(s, c, s.clients[c].pc, s.clients[c].pc).(server := UndoUnlock(c))
  }

  function DropThreadObject(s: State, c: ClientId): State
    requires c in s.clients
  {
    var cl := s.clients[c];
    SetClient(s, c, cl.(thread := Removed, deletions := cl.deletions + 1)).(server := DropRecord(c))
  }

  function FreeRecord(s: State, c: ClientId): State
    requires c in s.clients
  {
    var cl := s.clients[c];
    SetClient(s, c, cl.(pc := Gone, frees := cl.frees + 1)).(server := Accepting)
  }

  /** client_list_add, from its lock to its unlock. */
  function AddStep(s: State): Move
    requires s.server != Accepting && s.server != Stopped && s.server.c in s.clients
  {
    match s.server
    case AddLock(c) => ServerLocks(s, AddGuard(c))
    case AddGuard(c) => To(s.(server := if s.quiesce then AddRefused(c) else AddInsert(c)))
    case AddInsert(c) =>
      To(if s.numberClients >= MAX_CLIENTS then s.(server := AddRefused(c)) else Insert(s, c))
    case AddRefused(c) => To(ServerUnlocks(s, DropThread(c)))
    case AddUnlock(c) => To(ServerUnlocks(s, Start(c)))
    case _ => Blocked
  }

  /** sceKernelStartThread, and the clean-up of a client that did not start or was refused. */
  function StartStep(s: State, choice: bool): Move
    requires s.server != Accepting && s.server != Stopped && s.server.c in s.clients
  {
    match s.server
    case Start(c) => To(if choice then StartThread(s, c) else s.(server := UndoLock(c)))
    case UndoLock(c) => ServerLocks(s, UndoBody(c))
    case UndoBody(c) => To(ServerDeletes(s, c))
    case UndoUnlock(c) => To(ServerUnlocks(s, DropThread(c)))
    case DropThread(c) => To(DropThreadObject(s, c))
    case DropRecord(c) => To(FreeRecord(s, c))
    case _ => Blocked
  }

  predicate Adding(pc: ServerPc) {
    pc.AddLock? || pc.AddGuard? || pc.AddInsert? || pc.AddRefused? || pc.AddUnlock?
  }

  function ServerStep(s: State, choice: bool): Move {
    if s.server == Accepting then To(if choice then Accept(s) else s.(server := Stopped))
    else if s.server == Stopped || s.server.c !in s.clients then Blocked
    else if Adding(s.server) then AddStep(s)
    else StartStep(s, choice)
  }

  // ---- reboot callers ----

  function TakeGuard(s: State, r: CallerId): State {
    MoveCaller(s, r, Lock).(quiesce := true, guardOwner := Some(r))
  }

  function ReleaseGuard(s: State, r: CallerId, pc: CallerPc): State {
    DropGuardFlag(MoveCaller(s, r, pc))
  }

  /** A reboot caller checks what the lock returns and gives up when it fails. */
  function CallerLocks(s: State, r: CallerId): Move {
    match s.mutex
    case Free => To(MoveCaller(s, r, ReadClients).(mutex := Held(ByCaller(r))))
    case Held(_) => Blocked
    case Deleted => To(MoveCaller(s, r, AbandonGuard).(afterDelete := s.afterDelete + {ByCaller(r)}))
  }

  function CallerUnlocks(s: State, r: CallerId, pc: CallerPc): State {
    MoveCaller(Unlock(s, ByCaller(r)), r, pc)
  }

  function CallerStep(s: State, r: CallerId): Move {
    match CallerAt(s, r)
    case Idle => To(MoveCaller(s, r, Check))
    case Check => To(MoveCaller(s, r, if s.initialized then CheckMutex else Idle))
    case CheckMutex => To(MoveCaller(s, r, if s.mutex == Deleted then Idle else Cas))
    case Cas => To(if s.quiesce then MoveCaller(s, r, Idle) else TakeGuard(s, r))
    case Lock => CallerLocks(s, r)
    case AbandonGuard => To(ReleaseGuard(s, r, Idle))
    case ReadClients => To(MoveCaller(s, r, ReadTransfer(s.numberClients)))
    case ReadTransfer(n) => To(MoveCaller(s, r, Decide(n, s.transferActive)))
    case Decide(n, t) =>
      To(if n != 0 || t then ReleaseGuard(s, r, UnlockRefused) else MoveCaller(s, r, UnlockGranted))
    case UnlockRefused => To(CallerUnlocks(s, r, Idle))
    case UnlockGranted => To(CallerUnlocks(s, r, Granted))
    case Granted => To(ReleaseGuard(s, r, Idle))
    case _ => Blocked
  }

  // ---- ftpvita_abort_clients ----

  predicate Aborting(pc: CallerPc) {
    pc == AbortCheck || pc == AbortLock || pc == AbortInside
  }

  /** An abort gives up when its lock fails. */
  function AbortLocks(s: State, r: CallerId): Move {
    match s.mutex
    case Free => To(MoveCaller(s, r, AbortInside).(mutex := Held(ByAbort(r))))
    case Held(_) => Blocked
    case Deleted => To(MoveCaller(s, r, Idle).(afterDelete := s.afterDelete + {ByAbort(r)}))
  }

  function AbortUnlocks(s: State, r: CallerId): State {
    MoveCaller(Unlock(s, ByAbort(r)), r, Idle)
  }

  /** The walk over the list aborts sockets only; it ends with the unlock. */
  function AbortStep(s: State, r: CallerId): Move {
    match CallerAt(s, r)
    case Idle => To(MoveCaller(s, r, AbortCheck))
    case AbortCheck => To(MoveCaller(s, r, if s.mutex == Deleted then Idle else AbortLock))
    case AbortLock => AbortLocks(s, r)
    case AbortInside => To(AbortUnlocks(s, r))
    case _ => Blocked
  }

  // ---- teardown ----

  /** A reboot call past its first check and not yet returned. */
  predicate InFlight(pc: CallerPc) {
    pc != Idle && pc != Check && pc != Granted && !Aborting(pc)
  }

  function BeginTeardown(s: State): State {
    s.(initialized := false, teardown := WaitServer,
       inFlightAtFini := exists r :: r in s.callers && InFlight(s.callers[r]))
  }

  /** The loop over the list stops when client_thids is full. */
  function DetachAll(s: State): State {
    var taken := if |s.list| <= MAX_CLIENTS then s.list else s.list[..MAX_CLIENTS];
    s.(clients := map c | c in s.clients ::
         (if c in taken then s.clients[c].(inList := false) else s.clients[c]),
       list := [], numberClients := 0,
       detached := (set c | c in taken),
       teardown := DropTransfer(taken))
  }

  /** Waiting returns when the thread has ended, or at once when its object is gone. */
  function JoinFirst(s: State, rest: seq<ClientId>): Move
    requires rest != []
  {
    if rest[0] in s.clients && s.clients[rest[0]].thread in {Ended, Removed} then
      var cl := s.clients[rest[0]];
      To(SetClient(s, rest[0], cl.(thread := Removed, deletions := cl.deletions + 1)).(
             teardown := Join(rest[1..])))
    else Blocked
  }

  function TeardownStep(s: State): Move {
    match s.teardown
    case NotStarted => To(BeginTeardown(s))
    case WaitServer => if s.server == Stopped then To(s.(teardown := LockList)) else Blocked
    case LockList =>
      (match LockIgnoringErrors(s, ByTeardown)
       case Blocked => Blocked
       case To(s1) => To(s1.(teardown := Detach)))
    case Detach => To(DetachAll(s))
    case DropTransfer(rest) => To(DropTransferFlag(s).(teardown := UnlockList(rest)))
    case UnlockList(rest) => To(Unlock(s, ByTeardown).(teardown := Join(rest)))
    case Join(rest) => if rest == [] then To(s.(teardown := DeleteMutex)) else JoinFirst(s, rest)
    case DeleteMutex => To(s.(mutex := Deleted, teardown := ResetList))
    case ResetList => To(s.(list := [], numberClients := 0, teardown := ResetTransfer))
    case ResetTransfer => To(DropTransferFlag(s).(teardown := ResetGuard))
    case ResetGuard => To(DropGuardFlag(s).(teardown := Finished))
    case Finished => Blocked
  }

  /** One action of one thread; Blocked when that thread cannot move. */
  function Step(s: State, a: Action): Move {
    match a
    case ClientAct(c, choice) => if c in s.clients then ClientStep(s, c, choice) else Blocked
    case ServerAct(choice) => ServerStep(s, choice)
    case CallerAct(r) => CallerStep(s, r)
    case AbortAct(r) => AbortStep(s, r)
    case TeardownAct => TeardownStep(s)
  }

  /** The state an interleaving leads to, if every action in it can be taken. */
  function Exec(s: State, run: seq<Action>): Move
    decreases |run|
  {
    if run == [] then To(s)
    else
      match Step(s, run[0])
      case Blocked => Blocked
      case To(s1) => Exec(s1, run[1..])
  }
}
