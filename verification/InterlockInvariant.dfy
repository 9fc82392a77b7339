/** Two inductive invariants of the admission protocol.

    GuardInv speaks of the two atomic flags only: neither the client list nor the
    mutex occurs in it.  LifeInv speaks of the list, the mutex, and who still has to
    delete what. */
module InterlockInvariant {
  import opened Options
  import opened ListSpec
  import opened Interlock

  function Phase(t: TeardownPc): nat {
    match t
    case NotStarted => 0
    case WaitServer => 1
    case LockList => 2
    case Detach => 3
    case DropTransfer(_) => 4
    case UnlockList(_) => 5
    case Join(_) => 6
    case DeleteMutex => 7
    case ResetList => 8
    case ResetTransfer => 9
    case ResetGuard => 10
    case Finished => 11
  }

  function Rest(t: TeardownPc): seq<ClientId> {
    if t.DropTransfer? || t.UnlockList? || t.Join? then t.rest else []
  }

  /** Teardown has cleared transfer_active under the mutex and has not yet joined every
      detached thread. */
  predicate Draining(s: State) {
    s.teardown.UnlockList? || s.teardown.Join?
  }

  // ---- the flags ----

  predicate OwnsGuard(pc: CallerPc) {
    pc != Idle && pc != Check && pc != CheckMutex && pc != Cas && pc != UnlockRefused && !Aborting(pc)
  }

  predicate Holding(pc: ClientPc) {
    pc == BeginRecheck || pc == BeginUndo || pc == Transferring
  }

  predicate SawNoTransfer(pc: CallerPc) {
    (pc.Decide? && !pc.transfer) || pc == UnlockGranted || pc == Granted
  }

  ghost predicate CallersOwn(s: State) {
    forall r | r in s.callers && OwnsGuard(s.callers[r]) :: s.guardOwner == Some(r)
  }

  ghost predicate HoldersOwn(s: State) {
    forall c | c in s.clients && Holding(s.clients[c].pc) :: s.transferOwner == Some(c)
  }

  ghost predicate NoneAdmitted(s: State) {
    forall c | c in s.clients :: s.clients[c].pc != Transferring
  }

  function ServerClient(pc: ServerPc): Option<ClientId> {
    if pc == Accepting || pc == Stopped then None else Some(pc.c)
  }

  /** Client numbers are fresh, and the accept thread works on an unstarted client. */
  ghost predicate ServerOk(s: State) {
    && (forall c | c in s.clients :: c < s.nextClient)
    && (ServerClient(s.server).Some? ==>
          ServerClient(s.server).value in s.clients &&
          s.clients[ServerClient(s.server).value].pc == Unstarted)
  }

  /** The invariant of the flags, with the clauses that hold in a phase of teardown. */
  ghost predicate GuardInvAt(s: State, phase: nat) {
    && ServerOk(s)
    && (s.quiesce <==> s.guardOwner.Some?)
    && (s.guardOwner.Some? ==> OwnsGuard(CallerAt(s, s.guardOwner.value)))
    && (phase <= 10 ==> CallersOwn(s))
    && (s.transferActive <==> s.transferOwner.Some?)
    && (s.transferOwner.Some? ==>
          s.transferOwner.value in s.clients && Holding(s.clients[s.transferOwner.value].pc))
    && (phase <= 4 ==> HoldersOwn(s))
    && (phase <= 4 ==>
          forall r | r in s.callers && SawNoTransfer(s.callers[r]) :: NoneAdmitted(s))
  }

  ghost predicate GuardInv(s: State) {
    GuardInvAt(s, Phase(s.teardown))
  }

  // ---- the list, the mutex and the life of each client ----

  /** In the loop of client_thread, or in client_list_delete before the record left the list. */
  predicate Active(pc: ClientPc) {
    InLoop(pc) || pc == DeleteLock || pc == DeleteBody
  }

  predicate ServerInside(pc: ServerPc) {
    pc.AddGuard? || pc.AddInsert? || pc.AddRefused? || pc.AddUnlock? || pc.UndoBody? || pc.UndoUnlock?
  }

  predicate ClientInside(pc: ClientPc) {
    pc == DeleteBody || pc.DeleteUnlock?
  }

  predicate CallerInside(pc: CallerPc) {
    pc == ReadClients || pc.ReadTransfer? || pc.Decide? || pc == UnlockRefused || pc == UnlockGranted
  }

  predicate TeardownInside(t: TeardownPc) {
    t.Detach? || t.DropTransfer? || t.UnlockList?
  }

  predicate SawNoClients(pc: CallerPc) {
    pc == ReadTransfer(0) || (pc.Decide? && pc.clients == 0) || pc == UnlockGranted || pc == Granted
  }

  predicate UnstartedOk(server: ServerPc, cl: Client) {
    && cl.inList == (server.AddUnlock? || server.Start? || server.UndoLock? || server.UndoBody?)
    && cl.frees == 0
    && if server.DropRecord? then cl.thread == Removed && cl.deletions == 1
       else cl.thread == Dormant && cl.deletions == 0
  }

  predicate ClientOk(s: State, c: ClientId, cl: Client) {
    match cl.pc
    case Unstarted => ServerClient(s.server) == Some(c) && UnstartedOk(s.server, cl) && c !in s.detached
    case DeleteUnlock(own) =>
      cl.thread == Running && cl.deletions == 0 && cl.frees == 0 && !cl.inList && own == (c !in s.detached)
    case Closing(own) =>
      cl.thread == Running && cl.deletions == 0 && cl.frees == 0 && !cl.inList && own == (c !in s.detached)
    case Exiting(own) =>
      cl.thread == Running && cl.deletions == 0 && cl.frees == 1 && !cl.inList && own == (c !in s.detached)
    case Gone =>
      && cl.frees == 1 && !cl.inList
      && if c in Rest(s.teardown) then cl.thread == Ended && cl.deletions == 0
         else cl.thread == Removed && cl.deletions == 1
    case _ => cl.thread == Running && cl.deletions == 0 && cl.frees == 0 && cl.inList == (c !in s.detached)
  }

  ghost predicate ClientsOk(s: State) {
    forall c | c in s.clients :: ClientOk(s, c, s.clients[c])
  }

  ghost predicate ListOk(s: State) {
    && NoDuplicates(s.list)
    && s.numberClients == |s.list| <= MAX_CLIENTS
    && (forall c | c in s.list :: c in s.clients)
    && (forall c | c in s.clients :: c in s.list <==> s.clients[c].inList)
  }

  ghost predicate MutexOk(s: State) {
    && (s.mutex == Deleted <==> Phase(s.teardown) >= 8)
    && (forall c | c in s.clients && ClientInside(s.clients[c].pc) :: s.mutex == Held(ByClient(c)))
    && (ServerInside(s.server) ==> s.mutex == Held(ByServer))
    && (TeardownInside(s.teardown) ==> s.mutex == Held(ByTeardown))
    && (s.mutex != Deleted ==>
          forall r | r in s.callers && CallerInside(s.callers[r]) :: s.mutex == Held(ByCaller(r)))
    && (s.mutex != Deleted ==>
          forall r | r in s.callers && s.callers[r] == AbortInside :: s.mutex == Held(ByAbort(r)))
  }

  ghost predicate TeardownOk(s: State) {
    var rest := Rest(s.teardown);
    && s.initialized == (Phase(s.teardown) == 0)
    && (Phase(s.teardown) >= 2 ==> s.server == Stopped)
    && NoDuplicates(rest)
    && (forall c | c in rest :: c in s.detached)
    && (forall c | c in s.detached :: c in s.clients)
    && (Phase(s.teardown) <= 3 ==> s.detached == {})
    && (Phase(s.teardown) >= 4 ==>
          && s.list == []
          && (forall c | c in s.clients && (Active(s.clients[c].pc) || s.clients[c].pc.DeleteUnlock?) :: c in s.detached))
    && (forall c | c in s.detached && s.clients[c].pc != Gone :: c in rest)
  }

  ghost predicate CallersOk(s: State) {
    && (Phase(s.teardown) <= 10 ==>
          forall r | r in s.callers && SawNoClients(s.callers[r]) :: s.list == [] && !s.server.AddInsert?)
    && (Phase(s.teardown) <= 7 ==> s.afterDelete == {})
    && (forall a | a in s.afterDelete :: a.ByAbort? || (a.ByCaller? && s.inFlightAtFini))
    && (Phase(s.teardown) >= 1 && !s.inFlightAtFini ==>
          forall r | r in s.callers :: !InFlight(s.callers[r]))
    && (4 <= Phase(s.teardown) <= 10 && !s.inFlightAtFini ==>
          forall r | r in s.callers && s.callers[r] == Granted :: s.detached == {})
  }

  ghost predicate LifeInv(s: State) {
    ClientsOk(s) && ListOk(s) && MutexOk(s) && TeardownOk(s) && CallersOk(s)
  }
}
