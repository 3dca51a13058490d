/**
 Session records (src/sessions/sessionManager.ts) and their synchronisation when a worker starts
 (src/workers/workerManager.ts). Runtime bridges are outcomes: they answer, or they raise.
 */
module Sessions {
  import opened Wrappers
  import opened StateMachine

  datatype Mode = ProcessMode | SessionMode | BackgroundMode

  datatype AttachMode = Observe | Interactive

  type SessionId = nat
  type WorkerId = nat

  datatype Session = Session(
    sessionId: SessionId, workerId: WorkerId, mode: Mode, status: SessionStatus, attachMode: AttachMode,
    attachedClients: int)

  datatype Worker = Worker(workerId: WorkerId, status: WorkerStatus, runtimeMode: Mode, sessionId: Option<SessionId>)

  datatype Store = Store(sessions: map<SessionId, Session>, workers: map<WorkerId, Worker>, nextSessionId: SessionId)

  datatype Error =
    | WorkerNotFound | SessionNotFound | InvalidRequest | WorkerTerminal | SessionClosed | TransportUnavailable
    | WorkerStopFailed | IllegalTransition

  /**
   What comes of stopping a session's worker: there is nobody to ask, it is left to its runtime, it ends, or it raises.
   */
  datatype StopAnswer = NoStopper | StopLeaves | StopEnds(status: WorkerStatus) | StopRaises

  datatype Reply = Raised(error: Error) | Answered(session: Session) | Count(closed: nat) | Done

  datatype Op =
    | CreateSession(workerId: WorkerId, mode: Mode, runtimeRaises: bool)
    | AttachSession(sessionId: SessionId, attachMode: Option<AttachMode>, runtimeRaises: bool)
    | DetachSession(sessionId: SessionId, runtimeRaises: bool)
    | CancelSession(sessionId: SessionId, stop: StopAnswer)
    | SendInput(sessionId: SessionId, runtimeRaises: bool)
    | AcknowledgeOutput(sessionId: SessionId)
    | CloseSessionForWorker(workerId: WorkerId)
    | ReconcileSessions
    | CloseOpenSessions
    | SyncOnWorkerStart(workerId: WorkerId, runtimeRaises: bool)
    | WorkerAdded(workerId: WorkerId, runtimeMode: Mode)
    | WorkerMoved(workerId: WorkerId, status: WorkerStatus)
    | WorkerGone(workerId: WorkerId)

  function DefaultAttachMode(mode: Mode): AttachMode {
    if mode == BackgroundMode then Observe else Interactive
  }

  predicate Interactively(s: Session, w: Worker) {
    s.mode == SessionMode && w.runtimeMode == SessionMode
  }

  /** `#updateSession`: a status may stay as it is, or move along the table. */
  function Updated(st: Store, s: Session, status: SessionStatus, attachedClients: int,
      attachMode: AttachMode): (Store, Reply) {
    if s.status != status && !ValidSession(s.status, status) then (st, Raised(IllegalTransition))
    else
      var next := s.(status := status, attachedClients := attachedClients, attachMode := attachMode);
      (st.(sessions := st.sessions[s.sessionId := next]), Answered(next))
  }

  /** `#closeSession`. */
  function Closing(st: Store, s: Session): (Store, Reply) {
    if s.status == Closed then (st, Answered(s)) else Updated(st, s, Closed, 0, s.attachMode)
  }

  /** `cancelSession`: the session is closed before its worker is stopped, and stays so when that raises. */
  function Canceling(st: Store, sessionId: SessionId, stop: StopAnswer): (Store, Reply) {
    if sessionId !in st.sessions then (st, Raised(SessionNotFound))
    else
      var w := st.sessions[sessionId].workerId;
      var (closed, reply) := Closing(st, st.sessions[sessionId]);
      if reply.Raised? || stop.NoStopper? || w !in st.workers || TerminalWorker(st.workers[w].status)
      then (closed, reply)
      else (WorkerStopped(closed, w, stop), if stop.StopRaises? then Raised(WorkerStopFailed) else reply)
  }

  function WorkerStopped(st: Store, w: WorkerId, stop: StopAnswer): Store {
    if w in st.workers && stop.StopEnds? then st.(workers := st.workers[w := st.workers[w].(status := stop.status)])
    else st
  }

  predicate Deserted(st: Store, s: Session) {
    s.status != Closed && (s.workerId !in st.workers || TerminalWorker(st.workers[s.workerId].status))
  }

  function CloseAll(st: Store, ids: set<SessionId>): Store {
    st.(sessions := map id | id in st.sessions ::
      if id in ids then st.sessions[id].(status := Closed, attachedClients := 0) else st.sessions[id])
  }

  function DesertedIn(st: Store): set<SessionId> {
    set id | id in st.sessions && Deserted(st, st.sessions[id])
  }

  function OpenIn(st: Store): set<SessionId> {
    set id | id in st.sessions && st.sessions[id].status != Closed
  }

  function Created(st: Store, workerId: WorkerId, mode: Mode, runtimeRaises: bool): (Store, Reply) {
    if workerId !in st.workers then (st, Raised(WorkerNotFound))
    else
      var w := st.workers[workerId];
      if w.runtimeMode == ProcessMode || w.runtimeMode != mode then (st, Raised(InvalidRequest))
      else if TerminalWorker(w.status) then (st, Raised(WorkerTerminal))
      else if w.sessionId.Some? && w.sessionId.value in st.sessions && st.sessions[w.sessionId.value].status != Closed
      then (st, Answered(st.sessions[w.sessionId.value]))
      else
        var s := Session(st.nextSessionId, workerId, mode, Attached, DefaultAttachMode(mode), 1);
        if Interactively(s, w) && (w.status.Active? || w.status.Starting?) && runtimeRaises
        then (st, Raised(TransportUnavailable))
        else (Store(st.sessions[s.sessionId := s], st.workers[workerId := w.(sessionId := Some(s.sessionId))],
                    st.nextSessionId + 1), Answered(s))
  }

  function Attaching(st: Store, sessionId: SessionId, attachMode: Option<AttachMode>, runtimeRaises: bool): (Store,
      Reply) {
    if sessionId !in st.sessions then (st, Raised(SessionNotFound))
    else
      var s := st.sessions[sessionId];
      if s.status == Closed then (st, Raised(SessionClosed))
      else if s.workerId !in st.workers then (st, Raised(WorkerNotFound))
      else
        var w := st.workers[s.workerId];
        if TerminalWorker(w.status) then (st, Raised(WorkerTerminal))
        else if Interactively(s, w) && (w.status.Active? || w.status.Starting?) && runtimeRaises
        then (st, Raised(TransportUnavailable))
        else Updated(st, s, if w.status == WorkerStatus.Active then SessionStatus.Active else Attached,
            s.attachedClients + 1,
                     if attachMode.Some? then attachMode.value else s.attachMode)
  }

  function Detaching(st: Store, sessionId: SessionId, runtimeRaises: bool): (Store, Reply) {
    if sessionId !in st.sessions then (st, Raised(SessionNotFound))
    else
      var s := st.sessions[sessionId];
      if s.status == Closed then (st, Answered(s))
      else
        var clients := if s.attachedClients - 1 > 0 then s.attachedClients - 1 else 0;
        if clients == 0 && s.workerId in st.workers && !TerminalWorker(st.workers[s.workerId].status)
           && Interactively(s, st.workers[s.workerId]) && runtimeRaises
        then (st, Raised(TransportUnavailable))
        else Updated(st, s, if clients == 0 then Detached else SessionStatus.Active, clients, s.attachMode)
  }

  function Sending(st: Store, sessionId: SessionId, runtimeRaises: bool): (Store, Reply) {
    if sessionId !in st.sessions then (st, Raised(SessionNotFound))
    else
      var s := st.sessions[sessionId];
      if s.status == Closed then (st, Raised(SessionClosed))
      else if s.workerId !in st.workers then (st, Raised(WorkerNotFound))
      else
        var w := st.workers[s.workerId];
        if TerminalWorker(w.status) || !Interactively(s, w) || runtimeRaises then (st, Raised(TransportUnavailable))
        else Updated(st, s, s.status, s.attachedClients, s.attachMode)
  }

  /** `#syncSessionRuntimeOnWorkerStart`: writes the status without asking the table. */
  function Syncing(st: Store, workerId: WorkerId, runtimeRaises: bool): (Store, Reply) {
    if workerId !in st.workers || st.workers[workerId].sessionId.None?
       || st.workers[workerId].sessionId.value !in st.sessions then (st, Done)
    else
      var s := st.sessions[st.workers[workerId].sessionId.value];
      if s.mode != SessionMode || s.status == Closed || s.attachedClients <= 0 then (st, Done)
      else if runtimeRaises then (st, Raised(TransportUnavailable))
      else (st.(sessions := st.sessions[s.sessionId := s.(status := SessionStatus.Active)]), Done)
  }

  function Step(st: Store, op: Op): (Store, Reply) {
    match op
    case CreateSession(w, mode, raises) => Created(st, w, mode, raises)
    case AttachSession(id, attachMode, raises) => Attaching(st, id, attachMode, raises)
    case DetachSession(id, raises) => Detaching(st, id, raises)
    case CancelSession(id, stop) => Canceling(st, id, stop)
    case SendInput(id, raises) => Sending(st, id, raises)
    case AcknowledgeOutput(id) =>
      if id !in st.sessions then (st, Raised(SessionNotFound))
      else if st.sessions[id].status == Closed then (st, Raised(SessionClosed))
      else Updated(st, st.sessions[id], st.sessions[id].status, st.sessions[id].attachedClients,
          st.sessions[id].attachMode)
    case CloseSessionForWorker(w) =>
      if w in st.workers && st.workers[w].sessionId.Some? && st.workers[w].sessionId.value in st.sessions
      then Closing(st, st.sessions[st.workers[w].sessionId.value]) else (st, Done)
    case ReconcileSessions => (CloseAll(st, DesertedIn(st)), Count(|DesertedIn(st)|))
    case CloseOpenSessions => (CloseAll(st, OpenIn(st)), Count(|OpenIn(st)|))
    case SyncOnWorkerStart(w, raises) => Syncing(st, w, raises)
    case WorkerAdded(w, runtimeMode) =>
      if w in st.workers then (st, Done)
      else (st.(workers := st.workers[w := Worker(w, WorkerStatus.Created, runtimeMode, None)]), Done)
    case WorkerMoved(w, status) =>
      if w !in st.workers then (st, Done) else (st.(workers := st.workers[w := st.workers[w].(status := status)]), Done)
    case WorkerGone(w) => (st.(workers := st.workers - {w}), Done)
  }

  // ---- The manager ----

  /** The store is well formed: records stand under their ids, and fresh ids are fresh. */
  ghost predicate WellFormed(st: Store) {
    && (forall id :: id in st.sessions ==> st.sessions[id].sessionId == id && id < st.nextSessionId)
    && (forall w :: w in st.workers ==> st.workers[w].workerId == w)
  }

  class SessionManager {
    var sessions: map<SessionId, Session>
    var workers: map<WorkerId, Worker>
    var nextSessionId: SessionId

    function View(): Store
      reads this
    {
      Store(sessions, workers, nextSessionId)
    }

    constructor ()
      ensures View() == Store(map[], map[], 0)
    {
      sessions, workers, nextSessionId := map[], map[], 0;
    }

    method UpdateSession(session: Session, status: SessionStatus, attachedClients: int,
        attachMode: AttachMode) returns (reply: Reply)
      modifies this`sessions
      ensures (View(), reply) == Updated(old(View()), session, status, attachedClients, attachMode)
    {
      if status != session.status && !ValidSession(session.status, status) {
        return Raised(IllegalTransition);
      }
      var updated := session.(status := status, attachedClients := attachedClients, attachMode := attachMode);
      sessions := sessions[session.sessionId := updated];
      reply := Answered(updated);
    }

    method CloseSession(session: Session) returns (reply: Reply)
      modifies this`sessions
      ensures (View(), reply) == Closing(old(View()), session)
    {
      if session.status == Closed {
        return Answered(session);
      }
      reply := UpdateSession(session, Closed, 0, session.attachMode);
    }

    method Create(workerId: WorkerId, mode: Mode, runtimeRaises: bool) returns (reply: Reply)
      modifies this
      ensures (View(), reply) == Step(old(View()), CreateSession(workerId, mode, runtimeRaises))
    {
      if workerId !in workers {
        return Raised(WorkerNotFound);
      }
      var worker := workers[workerId];
      if worker.runtimeMode == ProcessMode || worker.runtimeMode != mode {
        return Raised(InvalidRequest);
      }
      if TerminalWorker(worker.status) {
        return Raised(WorkerTerminal);
      }
      if worker.sessionId.Some? && worker.sessionId.value in sessions {
        var existing := sessions[worker.sessionId.value];
        if !TerminalSession(existing.status) {
          return Answered(existing);
        }
      }
      var session := Session(nextSessionId, workerId, mode, Attached, DefaultAttachMode(mode), 1);
      if Interactively(session, worker) && (worker.status.Active? || worker.status.Starting?) && runtimeRaises {
        return Raised(TransportUnavailable);
      }
      nextSessionId := nextSessionId + 1;
      sessions := sessions[session.sessionId := session];
      workers := workers[workerId := worker.(sessionId := Some(session.sessionId))];
      reply := Answered(session);
    }

    method Attach(sessionId: SessionId, attachMode: Option<AttachMode>, runtimeRaises: bool) returns (reply: Reply)
      modifies this`sessions
      ensures (View(), reply) == Step(old(View()), AttachSession(sessionId, attachMode, runtimeRaises))
    {
      if sessionId !in sessions {
        return Raised(SessionNotFound);
      }
      var session := sessions[sessionId];
      if TerminalSession(session.status) {
        return Raised(SessionClosed);
      }
      if session.workerId !in workers {
        return Raised(WorkerNotFound);
      }
      var worker := workers[session.workerId];
      if TerminalWorker(worker.status) {
        return Raised(WorkerTerminal);
      }
      var nextStatus := if worker.status == WorkerStatus.Active then SessionStatus.Active else Attached;
      if Interactively(session, worker) && (worker.status.Active? || worker.status.Starting?) && runtimeRaises {
        return Raised(TransportUnavailable);
      }
      reply := UpdateSession(session, nextStatus, session.attachedClients + 1,
                             if attachMode.Some? then attachMode.value else session.attachMode);
    }

    method Detach(sessionId: SessionId, runtimeRaises: bool) returns (reply: Reply)
      modifies this`sessions
      ensures (View(), reply) == Step(old(View()), DetachSession(sessionId, runtimeRaises))
    {
      if sessionId !in sessions {
        return Raised(SessionNotFound);
      }
      var session := sessions[sessionId];
      if session.status == Closed {
        return Answered(session);
      }
      var nextAttachedClients := if session.attachedClients - 1 > 0 then session.attachedClients - 1 else 0;
      var nextStatus := if nextAttachedClients == 0 then Detached else SessionStatus.Active;
      if nextAttachedClients == 0 && session.workerId in workers {
        var worker := workers[session.workerId];
        if !TerminalWorker(worker.status) && Interactively(session, worker) && runtimeRaises {
          return Raised(TransportUnavailable);
        }
      }
      reply := UpdateSession(session, nextStatus, nextAttachedClients, session.attachMode);
    }

    /** The call to stop the worker, which answers as `stop` says. */
    method StopWorker(workerId: WorkerId, stop: StopAnswer) returns (raised: bool)
      requires workerId in workers && !stop.NoStopper?
      modifies this`workers
      ensures View() == WorkerStopped(old(View()), workerId, stop) && raised == stop.StopRaises?
    {
      if stop.StopEnds? {
        workers := workers[workerId := workers[workerId].(status := stop.status)];
      }
      raised := stop.StopRaises?;
    }

    method Cancel(sessionId: SessionId, stop: StopAnswer) returns (reply: Reply)
      modifies this`sessions, this`workers
      ensures (View(), reply) == Step(old(View()), CancelSession(sessionId, stop))
    {
      if sessionId !in sessions {
        return Raised(SessionNotFound);
      }
      var session := sessions[sessionId];
      reply := CloseSession(session);
      if reply.Answered? && stop != NoStopper && session.workerId in workers
         && !TerminalWorker(workers[session.workerId].status) {
        var raised := StopWorker(session.workerId, stop);
        if raised {
          return Raised(WorkerStopFailed);
        }
      }
    }

    /** Closes the sessions `ids` one after another; what closing one leaves does not depend on the order. */
    method CloseEach(ids: set<SessionId>) returns (closed: nat)
      requires WellFormed(View()) && ids <= OpenIn(View())
      modifies this`sessions
      ensures View() == CloseAll(old(View()), ids) && closed == |ids|
    {
      var remaining := ids;
      closed := 0;
      while remaining != {}
        invariant remaining <= ids && closed == |ids| - |remaining|
        invariant View() == CloseAll(old(View()), ids - remaining)
        decreases |remaining|
      {
        var id :| id in remaining;
        assert sessions[id] == old(sessions)[id];
        var reply := CloseSession(sessions[id]);
        remaining := remaining - {id};
        closed := closed + 1;
        assert sessions == CloseAll(old(View()), ids - remaining).sessions;
      }
      assert ids - remaining == ids;
    }

    method Reconcile() returns (closed: nat)
      requires WellFormed(View())
      modifies this`sessions
      ensures (View(), Count(closed)) == Step(old(View()), ReconcileSessions)
    {
      var deserted := set id | id in sessions && sessions[id].status != Closed
                             && (sessions[id].workerId !in workers
                                  || TerminalWorker(workers[sessions[id].workerId].status));
      assert deserted == DesertedIn(View());
      closed := CloseEach(deserted);
    }

    method CloseOpen() returns (closed: nat)
      requires WellFormed(View())
      modifies this`sessions
      ensures (View(), Count(closed)) == Step(old(View()), CloseOpenSessions)
    {
      closed := CloseEach(set id | id in sessions && sessions[id].status != Closed);
    }

    method SyncSessionRuntimeOnWorkerStart(workerId: WorkerId, runtimeRaises: bool) returns (reply: Reply)
      requires workerId in workers
      modifies this`sessions
      ensures (View(), reply) == Step(old(View()), SyncOnWorkerStart(workerId, runtimeRaises))
    {
      var worker := workers[workerId];
      if worker.sessionId.None? || worker.sessionId.value !in sessions {
        return Done;
      }
      var session := sessions[worker.sessionId.value];
      if session.mode != SessionMode || TerminalSession(session.status) {
        return Done;
      }
      if session.attachedClients > 0 {
        if runtimeRaises {
          return Raised(TransportUnavailable);
        }
        sessions := sessions[session.sessionId := session.(status := SessionStatus.Active)];
      }
      reply := Done;
    }
  }

  // ---- What every run keeps ----

  /** Clients are attached exactly while the status says so. */
  predicate ClientsMatch(s: Session) {
    && s.attachedClients >= 0
    && (s.attachedClients > 0 <==> s.status == Attached || s.status == SessionStatus.Active)
    && (s.attachedClients == 0 <==> s.status == Detached || s.status == Closed)
  }

  /** A worker that is there knows its open session, so it has at most one. */
  ghost predicate OneOpenSession(st: Store) {
    && (forall id :: id in OpenIn(st) && st.sessions[id].workerId in st.workers ==>
          st.workers[st.sessions[id].workerId].sessionId == Some(id))
    && (forall a, b :: a in OpenIn(st) && b in OpenIn(st) && st.sessions[a].workerId == st.sessions[b].workerId ==>
         a == b)
  }

  ghost predicate Inv(st: Store) {
    && WellFormed(st) && OneOpenSession(st)
    && forall id :: id in st.sessions ==> ClientsMatch(st.sessions[id])
  }

  /** Every session's status stays as it was or moves along the table; a closed session stays as it is. */
  ghost predicate SessionsMoveLegally(before: Store, after: Store) {
    forall id :: id in before.sessions ==>
      && id in after.sessions && after.sessions[id].workerId == before.sessions[id].workerId
      && (after.sessions[id].status == before.sessions[id].status
          || ValidSession(before.sessions[id].status, after.sessions[id].status))
      && (before.sessions[id].status == Closed ==> after.sessions[id] == before.sessions[id])
  }

  /** A worker id is used for one worker only: one that is gone does not come back while it has an open session. */
  ghost predicate FreshWorker(st: Store, op: Op) {
    op.WorkerAdded? ==>
      forall id :: id in OpenIn(st) ==> st.sessions[id].workerId != op.workerId || op.workerId in st.workers
  }

  /** Writing back a session that was not reopened keeps the invariant. */
  lemma WriteKeepsInv(st: Store, id: SessionId, next: Session)
    requires Inv(st) && id in st.sessions && next.sessionId == id && next.workerId == st.sessions[id].workerId
    requires ClientsMatch(next) && st.sessions[id].status != Closed
    requires st.sessions[id].status == next.status || ValidSession(st.sessions[id].status, next.status)
    ensures var st' := st.(sessions := st.sessions[id := next]); Inv(st') && SessionsMoveLegally(st, st')
  {
    var st' := st.(sessions := st.sessions[id := next]);
    assert OpenIn(st') <= OpenIn(st);
  }

  lemma CreateKeepsInv(st: Store, w: Worker, s: Session)
    requires Inv(st) && w.workerId in st.workers && st.workers[w.workerId] == w
    requires w.sessionId.Some? ==> w.sessionId.value !in OpenIn(st)
    requires s.sessionId == st.nextSessionId && s.workerId == w.workerId && s.status == Attached
             && s.attachedClients == 1
    ensures var st' := Store(st.sessions[s.sessionId := s],
            st.workers[w.workerId := w.(sessionId := Some(s.sessionId))],
                             st.nextSessionId + 1);
      Inv(st') && SessionsMoveLegally(st, st')
  {
    var st' := Store(st.sessions[s.sessionId := s], st.workers[w.workerId := w.(sessionId := Some(s.sessionId))],
                     st.nextSessionId + 1);
    assert OpenIn(st') == OpenIn(st) + {s.sessionId};
  }

  lemma CloseAllKeepsInv(st: Store, ids: set<SessionId>)
    requires Inv(st) && ids <= OpenIn(st)
    ensures Inv(CloseAll(st, ids)) && SessionsMoveLegally(st, CloseAll(st, ids))
  {
    assert OpenIn(CloseAll(st, ids)) <= OpenIn(st);
  }

  lemma UpdatedKeepsInv(st: Store, id: SessionId, status: SessionStatus, clients: int, attachMode: AttachMode)
    requires Inv(st) && id in st.sessions && st.sessions[id].status != Closed
    requires ClientsMatch(st.sessions[id].(status := status, attachedClients := clients))
    ensures var (st', reply) := Updated(st, st.sessions[id], status, clients, attachMode);
      Inv(st') && SessionsMoveLegally(st, st') && reply.Answered?
  {
    WriteKeepsInv(st, id, st.sessions[id].(status := status, attachedClients := clients, attachMode := attachMode));
  }

  lemma CreatedKeepsInv(st: Store, w: WorkerId, mode: Mode, raises: bool)
    requires Inv(st)
    ensures var (st', reply) := Created(st, w, mode, raises);
      Inv(st') && SessionsMoveLegally(st, st') && reply != Raised(IllegalTransition)
  {
    if Created(st, w, mode, raises).0 != st {
      CreateKeepsInv(st, st.workers[w], Session(st.nextSessionId, w, mode, Attached, DefaultAttachMode(mode), 1));
    }
  }

  /** An attach raises and writes nothing, or counts one more client in the status that goes with the worker's. */
  lemma AttachingUpdates(st: Store, id: SessionId, attachMode: Option<AttachMode>, raises: bool)
    returns (status: SessionStatus, chosen: AttachMode)
    ensures status == Attached || status == SessionStatus.Active
    ensures var (st', reply) := Attaching(st, id, attachMode, raises);
      || (st' == st && reply.Raised? && reply != Raised(IllegalTransition))
      || (id in st.sessions && st.sessions[id].status != Closed
          && (st', reply) == Updated(st, st.sessions[id], status, st.sessions[id].attachedClients + 1, chosen))
  {
    status, chosen := Attached, Observe;
    if id in st.sessions {
      var s := st.sessions[id];
      chosen := if attachMode.Some? then attachMode.value else s.attachMode;
      if s.workerId in st.workers && st.workers[s.workerId].status == WorkerStatus.Active {
        status := SessionStatus.Active;
      }
    }
  }

  lemma AttachingKeepsInv(st: Store, id: SessionId, attachMode: Option<AttachMode>, raises: bool)
    requires Inv(st)
    ensures var (st', reply) := Attaching(st, id, attachMode, raises);
      Inv(st') && SessionsMoveLegally(st, st') && reply != Raised(IllegalTransition)
  {
    var status, chosen := AttachingUpdates(st, id, attachMode, raises);
    if Attaching(st, id, attachMode, raises).0 != st {
      UpdatedKeepsInv(st, id, status, st.sessions[id].attachedClients + 1, chosen);
    } else if Attaching(st, id, attachMode, raises).1 == Raised(IllegalTransition) {
      UpdatedKeepsInv(st, id, status, st.sessions[id].attachedClients + 1, chosen);
    }
  }

  lemma DetachingKeepsInv(st: Store, id: SessionId, raises: bool)
    requires Inv(st)
    ensures var (st', reply) := Detaching(st, id, raises);
      Inv(st') && SessionsMoveLegally(st, st') && reply != Raised(IllegalTransition)
  {
    if id in st.sessions && st.sessions[id].status != Closed {
      var s := st.sessions[id];
      var clients := if s.attachedClients - 1 > 0 then s.attachedClients - 1 else 0;
      UpdatedKeepsInv(st, id, if clients == 0 then Detached else SessionStatus.Active, clients, s.attachMode);
    }
  }

  lemma SyncingKeepsInv(st: Store, w: WorkerId, raises: bool)
    requires Inv(st)
    ensures var (st', reply) := Syncing(st, w, raises);
      Inv(st') && SessionsMoveLegally(st, st') && reply != Raised(IllegalTransition)
  {
    if Syncing(st, w, raises).0 != st {
      var id := st.workers[w].sessionId.value;
      WriteKeepsInv(st, id, st.sessions[id].(status := SessionStatus.Active));
    }
  }

  lemma SendingKeepsInv(st: Store, id: SessionId, raises: bool)
    requires Inv(st)
    ensures var (st', reply) := Sending(st, id, raises);
      Inv(st') && SessionsMoveLegally(st, st') && reply != Raised(IllegalTransition)
  {
    TouchKeepsInv(st, id);
  }

  /** No step breaks the invariant, and `#updateSession` never meets an illegal transition. */
  lemma StepKeepsInv(st: Store, op: Op)
    requires Inv(st) && FreshWorker(st, op)
    ensures Inv(Step(st, op).0) && SessionsMoveLegally(st, Step(st, op).0)
    ensures Step(st, op).1 != Raised(IllegalTransition)
  {
    match op {
      case CreateSession(w, mode, raises) => CreatedKeepsInv(st, w, mode, raises);
      case AttachSession(id, attachMode, raises) => AttachingKeepsInv(st, id, attachMode, raises);
      case DetachSession(id, raises) => DetachingKeepsInv(st, id, raises);
      case CancelSession(id, stop) => CancelingKeepsInv(st, id, stop);
      case SendInput(id, raises) => SendingKeepsInv(st, id, raises);
      case AcknowledgeOutput(id) => TouchKeepsInv(st, id);
      case CloseSessionForWorker(w) =>
        if w in st.workers && st.workers[w].sessionId.Some? {
          ClosingKeepsInv(st, st.workers[w].sessionId.value);
        }
      case ReconcileSessions => CloseAllKeepsInv(st, DesertedIn(st));
      case CloseOpenSessions => CloseAllKeepsInv(st, OpenIn(st));
      case SyncOnWorkerStart(w, raises) => SyncingKeepsInv(st, w, raises);
      case _ => WorkerOpKeepsInv(st, op);
    }
  }

  lemma WorkerOpKeepsInv(st: Store, op: Op)
    requires Inv(st) && FreshWorker(st, op) && (op.WorkerAdded? || op.WorkerMoved? || op.WorkerGone?)
    ensures Inv(Step(st, op).0) && SessionsMoveLegally(st, Step(st, op).0)
  {
    var st' := Step(st, op).0;
    assert st'.sessions == st.sessions && st'.nextSessionId == st.nextSessionId;
    assert OpenIn(st') == OpenIn(st);
    assert WellFormed(st');
  }

  lemma ClosingKeepsInv(st: Store, id: SessionId)
    requires Inv(st)
    ensures id in st.sessions ==>
      var (st', reply) := Closing(st, st.sessions[id]);
      Inv(st') && SessionsMoveLegally(st, st') && reply.Answered?
  {
    if id in st.sessions && st.sessions[id].status != Closed {
      UpdatedKeepsInv(st, id, Closed, 0, st.sessions[id].attachMode);
    }
  }

  /** A cancellation closes the session, whatever becomes of its worker. */
  lemma CancelingKeepsInv(st: Store, id: SessionId, stop: StopAnswer)
    requires Inv(st)
    ensures var (st', reply) := Canceling(st, id, stop);
      && Inv(st') && SessionsMoveLegally(st, st') && reply != Raised(IllegalTransition)
      && (id in st.sessions ==> id in st'.sessions && st'.sessions[id].status == Closed)
  {
    ClosingKeepsInv(st, id);
    if id in st.sessions {
      var closed, w := Closing(st, st.sessions[id]).0, st.sessions[id].workerId;
      assert OpenIn(WorkerStopped(closed, w, stop)) == OpenIn(closed);
    }
  }

  lemma TouchKeepsInv(st: Store, id: SessionId)
    requires Inv(st)
    ensures id in st.sessions && st.sessions[id].status != Closed ==>
      var s := st.sessions[id];
      var (st', reply) := Updated(st, s, s.status, s.attachedClients, s.attachMode);
      Inv(st') && SessionsMoveLegally(st, st') && reply.Answered?
  {
    if id in st.sessions && st.sessions[id].status != Closed {
      UpdatedKeepsInv(st, id, st.sessions[id].status, st.sessions[id].attachedClients, st.sessions[id].attachMode);
    }
  }

  function Run(st: Store, ops: seq<Op>): Store
    decreases |ops|
  {
    if ops == [] then st else Run(Step(st, ops[0]).0, ops[1..])
  }

  function Replies(st: Store, ops: seq<Op>): seq<Reply>
    decreases |ops|
  {
    if ops == [] then [] else [Step(st, ops[0]).1] + Replies(Step(st, ops[0]).0, ops[1..])
  }

  ghost predicate FreshWorkers(st: Store, ops: seq<Op>)
    decreases |ops|
  {
    ops != [] ==> FreshWorker(st, ops[0]) && FreshWorkers(Step(st, ops[0]).0, ops[1..])
  }

  lemma {:induction false} RunKeepsInv(st: Store, ops: seq<Op>)
    requires Inv(st) && FreshWorkers(st, ops)
    ensures Inv(Run(st, ops)) && Raised(IllegalTransition) !in Replies(st, ops)
    ensures forall id :: id in st.sessions && st.sessions[id].status == Closed ==>
      id in Run(st, ops).sessions && Run(st, ops).sessions[id] == st.sessions[id]
    decreases |ops|
  {
    if ops != [] {
      StepKeepsInv(st, ops[0]);
      RunKeepsInv(Step(st, ops[0]).0, ops[1..]);
    }
  }

  /** A reconciliation leaves no open session whose worker is missing or terminal; closing all leaves none open. */
  lemma ReconcileCloses(st: Store)
    requires WellFormed(st)
    ensures DesertedIn(Step(st, ReconcileSessions).0) == {} && OpenIn(Step(st, CloseOpenSessions).0) == {}
    ensures OpenIn(Step(st, ReconcileSessions).0) == OpenIn(st) - DesertedIn(st)
  {
  }

  /**
   A detach takes back an attach: as many clients are left as before, and a session nobody was attached to is so again.
   */
  lemma DetachUndoesAttach(st: Store, id: SessionId, attachMode: Option<AttachMode>, attachRaises: bool,
      detachRaises: bool)
    requires Inv(st) && id in st.sessions
    requires Attaching(st, id, attachMode, attachRaises).1.Answered?
    requires Detaching(Attaching(st, id, attachMode, attachRaises).0, id, detachRaises).1.Answered?
    ensures var attached := Attaching(st, id, attachMode, attachRaises).0;
      var s, between, after := st.sessions[id], attached.sessions[id],
          Detaching(attached, id, detachRaises).0.sessions[id];
      && between.attachedClients == s.attachedClients + 1
      && (between.status == SessionStatus.Active <==> st.workers[s.workerId].status == WorkerStatus.Active)
      && after.attachedClients == s.attachedClients
      && (s.status == Detached <==> after.status == Detached)
  {
    assert ClientsMatch(st.sessions[id]);
  }
}
