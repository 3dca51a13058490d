/**
 What each session operation answers, and what it leaves of the session (src/sessions/sessionManager.ts): exactly when
 it raises which error, and otherwise the session's new record, in every store that the operations can lead to.
 */
module SessionAnswers {
  import opened Wrappers
  import opened StateMachine
  import opened Sessions

  /** The session's worker talks to a runtime that is asked first, and may raise. */
  predicate AsksRuntime(mode: Mode, worker: Worker) {
    mode == SessionMode && worker.runtimeMode == SessionMode
  }

  predicate Running(worker: Worker) {
    worker.status == WorkerStatus.Starting || worker.status == WorkerStatus.Active
  }

  /** An open session, and its worker is there and under way. */
  predicate InUse(st: Store, id: SessionId) {
    && id in st.sessions && st.sessions[id].status != Closed
    && st.sessions[id].workerId in st.workers && !TerminalWorker(st.workers[st.sessions[id].workerId].status)
  }

  /** The error for a session that is not in use. */
  predicate NotInUse(st: Store, id: SessionId, error: Error, forTerminal: Error) {
    && (error == SessionNotFound <==> id !in st.sessions)
    && (error == SessionClosed <==> id in st.sessions && st.sessions[id].status == Closed)
    && (error == WorkerNotFound <==>
          id in st.sessions && st.sessions[id].status != Closed && st.sessions[id].workerId !in st.workers)
    && error in {SessionNotFound, SessionClosed, WorkerNotFound, forTerminal}
  }

  /** The worker's open session, which the store has. */
  predicate HasOpenSession(st: Store, worker: Worker) {
    && worker.sessionId.Some? && worker.sessionId.value in st.sessions
    && st.sessions[worker.sessionId.value].status != Closed
  }

  /** Creating raises for a worker that is not there, cannot have such a session, or has ended. */
  lemma CreateRaises(st: Store, w: WorkerId, mode: Mode, raises: bool)
    ensures
      var (st', reply) := Step(st, CreateSession(w, mode, raises));
      var supported := w in st.workers && mode != ProcessMode && st.workers[w].runtimeMode == mode;
      var ready := supported && !TerminalWorker(st.workers[w].status);
      && (reply == Raised(WorkerNotFound) <==> w !in st.workers)
      && (reply == Raised(InvalidRequest) <==> w in st.workers && !supported)
      && (reply == Raised(WorkerTerminal) <==> supported && !ready)
      && (reply == Raised(TransportUnavailable) <==>
            && ready && !HasOpenSession(st, st.workers[w]) && mode == SessionMode && Running(st.workers[w]) && raises)
      && (reply.Raised? ==> st' == st)
      && (reply.Answered? || reply.Raised?)
  {
  }

  /** Otherwise it returns the worker's open session, or a new one that the worker and one client are attached to. */
  lemma CreateAnswers(st: Store, w: WorkerId, mode: Mode, raises: bool)
    requires Inv(st) && Step(st, CreateSession(w, mode, raises)).1.Answered?
    ensures
      var (st', reply) := Step(st, CreateSession(w, mode, raises));
      var id := reply.session.sessionId;
      && id in st'.sessions && st'.sessions[id] == reply.session && reply.session.status != Closed
      && w in st'.workers && st'.workers[w].sessionId == Some(id)
      && (HasOpenSession(st, st.workers[w]) ==> st' == st)
      && (!HasOpenSession(st, st.workers[w]) ==>
            && id !in st.sessions && st'.sessions - {id} == st.sessions && st'.workers - {w} == st.workers - {w}
            && reply.session.workerId == w && reply.session.mode == mode && reply.session.status == Attached
            && reply.session.attachedClients == 1
            && (reply.session.attachMode == Observe <==> mode == BackgroundMode))
  {
  }

  /** Creating again returns the session created, and changes nothing. */
  lemma CreateTwice(st: Store, w: WorkerId, mode: Mode, raises: bool, raisesAgain: bool)
    requires Inv(st) && Step(st, CreateSession(w, mode, raises)).1.Answered?
    ensures
      var (once, reply) := Step(st, CreateSession(w, mode, raises));
      Step(once, CreateSession(w, mode, raisesAgain)) == (once, reply)
  {
  }

  /** Attaching raises for a session not in use, or when a runtime that runs raises; else it counts one client more. */
  lemma AttachAnswers(st: Store, id: SessionId, attachMode: Option<AttachMode>, raises: bool)
    requires Inv(st)
    ensures
      var (st', reply) := Step(st, AttachSession(id, attachMode, raises));
      var refused := InUse(st, id) && raises
          && AsksRuntime(st.sessions[id].mode, st.workers[st.sessions[id].workerId])
          && Running(st.workers[st.sessions[id].workerId]);
      && (reply.Answered? <==> InUse(st, id) && !refused)
      && (!InUse(st, id) ==> reply.Raised? && NotInUse(st, id, reply.error, WorkerTerminal))
      && (refused ==> reply == Raised(TransportUnavailable))
      && (reply.Raised? ==> st' == st)
      && (reply.Answered? ==>
            var s := st.sessions[id];
            && reply.session == s.(
                 status := if st.workers[s.workerId].status == WorkerStatus.Active then SessionStatus.Active
                           else Attached,
                 attachedClients := s.attachedClients + 1,
                 attachMode := if attachMode.Some? then attachMode.value else s.attachMode)
            && st' == st.(sessions := st.sessions[id := reply.session]))
  {
    if id in st.sessions && st.sessions[id].status != Closed {
      assert ClientsMatch(st.sessions[id]);
    }
  }

  /** Detaching raises only without a session, or when the last client leaves and a runtime under way raises. */
  lemma DetachAnswers(st: Store, id: SessionId, raises: bool)
    requires Inv(st)
    ensures
      var (st', reply) := Step(st, DetachSession(id, raises));
      var refused := InUse(st, id) && raises && st.sessions[id].attachedClients <= 1
          && AsksRuntime(st.sessions[id].mode, st.workers[st.sessions[id].workerId]);
      && (reply == Raised(SessionNotFound) <==> id !in st.sessions)
      && (reply == Raised(TransportUnavailable) <==> refused)
      && (reply.Answered? <==> id in st.sessions && !refused)
      && (reply.Raised? ==> st' == st)
      && (reply.Answered? ==>
            var s := st.sessions[id];
            && (s.status == Closed ==> reply.session == s && st' == st)
            && (s.status != Closed ==>
                  && reply.session == s.(status := if s.attachedClients <= 1 then Detached else SessionStatus.Active,
                                         attachedClients := if s.attachedClients <= 1 then 0
                                                            else s.attachedClients - 1)
                  && st' == st.(sessions := st.sessions[id := reply.session])))
  {
    if id in st.sessions && st.sessions[id].status != Closed {
      assert ClientsMatch(st.sessions[id]);
    }
  }

  /** Input is taken by a session in use whose runtime takes it; acknowledging asks for an open session only. */
  lemma SendAnswers(st: Store, id: SessionId, raises: bool)
    requires Inv(st)
    ensures
      var (st', reply) := Step(st, SendInput(id, raises));
      var takes := InUse(st, id) && AsksRuntime(st.sessions[id].mode, st.workers[st.sessions[id].workerId]) && !raises;
      && st' == st
      && (takes ==> reply == Answered(st.sessions[id]))
      && (InUse(st, id) && !takes ==> reply == Raised(TransportUnavailable))
      && (!InUse(st, id) ==> reply.Raised? && NotInUse(st, id, reply.error, TransportUnavailable))
    ensures
      Step(st, AcknowledgeOutput(id)) == (st,
        if id !in st.sessions then Raised(SessionNotFound)
        else if st.sessions[id].status == Closed then Raised(SessionClosed) else Answered(st.sessions[id]))
  {
    if id in st.sessions {
      assert st.sessions[id := st.sessions[id]] == st.sessions;
    }
  }

  /** Canceling closes the session; its worker, if under way, is stopped, and only that can raise afterwards. */
  lemma CancelAnswers(st: Store, id: SessionId, stop: StopAnswer)
    requires Inv(st)
    ensures
      var (st', reply) := Step(st, CancelSession(id, stop));
      && (id !in st.sessions ==> st' == st && reply == Raised(SessionNotFound))
      && (id in st.sessions ==>
            var s := st.sessions[id];
            var closed := if s.status == Closed then s else s.(status := Closed, attachedClients := 0);
            var stops := s.workerId in st.workers && !TerminalWorker(st.workers[s.workerId].status);
            && st'.sessions == st.sessions[id := closed] && st'.nextSessionId == st.nextSessionId
            && st'.workers == (if stops && stop.StopEnds?
                 then st.workers[s.workerId := st.workers[s.workerId].(status := stop.status)] else st.workers)
            && reply == if stops && stop.StopRaises? then Raised(WorkerStopFailed) else Answered(closed))
  {
    if id in st.sessions {
      assert st.sessions[id := st.sessions[id]] == st.sessions;
    }
  }

  /** Reconciling leaves a session open exactly if it was and its worker is there and under way, and counts the rest. */
  lemma ReconcileAnswers(st: Store, id: SessionId)
    requires id in st.sessions
    ensures
      var (st', reply) := Step(st, ReconcileSessions);
      var deserted := set k | k in st.sessions && st.sessions[k].status != Closed && !InUse(st, k);
      && id in st'.sessions && st'.workers == st.workers && reply == Count(|deserted|)
      && st'.sessions[id] == (if id in deserted then st.sessions[id].(status := Closed, attachedClients := 0)
                              else st.sessions[id])
  {
    assert DesertedIn(st) == set k | k in st.sessions && st.sessions[k].status != Closed && !InUse(st, k);
  }

  /** A worker that starts makes its session active, if clients are attached to it, unless the runtime raises. */
  lemma SyncAnswers(st: Store, w: WorkerId, raises: bool)
    requires Inv(st) && w in st.workers
    ensures
      var (st', reply) := Step(st, SyncOnWorkerStart(w, raises));
      var awaits := HasOpenSession(st, st.workers[w])
          && st.sessions[st.workers[w].sessionId.value].mode == SessionMode
          && st.sessions[st.workers[w].sessionId.value].attachedClients > 0;
      && (awaits && !raises ==>
            var id := st.workers[w].sessionId.value;
            st' == st.(sessions := st.sessions[id := st.sessions[id].(status := SessionStatus.Active)]))
      && (!(awaits && !raises) ==> st' == st)
      && reply == if awaits && raises then Raised(TransportUnavailable) else Done
  {
  }

  /** Closing the session of a worker closes the one the worker knows, if the store has it, and nothing else. */
  lemma CloseForWorkerAnswers(st: Store, w: WorkerId, id: SessionId)
    requires Inv(st) && id in st.sessions
    ensures
      var st' := Step(st, CloseSessionForWorker(w)).0;
      var closes := w in st.workers && st.workers[w].sessionId == Some(id) && st.sessions[id].status != Closed;
      && id in st'.sessions && st'.workers == st.workers
      && st'.sessions[id] == (if closes then st.sessions[id].(status := Closed, attachedClients := 0)
                              else st.sessions[id])
  {
  }
}
