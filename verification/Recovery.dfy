/**
 What can be done for a worker whose runtime this process does not hold (src/runtime/recovery.ts and the reconciler's
 use of it).
 */
module Recovery {
  import opened Wrappers
  import opened StateMachine
  import Decimal
  import StdioTransport

  datatype Mode = ProcessMode | BackgroundMode | SessionMode

  datatype Identity = Identity(
    mode: Mode, pid: Option<int>, sessionId: Option<string>, runtimeSessionId: Option<string>,
    reattachToken: Option<string>,
    transport: Option<string>, transportRootPath: Option<string>)

  datatype Disposition = TerminalNoop | FinalizeCanceledCreated | ReattachSupported | TerminateOnly | FinalizeLost

  /** The session a worker points to, if the store has it. */
  datatype SessionInfo = SessionInfo(closed: bool, identity: Identity)

  /** What is observed about a worker at the time it is looked at. */
  datatype Observation = Observation(
    stale: bool, heartbeatActive: bool, mode: Mode, pid: Option<int>, session: Option<SessionInfo>,
    alive: bool, reattaches: bool, dies: bool)

  predicate HasValue(value: Option<string>) {
    value.Some? && StdioTransport.Trim(value.value) != ""
  }

  /** A value is one that does not consist of white space alone. */
  lemma HasValueIff(value: Option<string>)
    ensures HasValue(value) <==> value.Some? && exists c :: c in value.value && !Decimal.IsSpace(c)
  {
    if value.Some? {
      var front, back := StdioTransport.TrimMeans(value.value);
      var trimmed := StdioTransport.Trim(value.value);
      if trimmed != "" {
        assert trimmed[0] in value.value;
      }
    }
  }

  predicate CanReattach(i: Identity) {
    && i.mode == SessionMode && i.sessionId.Some?
    && (HasValue(i.runtimeSessionId) || HasValue(i.reattachToken))
    && (i.transport != Some("file_ndjson") || HasValue(i.transportRootPath))
  }

  /** What is needed to take a session up again: text in one of its ids, and a root path if its frames are files. */
  lemma CanReattachIff(i: Identity)
    ensures
      var text := (value: Option<string>) => value.Some? && exists c :: c in value.value && !Decimal.IsSpace(c);
      CanReattach(i) <==>
        && i.mode == SessionMode && i.sessionId.Some? && (text(i.runtimeSessionId) || text(i.reattachToken))
        && !(i.transport == Some("file_ndjson") && !text(i.transportRootPath))
  {
    HasValueIff(i.runtimeSessionId);
    HasValueIff(i.reattachToken);
    HasValueIff(i.transportRootPath);
  }

  /** `isPersistedRuntimeIdentityLive`, with the process table's answer about the pid. */
  predicate IsLive(i: Identity, alive: bool) {
    i.mode != SessionMode && i.pid.Some? && alive
  }

  /** `terminatePersistedRuntimeIdentity`; `dies` is how the signals end. */
  predicate Terminates(i: Identity, dies: bool) {
    i.mode != SessionMode && i.pid.Some? && dies
  }

  function WorkerIdentity(ob: Observation): Identity {
    Identity(ob.mode, ob.pid, None, None, None, None, None)
  }

  /** `#getRecoveryRuntimeIdentity`: the open session's identity if it can be reattached, the worker's own otherwise. */
  function RecoveryIdentity(ob: Observation): Identity {
    if ob.session.None? || ob.session.value.closed then WorkerIdentity(ob)
    else if CanReattach(ob.session.value.identity) then ob.session.value.identity
    else WorkerIdentity(ob)
  }

  function Classify(status: WorkerStatus, hasRuntimeHandle: bool, isRuntimeLive: bool,
      isSessionReattachable: bool): Disposition {
    if TerminalWorker(status) then TerminalNoop
    else if status.Created? then FinalizeCanceledCreated
    else if hasRuntimeHandle then ReattachSupported
    else if isSessionReattachable then ReattachSupported
    else if isRuntimeLive then TerminateOnly
    else FinalizeLost
  }

  /**
   `#getRecoveryDisposition`: a fresh worker, or one with a live heartbeat, is left alone unless recovery is forced.
   */
  function RecoveryDisposition(status: WorkerStatus, ob: Observation, force: bool,
      controlPlane: bool): Option<Disposition> {
    if !force && !ob.stale then None
    else if !force && controlPlane && ob.heartbeatActive then None
    else
      var identity := RecoveryIdentity(ob);
      Some(Classify(status, false, IsLive(identity, ob.alive), identity.mode == SessionMode && CanReattach(identity)))
  }

  /** Only an open session can be reattached to; a process is terminated only when there is one. */
  lemma DispositionMeans(status: WorkerStatus, ob: Observation, force: bool, controlPlane: bool)
    requires !TerminalWorker(status)
    ensures var d := RecoveryDisposition(status, ob, force, controlPlane);
      var reattachable := ob.session.Some? && !ob.session.value.closed && CanReattach(ob.session.value.identity);
      && (d.None? <==> !force && (!ob.stale || (controlPlane && ob.heartbeatActive)))
      && d != Some(TerminalNoop)
      && (d == Some(ReattachSupported) ==> !status.Created? && reattachable)
      && (d == Some(TerminateOnly) ==>
            !status.Created? && !reattachable && ob.mode != SessionMode && ob.pid.Some? && ob.alive
            && Terminates(RecoveryIdentity(ob), ob.dies) == ob.dies)
      && (d == Some(FinalizeLost) ==>
            !status.Created? && !reattachable && (ob.mode == SessionMode || ob.pid.None? || !ob.alive))
      && (d == Some(FinalizeCanceledCreated) ==> status.Created?)
  {
  }
}
