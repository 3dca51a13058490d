/**
 Event delivery by live emits and offset polling (`PollingStateStoreEventStream` of src/core/eventBus.ts over
 `listEvents` of src/storage/fileStateStore.ts). A poll is two steps, the listing and its callback, with anything
 in between; `received` is what the subscriber's callback was given.
 */
module EventDelivery {
  import opened Wrappers

  datatype Event = Event(
    eventId: string, eventType: string, jobId: Option<string>, workerId: Option<string>, sessionId: Option<string>)

  datatype TypeFilter = AnyType | OneType(eventType: string) | TypeIn(eventTypes: seq<string>)

  datatype Filter = Filter(jobId: Option<string>, workerId: Option<string>, sessionId: Option<string>,
      types: TypeFilter)

  predicate Matches(e: Event, f: Filter) {
    && (f.jobId.None? || e.jobId == f.jobId)
    && (f.workerId.None? || e.workerId == f.workerId)
    && (f.sessionId.None? || e.sessionId == f.sessionId)
    && match f.types
       case AnyType => true
       case OneType(t) => e.eventType == t
       case TypeIn(ts) => e.eventType in ts
  }

  function Matching(log: seq<Event>, f: Filter): seq<Event>
    decreases |log|
  {
    if log == [] then []
    else
      var last := log[|log| - 1];
      Matching(log[..|log| - 1], f) + if Matches(last, f) then [last] else []
  }

  lemma MatchingAppend(log: seq<Event>, e: Event, f: Filter)
    ensures Matching(log + [e], f) == Matching(log, f) + if Matches(e, f) then [e] else []
  {
    assert (log + [e])[..|log|] == log;
  }

  /** A filter that asks for nothing keeps the whole log, and one that asks for one thing keeps what has it. */
  lemma {:induction false} OneCriterion(log: seq<Event>, e: Event, id: string, types: seq<string>)
    ensures Matching(log, Filter(None, None, None, AnyType)) == log
    ensures e in Matching(log, Filter(Some(id), None, None, AnyType)) <==> e in log && e.jobId == Some(id)
    ensures e in Matching(log, Filter(None, Some(id), None, AnyType)) <==> e in log && e.workerId == Some(id)
    ensures e in Matching(log, Filter(None, None, Some(id), AnyType)) <==> e in log && e.sessionId == Some(id)
    ensures e in Matching(log, Filter(None, None, None, OneType(id))) <==> e in log && e.eventType == id
    ensures e in Matching(log, Filter(None, None, None, TypeIn(types))) <==> e in log && e.eventType in types
    decreases |log|
  {
    if log != [] {
      var front, last := log[..|log| - 1], log[|log| - 1];
      assert log == front + [last];
      OneCriterion(front, e, id, types);
    }
  }

  /** Filtering by one and then by the other is filtering by both. */
  lemma {:induction false} FiltersCompose(log: seq<Event>, a: Filter, b: Filter, both: Filter)
    requires forall e :: Matches(e, both) <==> Matches(e, a) && Matches(e, b)
    ensures Matching(Matching(log, a), b) == Matching(log, both)
    decreases |log|
  {
    if log != [] {
      var front, last := log[..|log| - 1], log[|log| - 1];
      FiltersCompose(front, a, b, both);
      MatchingAppend(Matching(front, a), last, b);
      assert Matching(front, a) + [] == Matching(front, a) && Matching(front, both) + [] == Matching(front, both);
    }
  }

  lemma JobThenWorker(log: seq<Event>, job: Option<string>, worker: Option<string>)
    ensures Matching(Matching(log, Filter(job, None, None, AnyType)), Filter(None, worker, None, AnyType)) ==
            Matching(log, Filter(job, worker, None, AnyType))
  {
    FiltersCompose(log, Filter(job, None, None, AnyType), Filter(None, worker, None, AnyType),
        Filter(job, worker, None, AnyType));
  }

  lemma ThenSession(log: seq<Event>, job: Option<string>, worker: Option<string>, session: Option<string>)
    ensures Matching(Matching(log, Filter(job, worker, None, AnyType)), Filter(None, None, session, AnyType)) ==
            Matching(log, Filter(job, worker, session, AnyType))
  {
    FiltersCompose(log, Filter(job, worker, None, AnyType), Filter(None, None, session, AnyType),
        Filter(job, worker, session, AnyType));
  }

  lemma ThenTypes(log: seq<Event>, f: Filter)
    ensures Matching(Matching(log, f.(types := AnyType)), Filter(None, None, None, f.types)) == Matching(log, f)
  {
    FiltersCompose(log, f.(types := AnyType), Filter(None, None, None, f.types), f);
  }

  /** One that asks for several things filters by each of them in turn, in the order of the log. */
  lemma CriteriaAddUp(log: seq<Event>, f: Filter)
    ensures
      var ofJob := Matching(log, Filter(f.jobId, None, None, AnyType));
      var ofWorker := Matching(ofJob, Filter(None, f.workerId, None, AnyType));
      var ofSession := Matching(ofWorker, Filter(None, None, f.sessionId, AnyType));
      Matching(log, f) == Matching(ofSession, Filter(None, None, None, f.types))
  {
    JobThenWorker(log, f.jobId, f.workerId);
    ThenSession(log, f.jobId, f.workerId, f.sessionId);
    ThenTypes(log, f);
  }

  /** `slice(offset, offset + limit)`. */
  function Slice(events: seq<Event>, offset: nat, limit: nat): seq<Event> {
    if offset >= |events| then []
    else if offset + limit >= |events| then events[offset..]
    else events[offset..offset + limit]
  }

  function ListEvents(log: seq<Event>, f: Filter, offset: nat, limit: nat): seq<Event> {
    Slice(Matching(log, f), offset, limit)
  }

  /** One subscription: what its callback has received, the ids delivered, the offset, and a listing on its way back. */
  datatype Sub = Sub(received: seq<Event>, delivered: set<string>, nextOffset: nat, inFlight: Option<seq<Event>>)

  function Subscribed(offset: nat): Sub {
    Sub([], {}, offset, None)
  }

  datatype Op = Append(event: Event) | Emit(event: Event) | Tick | PollDone | PollFailed

  function Deliver(s: Sub, e: Event): Sub {
    if e.eventId in s.delivered then s
    else s.(received := s.received + [e], delivered := s.delivered + {e.eventId})
  }

  function DeliverAll(s: Sub, events: seq<Event>): Sub
    decreases |events|
  {
    if events == [] then s
    else Deliver(DeliverAll(s, events[..|events| - 1]), events[|events| - 1])
  }

  function SubStep(s: Sub, log: seq<Event>, op: Op, f: Filter, limit: nat): Sub {
    match op
    case Append(_) => s
    case Emit(e) => if Matches(e, f) then Deliver(s, e) else s
    case Tick => if s.inFlight.Some? then s else s.(inFlight := Some(ListEvents(log, f, s.nextOffset, limit)))
    case PollDone =>
      if s.inFlight.None? then s
      else DeliverAll(s.(nextOffset := s.nextOffset + |s.inFlight.value|), s.inFlight.value).(inFlight := None)
    case PollFailed => s.(inFlight := None)
  }

  /** The callback raises at this place of the listing: it is called there, for the id has not been delivered. */
  predicate RaisesAt(s: Sub, throwsAt: Option<nat>) {
    && s.inFlight.Some? && throwsAt.Some? && throwsAt.value < |s.inFlight.value|
    && s.inFlight.value[throwsAt.value].eventId !in DeliverAll(s, s.inFlight.value[..throwsAt.value]).delivered
  }

  /** A listing that comes back to a callback that raises: the offset has moved past all of it, the rest is dropped. */
  function PollRaised(s: Sub, i: nat): Sub
    requires s.inFlight.Some? && i < |s.inFlight.value|
  {
    DeliverAll(s.(nextOffset := s.nextOffset + |s.inFlight.value|), s.inFlight.value[..i + 1]).(inFlight := None)
  }

  function LogStep(log: seq<Event>, op: Op): seq<Event> {
    if op.Append? then log + [op.event] else log
  }

  lemma {:induction false} DeliverIgnoresOffset(s: Sub, events: seq<Event>, offset: nat)
    ensures DeliverAll(s.(nextOffset := offset), events) == DeliverAll(s, events).(nextOffset := offset)
    decreases |events|
  {
    if events != [] {
      DeliverIgnoresOffset(s, events[..|events| - 1], offset);
    }
  }

  /** A poll that fails delivers nothing and frees the next one, which asks from the same offset. */
  lemma FailedPollFreesNext(s: Sub, log: seq<Event>, f: Filter, limit: nat)
    ensures
      var failed := SubStep(s, log, PollFailed, f, limit);
      var next := SubStep(failed, log, Tick, f, limit);
      && failed.received == s.received == next.received && failed.delivered == s.delivered == next.delivered
      && failed.nextOffset == s.nextOffset == next.nextOffset
      && next.inFlight == Some(ListEvents(log, f, s.nextOffset, limit))
      && SubStep(next, log, Tick, f, limit) == next
  {
  }

  /** `subscribe`: the variables its closures share. */
  class PollingSubscription {
    const filter: Filter
    const pollLimit: nat
    var received: seq<Event>
    var deliveredEventIds: set<string>
    var nextOffset: nat
    var polling: bool
    var listing: seq<Event>

    function View(): Sub
      reads this
    {
      Sub(received, deliveredEventIds, nextOffset, if polling then Some(listing) else None)
    }

    constructor (filter: Filter, offset: Option<nat>, pollLimit: nat)
      ensures View() == Subscribed(if offset.Some? then offset.value else 0)
      ensures this.filter == filter && this.pollLimit == pollLimit
    {
      this.filter, this.pollLimit := filter, pollLimit;
      received, deliveredEventIds, polling, listing := [], {}, false, [];
      nextOffset := if offset.Some? then offset.value else 0;
    }

    /** The event bus calls every subscription whose filter matches. */
    method OnEmit(event: Event, ghost log: seq<Event>)
      modifies this
      ensures View() == SubStep(old(View()), log, Emit(event), filter, pollLimit)
    {
      if Matches(event, filter) && event.eventId !in deliveredEventIds {
        deliveredEventIds := deliveredEventIds + {event.eventId};
        received := received + [event];
      }
    }

    method OnTick(log: seq<Event>)
      modifies this
      ensures View() == SubStep(old(View()), log, Tick, filter, pollLimit)
    {
      if polling {
        return;
      }
      polling := true;
      listing := ListEvents(log, filter, nextOffset, pollLimit);
    }

    /** The listing comes back; `throwsAt` is where in it the callback raises, if it does when called there. */
    method OnListed(throwsAt: Option<nat>, ghost log: seq<Event>)
      requires polling
      modifies this
      ensures View() == if RaisesAt(old(View()), throwsAt) then PollRaised(old(View()), throwsAt.value)
              else SubStep(old(View()), log, PollDone, filter, pollLimit)
    {
      var events := listing;
      nextOffset := nextOffset + |events|;
      ghost var start := View();
      var raised := false;
      var index := 0;
      while index < |events| && !raised
        invariant 0 <= index <= |events|
        invariant View() == DeliverAll(start, events[..index])
        invariant if raised then RaisesAt(old(View()), throwsAt) && index == throwsAt.value + 1
                  else RaisesAt(old(View()), throwsAt) ==> index <= throwsAt.value
      {
        assert events[..index + 1][..|events[..index + 1]| - 1] == events[..index];
        DeliverIgnoresOffset(old(View()), events[..index], start.nextOffset);
        var event := events[index];
        if event.eventId !in deliveredEventIds {
          deliveredEventIds := deliveredEventIds + {event.eventId};
          received := received + [event];
          raised := throwsAt == Some(index);
        }
        index := index + 1;
      }
      assert index == |events| ==> events[..index] == events;
      polling := false;
    }

    method OnListingFailed(ghost log: seq<Event>)
      modifies this
      ensures View() == SubStep(old(View()), log, PollFailed, filter, pollLimit)
    {
      polling := false;
    }
  }

  // ---- Whole runs ----

  ghost predicate UniqueIds(log: seq<Event>) {
    forall i, j :: 0 <= i < j < |log| ==> log[i].eventId != log[j].eventId
  }

  /** Events are appended once, and emitted only after they have been appended. */
  ghost predicate Published(log: seq<Event>, op: Op) {
    match op
    case Append(e) => forall k :: 0 <= k < |log| ==> log[k].eventId != e.eventId
    case Emit(e) => e in log
    case _ => true
  }

  ghost predicate PublishedRun(log: seq<Event>, ops: seq<Op>)
    decreases |ops|
  {
    ops != [] ==> Published(log, ops[0]) && PublishedRun(LogStep(log, ops[0]), ops[1..])
  }

  function LogAfter(log: seq<Event>, ops: seq<Op>): seq<Event>
    decreases |ops|
  {
    if ops == [] then log else LogAfter(LogStep(log, ops[0]), ops[1..])
  }

  function SubAfter(s: Sub, log: seq<Event>, ops: seq<Op>, f: Filter, limit: nat): Sub
    decreases |ops|
  {
    if ops == [] then s
    else SubAfter(SubStep(s, log, ops[0], f, limit), LogStep(log, ops[0]), ops[1..], f, limit)
  }

  ghost predicate DistinctIds(events: seq<Event>) {
    forall i, j :: 0 <= i < j < |events| ==> events[i].eventId != events[j].eventId
  }

  /** What has been received: matching events of the log, no id twice. */
  ghost predicate Sound(s: Sub, log: seq<Event>, f: Filter) {
    SoundDelivery(s.received, s.delivered, log, f)
  }

  ghost predicate SoundDelivery(received: seq<Event>, delivered: set<string>, log: seq<Event>, f: Filter) {
    && DistinctIds(received)
    && (forall id :: id in delivered <==> exists e :: e in received && e.eventId == id)
    && (forall e :: e in received ==> e in log && Matches(e, f))
  }

  /** Everything matching in `[start, nextOffset)` has been received. */
  ghost predicate Complete(s: Sub, log: seq<Event>, f: Filter, start: nat) {
    && start <= s.nextOffset && (s.nextOffset == start || s.nextOffset <= |Matching(log, f)|)
    && forall k :: start <= k < s.nextOffset && k < |Matching(log, f)| ==> Matching(log, f)[k] in s.received
  }

  /** These events stand together in `m`, from `offset` on. */
  ghost predicate Stretch(events: seq<Event>, m: seq<Event>, offset: nat) {
    events == [] || (offset + |events| <= |m| && events == m[offset..offset + |events|])
  }

  /** The listing on its way back is a stretch of the matches that starts at the offset. */
  ghost predicate ListingFits(s: Sub, log: seq<Event>, f: Filter) {
    s.inFlight.Some? ==> Stretch(s.inFlight.value, Matching(log, f), s.nextOffset)
  }

  ghost predicate Inv(s: Sub, log: seq<Event>, f: Filter, start: nat) {
    UniqueIds(log) && Sound(s, log, f) && Complete(s, log, f, start) && ListingFits(s, log, f)
  }

  lemma {:induction false} MatchingIsInLog(log: seq<Event>, f: Filter)
    ensures forall e :: e in Matching(log, f) <==> e in log && Matches(e, f)
    decreases |log|
  {
    if log != [] {
      MatchingIsInLog(log[..|log| - 1], f);
      assert log == log[..|log| - 1] + [log[|log| - 1]];
    }
  }

  /** The callback has been given these events behind what it had been given, and nothing else. */
  ghost predicate Given(received: seq<Event>, received': seq<Event>, events: seq<Event>) {
    received <= received' && forall e :: e in received' <==> e in received || e in events
  }

  lemma DeliverSound(s: Sub, e: Event, log: seq<Event>, f: Filter)
    requires UniqueIds(log) && Sound(s, log, f) && e in log && Matches(e, f)
    ensures var s' := Deliver(s, e);
      Sound(s', log, f) && Given(s.received, s'.received, [e])
          && s' == s.(received := s'.received, delivered := s'.delivered)
  {
    if e.eventId in s.delivered {
      var d :| d in s.received && d.eventId == e.eventId;
      assert d == e;
    } else {
      var s' := Deliver(s, e);
      forall id | id in s'.delivered ensures exists d :: d in s'.received && d.eventId == id {
        if id == e.eventId {
          assert e in s'.received;
        } else {
          var d :| d in s.received && d.eventId == id;
          assert d in s'.received;
        }
      }
      forall i | 0 <= i < |s.received| ensures s.received[i].eventId != e.eventId {
        assert s.received[i] in s.received;
      }
    }
  }

  lemma {:induction false} DeliverAllSound(s: Sub, events: seq<Event>, log: seq<Event>, f: Filter)
    requires UniqueIds(log) && Sound(s, log, f) && forall e :: e in events ==> e in log && Matches(e, f)
    ensures var s' := DeliverAll(s, events);
      Sound(s', log, f) && Given(s.received, s'.received, events)
          && s' == s.(received := s'.received, delivered := s'.delivered)
    decreases |events|
  {
    if events != [] {
      var front, last := events[..|events| - 1], events[|events| - 1];
      assert events == front + [last];
      DeliverAllSound(s, front, log, f);
      DeliverSound(DeliverAll(s, front), last, log, f);
    }
  }

  /** A listing delivered in full extends what is complete by its length. */
  lemma ListingCompletes(received: seq<Event>, received': seq<Event>, m: seq<Event>, events: seq<Event>, start: nat,
      offset: nat)
    requires Stretch(events, m, offset) && received <= received' && forall e :: e in events ==> e in received'
    requires forall k :: start <= k < offset && k < |m| ==> m[k] in received
    ensures forall k :: start <= k < offset + |events| && k < |m| ==> m[k] in received'
  {
    forall k | start <= k < offset + |events| && k < |m| ensures m[k] in received' {
      if k < offset {
        assert m[k] in received;
      } else {
        assert m[k] == events[k - offset] && events[k - offset] in events;
      }
    }
  }

  lemma {:induction false} ListedEventsMatch(events: seq<Event>, log: seq<Event>, f: Filter, offset: nat)
    requires Stretch(events, Matching(log, f), offset)
    ensures forall e :: e in events ==> e in log && Matches(e, f)
  {
    MatchingIsInLog(log, f);
    forall e | e in events ensures e in log && Matches(e, f) {
      assert e in Matching(log, f);
    }
  }

  lemma PollIsDelivery(s: Sub, log: seq<Event>, f: Filter, limit: nat)
    requires s.inFlight.Some?
    ensures SubStep(s, log, PollDone, f, limit) ==
            DeliverAll(s.(nextOffset := s.nextOffset + |s.inFlight.value|), s.inFlight.value).(inFlight := None)
  {
  }

  lemma PollDelivers(s: Sub, log: seq<Event>, f: Filter, limit: nat)
    requires UniqueIds(log) && Sound(s, log, f) && ListingFits(s, log, f) && s.inFlight.Some?
    ensures var s' := SubStep(s, log, PollDone, f, limit);
      && Sound(s', log, f) && s'.inFlight.None? && s'.nextOffset == s.nextOffset + |s.inFlight.value|
      && Given(s.received, s'.received, s.inFlight.value)
  {
    var events := s.inFlight.value;
    var moved := s.(nextOffset := s.nextOffset + |events|);
    ListedEventsMatch(events, log, f, s.nextOffset);
    DeliverAllSound(moved, events, log, f);
    PollIsDelivery(s, log, f, limit);
  }

  lemma PollKeepsInv(s: Sub, log: seq<Event>, f: Filter, limit: nat, start: nat)
    requires Inv(s, log, f, start) && s.inFlight.Some?
    ensures Inv(SubStep(s, log, PollDone, f, limit), log, f, start)
  {
    PollDelivers(s, log, f, limit);
    ListingCompletes(s.received, SubStep(s, log, PollDone, f, limit).received, Matching(log, f), s.inFlight.value,
        start, s.nextOffset);
  }

  lemma AppendKeepsInv(s: Sub, log: seq<Event>, e: Event, f: Filter, start: nat)
    requires Inv(s, log, f, start) && Published(log, Append(e))
    ensures Inv(s, log + [e], f, start)
  {
    var log' := log + [e];
    assert log'[..|log'| - 1] == log;
    assert Matching(log, f) <= Matching(log', f);
  }

  lemma StepKeepsInv(s: Sub, log: seq<Event>, op: Op, f: Filter, limit: nat, start: nat)
    requires Inv(s, log, f, start) && Published(log, op)
    ensures Inv(SubStep(s, log, op, f, limit), LogStep(log, op), f, start)
  {
    match op {
      case Append(e) =>
        AppendKeepsInv(s, log, e, f, start);
      case Emit(e) =>
        if Matches(e, f) {
          DeliverSound(s, e, log, f);
        }
      case PollDone =>
        if s.inFlight.Some? {
          PollKeepsInv(s, log, f, limit, start);
        }
      case _ =>
    }
  }

  /**
   Delivery over any run of appends, live emits and polls: only matching events arrive, no event arrives twice, and
   everything matching in `[start, nextOffset)` has arrived.
   */
  lemma {:induction false} RunKeepsInv(s: Sub, log: seq<Event>, ops: seq<Op>, f: Filter, limit: nat, start: nat)
    requires Inv(s, log, f, start) && PublishedRun(log, ops)
    ensures Inv(SubAfter(s, log, ops, f, limit), LogAfter(log, ops), f, start)
    decreases |ops|
  {
    if ops != [] {
      StepKeepsInv(s, log, ops[0], f, limit, start);
      RunKeepsInv(SubStep(s, log, ops[0], f, limit), LogStep(log, ops[0]), ops[1..], f, limit, start);
    }
  }

  lemma DeliveredExactlyOnce(log: seq<Event>, ops: seq<Op>, f: Filter, limit: nat, start: nat)
    requires UniqueIds(log) && PublishedRun(log, ops)
    ensures var s, all := SubAfter(Subscribed(start), log, ops, f, limit), LogAfter(log, ops);
      && (forall e :: e in s.received ==> e in all && Matches(e, f) && multiset(s.received)[e] == 1)
      && DistinctIds(s.received)
      && forall k :: start <= k < s.nextOffset && k < |Matching(all, f)| ==> Matching(all, f)[k] in s.received
  {
    RunKeepsInv(Subscribed(start), log, ops, f, limit, start);
    var s := SubAfter(Subscribed(start), log, ops, f, limit);
    forall e | e in s.received ensures multiset(s.received)[e] == 1 {
      OccursOnce(s.received, e);
    }
  }

  lemma {:induction false} OccursOnce(events: seq<Event>, e: Event)
    requires DistinctIds(events)
    ensures multiset(events)[e] == if e in events then 1 else 0
    decreases |events|
  {
    if events != [] {
      var front, last := events[..|events| - 1], events[|events| - 1];
      assert events == front + [last];
      OccursOnce(front, e);
    }
  }

  /** How many polls of a run came back with a listing. */
  function PollsCompleted(s: Sub, log: seq<Event>, ops: seq<Op>, f: Filter, limit: nat): nat
    decreases |ops|
  {
    if ops == [] then 0
    else (if ops[0].PollDone? && s.inFlight.Some? then 1 else 0)
         + PollsCompleted(SubStep(s, log, ops[0], f, limit), LogStep(log, ops[0]), ops[1..], f, limit)
  }

  function Min(a: int, b: int): int {
    if a < b then a else b
  }

  /** While the log stands still, the listing on its way back is the one the store would give now. */
  ghost predicate ListingCurrent(s: Sub, log: seq<Event>, f: Filter, limit: nat) {
    s.inFlight.Some? ==> s.inFlight.value == ListEvents(log, f, s.nextOffset, limit)
  }

  lemma {:induction false} DeliverAllKeepsOffset(s: Sub, events: seq<Event>)
    ensures DeliverAll(s, events).nextOffset == s.nextOffset
    decreases |events|
  {
    if events != [] {
      DeliverAllKeepsOffset(s, events[..|events| - 1]);
    }
  }

  /**
   With the log standing still, only a poll that comes back moves the offset, by `limit` up to the number of matches.
   */
  lemma OffsetStep(s: Sub, log: seq<Event>, op: Op, f: Filter, limit: nat)
    requires !op.Append? && ListingCurrent(s, log, f, limit) && s.nextOffset <= |Matching(log, f)|
    ensures var s' := SubStep(s, log, op, f, limit);
      && ListingCurrent(s', log, f, limit)
      && s'.nextOffset == if op.PollDone? && s.inFlight.Some? then Min(|Matching(log, f)|, s.nextOffset + limit)
           else s.nextOffset
  {
    if op.PollDone? && s.inFlight.Some? {
      DeliverAllKeepsOffset(s.(nextOffset := s.nextOffset + |s.inFlight.value|), s.inFlight.value);
    }
  }

  lemma OneMorePoll(n: int, offset: nat, rest: nat, limit: nat)
    requires offset <= n
    ensures Min(n, Min(n, offset + limit) + rest * limit) == Min(n, offset + (1 + rest) * limit)
  {
    assert (1 + rest) * limit == limit + rest * limit;
    assert rest * limit >= 0;
  }

  /** So after a run the offset has moved by `limit` for each poll that came back, up to the number of matches. */
  lemma {:induction false} OffsetAfterPolls(s: Sub, log: seq<Event>, ops: seq<Op>, f: Filter, limit: nat)
    requires (forall op :: op in ops ==> !op.Append?) && ListingCurrent(s, log, f, limit)
    requires s.nextOffset <= |Matching(log, f)|
    ensures LogAfter(log, ops) == log
    ensures SubAfter(s, log, ops, f, limit).nextOffset ==
            Min(|Matching(log, f)|, s.nextOffset + PollsCompleted(s, log, ops, f, limit) * limit)
    decreases |ops|
  {
    if ops != [] {
      assert ops[0] in ops;
      OffsetStep(s, log, ops[0], f, limit);
      var next := SubStep(s, log, ops[0], f, limit);
      OffsetAfterPolls(next, log, ops[1..], f, limit);
      OneMorePoll(|Matching(log, f)|, s.nextOffset, PollsCompleted(next, log, ops[1..], f, limit), limit);
    }
  }

  /** The polls that came back, but for one if a listing was on its way at the start. */
  function PollsCounted(s: Sub, log: seq<Event>, ops: seq<Op>, f: Filter, limit: nat): int {
    PollsCompleted(s, log, ops, f, limit) - if s.inFlight.Some? then 1 else 0
  }

  lemma StaleListingStep(s: Sub, log: seq<Event>, op: Op, f: Filter, limit: nat)
    requires s.inFlight.Some? && ListingFits(s, log, f) && s.nextOffset <= |Matching(log, f)|
    ensures var s' := SubStep(s, log, op, f, limit);
      && s.nextOffset <= s'.nextOffset <= |Matching(log, f)|
      && (s'.inFlight.None? <==> op.PollDone? || op.PollFailed?)
      && (s'.inFlight.Some? ==> s'.inFlight == s.inFlight && s'.nextOffset == s.nextOffset)
  {
    if op.PollDone? {
      DeliverAllKeepsOffset(s.(nextOffset := s.nextOffset + |s.inFlight.value|), s.inFlight.value);
    }
  }

  lemma FewerPolls(polls: nat, limit: nat)
    ensures (polls - 1) * limit <= polls * limit
  {
  }

  /**
   From any state: a listing that was on its way when the log came to rest may be shorter than one made now, or fail, so
   its poll is not counted.
   */
  lemma {:induction false} OffsetAfterStaleListing(s: Sub, log: seq<Event>, ops: seq<Op>, f: Filter, limit: nat)
    requires (forall op :: op in ops ==> !op.Append?) && ListingFits(s, log, f) && s.nextOffset <= |Matching(log, f)|
    ensures LogAfter(log, ops) == log
    ensures SubAfter(s, log, ops, f, limit).nextOffset >=
            Min(|Matching(log, f)|, s.nextOffset + PollsCounted(s, log, ops, f, limit) * limit)
    decreases |ops|
  {
    if s.inFlight.None? {
      OffsetAfterPolls(s, log, ops, f, limit);
    } else if ops != [] {
      assert ops[0] in ops;
      var next := SubStep(s, log, ops[0], f, limit);
      StaleListingStep(s, log, ops[0], f, limit);
      var polls := PollsCompleted(next, log, ops[1..], f, limit);
      if next.inFlight.None? {
        OffsetAfterPolls(next, log, ops[1..], f, limit);
        FewerPolls(polls, limit);
      } else {
        OffsetAfterStaleListing(next, log, ops[1..], f, limit);
      }
    }
  }

  /**
   Once the log stands still with `n` matches, `ceil((n - nextOffset) / limit)` polls that come back deliver all of
   them, whatever is emitted or fails in between; one more if a listing was on its way by then.
   */
  lemma PollsDeliverEverything(s: Sub, log: seq<Event>, ops: seq<Op>, f: Filter, limit: nat, start: nat)
    requires Inv(s, log, f, start) && PublishedRun(log, ops) && forall op :: op in ops ==> !op.Append?
    requires PollsCounted(s, log, ops, f, limit) * limit >= |Matching(log, f)| - s.nextOffset
    ensures forall k :: start <= k < |Matching(log, f)| ==>
      Matching(log, f)[k] in SubAfter(s, log, ops, f, limit).received
  {
    if start < |Matching(log, f)| {
      OffsetAfterStaleListing(s, log, ops, f, limit);
      RunKeepsInv(s, log, ops, f, limit, start);
    }
  }

  /** Live emits overtake polls: the order of the log is not kept, even for one subscriber. */
  lemma OrderIsNotKept(f: Filter, a: Event, b: Event)
    requires Matches(a, f) && Matches(b, f) && a.eventId != b.eventId
    ensures var log := [a, b];
      var ops := [Emit(b), Tick, PollDone];
      PublishedRun(log, ops) && SubAfter(Subscribed(0), log, ops, f, 2).received == [b, a]
  {
    var log, ops := [a, b], [Emit(b), Tick, PollDone];
    var s1 := Sub([b], {b.eventId}, 0, None);
    assert log[..1] == [a] && [a][..0] == [];
    assert Matching([a], f) == [a] && Matching(log, f) == [a, b];
    assert ListEvents(log, f, 0, 2) == [a, b];
    var s2 := s1.(inFlight := Some([a, b]));
    assert DeliverAll(s1.(nextOffset := 2, inFlight := Some([a, b])), [a]).received == [b, a];
    assert ops[1..] == [Tick, PollDone] && ops[1..][1..] == [PollDone] && ops[1..][1..][1..] == [];
    assert SubStep(s1, log, Tick, f, 2) == s2;
    assert SubStep(s2, log, PollDone, f, 2).received == [b, a];
    assert SubAfter(s2, log, [PollDone], f, 2).received == [b, a];
    assert SubAfter(s1, log, ops[1..], f, 2).received == [b, a];
    assert SubStep(Subscribed(0), log, Emit(b), f, 2) == s1;
    assert PublishedRun(log, [PollDone]) && PublishedRun(log, ops[1..]);
  }
}
