/** When a subscription's callback is given events in the order of the log, and when it never again can be. */
module EventOrder {
  import opened Wrappers
  import opened EventDelivery

  predicate Earlier(log: seq<Event>, a: Event, b: Event) {
    exists i, j :: 0 <= i < j < |log| && log[i] == a && log[j] == b
  }

  ghost predicate InLogOrder(events: seq<Event>, log: seq<Event>) {
    forall i, j :: 0 <= i < j < |events| ==> Earlier(log, events[i], events[j])
  }

  ghost predicate AllEarlier(log: seq<Event>, events: seq<Event>, e: Event) {
    forall r :: r in events ==> Earlier(log, r, e)
  }

  lemma EarlierTotal(log: seq<Event>, a: Event, b: Event)
    requires UniqueIds(log) && a in log && b in log && a != b
    ensures Earlier(log, a, b) <==> !Earlier(log, b, a)
  {
    var i :| 0 <= i < |log| && log[i] == a;
    var j :| 0 <= j < |log| && log[j] == b;
    assert if i < j then Earlier(log, a, b) else Earlier(log, b, a);
  }

  lemma EarlierStays(log: seq<Event>, last: Event, a: Event, b: Event)
    requires UniqueIds(log + [last]) && a in log && b in log
    ensures Earlier(log + [last], a, b) <==> Earlier(log, a, b)
  {
    var log' := log + [last];
    if Earlier(log, a, b) {
      var i, j :| 0 <= i < j < |log| && log[i] == a && log[j] == b;
      assert log'[i] == a && log'[j] == b;
    }
    if Earlier(log', a, b) {
      var i, j :| 0 <= i < j < |log'| && log'[i] == a && log'[j] == b;
      var k :| 0 <= k < |log| && log[k] == b;
      assert log'[k].eventId == log'[j].eventId;
      assert log[i] == a && log[j] == b;
    }
  }

  lemma OrderStays(log: seq<Event>, last: Event, events: seq<Event>)
    requires UniqueIds(log + [last]) && forall e :: e in events ==> e in log
    ensures InLogOrder(events, log + [last]) <==> InLogOrder(events, log)
  {
    forall i, j | 0 <= i < j < |events|
      ensures Earlier(log + [last], events[i], events[j]) <==> Earlier(log, events[i], events[j])
    {
      assert events[i] in log && events[j] in log;
      EarlierStays(log, last, events[i], events[j]);
    }
  }

  /** The matches stand in the order of the log. */
  lemma {:induction false} MatchingInOrder(log: seq<Event>, f: Filter, i: nat, j: nat)
    requires i < j < |Matching(log, f)|
    ensures Earlier(log, Matching(log, f)[i], Matching(log, f)[j])
    decreases |log|
  {
    var front, last := log[..|log| - 1], log[|log| - 1];
    assert log == front + [last];
    if j < |Matching(front, f)| {
      MatchingInOrder(front, f, i, j);
      var k, l :| 0 <= k < l < |front| && front[k] == Matching(front, f)[i] && front[l] == Matching(front, f)[j];
      assert log[k] == Matching(log, f)[i] && log[l] == Matching(log, f)[j];
    } else {
      MatchingIsInLog(front, f);
      assert Matching(front, f)[i] in front;
      var k :| 0 <= k < |front| && front[k] == Matching(front, f)[i];
      assert log[k] == Matching(log, f)[i] && log[|log| - 1] == Matching(log, f)[j];
    }
  }

  lemma OneMoreInOrder(events: seq<Event>, e: Event, log: seq<Event>)
    ensures InLogOrder(events + [e], log) <==> InLogOrder(events, log) && AllEarlier(log, events, e)
  {
    var events' := events + [e];
    if InLogOrder(events', log) {
      forall i, j | 0 <= i < j < |events| ensures Earlier(log, events[i], events[j]) {
        assert events'[i] == events[i] && events'[j] == events[j];
      }
      forall r | r in events ensures Earlier(log, r, e) {
        var i :| 0 <= i < |events| && events[i] == r;
        assert events'[i] == r && events'[|events|] == e;
      }
    }
    if InLogOrder(events, log) && AllEarlier(log, events, e) {
      forall i, j | 0 <= i < j < |events'| ensures Earlier(log, events'[i], events'[j]) {
        if j == |events| {
          assert events[i] in events;
        }
      }
    }
  }

  /** A received event lies in the log beyond an event of the listing that has not been received. */
  ghost predicate Beyond(log: seq<Event>, received: seq<Event>, listing: seq<Event>) {
    exists e, r :: e in listing && e !in received && r in received && Earlier(log, e, r)
  }

  lemma SoundById(s: Sub, log: seq<Event>, f: Filter, e: Event)
    requires UniqueIds(log) && Sound(s, log, f) && e in log
    ensures e.eventId in s.delivered <==> e in s.received
  {
    if e.eventId in s.delivered {
      var d :| d in s.received && d.eventId == e.eventId;
      assert d == e;
    }
  }

  /** Delivering one event keeps the order exactly if everything received so far lies before it. */
  lemma DeliverKeepsOrderIff(s: Sub, e: Event, log: seq<Event>, f: Filter)
    requires UniqueIds(log) && Sound(s, log, f) && e in log
    ensures InLogOrder(Deliver(s, e).received, log) <==>
            InLogOrder(s.received, log) && (e in s.received || AllEarlier(log, s.received, e))
  {
    SoundById(s, log, f, e);
    OneMoreInOrder(s.received, e, log);
  }

  /** Delivering events that are in the order of the log. */
  lemma {:induction false} DeliverAllKeepsOrderIff(s: Sub, events: seq<Event>, log: seq<Event>, f: Filter)
    requires UniqueIds(log) && Sound(s, log, f) && InLogOrder(events, log)
    requires forall e :: e in events ==> e in log && Matches(e, f)
    ensures InLogOrder(DeliverAll(s, events).received, log) <==>
            InLogOrder(s.received, log) && !Beyond(log, s.received, events)
    decreases |events|
  {
    if events != [] {
      var front, last := events[..|events| - 1], events[|events| - 1];
      assert events == front + [last];
      OneMoreInOrder(front, last, log);
      DeliverAllKeepsOrderIff(s, front, log, f);
      DeliverAllSound(s, front, log, f);
      var s' := DeliverAll(s, front);
      DeliverKeepsOrderIff(s', last, log, f);
      OneMoreBeyond(log, s.received, front, last);
    }
  }

  /** The last event of a listing in order. */
  lemma OneMoreBeyond(log: seq<Event>, received: seq<Event>, front: seq<Event>, last: Event)
    requires UniqueIds(log) && last in log && AllEarlier(log, front, last) && forall r :: r in received ==> r in log
    ensures Beyond(log, received, front + [last]) <==>
            Beyond(log, received, front) || !(last in received + front || AllEarlier(log, received, last))
  {
    if Beyond(log, received, front) {
      var e, r :| e in front && e !in received && r in received && Earlier(log, e, r);
      assert e in front + [last];
    }
    if last !in received {
      if last in front {
        EarlierIsStrict(log, last);
      }
      forall r | r in received ensures Earlier(log, last, r) <==> !Earlier(log, r, last) {
        EarlierTotal(log, last, r);
      }
      assert last in front + [last];
    }
  }

  lemma EarlierIsStrict(log: seq<Event>, e: Event)
    requires UniqueIds(log)
    ensures !Earlier(log, e, e)
  {
  }

  lemma StretchInOrder(events: seq<Event>, log: seq<Event>, f: Filter, offset: nat)
    requires Stretch(events, Matching(log, f), offset)
    ensures InLogOrder(events, log)
  {
    forall i, j | 0 <= i < j < |events| ensures Earlier(log, events[i], events[j]) {
      MatchingInOrder(log, f, offset + i, offset + j);
    }
  }

  /**
   A poll that comes back keeps what has been received in the order of the log exactly if no event received already lies
   beyond an event of the listing that has not been received.
   */
  lemma PollKeepsOrderIff(s: Sub, log: seq<Event>, f: Filter, limit: nat, start: nat)
    requires Inv(s, log, f, start) && s.inFlight.Some?
    ensures InLogOrder(SubStep(s, log, PollDone, f, limit).received, log) <==>
            InLogOrder(s.received, log) && !Beyond(log, s.received, s.inFlight.value)
  {
    var events := s.inFlight.value;
    ListedEventsMatch(events, log, f, s.nextOffset);
    StretchInOrder(events, log, f, s.nextOffset);
    DeliverAllKeepsOrderIff(s.(nextOffset := s.nextOffset + |events|), events, log, f);
  }

  // ---- Whole runs ----

  /** A match that polls have still to bring, and that lies in the log before this event. */
  ghost predicate Waits(s: Sub, log: seq<Event>, f: Filter, k: int, e: Event) {
    && s.nextOffset <= k < |Matching(log, f)| && Matching(log, f)[k] !in s.received
    && Earlier(log, Matching(log, f)[k], e)
  }

  /** Delivering this event live puts it ahead of one still to come, or behind one that should have come later. */
  ghost predicate Overtakes(s: Sub, log: seq<Event>, f: Filter, e: Event) {
    && Matches(e, f) && e !in s.received
    && ((exists k :: Waits(s, log, f, k, e)) || exists r :: r in s.received && Earlier(log, e, r))
  }

  ghost predicate NothingOvertakes(s: Sub, log: seq<Event>, ops: seq<Op>, f: Filter, limit: nat)
    decreases |ops|
  {
    ops != [] ==>
      && (ops[0].Emit? ==> !Overtakes(s, log, f, ops[0].event))
      && NothingOvertakes(SubStep(s, log, ops[0], f, limit), LogStep(log, ops[0]), ops[1..], f, limit)
  }

  /** Received in order, and nothing that polls have still to bring lies before something received. */
  ghost predicate InOrderSoFar(s: Sub, log: seq<Event>, f: Filter) {
    InLogOrder(s.received, log) && forall k, r :: r in s.received ==> !Waits(s, log, f, k, r)
  }

  lemma EmitInOrder(s: Sub, log: seq<Event>, f: Filter, e: Event, limit: nat, start: nat)
    requires Inv(s, log, f, start) && InOrderSoFar(s, log, f) && e in log && !Overtakes(s, log, f, e)
    ensures InOrderSoFar(SubStep(s, log, Emit(e), f, limit), log, f)
  {
    if Matches(e, f) {
      SoundById(s, log, f, e);
      DeliverKeepsOrderIff(s, e, log, f);
      if e !in s.received {
        forall r | r in s.received ensures Earlier(log, r, e) {
          EarlierTotal(log, r, e);
        }
        var s' := SubStep(s, log, Emit(e), f, limit);
        forall k, r | r in s'.received ensures !Waits(s', log, f, k, r) {
          assert !Waits(s, log, f, k, r);
        }
      }
    }
  }

  /** What polls have still to bring does not lie before what they bring now. */
  lemma NothingListedWaits(s: Sub, log: seq<Event>, f: Filter, r: Event)
    requires UniqueIds(log) && s.inFlight.Some? && Stretch(s.inFlight.value, Matching(log, f), s.nextOffset)
    requires r in s.inFlight.value
    ensures forall k :: s.nextOffset + |s.inFlight.value| <= k < |Matching(log, f)| ==>
              !Earlier(log, Matching(log, f)[k], r)
  {
    var events, m := s.inFlight.value, Matching(log, f);
    var i :| 0 <= i < |events| && events[i] == r;
    assert m[s.nextOffset + i] == r;
    forall k | s.nextOffset + |events| <= k < |m| ensures !Earlier(log, m[k], r) {
      MatchingInOrder(log, f, s.nextOffset + i, k);
      MatchingIsInLog(log, f);
      assert m[k] in m && r in m;
      EarlierIsStrict(log, r);
      EarlierTotal(log, r, m[k]);
    }
  }

  lemma NothingBeyond(s: Sub, log: seq<Event>, f: Filter)
    requires s.inFlight.Some? && Stretch(s.inFlight.value, Matching(log, f), s.nextOffset)
    requires forall k, r :: r in s.received ==> !Waits(s, log, f, k, r)
    ensures !Beyond(log, s.received, s.inFlight.value)
  {
    var events, m := s.inFlight.value, Matching(log, f);
    forall e, r | e in events && e !in s.received && r in s.received ensures !Earlier(log, e, r) {
      var i :| 0 <= i < |events| && events[i] == e;
      assert m[s.nextOffset..s.nextOffset + |events|][i] == m[s.nextOffset + i];
      assert !Waits(s, log, f, s.nextOffset + i, r);
    }
  }

  lemma NothingWaitsAfterPoll(s: Sub, s': Sub, log: seq<Event>, f: Filter)
    requires UniqueIds(log) && s.inFlight.Some? && Stretch(s.inFlight.value, Matching(log, f), s.nextOffset)
    requires forall k, r :: r in s.received ==> !Waits(s, log, f, k, r)
    requires s'.nextOffset == s.nextOffset + |s.inFlight.value|
    requires forall e :: e in s'.received <==> e in s.received || e in s.inFlight.value
    ensures forall k, r :: r in s'.received ==> !Waits(s', log, f, k, r)
  {
    forall k, r | r in s'.received ensures !Waits(s', log, f, k, r) {
      if r in s.received {
        assert !Waits(s, log, f, k, r);
      } else {
        NothingListedWaits(s, log, f, r);
      }
    }
  }

  lemma PollInOrder(s: Sub, log: seq<Event>, f: Filter, limit: nat, start: nat)
    requires Inv(s, log, f, start) && InOrderSoFar(s, log, f) && s.inFlight.Some?
    ensures InOrderSoFar(SubStep(s, log, PollDone, f, limit), log, f)
  {
    PollKeepsOrderIff(s, log, f, limit, start);
    NothingBeyond(s, log, f);
    PollDelivers(s, log, f, limit);
    NothingWaitsAfterPoll(s, SubStep(s, log, PollDone, f, limit), log, f);
  }

  lemma AppendInOrder(s: Sub, log: seq<Event>, f: Filter, e: Event, start: nat)
    requires Inv(s, log, f, start) && InOrderSoFar(s, log, f) && Published(log, Append(e))
    ensures InOrderSoFar(s, log + [e], f)
  {
    var log' := log + [e];
    AppendKeepsInv(s, log, e, f, start);
    OrderStays(log, e, s.received);
    assert log'[..|log'| - 1] == log;
    forall k, r | r in s.received ensures !Waits(s, log', f, k, r) {
      if Waits(s, log', f, k, r) {
        MatchingIsInLog(log, f);
        if k < |Matching(log, f)| {
          assert Matching(log, f)[k] in Matching(log, f);
          EarlierStays(log, e, Matching(log, f)[k], r);
          assert Waits(s, log, f, k, r);
        } else {
          LastIsLatest(log, e, r);
        }
      }
    }
  }

  lemma LastIsLatest(log: seq<Event>, last: Event, r: Event)
    requires UniqueIds(log + [last]) && r in log
    ensures !Earlier(log + [last], last, r)
  {
    var log' := log + [last];
    var j :| 0 <= j < |log| && log[j] == r;
    assert log'[j] == r && log'[|log|] == last;
    EarlierTotal(log', r, last);
  }

  lemma StepInOrder(s: Sub, log: seq<Event>, op: Op, f: Filter, limit: nat, start: nat)
    requires Inv(s, log, f, start) && InOrderSoFar(s, log, f) && Published(log, op)
    requires op.Emit? ==> !Overtakes(s, log, f, op.event)
    ensures InOrderSoFar(SubStep(s, log, op, f, limit), LogStep(log, op), f)
  {
    match op {
      case Append(e) =>
        AppendInOrder(s, log, f, e, start);
      case Emit(e) =>
        EmitInOrder(s, log, f, e, limit, start);
      case PollDone =>
        if s.inFlight.Some? {
          PollInOrder(s, log, f, limit, start);
        }
      case _ =>
        var s' := SubStep(s, log, op, f, limit);
        assert forall k, r :: Waits(s', log, f, k, r) ==> Waits(s, log, f, k, r);
    }
  }

  /** Once an event has been received ahead of a match, receiving the match later is out of order, whatever follows. */
  lemma OvertakenNeverRecovers(s: Sub, log: seq<Event>, ops: seq<Op>, f: Filter, limit: nat, start: nat, m: Event,
      r: Event)
    requires Inv(s, log, f, start) && PublishedRun(log, ops)
    requires m in log && m !in s.received && r in s.received && Earlier(log, m, r)
    requires m in SubAfter(s, log, ops, f, limit).received
    ensures !InLogOrder(SubAfter(s, log, ops, f, limit).received, LogAfter(log, ops))
  {
    RunKeepsInv(s, log, ops, f, limit, start);
    RunGrows(s, log, ops, f, limit, start);
    var received, all := SubAfter(s, log, ops, f, limit).received, LogAfter(log, ops);
    var i :| 0 <= i < |s.received| && s.received[i] == r;
    assert m !in received[..|s.received|];
    var j :| 0 <= j < |received| && received[j] == m;
    assert received[i] == r && i < j;
    EarlierInPrefix(log, all, m, r);
    EarlierIsStrict(all, r);
    EarlierTotal(all, m, r);
    assert !Earlier(all, received[i], received[j]);
  }

  lemma EarlierInPrefix(log: seq<Event>, all: seq<Event>, a: Event, b: Event)
    requires log <= all && Earlier(log, a, b)
    ensures Earlier(all, a, b) && a in all && b in all
  {
    var i, j :| 0 <= i < j < |log| && log[i] == a && log[j] == b;
    assert all[i] == a && all[j] == b;
  }

  lemma StepGrows(s: Sub, log: seq<Event>, op: Op, f: Filter, limit: nat, start: nat)
    requires Inv(s, log, f, start) && Published(log, op)
    ensures s.received <= SubStep(s, log, op, f, limit).received && log <= LogStep(log, op)
  {
    if op.PollDone? && s.inFlight.Some? {
      PollDelivers(s, log, f, limit);
    }
  }

  lemma {:induction false} RunGrows(s: Sub, log: seq<Event>, ops: seq<Op>, f: Filter, limit: nat, start: nat)
    requires Inv(s, log, f, start) && PublishedRun(log, ops)
    ensures s.received <= SubAfter(s, log, ops, f, limit).received && log <= LogAfter(log, ops)
    decreases |ops|
  {
    if ops != [] {
      StepKeepsInv(s, log, ops[0], f, limit, start);
      StepGrows(s, log, ops[0], f, limit, start);
      RunGrows(SubStep(s, log, ops[0], f, limit), LogStep(log, ops[0]), ops[1..], f, limit, start);
    }
  }

  /** What has been received out of order stays so. */
  lemma DisorderStays(s: Sub, log: seq<Event>, ops: seq<Op>, f: Filter, limit: nat, start: nat)
    requires Inv(s, log, f, start) && PublishedRun(log, ops) && !InLogOrder(s.received, log)
    ensures !InLogOrder(SubAfter(s, log, ops, f, limit).received, LogAfter(log, ops))
  {
    RunGrows(s, log, ops, f, limit, start);
    RunKeepsInv(s, log, ops, f, limit, start);
    var received, all := SubAfter(s, log, ops, f, limit).received, LogAfter(log, ops);
    var i, j :| 0 <= i < j < |s.received| && !Earlier(log, s.received[i], s.received[j]);
    var a, b := s.received[i], s.received[j];
    assert received[i] == a && received[j] == b && a in s.received && b in s.received;
    EarlierTotal(log, a, b);
    EarlierInPrefix(log, all, b, a);
    EarlierTotal(all, a, b);
    assert !Earlier(all, received[i], received[j]);
  }

  /** Every match from `start` on has been received. */
  ghost predicate DeliveredFrom(s: Sub, log: seq<Event>, f: Filter, start: nat) {
    forall k :: start <= k < |Matching(log, f)| ==> Matching(log, f)[k] in s.received
  }

  lemma {:induction false} StaysAMatch(log: seq<Event>, ops: seq<Op>, f: Filter, k: nat)
    requires k < |Matching(log, f)|
    ensures var all := Matching(LogAfter(log, ops), f); k < |all| && all[k] == Matching(log, f)[k]
    decreases |ops|
  {
    if ops != [] {
      var log' := LogStep(log, ops[0]);
      if ops[0].Append? {
        assert log'[..|log'| - 1] == log;
      }
      StaysAMatch(log', ops[1..], f, k);
    }
  }

  /** An emit that overtakes spoils the order of every run that goes on to deliver all matches from `start` on. */
  lemma OvertakingSpoils(s: Sub, log: seq<Event>, e: Event, rest: seq<Op>, f: Filter, limit: nat, start: nat)
    requires Inv(s, log, f, start) && e in log && Overtakes(s, log, f, e) && PublishedRun(log, rest)
    requires DeliveredFrom(SubAfter(SubStep(s, log, Emit(e), f, limit), log, rest, f, limit), LogAfter(log, rest), f,
        start)
    ensures !InLogOrder(SubAfter(SubStep(s, log, Emit(e), f, limit), log, rest, f, limit).received,
        LogAfter(log, rest))
  {
    var next := SubStep(s, log, Emit(e), f, limit);
    StepKeepsInv(s, log, Emit(e), f, limit, start);
    SoundById(s, log, f, e);
    assert next.received == s.received + [e];
    if k :| Waits(s, log, f, k, e) {
      OvertakenArrives(s, next, log, e, rest, f, limit, start, k);
    } else {
      var r :| r in s.received && Earlier(log, e, r);
      EarlierIsStrict(log, e);
      EarlierTotal(log, e, r);
      OneMoreInOrder(s.received, e, log);
      DisorderStays(next, log, rest, f, limit, start);
    }
  }

  lemma OvertakenArrives(s: Sub, next: Sub, log: seq<Event>, e: Event, rest: seq<Op>, f: Filter, limit: nat,
      start: nat, k: int)
    requires Inv(next, log, f, start) && PublishedRun(log, rest) && start <= s.nextOffset
    requires Waits(s, log, f, k, e) && next.received == s.received + [e]
    requires DeliveredFrom(SubAfter(next, log, rest, f, limit), LogAfter(log, rest), f, start)
    ensures !InLogOrder(SubAfter(next, log, rest, f, limit).received, LogAfter(log, rest))
  {
    var m := Matching(log, f)[k];
    MatchingIsInLog(log, f);
    assert m in Matching(log, f) && e in next.received;
    EarlierIsStrict(log, e);
    StaysAMatch(log, rest, f, k);
    OvertakenNeverRecovers(next, log, rest, f, limit, start, m, e);
  }

  /**
   Delivery in the order of the log, over runs in which every match from `start` on arrives: exactly those in which no
   live event overtakes. That no live event overtakes is enough in any run.
   */
  lemma {:induction false} OrderIsKeptIff(s: Sub, log: seq<Event>, ops: seq<Op>, f: Filter, limit: nat, start: nat)
    requires Inv(s, log, f, start) && PublishedRun(log, ops) && InOrderSoFar(s, log, f)
    ensures NothingOvertakes(s, log, ops, f, limit) ==>
        InLogOrder(SubAfter(s, log, ops, f, limit).received, LogAfter(log, ops))
    ensures DeliveredFrom(SubAfter(s, log, ops, f, limit), LogAfter(log, ops), f, start) ==>
        (InLogOrder(SubAfter(s, log, ops, f, limit).received, LogAfter(log, ops)) <==>
         NothingOvertakes(s, log, ops, f, limit))
    decreases |ops|
  {
    if ops != [] {
      StepKeepsInv(s, log, ops[0], f, limit, start);
      var s', log' := SubStep(s, log, ops[0], f, limit), LogStep(log, ops[0]);
      if ops[0].Emit? && Overtakes(s, log, f, ops[0].event) {
        if DeliveredFrom(SubAfter(s', log', ops[1..], f, limit), LogAfter(log', ops[1..]), f, start) {
          OvertakingSpoils(s, log, ops[0].event, ops[1..], f, limit, start);
        }
      } else {
        StepInOrder(s, log, ops[0], f, limit, start);
        OrderIsKeptIff(s', log', ops[1..], f, limit, start);
      }
    }
  }

  /** In particular for a subscription from its beginning. */
  lemma SubscriptionKeepsOrderIff(log: seq<Event>, ops: seq<Op>, f: Filter, limit: nat, start: nat)
    requires UniqueIds(log) && PublishedRun(log, ops)
    ensures var s, all := SubAfter(Subscribed(start), log, ops, f, limit), LogAfter(log, ops);
      && (NothingOvertakes(Subscribed(start), log, ops, f, limit) ==> InLogOrder(s.received, all))
      && (DeliveredFrom(s, all, f, start) ==>
            (InLogOrder(s.received, all) <==> NothingOvertakes(Subscribed(start), log, ops, f, limit)))
  {
    OrderIsKeptIff(Subscribed(start), log, ops, f, limit, start);
  }
}
