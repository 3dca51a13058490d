/** What a callback that raises in the middle of a listing costs its subscription. */
module EventLoss {
  import opened Wrappers
  import opened EventDelivery
  import opened EventOrder

  /** A match that polls have gone past without its being received. */
  ghost predicate PassedOver(s: Sub, log: seq<Event>, f: Filter, k: nat) {
    k < s.nextOffset && k < |Matching(log, f)| && Matching(log, f)[k] !in s.received
  }

  lemma MatchesDiffer(log: seq<Event>, f: Filter, i: nat, j: nat)
    requires UniqueIds(log) && i < j < |Matching(log, f)|
    ensures Matching(log, f)[i] != Matching(log, f)[j]
  {
    MatchingInOrder(log, f, i, j);
    EarlierIsStrict(log, Matching(log, f)[i]);
  }

  lemma NotInStretch(log: seq<Event>, f: Filter, events: seq<Event>, offset: nat, k: nat)
    requires UniqueIds(log) && Stretch(events, Matching(log, f), offset) && k < offset && k < |Matching(log, f)|
    ensures Matching(log, f)[k] !in events
  {
    forall i | 0 <= i < |events| ensures events[i] != Matching(log, f)[k] {
      MatchesDiffer(log, f, k, offset + i);
    }
  }

  /** Only being emitted brings back a match that polls have gone past. */
  lemma PassedOverStep(s: Sub, log: seq<Event>, op: Op, f: Filter, limit: nat, start: nat, k: nat)
    requires Inv(s, log, f, start) && Published(log, op) && PassedOver(s, log, f, k)
    ensures var s', log', m := SubStep(s, log, op, f, limit), LogStep(log, op), Matching(log, f)[k];
      && k < |Matching(log', f)| && Matching(log', f)[k] == m
      && if op == Emit(m) then m in s'.received else PassedOver(s', log', f, k)
  {
    var m := Matching(log, f)[k];
    match op {
      case Append(e) =>
        assert (log + [e])[..|log + [e]| - 1] == log;
      case Emit(e) =>
        if e == m {
          MatchingIsInLog(log, f);
          assert m in Matching(log, f);
          SoundById(s, log, f, m);
        }
      case PollDone =>
        if s.inFlight.Some? {
          PollDelivers(s, log, f, limit);
          NotInStretch(log, f, s.inFlight.value, s.nextOffset, k);
        }
      case _ =>
    }
  }

  /** So it is received in a run if and only if it is emitted in it. */
  lemma {:induction false} PassedOverIsLostIff(s: Sub, log: seq<Event>, ops: seq<Op>, f: Filter, limit: nat, start: nat,
      k: nat)
    requires Inv(s, log, f, start) && PublishedRun(log, ops) && PassedOver(s, log, f, k)
    ensures Matching(log, f)[k] in SubAfter(s, log, ops, f, limit).received <==> Emit(Matching(log, f)[k]) in ops
    decreases |ops|
  {
    if ops != [] {
      var m, s', log' := Matching(log, f)[k], SubStep(s, log, ops[0], f, limit), LogStep(log, ops[0]);
      PassedOverStep(s, log, ops[0], f, limit, start, k);
      StepKeepsInv(s, log, ops[0], f, limit, start);
      if ops[0] == Emit(m) {
        RunGrows(s', log', ops[1..], f, limit, start);
        assert forall e :: e in s'.received ==> e in SubAfter(s', log', ops[1..], f, limit).received;
      } else {
        PassedOverIsLostIff(s', log', ops[1..], f, limit, start, k);
        assert Emit(m) in ops <==> Emit(m) in ops[1..];
      }
    }
  }

  lemma RaisedIsDelivery(s: Sub, i: nat)
    requires s.inFlight.Some? && i < |s.inFlight.value|
    ensures PollRaised(s, i) == DeliverAll(s.(nextOffset := s.nextOffset + |s.inFlight.value|),
        s.inFlight.value[..i + 1]).(inFlight := None)
  {
  }

  /** What the callback has been given of a listing at which it raised. */
  lemma RaisedPollDelivers(s: Sub, log: seq<Event>, f: Filter, i: nat)
    requires UniqueIds(log) && Sound(s, log, f) && ListingFits(s, log, f)
    requires s.inFlight.Some? && i < |s.inFlight.value|
    ensures var s' := PollRaised(s, i);
      && Sound(s', log, f) && s'.inFlight.None? && s'.nextOffset == s.nextOffset + |s.inFlight.value|
      && Given(s.received, s'.received, s.inFlight.value[..i + 1])
  {
    var events := s.inFlight.value;
    var given := events[..i + 1];
    ListedEventsMatch(events, log, f, s.nextOffset);
    forall e | e in given ensures e in log && Matches(e, f) {
      assert e in events;
    }
    DeliverAllSound(s.(nextOffset := s.nextOffset + |events|), given, log, f);
    RaisedIsDelivery(s, i);
  }

  /**
   A callback that raises at place `i` of a listing loses exactly the events behind that place that had not been
   received: no later poll brings them, and each arrives in a run if and only if it is emitted in it.
   */
  lemma RaisedPollLosesRest(s: Sub, log: seq<Event>, ops: seq<Op>, f: Filter, limit: nat, start: nat, i: nat, j: nat)
    requires Inv(s, log, f, start) && s.inFlight.Some? && i < j < |s.inFlight.value| && PublishedRun(log, ops)
    requires s.inFlight.value[j] !in s.received
    ensures s.inFlight.value[j] in SubAfter(PollRaised(s, i), log, ops, f, limit).received <==>
            Emit(s.inFlight.value[j]) in ops
  {
    var events, m, s' := s.inFlight.value, Matching(log, f), PollRaised(s, i);
    RaisedPollDelivers(s, log, f, i);
    var k := s.nextOffset + j;
    assert events[j] == m[k];
    var given := events[..i + 1];
    forall h | 0 <= h < |given| ensures given[h] != m[k] {
      MatchesDiffer(log, f, s.nextOffset + h, k);
    }
    assert m[k] !in given;
    assert Inv(s', log, f, s'.nextOffset);
    PassedOverIsLostIff(s', log, ops, f, limit, s'.nextOffset, k);
  }
}
