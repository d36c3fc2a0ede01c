/**
  A sync against the node's own gate: what a fetch leaves refused, and that a whole sync is a
  run of arrivals, so that what holds of every run holds after it.
 */
module Fetching {
  import opened Group
  import opened Replace
  import opened Store
  import opened Gate
  import opened Arrivals
  import Sync

  function AsReplied(a: Answer): Sync.Answer {
    match a
    case New => Sync.New
    case Known => Sync.Known
    case Refused => Sync.Refused
  }

  /** `accept_event` at one reading of the clock. */
  ghost function GateAt(now: Timestamp): Sync.Gate<Node, Event> {
    (n: Node, e: Event) => Sync.Reply(Accept(n, Route(e, now)), AsReplied(AnswerTo(n, Route(e, now))))
  }

  ghost function Synced(now: Timestamp, n: Node, fetched: seq<Event>): Sync.Round<Node, Event> {
    Sync.Settle(GateAt(now), Sync.First(GateAt(now), n, fetched))
  }

  lemma RefusedIsIdle(n: Node, a: Arrival)
    requires AnswerTo(n, a).Refused?
    ensures Accept(n, a) == n
  {
  }

  lemma GateIsIdle(now: Timestamp)
    ensures Sync.RefusalIsIdle(GateAt(now))
  {
    hide Accept, AnswerTo;
    forall n: Node, e: Event | GateAt(now)(n, e).answer.Refused? ensures GateAt(now)(n, e).state == n {
      RefusedIsIdle(n, Route(e, now));
    }
  }

  /** What a sync leaves refused, the node as it then is refuses, and is not changed by. */
  lemma {:induction false} FetchLeavesOnlyRefused(now: Timestamp, n: Node, fetched: seq<Event>, e: Event)
    requires e in Synced(now, n, fetched).waiting
    ensures
      var end := Synced(now, n, fetched).state;
      AnswerTo(end, Route(e, now)).Refused? && Accept(end, Route(e, now)) == end
  {
    hide Accept, AnswerTo;
    GateIsIdle(now);
    Sync.LeftoversAreRefusedByTheEnd(GateAt(now), Sync.First(GateAt(now), n, fetched));
    var end := Synced(now, n, fetched);
    var i :| 0 <= i < |end.waiting| && end.waiting[i] == e;
    RefusedIsIdle(end.state, Route(e, now));
  }

  // ---- a sync is a run of arrivals -------------------------------------------------------------

  function Routed(events: seq<Event>, now: Timestamp): (arrivals: seq<Arrival>)
    ensures |arrivals| == |events|
  {
    if events == [] then [] else Routed(events[..|events| - 1], now) + [Route(events[|events| - 1], now)]
  }

  lemma RoutedSnoc(events: seq<Event>, e: Event, now: Timestamp)
    ensures Routed(events + [e], now) == Routed(events, now) + [Route(e, now)]
  {
    assert (events + [e])[..|events|] == events;
  }

  lemma AcceptSnoc(n: Node, arrivals: seq<Arrival>, a: Arrival)
    ensures AcceptAll(n, arrivals + [a]) == Accept(AcceptAll(n, arrivals), a)
  {
    hide Accept;
    assert (arrivals + [a])[..|arrivals|] == arrivals;
  }

  lemma {:induction false} AcceptThen(n: Node, a: seq<Arrival>, b: seq<Arrival>)
    ensures AcceptAll(n, a + b) == AcceptAll(AcceptAll(n, a), b)
  {
    hide Accept;
    if b == [] {
      assert a + b == a;
    } else {
      var last := |b| - 1;
      AcceptThen(n, a, b[..last]);
      assert a + b == a + b[..last] + [b[last]];
      AcceptSnoc(n, a + b[..last], b[last]);
    }
  }

  lemma {:induction false} FirstIsArrivals(now: Timestamp, n: Node, events: seq<Event>)
    ensures Sync.First(GateAt(now), n, events).state == AcceptAll(n, Routed(events, now))
  {
    hide Accept, AnswerTo;
    if events != [] {
      var last := |events| - 1;
      FirstIsArrivals(now, n, events[..last]);
      AcceptSnoc(n, Routed(events[..last], now), Route(events[last], now));
    }
  }

  lemma {:induction false} AgainIsArrivals(now: Timestamp, r: Sync.Round<Node, Event>, events: seq<Event>)
    ensures Sync.Again(GateAt(now), r, events).state == AcceptAll(r.state, Routed(events, now))
  {
    hide Accept, AnswerTo;
    if events != [] {
      var last := |events| - 1;
      AgainIsArrivals(now, r, events[..last]);
      AcceptSnoc(r.state, Routed(events[..last], now), Route(events[last], now));
    }
  }

  /** Every event a later pass tries was tried in the first. */
  lemma {:induction false} SettleIsArrivals(now: Timestamp, r: Sync.Round<Node, Event>) returns (tried: seq<Event>)
    ensures Sync.Settle(GateAt(now), r).state == AcceptAll(r.state, Routed(tried, now))
    ensures forall e :: e in tried ==> e in r.waiting
    decreases |r.waiting|
  {
    hide AcceptAll;
    Sync.AgainIsShorter(GateAt(now), r, r.waiting);
    AgainIsArrivals(now, r, r.waiting);
    AgainWaitsFor(now, r, r.waiting);
    var next := Sync.Again(GateAt(now), r, r.waiting);
    tried := r.waiting;
    if next.waiting != [] && |next.waiting| != |r.waiting| {
      var more := SettleIsArrivals(now, next);
      RoutedThen(r.waiting, more, now);
      AcceptThen(r.state, Routed(r.waiting, now), Routed(more, now));
      tried := r.waiting + more;
    }
  }

  lemma {:induction false} AgainWaitsFor(now: Timestamp, r: Sync.Round<Node, Event>, events: seq<Event>)
    ensures forall e :: e in Sync.Again(GateAt(now), r, events).waiting ==> e in events
  {
    hide Accept, AnswerTo;
    if events != [] {
      var last := |events| - 1;
      AgainWaitsFor(now, r, events[..last]);
      assert events == events[..last] + [events[last]];
    }
  }

  lemma {:induction false} FirstWaitsFor(now: Timestamp, n: Node, events: seq<Event>)
    ensures forall e :: e in Sync.First(GateAt(now), n, events).waiting ==> e in events
  {
    hide Accept, AnswerTo;
    if events != [] {
      var last := |events| - 1;
      FirstWaitsFor(now, n, events[..last]);
      assert events == events[..last] + [events[last]];
    }
  }

  lemma {:induction false} RoutedThen(a: seq<Event>, b: seq<Event>, now: Timestamp)
    ensures Routed(a + b, now) == Routed(a, now) + Routed(b, now)
  {
    if b == [] {
      assert a + b == a;
    } else {
      var last := |b| - 1;
      RoutedThen(a, b[..last], now);
      assert a + b == a + b[..last] + [b[last]];
      RoutedSnoc(a + b[..last], b[last], now);
    }
  }

  /** A sync from rest ends where some run of the gate's steps ends, which brings only what was fetched. */
  lemma {:induction false} SyncIsARun(now: Timestamp, n: Node, fetched: seq<Event>)
    requires AtRest(n)
    ensures AtRest(Synced(now, n, fetched).state)
    ensures exists tried ::
              (forall e :: e in tried ==> e in fetched) && Synced(now, n, fetched).state == Run(n, AllSteps(Routed(tried, now)))
  {
    hide AcceptAll, AtRest, Run, AllSteps;
    var first := Sync.First(GateAt(now), n, fetched);
    FirstIsArrivals(now, n, fetched);
    FirstWaitsFor(now, n, fetched);
    var more := SettleIsArrivals(now, first);
    var tried := fetched + more;
    RoutedThen(fetched, more, now);
    AcceptThen(n, Routed(fetched, now), Routed(more, now));
    ArrivalsAreAccepted(n, Routed(tried, now));
  }

  // ---- what the counters mean ----------------------------------------------------------------

  /** At the first pass, once `k` events have been tried, the gate answers the next one `answer`. */
  ghost predicate Answered(now: Timestamp, n: Node, fetched: seq<Event>, k: nat, answer: Answer)
    requires k < |fetched|
  {
    AnswerTo(AcceptAll(n, Routed(fetched[..k], now)), Route(fetched[k], now)) == answer
  }

  ghost predicate AnsweredSomewhere(now: Timestamp, n: Node, fetched: seq<Event>, e: Event, answer: Answer) {
    exists k :: 0 <= k < |fetched| && fetched[k] == e && Answered(now, n, fetched, k, answer)
  }

  lemma AnsweredEarlier(now: Timestamp, n: Node, fetched: seq<Event>, e: Event, answer: Answer)
    requires fetched != [] && AnsweredSomewhere(now, n, fetched[..|fetched| - 1], e, answer)
    ensures AnsweredSomewhere(now, n, fetched, e, answer)
  {
    hide AnswerTo, AcceptAll;
    var front := fetched[..|fetched| - 1];
    var k :| 0 <= k < |front| && front[k] == e && Answered(now, n, front, k, answer);
    assert front[..k] == fetched[..k] && Answered(now, n, fetched, k, answer);
  }

  lemma {:induction false} FirstCountsAnswers(now: Timestamp, n: Node, fetched: seq<Event>)
    ensures
      var r := Sync.First(GateAt(now), n, fetched);
      && (forall e :: e in r.fetched ==> AnsweredSomewhere(now, n, fetched, e, Answer.New))
      && (forall e :: e in r.duplicates ==> AnsweredSomewhere(now, n, fetched, e, Answer.Known))
      && (forall e :: e in r.waiting ==> AnsweredSomewhere(now, n, fetched, e, Answer.Refused))
  {
    hide Accept, AnswerTo, AcceptAll, AnsweredSomewhere;
    if fetched != [] {
      var last := |fetched| - 1;
      var front, e := fetched[..last], fetched[last];
      FirstCountsAnswers(now, n, front);
      FirstIsArrivals(now, n, front);
      LastAnswered(now, n, fetched);
      var r := Sync.First(GateAt(now), n, front);
      forall x, answer | AnsweredSomewhere(now, n, front, x, answer) ensures AnsweredSomewhere(now, n, fetched, x, answer) {
        AnsweredEarlier(now, n, fetched, x, answer);
      }
    }
  }

  lemma LastAnswered(now: Timestamp, n: Node, fetched: seq<Event>)
    requires fetched != []
    ensures
      var last := |fetched| - 1;
      AnsweredSomewhere(now, n, fetched, fetched[last], AnswerTo(AcceptAll(n, Routed(fetched[..last], now)), Route(fetched[last], now)))
  {
    hide AnswerTo, AcceptAll;
    assert Answered(now, n, fetched, |fetched| - 1, AnswerTo(AcceptAll(n, Routed(fetched[..|fetched| - 1], now)), Route(fetched[|fetched| - 1], now)));
  }

  lemma {:induction false} SettleKeepsCounts(now: Timestamp, r: Sync.Round<Node, Event>)
    ensures
      var end := Sync.Settle(GateAt(now), r);
      end.duplicates == r.duplicates && forall e :: e in end.fetched ==> e in r.fetched || e in r.waiting
    decreases |r.waiting|
  {
    Sync.AgainIsShorter(GateAt(now), r, r.waiting);
    AgainKeepsCounts(now, r, r.waiting);
    AgainWaitsFor(now, r, r.waiting);
    var next := Sync.Again(GateAt(now), r, r.waiting);
    if next.waiting != [] && |next.waiting| != |r.waiting| {
      SettleKeepsCounts(now, next);
    }
  }

  lemma {:induction false} AgainKeepsCounts(now: Timestamp, r: Sync.Round<Node, Event>, events: seq<Event>)
    ensures
      var end := Sync.Again(GateAt(now), r, events);
      end.duplicates == r.duplicates && forall e :: e in end.fetched ==> e in r.fetched || e in events
  {
    hide Accept, AnswerTo;
    if events != [] {
      var last := |events| - 1;
      AgainKeepsCounts(now, r, events[..last]);
      assert events == events[..last] + [events[last]];
    }
  }

  /**
    An event counted as fetched was new when its turn came, or refused then and taken later; one
    counted as a duplicate was had already, or something newer in its place; one counted as
    refused was refused at its turn and at every later one.
   */
  lemma {:induction false} CountedByAnswer(now: Timestamp, n: Node, fetched: seq<Event>, e: Event)
    ensures
      var end := Synced(now, n, fetched);
      && (e in end.fetched ==>
            AnsweredSomewhere(now, n, fetched, e, Answer.New) || AnsweredSomewhere(now, n, fetched, e, Answer.Refused))
      && (e in end.duplicates ==> AnsweredSomewhere(now, n, fetched, e, Answer.Known))
      && (e in end.waiting ==> AnswerTo(end.state, Route(e, now)).Refused?)
  {
    hide Accept, AnswerTo, AnsweredSomewhere;
    FirstCountsAnswers(now, n, fetched);
    SettleKeepsCounts(now, Sync.First(GateAt(now), n, fetched));
    if e in Synced(now, n, fetched).waiting {
      FetchLeavesOnlyRefused(now, n, fetched, e);
    }
  }

  /** `Known` is what is let in but not stored: its id is there, or a row it does not replace. */
  lemma {:induction false} KnownExactly(n: Node, a: Arrival)
    ensures AnswerTo(n, a).Known? <==>
            Lets(n, a) && !SlotOf(a.event).Ephemeral?
            && (HasId(n.rows, a.event.id) || (CurrentIn(n.rows, a.event).Some? && !Replaces(a.event, CurrentIn(n.rows, a.event).value)))
    ensures AnswerTo(n, a).Known? ==> Accept(n, a).rows == n.rows && Accept(n, a).groups == n.groups
  {
    hide Lets, Replaces, SameSlot;
    CurrentInFinds(n.rows, a.event);
    RegularHasNoSlot(a.event);
    KnownKeepsRows(n, a);
  }

  lemma KnownKeepsRows(n: Node, a: Arrival)
    ensures AnswerTo(n, a).Known? ==> Accept(n, a).rows == n.rows && Accept(n, a).groups == n.groups
  {
    hide Replaces, SameSlot, Welcome, Admissible, TakesPersonal;
  }
}
