/**
  The apply and retry loop of a sync (crates/hit-node/src/sync.rs): every fetched event goes in
  by the one gate, and what it refuses waits and is tried again while anything new gets in.
 */
module Sync {

  /** The gate's answer to an event: taken as new, taken because it was there, or refused. */
  datatype Answer = New | Known | Refused

  datatype Reply<S> = Reply(state: S, answer: Answer)

  /** What one event changes, in a state of the node. */
  type Gate<!S, !E> = (S, E) -> Reply<S>

  /** Where a sync stands: the node, which events were counted as what, and which wait. */
  datatype Round<S, E> = Round(state: S, fetched: seq<E>, duplicates: seq<E>, waiting: seq<E>)

  /** The first pass. */
  function First<S, E>(gate: Gate<S, E>, state: S, events: seq<E>): Round<S, E> {
    if events == [] then Round(state, [], [], [])
    else
      var r, e := First(gate, state, events[..|events| - 1]), events[|events| - 1];
      var reply := gate(r.state, e);
      match reply.answer
      case New => r.(state := reply.state, fetched := r.fetched + [e])
      case Known => r.(state := reply.state, duplicates := r.duplicates + [e])
      case Refused => r.(state := reply.state, waiting := r.waiting + [e])
  }

  /** A later pass over what waits: whatever is taken counts as fetched. */
  function Again<S, E>(gate: Gate<S, E>, start: Round<S, E>, events: seq<E>): Round<S, E> {
    if events == [] then start.(waiting := [])
    else
      var r, e := Again(gate, start, events[..|events| - 1]), events[|events| - 1];
      var reply := gate(r.state, e);
      if reply.answer.Refused? then r.(state := reply.state, waiting := r.waiting + [e])
      else r.(state := reply.state, fetched := r.fetched + [e])
  }

  lemma {:induction false} AgainIsShorter<S, E>(gate: Gate<S, E>, start: Round<S, E>, events: seq<E>)
    ensures |Again(gate, start, events).waiting| <= |events|
  {
    if events != [] {
      AgainIsShorter(gate, start, events[..|events| - 1]);
    }
  }

  /** Passes until one takes nothing. */
  function Settle<S, E>(gate: Gate<S, E>, r: Round<S, E>): Round<S, E>
    decreases |r.waiting|
  {
    AgainIsShorter(gate, r, r.waiting);
    var next := Again(gate, r, r.waiting);
    if next.waiting == [] || |next.waiting| == |r.waiting| then next else Settle(gate, next)
  }

  datatype SyncStats = SyncStats(fetched: nat, duplicates: nat, refused: nat)

  /** The loops, with the counters they keep. */
  method Apply<S, E>(gate: Gate<S, E>, start: S, events: seq<E>)
    returns (state: S, st: SyncStats, left: seq<E>)
    ensures var r := Settle(gate, First(gate, start, events));
            && state == r.state && left == r.waiting
            && st == SyncStats(|r.fetched|, |r.duplicates|, |r.waiting|)
  {
    var fetched, duplicates := 0, 0;
    var waiting := [];
    state := start;
    for i := 0 to |events|
      invariant Matches(First(gate, start, events[..i]), state, fetched, duplicates, waiting)
    {
      assert events[..i + 1][..i] == events[..i];
      var reply := gate(state, events[i]);
      state := reply.state;
      match reply.answer {
        case New => fetched := fetched + 1;
        case Known => duplicates := duplicates + 1;
        case Refused => waiting := waiting + [events[i]];
      }
    }
    assert events[..|events|] == events;
    ghost var r := First(gate, start, events);
    while true
      invariant Matches(r, state, fetched, duplicates, waiting)
      invariant Settle(gate, r) == Settle(gate, First(gate, start, events))
      decreases |waiting|
    {
      var before := |waiting|;
      ghost var last := r;
      AgainIsShorter(gate, r, waiting);
      r := Again(gate, r, waiting);
      state, fetched, waiting := Pass(gate, last, state, fetched, duplicates, waiting);
      if waiting == [] || |waiting| == before {
        break;
      }
    }
    left := waiting;
    st := SyncStats(fetched, duplicates, |waiting|);
  }

  ghost predicate Matches<S, E>(r: Round<S, E>, state: S, fetched: nat, duplicates: nat, waiting: seq<E>) {
    state == r.state && fetched == |r.fetched| && duplicates == |r.duplicates| && waiting == r.waiting
  }

  method Pass<S, E>(gate: Gate<S, E>, ghost r: Round<S, E>, start: S, counted: nat, duplicates: nat, waiting: seq<E>)
    returns (state: S, fetched: nat, still: seq<E>)
    requires Matches(r, start, counted, duplicates, waiting)
    ensures Matches(Again(gate, r, waiting), state, fetched, duplicates, still)
  {
    state, fetched, still := start, counted, [];
    for i := 0 to |waiting|
      invariant Matches(Again(gate, r, waiting[..i]), state, fetched, duplicates, still)
    {
      assert waiting[..i + 1][..i] == waiting[..i];
      var reply := gate(state, waiting[i]);
      state := reply.state;
      if reply.answer.Refused? {
        still := still + [waiting[i]];
      } else {
        fetched := fetched + 1;
      }
    }
    assert waiting[..|waiting|] == waiting;
  }

  // ---- counting --------------------------------------------------------------------------

  function Counted<S, E(==)>(r: Round<S, E>): multiset<E> {
    multiset(r.fetched) + multiset(r.duplicates) + multiset(r.waiting)
  }

  lemma CountOne<S, E>(r: Round<S, E>, s: S, e: E)
    ensures Counted(r.(state := s, fetched := r.fetched + [e])) == Counted(r) + multiset{e}
    ensures Counted(r.(state := s, duplicates := r.duplicates + [e])) == Counted(r) + multiset{e}
    ensures Counted(r.(state := s, waiting := r.waiting + [e])) == Counted(r) + multiset{e}
  {
    Snoc(r.fetched, e);
    Snoc(r.duplicates, e);
    Snoc(r.waiting, e);
  }

  lemma NothingCounted<S, E>(r: Round<S, E>)
    ensures r.fetched == [] && r.duplicates == [] && r.waiting == [] ==> Counted(r) == multiset{}
  {
  }

  lemma Snoc<E>(events: seq<E>, e: E)
    ensures multiset(events + [e]) == multiset(events) + multiset{e}
  {
  }

  lemma {:induction false} FirstCounts<S, E>(gate: Gate<S, E>, state: S, events: seq<E>)
    ensures Counted(First(gate, state, events)) == multiset(events)
  {
    if events == [] {
      NothingCounted(First(gate, state, events));
    } else {
      hide Counted;
      var last := |events| - 1;
      var r, e := First(gate, state, events[..last]), events[last];
      FirstCounts(gate, state, events[..last]);
      assert events == events[..last] + [e];
      hide First;
      FirstSnoc(gate, state, events[..last], e);
      Snoc(events[..last], e);
      CountOne(r, gate(r.state, e).state, e);
    }
  }

  lemma FirstSnoc<S, E>(gate: Gate<S, E>, state: S, events: seq<E>, e: E)
    ensures
      var r, next := First(gate, state, events), First(gate, state, events + [e]);
      var s := gate(r.state, e).state;
      || next == r.(state := s, fetched := r.fetched + [e])
      || next == r.(state := s, duplicates := r.duplicates + [e])
      || next == r.(state := s, waiting := r.waiting + [e])
  {
    assert (events + [e])[..|events|] == events;
  }

  lemma {:induction false} AgainCounts<S, E>(gate: Gate<S, E>, start: Round<S, E>, events: seq<E>)
    ensures Counted(Again(gate, start, events)) == Counted(start.(waiting := [])) + multiset(events)
  {
    hide Counted;
    if events == [] {
      assert Counted(start.(waiting := [])) + multiset(events) == Counted(start.(waiting := []));
    } else {
      var last := |events| - 1;
      var r, e := Again(gate, start, events[..last]), events[last];
      AgainCounts(gate, start, events[..last]);
      assert events == events[..last] + [e];
      Snoc(events[..last], e);
      CountOne(r, gate(r.state, e).state, e);
    }
  }

  lemma {:induction false} SettleCounts<S, E>(gate: Gate<S, E>, r: Round<S, E>)
    ensures Counted(Settle(gate, r)) == Counted(r)
    decreases |r.waiting|
  {
    AgainIsShorter(gate, r, r.waiting);
    AgainCounts(gate, r, r.waiting);
    var next := Again(gate, r, r.waiting);
    assert Counted(r.(waiting := [])) + multiset(r.waiting) == Counted(r);
    if next.waiting != [] && |next.waiting| != |r.waiting| {
      SettleCounts(gate, next);
    }
  }

  /** Every fetched event is counted exactly once: as fetched, as a duplicate, or as refused. */
  lemma {:induction false} EveryEventIsCountedOnce<S, E>(gate: Gate<S, E>, state: S, events: seq<E>)
    ensures var r := Settle(gate, First(gate, state, events));
            && multiset(events) == multiset(r.fetched) + multiset(r.duplicates) + multiset(r.waiting)
            && |events| == |r.fetched| + |r.duplicates| + |r.waiting|
  {
    FirstCounts(gate, state, events);
    SettleCounts(gate, First(gate, state, events));
    var r := Settle(gate, First(gate, state, events));
    assert |multiset(events)| == |multiset(r.fetched)| + |multiset(r.duplicates)| + |multiset(r.waiting)|;
  }

  // ---- what is left is refused ----------------------------------------------------------------

  /** A refused event changes nothing. */
  ghost predicate RefusalIsIdle<S(!new), E(!new)>(gate: Gate<S, E>) {
    forall s: S, e: E :: gate(s, e).answer.Refused? ==> gate(s, e).state == s
  }

  ghost predicate AllRefused<S, E>(gate: Gate<S, E>, state: S, events: seq<E>) {
    forall i :: 0 <= i < |events| ==> gate(state, events[i]).answer.Refused?
  }

  lemma {:induction false} NothingTaken<S(!new), E(!new)>(gate: Gate<S, E>, start: Round<S, E>, events: seq<E>)
    requires RefusalIsIdle(gate) && |Again(gate, start, events).waiting| == |events|
    ensures Again(gate, start, events) == start.(waiting := events)
    ensures AllRefused(gate, start.state, events)
  {
    if events != [] {
      var last := |events| - 1;
      AgainIsShorter(gate, start, events[..last]);
      NothingTaken(gate, start, events[..last]);
      assert events == events[..last] + [events[last]];
    }
  }

  /** Whatever is still refused at the end is refused by the node as it is at the end. */
  lemma {:induction false} LeftoversAreRefusedByTheEnd<S(!new), E(!new)>(gate: Gate<S, E>, r: Round<S, E>)
    requires RefusalIsIdle(gate)
    ensures AllRefused(gate, Settle(gate, r).state, Settle(gate, r).waiting)
    decreases |r.waiting|
  {
    AgainIsShorter(gate, r, r.waiting);
    var next := Again(gate, r, r.waiting);
    if next.waiting == [] {
    } else if |next.waiting| == |r.waiting| {
      NothingTaken(gate, r, r.waiting);
    } else {
      LeftoversAreRefusedByTheEnd(gate, next);
    }
  }
}
