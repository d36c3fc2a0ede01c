/**
  Actions a node refuses one by one it refuses all together; so two stores that refuse
  everything more the other holds fold to the same group.
 */
module Batch {
  import opened Prelude
  import opened Group
  import opened EventLists
  import opened State
  import opened Fold
  import opened FoldOrder
  import opened Refused

  // ---- the first to be applied would be applied alone --------------------------------------

  /** Some id of `ids` was applied by the time `s` was reached. */
  ghost predicate AnyApplied(s: GroupState, ids: set<EventId>) {
    exists x :: x in ids && x in s.trace.applied
  }

  lemma NoneIsDroppable(s: GroupState, events: seq<Event>, ids: set<EventId>, fewer: set<EventId>)
    requires !AnyApplied(s, ids) && fewer <= ids
    ensures Droppable(s, events, fewer, false)
  {
  }

  lemma SameAgrees(s: GroupState)
    ensures Agree(s, s, false)
  {
  }

  lemma AgreeApplied(s: GroupState, t: GroupState)
    ensures Agree(s, t, false) ==> s.trace.applied == t.trace.applied
  {
  }

  lemma {:induction false} PassBatch(s: GroupState, pending: seq<Event>, ids: set<EventId>) returns (x: EventId)
    requires !AnyApplied(s, ids) && AnyApplied(Pass(s, pending).state, ids)
    ensures x in ids && x in Pass(s, Drop(pending, ids - {x})).state.trace.applied
  {
    hide Step, Refuses, Agree, Droppable, Drop;
    assert pending != [];
    var last := |pending| - 1;
    var front, e := pending[..last], pending[last];
    var p := Pass(s, front);
    assert pending == front + [e];
    if AnyApplied(p.state, ids) {
      x := PassBatch(s, front, ids);
      DropSnoc(front, e, ids - {x});
      PassGrows(s, Drop(front, ids - {x}), e);
    } else {
      StepApplies(p.state, e);
      x := e.id;
      NoneIsDroppable(p.state, front, ids, ids - {x});
      SameAgrees(s);
      PassIgnoresDropped(s, s, front, ids - {x}, false);
      var q := Pass(s, Drop(front, ids - {x}));
      StepKeepsAgreement(p.state, q.state, e, false);
      StepApplies(q.state, e);
      DropSnoc(front, e, ids - {x});
      PassSnoc(s, Drop(front, ids - {x}), e);
    }
  }

  lemma PassSnoc(s: GroupState, front: seq<Event>, e: Event)
    ensures Pass(s, front + [e]).state == Step(Pass(s, front).state, e)
  {
    assert (front + [e])[..|front|] == front;
  }

  lemma PassGrows(s: GroupState, front: seq<Event>, e: Event)
    ensures Pass(s, front).state.trace.applied <= Pass(s, front + [e]).state.trace.applied
  {
    hide Step;
    PassSnoc(s, front, e);
    StepApplies(Pass(s, front).state, e);
  }

  /** A second reached from an agreeing state applies the same. */
  lemma SecondAgrees(s: GroupState, t: GroupState, pending: seq<Event>)
    requires Agree(s, t, false)
    ensures Second(s, pending).state.trace.applied == Second(t, pending).state.trace.applied
  {
    hide Second, Agree;
    DropNone(pending, {});
    SecondIgnoresDropped(s, t, pending, {}, false);
    AgreeApplied(Second(s, pending).state, Second(t, pending).state);
  }

  lemma {:induction false} SecondBatch(s: GroupState, pending: seq<Event>, ids: set<EventId>) returns (x: EventId)
    requires !AnyApplied(s, ids) && AnyApplied(Second(s, pending).state, ids)
    ensures x in ids && x in Second(s, Drop(pending, ids - {x})).state.trace.applied
    decreases |pending|
  {
    hide Agree, Droppable, Drop, Pass;
    var p := Pass(s, pending);
    if AnyApplied(p.state, ids) {
      x := PassBatch(s, pending, ids);
      SecondKeepsPass(s, Drop(pending, ids - {x}));
    } else {
      assert |p.left| != |pending| && p.left != [];
      x := SecondBatch(p.state, p.left, ids);
      var fewer := ids - {x};
      NoneIsDroppable(p.state, pending, ids, fewer);
      SameAgrees(s);
      PassIgnoresDropped(s, s, pending, fewer, false);
      var q := Pass(s, Drop(pending, fewer));
      SecondAgrees(p.state, q.state, q.left);
      SecondOfNothing(p.state);
    }
  }

  lemma SecondOfNothing(s: GroupState)
    ensures Second(s, []).state == s
  {
  }

  lemma SecondKeepsPass(s: GroupState, pending: seq<Event>)
    ensures Pass(s, pending).state.trace.applied <= Second(s, pending).state.trace.applied
  {
    var p := Pass(s, pending);
    if |p.left| != |pending| && p.left != [] {
      SecondGrowsApplied(p.state, p.left);
    }
  }

  lemma {:induction false} RunBatch(s: GroupState, live: seq<Event>, ids: set<EventId>) returns (x: EventId)
    requires InTime(live) && !AnyApplied(s, ids) && AnyApplied(RunAll(s, live), ids)
    ensures x in ids && x in RunAll(s, Drop(live, ids - {x})).trace.applied
    decreases |live|
  {
    hide Agree, Droppable, Drop, Second;
    var n := SecondLength(live);
    var head, tail := live[..n], live[n..];
    assert live == head + tail;
    var s1 := Second(s, head).state;
    if AnyApplied(s1, ids) {
      x := SecondBatch(s, head, ids);
      var fewer := ids - {x};
      RunOverDropped(s, live, n, fewer);
      RunGrowsApplied(Second(s, Drop(head, fewer)).state, Drop(tail, fewer));
    } else {
      x := RunBatch(s1, tail, ids);
      var fewer := ids - {x};
      NoneIsDroppable(s1, head, ids, fewer);
      SameAgrees(s);
      SecondIgnoresDropped(s, s, head, fewer, false);
      RunOverDropped(s, live, n, fewer);
      DropInTime(tail, fewer);
      RunAgrees(s1, Second(s, Drop(head, fewer)).state, Drop(tail, fewer));
    }
  }

  lemma RunAgrees(s: GroupState, t: GroupState, live: seq<Event>)
    requires Agree(s, t, false) && InTime(live)
    ensures RunAll(s, live).trace.applied == RunAll(t, live).trace.applied
  {
    hide Agree, RunAll;
    DropNone(live, {});
    RunIgnoresDropped(s, t, live, {}, false);
    AgreeApplied(RunAll(s, live), RunAll(t, live));
  }

  lemma RunOverDropped(s: GroupState, live: seq<Event>, n: nat, ids: set<EventId>)
    requires InTime(live) && live != [] && n == SecondLength(live)
    ensures RunAll(s, Drop(live, ids)) == RunAll(Second(s, Drop(live[..n], ids)).state, Drop(live[n..], ids))
  {
    hide Drop, Second, RunAll;
    assert live == live[..n] + live[n..];
    DropConcat(live[..n], live[n..], ids);
    DroppedSecond(live, n, ids);
    RunSplitsSecond(s, Drop(live[..n], ids), Drop(live[n..], ids));
  }

  // ---- over the whole fold -----------------------------------------------------------------

  /** What the fold of fewer actions starts from and runs over. */
  lemma {:induction false} FoldOfFewer(group: PublicKey, events: seq<Event>, ids: set<EventId>)
    requires OnlyActions(group, events, ids) && FoldEvents(group, events).Some?
    ensures
      var p := PiecesOf(group, events).value;
      var actions := Sort(Actions(group, events));
      var start := Initial(group, p, Creators(group, events), InvitesOf(actions));
      && FoldEvents(group, Drop(events, ids)) == Some(RunAll(start, Drop(Live(CutoffOf(p), actions), ids)))
      && FoldEvents(group, events) == Some(RunAll(start, Live(CutoffOf(p), actions)))
      && InTime(Live(CutoffOf(p), actions))
  {
    hide RunAll, Initial, Newest;
    DropKeepsSnapshot(group, events, ids);
    var p := PiecesOf(group, events).value;
    var actions := Sort(Actions(group, events));
    SortedActions(group, events);
    DropActions(group, events, ids);
    DropSort(Actions(group, events), ids);
    DropKeepsInvites(actions, ids);
    DropLive(CutoffOf(p), actions, ids);
    LiveInTime(CutoffOf(p), actions);
  }

  /** Actions refused one by one, with none of the others there, are refused all together. */
  lemma {:induction false} RefusedAloneRefusedTogether(group: PublicKey, events: seq<Event>, ids: set<EventId>)
    requires OnlyActions(group, events, ids) && FoldEvents(group, events).Some?
    requires forall x :: x in ids && FoldEvents(group, Drop(events, ids - {x})).Some? ==>
               x !in FoldEvents(group, Drop(events, ids - {x})).value.trace.applied
    ensures FoldEvents(group, events).value.trace.applied !! ids
  {
    var p := PiecesOf(group, events).value;
    var actions := Sort(Actions(group, events));
    var live := Live(CutoffOf(p), actions);
    var start := Initial(group, p, Creators(group, events), InvitesOf(actions));
    hide FoldEvents, RunAll, Drop;
    FoldOfFewer(group, events, ids);
    if AnyApplied(RunAll(start, live), ids) {
      var x := RunBatch(start, live, ids);
      FoldOfFewer(group, events, ids - {x});
    }
  }

  // ---- two nodes -----------------------------------------------------------------------------

  /** A non-invite action of the group. */
  predicate IsDeed(group: PublicKey, e: Event) { IsAction(group, e) && !IsInvite(e) }

  /** Folded with all of `rows`, the action is not applied. */
  ghost predicate WouldRefuse(group: PublicKey, rows: seq<Event>, e: Event) {
    FoldEvents(group, rows + [e]).Some? ==> e.id !in FoldEvents(group, rows + [e]).value.trace.applied
  }

  /** `rows` refuses every one of `more`, each alone. */
  ghost predicate RefusesEach(group: PublicKey, rows: seq<Event>, more: seq<Event>) {
    forall e :: e in more ==> IsDeed(group, e) && WouldRefuse(group, rows, e)
  }

  lemma {:induction false} DropAllBut(rows: seq<Event>, more: seq<Event>, e: Event)
    requires DistinctIds(rows + more) && e in more
    ensures Drop(rows + more, Ids(more) - {e.id}) == rows + [e]
  {
    DropConcat(rows, more, Ids(more) - {e.id});
    IdsApart(rows, more);
    DropNone(rows, Ids(more) - {e.id});
    assert DistinctIds(more) by { TailIsDistinct(rows, more); }
    OnlyOneLeft(more, e, Ids(more));
  }

  lemma IdsApart(rows: seq<Event>, more: seq<Event>)
    requires DistinctIds(rows + more)
    ensures forall r :: r in rows ==> r.id !in Ids(more)
  {
    var all := rows + more;
    forall i, j | 0 <= i < |rows| && 0 <= j < |more| ensures rows[i].id != more[j].id {
      assert all[i] == rows[i] && all[|rows| + j] == more[j];
    }
  }

  lemma TailIsDistinct(rows: seq<Event>, more: seq<Event>)
    requires DistinctIds(rows + more)
    ensures DistinctIds(rows) && DistinctIds(more)
  {
    forall i, j | 0 <= i < j < |more| ensures more[i].id != more[j].id {
      assert more[i] == (rows + more)[|rows| + i] && more[j] == (rows + more)[|rows| + j];
    }
    forall i, j | 0 <= i < j < |rows| ensures rows[i].id != rows[j].id {
      assert rows[i] == (rows + more)[i] && rows[j] == (rows + more)[j];
    }
  }

  lemma {:induction false} OnlyOneLeft(more: seq<Event>, e: Event, ids: set<EventId>)
    requires DistinctIds(more) && e in more && Ids(more) <= ids
    ensures Drop(more, ids - {e.id}) == [e]
  {
    var last := |more| - 1;
    assert more == more[..last] + [more[last]];
    assert forall x :: x in more ==> x.id in Ids(more);
    if more[last] == e {
      forall x | x in more[..last] ensures x.id in ids - {e.id} {
        assert x in more;
      }
      DropEvery(more[..last], ids - {e.id});
    } else {
      assert Ids(more[..last]) <= Ids(more);
      OnlyOneLeft(more[..last], e, ids);
    }
  }

  lemma {:induction false} DropEvery(events: seq<Event>, ids: set<EventId>)
    requires forall e :: e in events ==> e.id in ids
    ensures Drop(events, ids) == []
  {
    if events != [] {
      DropEvery(events[..|events| - 1], ids);
    }
  }

  /** What `rows` refuses one by one, it may as well not have been offered. */
  lemma {:induction false} RefusedEachIsIrrelevant(group: PublicKey, rows: seq<Event>, more: seq<Event>)
    requires DistinctIds(rows + more) && RefusesEach(group, rows, more) && FoldEvents(group, rows).Some?
    ensures FoldEvents(group, rows + more).Some?
    ensures Agree(FoldEvents(group, rows + more).value, FoldEvents(group, rows).value, false)
  {
    hide FoldEvents, Agree, DistinctIds, IsMute;
    var all, ids := rows + more, Ids(more);
    assert forall e :: e in more ==> e.id in ids;
    forall e | e in all && e.id in ids ensures IsDeed(group, e) {
      InTheTail(rows, more, e);
    }
    DropTail(rows, more);
    DropKeepsSnapshot(group, all, ids);
    SomeWhenPieces(group, rows);
    SomeWhenPieces(group, all);
    forall x | x in ids && FoldEvents(group, Drop(all, ids - {x})).Some?
      ensures x !in FoldEvents(group, Drop(all, ids - {x})).value.trace.applied
    {
      var e :| e in more && e.id == x;
      DropAllBut(rows, more, e);
    }
    RefusedAloneRefusedTogether(group, all, ids);
    RefusedActionsAreIrrelevant(group, all, ids);
    Exactly(group, all, rows, ids);
  }

  lemma Exactly(group: PublicKey, a: seq<Event>, b: seq<Event>, ids: set<EventId>)
    requires FoldEvents(group, a).Some? && FoldEvents(group, b).Some?
    requires var exact := forall e :: e in a && e.id in ids ==> !IsMute(e);
             Agree(FoldEvents(group, a).value, FoldEvents(group, b).value, exact)
    ensures Agree(FoldEvents(group, a).value, FoldEvents(group, b).value, false)
  {
    hide FoldEvents, IsMute;
  }

  lemma SomeWhenPieces(group: PublicKey, events: seq<Event>)
    ensures FoldEvents(group, events).Some? <==> PiecesOf(group, events).Some?
  {
  }

  lemma InTheTail(rows: seq<Event>, more: seq<Event>, e: Event)
    requires DistinctIds(rows + more) && e in rows + more && e.id in Ids(more)
    ensures e in more
  {
    IdsApart(rows, more);
  }

  lemma {:induction false} DropTail(rows: seq<Event>, more: seq<Event>)
    requires DistinctIds(rows + more)
    ensures Drop(rows + more, Ids(more)) == rows
  {
    DropConcat(rows, more, Ids(more));
    assert forall e :: e in more ==> e.id in Ids(more);
    DropEvery(more, Ids(more));
    IdsApart(rows, more);
    DropNone(rows, Ids(more));
  }

  lemma AgreeChains(s: GroupState, t: GroupState, u: GroupState)
    ensures Agree(s, t, false) ==> Agree(t, s, false)
    ensures Agree(s, t, false) && Agree(t, u, false) ==> Agree(s, u, false)
  {
  }

  /**
    Two stores that differ only in non-invite actions, and each of which refuses, one at a
    time, every action the other has and it has not: they fold to the same group, silences apart.
   */
  lemma {:induction false} RefusingStoresAgree(group: PublicKey, a: seq<Event>, b: seq<Event>, moreOfB: seq<Event>, moreOfA: seq<Event>)
    requires DistinctIds(a + moreOfB) && multiset(a + moreOfB) == multiset(b + moreOfA)
    requires RefusesEach(group, a, moreOfB) && RefusesEach(group, b, moreOfA)
    requires FoldEvents(group, a).Some? && FoldEvents(group, b).Some?
    ensures Agree(FoldEvents(group, a).value, FoldEvents(group, b).value, false)
  {
    hide FoldEvents, Agree;
    FoldIgnoresOrder(group, b + moreOfA, a + moreOfB);
    SameBagDistinct(a + moreOfB, b + moreOfA);
    RefusedEachIsIrrelevant(group, a, moreOfB);
    RefusedEachIsIrrelevant(group, b, moreOfA);
    AgreeChains(FoldEvents(group, a + moreOfB).value, FoldEvents(group, a).value, FoldEvents(group, a).value);
    AgreeChains(FoldEvents(group, a).value, FoldEvents(group, a + moreOfB).value, FoldEvents(group, b).value);
  }

  lemma {:induction false} SameBagDistinct(a: seq<Event>, b: seq<Event>)
    requires DistinctIds(a) && multiset(a) == multiset(b)
    ensures DistinctIds(b)
  {
    assert |a| == |multiset(a)| && |b| == |multiset(b)|;
    forall i, j | 0 <= i < j < |b| ensures b[i].id != b[j].id {
      assert b[i] in multiset(b) && b[j] in multiset(b);
      assert b[i] in a && b[j] in a;
      if b[i].id == b[j].id {
        var k :| 0 <= k < |a| && a[k] == b[i];
        var l :| 0 <= l < |a| && a[l] == b[j];
        assert b[i] == b[j];
        TwiceInBag(b, i, j);
        DistinctCounts(a, b[i]);
      }
    }
  }

  lemma TwiceInBag(b: seq<Event>, i: nat, j: nat)
    requires i < j < |b| && b[i] == b[j]
    ensures multiset(b)[b[i]] >= 2
  {
    assert b == b[..i] + [b[i]] + b[i + 1..j] + [b[j]] + b[j + 1..];
  }
}
