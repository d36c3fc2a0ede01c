/**
  What a refused action leaves behind: nothing, except that a refused mute may have cut
  mute spans. A second's passes settle, and peers whose stores differ only in refused
  actions compute the same group.
 */
module Refused {
  import opened Group
  import opened EventLists
  import opened State
  import opened Fold
  import opened FoldOrder

  predicate IsMute(e: Event) { ActionOf(e).Some? && ActionOf(e).value.Mute? }

  // ---- a second settles --------------------------------------------------

  /** A pass that applies nothing leaves the core alone and refuses everything by it. */
  lemma {:induction false} PassUnchanged(s: GroupState, pending: seq<Event>)
    requires |Pass(s, pending).left| == |pending|
    ensures Pass(s, pending).left == pending
    ensures Pass(s, pending).state.core == s.core && Pass(s, pending).state.invites == s.invites
    ensures forall e :: e in pending ==> Refuses(s, e)
  {
    if pending != [] {
      var front := pending[..|pending| - 1];
      assert |Pass(s, front).left| <= |front|;
      PassUnchanged(s, front);
      assert pending == front + [pending[|pending| - 1]];
    }
  }

  /** When a second is over, everything left is refused by the state it reached. */
  lemma {:induction false} SecondSettles(s: GroupState, pending: seq<Event>)
    ensures forall e :: e in Second(s, pending).left ==> Refuses(Second(s, pending).state, e)
    decreases |pending|
  {
    var p := Pass(s, pending);
    if |p.left| == |pending| {
      PassUnchanged(s, pending);
    } else if p.left != [] {
      SecondSettles(p.state, p.left);
    }
  }

  lemma StepApplies(s: GroupState, e: Event)
    ensures Step(s, e).trace.applied == if Refuses(s, e) then s.trace.applied else s.trace.applied + {e.id}
    ensures Refuses(s, e) ==> Step(s, e).core == s.core
    ensures Step(s, e).invites == s.invites
  {
  }

  lemma {:induction false} PassAccounts(s: GroupState, pending: seq<Event>)
    requires DistinctIds(pending)
    ensures Ids(Pass(s, pending).left) <= Ids(pending) && DistinctIds(Pass(s, pending).left)
    ensures Pass(s, pending).state.trace.applied == s.trace.applied + (Ids(pending) - Ids(Pass(s, pending).left))
  {
    hide Step, Refuses;
    if pending != [] {
      var last := |pending| - 1;
      var front, e := pending[..last], pending[last];
      PassAccounts(s, front);
      var p := Pass(s, front);
      assert pending == front + [e];
      assert e.id !in Ids(front);
      hide DistinctIds, Ids;
      IdsSnoc(front, e);
      IdsSnoc(p.left, e);
      StepApplies(p.state, e);
    }
  }

  /** Each event of a second is either applied or left over, never both. */
  lemma {:induction false} SecondAccounts(s: GroupState, pending: seq<Event>)
    requires DistinctIds(pending)
    ensures Ids(Second(s, pending).left) <= Ids(pending)
    ensures Second(s, pending).state.trace.applied == s.trace.applied + (Ids(pending) - Ids(Second(s, pending).left))
    decreases |pending|
  {
    PassAccounts(s, pending);
    var p := Pass(s, pending);
    if |p.left| != |pending| && p.left != [] {
      SecondAccounts(p.state, p.left);
    }
  }

  // ---- dropping refused actions -------------------------------------------

  /** Equal but for the silences, which are equal too when `exact`. */
  ghost predicate Agree(s: GroupState, t: GroupState, exact: bool) {
    && s.(trace := t.trace) == t
    && s.trace.joined == t.trace.joined
    && s.trace.applied == t.trace.applied
    && (exact ==> s.trace.silences == t.trace.silences)
  }

  lemma StepKeepsAgreement(s: GroupState, t: GroupState, e: Event, exact: bool)
    ensures Agree(s, t, exact) ==> Agree(Step(s, e), Step(t, e), exact)
    ensures Agree(s, t, exact) ==> Refuses(s, e) == Refuses(t, e)
  {
  }

  lemma RefusedStepIsIdle(s: GroupState, t: GroupState, e: Event, exact: bool)
    ensures (Agree(s, t, exact) && Refuses(s, e) && (exact ==> !IsMute(e))) ==> Agree(Step(s, e), t, exact)
  {
  }

  /** The dropped ids were not applied by the time `s` was reached, and no mutes if exactness is wanted. */
  ghost predicate Droppable(s: GroupState, events: seq<Event>, ids: set<EventId>, exact: bool) {
    forall e :: e in events && e.id in ids ==> e.id !in s.trace.applied && (exact ==> !IsMute(e))
  }

  lemma DropOfNone(ids: set<EventId>)
    ensures Drop([], ids) == []
  {
  }

  lemma DroppableFront(s: GroupState, t: GroupState, front: seq<Event>, e: Event, ids: set<EventId>, exact: bool)
    requires s.trace.applied <= t.trace.applied && Droppable(t, front + [e], ids, exact)
    ensures Droppable(s, front, ids, exact)
    ensures e.id in ids ==> e.id !in t.trace.applied && (exact ==> !IsMute(e))
  {
    hide IsMute;
    assert (front + [e])[|front|] == e;
  }

  lemma {:induction false} PassIgnoresDropped(s: GroupState, t: GroupState, pending: seq<Event>, ids: set<EventId>, exact: bool)
    requires Agree(s, t, exact) && Droppable(Pass(s, pending).state, pending, ids, exact)
    ensures Agree(Pass(s, pending).state, Pass(t, Drop(pending, ids)).state, exact)
    ensures Pass(t, Drop(pending, ids)).left == Drop(Pass(s, pending).left, ids)
    ensures |Pass(s, pending).left| - |Pass(t, Drop(pending, ids)).left| == |pending| - |Drop(pending, ids)|
  {
    hide Step, Agree, Refuses, IsMute, Drop, Droppable;
    if pending == [] {
      DropOfNone(ids);
    } else {
      var last := |pending| - 1;
      var front, e := pending[..last], pending[last];
      var p := Pass(s, front);
      assert pending == front + [e];
      StepApplies(p.state, e);
      DroppableFront(p.state, Pass(s, pending).state, front, e, ids, exact);
      DropSnoc(front, e, ids);
      PassIgnoresDropped(s, t, front, ids, exact);
      var q := Pass(t, Drop(front, ids));
      DropSnoc(p.left, e, ids);
      if e.id in ids {
        RefusedStepIsIdle(p.state, q.state, e, exact);
      } else {
        StepKeepsAgreement(p.state, q.state, e, exact);
        var kept := Drop(front, ids);
        assert (kept + [e])[..|kept|] == kept;
      }
    }
  }

  lemma {:induction false} PassShrinks(s: GroupState, pending: seq<Event>)
    ensures s.trace.applied <= Pass(s, pending).state.trace.applied
    ensures forall e :: e in Pass(s, pending).left ==> e in pending
  {
    if pending != [] {
      PassShrinks(s, pending[..|pending| - 1]);
    }
  }

  lemma {:induction false} SecondGrowsApplied(s: GroupState, pending: seq<Event>)
    ensures s.trace.applied <= Second(s, pending).state.trace.applied
    decreases |pending|
  {
    PassShrinks(s, pending);
    var p := Pass(s, pending);
    if |p.left| != |pending| && p.left != [] {
      SecondGrowsApplied(p.state, p.left);
    }
  }

  lemma {:induction false} SecondIgnoresDropped(s: GroupState, t: GroupState, pending: seq<Event>, ids: set<EventId>, exact: bool)
    requires Agree(s, t, exact) && Droppable(Second(s, pending).state, pending, ids, exact)
    ensures Agree(Second(s, pending).state, Second(t, Drop(pending, ids)).state, exact)
    decreases |pending|
  {
    var p := Pass(s, pending);
    PassShrinks(s, pending);
    if |p.left| != |pending| && p.left != [] {
      SecondGrowsApplied(p.state, p.left);
    }
    PassIgnoresDropped(s, t, pending, ids, exact);
    var q := Pass(t, Drop(pending, ids));
    if |p.left| != |pending| && p.left != [] {
      SecondIgnoresDropped(p.state, q.state, p.left, ids, exact);
      assert Second(q.state, []).state == q.state;
    }
  }

  // ---- over all the seconds -----------------------------------------------

  ghost predicate InTime(events: seq<Event>) {
    forall i, j :: 0 <= i < j < |events| ==> events[i].at <= events[j].at
  }

  lemma {:induction false} SecondLengthIs(head: seq<Event>, tail: seq<Event>)
    requires head != []
    requires forall i :: 0 <= i < |head| ==> head[i].at == head[0].at
    requires tail != [] ==> tail[0].at != head[0].at
    ensures SecondLength(head + tail) == |head|
  {
    var all := head + tail;
    assert forall i :: 0 <= i < |head| ==> all[i] == head[i];
    assert tail != [] ==> all[|head|] == tail[0];
  }

  /** The run over a whole second followed by the rest. */
  lemma RunSplitsSecond(s: GroupState, head: seq<Event>, tail: seq<Event>)
    requires forall i :: 0 <= i < |head| ==> head[i].at == head[0].at
    requires head != [] && tail != [] ==> tail[0].at != head[0].at
    ensures RunAll(s, head + tail) == RunAll(Second(s, head).state, tail)
  {
    if head == [] {
      assert head + tail == tail;
    } else {
      SecondLengthIs(head, tail);
      assert (head + tail)[..|head|] == head && (head + tail)[|head|..] == tail;
    }
  }

  lemma {:induction false} DropInTime(events: seq<Event>, ids: set<EventId>)
    requires InTime(events)
    ensures InTime(Drop(events, ids))
  {
    if events != [] {
      var front := events[..|events| - 1];
      DropInTime(front, ids);
      DropMembers(front, ids);
      forall e | e in Drop(front, ids) ensures e.at <= events[|events| - 1].at {
        assert e in front;
      }
    }
  }

  lemma {:induction false} RunGrowsApplied(s: GroupState, live: seq<Event>)
    ensures s.trace.applied <= RunAll(s, live).trace.applied
    decreases |live|
  {
    if live != [] {
      var n := SecondLength(live);
      SecondGrowsApplied(s, live[..n]);
      RunGrowsApplied(Second(s, live[..n]).state, live[n..]);
    }
  }

  lemma {:induction false} RunIgnoresDropped(s: GroupState, t: GroupState, live: seq<Event>, ids: set<EventId>, exact: bool)
    requires Agree(s, t, exact) && InTime(live) && Droppable(RunAll(s, live), live, ids, exact)
    ensures Agree(RunAll(s, live), RunAll(t, Drop(live, ids)), exact)
    decreases |live|
  {
    hide Agree, Second, Drop, IsMute;
    if live == [] {
      DropNothing(ids);
    } else {
      var n := SecondLength(live);
      var head, tail := live[..n], live[n..];
      assert live == head + tail;
      RunGrowsApplied(Second(s, head).state, tail);
      SecondIgnoresDropped(s, t, head, ids, exact);
      RunIgnoresDropped(Second(s, head).state, Second(t, Drop(head, ids)).state, tail, ids, exact);
      DropConcat(head, tail, ids);
      DroppedSecond(live, n, ids);
      RunSplitsSecond(t, Drop(head, ids), Drop(tail, ids));
    }
  }

  /** Dropping keeps a second together and apart from the next. */
  lemma DroppedSecond(live: seq<Event>, n: nat, ids: set<EventId>)
    requires 0 < n <= |live| && InTime(live)
    requires forall i :: 0 <= i < n ==> live[i].at == live[0].at
    requires n < |live| ==> live[n].at != live[0].at
    ensures forall e :: e in Drop(live[..n], ids) ==> e.at == live[0].at
    ensures forall e :: e in Drop(live[n..], ids) ==> e.at != live[0].at
  {
    DropMembers(live[..n], ids);
    DropMembers(live[n..], ids);
  }

  // ---- over the whole fold ------------------------------------------------

  ghost predicate Sorted(events: seq<Event>) {
    forall i, j :: 0 <= i < j < |events| ==> Before(events[i], events[j])
  }

  lemma {:induction false} InsertKeeps(sorted: seq<Event>, e: Event)
    ensures multiset(InsertSorted(sorted, e)) == multiset(sorted) + multiset{e}
    ensures forall x :: x in InsertSorted(sorted, e) <==> x in sorted || x == e
  {
    hide Before;
    if sorted != [] {
      var last := |sorted| - 1;
      assert sorted == sorted[..last] + [sorted[last]];
      InsertKeeps(sorted[..last], e);
    }
  }

  lemma {:induction false} InsertSorts(sorted: seq<Event>, e: Event)
    requires Sorted(sorted)
    ensures Sorted(InsertSorted(sorted, e))
  {
    if sorted != [] {
      var last := |sorted| - 1;
      var front, z := sorted[..last], sorted[last];
      if Before(z, e) {
        AppendSorted(sorted, e);
      } else {
        InsertSorts(front, e);
        InsertKeeps(front, e);
        AppendSorted(InsertSorted(front, e), z);
      }
    }
  }

  lemma AppendSorted(sorted: seq<Event>, z: Event)
    requires Sorted(sorted) && forall x :: x in sorted ==> Before(x, z)
    ensures Sorted(sorted + [z])
  {
    hide Before;
  }

  lemma {:induction false} SortSorts(events: seq<Event>)
    ensures Sorted(Sort(events))
    ensures multiset(Sort(events)) == multiset(events)
  {
    hide Before, Sorted, InsertSorted;
    if events == [] {
      NothingSorted();
    } else {
      var last := |events| - 1;
      SortSorts(events[..last]);
      InsertSorts(Sort(events[..last]), events[last]);
      InsertKeeps(Sort(events[..last]), events[last]);
      assert events == events[..last] + [events[last]];
    }
  }

  lemma NothingSorted()
    ensures Sorted([])
  {
  }

  /** Something not below any element goes on top. */
  lemma InsertOnTop(sorted: seq<Event>, z: Event, e: Event, ids: set<EventId>)
    requires Sorted(sorted + [z]) && Before(z, e)
    ensures InsertSorted(Drop(sorted + [z], ids), e) == Drop(sorted + [z], ids) + [e]
  {
    var kept := Drop(sorted + [z], ids);
    DropMembers(sorted + [z], ids);
    if kept != [] {
      assert kept[|kept| - 1] in sorted + [z];
    }
  }

  lemma {:induction false} DropInsert(sorted: seq<Event>, e: Event, ids: set<EventId>)
    requires Sorted(sorted)
    ensures Drop(InsertSorted(sorted, e), ids) == if e.id in ids then Drop(sorted, ids) else InsertSorted(Drop(sorted, ids), e)
  {
    hide Before;
    if sorted == [] {
      DropSnoc([], e, ids);
    } else {
      var last := |sorted| - 1;
      var front, z := sorted[..last], sorted[last];
      assert sorted == front + [z];
      if Before(z, e) {
        DropSnoc(sorted, e, ids);
        InsertOnTop(front, z, e, ids);
      } else {
        DropInsert(front, e, ids);
        DropSnoc(InsertSorted(front, e), z, ids);
        var kept := Drop(front, ids);
        assert (kept + [z])[..|kept|] == kept;
      }
    }
  }

  lemma {:induction false} DropSort(events: seq<Event>, ids: set<EventId>)
    ensures Drop(Sort(events), ids) == Sort(Drop(events, ids))
  {
    if events != [] {
      var last := |events| - 1;
      DropSort(events[..last], ids);
      SortSorts(events[..last]);
      DropInsert(Sort(events[..last]), events[last], ids);
      var kept := Drop(events[..last], ids);
      assert (kept + [events[last]])[..|kept|] == kept;
    }
  }

  /** Only actions that are not invites are dropped. */
  ghost predicate OnlyActions(group: PublicKey, events: seq<Event>, ids: set<EventId>) {
    forall e :: e in events && e.id in ids ==> IsAction(group, e) && !IsInvite(e)
  }

  lemma {:induction false} DropActions(group: PublicKey, events: seq<Event>, ids: set<EventId>)
    ensures Drop(Actions(group, events), ids) == Actions(group, Drop(events, ids))
    ensures forall e :: e in Actions(group, events) <==> e in events && IsAction(group, e)
  {
    if events != [] {
      var last := |events| - 1;
      var front, e := events[..last], events[last];
      assert events == front + [e];
      DropActions(group, front, ids);
      DropSnoc(Actions(group, front), e, ids);
      var kept := Drop(front, ids);
      assert (kept + [e])[..|kept|] == kept;
    }
  }

  lemma {:induction false} DropLive(cutoff: Timestamp, actions: seq<Event>, ids: set<EventId>)
    ensures Drop(Live(cutoff, actions), ids) == Live(cutoff, Drop(actions, ids))
  {
    hide IsLive;
    if actions != [] {
      var last := |actions| - 1;
      var front, e := actions[..last], actions[last];
      DropLive(cutoff, front, ids);
      DropSnoc(Live(cutoff, front), e, ids);
      var kept := Drop(front, ids);
      assert (kept + [e])[..|kept|] == kept;
    }
  }

  lemma {:induction false} LiveMembers(cutoff: Timestamp, actions: seq<Event>)
    ensures forall e :: e in Live(cutoff, actions) <==> e in actions && IsLive(cutoff, e)
  {
    hide IsLive;
    if actions != [] {
      var last := |actions| - 1;
      LiveMembers(cutoff, actions[..last]);
      assert actions == actions[..last] + [actions[last]];
    }
  }

  lemma {:induction false} LiveInTime(cutoff: Timestamp, actions: seq<Event>)
    requires InTime(actions)
    ensures InTime(Live(cutoff, actions))
  {
    hide IsLive;
    if actions != [] {
      var front := actions[..|actions| - 1];
      LiveInTime(cutoff, front);
      LiveMembers(cutoff, front);
      forall e | e in Live(cutoff, front) ensures e.at <= actions[|actions| - 1].at {
        assert e in front;
      }
    }
  }

  lemma {:induction false} DropKeepsNewest(group: PublicKey, kind: StateKind, events: seq<Event>, ids: set<EventId>)
    requires forall e :: e in events && e.id in ids ==> IsAction(group, e)
    ensures Newest(group, kind, Drop(events, ids)) == Newest(group, kind, events)
  {
    if events != [] {
      var last := |events| - 1;
      assert events == events[..last] + [events[last]];
      DropKeepsNewest(group, kind, events[..last], ids);
      var kept := Drop(events[..last], ids);
      assert (kept + [events[last]])[..|kept|] == kept;
    }
  }

  lemma {:induction false} DropKeepsInvites(actions: seq<Event>, ids: set<EventId>)
    requires forall e :: e in actions && e.id in ids ==> !IsInvite(e)
    ensures InvitesOf(Drop(actions, ids)) == InvitesOf(actions)
  {
    if actions != [] {
      var last := |actions| - 1;
      assert actions == actions[..last] + [actions[last]];
      DropKeepsInvites(actions[..last], ids);
      var kept := Drop(actions[..last], ids);
      assert (kept + [actions[last]])[..|kept|] == kept;
    }
  }

  lemma DropKeepsSnapshot(group: PublicKey, events: seq<Event>, ids: set<EventId>)
    requires forall e :: e in events && e.id in ids ==> IsAction(group, e)
    ensures PiecesOf(group, Drop(events, ids)) == PiecesOf(group, events)
    ensures Creators(group, Drop(events, ids)) == Creators(group, events)
  {
    DropKeepsNewest(group, MetadataKind, events, ids);
    DropKeepsNewest(group, AdminsKind, events, ids);
    DropKeepsNewest(group, MembersKind, events, ids);
    DropKeepsNewest(group, RolesKind, events, ids);
    DropMembers(events, ids);
  }

  lemma SortedActions(group: PublicKey, events: seq<Event>)
    ensures InTime(Sort(Actions(group, events)))
    ensures forall e :: e in Sort(Actions(group, events)) <==> e in events && IsAction(group, e)
  {
    SortSorts(Actions(group, events));
    DropActions(group, events, {});
    var actions := Actions(group, events);
    assert forall e :: e in Sort(actions) <==> e in multiset(Sort(actions));
    assert forall e :: e in actions <==> e in multiset(actions);
  }

  /**
    Deleting any set of non-invite actions the fold did not apply changes nothing but the
    silences, and not those either unless a mute was among them.
   */
  lemma {:induction false} RefusedActionsAreIrrelevant(group: PublicKey, events: seq<Event>, ids: set<EventId>)
    requires OnlyActions(group, events, ids)
    requires FoldEvents(group, events).Some?
    requires FoldEvents(group, events).value.trace.applied !! ids
    ensures FoldEvents(group, Drop(events, ids)).Some?
    ensures
      var exact := forall e :: e in events && e.id in ids ==> !IsMute(e);
      Agree(FoldEvents(group, events).value, FoldEvents(group, Drop(events, ids)).value, exact)
  {
    var exact := forall e :: e in events && e.id in ids ==> !IsMute(e);
    DropKeepsSnapshot(group, events, ids);
    var p := PiecesOf(group, events).value;
    var actions := Sort(Actions(group, events));
    SortedActions(group, events);
    DropActions(group, events, ids);
    DropSort(Actions(group, events), ids);
    DropKeepsInvites(actions, ids);
    DropLive(CutoffOf(p), actions, ids);
    LiveInTime(CutoffOf(p), actions);
    LiveMembers(CutoffOf(p), actions);
    var s := Initial(group, p, Creators(group, events), InvitesOf(actions));
    RunIgnoresDropped(s, s, Live(CutoffOf(p), actions), ids, exact);
  }

  /** Two peers whose stores differ only in actions each refused hold the same group. */
  lemma {:induction false} PeersAgreeDespiteRefused(group: PublicKey, a: seq<Event>, b: seq<Event>, refusedByA: set<EventId>, refusedByB: set<EventId>)
    requires DistinctIds(a) && DistinctIds(b)
    requires multiset(Drop(a, refusedByA)) == multiset(Drop(b, refusedByB))
    requires OnlyActions(group, a, refusedByA) && OnlyActions(group, b, refusedByB)
    requires FoldEvents(group, a).Some? && FoldEvents(group, a).value.trace.applied !! refusedByA
    requires FoldEvents(group, b).Some? && FoldEvents(group, b).value.trace.applied !! refusedByB
    ensures Agree(FoldEvents(group, a).value, FoldEvents(group, b).value, false)
  {
    RefusedActionsAreIrrelevant(group, a, refusedByA);
    RefusedActionsAreIrrelevant(group, b, refusedByB);
    DropDistinct(b, refusedByB);
    FoldIgnoresOrder(group, Drop(a, refusedByA), Drop(b, refusedByB));
  }
}
