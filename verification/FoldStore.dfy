/**
  The fold over a store: rows it does not read, and state pieces a newer one has replaced, may
  come and go. So a store that keeps one row per slot folds to what all arrivals fold to.
 */
module FoldStore {
  import opened Prelude
  import opened Group
  import opened EventLists
  import opened Replace
  import opened Fold
  import opened FoldOrder
  import opened Refused
  import Store

  lemma {:induction false} NewestIs(group: PublicKey, kind: StateKind, events: seq<Event>, top: Event)
    requires top in events && IsPiece(group, kind, top)
    requires forall f :: f in events && IsPiece(group, kind, f) && f != top ==> Replaces(top, f)
    ensures Newest(group, kind, events) == Some(top)
  {
    hide IsPiece, Replaces;
    var last := |events| - 1;
    var front, e := events[..last], events[last];
    assert events == front + [e];
    NewestIsPiece(group, kind, front);
    if top in front {
      NewestIs(group, kind, front, top);
      if IsPiece(group, kind, e) {
        TopIsNotReplaced(group, kind, top, e);
      }
    } else {
      var best := Newest(group, kind, front);
      if best.Some? {
        assert best.value in events;
      }
    }
  }

  lemma TopIsNotReplaced(group: PublicKey, kind: StateKind, top: Event, e: Event)
    requires IsPiece(group, kind, top) && IsPiece(group, kind, e) && (e == top || Replaces(top, e))
    ensures !Replaces(e, top)
  {
    PiecesShareKind(group, kind, top, e);
    ReplacesIsStrictTotalOrder(top, e, top);
    ReplacesIsStrictTotalOrder(e, top, e);
  }

  /** The newest piece replaces every other one. */
  lemma {:induction false} NewestReplacesAll(group: PublicKey, kind: StateKind, events: seq<Event>, f: Event)
    requires DistinctIds(events) && f in events && IsPiece(group, kind, f)
    ensures Newest(group, kind, events).Some?
    ensures f == Newest(group, kind, events).value || Replaces(Newest(group, kind, events).value, f)
  {
    hide Replaces;
    var last := |events| - 1;
    var front, e := events[..last], events[last];
    assert events == front + [e];
    NewestIsPiece(group, kind, front);
    var best := Newest(group, kind, front);
    if f in front {
      NewestReplacesAll(group, kind, front, f);
      if IsPiece(group, kind, e) {
        PiecesShareKind(group, kind, e, best.value);
        PiecesShareKind(group, kind, best.value, f);
        ReplacesIsStrictTotalOrder(e, best.value, f);
      }
    } else if best.Some? {
      PiecesShareKind(group, kind, e, best.value);
      assert best.value in front;
      ReplacesIsStrictTotalOrder(e, best.value, e);
    }
  }

  /** Read by the fold of `group` as an action or a creation. */
  predicate ReadsAlways(group: PublicKey, e: Event) {
    IsAction(group, e) || (OfGroup(group, e) && e.body.CreateGroup?)
  }

  /** Some kept piece of the same kind replaces `e`. */
  ghost predicate Superseded(group: PublicKey, kind: StateKind, events: seq<Event>, ids: set<EventId>, e: Event) {
    exists f :: f in events && f.id !in ids && IsPiece(group, kind, f) && Replaces(f, e)
  }

  /** Everything dropped is unread, or a superseded piece. */
  ghost predicate Idle(group: PublicKey, events: seq<Event>, ids: set<EventId>) {
    forall e :: e in events && e.id in ids ==>
      !ReadsAlways(group, e) && forall kind :: IsPiece(group, kind, e) ==> Superseded(group, kind, events, ids, e)
  }

  lemma {:induction false} DropIdleNewest(group: PublicKey, kind: StateKind, events: seq<Event>, ids: set<EventId>)
    requires DistinctIds(events) && Idle(group, events, ids)
    ensures Newest(group, kind, Drop(events, ids)) == Newest(group, kind, events)
  {
    hide Replaces, IsPiece, ReadsAlways;
    DropMembers(events, ids);
    NewestIsPiece(group, kind, events);
    NewestIsPiece(group, kind, Drop(events, ids));
    var best := Newest(group, kind, events);
    if best.Some? {
      if best.value.id in ids {
        var f :| f in events && f.id !in ids && IsPiece(group, kind, f) && Replaces(f, best.value);
        NewestReplacesAll(group, kind, events, f);
        TopIsNotReplaced(group, kind, best.value, f);
      }
      forall f | f in Drop(events, ids) && IsPiece(group, kind, f) && f != best.value ensures Replaces(best.value, f) {
        NewestReplacesAll(group, kind, events, f);
      }
      NewestIs(group, kind, Drop(events, ids), best.value);
    } else if Newest(group, kind, Drop(events, ids)).Some? {
      NewestReplacesAll(group, kind, events, Newest(group, kind, Drop(events, ids)).value);
    }
  }

  /** Dropping what the fold does not read, or reads as replaced, changes nothing at all. */
  lemma {:induction false} DropIdle(group: PublicKey, events: seq<Event>, ids: set<EventId>)
    requires DistinctIds(events) && Idle(group, events, ids)
    ensures FoldEvents(group, Drop(events, ids)) == FoldEvents(group, events)
  {
    hide Replaces, IsPiece;
    DropIdleNewest(group, MetadataKind, events, ids);
    DropIdleNewest(group, AdminsKind, events, ids);
    DropIdleNewest(group, MembersKind, events, ids);
    DropIdleNewest(group, RolesKind, events, ids);
    DropMembers(events, ids);
    assert Creators(group, Drop(events, ids)) == Creators(group, events);
    DropActions(group, events, ids);
    DropNone(Actions(group, events), ids);
  }

  /** The arrivals a store let go of: none the fold reads but pieces another kept piece replaced. */
  lemma {:induction false} LostIsIdle(group: PublicKey, arrivals: seq<Event>, rows: seq<Event>, ids: set<EventId>)
    requires Store.NewestPerSlot(rows, arrivals) && DistinctIds(arrivals) && forall e :: e in arrivals ==> !e.body.MalformedState?
    requires ids == set e | e in arrivals && e !in rows :: e.id
    ensures Idle(group, arrivals, ids)
  {
    hide Replaces, IsPiece, ReadsAlways, SameSlot;
    forall e | e in arrivals && e.id in ids
      ensures !ReadsAlways(group, e) && forall kind :: IsPiece(group, kind, e) ==> Superseded(group, kind, arrivals, ids, e)
    {
      var lost :| lost in arrivals && lost !in rows && lost.id == e.id;
      assert lost == e;
      RegularWhenRead(group, e);
      forall kind | IsPiece(group, kind, e) ensures Superseded(group, kind, arrivals, ids, e) {
        PieceIsSlotted(group, kind, e);
        var c :| c in rows && SameSlot(c, e) && Store.Beats(c, e);
        SlotOfPiece(group, kind, e, c);
        assert forall x :: x in arrivals && x.id == c.id ==> x == c;
      }
    }
  }

  lemma RegularWhenRead(group: PublicKey, e: Event)
    ensures ReadsAlways(group, e) ==> SlotOf(e).Regular?
  {
  }

  lemma PieceIsSlotted(group: PublicKey, kind: StateKind, e: Event)
    ensures IsPiece(group, kind, e) ==> Store.Slotted(e)
  {
  }

  /**
    A store keeping one row per slot folds to what every event it was ever given folds to,
    in whatever order they came.
   */
  lemma {:induction false} StoreFoldsLikeItsArrivals(group: PublicKey, arrivals: seq<Event>)
    requires DistinctIds(arrivals) && forall e :: e in arrivals ==> !e.body.MalformedState?
    ensures FoldEvents(group, Store.InsertAll(arrivals)) == FoldEvents(group, arrivals)
  {
    hide FoldEvents, Store.InsertAll, Idle;
    var rows := Store.InsertAll(arrivals);
    DistinctIdsName(arrivals);
    Store.InsertAllIsNewest(arrivals);
    var ids := set e | e in arrivals && e !in rows :: e.id;
    LostIsIdle(group, arrivals, rows, ids);
    DropIdle(group, arrivals, ids);
    KeptAreRows(arrivals, rows, ids);
    FoldIgnoresOrder(group, Drop(arrivals, ids), rows);
  }

  lemma KeptAreRows(arrivals: seq<Event>, rows: seq<Event>, ids: set<EventId>)
    requires DistinctIds(arrivals) && DistinctIds(rows) && forall e :: e in rows ==> e in arrivals
    requires ids == set e | e in arrivals && e !in rows :: e.id
    ensures multiset(Drop(arrivals, ids)) == multiset(rows)
  {
    var kept := Drop(arrivals, ids);
    DropMembers(arrivals, ids);
    DropDistinct(arrivals, ids);
    assert forall e :: e in kept <==> e in rows;
    SameMembersSameBag(kept, rows);
  }

  lemma DistinctIdsName(events: seq<Event>)
    requires DistinctIds(events)
    ensures Store.IdsName(events)
  {
  }

  /** What shares a piece's slot is a piece of the same kind. */
  lemma SlotOfPiece(group: PublicKey, kind: StateKind, e: Event, c: Event)
    ensures IsPiece(group, kind, e) && SameSlot(c, e) && !c.body.MalformedState? ==> IsPiece(group, kind, c)
  {
  }
}
