/** Lists of events: ids, and leaving some out. */
module EventLists {
  import opened Group

  /** No two entries are the same event. */
  ghost predicate DistinctIds(events: seq<Event>) {
    forall i, j :: 0 <= i < j < |events| ==> events[i].id != events[j].id
  }

  function Ids(events: seq<Event>): set<EventId> {
    set e | e in events :: e.id
  }

  lemma IdsSnoc(events: seq<Event>, e: Event)
    requires DistinctIds(events) && e.id !in Ids(events)
    ensures Ids(events + [e]) == Ids(events) + {e.id} && DistinctIds(events + [e])
  {
    forall i | 0 <= i < |events| ensures events[i].id != e.id {
      assert events[i] in events && events[i].id in Ids(events);
    }
  }

  function Drop(events: seq<Event>, ids: set<EventId>): seq<Event> {
    if events == [] then []
    else
      var e := events[|events| - 1];
      var rest := Drop(events[..|events| - 1], ids);
      if e.id in ids then rest else rest + [e]
  }

  lemma DropSnoc(events: seq<Event>, e: Event, ids: set<EventId>)
    ensures Drop(events + [e], ids) == if e.id in ids then Drop(events, ids) else Drop(events, ids) + [e]
  {
    assert (events + [e])[..|events|] == events;
  }

  lemma {:induction false} DropConcat(a: seq<Event>, b: seq<Event>, ids: set<EventId>)
    ensures Drop(a + b, ids) == Drop(a, ids) + Drop(b, ids)
  {
    if b == [] {
      assert a + b == a;
    } else {
      var last := |b| - 1;
      assert a + b == a + b[..last] + [b[last]];
      DropSnoc(a + b[..last], b[last], ids);
      DropConcat(a, b[..last], ids);
    }
  }

  lemma {:induction false} DropMembers(events: seq<Event>, ids: set<EventId>)
    ensures forall e :: e in Drop(events, ids) <==> e in events && e.id !in ids
  {
    if events != [] {
      var last := |events| - 1;
      DropMembers(events[..last], ids);
      assert events == events[..last] + [events[last]];
    }
  }

  lemma {:induction false} DropDistinct(events: seq<Event>, ids: set<EventId>)
    requires DistinctIds(events)
    ensures DistinctIds(Drop(events, ids))
  {
    if events != [] {
      var front := events[..|events| - 1];
      DropDistinct(front, ids);
      DropMembers(front, ids);
      forall e | e in Drop(front, ids) ensures e.id != events[|events| - 1].id {
        assert e in front;
      }
    }
  }

  lemma DropNothing(ids: set<EventId>)
    ensures Drop([], ids) == []
  {
  }

  lemma {:induction false} DropNone(events: seq<Event>, ids: set<EventId>)
    requires forall e :: e in events ==> e.id !in ids
    ensures Drop(events, ids) == events
  {
    if events != [] {
      DropNone(events[..|events| - 1], ids);
    }
  }

  lemma {:induction false} DistinctCounts(events: seq<Event>, e: Event)
    requires DistinctIds(events)
    ensures multiset(events)[e] == if e in events then 1 else 0
  {
    if events != [] {
      var last := |events| - 1;
      DistinctCounts(events[..last], e);
      assert events == events[..last] + [events[last]];
    }
  }

  /** Without repetition, the same members make the same bag. */
  lemma SameMembersSameBag(a: seq<Event>, b: seq<Event>)
    requires DistinctIds(a) && DistinctIds(b) && forall e :: e in a <==> e in b
    ensures multiset(a) == multiset(b)
  {
    forall e ensures multiset(a)[e] == multiset(b)[e] {
      DistinctCounts(a, e);
      DistinctCounts(b, e);
    }
  }
}
