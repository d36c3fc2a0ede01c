/**
  The event store as a table of rows (crates/hit-store/src/lib.rs): insertion with one row per
  slot, withdrawal by the author, and that what a slot ends up holding does not depend on the
  order of arrival.
 */
module Store {
  import opened Prelude
  import opened Group
  import opened EventLists
  import opened Replace

  datatype Stored = New | Duplicate | Stale | NotKept

  datatype Inserted = Inserted(rows: seq<Event>, outcome: Stored)

  predicate HasId(rows: seq<Event>, id: EventId) {
    exists e :: e in rows && e.id == id
  }

  /** The row in `e`'s slot, if any. */
  function CurrentIn(rows: seq<Event>, e: Event): Option<Event> {
    if rows == [] then None
    else if SameSlot(rows[0], e) then Some(rows[0])
    else CurrentIn(rows[1..], e)
  }

  function Insert(rows: seq<Event>, e: Event): Inserted {
    if SlotOf(e).Ephemeral? then Inserted(rows, NotKept)
    else
      var current := if SlotOf(e).Regular? then None else CurrentIn(rows, e);
      if current.Some? && current.value.id == e.id then Inserted(rows, Duplicate)
      else if current.Some? && !Replaces(e, current.value) then Inserted(rows, Stale)
      else if HasId(rows, e.id) then Inserted(rows, Duplicate)
      else Inserted((if current.Some? then Drop(rows, {current.value.id}) else rows) + [e], New)
  }

  predicate Deletable(e: Event) { e.body.Chat? || e.body.Reaction? }

  /** The rows a kind-5 event withdraws: those it names that are its author's own words. */
  function Withdrawn(rows: seq<Event>, deletion: Event): set<EventId>
    requires deletion.body.Deletion?
  {
    set e | e in rows && e.id in deletion.body.withdrawn && e.author == deletion.author && Deletable(e) :: e.id
  }

  /** Has `author` withdrawn `id`? */
  predicate IsDeleted(rows: seq<Event>, id: EventId, author: PublicKey) {
    exists d :: d in rows && d.body.Deletion? && d.author == author && id in d.body.withdrawn
  }

  // ---- what a slot holds --------------------------------------------------------

  lemma DropKeeps(rows: seq<Event>, ids: set<EventId>)
    ensures forall e :: e in Drop(rows, ids) <==> e in rows && e.id !in ids
    ensures DistinctIds(rows) ==> DistinctIds(Drop(rows, ids))
  {
    DropMembers(rows, ids);
    if DistinctIds(rows) {
      DropDistinct(rows, ids);
    }
  }

  lemma {:induction false} CurrentInFinds(rows: seq<Event>, e: Event)
    ensures CurrentIn(rows, e).Some? ==> CurrentIn(rows, e).value in rows && SameSlot(CurrentIn(rows, e).value, e)
    ensures CurrentIn(rows, e).None? ==> forall r :: r in rows ==> !SameSlot(r, e)
  {
    if rows != [] {
      CurrentInFinds(rows[1..], e);
      assert rows == [rows[0]] + rows[1..];
    }
  }

  /** Ids name events: the same id is the same event. */
  ghost predicate IdsName(events: seq<Event>) {
    forall a, b :: a in events && b in events && a.id == b.id ==> a == b
  }

  ghost predicate Slotted(e: Event) { SlotOf(e).Replaceable? || SlotOf(e).Addressable? }

  ghost predicate Beats(c: Event, e: Event) { c == e || Replaces(c, e) }

  /** The rows are among the arrivals, one per slot, and each slot's row beats every arrival in it. */
  ghost predicate NewestPerSlot(rows: seq<Event>, arrivals: seq<Event>) {
    && DistinctIds(rows)
    && (forall e :: e in rows ==> e in arrivals && !SlotOf(e).Ephemeral?)
    && (forall a, b :: a in rows && b in rows && SameSlot(a, b) ==> a == b)
    && (forall e :: e in arrivals && SlotOf(e).Regular? ==> e in rows)
    && (forall e :: e in arrivals && Slotted(e) ==> exists c :: c in rows && SameSlot(c, e) && Beats(c, e))
  }

  lemma SameSlotIsEquivalence(a: Event, b: Event, c: Event)
    ensures SameSlot(a, b) ==> SameSlot(b, a) && (SameSlot(b, c) ==> SameSlot(a, c)) && SameKind(a, b)
  {
  }

  lemma BeatsIsTransitive(a: Event, b: Event, c: Event)
    requires SameSlot(a, b) && SameSlot(b, c) && Beats(a, b) && Beats(b, c)
    ensures Beats(a, c)
  {
    SameSlotIsEquivalence(a, b, c);
    SameSlotIsEquivalence(b, c, c);
    ReplacesIsStrictTotalOrder(a, b, c);
  }

  lemma {:induction false} AppendRow(rows: seq<Event>, arrivals: seq<Event>, e: Event)
    requires NewestPerSlot(rows, arrivals) && !SlotOf(e).Ephemeral? && !HasId(rows, e.id)
    requires forall r :: r in rows ==> !SameSlot(r, e)
    ensures NewestPerSlot(rows + [e], arrivals + [e])
  {
    hide Replaces, SlotOf;
    forall r | r in rows ensures !SameSlot(e, r) {
      if SameSlot(e, r) {
        SameSlotIsEquivalence(e, r, r);
      }
    }
    if Slotted(e) {
      assert SameSlot(e, e);
    }
    var all := rows + [e];
    forall x | x in arrivals + [e] && Slotted(x) ensures exists c :: c in all && SameSlot(c, x) && Beats(c, x) {
      if x in arrivals {
        var c :| c in rows && SameSlot(c, x) && Beats(c, x);
        assert c in all;
      } else {
        assert e in all && SameSlot(e, x) && Beats(e, x);
      }
    }
    forall i | 0 <= i < |rows| ensures rows[i].id != e.id {
      assert rows[i] in rows;
    }
  }

  /** A row that gives way to `e`, and `e` in its place. */
  lemma {:induction false} ReplaceRow(rows: seq<Event>, arrivals: seq<Event>, current: Event, e: Event)
    requires NewestPerSlot(rows, arrivals) && current in rows && SameSlot(current, e) && Replaces(e, current) && !HasId(rows, e.id)
    ensures NewestPerSlot(Drop(rows, {current.id}) + [e], arrivals + [e])
  {
    hide Replaces, SlotOf;
    var kept := Drop(rows, {current.id});
    var all := kept + [e];
    DropKeeps(rows, {current.id});
    SameSlotIsEquivalence(current, e, e);
    forall r | r in kept ensures !SameSlot(r, e) && !SameSlot(e, r) && r.id != e.id {
      assert r in rows;
      if SameSlot(r, e) {
        SameSlotIsEquivalence(r, e, current);
      }
      if SameSlot(e, r) {
        SameSlotIsEquivalence(current, e, r);
      }
    }
    assert !SlotOf(e).Regular? && !SlotOf(e).Ephemeral?;
    forall x | x in arrivals && SlotOf(x).Regular? ensures x in all {
      assert x in rows;
      if x.id == current.id {
        SameIdSameRow(rows, x, current);
      }
    }
    forall x | x in arrivals + [e] && Slotted(x) ensures exists c :: c in all && SameSlot(c, x) && Beats(c, x) {
      if x == e {
        assert e in all && SameSlot(e, e);
      } else {
        var c :| c in rows && SameSlot(c, x) && Beats(c, x);
        if c.id == current.id {
          SameIdSameRow(rows, c, current);
          SameSlotIsEquivalence(e, current, x);
          BeatsIsTransitive(e, current, x);
          assert e in all;
        } else {
          assert c in all;
        }
      }
    }
    forall i | 0 <= i < |kept| ensures kept[i].id != e.id {
      assert kept[i] in kept;
    }
  }

  lemma SameIdSameRow(rows: seq<Event>, a: Event, b: Event)
    ensures DistinctIds(rows) && a in rows && b in rows && a.id == b.id ==> a == b
  {
  }

  /** An arrival the rows already answer for. */
  lemma {:induction false} KeepRows(rows: seq<Event>, arrivals: seq<Event>, e: Event)
    requires NewestPerSlot(rows, arrivals)
    requires SlotOf(e).Regular? ==> e in rows
    requires Slotted(e) ==> exists c :: c in rows && SameSlot(c, e) && Beats(c, e)
    ensures NewestPerSlot(rows, arrivals + [e])
  {
    hide Replaces, SlotOf;
    forall x | x in arrivals + [e] && Slotted(x) ensures exists c :: c in rows && SameSlot(c, x) && Beats(c, x) {
      if x in arrivals {
      } else {
        assert x == e;
      }
    }
  }

  lemma {:induction false} InsertKeepsNewest(rows: seq<Event>, arrivals: seq<Event>, e: Event)
    requires NewestPerSlot(rows, arrivals) && IdsName(arrivals + [e])
    ensures NewestPerSlot(Insert(rows, e).rows, arrivals + [e])
  {
    hide Replaces, NewestPerSlot, SameSlot;
    assert e in arrivals + [e];
    forall r | r in rows && r.id == e.id ensures r == e {
      assert r in arrivals + [e] by { RowsArrived(rows, arrivals, r); }
    }
    var regular := SlotOf(e).Regular?;
    var current := if regular then None else CurrentIn(rows, e);
    CurrentInFinds(rows, e);
    if SlotOf(e).Ephemeral? {
      KeepRows(rows, arrivals, e);
    } else if current.Some? && current.value.id == e.id {
      KeepRows(rows, arrivals, e);
    } else if current.Some? && !Replaces(e, current.value) {
      SameSlotIsEquivalence(current.value, e, e);
      ReplacesIsStrictTotalOrder(e, current.value, e);
      KeepRows(rows, arrivals, e);
    } else if HasId(rows, e.id) {
      assert e in rows;
      RegularHasNoSlot(e);
      if Slotted(e) {
        SlottedIsInItsSlot(e);
      }
      KeepRows(rows, arrivals, e);
    } else if current.Some? {
      ReplaceRow(rows, arrivals, current.value, e);
    } else {
      RegularHasNoSlot(e);
      AppendRow(rows, arrivals, e);
    }
  }

  lemma RowsArrived(rows: seq<Event>, arrivals: seq<Event>, r: Event)
    ensures NewestPerSlot(rows, arrivals) && r in rows ==> r in arrivals
  {
  }

  lemma RegularHasNoSlot(e: Event)
    ensures SlotOf(e).Regular? ==> forall r :: !SameSlot(r, e)
  {
  }

  lemma SlottedIsInItsSlot(e: Event)
    ensures Slotted(e) ==> SameSlot(e, e)
  {
  }

  function InsertAll(arrivals: seq<Event>): seq<Event> {
    if arrivals == [] then []
    else Insert(InsertAll(arrivals[..|arrivals| - 1]), arrivals[|arrivals| - 1]).rows
  }

  lemma {:induction false} InsertAllIsNewest(arrivals: seq<Event>)
    requires IdsName(arrivals)
    ensures NewestPerSlot(InsertAll(arrivals), arrivals)
  {
    if arrivals != [] {
      var last := |arrivals| - 1;
      InsertAllIsNewest(arrivals[..last]);
      assert arrivals == arrivals[..last] + [arrivals[last]];
      InsertKeepsNewest(InsertAll(arrivals[..last]), arrivals[..last], arrivals[last]);
    }
  }

  /** Among the arrivals, kept at all, and replacing every other one in its slot. */
  ghost predicate Survives(e: Event, arrivals: seq<Event>) {
    && e in arrivals && !SlotOf(e).Ephemeral?
    && forall f :: f in arrivals && SameSlot(f, e) && f != e ==> Replaces(e, f)
  }

  /**
    Whatever order events arrive in, and however often, the store ends up holding every
    regular event and, per slot, the one that replaces all others.
   */
  lemma {:induction false} StoreHoldsTheNewest(arrivals: seq<Event>, e: Event)
    requires IdsName(arrivals)
    ensures e in InsertAll(arrivals) <==> Survives(e, arrivals)
  {
    hide Replaces, SlotOf;
    InsertAllIsNewest(arrivals);
    var rows := InsertAll(arrivals);
    if e in rows {
      forall f | f in arrivals && SameSlot(f, e) && f != e ensures Replaces(e, f) {
        SameSlotIsEquivalence(f, e, e);
        var c :| c in rows && SameSlot(c, f) && Beats(c, f);
        SameSlotIsEquivalence(c, f, e);
      }
    }
    if Survives(e, arrivals) && !SlotOf(e).Regular? {
      var c :| c in rows && SameSlot(c, e) && Beats(c, e);
      SameSlotIsEquivalence(c, e, e);
      ReplacesIsStrictTotalOrder(c, e, c);
    }
  }

  /** Two stores fed the same events hold the same events. */
  lemma {:induction false} StoresAgree(a: seq<Event>, b: seq<Event>)
    requires IdsName(a) && forall e :: e in a <==> e in b
    ensures forall e :: e in InsertAll(a) <==> e in InsertAll(b)
  {
    forall e ensures e in InsertAll(a) <==> e in InsertAll(b) {
      StoreHoldsTheNewest(a, e);
      StoreHoldsTheNewest(b, e);
    }
  }

  // ---- the table itself ------------------------------------------------------------

  class EventTable {
    var rows: seq<Event>

    constructor ()
      ensures rows == []
    {
      rows := [];
    }

    method Remove(ids: set<EventId>)
      modifies this
      ensures rows == Drop(old(rows), ids)
    {
      var kept: seq<Event> := [];
      for i := 0 to |rows|
        invariant rows == old(rows) && kept == Drop(rows[..i], ids)
      {
        assert rows[..i + 1][..i] == rows[..i];
        if rows[i].id !in ids {
          kept := kept + [rows[i]];
        }
      }
      assert rows[..|rows|] == rows;
      rows := kept;
    }

    method Find(e: Event) returns (current: Option<Event>)
      ensures current == CurrentIn(rows, e)
    {
      for i := 0 to |rows|
        invariant CurrentIn(rows, e) == CurrentIn(rows[i..], e)
      {
        assert rows[i..][1..] == rows[i + 1..];
        if SameSlot(rows[i], e) {
          return Some(rows[i]);
        }
      }
      assert rows[|rows|..] == [];
      current := None;
    }

    method Put(e: Event) returns (outcome: Stored)
      modifies this
      ensures Inserted(rows, outcome) == Insert(old(rows), e)
    {
      var slot := SlotOf(e);
      if slot.Ephemeral? {
        return NotKept;
      }
      var gone: set<EventId> := {};
      if !slot.Regular? {
        var current := Find(e);
        if current.Some? {
          if current.value.id == e.id {
            return Duplicate;
          }
          if !Replaces(e, current.value) {
            return Stale;
          }
          gone := {current.value.id};
        }
      }
      if HasId(rows, e.id) {
        return Duplicate;
      }
      if gone != {} {
        Remove(gone);
      }
      rows := rows + [e];
      outcome := New;
    }

    /** Applies a stored kind-5 event; returns the ids withdrawn. */
    method Withdraw(deletion: Event) returns (gone: set<EventId>)
      requires deletion.body.Deletion?
      modifies this
      ensures gone == Withdrawn(old(rows), deletion) && rows == Drop(old(rows), gone)
    {
      gone := {};
      for i := 0 to |rows|
        invariant rows == old(rows) && gone == Withdrawn(rows[..i], deletion)
      {
        var e := rows[i];
        assert rows[..i + 1] == rows[..i] + [e];
        if e.id in deletion.body.withdrawn && e.author == deletion.author && Deletable(e) {
          gone := gone + {e.id};
        }
      }
      assert rows[..|rows|] == rows;
      Remove(gone);
    }
  }
}
