/**
  What the store ends up with, kind by kind: words and actions all stay, and of profiles, bindings
  and pieces of a group's state the last word of each author.
 */
module Slots {
  import opened Group
  import opened Replace
  import opened Store

  /** Which of the four pieces of state it is; what cannot be read goes with the first. */
  function PieceNumber(b: Body): nat
    requires b.StateBody? || b.MalformedState?
  {
    if b.MalformedState? then 0
    else
      match b.piece
      case Metadata(_, _, _, _, _, _) => 0
      case Admins(_, _) => 1
      case Members(_, _, _) => 2
      case Roles(_) => 3
  }

  predicate IsState(e: Event) { e.body.StateBody? || e.body.MalformedState? }

  /** The device a binding names, none being the empty text. */
  function DeviceOf(e: Event): string
    requires e.body.Binding?
  {
    if e.body.tags.device.Some? then e.body.tags.device.value else ""
  }

  /** One of them takes the other's place: one author's profiles, their bindings of one device, or the pieces of a kind of one group. */
  predicate Competes(a: Event, b: Event) {
    && a.author == b.author
    && (|| (a.body.Profile? && b.body.Profile?)
        || (a.body.Binding? && b.body.Binding? && DeviceOf(a) == DeviceOf(b))
        || (IsState(a) && IsState(b) && a.group == b.group && PieceNumber(a.body) == PieceNumber(b.body))
        || (a.body.OtherBody? && b.body.OtherBody? && a.body.number == b.body.number
            && (a.body.number == 3 || 10000 <= a.body.number < 20000
                || (30000 <= a.body.number < 40000 && a.group == b.group))))
  }

  /** Presence, and kinds from 20000 to 29999, are passed on and not kept. */
  predicate Kept(e: Event) { !e.body.Presence? && !(e.body.OtherBody? && 20000 <= e.body.number < 30000) }

  lemma CompetesExactly(a: Event, b: Event)
    ensures SameSlot(a, b) <==> Competes(a, b)
    ensures SlotOf(a).Ephemeral? <==> !Kept(a)
  {
    Numbers(a.body);
    Numbers(b.body);
  }

  lemma Numbers(b: Body)
    ensures IsPieceBody(b) ==> KindNumber(b) == 39000 + PieceNumber(b)
    ensures 39000 <= KindNumber(b) <= 39003 <==> IsPieceBody(b)
    ensures b.OtherBody? ==> KindNumber(b) == b.number
    ensures KindNumber(b) == 30436 <==> b.Binding?
    ensures KindNumber(b) == 0 <==> b.Profile?
  {
  }

  predicate IsPieceBody(b: Body) { b.StateBody? || b.MalformedState? }

  /** Later, or as late with the lower id. */
  predicate Newer(e: Event, f: Event) { e.at > f.at || (e.at == f.at && e.id < f.id) }

  /** A piece of state wins by its counter before its date; on a tie a revocation beats a binding. */
  predicate Wins(e: Event, f: Event)
    requires Competes(e, f)
  {
    if e.body.StateBody? && f.body.StateBody? then
      e.body.seqNo > f.body.seqNo || (e.body.seqNo == f.body.seqNo && Newer(e, f))
    else if IsState(e) && IsState(f) then
      e.body.StateBody? || (f.body.MalformedState? && Newer(e, f))
    else if e.body.Binding? && f.body.Binding? && e.body.tags.revoked != f.body.tags.revoked && e.at == f.at then
      e.body.tags.revoked
    else Newer(e, f)
  }

  lemma WinsExactly(e: Event, f: Event)
    requires Competes(e, f)
    ensures Replaces(e, f) <==> Wins(e, f)
  {
    Numbers(e.body);
    Numbers(f.body);
  }

  /** The store holds what is kept at all and wins against every other arrival it competes with. */
  lemma {:induction false} StoredIsWinner(arrivals: seq<Event>, e: Event)
    requires IdsName(arrivals)
    ensures e in InsertAll(arrivals) <==>
            e in arrivals && Kept(e) && forall f :: f in arrivals && f != e && Competes(f, e) ==> Wins(e, f)
  {
    hide InsertAll, SameSlot, Replaces, Wins, Competes, Kept, SlotOf;
    StoreHoldsTheNewest(arrivals, e);
    if e in arrivals {
      CompetesExactly(e, e);
      forall f | f in arrivals ensures SameSlot(f, e) <==> Competes(f, e) {
        CompetesExactly(f, e);
      }
      forall f | f in arrivals && Competes(f, e) ensures Competes(e, f) && (Replaces(e, f) <==> Wins(e, f)) {
        CompetesEitherWay(f, e);
        WinsExactly(e, f);
      }
      assert Survives(e, arrivals) <==> Kept(e) && forall f :: f in arrivals && f != e && Competes(f, e) ==> Wins(e, f);
    }
  }

  lemma CompetesEitherWay(a: Event, b: Event)
    ensures Competes(a, b) ==> Competes(b, a)
  {
  }
}
