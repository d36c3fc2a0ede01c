/**
  Two nodes, each of which refuses everything more the other holds, hold the same group: a
  sync both ways that takes nothing new has nothing left to bring together.
 */
module Convergence {
  import opened Group
  import opened EventLists
  import opened State
  import opened Fold
  import opened Refused
  import opened Runs
  import opened Batch
  import opened Judge
  import opened Store
  import opened Gate
  import opened Arrivals

  lemma {:induction false} AppliedWereAttempted(s: GroupState, acts: seq<Event>)
    ensures RunSteps(s, acts).trace.applied <= s.trace.applied + Ids(acts)
    ensures RunSteps(s, acts).cutoff == s.cutoff
  {
    hide State.Judge;
    if acts != [] {
      var last := |acts| - 1;
      AppliedWereAttempted(s, acts[..last]);
      assert acts == acts[..last] + [acts[last]];
    }
  }

  lemma {:induction false} CutoffIs(group: PublicKey, events: seq<Event>)
    requires PiecesOf(group, events).Some?
    ensures FoldEvents(group, events).value.cutoff == CutoffOf(PiecesOf(group, events).value)
    ensures forall e :: e in events && DistinctIds(events) && e.at < CutoffOf(PiecesOf(group, events).value) ==>
              e.id !in FoldEvents(group, events).value.trace.applied
  {
    hide FoldEvents, RunSteps, PiecesOf;
    var p := PiecesOf(group, events).value;
    var start := Initial(group, p, Creators(group, events), InvitesOf(Sort(Actions(group, events))));
    var acts := FoldIsRun(group, events);
    AppliedWereAttempted(start, acts);
    forall e | e in events && DistinctIds(events) && e.at < CutoffOf(p) ensures e.id !in Ids(acts) {
      if e.id in Ids(acts) {
        var x :| x in acts && x.id == e.id;
        SameIdSameRow(events, x, e);
      }
    }
  }

  lemma DeedKeepsPieces(group: PublicKey, rows: seq<Event>, e: Event)
    requires DistinctIds(rows + [e]) && IsDeed(group, e) && Drop(rows + [e], {e.id}) == rows
    ensures PiecesOf(group, rows + [e]) == PiecesOf(group, rows)
  {
    hide PiecesOf;
    forall x | x in rows + [e] && x.id in {e.id} ensures x == e {
      SameIdSameRow(rows + [e], x, e);
    }
    DropKeepsSnapshot(group, rows + [e], {e.id});
  }

  /** An action the gate refuses, its clock apart, is one the fold of everything held would not apply. */
  lemma {:induction false} RefusedMeansNotApplied(n: Node, g: PublicKey, e: Event, now: Timestamp)
    requires DistinctIds(n.rows) && !HasId(n.rows, e.id) && IsDeed(g, e) && e.at <= now + MAX_CLOCK_SKEW
    requires g in n.groups && n.groups[g].Some? && n.groups[g] == FoldEvents(g, n.rows)
    requires AnswerTo(n, Route(e, now)).Refused?
    ensures WouldRefuse(g, n.rows, e)
  {
    DistinctAppend(n.rows, e);
    hide FoldEvents, DistinctIds, Drop, Insert;
    assert TakesLock(e);
    if IsFolded(n.groups[g].value, e, now) {
      SomeWhenPieces(g, n.rows);
      DeedKeepsPieces(g, n.rows, e);
      hide PiecesOf;
      CutoffIs(g, n.rows);
      CutoffIs(g, n.rows + [e]);
    } else {
      assert JudgeEvent(n.groups, e, now) == FoldWith(g);
    }
  }

  // ---- down to what the fold reads ---------------------------------------------------------

  ghost function UnreadIds(g: PublicKey, rows: seq<Event>): set<EventId> {
    set e | e in rows && Unread(g, e) :: e.id
  }

  /** The rows the fold of `g` reads. */
  ghost function Read(g: PublicKey, rows: seq<Event>): seq<Event> { Drop(rows, UnreadIds(g, rows)) }

  lemma ReadMembers(g: PublicKey, rows: seq<Event>)
    requires DistinctIds(rows)
    ensures DistinctIds(Read(g, rows)) && forall e :: e in Read(g, rows) <==> e in rows && !Unread(g, e)
  {
    hide Unread;
    DropMembers(rows, UnreadIds(g, rows));
    DropDistinct(rows, UnreadIds(g, rows));
    forall e, x | e in rows && x in rows && x.id == e.id ensures x == e {
      SameIdSameRow(rows, x, e);
    }
  }

  lemma {:induction false} ReadFolds(g: PublicKey, rows: seq<Event>)
    requires DistinctIds(rows)
    ensures FoldEvents(g, Read(g, rows)) == FoldEvents(g, rows)
    ensures forall e: Event :: !HasId(rows, e.id) ==> FoldEvents(g, Read(g, rows) + [e]) == FoldEvents(g, rows + [e])
  {
    hide Unread, FoldEvents, DistinctIds;
    var ids := UnreadIds(g, rows);
    forall e | e in rows && e.id in ids ensures Unread(g, e) {
      var x :| x in rows && Unread(g, x) && x.id == e.id;
      SameIdSameRow(rows, x, e);
    }
    DropUnread(g, rows, ids);
    forall e: Event | !HasId(rows, e.id) ensures FoldEvents(g, Read(g, rows) + [e]) == FoldEvents(g, rows + [e]) {
      DistinctAppend(rows, e);
      DropSnoc(rows, e, ids);
      DropUnread(g, rows + [e], ids);
    }
  }

  // ---- two nodes ------------------------------------------------------------------------------

  /** `there` holds no more of what `g`'s fold reads, but actions `n` refuses when offered them. */
  ghost predicate RefusesRestOf(n: Node, there: Node, g: PublicKey, now: Timestamp) {
    forall e :: e in there.rows && e !in n.rows && !Unread(g, e) ==>
      IsDeed(g, e) && e.at <= now + MAX_CLOCK_SKEW && AnswerTo(n, Route(e, now)).Refused?
  }

  ghost predicate Holding(n: Node, known: set<Event>, g: PublicKey) {
    GateInv(n, known) && AtRest(n) && g in n.groups && n.groups[g].Some?
  }

  /** What the one has and the other has not. */
  ghost function Missing(g: PublicKey, here: seq<Event>, there: seq<Event>): seq<Event> {
    Drop(Read(g, there), Ids(Read(g, here)))
  }

  lemma {:induction false} MissingMembers(g: PublicKey, here: seq<Event>, there: seq<Event>, known: set<Event>)
    requires DistinctIds(here) && DistinctIds(there)
    requires forall a, b :: a in known && b in known && a.id == b.id ==> a == b
    requires forall e :: e in here || e in there ==> e in known
    ensures
      var more := Missing(g, here, there);
      && DistinctIds(Read(g, here) + more)
      && (forall e :: e in more <==> e in there && e !in here && !Unread(g, e))
      && (forall e :: e in more ==> !HasId(here, e.id))
  {
    hide Unread, Read;
    ReadMembers(g, here);
    ReadMembers(g, there);
    var a, b := Read(g, here), Read(g, there);
    DropMembers(b, Ids(a));
    DropDistinct(b, Ids(a));
    DistinctConcat(a, Missing(g, here, there));
  }

  lemma DistinctConcat(a: seq<Event>, b: seq<Event>)
    requires DistinctIds(a) && DistinctIds(b) && forall e :: e in b ==> e.id !in Ids(a)
    ensures DistinctIds(a + b)
  {
    forall i, j | 0 <= i < |a| && 0 <= j < |b| ensures a[i].id != b[j].id {
      assert a[i] in a && b[j] in b;
    }
  }

  lemma {:induction false} RefusesMissing(n: Node, there: Node, known: set<Event>, g: PublicKey, now: Timestamp)
    requires Holding(n, known, g) && Holding(there, known, g) && RefusesRestOf(n, there, g, now)
    ensures RefusesEach(g, Read(g, n.rows), Missing(g, n.rows, there.rows))
  {
    hide Unread, FoldEvents, AnswerTo, Read, Missing, IsDeed, DistinctIds;
    MissingMembers(g, n.rows, there.rows, known);
    ReadFolds(g, n.rows);
    forall e | e in Missing(g, n.rows, there.rows) ensures IsDeed(g, e) && WouldRefuse(g, Read(g, n.rows), e) {
      RefusedMeansNotApplied(n, g, e, now);
    }
  }

  /** Two nodes at rest, each refusing all the other holds and it does not, agree on the group. */
  lemma {:induction false} RefusingNodesAgree(n: Node, m: Node, known: set<Event>, g: PublicKey, now: Timestamp)
    requires Holding(n, known, g) && Holding(m, known, g)
    requires RefusesRestOf(n, m, g, now) && RefusesRestOf(m, n, g, now)
    ensures Agree(n.groups[g].value, m.groups[g].value, false)
  {
    RefusesMissing(n, m, known, g, now);
    RefusesMissing(m, n, known, g, now);
    hide Unread, FoldEvents, RefusesRestOf, Read, Missing, Agree, RefusesEach;
    MissingMembers(g, n.rows, m.rows, known);
    MissingMembers(g, m.rows, n.rows, known);
    ReadMembers(g, n.rows);
    ReadMembers(g, m.rows);
    ReadFolds(g, n.rows);
    ReadFolds(g, m.rows);
    var a, b := Read(g, n.rows), Read(g, m.rows);
    assert forall e :: e in a + Missing(g, n.rows, m.rows) <==> e in b + Missing(g, m.rows, n.rows);
    SameMembersSameBag(a + Missing(g, n.rows, m.rows), b + Missing(g, m.rows, n.rows));
    RefusingStoresAgree(g, a, b, Missing(g, n.rows, m.rows), Missing(g, m.rows, n.rows));
  }
}
