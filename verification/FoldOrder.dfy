/** Replicas agree: the fold depends on the set of events, not on the order they arrived in. */
module FoldOrder {
  import opened Prelude
  import opened Group
  import opened EventLists
  import opened Replace
  import opened Fold

  function FoldLeft<S>(step: (S, Event) -> S, init: S, events: seq<Event>): S {
    if events == [] then init
    else step(FoldLeft(step, init, events[..|events| - 1]), events[|events| - 1])
  }

  ghost predicate Commutes<S(!new)>(step: (S, Event) -> S) {
    forall s: S, x: Event, y: Event :: x.id != y.id ==> step(step(s, x), y) == step(step(s, y), x)
  }

  /** Under a commuting step, any one event may be taken last. */
  lemma {:induction false} TakeLast<S(!new)>(step: (S, Event) -> S, init: S, events: seq<Event>, i: nat)
    requires Commutes(step) && DistinctIds(events) && i < |events|
    ensures FoldLeft(step, init, events) == step(FoldLeft(step, init, events[..i] + events[i + 1..]), events[i])
  {
    var last := |events| - 1;
    if i == last {
      assert events[..i] + events[i + 1..] == events[..last];
    } else {
      var front := events[..last];
      TakeLast(step, init, front, i);
      var without := events[..i] + events[i + 1..];
      assert without[..|without| - 1] == front[..i] + front[i + 1..];
      assert without[|without| - 1] == events[last];
    }
  }

  /** Where the last event of `a` sits in a rearrangement of `a`. */
  lemma FindLast(a: seq<Event>, b: seq<Event>) returns (i: nat)
    requires a != [] && multiset(a) == multiset(b)
    ensures i < |b| && b[i] == a[|a| - 1]
    ensures multiset(b[..i] + b[i + 1..]) == multiset(a[..|a| - 1])
  {
    var last := |a| - 1;
    assert a == a[..last] + [a[last]];
    assert a[last] in multiset(b);
    i :| 0 <= i < |b| && b[i] == a[last];
    assert b == b[..i] + [b[i]] + b[i + 1..];
    assert multiset(a[..last]) == multiset(a) - multiset{a[last]};
    assert multiset(b[..i] + b[i + 1..]) == multiset(b) - multiset{b[i]};
  }

  lemma {:induction false} FoldLeftIgnoresOrder<S(!new)>(step: (S, Event) -> S, init: S, a: seq<Event>, b: seq<Event>)
    requires Commutes(step) && DistinctIds(b) && multiset(a) == multiset(b)
    ensures FoldLeft(step, init, a) == FoldLeft(step, init, b)
  {
    assert |a| == |multiset(a)| && |b| == |multiset(b)|;
    if a != [] {
      var i := FindLast(a, b);
      TakeLast(step, init, b, i);
      FoldLeftIgnoresOrder(step, init, a[..|a| - 1], b[..i] + b[i + 1..]);
    }
  }

  // ---- the fold's two accumulators as commuting steps --------------------

  /** One event of `Newest`, frozen on anything that is not such a piece, so that it commutes everywhere. */
  function NewestStep(group: PublicKey, kind: StateKind, best: Option<Event>, e: Event): Option<Event> {
    if IsPiece(group, kind, e) && (best.None? || (IsPiece(group, kind, best.value) && Replaces(e, best.value)))
    then Some(e) else best
  }

  lemma {:induction false} NewestIsFold(group: PublicKey, kind: StateKind, step: (Option<Event>, Event) -> Option<Event>, events: seq<Event>)
    requires forall b, e :: step(b, e) == NewestStep(group, kind, b, e)
    ensures Newest(group, kind, events) == FoldLeft(step, None, events)
  {
    hide IsPiece, Replaces;
    if events != [] {
      NewestIsFold(group, kind, step, events[..|events| - 1]);
      NewestIsPiece(group, kind, events[..|events| - 1]);
    }
  }

  lemma NewestStepCommutes(group: PublicKey, kind: StateKind, best: Option<Event>, x: Event, y: Event)
    requires x.id != y.id
    ensures NewestStep(group, kind, NewestStep(group, kind, best, x), y) == NewestStep(group, kind, NewestStep(group, kind, best, y), x)
  {
    if IsPiece(group, kind, x) && IsPiece(group, kind, y) {
      PiecesShareKind(group, kind, x, y);
      if best.Some? && IsPiece(group, kind, best.value) {
        PiecesShareKind(group, kind, x, best.value);
        PiecesShareKind(group, kind, y, best.value);
        ReplacesIsStrictTotalOrder(x, y, best.value);
        ReplacesIsStrictTotalOrder(y, x, best.value);
        NotReplacingIsTransitive(x, y, best.value);
        NotReplacingIsTransitive(y, x, best.value);
      }
      ReplacesIsStrictTotalOrder(x, y, x);
    }
    hide Replaces, IsPiece;
  }

  lemma PiecesShareKind(group: PublicKey, kind: StateKind, x: Event, y: Event)
    ensures IsPiece(group, kind, x) && IsPiece(group, kind, y) ==> SameKind(x, y)
  {
  }

  lemma NotReplacingIsTransitive(x: Event, y: Event, z: Event)
    ensures SameKind(x, y) && SameKind(y, z) ==> Replaces(x, z) && !Replaces(y, z) ==> Replaces(x, y)
  {
  }

  lemma {:induction false} NewestIgnoresOrder(group: PublicKey, kind: StateKind, a: seq<Event>, b: seq<Event>)
    requires DistinctIds(b) && multiset(a) == multiset(b)
    ensures Newest(group, kind, a) == Newest(group, kind, b)
  {
    hide NewestStep;
    var step := (best: Option<Event>, e: Event) => NewestStep(group, kind, best, e);
    NewestIsFold(group, kind, step, a);
    NewestIsFold(group, kind, step, b);
    forall best: Option<Event>, x: Event, y: Event | x.id != y.id
      ensures step(step(best, x), y) == step(step(best, y), x)
    {
      NewestStepCommutes(group, kind, best, x, y);
    }
    FoldLeftIgnoresOrder(step, None, a, b);
  }

  function SortStep(group: PublicKey, sorted: seq<Event>, e: Event): seq<Event> {
    if IsAction(group, e) then InsertSorted(sorted, e) else sorted
  }

  lemma {:induction false} SortIsFold(group: PublicKey, step: (seq<Event>, Event) -> seq<Event>, events: seq<Event>)
    requires forall s, e :: step(s, e) == SortStep(group, s, e)
    ensures Sort(Actions(group, events)) == FoldLeft(step, [], events)
  {
    if events != [] {
      var last := |events| - 1;
      SortIsFold(group, step, events[..last]);
      var rest := Actions(group, events[..last]);
      if IsAction(group, events[last]) {
        assert (rest + [events[last]])[..|rest|] == rest;
      }
    }
  }

  lemma {:induction false} InsertCommutes(s: seq<Event>, x: Event, y: Event)
    requires x.id != y.id
    ensures InsertSorted(InsertSorted(s, x), y) == InsertSorted(InsertSorted(s, y), x)
  {
    if s == [] {
      assert InsertSorted([x], y) == if Before(x, y) then [x, y] else [y, x];
      assert InsertSorted([y], x) == if Before(y, x) then [y, x] else [x, y];
    } else {
      var last := |s| - 1;
      var z := s[last];
      var front := s[..last];
      assert s == front + [z];
      if Before(z, y) {
        InsertOver(s, x, y);
      } else if Before(z, x) {
        InsertOver(s, y, x);
      } else {
        InsertCommutes(front, x, y);
        InsertUnder(front, z, x, y);
        InsertUnder(front, z, y, x);
      }
    }
  }

  /** Both insertions pass `z`. */
  lemma InsertUnder(front: seq<Event>, z: Event, x: Event, y: Event)
    requires !Before(z, x) && !Before(z, y)
    ensures InsertSorted(InsertSorted(front + [z], x), y) == InsertSorted(InsertSorted(front, x), y) + [z]
  {
    assert (front + [z])[..|front|] == front;
    var once := InsertSorted(front, x) + [z];
    assert once[..|once| - 1] == InsertSorted(front, x);
  }

  /** `y` stays above all of `s`. */
  lemma InsertOver(s: seq<Event>, x: Event, y: Event)
    requires s != [] && Before(s[|s| - 1], y) && x.id != y.id
    ensures InsertSorted(InsertSorted(s, x), y) == InsertSorted(InsertSorted(s, y), x)
  {
    assert (s + [y])[..|s|] == s;
    var last := |s| - 1;
    if Before(s[last], x) {
      assert (s + [x])[..|s|] == s;
      assert InsertSorted(s + [x], y) == if Before(x, y) then s + [x] + [y] else InsertSorted(s, y) + [x];
      assert InsertSorted(s + [y], x) == if Before(y, x) then s + [y] + [x] else InsertSorted(s, x) + [y];
    } else {
      assert InsertSorted(s, x) == InsertSorted(s[..last], x) + [s[last]];
    }
  }

  lemma {:induction false} SortIgnoresOrder(group: PublicKey, a: seq<Event>, b: seq<Event>)
    requires DistinctIds(b) && multiset(a) == multiset(b)
    ensures Sort(Actions(group, a)) == Sort(Actions(group, b))
  {
    var step := (s: seq<Event>, e: Event) => SortStep(group, s, e);
    SortIsFold(group, step, a);
    SortIsFold(group, step, b);
    forall s: seq<Event>, x: Event, y: Event | x.id != y.id
      ensures step(step(s, x), y) == step(step(s, y), x)
    {
      InsertCommutes(s, x, y);
    }
    FoldLeftIgnoresOrder(step, [], a, b);
  }

  /** Two peers holding the same events compute the same group, however the events arrived. */
  lemma {:induction false} FoldIgnoresOrder(group: PublicKey, a: seq<Event>, b: seq<Event>)
    requires DistinctIds(b) && multiset(a) == multiset(b)
    ensures FoldEvents(group, a) == FoldEvents(group, b)
  {
    NewestIgnoresOrder(group, MetadataKind, a, b);
    NewestIgnoresOrder(group, AdminsKind, a, b);
    NewestIgnoresOrder(group, MembersKind, a, b);
    NewestIgnoresOrder(group, RolesKind, a, b);
    SortIgnoresOrder(group, a, b);
    assert forall e :: e in a <==> e in multiset(a);
    assert forall e :: e in b <==> e in multiset(b);
    assert Creators(group, a) == Creators(group, b);
  }
}
