/**
  The picture cache of the window (crates/hit-desktop/src/pictures.rs): decoded pictures kept
  up to a number of bytes, the oldest that are not on screen dropped first.
 */
module Pictures {

  const CAP_BYTES: nat := 48 * 0x10_0000
  const AUTO_BYTES: nat := 8_000_000

  type Key = string

  type Pixels = seq<bv8>

  // ---- sizes -------------------------------------------------------------------------

  /** The bytes of all pictures shown. */
  ghost function Total(shown: map<Key, Pixels>): nat
    decreases |shown|
  {
    if shown == map[] then 0
    else
      var k :| k in shown;
      SmallerWithout(shown, k);
      |shown[k]| + Total(shown - {k})
  }

  lemma SmallerWithout(shown: map<Key, Pixels>, k: Key)
    requires k in shown
    ensures |shown - {k}| < |shown|
  {
    assert (shown - {k}).Keys == shown.Keys - {k};
    assert |shown.Keys - {k}| == |shown.Keys| - 1;
    assert |(shown - {k}).Keys| == |shown - {k}| && |shown.Keys| == |shown|;
  }

  lemma {:induction false} TotalWithout(shown: map<Key, Pixels>, k: Key)
    requires k in shown
    ensures Total(shown) == |shown[k]| + Total(shown - {k})
    decreases |shown|
  {
    var j :| j in shown && Total(shown) == |shown[j]| + Total(shown - {j});
    if j != k {
      SmallerWithout(shown, j);
      TotalWithout(shown - {j}, k);
      SmallerWithout(shown, k);
      TotalWithout(shown - {k}, j);
      assert shown - {j} - {k} == shown - {k} - {j};
    }
  }

  lemma TotalWith(shown: map<Key, Pixels>, k: Key, px: Pixels)
    ensures k !in shown ==> Total(shown[k := px]) == Total(shown) + |px|
    ensures Total(shown[k := px]) <= Total(shown) + |px|
  {
    TotalWithout(shown[k := px], k);
    assert shown[k := px] - {k} == shown - {k};
    if k in shown {
      TotalWithout(shown, k);
    } else {
      assert shown - {k} == shown;
    }
  }

  // ---- the cache as a value ----------------------------------------------------------------

  datatype Cache = Cache(shown: map<Key, Pixels>, order: seq<Key>, bytes: nat)

  /** The count covers what is shown, and whatever is shown is in line. */
  ghost predicate Covers(c: Cache) {
    Total(c.shown) <= c.bytes && forall k :: k in c.shown ==> k in c.order
  }

  /** The count is exact, and the line is each shown key once. */
  ghost predicate Exact(c: Cache) {
    && Total(c.shown) == c.bytes
    && (forall k :: k in c.shown <==> k in c.order)
    && (forall i, j :: 0 <= i < j < |c.order| ==> c.order[i] != c.order[j])
  }

  function Pushed(c: Cache, key: Key, px: Pixels): Cache {
    Cache(c.shown[key := px], c.order + [key], c.bytes + |px|)
  }

  /** The visible keys of a stretch of the line. */
  function Kept(order: seq<Key>, visible: set<Key>): seq<Key> {
    if order == [] then []
    else Kept(order[..|order| - 1], visible)
         + (if order[|order| - 1] in visible then [order[|order| - 1]] else [])
  }

  function Hidden(order: seq<Key>, visible: set<Key>): set<Key> {
    set k | k in order && k !in visible
  }

  /** The cache once the first `n` in line have been looked at. */
  ghost function After(c: Cache, visible: set<Key>, n: nat): Cache
    requires n <= |c.order| && Covers(c)
  {
    var shown := c.shown - Hidden(c.order[..n], visible);
    TotalShrinks(c.shown, Hidden(c.order[..n], visible));
    Cache(shown, Kept(c.order[..n], visible) + c.order[n..], c.bytes - (Total(c.shown) - Total(shown)))
  }

  lemma {:induction false} TotalShrinks(shown: map<Key, Pixels>, gone: set<Key>)
    ensures Total(shown - gone) <= Total(shown)
    decreases |gone|
  {
    if gone == {} {
      assert shown - gone == shown;
    } else {
      var k :| k in gone;
      TotalShrinks(shown, gone - {k});
      var most := shown - (gone - {k});
      if k in shown {
        TotalWithout(most, k);
        assert shown - gone == most - {k};
      } else {
        assert shown - gone == most;
      }
    }
  }

  /** Looking stops as soon as the count is within the cap, or at the end of the line. */
  ghost predicate StopsAt(c: Cache, visible: set<Key>, n: nat) {
    && n <= |c.order| && Covers(c)
    && (n == |c.order| || After(c, visible, n).bytes <= CAP_BYTES)
    && forall m :: 0 <= m < n ==> After(c, visible, m).bytes > CAP_BYTES
  }

  // ---- the object ------------------------------------------------------------------------------

  class PictureCache {
    var shown: map<Key, Pixels>
    var order: seq<Key>
    var bytes: nat
    var notes: map<Key, string>
    var asked: set<Key>

    constructor ()
      ensures Exact(Value()) && notes == map[] && asked == {}
      ensures forall key, size :: Wants(key, size) <==> size <= 8_000_000
    {
      shown, order, bytes, notes, asked := map[], [], 0, map[], {};
    }

    ghost function Value(): Cache
      reads this
    {
      Cache(shown, order, bytes)
    }

    /** Whether `key` should be fetched now. */
    predicate Wants(key: Key, size: nat)
      reads this
    {
      (size <= AUTO_BYTES || key in asked) && key !in shown && key !in notes
    }

    /** Keeps `px`; drops the oldest not in `visible` while over the cap. */
    method Insert(key: Key, px: Pixels, visible: set<Key>)
      requires Covers(Value())
      modifies `shown, `order, `bytes, `notes
      ensures notes == old(notes) - {key}
      ensures exists n :: StopsAt(Pushed(old(Value()), key, px), visible, n)
                          && Value() == After(Pushed(old(Value()), key, px), visible, n)
      ensures Covers(Value())
      ensures old(Exact(Value())) && key !in old(shown) ==> Exact(Value())
      ensures bytes <= 50_331_648 || forall k :: k in shown ==> k in visible
      ensures key in shown ==> forall size :: !Wants(key, size)
    {
      hide Exact, Covers, After, Kept, Total, Hidden;
      ghost var before := Value();
      ghost var c := Pushed(before, key, px);
      PushCovers(before, key, px);
      notes := notes - {key};
      bytes := bytes + |px|;
      shown := shown[key := px];
      order := order + [key];
      var keep: seq<Key> := [];
      ghost var n := 0;
      NothingLookedAt(c, visible);
      KeptOfNothing(c.order, visible);
      while bytes > CAP_BYTES
        invariant notes == old(notes) - {key}
        invariant Covers(c) && n <= |c.order| && order == c.order[n..]
        invariant keep == Kept(c.order[..n], visible)
        invariant shown == After(c, visible, n).shown && bytes == After(c, visible, n).bytes
        invariant forall m :: 0 <= m < n ==> After(c, visible, m).bytes > CAP_BYTES
        decreases |order|
      {
        if order == [] {
          break;
        }
        var k := order[0];
        LookAtOne(c, visible, n);
        order := order[1..];
        n := n + 1;
        if k in visible {
          keep := keep + [k];
        } else if k in shown {
          bytes := bytes - |shown[k]|;
          shown := shown - {k};
        }
      }
      order := PutBack(keep, order);
      AfterOrder(c, visible, n);
      AfterCovers(c, visible, n);
      if Exact(before) && key !in before.shown {
        PushExact(before, key, px);
        AfterExact(c, visible, n);
      }
      assert Value() == After(c, visible, n);
      assert StopsAt(c, visible, n);
    }

    /** The loop that puts the visible ones back in front. */
    static method PutBack(kept: seq<Key>, line: seq<Key>) returns (order: seq<Key>)
      ensures order == kept + line
    {
      order := line;
      var keep := kept;
      while keep != []
        invariant keep + order == kept + line
        decreases |keep|
      {
        var k := keep[|keep| - 1];
        assert keep == keep[..|keep| - 1] + [k];
        keep := keep[..|keep| - 1];
        order := [k] + order;
      }
    }

    method SetNote(key: Key, note: string)
      modifies `notes
      ensures notes == old(notes)[key := note] && forall size :: !Wants(key, size)
    {
      notes := notes[key := note];
    }

    method Ask(key: Key)
      modifies `notes, `asked
      ensures notes == old(notes) - {key} && asked == old(asked) + {key}
      ensures forall size :: Wants(key, size) <==> key !in shown
    {
      notes := notes - {key};
      asked := asked + {key};
    }
  }

  // ---- one step of looking -------------------------------------------------------------------------

  lemma PushCovers(c: Cache, key: Key, px: Pixels)
    requires Covers(c)
    ensures Covers(Pushed(c, key, px))
  {
    TotalWith(c.shown, key, px);
    var p := Pushed(c, key, px);
    forall k | k in p.shown ensures k in p.order {
      assert p.order[|c.order|] == key;
      if k != key {
        assert k in c.order;
      }
    }
  }

  lemma PushExact(c: Cache, key: Key, px: Pixels)
    requires Exact(c) && key !in c.shown
    ensures Exact(Pushed(c, key, px))
  {
    TotalWith(c.shown, key, px);
  }

  lemma NothingLookedAt(c: Cache, visible: set<Key>)
    requires Covers(c)
    ensures After(c, visible, 0) == c
  {
    assert c.order[..0] == [] && c.order[0..] == c.order;
    assert c.shown - Hidden([], visible) == c.shown;
  }

  lemma KeptOfNothing(order: seq<Key>, visible: set<Key>)
    ensures Kept(order[..0], visible) == []
  {
  }

  lemma AfterOrder(c: Cache, visible: set<Key>, n: nat)
    requires Covers(c) && n <= |c.order|
    ensures After(c, visible, n).order == Kept(c.order[..n], visible) + c.order[n..]
  {
  }

  lemma LookAtOne(c: Cache, visible: set<Key>, n: nat)
    requires Covers(c) && n < |c.order|
    ensures var k, a, b := c.order[n], After(c, visible, n), After(c, visible, n + 1);
            && (k in visible ==> b.shown == a.shown && b.bytes == a.bytes)
            && (k !in visible ==> b.shown == a.shown - {k})
            && (k !in visible && k in a.shown ==> b.bytes == a.bytes - |a.shown[k]|)
            && (k !in visible && k !in a.shown ==> b.shown == a.shown && b.bytes == a.bytes)
            && Kept(c.order[..n + 1], visible) == Kept(c.order[..n], visible) + (if k in visible then [k] else [])
  {
    var k := c.order[n];
    var front := c.order[..n];
    assert c.order[..n + 1] == front + [k] && c.order[..n + 1][..n] == front;
    var a := c.shown - Hidden(front, visible);
    var b := c.shown - Hidden(front + [k], visible);
    if k in visible {
      assert Hidden(front + [k], visible) == Hidden(front, visible);
    } else {
      assert Hidden(front + [k], visible) == Hidden(front, visible) + {k};
      assert b == a - {k};
      if k in a {
        TotalWithout(a, k);
      } else {
        assert b == a;
      }
    }
  }

  // ---- what stays ---------------------------------------------------------------------------------------

  lemma {:induction false} KeptAre(order: seq<Key>, visible: set<Key>)
    ensures forall k :: k in Kept(order, visible) <==> k in order && k in visible
  {
    if order != [] {
      var last := |order| - 1;
      KeptAre(order[..last], visible);
      assert order == order[..last] + [order[last]];
    }
  }

  lemma AfterCovers(c: Cache, visible: set<Key>, n: nat)
    requires Covers(c) && n <= |c.order|
    ensures Covers(After(c, visible, n))
    ensures n == |c.order| ==> forall k :: k in After(c, visible, n).shown ==> k in visible
  {
    KeptAre(c.order[..n], visible);
    assert c.order == c.order[..n] + c.order[n..];
  }

  ghost predicate Distinct(order: seq<Key>) {
    forall i, j :: 0 <= i < j < |order| ==> order[i] != order[j]
  }

  lemma {:induction false} KeptStaysDistinct(order: seq<Key>, visible: set<Key>, n: nat)
    requires Distinct(order) && n <= |order|
    ensures Distinct(Kept(order[..n], visible) + order[n..])
  {
    if n == 0 {
      assert Kept(order[..0], visible) + order[0..] == order;
    } else {
      KeptStaysDistinct(order, visible, n - 1);
      var k, front := order[n - 1], Kept(order[..n - 1], visible);
      assert order[..n][..n - 1] == order[..n - 1] && order[n - 1..] == [k] + order[n..];
      var long := front + order[n - 1..];
      if k in visible {
        assert front + [k] + order[n..] == long;
      } else {
        SkipOne(front, k, order[n..]);
        assert front + [] == front;
      }
    }
  }

  lemma SkipOne(front: seq<Key>, k: Key, back: seq<Key>)
    requires Distinct(front + ([k] + back))
    ensures Distinct(front + back)
  {
    var long, short := front + ([k] + back), front + back;
    forall i, j | 0 <= i < j < |short| ensures short[i] != short[j] {
      var a := if i < |front| then i else i + 1;
      var b := if j < |front| then j else j + 1;
      assert short[i] == long[a] && short[j] == long[b] && a < b;
    }
  }

  /** An exact cache stays exact while the oldest go; the survivors stay in line as they were. */
  lemma AfterExact(c: Cache, visible: set<Key>, n: nat)
    requires Exact(c) && n <= |c.order|
    ensures Covers(c) && Exact(After(c, visible, n))
  {
    var a := After(c, visible, n);
    KeptAre(c.order[..n], visible);
    assert c.order == c.order[..n] + c.order[n..];
    KeptStaysDistinct(c.order, visible, n);
    forall k ensures k in a.shown <==> k in a.order {
      if k in c.order[..n] && k in c.order[n..] {
        NotTwice(c.order, n, k);
      }
    }
  }

  lemma NotTwice(order: seq<Key>, n: nat, k: Key)
    requires Distinct(order) && n <= |order| && k in order[..n]
    ensures k !in order[n..]
  {
    var i :| 0 <= i < n && order[i] == k;
    assert forall j :: 0 <= j < |order| - n ==> order[n..][j] == order[n + j];
  }

  // ---- runs -------------------------------------------------------------------------------------------------

  datatype Insertion = Insertion(key: Key, px: Pixels, visible: set<Key>)

  /** One insert of a key not shown. */
  ghost predicate Inserts(c: Cache, i: Insertion, d: Cache) {
    var p := Pushed(c, i.key, i.px);
    i.key !in c.shown && exists n :: StopsAt(p, i.visible, n) && d == After(p, i.visible, n)
  }

  ghost predicate IsRun(caches: seq<Cache>, inserts: seq<Insertion>) {
    && |caches| == |inserts| + 1
    && forall i :: 0 <= i < |inserts| ==> Inserts(caches[i], inserts[i], caches[i + 1])
  }

  /** The eviction point is unique, so an insert has one outcome. */
  lemma OneOutcome(c: Cache, i: Insertion, d: Cache, e: Cache)
    requires Inserts(c, i, d) && Inserts(c, i, e)
    ensures d == e
  {
  }

  /**
    Over any run of inserts of keys not shown, from the empty cache: the count is what is shown,
    the line is each shown key once, and the last insert leaves the cache within the cap unless
    everything left is visible.
   */
  lemma {:induction false} RunsStayExact(caches: seq<Cache>, inserts: seq<Insertion>)
    requires IsRun(caches, inserts) && Exact(caches[0])
    ensures Exact(caches[|inserts|])
    ensures inserts != [] ==>
              var d, i := caches[|inserts|], inserts[|inserts| - 1];
              d.bytes <= CAP_BYTES || forall k :: k in d.shown ==> k in i.visible
  {
    if inserts != [] {
      var last := |inserts| - 1;
      assert forall j :: 0 <= j < last ==> inserts[..last][j] == inserts[j] && caches[..last + 1][j] == caches[j];
      RunsStayExact(caches[..last + 1], inserts[..last]);
      var c, i, d := caches[last], inserts[last], caches[last + 1];
      assert Inserts(c, i, d);
      var p := Pushed(c, i.key, i.px);
      var n :| StopsAt(p, i.visible, n) && d == After(p, i.visible, n);
      PushExact(c, i.key, i.px);
      AfterExact(p, i.visible, n);
      AfterCovers(p, i.visible, n);
    }
  }
}
