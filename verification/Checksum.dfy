/**
  The checksum of Bech32 (crates/hit-event/src/zap.rs, `bech32::polymod`) as a linear map over
  GF(2), and the errors it is sure to catch.
 */
module Checksum {
  // ---- adding in GF(2) ---------------------------------------------------------------

  function Plus(a: bv32, b: bv32): bv32 { a ^ b }

  lemma PlusAssociates(a: bv32, b: bv32, c: bv32)
    ensures Plus(Plus(a, b), c) == Plus(a, Plus(b, c))
  {
  }

  lemma PlusZero(a: bv32)
    ensures Plus(a, 0) == a && Plus(0, a) == a && Plus(a, a) == 0
  {
  }

  lemma PlusIsZero(a: bv32, b: bv32)
    ensures Plus(a, b) == 0 <==> a == b
  {
  }

  lemma PlusMiddle(a: bv32, b: bv32, c: bv32)
    ensures Plus(a, Plus(b, c)) == Plus(b, Plus(a, c))
  {
  }

  // ---- one step ----------------------------------------------------------------------

  const GENERATORS: seq<bv32> := [0x3b6a_57b2, 0x2650_8e6d, 0x1ea1_19fa, 0x3d42_33dd, 0x2a14_62b3]

  predicate Bit(b: bv32, i: nat)
    requires i < 5
  {
    match i
    case 0 => b & 1 != 0
    case 1 => b & 2 != 0
    case 2 => b & 4 != 0
    case 3 => b & 8 != 0
    case _ => b & 16 != 0
  }

  lemma BitAt(b: bv32, i: nat)
    ensures i < 5 ==> (Bit(b, i) <==> (b >> i) & 1 == 1)
  {
  }

  lemma BitIsLinear(a: bv32, b: bv32, i: nat)
    ensures i < 5 ==> (Bit(Plus(a, b), i) <==> Bit(a, i) != Bit(b, i))
  {
  }

  function Pick(b: bv32, i: nat): bv32
    requires i < 5
  {
    if Bit(b, i) then GENERATORS[i] else 0
  }

  /** The first `n` generators, those the bits of `b` select. */
  function Feedback(b: bv32, n: nat): bv32
    requires n <= 5
  {
    if n == 0 then 0 else Plus(Feedback(b, n - 1), Pick(b, n - 1))
  }

  function Low(chk: bv32): bv32 { (chk & 0x01ff_ffff) << 5 }

  function High(chk: bv32): bv32 { chk >> 25 }

  function Shift(chk: bv32, v: bv32): bv32 {
    Plus(Plus(Low(chk), v), Feedback(High(chk), 5))
  }

  function PolymodFrom(chk: bv32, values: seq<bv32>): bv32 {
    if values == [] then chk
    else Shift(PolymodFrom(chk, values[..|values| - 1]), values[|values| - 1])
  }

  method Polymod(values: seq<bv32>) returns (chk: bv32)
    ensures chk == PolymodFrom(1, values)
  {
    hide Plus, Feedback;
    chk := 1;
    for n := 0 to |values|
      invariant chk == PolymodFrom(1, values[..n])
    {
      assert values[..n + 1][..n] == values[..n];
      chk := Fold(chk, values[n]);
    }
    assert values[..|values|] == values;
  }

  /** The body of the loop. */
  method Fold(chk: bv32, v: bv32) returns (next: bv32)
    ensures next == Shift(chk, v)
  {
    hide Bit;
    var b := chk >> 25;
    next := ((chk & 0x01ff_ffff) << 5) ^ v;
    ghost var start := next;
    PlusZero(start);
    for i := 0 to 5
      invariant next == Plus(start, Feedback(b, i))
    {
      BitAt(b, i);
      PlusAssociates(start, Feedback(b, i), Pick(b, i));
      PlusZero(Feedback(b, i));
      if (b >> i) & 1 == 1 {
        next := XorInto(next, GENERATORS[i]);
      }
    }
  }

  method XorInto(a: bv32, b: bv32) returns (c: bv32)
    ensures c == Plus(a, b)
  {
    c := a ^ b;
  }

  // ---- it is linear ------------------------------------------------------------------

  lemma PickIsLinear(a: bv32, b: bv32, i: nat)
    requires i < 5
    ensures Pick(Plus(a, b), i) == Plus(Pick(a, i), Pick(b, i))
  {
    hide Plus, Bit;
    BitIsLinear(a, b, i);
    PlusZero(GENERATORS[i]);
    PlusZero(0);
  }

  lemma {:induction false} FeedbackIsLinear(a: bv32, b: bv32, n: nat)
    requires n <= 5
    ensures Feedback(Plus(a, b), n) == Plus(Feedback(a, n), Feedback(b, n))
  {
    hide Plus, Pick;
    if n == 0 {
      PlusZero(0);
    } else {
      FeedbackIsLinear(a, b, n - 1);
      PickIsLinear(a, b, n - 1);
      var f, g, p, q := Feedback(a, n - 1), Feedback(b, n - 1), Pick(a, n - 1), Pick(b, n - 1);
      PlusAssociates(f, g, Plus(p, q));
      PlusMiddle(g, p, q);
      PlusAssociates(f, p, Plus(g, q));
    }
  }

  lemma HalvesAreLinear(a: bv32, b: bv32)
    ensures Low(Plus(a, b)) == Plus(Low(a), Low(b))
    ensures High(Plus(a, b)) == Plus(High(a), High(b))
  {
  }

  lemma ShiftIsLinear(a: bv32, b: bv32, v: bv32, w: bv32)
    ensures Shift(Plus(a, b), Plus(v, w)) == Plus(Shift(a, v), Shift(b, w))
  {
    hide Plus, Low, High, Feedback;
    HalvesAreLinear(a, b);
    FeedbackIsLinear(High(a), High(b), 5);
    var x, y, f, g := Plus(Low(a), v), Plus(Low(b), w), Feedback(High(a), 5), Feedback(High(b), 5);
    PlusAssociates(Low(a), Low(b), Plus(v, w));
    PlusMiddle(Low(b), v, w);
    PlusAssociates(Low(a), v, y);
    PlusAssociates(x, y, Plus(f, g));
    PlusMiddle(y, f, g);
    PlusAssociates(x, f, Plus(y, g));
  }

  function Sum(a: seq<bv32>, b: seq<bv32>): seq<bv32>
    requires |a| == |b|
  {
    seq(|a|, i requires 0 <= i < |a| => Plus(a[i], b[i]))
  }

  /** The checksum of a sum is the sum of the checksums. */
  lemma {:induction false} PolymodIsLinear(a: bv32, b: bv32, v: seq<bv32>, w: seq<bv32>)
    requires |v| == |w|
    ensures PolymodFrom(Plus(a, b), Sum(v, w)) == Plus(PolymodFrom(a, v), PolymodFrom(b, w))
  {
    hide Shift, Plus;
    if v != [] {
      var last := |v| - 1;
      PolymodIsLinear(a, b, v[..last], w[..last]);
      assert Sum(v, w)[..last] == Sum(v[..last], w[..last]);
      ShiftIsLinear(PolymodFrom(a, v[..last]), PolymodFrom(b, w[..last]), v[last], w[last]);
    }
  }

  lemma {:induction false} PolymodConcat(chk: bv32, v: seq<bv32>, w: seq<bv32>)
    ensures PolymodFrom(chk, v + w) == PolymodFrom(PolymodFrom(chk, v), w)
  {
    hide Shift;
    if w == [] {
      assert v + w == v;
    } else {
      var last := |w| - 1;
      assert (v + w)[..|v + w| - 1] == v + w[..last];
      PolymodConcat(chk, v, w[..last]);
    }
  }

  // ---- how far a state has been filled -------------------------------------------------

  predicate Small(v: bv32) { v < 32 }

  ghost predicate AllSmall(values: seq<bv32>) {
    forall i :: 0 <= i < |values| ==> Small(values[i])
  }

  /** What `n` five-bit values can fill; from six on, the whole state. */
  function Limit(n: nat): bv32 {
    match n
    case 0 => 1
    case 1 => 0x20
    case 2 => 0x400
    case 3 => 0x8000
    case 4 => 0x10_0000
    case 5 => 0x200_0000
    case _ => 0x4000_0000
  }

  predicate Fits(chk: bv32, n: nat) { chk < Limit(n) }

  predicate InState(chk: bv32) { chk < 0x4000_0000 }

  lemma FitsInState(chk: bv32, n: nat)
    ensures Fits(chk, n) ==> InState(chk)
  {
  }

  lemma FeedbackOfZero()
    ensures Feedback(0, 5) == 0
  {
    hide Plus;
    PlusZero(0);
    assert Feedback(0, 1) == 0 && Feedback(0, 2) == 0 && Feedback(0, 3) == 0 && Feedback(0, 4) == 0;
  }

  lemma HalvesOfSmall(chk: bv32)
    requires chk < 0x200_0000
    ensures High(chk) == 0 && Low(chk) == chk << 5
  {
  }

  lemma Joined(low: bv32, v: bv32)
    requires low & 31 == 0 && v & 0xffff_ffe0 == 0
    ensures low ^ v ^ 0 == low | v
  {
  }

  lemma ShiftedIsRound(chk: bv32, v: bv32)
    requires Small(v)
    ensures (chk << 5) & 31 == 0 && v & 0xffff_ffe0 == 0
  {
  }

  lemma PlusIs(a: bv32, b: bv32)
    ensures Plus(Plus(a, b), 0) == a ^ b ^ 0
  {
  }

  lemma FitsFive(chk: bv32, n: nat)
    ensures n <= 5 && Fits(chk, n) ==> chk < 0x200_0000
  {
  }

  lemma Grows(chk: bv32, v: bv32, n: nat)
    requires n <= 5 && Fits(chk, n) && Small(v)
    ensures Fits((chk << 5) | v, n + 1)
    ensures chk != 0 || v != 0 ==> (chk << 5) | v != 0
  {
  }

  /** While there is room, a step appends five bits. */
  lemma ShiftAppends(chk: bv32, v: bv32, n: nat)
    requires n <= 5 && Fits(chk, n) && Small(v)
    ensures Shift(chk, v) == (chk << 5) | v && Fits(Shift(chk, v), n + 1)
    ensures chk != 0 || v != 0 ==> Shift(chk, v) != 0
  {
    hide Plus, Low, High, Feedback, Fits, Small;
    FitsFive(chk, n);
    HalvesOfSmall(chk);
    FeedbackOfZero();
    ShiftedIsRound(chk, v);
    Joined(chk << 5, v);
    PlusIs(chk << 5, v);
    Grows(chk, v, n);
  }

  // ---- a state that is not zero stays so ------------------------------------------------

  lemma FeedbackIs(b: bv32)
    ensures Feedback(b, 5) == Plus(Plus(Plus(Plus(Pick(b, 0), Pick(b, 1)), Pick(b, 2)), Pick(b, 3)), Pick(b, 4))
  {
    hide Pick, Plus;
    PlusZero(Pick(b, 0));
    assert Feedback(b, 1) == Pick(b, 0);
    assert Feedback(b, 3) == Plus(Feedback(b, 2), Pick(b, 2));
  }

  lemma FeedbackMarks(b: bv32)
    requires b < 32
    ensures Feedback(b, 5) < 0x4000_0000
    ensures b != 0 ==> Feedback(b, 5) & 31 != 0
  {
    hide Feedback;
    FeedbackIs(b);
  }

  lemma HalvesOfState(chk: bv32)
    ensures InState(chk) ==> High(chk) < 32 && Low(chk) & 31 == 0 && Low(chk) < 0x4000_0000
    ensures InState(chk) ==> (chk != 0 ==> High(chk) != 0 || Low(chk) != 0)
  {
  }

  lemma SumStaysIn(a: bv32, v: bv32, f: bv32)
    ensures a < 0x4000_0000 && f < 0x4000_0000 && Small(v) ==> Plus(Plus(a, v), f) < 0x4000_0000
  {
  }

  lemma SumKeepsMark(a: bv32, f: bv32)
    ensures (a & 31 == 0 && (f & 31 != 0 || (f == 0 && a != 0))) ==> Plus(Plus(a, 0), f) != 0
  {
  }

  lemma ShiftStaysInState(chk: bv32, v: bv32)
    requires InState(chk) && Small(v)
    ensures InState(Shift(chk, v))
    ensures chk != 0 && v == 0 ==> Shift(chk, v) != 0
  {
    hide Plus, Low, High, Feedback, Small;
    HalvesOfState(chk);
    FeedbackMarks(High(chk));
    FeedbackOfZero();
    SumStaysIn(Low(chk), v, Feedback(High(chk), 5));
    if chk != 0 && v == 0 {
      SumKeepsMark(Low(chk), Feedback(High(chk), 5));
    }
  }

  lemma {:induction false} PolymodStaysInState(chk: bv32, values: seq<bv32>)
    requires InState(chk) && AllSmall(values)
    ensures InState(PolymodFrom(chk, values))
  {
    hide Shift, InState, Small;
    if values != [] {
      var last := |values| - 1;
      PolymodStaysInState(chk, values[..last]);
      ShiftStaysInState(PolymodFrom(chk, values[..last]), values[last]);
    }
  }

  function Zeros(n: nat): (z: seq<bv32>)
    ensures |z| == n && forall i :: 0 <= i < n ==> z[i] == 0
  {
    seq(n, i => 0)
  }

  lemma {:induction false} ZerosKeepNonzero(chk: bv32, n: nat)
    requires InState(chk) && chk != 0
    ensures PolymodFrom(chk, Zeros(n)) != 0 && InState(PolymodFrom(chk, Zeros(n)))
  {
    hide Shift, InState;
    if n > 0 {
      ZerosKeepNonzero(chk, n - 1);
      assert Zeros(n)[..n - 1] == Zeros(n - 1);
      ShiftStaysInState(PolymodFrom(chk, Zeros(n - 1)), 0);
    }
  }

  lemma {:induction false} ZerosKeepZero(n: nat)
    ensures PolymodFrom(0, Zeros(n)) == 0
  {
    hide Shift;
    if n > 0 {
      ZerosKeepZero(n - 1);
      assert Zeros(n)[..n - 1] == Zeros(n - 1);
      ShiftAppends(0, 0, 0);
    }
  }

  // ---- bursts ------------------------------------------------------------------------------

  /** A short difference that is not all zero leaves a mark. */
  lemma {:induction false} BurstLeavesAMark(diff: seq<bv32>)
    requires |diff| <= 6 && AllSmall(diff)
    ensures Fits(PolymodFrom(0, diff), |diff|)
    ensures (exists i :: 0 <= i < |diff| && diff[i] != 0) ==> PolymodFrom(0, diff) != 0
  {
    hide Shift, Small, Fits;
    if diff == [] {
      NothingFits();
    } else {
      var last := |diff| - 1;
      BurstLeavesAMark(diff[..last]);
      ShiftAppends(PolymodFrom(0, diff[..last]), diff[last], last);
      if exists i :: 0 <= i < |diff| && diff[i] != 0 {
        var i :| 0 <= i < |diff| && diff[i] != 0;
        assert i < last ==> diff[..last][i] != 0;
      }
    }
  }

  lemma NothingFits()
    ensures Fits(0, 0)
  {
  }

  lemma SumOfSmall(a: seq<bv32>, b: seq<bv32>)
    requires |a| == |b| && AllSmall(a) && AllSmall(b)
    ensures AllSmall(Sum(a, b))
  {
    forall i | 0 <= i < |a| ensures Small(Sum(a, b)[i]) {
      SmallPlus(a[i], b[i]);
    }
  }

  lemma SmallPlus(a: bv32, b: bv32)
    ensures Small(a) && Small(b) ==> Small(Plus(a, b))
  {
  }

  lemma SumOfEnds(front: seq<bv32>, a: seq<bv32>, b: seq<bv32>, back: seq<bv32>)
    requires |a| == |b|
    ensures Sum(front + a + back, front + b + back) == Zeros(|front|) + Sum(a, b) + Zeros(|back|)
  {
    hide Plus;
    var v, w := front + a + back, front + b + back;
    var x, y := Sum(v, w), Zeros(|front|) + Sum(a, b) + Zeros(|back|);
    forall i | 0 <= i < |v| ensures x[i] == y[i] {
      PlusZero(v[i]);
    }
  }

  /** The mark of a burst between two strings of zeros. */
  lemma MarkAmongZeros(diff: seq<bv32>, n: nat, m: nat)
    requires |diff| <= 6 && AllSmall(diff) && exists i :: 0 <= i < |diff| && diff[i] != 0
    ensures PolymodFrom(0, Zeros(n) + diff + Zeros(m)) != 0
  {
    hide Small, Fits, InState;
    BurstLeavesAMark(diff);
    FitsInState(PolymodFrom(0, diff), |diff|);
    ZerosKeepNonzero(PolymodFrom(0, diff), m);
    ZerosKeepZero(n);
    PolymodConcat(0, Zeros(n), diff);
    PolymodConcat(0, Zeros(n) + diff, Zeros(m));
  }

  /**
    Two value strings that differ, and only within six consecutive places, never check to the
    same number, whatever their length.
   */
  lemma {:induction false} BurstChangesChecksum(front: seq<bv32>, a: seq<bv32>, b: seq<bv32>, back: seq<bv32>)
    requires |a| == |b| <= 6 && AllSmall(a) && AllSmall(b) && a != b
    ensures PolymodFrom(1, front + a + back) != PolymodFrom(1, front + b + back)
  {
    hide Small, Plus, PolymodFrom;
    var v, w := front + a + back, front + b + back;
    var diff := Sum(a, b);
    SumOfSmall(a, b);
    var i :| 0 <= i < |a| && a[i] != b[i];
    PlusIsZero(a[i], b[i]);
    assert diff[i] != 0;
    MarkAmongZeros(diff, |front|, |back|);
    SumOfEnds(front, a, b, back);
    PolymodIsLinear(1, 1, v, w);
    PlusZero(1);
    PlusIsZero(PolymodFrom(1, v), PolymodFrom(1, w));
  }

  // ---- six symbols from nothing are a number ---------------------------------------------

  /** The thirty-bit number six five-bit values spell. */
  function Spelled(v: seq<bv32>): bv32
    requires |v| == 6
  {
    (v[0] << 25) | (v[1] << 20) | (v[2] << 15) | (v[3] << 10) | (v[4] << 5) | v[5]
  }

  lemma {:induction false} AppendsFromZero(v: seq<bv32>)
    requires |v| <= 6 && AllSmall(v)
    ensures Fits(PolymodFrom(0, v), |v|)
    ensures v != [] ==> PolymodFrom(0, v) == (PolymodFrom(0, v[..|v| - 1]) << 5) | v[|v| - 1]
  {
    hide Shift, Small, Fits;
    if v == [] {
      NothingFits();
    } else {
      var last := |v| - 1;
      AppendsFromZero(v[..last]);
      ShiftAppends(PolymodFrom(0, v[..last]), v[last], last);
    }
  }

  lemma Concatenation(a: bv32, b: bv32, c: bv32, d: bv32, e: bv32, f: bv32)
    ensures Small(a) && Small(b) && Small(c) && Small(d) && Small(e) && Small(f) ==>
            (var abc := (((((0 << 5) | a) << 5) | b) << 5) | c;
            (((((abc << 5) | d) << 5) | e) << 5) | f
            == (a << 25) | (b << 20) | (c << 15) | (d << 10) | (e << 5) | f)
  {
  }

  /** Six five-bit values after a zero state are read as the number they spell. */
  lemma SixFromZero(v: seq<bv32>)
    requires |v| == 6 && AllSmall(v)
    ensures PolymodFrom(0, v) == Spelled(v)
  {
    hide PolymodFrom, Small;
    assert v[..5][..4] == v[..4] && v[..4][..3] == v[..3] && v[..3][..2] == v[..2] && v[..2][..1] == v[..1] && v[..1][..0] == [];
    AppendsFromZero(v[..1]);
    AppendsFromZero(v[..2]);
    AppendsFromZero(v[..3]);
    AppendsFromZero(v[..4]);
    AppendsFromZero(v[..5]);
    AppendsFromZero(v);
    PolymodOfNothing();
    Concatenation(v[0], v[1], v[2], v[3], v[4], v[5]);
  }

  lemma PolymodOfNothing()
    ensures PolymodFrom(0, []) == 0
  {
  }

  /** The five bits of `chk` at `5 * (5 - i)`. */
  function Digit(chk: bv32, i: nat): bv32
    requires i < 6
  {
    match i
    case 0 => (chk >> 25) & 31
    case 1 => (chk >> 20) & 31
    case 2 => (chk >> 15) & 31
    case 3 => (chk >> 10) & 31
    case 4 => (chk >> 5) & 31
    case _ => chk & 31
  }

  function DigitsOfState(chk: bv32): (d: seq<bv32>)
    ensures |d| == 6
  {
    [Digit(chk, 0), Digit(chk, 1), Digit(chk, 2), Digit(chk, 3), Digit(chk, 4), Digit(chk, 5)]
  }

  lemma DigitsAreSmall(chk: bv32)
    ensures AllSmall(DigitsOfState(chk))
  {
  }

  lemma DigitsSpell(chk: bv32)
    requires InState(chk)
    ensures Spelled(DigitsOfState(chk)) == chk
  {
  }

  /** The six values that bring any string to 1: those of its checksum over six zeros, plus 1. */
  lemma {:induction false} ChecksumCloses(values: seq<bv32>)
    requires AllSmall(values)
    ensures PolymodFrom(1, values + DigitsOfState(Plus(PolymodFrom(1, values + Zeros(6)), 1))) == 1
  {
    hide PolymodFrom, Plus, Small, InState, DigitsOfState, Spelled;
    var s := PolymodFrom(1, values);
    var open := PolymodFrom(s, Zeros(6));
    var c := Plus(open, 1);
    var d := DigitsOfState(c);
    OneInState();
    PolymodStaysInState(1, values);
    SmallZero();
    PolymodStaysInState(s, Zeros(6));
    StaysInStateWithOne(open);
    DigitsAreSmall(c);
    DigitsSpell(c);
    SixFromZero(d);
    PolymodConcat(1, values, Zeros(6));
    PolymodConcat(1, values, d);
    PolymodIsLinear(s, 0, Zeros(6), d);
    SumWithZeros(d);
    PlusZero(s);
    PlusAssociates(open, open, 1);
    PlusZero(open);
    PlusZero(1);
  }

  lemma OneInState()
    ensures InState(1) && Small(0)
  {
  }

  lemma SmallZero()
    ensures AllSmall(Zeros(6))
  {
  }

  lemma StaysInStateWithOne(a: bv32)
    ensures InState(a) ==> InState(Plus(a, 1))
  {
  }

  lemma SumWithZeros(d: seq<bv32>)
    requires |d| == 6
    ensures Sum(Zeros(6), d) == d
  {
    hide Plus;
    forall i | 0 <= i < 6 ensures Sum(Zeros(6), d)[i] == d[i] {
      PlusZero(d[i]);
    }
  }

  // ---- integers that never wrap ---------------------------------------------------------

  function Wide(a: bv32): bv64 { a as bv64 }

  /** nsec.py's `polymod`: its integers are wider than any state, and no bit is ever lost. */
  method PythonPolymod(values: seq<bv32>) returns (c: bv64)
    requires AllSmall(values)
    ensures c == Wide(PolymodFrom(1, values))
  {
    hide Shift, InState, Small, Wide;
    c := 1;
    WideOne();
    for n := 0 to |values|
      invariant c == Wide(PolymodFrom(1, values[..n])) && InState(PolymodFrom(1, values[..n]))
    {
      assert values[..n + 1][..n] == values[..n];
      ShiftStaysInState(PolymodFrom(1, values[..n]), values[n]);
      c := PythonFold(PolymodFrom(1, values[..n]), c, values[n]);
    }
    assert values[..|values|] == values;
  }

  method PythonFold(ghost chk: bv32, c: bv64, x: bv32) returns (next: bv64)
    requires c == Wide(chk) && InState(chk) && Small(x)
    ensures next == Wide(Shift(chk, x))
  {
    hide Bit, Feedback, Plus, Wide, InState, Small, High, Low;
    WideHalves(chk, x, c);
    var b := c >> 25;
    next := ((c & 0x1ff_ffff) << 5) ^ (x as bv64);
    ghost var start := Plus(Low(chk), x);
    PlusZero(start);
    NoFeedback(High(chk));
    for i := 0 to 5
      invariant next == Wide(Plus(start, Feedback(High(chk), i)))
    {
      WideBit(High(chk), i, b);
      FeedbackGrows(High(chk), i);
      PlusAssociates(start, Feedback(High(chk), i), GENERATORS[i]);
      if (b >> i) & 1 == 1 {
        next := WideXorInto(Plus(start, Feedback(High(chk), i)), next, GENERATORS[i]);
      }
    }
  }

  method WideXorInto(ghost narrow: bv32, a: bv64, b: bv32) returns (c: bv64)
    requires a == Wide(narrow)
    ensures c == Wide(Plus(narrow, b))
  {
    c := a ^ (b as bv64);
  }

  lemma NoFeedback(b: bv32)
    ensures Feedback(b, 0) == 0
  {
  }

  lemma FeedbackGrows(b: bv32, i: nat)
    requires i < 5
    ensures Feedback(b, i + 1) == if Bit(b, i) then Plus(Feedback(b, i), GENERATORS[i]) else Feedback(b, i)
  {
    hide Plus, Bit;
    PlusZero(Feedback(b, i));
  }

  lemma WideOne()
    ensures Wide(1) == 1 && InState(1)
  {
  }

  lemma WideHalves(chk: bv32, x: bv32, c: bv64)
    ensures InState(chk) && c == Wide(chk) ==> c >> 25 == Wide(High(chk))
    ensures InState(chk) && c == Wide(chk) ==> ((c & 0x1ff_ffff) << 5) ^ (x as bv64) == Wide(Plus(Low(chk), x))
  {
  }

  lemma WideBit(b: bv32, i: nat, wide: bv64)
    ensures i < 5 && wide == Wide(b) ==> (Bit(b, i) <==> (wide >> i) & 1 == 1)
  {
  }
}
