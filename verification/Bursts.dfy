/**
  Where Bech32 promises less than it may seem: a replacement that brings in the separator can
  turn one valid string into another, since the prefix then ends elsewhere. The two checksums are
  computed here step by step: what the shift register holds before and after each value, the
  values of each prefix first and then of the six characters both strings share.
 */
module Bursts {
  import opened Prelude
  import opened Regroup
  import opened Checksum
  import opened Texts
  import opened Bech32

  // ---- a checksum, one value at a time ----------------------------------------------------

  /** `states` are what the shift register holds before and after each value. */
  ghost predicate Passes(states: seq<bv32>, values: seq<bv32>) {
    && |states| == |values| + 1
    && forall i :: 0 <= i < |values| ==> Shift(states[i], values[i]) == states[i + 1]
  }

  lemma {:induction false} PassesTo(states: seq<bv32>, values: seq<bv32>)
    requires Passes(states, values)
    ensures PolymodFrom(states[0], values) == states[|values|]
  {
    hide Shift;
    if values != [] {
      var last := |values| - 1;
      PassesTo(states[..last + 1], values[..last]);
    }
  }

  /** The prefix `ln` and the words of `sjnvueqd7`. */
  const SHORT_WORDS: seq<bv32> := [3, 3, 0, 12, 14, 16, 18, 19, 12, 28, 25, 0, 13, 30]
  const SHORT_STATES: seq<bv32> := [
    0x00000001, 0x00000023, 0x00000463, 0x00008c60, 0x00118c0c, 0x0231818e, 0x3d5a6662, 0x04eb0aab, 0x3b31db1e, 0x14a67cea,
    0x0fdd20ec, 0x383fddbc, 0x0e0cff14, 0x020422a8, 0x3bee02ac]

  /** The prefix `ln1sjnvueqd`. */
  const LONG_WORDS: seq<bv32> := [3, 3, 1, 3, 3, 3, 3, 3, 3, 3, 3, 0]
  const LONG_STATES: seq<bv32> := [
    0x00000001, 0x00000023, 0x00000463, 0x00008c61, 0x00118c23, 0x02318463, 0x3d5adbd1, 0x04fcbcda, 0x39c7152e, 0x3115ed57,
    0x35ebfb8d, 0x0c79aea0, 0x37c44397]
  const REST_WORDS: seq<bv32> := [12, 14, 17, 19, 10, 14, 22, 21, 5, 17, 4]
  const REST_STATES: seq<bv32> := [
    0x37c44397, 0x32e4fa5d, 0x30a34d72, 0x033fff3f, 0x1c95b041, 0x1705ac60, 0x00cd660c, 0x19acc196, 0x167b18f2, 0x2f1bf447,
    0x0af12a67, 0x3bee02ac]

  /** The words of `4tu80y`, which end both. */
  const SHARED_WORDS: seq<bv32> := [21, 11, 28, 7, 15, 4]
  const SHARED_STATES: seq<bv32> := [
    0x3bee02ac, 0x0f5d4ab3, 0x2832964e, 0x32e7b295, 0x30ca547b, 0x0e1cde01, 0x00000001]

  lemma Short1()
    ensures Shift(0x00000001, 3) == 0x00000023 && Shift(0x00000023, 3) == 0x00000463 && Shift(0x00000463, 0) == 0x00008c60
    ensures Shift(0x00008c60, 12) == 0x00118c0c && Shift(0x00118c0c, 14) == 0x0231818e && Shift(0x0231818e, 16) == 0x3d5a6662
    ensures Shift(0x3d5a6662, 18) == 0x04eb0aab
  {
  }

  lemma Short2()
    ensures Shift(0x04eb0aab, 19) == 0x3b31db1e && Shift(0x3b31db1e, 12) == 0x14a67cea && Shift(0x14a67cea, 28) == 0x0fdd20ec
    ensures Shift(0x0fdd20ec, 25) == 0x383fddbc && Shift(0x383fddbc, 0) == 0x0e0cff14 && Shift(0x0e0cff14, 13) == 0x020422a8
    ensures Shift(0x020422a8, 30) == 0x3bee02ac
  {
  }

  lemma Long1()
    ensures Shift(0x00000001, 3) == 0x00000023 && Shift(0x00000023, 3) == 0x00000463 && Shift(0x00000463, 1) == 0x00008c61
    ensures Shift(0x00008c61, 3) == 0x00118c23 && Shift(0x00118c23, 3) == 0x02318463 && Shift(0x02318463, 3) == 0x3d5adbd1
  {
  }

  lemma Long2()
    ensures Shift(0x3d5adbd1, 3) == 0x04fcbcda && Shift(0x04fcbcda, 3) == 0x39c7152e && Shift(0x39c7152e, 3) == 0x3115ed57
    ensures Shift(0x3115ed57, 3) == 0x35ebfb8d && Shift(0x35ebfb8d, 3) == 0x0c79aea0 && Shift(0x0c79aea0, 0) == 0x37c44397
  {
  }

  lemma Rest1()
    ensures Shift(0x37c44397, 12) == 0x32e4fa5d && Shift(0x32e4fa5d, 14) == 0x30a34d72 && Shift(0x30a34d72, 17) == 0x033fff3f
    ensures Shift(0x033fff3f, 19) == 0x1c95b041 && Shift(0x1c95b041, 10) == 0x1705ac60 && Shift(0x1705ac60, 14) == 0x00cd660c
  {
  }

  lemma Rest2()
    ensures Shift(0x00cd660c, 22) == 0x19acc196 && Shift(0x19acc196, 21) == 0x167b18f2 && Shift(0x167b18f2, 5) == 0x2f1bf447
    ensures Shift(0x2f1bf447, 17) == 0x0af12a67 && Shift(0x0af12a67, 4) == 0x3bee02ac
  {
  }

  lemma Shared1()
    ensures Shift(0x3bee02ac, 21) == 0x0f5d4ab3 && Shift(0x0f5d4ab3, 11) == 0x2832964e && Shift(0x2832964e, 28) == 0x32e7b295
    ensures Shift(0x32e7b295, 7) == 0x30ca547b && Shift(0x30ca547b, 15) == 0x0e1cde01 && Shift(0x0e1cde01, 4) == 0x00000001
  {
  }

  lemma ShortPasses()
    ensures Passes(SHORT_STATES, SHORT_WORDS)
  {
    hide Shift;
    Short1();
    Short2();
  }

  lemma LongPasses()
    ensures Passes(LONG_STATES, LONG_WORDS)
  {
    hide Shift;
    Long1();
    Long2();
  }

  lemma RestPasses()
    ensures Passes(REST_STATES, REST_WORDS)
  {
    hide Shift;
    Rest1();
    Rest2();
  }

  lemma SharedPasses()
    ensures Passes(SHARED_STATES, SHARED_WORDS)
  {
    hide Shift;
    Shared1();
  }

  /** Both prefixes lead to one state, from which `4tu80y` leads to 1. */
  lemma BothClose()
    ensures PolymodFrom(1, SHORT_WORDS + SHARED_WORDS) == 1 && PolymodFrom(1, LONG_WORDS + REST_WORDS + SHARED_WORDS) == 1
  {
    hide Passes, PolymodFrom;
    ShortPasses();
    LongPasses();
    RestPasses();
    SharedPasses();
    PassesTo(SHORT_STATES, SHORT_WORDS);
    PassesTo(LONG_STATES, LONG_WORDS);
    PassesTo(REST_STATES, REST_WORDS);
    PassesTo(SHARED_STATES, SHARED_WORDS);
    PolymodConcat(1, SHORT_WORDS, SHARED_WORDS);
    PolymodConcat(1, LONG_WORDS, REST_WORDS);
    PolymodConcat(1, LONG_WORDS + REST_WORDS, SHARED_WORDS);
  }

  // ---- the two strings -------------------------------------------------------------------

  const LN: Text := Ascii("ln")
  const FRONT: Text := Ascii("sjnvueqd")
  const SEVEN: Text := Ascii("7")
  const BACK: Text := Ascii("4tu80y")

  const FRONT_WORDS: seq<Word> := [16, 18, 19, 12, 28, 25, 0, 13]
  const BACK_WORDS: seq<Word> := [21, 11, 28, 7, 15, 4]

  lemma Spellings()
    ensures FRONT + SEVEN + BACK == SymbolsOf(FRONT_WORDS + [30] + BACK_WORDS) && BACK == SymbolsOf(BACK_WORDS)
  {
  }

  lemma FewBits()
    ensures Bits(0) == 0 && Bits(1) == 1 && Bits(3) == 3 && Bits(4) == 4 && Bits(5) == 5 && Bits(7) == 7
    ensures Bits(10) == 10 && Bits(11) == 11 && Bits(12) == 12 && Bits(13) == 13 && Bits(14) == 14 && Bits(15) == 15
  {
  }

  lemma MoreBits()
    ensures Bits(16) == 16 && Bits(17) == 17 && Bits(18) == 18 && Bits(19) == 19 && Bits(21) == 21 && Bits(22) == 22
    ensures Bits(25) == 25 && Bits(28) == 28 && Bits(30) == 30
  {
  }

  lemma ShortPrefix()
    ensures HrpWords(LN) == [3, 3, 0, 12, 14]
  {
    assert LN == [0x6c, 0x6e];
  }

  lemma LongPrefix()
    ensures HrpWords(LN + [ONE] + FRONT) == [3, 3, 1, 3, 3, 3, 3, 3, 3, 3, 3, 0, 12, 14, 17, 19, 10, 14, 22, 21, 5, 17, 4]
  {
    LongSpelling();
  }

  lemma LongSpelling()
    ensures LN + [ONE] + FRONT == [0x6c, 0x6e, 0x31, 0x73, 0x6a, 0x6e, 0x76, 0x75, 0x65, 0x71, 0x64]
  {
  }

  lemma ShortExpands()
    ensures HrpExpand(LN) + Values(FRONT_WORDS + [30] + BACK_WORDS) == SHORT_WORDS + SHARED_WORDS
  {
    hide Bits, HrpWords;
    FewBits();
    MoreBits();
    ShortPrefix();
    assert Values([3, 3, 0, 12, 14]) + Values(FRONT_WORDS + [30]) == SHORT_WORDS;
    assert Values(BACK_WORDS) == SHARED_WORDS;
    ValuesConcat(FRONT_WORDS + [30], BACK_WORDS);
  }

  lemma LongExpands()
    ensures HrpExpand(LN + [ONE] + FRONT) + Values(BACK_WORDS) == LONG_WORDS + REST_WORDS + SHARED_WORDS
  {
    hide Bits, HrpWords, LN, FRONT;
    FewBits();
    MoreBits();
    LongPrefix();
    assert Values([3, 3, 1, 3, 3, 3, 3, 3, 3, 3, 3, 0, 12, 14, 17, 19, 10, 14, 22, 21, 5, 17, 4]) == LONG_WORDS + REST_WORDS;
    assert Values(BACK_WORDS) == SHARED_WORDS;
  }

  lemma ShortDecodes()
    ensures Decode(LN + [ONE] + (FRONT + SEVEN + BACK)) == Some(Decoded(LN, FRONT_WORDS + [30]))
  {
    Spellings();
    assert Printable(LN) && LN != [] && |FRONT + SEVEN + BACK| == 15;
    hide SymbolsOf, WordsIn, LastOne, HrpExpand, Values, PolymodFrom, BACK_WORDS, FRONT_WORDS, LN, FRONT, BACK, SEVEN, Ascii;
    BothClose();
    ShortExpands();
    var all := FRONT_WORDS + [30] + BACK_WORDS;
    WordsInSymbols(all);
    NoOneInSymbols(all);
    LastOneIs(LN, FRONT + SEVEN + BACK);
    var s := LN + [ONE] + (FRONT + SEVEN + BACK);
    assert s[..|LN|] == LN && s[|LN| + 1..] == SymbolsOf(all);
    assert all[..|all| - 6] == FRONT_WORDS + [30] by { SharedLength(); }
  }

  lemma SharedLength()
    ensures |BACK_WORDS| == 6 && |BACK| == 6
  {
  }

  lemma LongDecodes()
    ensures Decode(LN + [ONE] + (FRONT + [ONE] + BACK)) == Some(Decoded(LN + [ONE] + FRONT, []))
  {
    Spellings();
    assert Printable(LN + [ONE] + FRONT) && |BACK_WORDS| == 6 && |BACK| == 6;
    hide SymbolsOf, WordsIn, LastOne, HrpExpand, Values, PolymodFrom, BACK_WORDS, LN, FRONT, BACK, Ascii, Printable;
    BothClose();
    LongExpands();
    WordsInSymbols(BACK_WORDS);
    NoOneInSymbols(BACK_WORDS);
    var hrp := LN + [ONE] + FRONT;
    LastOneIs(hrp, BACK);
    var s := LN + [ONE] + (FRONT + [ONE] + BACK);
    assert s == hrp + [ONE] + BACK;
    assert s[..|hrp|] == hrp && s[|hrp| + 1..] == BACK;
    assert BACK_WORDS[..0] == [];
  }

  /** `ln1sjnvueqd74tu80y` and `ln1sjnvueqd14tu80y` are both valid: one character, replaced by the separator. */
  lemma SeparatorIsMissed()
    ensures |SEVEN| == |[ONE]| == 1 && SEVEN != [ONE] && ONE !in FRONT + SEVEN + BACK
    ensures Decode(LN + [ONE] + (FRONT + SEVEN + BACK)).Some? && Decode(LN + [ONE] + (FRONT + [ONE] + BACK)).Some?
  {
    hide Decode;
    ShortDecodes();
    LongDecodes();
  }

  /** A replacement whose last separator leaves fewer than six characters after it is caught. */
  lemma {:induction false} LateSeparatorIsRejected(hrp: Text, front: Text, b: Text, rest: Text, back: Text)
    requires ONE !in rest + back && |rest + back| < 6
    ensures Decode(hrp + [ONE] + (front + (b + [ONE] + rest) + back)).None?
  {
    var t := hrp + [ONE] + (front + (b + [ONE] + rest) + back);
    assert t == (hrp + [ONE] + front + b) + [ONE] + (rest + back);
    LastOneIs(hrp + [ONE] + front + b, rest + back);
  }
}
