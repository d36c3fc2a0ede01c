/**
  The Bech32 alphabet and checksum against the standard's own example (BIP 173, "Test vectors"):
  the string that holds every character once, in order, behind the prefix `abcdef`. Its checksum
  is computed here step by step: what the shift register holds before and after each value of the
  prefix, of the thirty-two characters and of the six that close it, and how each is spelled.
 */
module Alphabet {
  import opened Prelude
  import opened Regroup
  import opened Checksum
  import opened Texts
  import opened Bech32
  import opened Bursts

  const PREFIX_VALUES: seq<bv32> := [3, 3, 3, 3, 3, 3, 0, 1, 2, 3, 4, 5, 6]
  const PREFIX_STATES: seq<bv32> := [
    0x00000001, 0x00000023, 0x00000463, 0x00008c63, 0x00118c63, 0x02318c63, 0x3d5bdbd1, 0x04dcbcd9, 0x3dc7154c, 0x17456f7b,
    0x08d50561, 0x0401b5de, 0x266635a8, 0x3be80e6a]

  const FIRST_VALUES: seq<bv32> := [0, 1, 2, 3, 4, 5, 6, 7, 8, 9, 10, 11, 12]
  const FIRST_STATES: seq<bv32> := [
    0x3be80e6a, 0x0f9cd266, 0x30018ce4, 0x1767cdec, 0x0c815781, 0x28db67b3, 0x2fd98d2c, 0x12be0710, 0x11e88668, 0x0052fed5,
    0x0a5fdaa9, 0x2e301b62, 0x2f8ccedd, 0x1816793a]

  const SECOND_VALUES: seq<bv32> := [13, 14, 15, 16, 17, 18, 19, 20, 21, 22, 23, 24, 25]
  const SECOND_STATES: seq<bv32> := [
    0x1816793a, 0x212c0d6a, 0x0f95cffd, 0x31223f8a, 0x3311a03e, 0x0e08010d, 0x029be197, 0x28166541, 0x3679d37d, 0x0556e704,
    0x0c8c6efb, 0x297c48e0, 0x1b3c6751, 0x3f0597ac]

  const LAST_VALUES: seq<bv32> := [26, 27, 28, 29, 30, 31, 27, 0, 0, 0, 6, 14]
  const LAST_STATES: seq<bv32> := [
    0x3f0597ac, 0x347f64d1, 0x3eea4538, 0x09853657, 0x2e07d307, 0x2975c268, 0x1a0d3656, 0x192fb74e, 0x0615c3e7, 0x1f82a53f,
    0x0e8d5418, 0x12314323, 0x00000001]

  lemma PrefixStep1()
    ensures Shift(0x00000001, 3) == 0x00000023 && Shift(0x00000023, 3) == 0x00000463 && Shift(0x00000463, 3) == 0x00008c63
    ensures Shift(0x00008c63, 3) == 0x00118c63 && Shift(0x00118c63, 3) == 0x02318c63 && Shift(0x02318c63, 3) == 0x3d5bdbd1
    ensures Shift(0x3d5bdbd1, 0) == 0x04dcbcd9
  {
  }

  lemma PrefixStep2()
    ensures Shift(0x04dcbcd9, 1) == 0x3dc7154c && Shift(0x3dc7154c, 2) == 0x17456f7b && Shift(0x17456f7b, 3) == 0x08d50561
    ensures Shift(0x08d50561, 4) == 0x0401b5de && Shift(0x0401b5de, 5) == 0x266635a8 && Shift(0x266635a8, 6) == 0x3be80e6a
  {
  }

  lemma PrefixPasses()
    ensures Passes(PREFIX_STATES, PREFIX_VALUES)
  {
    hide Shift;
    PrefixStep1();
    PrefixStep2();
  }

  lemma FirstStep1()
    ensures Shift(0x3be80e6a, 0) == 0x0f9cd266 && Shift(0x0f9cd266, 1) == 0x30018ce4 && Shift(0x30018ce4, 2) == 0x1767cdec
    ensures Shift(0x1767cdec, 3) == 0x0c815781 && Shift(0x0c815781, 4) == 0x28db67b3 && Shift(0x28db67b3, 5) == 0x2fd98d2c
    ensures Shift(0x2fd98d2c, 6) == 0x12be0710
  {
  }

  lemma FirstStep2()
    ensures Shift(0x12be0710, 7) == 0x11e88668 && Shift(0x11e88668, 8) == 0x0052fed5 && Shift(0x0052fed5, 9) == 0x0a5fdaa9
    ensures Shift(0x0a5fdaa9, 10) == 0x2e301b62 && Shift(0x2e301b62, 11) == 0x2f8ccedd && Shift(0x2f8ccedd, 12) == 0x1816793a
  {
  }

  lemma FirstPasses()
    ensures Passes(FIRST_STATES, FIRST_VALUES)
  {
    hide Shift;
    FirstStep1();
    FirstStep2();
  }

  lemma SecondStep1()
    ensures Shift(0x1816793a, 13) == 0x212c0d6a && Shift(0x212c0d6a, 14) == 0x0f95cffd && Shift(0x0f95cffd, 15) == 0x31223f8a
    ensures Shift(0x31223f8a, 16) == 0x3311a03e && Shift(0x3311a03e, 17) == 0x0e08010d && Shift(0x0e08010d, 18) == 0x029be197
    ensures Shift(0x029be197, 19) == 0x28166541
  {
  }

  lemma SecondStep2()
    ensures Shift(0x28166541, 20) == 0x3679d37d && Shift(0x3679d37d, 21) == 0x0556e704 && Shift(0x0556e704, 22) == 0x0c8c6efb
    ensures Shift(0x0c8c6efb, 23) == 0x297c48e0 && Shift(0x297c48e0, 24) == 0x1b3c6751 && Shift(0x1b3c6751, 25) == 0x3f0597ac
  {
  }

  lemma SecondPasses()
    ensures Passes(SECOND_STATES, SECOND_VALUES)
  {
    hide Shift;
    SecondStep1();
    SecondStep2();
  }

  lemma LastStep1()
    ensures Shift(0x3f0597ac, 26) == 0x347f64d1 && Shift(0x347f64d1, 27) == 0x3eea4538 && Shift(0x3eea4538, 28) == 0x09853657
    ensures Shift(0x09853657, 29) == 0x2e07d307 && Shift(0x2e07d307, 30) == 0x2975c268 && Shift(0x2975c268, 31) == 0x1a0d3656
    ensures Shift(0x1a0d3656, 27) == 0x192fb74e
  {
  }

  lemma LastStep2()
    ensures Shift(0x192fb74e, 0) == 0x0615c3e7 && Shift(0x0615c3e7, 0) == 0x1f82a53f && Shift(0x1f82a53f, 0) == 0x0e8d5418
    ensures Shift(0x0e8d5418, 6) == 0x12314323 && Shift(0x12314323, 14) == 0x00000001
  {
  }

  lemma LastPasses()
    ensures Passes(LAST_STATES, LAST_VALUES)
  {
    hide Shift;
    LastStep1();
    LastStep2();
  }

  lemma AlphabetCloses()
    ensures PolymodFrom(1, PREFIX_VALUES + (FIRST_VALUES + SECOND_VALUES + LAST_VALUES)) == 1
  {
    hide Passes, PolymodFrom;
    PrefixPasses();
    FirstPasses();
    SecondPasses();
    LastPasses();
    PassesTo(PREFIX_STATES, PREFIX_VALUES);
    PassesTo(FIRST_STATES, FIRST_VALUES);
    PassesTo(SECOND_STATES, SECOND_VALUES);
    PassesTo(LAST_STATES, LAST_VALUES);
    PolymodConcat(1, PREFIX_VALUES, FIRST_VALUES);
    PolymodConcat(1, PREFIX_VALUES + FIRST_VALUES, SECOND_VALUES);
    PolymodConcat(1, PREFIX_VALUES + FIRST_VALUES + SECOND_VALUES, LAST_VALUES);
    assert PREFIX_VALUES + FIRST_VALUES + SECOND_VALUES + LAST_VALUES == PREFIX_VALUES + (FIRST_VALUES + SECOND_VALUES + LAST_VALUES);
  }

  lemma Bits0()
    ensures Bits(0) == 0 && Bits(1) == 1 && Bits(2) == 2
    ensures Bits(3) == 3 && Bits(4) == 4 && Bits(5) == 5
    ensures Bits(6) == 6 && Bits(7) == 7
  {
  }

  lemma Bits8()
    ensures Bits(8) == 8 && Bits(9) == 9 && Bits(10) == 10
    ensures Bits(11) == 11 && Bits(12) == 12 && Bits(13) == 13
    ensures Bits(14) == 14 && Bits(15) == 15
  {
  }

  lemma Bits16()
    ensures Bits(16) == 16 && Bits(17) == 17 && Bits(18) == 18
    ensures Bits(19) == 19 && Bits(20) == 20 && Bits(21) == 21
    ensures Bits(22) == 22 && Bits(23) == 23
  {
  }

  lemma Bits24()
    ensures Bits(24) == 24 && Bits(25) == 25 && Bits(26) == 26
    ensures Bits(27) == 27 && Bits(28) == 28 && Bits(29) == 29
    ensures Bits(30) == 30 && Bits(31) == 31
  {
  }

  const EIGHT_0: seq<Word> := [0, 1, 2, 3, 4, 5, 6, 7]
  const EIGHT_1: seq<Word> := [8, 9, 10, 11, 12, 13, 14, 15]
  const EIGHT_2: seq<Word> := [16, 17, 18, 19, 20, 21, 22, 23]
  const EIGHT_3: seq<Word> := [24, 25, 26, 27, 28, 29, 30, 31]
  const COUNT: seq<Word> := EIGHT_0 + EIGHT_1 + EIGHT_2 + EIGHT_3
  const SIX: seq<Word> := [27, 0, 0, 0, 6, 14]

  lemma Spelled0()
    ensures SymbolsOf(EIGHT_0) == Ascii("qpzry9x8")
  {
  }

  lemma Spelled1()
    ensures SymbolsOf(EIGHT_1) == Ascii("gf2tvdw0")
  {
  }

  lemma Spelled2()
    ensures SymbolsOf(EIGHT_2) == Ascii("s3jn54kh")
  {
  }

  lemma Spelled3()
    ensures SymbolsOf(EIGHT_3) == Ascii("ce6mua7l")
  {
  }

  lemma SpelledSix()
    ensures SymbolsOf(SIX) == Ascii("mqqqxw") && |COUNT| == 32
  {
  }

  lemma AsciiJoins(a: string, b: string)
    ensures Ascii(a + b) == Ascii(a) + Ascii(b)
  {
  }

  lemma CountIsSpelled()
    ensures SymbolsOf(COUNT) == Ascii("qpzry9x8gf2tvdw0s3jn54khce6mua7l") && SymbolsOf(SIX) == Ascii("mqqqxw")
  {
    Spelled0();
    Spelled1();
    Spelled2();
    Spelled3();
    SpelledSix();
    assert "qpzry9x8" + "gf2tvdw0" + "s3jn54kh" + "ce6mua7l" == "qpzry9x8gf2tvdw0s3jn54khce6mua7l";
    hide SymbolsOf, Ascii, EIGHT_0, EIGHT_1, EIGHT_2, EIGHT_3;
    SymbolsJoin(EIGHT_0, EIGHT_1);
    SymbolsJoin(EIGHT_0 + EIGHT_1, EIGHT_2);
    SymbolsJoin(EIGHT_0 + EIGHT_1 + EIGHT_2, EIGHT_3);
    AsciiJoins("qpzry9x8", "gf2tvdw0");
    AsciiJoins("qpzry9x8" + "gf2tvdw0", "s3jn54kh");
    AsciiJoins("qpzry9x8" + "gf2tvdw0" + "s3jn54kh", "ce6mua7l");
  }

  lemma Expanded0()
    ensures Values(EIGHT_0) == [0, 1, 2, 3, 4, 5, 6, 7]
  {
    hide Bits;
    Bits0();
  }

  lemma Expanded1()
    ensures Values(EIGHT_1) == [8, 9, 10, 11, 12, 13, 14, 15]
  {
    hide Bits;
    Bits8();
  }

  lemma Expanded2()
    ensures Values(EIGHT_2) == [16, 17, 18, 19, 20, 21, 22, 23]
  {
    hide Bits;
    Bits16();
  }

  lemma Expanded3()
    ensures Values(EIGHT_3) == [24, 25, 26, 27, 28, 29, 30, 31]
  {
    hide Bits;
    Bits24();
  }

  lemma ExpandedSix()
    ensures Values(SIX) == [27, 0, 0, 0, 6, 14]
  {
    hide Bits;
    Bits0();
    Bits8();
    Bits16();
    Bits24();
  }

  lemma Parts()
    ensures [0, 1, 2, 3, 4, 5, 6, 7] + [8, 9, 10, 11, 12, 13, 14, 15] + [16, 17, 18, 19, 20, 21, 22, 23]
          + [24, 25, 26, 27, 28, 29, 30, 31] + [27, 0, 0, 0, 6, 14] == FIRST_VALUES + SECOND_VALUES + LAST_VALUES
  {
  }

  lemma CountExpands()
    ensures Values(COUNT + SIX) == FIRST_VALUES + SECOND_VALUES + LAST_VALUES
  {
    Expanded0();
    Expanded1();
    Expanded2();
    Expanded3();
    ExpandedSix();
    Parts();
    hide Values, EIGHT_0, EIGHT_1, EIGHT_2, EIGHT_3, SIX, FIRST_VALUES, SECOND_VALUES, LAST_VALUES;
    ValuesConcat(EIGHT_0, EIGHT_1);
    ValuesConcat(EIGHT_0 + EIGHT_1, EIGHT_2);
    ValuesConcat(EIGHT_0 + EIGHT_1 + EIGHT_2, EIGHT_3);
    ValuesConcat(COUNT, SIX);
  }

  lemma PrefixWords()
    ensures HrpWords(Ascii("abcdef")) == [3, 3, 3, 3, 3, 3, 0, 1, 2, 3, 4, 5, 6]
  {
    assert Ascii("abcdef") == [0x61, 0x62, 0x63, 0x64, 0x65, 0x66];
  }

  lemma PrefixExpands()
    ensures HrpExpand(Ascii("abcdef")) == PREFIX_VALUES
  {
    hide Bits, HrpWords;
    Bits0();
    PrefixWords();
  }

  /** A text whose words close the checksum is decoded to its prefix and all but the last six of them. */
  lemma ClosedDecodes(hrp: Text, all: seq<Word>)
    requires hrp != [] && Printable(hrp) && |all| >= 6 && PolymodFrom(1, HrpExpand(hrp) + Values(all)) == 1
    ensures Decode(hrp + [ONE] + SymbolsOf(all)) == Some(Decoded(hrp, all[..|all| - 6]))
  {
    hide SymbolsOf, WordsIn, LastOne, HrpExpand, Values, PolymodFrom;
    NoOneInSymbols(all);
    SymbolsLength(all);
    LastOneIs(hrp, SymbolsOf(all));
    var s := hrp + [ONE] + SymbolsOf(all);
    assert s[..|hrp|] == hrp && s[|hrp| + 1..] == SymbolsOf(all);
    WordsInSymbols(all);
  }

  lemma SymbolsJoin(a: seq<Word>, b: seq<Word>)
    ensures SymbolsOf(a + b) == SymbolsOf(a) + SymbolsOf(b)
  {
    hide CharOf;
  }

  /** The example reads as the numbers from 0 to 31, and is what writes them. */
  lemma AlphabetReads()
    ensures
      var text := Ascii("abcdef") + Ascii("1") + (Ascii("qpzry9x8gf2tvdw0s3jn54khce6mua7l") + Ascii("mqqqxw"));
      Decode(text) == Some(Decoded(Ascii("abcdef"), COUNT)) && Encode(Ascii("abcdef"), COUNT) == text
  {
    var hrp, text := Ascii("abcdef"), Ascii("abcdef") + Ascii("1") + (Ascii("qpzry9x8gf2tvdw0s3jn54khce6mua7l") + Ascii("mqqqxw"));
    assert Printable(hrp) && Ascii("1") == [ONE];
    hide Decode, Encode, SymbolsOf, HrpExpand, Values, PolymodFrom, Printable, Ascii;
    AlphabetCloses();
    CountExpands();
    PrefixExpands();
    CountIsSpelled();
    SymbolsJoin(COUNT, SIX);
    SpelledSix();
    ClosedDecodes(hrp, COUNT + SIX);
    assert (COUNT + SIX)[..32] == COUNT;
    DecodeIsCanonical(text);
  }
}
