/**
  Bech32 without its length limit (crates/hit-event/src/zap.rs, `bech32`): strings, their words,
  and the whole of scripts/gui/nsec.py's `encode`. A string is its UTF-8 bytes.
 */
module Bech32 {
  import opened Prelude
  import opened Regroup
  import opened Checksum
  import opened Texts

  const ONE: Byte := 0x31

  /** "qpzry9x8gf2tvdw0s3jn54khce6mua7l" */
  const CHARSET: Text :=
    [0x71, 0x70, 0x7a, 0x72, 0x79, 0x39, 0x78, 0x38, 0x67, 0x66, 0x32, 0x74, 0x76, 0x64, 0x77, 0x30,
     0x73, 0x33, 0x6a, 0x6e, 0x35, 0x34, 0x6b, 0x68, 0x63, 0x65, 0x36, 0x6d, 0x75, 0x61, 0x37, 0x6c]

  // ---- words as machine words ----------------------------------------------------------

  function Bits(w: Word): bv32 { w as bv32 }

  function FromBits(b: bv32): Word
    requires Small(b)
  {
    assert b as int < 32;
    b as int
  }

  lemma BitsRead(w: Word)
    ensures (w as bv32) as int == w && w as bv32 < 32
  {
  }

  lemma BitsAndBack(w: Word)
    ensures Small(Bits(w)) && FromBits(Bits(w)) == w
  {
    BitsRead(w);
  }

  lemma BackAndBits(b: bv32)
    ensures Small(b) ==> Bits(FromBits(b)) == b
  {
  }

  function Values(words: seq<Word>): seq<bv32> {
    seq(|words|, i requires 0 <= i < |words| => Bits(words[i]))
  }

  lemma ValuesAreSmall(words: seq<Word>)
    ensures AllSmall(Values(words))
  {
    forall i | 0 <= i < |words| ensures Small(Values(words)[i]) {
      BitsAndBack(words[i]);
    }
  }

  lemma ValuesDiffer(a: seq<Word>, b: seq<Word>)
    requires |a| == |b| && a != b
    ensures Values(a) != Values(b)
  {
    hide Bits, FromBits;
    var i :| 0 <= i < |a| && a[i] != b[i];
    BitsAndBack(a[i]);
    BitsAndBack(b[i]);
    assert Values(a)[i] != Values(b)[i];
  }

  lemma ValuesConcat(a: seq<Word>, b: seq<Word>)
    ensures Values(a + b) == Values(a) + Values(b)
  {
  }

  /** The high three bits of each character, a zero, the low five of each. */
  function HrpWords(hrp: Text): seq<Word> {
    seq(|hrp|, i requires 0 <= i < |hrp| => hrp[i] / 32)
    + [0]
    + seq(|hrp|, i requires 0 <= i < |hrp| => hrp[i] % 32)
  }

  function HrpExpand(hrp: Text): seq<bv32> {
    Values(HrpWords(hrp))
  }

  // ---- the alphabet ----------------------------------------------------------------------

  function CharOf(w: Word): Byte { CHARSET[w] }

  function IndexFrom(i: nat, c: Byte): Option<Word>
    requires i <= 32
    decreases 32 - i
  {
    if i == 32 then None
    else if CHARSET[i] == c then Some(i)
    else IndexFrom(i + 1, c)
  }

  lemma CharsAreDistinct(i: Word, j: Word)
    ensures i < j ==> CHARSET[i] != CHARSET[j]
  {
  }

  lemma CharsAreGraphic(w: Word)
    ensures CHARSET[w] != ONE && 48 <= CHARSET[w] <= 122 && !(65 <= CHARSET[w] <= 90)
  {
  }

  lemma {:induction false} IndexOfChar(i: nat, w: Word)
    requires i <= w
    ensures IndexFrom(i, CharOf(w)) == Some(w)
    decreases w - i
  {
    hide CHARSET;
    if i < w {
      CharsAreDistinct(i, w);
      IndexOfChar(i + 1, w);
    }
  }

  lemma {:induction false} CharOfIndex(i: nat, c: Byte)
    requires i <= 32 && IndexFrom(i, c).Some?
    ensures CharOf(IndexFrom(i, c).value) == c
    decreases 32 - i
  {
    if CHARSET[i] != c {
      CharOfIndex(i + 1, c);
    }
  }

  function SymbolsOf(words: seq<Word>): Text {
    seq(|words|, i requires 0 <= i < |words| => CharOf(words[i]))
  }

  /** The words of a data part; `None` if some character is not in the alphabet. */
  function WordsIn(data: Text): (r: Option<seq<Word>>)
    ensures r.Some? ==> |r.value| == |data|
  {
    if data == [] then Some([])
    else
      var rest := WordsIn(data[..|data| - 1]);
      var last := IndexFrom(0, data[|data| - 1]);
      if rest.None? || last.None? then None else Some(rest.value + [last.value])
  }

  lemma {:induction false} WordsInSymbols(words: seq<Word>)
    ensures WordsIn(SymbolsOf(words)) == Some(words)
  {
    hide CHARSET, CharOf, IndexFrom;
    if words != [] {
      var last := |words| - 1;
      WordsInSymbols(words[..last]);
      assert SymbolsOf(words)[..last] == SymbolsOf(words[..last]);
      IndexOfChar(0, words[last]);
      assert words[..last] + [words[last]] == words;
    }
  }

  lemma {:induction false} SymbolsInWords(data: Text)
    requires WordsIn(data).Some?
    ensures SymbolsOf(WordsIn(data).value) == data
  {
    hide CHARSET, CharOf, IndexFrom;
    if data != [] {
      var last := |data| - 1;
      SymbolsInWords(data[..last]);
      CharOfIndex(0, data[last]);
    }
  }

  // ---- strings -----------------------------------------------------------------------------

  /** The last `1`. */
  function LastOne(s: Text): (r: Option<nat>)
    ensures r.Some? ==> r.value < |s| && s[r.value] == ONE && forall i :: r.value < i < |s| ==> s[i] != ONE
    ensures r.None? ==> forall i :: 0 <= i < |s| ==> s[i] != ONE
  {
    if s == [] then None
    else if s[|s| - 1] == ONE then Some(|s| - 1)
    else LastOne(s[..|s| - 1])
  }

  datatype Decoded = Decoded(hrp: Text, words: seq<Word>)

  function Check(hrp: Text, words: seq<Word>): bv32 {
    PolymodFrom(1, HrpExpand(hrp) + Values(words))
  }

  /** Prefix and words, if the string is all lower case and its checksum closes. */
  function Decode(s: Text): Option<Decoded> {
    var pos := LastOne(s);
    if pos.None? then None
    else
      var hrp, data := s[..pos.value], s[pos.value + 1..];
      if hrp == [] || |data| < 6 || !Printable(hrp) then None
      else
        var words := WordsIn(data);
        if words.None? || Check(hrp, words.value) != 1 then None
        else Some(Decoded(hrp, words.value[..|words.value| - 6]))
  }

  /** The six words of a thirty-bit number. */
  function WordsOfState(chk: bv32): (words: seq<Word>)
    ensures |words| == 6 && Values(words) == DigitsOfState(chk)
  {
    DigitsAreSmall(chk);
    var d := DigitsOfState(chk);
    var words := seq(6, i requires 0 <= i < 6 => FromBits(d[i]));
    assert forall i :: 0 <= i < 6 ==> Values(words)[i] == d[i] by {
      forall i | 0 <= i < 6 ensures Values(words)[i] == d[i] { BackAndBits(d[i]); }
    }
    words
  }

  function ChecksumOf(hrp: Text, words: seq<Word>): seq<Word> {
    WordsOfState(Plus(PolymodFrom(1, HrpExpand(hrp) + Values(words) + Zeros(6)), 1))
  }

  function Encode(hrp: Text, words: seq<Word>): Text {
    hrp + [ONE] + SymbolsOf(words + ChecksumOf(hrp, words))
  }

  method EncodeText(hrp: Text, words: seq<Word>) returns (s: Text)
    ensures s == Encode(hrp, words)
  {
    hide Plus, DigitsOfState, CHARSET, CharOf, WordsOfState, Bits;
    var chk := Polymod(HrpExpand(hrp) + Values(words) + Zeros(6));
    chk := XorInto(chk, 1);
    s := Push(hrp + [ONE], words + WordsOfState(chk));
  }

  /** The loop that pushes one character a word. */
  method Push(start: Text, words: seq<Word>) returns (s: Text)
    ensures s == start + SymbolsOf(words)
  {
    hide CHARSET, CharOf;
    s := start;
    for i := 0 to |words|
      invariant s == start + SymbolsOf(words[..i])
    {
      assert SymbolsOf(words[..i + 1]) == SymbolsOf(words[..i]) + [CharOf(words[i])];
      s := s + [CharOf(words[i])];
    }
    assert words[..|words|] == words;
  }

  // ---- the round trip -------------------------------------------------------------------------

  lemma ChecksumChecks(hrp: Text, words: seq<Word>)
    ensures Check(hrp, words + ChecksumOf(hrp, words)) == 1
  {
    hide Plus, DigitsOfState, Bits, PolymodFrom, WordsOfState;
    var front := HrpExpand(hrp) + Values(words);
    ValuesAreSmall(HrpWords(hrp));
    ValuesAreSmall(words);
    ChecksumCloses(front);
    ValuesConcat(words, ChecksumOf(hrp, words));
    assert front + Values(ChecksumOf(hrp, words)) == HrpExpand(hrp) + Values(words + ChecksumOf(hrp, words));
  }

  lemma {:induction false} LastOneIs(front: Text, back: Text)
    requires ONE !in back
    ensures LastOne(front + [ONE] + back) == Some(|front|)
  {
    var s := front + [ONE] + back;
    assert s[|front|] == ONE;
    assert forall p :: |front| < p < |s| ==> s[p] == back[p - |front| - 1];
  }

  lemma NoOneInSymbols(words: seq<Word>)
    ensures ONE !in SymbolsOf(words)
  {
    hide CHARSET;
    if ONE in SymbolsOf(words) {
      var i :| 0 <= i < |words| && CharOf(words[i]) == ONE;
      CharsAreGraphic(words[i]);
    }
  }

  /** What `encode` writes decodes to what it was given, exactly when `decode` takes the prefix. */
  lemma {:induction false} BechRoundTrip(hrp: Text, words: seq<Word>)
    ensures Decode(Encode(hrp, words)) ==
            if hrp != [] && Printable(hrp) then Some(Decoded(hrp, words)) else None
  {
    hide SymbolsOf, LastOne, ChecksumOf, Check, WordsIn;
    var all := words + ChecksumOf(hrp, words);
    var s := Encode(hrp, words);
    SymbolsLength(all);
    ChecksumLength(hrp, words);
    NoOneInSymbols(all);
    LastOneIs(hrp, SymbolsOf(all));
    assert s[..|hrp|] == hrp && s[|hrp| + 1..] == SymbolsOf(all);
    WordsInSymbols(all);
    ChecksumChecks(hrp, words);
    assert all[..|all| - 6] == words;
  }

  /** Which prefixes can be read: some character, and none outside the 94 graphic ones of ASCII. */
  lemma TakenExactly(hrp: Text, words: seq<Word>)
    ensures Decode(Encode(hrp, words)).Some? <==> hrp != [] && forall i :: 0 <= i < |hrp| ==> 33 <= hrp[i] <= 126
  {
    hide Decode, Encode;
    BechRoundTrip(hrp, words);
  }

  lemma SymbolsLength(words: seq<Word>)
    ensures |SymbolsOf(words)| == |words|
  {
  }

  lemma ChecksumLength(hrp: Text, words: seq<Word>)
    ensures |ChecksumOf(hrp, words)| == 6
  {
  }

  /** Two word lists with the same prefix that both check differ in more than six consecutive places. */
  lemma BurstFailsCheck(hrp: Text, front: seq<Word>, a: seq<Word>, b: seq<Word>, back: seq<Word>)
    requires |a| == |b| <= 6 && a != b && Check(hrp, front + a + back) == 1
    ensures Check(hrp, front + b + back) != 1
  {
    hide PolymodFrom, Bits;
    var head := HrpExpand(hrp) + Values(front);
    ValuesAreSmall(a);
    ValuesAreSmall(b);
    ValuesDiffer(a, b);
    BurstChangesChecksum(head, Values(a), Values(b), Values(back));
    assert HrpExpand(hrp) + Values(front + a + back) == head + Values(a) + Values(back);
    assert HrpExpand(hrp) + Values(front + b + back) == head + Values(b) + Values(back);
  }

  /** `decode` accepts only what `encode` writes. */
  lemma {:induction false} DecodeIsCanonical(s: Text)
    requires Decode(s).Some?
    ensures Encode(Decode(s).value.hrp, Decode(s).value.words) == s
  {
    hide SymbolsOf, ChecksumOf, Check, WordsIn, Printable;
    var pos := LastOne(s).value;
    var hrp, data := s[..pos], s[pos + 1..];
    assert s == hrp + [ONE] + data;
    var all := WordsIn(data).value;
    assert all[..|all| - 6] == Decode(s).value.words;
    SymbolsInWords(data);
    LastSixAreForced(hrp, all);
  }

  lemma LastSixAreForced(hrp: Text, all: seq<Word>)
    requires |all| >= 6 && Check(hrp, all) == 1
    ensures all == all[..|all| - 6] + ChecksumOf(hrp, all[..|all| - 6])
  {
    hide Check, ChecksumOf;
    var words, six := all[..|all| - 6], all[|all| - 6..];
    var c := ChecksumOf(hrp, words);
    assert all == words + six + [] && words + c + [] == words + c;
    ChecksumChecks(hrp, words);
    ChecksumLength(hrp, words);
    if six != c {
      BurstFailsCheck(hrp, words, six, c, []);
    }
  }

  // ---- errors it is sure to catch ----------------------------------------------------------------

  lemma {:induction false} WordsInSplit(a: Text, b: Text)
    ensures WordsIn(a + b).Some? <==> WordsIn(a).Some? && WordsIn(b).Some?
    ensures WordsIn(a + b).Some? ==> WordsIn(a + b).value == WordsIn(a).value + WordsIn(b).value
  {
    hide IndexFrom;
    if b == [] {
      assert a + b == a;
    } else {
      var last := |b| - 1;
      assert (a + b)[..|a + b| - 1] == a + b[..last];
      WordsInSplit(a, b[..last]);
    }
  }

  /** Reading two words lists that differ only in the middle, if both can be read. */
  lemma BurstInWords(hrp: Text, front: Text, a: Text, b: Text, back: Text)
    requires |a| == |b| <= 6 && a != b
    requires WordsIn(front + a + back).Some? && Check(hrp, WordsIn(front + a + back).value) == 1
    requires WordsIn(front + b + back).Some?
    ensures Check(hrp, WordsIn(front + b + back).value) != 1
  {
    hide WordsIn, Check, SymbolsOf;
    WordsInSplit(front, a);
    WordsInSplit(front + a, back);
    WordsInSplit(front, b);
    WordsInSplit(front + b, back);
    SymbolsInWords(a);
    SymbolsInWords(b);
    BurstFailsCheck(hrp, WordsIn(front).value, WordsIn(a).value, WordsIn(b).value, WordsIn(back).value);
  }

  /**
    A valid string in which up to six consecutive characters of the data part (checksum included)
    are replaced by others, none of them the separator, is never valid, at any length.
   */
  lemma {:induction false} BurstIsRejected(hrp: Text, front: Text, a: Text, b: Text, back: Text)
    requires ONE !in front + a + back && ONE !in b && |a| == |b| <= 6 && a != b
    requires Decode(hrp + [ONE] + (front + a + back)).Some?
    ensures Decode(hrp + [ONE] + (front + b + back)).None?
  {
    hide WordsIn, Check, LastOne, Printable;
    var s, t := hrp + [ONE] + (front + a + back), hrp + [ONE] + (front + b + back);
    LastOneIs(hrp, front + a + back);
    assert ONE !in front + b + back by { assert ONE !in front && ONE !in back by { OneNotIn(front, a, back); } }
    LastOneIs(hrp, front + b + back);
    assert s[..|hrp|] == hrp && s[|hrp| + 1..] == front + a + back;
    assert t[..|hrp|] == hrp && t[|hrp| + 1..] == front + b + back;
    if WordsIn(front + b + back).Some? {
      BurstInWords(hrp, front, a, b, back);
    }
  }

  lemma OneNotIn(a: Text, b: Text, c: Text)
    requires ONE !in a + b + c
    ensures ONE !in a && ONE !in c
  {
    var s := a + b + c;
    assert forall i :: 0 <= i < |a| ==> a[i] == s[i];
    assert forall i :: 0 <= i < |c| ==> c[i] == s[|a| + |b| + i];
  }

  // ---- nsec.py -------------------------------------------------------------------------------------

  /** nsec.py's `encode` writes what `to_words` then `encode` write. */
  method PythonEncode(hrp: Text, data: seq<Byte>) returns (s: Text)
    ensures s == Encode(hrp, WordsOf(data))
  {
    hide Plus, DigitsOfState, CHARSET, CharOf, WordsOfState, Bits, WordsOf, PolymodFrom, Wide;
    var out := PythonWords(data);
    var v := HrpExpand(hrp) + Values(out) + Zeros(6);
    ValuesAreSmall(HrpWords(hrp));
    ValuesAreSmall(out);
    SmallZero();
    var m := PythonPolymod(v);
    var six := PythonSix(PolymodFrom(1, v), m);
    s := Push(hrp + [ONE], out + six);
  }

  /** `m ^ 1`, five bits at a time. */
  method PythonSix(ghost chk: bv32, m: bv64) returns (words: seq<Word>)
    requires m == Wide(chk)
    ensures words == WordsOfState(Plus(chk, 1))
  {
    hide Plus, DigitsOfState, WordsOfState, Wide, Digit, FromBits, Small;
    ghost var c := Plus(chk, 1);
    var x := WideXorInto(chk, m, 1);
    words := [];
    WordsOfStateAre(c);
    for i := 0 to 6
      invariant words == WordsOfState(c)[..i]
    {
      var w := PythonDigit(c, x, i);
      words := words + [w];
    }
  }

  lemma WordsOfStateAre(c: bv32)
    ensures forall i :: 0 <= i < 6 ==> Small(Digit(c, i)) && WordsOfState(c)[i] == FromBits(Digit(c, i))
  {
    DigitsAreSmall(c);
  }

  method PythonDigit(ghost c: bv32, x: bv64, i: nat) returns (w: Word)
    requires i < 6 && x == Wide(c) && Small(Digit(c, i))
    ensures w == FromBits(Digit(c, i))
  {
    hide Wide, Digit, WideDigit, FromBits, Small;
    DigitWidens(c, i);
    var d := WideDigit(x, i);
    WideFromBits(Digit(c, i));
    w := d as int;
  }

  /** `(x >> 5 * (5 - i)) & 31` */
  function WideDigit(x: bv64, i: nat): bv64
    requires i < 6
  {
    match i
    case 0 => (x >> 25) & 31
    case 1 => (x >> 20) & 31
    case 2 => (x >> 15) & 31
    case 3 => (x >> 10) & 31
    case 4 => (x >> 5) & 31
    case _ => x & 31
  }

  lemma DigitsWiden(c: bv32)
    ensures WideDigit(Wide(c), 0) == Wide(Digit(c, 0)) && WideDigit(Wide(c), 1) == Wide(Digit(c, 1))
    ensures WideDigit(Wide(c), 2) == Wide(Digit(c, 2)) && WideDigit(Wide(c), 3) == Wide(Digit(c, 3))
    ensures WideDigit(Wide(c), 4) == Wide(Digit(c, 4)) && WideDigit(Wide(c), 5) == Wide(Digit(c, 5))
  {
  }

  lemma DigitWidens(c: bv32, i: nat)
    requires i < 6
    ensures WideDigit(Wide(c), i) == Wide(Digit(c, i))
  {
    hide Wide, Digit, WideDigit;
    DigitsWiden(c);
    assert i == 0 || i == 1 || i == 2 || i == 3 || i == 4 || i == 5;
  }

  lemma WideFromBits(d: bv32)
    ensures Small(d) ==> Wide(d) < 32 && Wide(d) as int == FromBits(d)
  {
  }
}
