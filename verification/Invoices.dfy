/**
  What a BOLT 11 text says, field by field, whoever wrote it: any tagged fields in any order, any
  signature, and amounts as fractions of a bitcoin.
 */
module Invoices {
  import opened Prelude
  import opened Digits
  import opened Texts
  import opened Regroup
  import opened Amounts
  import opened Bolt11

  /** A tagged field: its type and its words. */
  datatype TaggedField = TaggedField(kind: Word, data: seq<Word>)

  predicate Sized(fields: seq<TaggedField>) {
    forall i :: 0 <= i < |fields| ==> |fields[i].data| < 1024
  }

  /** Type, length in two words, words; one field after another. */
  function Spelled(fields: seq<TaggedField>): (words: seq<Word>)
    requires Sized(fields)
  {
    if fields == [] then []
    else
      var f := fields[0];
      [f.kind, |f.data| / 32, |f.data| % 32] + f.data + Spelled(fields[1..])
  }

  /** The last field of that type, of those of the right length if there is one. */
  function LastOf(fields: seq<TaggedField>, kind: Word, length: Option<nat>): Option<seq<Word>> {
    if fields == [] then None
    else
      var f := fields[|fields| - 1];
      if f.kind == kind && (length.None? || |f.data| == length.value) then Some(f.data)
      else LastOf(fields[..|fields| - 1], kind, length)
  }

  function AsBytes(words: Option<seq<Word>>): Option<seq<Byte>> {
    if words.None? then None else Some(BytesOf(words.value))
  }

  /** The text a field holds, if it is UTF-8. */
  function AsText(words: Option<seq<Word>>): Option<Text> {
    if words.None? || !Utf8(BytesOf(words.value)) then None else Some(BytesOf(words.value))
  }

  /** Types 1 and 23 are hashes of 256 bits, 13 a text, 6 a number of seconds, an hour if not given. */
  function Told(inv: Invoice, fields: seq<TaggedField>): Invoice {
    var seconds := LastOf(fields, 6, None);
    inv.(paymentHash := AsBytes(LastOf(fields, 1, Some(52))),
         descriptionHash := AsBytes(LastOf(fields, 23, Some(52))),
         description := AsText(LastOf(fields, 13, None)),
         expiry := if seconds.None? then 3600 else Value(32, seconds.value) % 0x1_0000_0000_0000_0000)
  }

  // ---- reading fields -----------------------------------------------------------------------

  lemma {:induction false} FoldIsRemainder(words: seq<Word>)
    ensures FoldWords(words) == Value(32, words) % U64_LIMIT
  {
    if words != [] {
      var last := |words| - 1;
      FoldIsRemainder(words[..last]);
      ShiftedRemainder(Value(32, words[..last]), words[last]);
    }
  }

  lemma ShiftedRemainder(v: nat, d: nat)
    requires d < 32
    ensures v % U64_LIMIT * 32 % U64_LIMIT + d == (v * 32 + d) % U64_LIMIT
  {
    var q, r := v / U64_LIMIT, v % U64_LIMIT;
    assert v * 32 + d == (32 * q) * U64_LIMIT + (r * 32 + d);
    var t := r * 32 / U64_LIMIT;
    ShiftIsRound(r);
    assert r * 32 == t * U64_LIMIT + r * 32 % U64_LIMIT;
    DivMod(32 * q + t, U64_LIMIT, r * 32 % U64_LIMIT + d);
    assert v * 32 + d == (32 * q + t) * U64_LIMIT + (r * 32 % U64_LIMIT + d);
  }

  lemma SpelledSnoc(fields: seq<TaggedField>, f: TaggedField)
    requires Sized(fields) && |f.data| < 1024
    ensures Sized(fields + [f])
    ensures Spelled(fields + [f]) == Spelled(fields) + [f.kind, |f.data| / 32, |f.data| % 32] + f.data
  {
    if fields == [] {
      assert (fields + [f])[1..] == [];
    } else {
      SpelledSnoc(fields[1..], f);
      assert (fields + [f])[1..] == fields[1..] + [f];
    }
  }

  lemma ToldSnoc(inv: Invoice, fields: seq<TaggedField>, f: TaggedField)
    ensures Told(inv, fields + [f]) == Assign(Told(inv, fields), f.kind, f.data)
  {
    hide BytesOf, Utf8, FoldWords;
    FoldIsRemainder(f.data);
    var all := fields + [f];
    assert all[..|all| - 1] == fields;
  }

  /** Fields spelled out are read in order, whatever the ones before them said. */
  lemma {:induction false} SpelledReads(inv: Invoice, fields: seq<TaggedField>, behind: seq<Word>)
    requires Sized(fields) && inv.paymentHash.None? && inv.descriptionHash.None? && inv.description.None? && inv.expiry == 3600
    ensures ReadFields(Spelled(fields) + behind, inv) == ReadFields(behind, Told(inv, fields))
  {
    hide ReadFields, Assign, BytesOf, Utf8;
    if fields == [] {
      assert Spelled(fields) + behind == behind;
    } else {
      var front, f := fields[..|fields| - 1], fields[|fields| - 1];
      assert fields == front + [f];
      SpelledSnoc(front, f);
      ToldSnoc(inv, front, f);
      FieldIsWords(f.kind, f.data);
      var one: seq<Word> := Field(f.kind, f.data);
      SpelledReads(inv, front, one + behind);
      ReadField(f.kind, f.data, behind, Told(inv, front));
      assert Spelled(fields) == Spelled(front) + one;
      hide Spelled, Told, Field;
      assert Spelled(fields) + behind == Spelled(front) + (one + behind);
    }
  }

  /** Nothing else is read: whatever reads is some fields spelled out. */
  lemma {:induction false} ReadIsSpelled(data: seq<Word>, inv: Invoice) returns (fields: seq<TaggedField>)
    requires ReadFields(data, inv).Some?
    ensures Sized(fields) && Spelled(fields) == data
    decreases |data|
  {
    hide Assign;
    if data == [] {
      fields := [];
    } else {
      var len := FieldLength(data[1], data[2]);
      var f := TaggedField(data[0], data[3..3 + len]);
      var rest := ReadIsSpelled(data[3 + len..], Assign(inv, data[0], data[3..3 + len]));
      fields := [f] + rest;
      hide ReadFields;
      assert fields[1..] == rest;
      assert data[1] == len / 32 && data[2] == len % 32;
      assert data == [data[0], data[1], data[2]] + data[3..3 + len] + data[3 + len..];
    }
  }

  // ---- the whole text -----------------------------------------------------------------------

  /** A currency, then nothing or an amount that reads. */
  predicate GoodPrefix(currency: Text, amount: Text) {
    && IsCurrency(currency) && Printable(amount) && NoUpper(amount)
    && (amount != [] ==> IsDigitByte(amount[0]) && ParseAmount(Chars(amount)).Some?)
  }

  /**
    Whoever signed it and whatever else it says: `ln`, a currency, an amount or none, seven words
    of timestamp, any tagged fields and any 104 words of signature read as what the fields tell.
   */
  lemma {:induction false} ReadsWhateverTheSignature(currency: Text, amount: Text, time: seq<Word>, fields: seq<TaggedField>, signature: seq<Word>)
    requires GoodPrefix(currency, amount) && |time| == 7 && Sized(fields) && |signature| == 104
    ensures
      var text := Bech32.Encode(Ascii("ln") + currency + amount, time + Spelled(fields) + signature);
      var msat := if amount == [] then None else ParseAmount(Chars(amount));
      Decode(text) == Some(Told(Invoice(currency, msat, Value(32, time), None, None, None, 3600), fields))
  {
    hide ReadFields, Told, Spelled, ParseAmount, FirstDigit, Trim, Lower, Bech32.Decode, Bech32.Encode, FoldWords, Value, Printable, NoUpper;
    var hrp, words := Ascii("ln") + currency + amount, time + Spelled(fields) + signature;
    PrefixIsTaken(currency, amount);
    TextReads(hrp, words);
    FirstDigitIs(currency, amount);
    assert hrp[..2] == LN && hrp[2..] == currency + amount by { LnIs(); }
    assert (currency + amount)[..|currency|] == currency && (currency + amount)[|currency|..] == amount;
    TimeFits(time);
    FoldIsRemainder(time);
    var data := words[..|words| - 104];
    assert data[..7] == time && data[7..] == Spelled(fields) + [];
    var msat := if amount == [] then None else ParseAmount(Chars(amount));
    var blank := Blank(currency, msat, FoldWords(time));
    SpelledReads(blank, fields, []);
    NothingBehind(Told(blank, fields));
  }

  lemma NothingBehind(inv: Invoice)
    ensures ReadFields([], inv) == Some(inv)
  {
  }

  lemma LnIs()
    ensures Ascii("ln") == LN && LIGHTNING == Ascii("lightning:") && LNURL == Ascii("lnurl")
  {
  }

  lemma TimeFits(time: seq<Word>)
    requires |time| == 7
    ensures Value(32, time) < U64_LIMIT && Value(32, time) % U64_LIMIT == Value(32, time)
  {
    WordsBelow(time);
    ValueBelow(32, time);
    PowUpTo7(7);
  }

  lemma PrefixIsTaken(currency: Text, amount: Text)
    requires GoodPrefix(currency, amount)
    ensures Printable(Ascii("ln") + currency + amount) && NoUpper(Ascii("ln") + currency + amount)
  {
    hide ParseAmount;
    LnIs();
  }

  /** A lower-case text is decoded as it was put together. */
  lemma TextReads(hrp: Text, words: seq<Word>)
    requires Printable(hrp) && NoUpper(hrp) && |hrp| >= 2 && hrp[1] == LN[1]
    ensures Decode(Bech32.Encode(hrp, words)) == FromParts(hrp, words)
  {
    hide FromParts, Trim, Lower, Printable, NoUpper, Bech32.Decode;
    var s := Bech32.Encode(hrp, words);
    EncodedIsLower(hrp, words);
    LowerIsIdle(s);
    PrintableHasNoSpace(s);
    assert s[1] == LN[1] != LIGHTNING[1];
    Bech32.BechRoundTrip(hrp, words);
  }

  /** And nothing else does: seven words, fields spelled out, and the last 104 words, never looked at. */
  lemma {:induction false} OnlySuchPartsRead(hrp: Text, words: seq<Word>) returns (fields: seq<TaggedField>)
    requires FromParts(hrp, words).Some?
    ensures |words| >= 111 && Ascii("ln") <= hrp && Sized(fields)
    ensures words == words[..7] + Spelled(fields) + words[|words| - 104..]
  {
    hide ParseAmount, FirstDigit, FoldWords, ReadFields;
    LnIs();
    var data := words[..|words| - 104];
    var rest := StripPrefix(hrp, LN).value;
    var split := FirstDigit(rest);
    var msat := if rest[split..] == [] then None else ParseAmount(Chars(rest[split..]));
    fields := ReadIsSpelled(data[7..], Blank(rest[..split], msat, FoldWords(data[..7])));
    assert data == words[..7] + data[7..];
  }

  /** An invoice in range is read from its own words under any signature. */
  lemma {:induction false} AnySignatureReads(i: Invoice, signature: seq<Word>)
    requires InRange(i) && |signature| == 104
    ensures AllWords(Tagged(i))
    ensures Decode(Bech32.Encode(Hrp(i), DigitsOf(32, i.timestamp, 7) + Tagged(i) + signature)) == Some(i)
  {
    hide ReadFields, FoldWords, ParseAmount, Utf8, DigitsOf, Tagged, FormatAmount, AmountText, FirstDigit, Printable, NoUpper, Bech32.Encode;
    var amount := AmountText(i.amountMsat);
    AmountReads(i.amountMsat);
    FirstDigitIs(i.currency, amount);
    HrpIsTaken(i);
    var blank := Blank(i.currency, i.amountMsat, i.timestamp);
    TaggedReads(i, blank);
    TimestampReads(i.timestamp);
    var hrp := Hrp(i);
    var words: seq<Word> := DigitsOf(32, i.timestamp, 7) + Tagged(i) + signature;
    assert hrp[..2] == LN && hrp[2..] == i.currency + amount;
    assert (i.currency + amount)[..|i.currency|] == i.currency && (i.currency + amount)[|i.currency|..] == amount;
    TextReads(hrp, words);
    var data := words[..|words| - 104];
    assert data[..7] == DigitsOf(32, i.timestamp, 7) && data[7..] == Tagged(i);
  }

  // ---- white space ----------------------------------------------------------------------------

  /** Tabs, line ends and spaces. */
  predicate Blanks(t: Text) {
    forall i :: 0 <= i < |t| ==> t[i] == 32 || 9 <= t[i] <= 13
  }

  lemma {:induction false} TrimAround(front: Text, t: Text, back: Text)
    requires Blanks(front) && Blanks(back)
    ensures Trim(front + t + back) == Trim(t)
    decreases |front| + |t| + |back|
  {
    var s := front + t + back;
    if front != [] {
      assert s[0] == front[0] && s[1..] == front[1..] + t + back;
      TrimAround(front[1..], t, back);
    } else if t != [] && IsSpace(t[0]) {
      assert s[0] == t[0] && s[1..] == [] + t[1..] + back;
      TrimAround([], t[1..], back);
    } else if back != [] {
      var less := back[..|back| - 1];
      TrimAround([], t, less);
      if t == [] {
        assert s == back && Trim([] + t + less) == [];
        BlankIsNothing(back);
      } else {
        assert s[0] == t[0] && s[|s| - 1] == back[|back| - 1] && s[..|s| - 1] == [] + t + less;
      }
    } else {
      assert s == t;
    }
  }

  lemma {:induction false} BlankIsNothing(t: Text)
    requires Blanks(t)
    ensures Trim(t) == []
  {
    if t != [] {
      BlankIsNothing(t[1..]);
    }
  }

  /** White space around an invoice, or an LNURL, does not matter. */
  lemma SpacedReads(front: Text, t: Text, back: Text)
    requires Blanks(front) && Blanks(back)
    ensures Decode(front + t + back) == Decode(t) && LnurlDecode(front + t + back) == LnurlDecode(t)
  {
    hide Trim, Blanks, FromParts, Bech32.Decode, Lower, Utf8, BytesOf;
    TrimAround(front, t, back);
  }

  // ---- amounts --------------------------------------------------------------------------------

  /** How many of the unit make a bitcoin. */
  function PerBitcoin(letter: Option<char>): nat {
    match letter
    case None => 1
    case Some(c) =>
      if c == 'm' then 1_000
      else if c == 'u' then 1_000_000
      else if c == 'n' then 1_000_000_000
      else 1_000_000_000_000
  }

  /**
    An amount is so many bitcoins of 10^11 millisats, or thousandths, millionths and so on of one:
    it reads exactly when that comes to whole millisats that fit in 64 bits.
   */
  lemma {:induction false} AmountMeans(digits: string, letter: Option<char>)
    requires digits != [] && AllDigits(digits) && digits[0] != '0'
    requires letter.Some? ==> letter.value == 'm' || letter.value == 'u' || letter.value == 'n' || letter.value == 'p'
    ensures
      var a := digits + (if letter.None? then [] else [letter.value]);
      var n, unit := DecimalValue(digits), PerBitcoin(letter);
      && (ParseAmount(a).Some? ==> ParseAmount(a).value * unit == n * 100_000_000_000)
      && (ParseAmount(a).Some? <==>
            n < 0x1_0000_0000_0000_0000 && exists v: nat :: v * unit == n * 100_000_000_000 && v < 0x1_0000_0000_0000_0000)
  {
    LettersAside(digits, letter);
    var n, unit := DecimalValue(digits), PerBitcoin(letter);
    hide ParseAmount, DecimalValue;
    if n < U64_LIMIT {
      MillisatsMean(n, letter);
    }
  }

  /** The letter is split off and the digits read as a number. */
  lemma LettersAside(digits: string, letter: Option<char>)
    requires digits != [] && AllDigits(digits) && digits[0] != '0'
    requires letter.Some? ==> IsMultiplier(letter.value)
    ensures
      var a := digits + (if letter.None? then [] else [letter.value]);
      ParseAmount(a) == if DecimalValue(digits) < U64_LIMIT then Millisats(DecimalValue(digits), letter) else None
  {
    hide Millisats, DecimalValue;
    var a := digits + (if letter.None? then [] else [letter.value]);
    assert IsDigit(digits[0]) && IsDigit(digits[|digits| - 1]);
    if letter.Some? {
      assert a[..|a| - 1] == digits;
    } else {
      assert a == digits;
    }
  }

  lemma MillisatsMean(n: nat, letter: Option<char>)
    requires n < U64_LIMIT && (letter.Some? ==> IsMultiplier(letter.value))
    ensures
      var r, unit := Millisats(n, letter), PerBitcoin(letter);
      && (r.Some? ==> r.value * unit == n * 100_000_000_000 && r.value < U64_LIMIT)
      && (r.None? ==> forall v: nat :: v * unit == n * 100_000_000_000 ==> v >= U64_LIMIT)
  {
  }
}
