/**
  BOLT 11 invoices and LNURLs (crates/hit-event/src/zap.rs, `Invoice` and below): tagged fields
  between a timestamp and a signature, in Bech32.
 */
module Bolt11 {
  import opened Prelude
  import opened Digits
  import opened Texts
  import opened Regroup
  import opened Amounts
  import Bech32

  datatype Invoice = Invoice(
    currency: Text,
    amountMsat: Option<nat>,
    timestamp: nat,
    paymentHash: Option<seq<Byte>>,
    descriptionHash: Option<seq<Byte>>,
    description: Option<Text>,
    expiry: nat)

  const SIGNATURE_WORDS := 104
  const DEFAULT_EXPIRY := 3600

  /** "ln" */
  const LN: Text := [0x6c, 0x6e]

  /** "lightning:" */
  const LIGHTNING: Text := [0x6c, 0x69, 0x67, 0x68, 0x74, 0x6e, 0x69, 0x6e, 0x67, 0x3a]

  predicate IsHash(h: Option<seq<Byte>>) {
    h.Some? ==> |h.value| == 32
  }

  /** What the fields' types hold. */
  predicate IsInvoice(i: Invoice) {
    && (i.amountMsat.Some? ==> i.amountMsat.value < U64_LIMIT) && i.timestamp < U64_LIMIT && i.expiry < U64_LIMIT
    && IsHash(i.paymentHash) && IsHash(i.descriptionHash)
    && (i.description.Some? ==> Utf8(i.description.value))
  }

  predicate IsCurrency(c: Text) {
    c != [] && Printable(c) && NoUpper(c) && NoDigit(c)
  }

  predicate IsShort(d: Option<Text>) {
    d.Some? ==> Utf8(d.value) && |d.value| <= 639
  }

  /** What an invoice can carry: a 35-bit timestamp, ten bits of words a field. */
  predicate InRange(i: Invoice) {
    && IsCurrency(i.currency)
    && (i.amountMsat.Some? ==> Nameable(i.amountMsat.value))
    && i.timestamp < 0x8_0000_0000
    && IsHash(i.paymentHash) && IsHash(i.descriptionHash)
    && IsShort(i.description)
    && i.expiry < U64_LIMIT
  }

  // ---- decode ----------------------------------------------------------------------

  /** `fold(0u64, |a, w| (a << 5) | w)`: high bits fall off. */
  function FoldWords(words: seq<Word>): nat {
    if words == [] then 0
    else FoldWords(words[..|words| - 1]) * 32 % U64_LIMIT + words[|words| - 1]
  }

  function Assign(inv: Invoice, kind: Word, field: seq<Word>): Invoice {
    if kind == 1 && |field| == 52 then inv.(paymentHash := Some(BytesOf(field)))
    else if kind == 23 && |field| == 52 then inv.(descriptionHash := Some(BytesOf(field)))
    else if kind == 13 then
      inv.(description := if Utf8(BytesOf(field)) then Some(BytesOf(field)) else None)
    else if kind == 6 then inv.(expiry := FoldWords(field))
    else inv
  }

  function FieldLength(high: nat, low: nat): nat { high * 32 + low }

  /** Kind, two words of length, then that many words; the last field of a kind counts. */
  function ReadFields(data: seq<Word>, inv: Invoice): Option<Invoice>
    decreases |data|
  {
    if data == [] then Some(inv)
    else if |data| < 3 then None
    else
      var len := FieldLength(data[1], data[2]);
      if 3 + len > |data| then None
      else ReadFields(data[3 + len..], Assign(inv, data[0], data[3..3 + len]))
  }

  /** Where the first digit is, or the length. */
  function FirstDigit(t: Text): (n: nat)
    ensures n <= |t| && NoDigit(t[..n]) && (n < |t| ==> IsDigitByte(t[n]))
  {
    if t == [] || IsDigitByte(t[0]) then 0 else 1 + FirstDigit(t[1..])
  }

  function Blank(currency: Text, amountMsat: Option<nat>, timestamp: nat): Invoice {
    Invoice(currency, amountMsat, timestamp, None, None, None, DEFAULT_EXPIRY)
  }

  /** The invoice of a human-readable part and a data part. */
  function FromParts(hrp: Text, words: seq<Word>): Option<Invoice> {
    var rest := StripPrefix(hrp, LN);
    if rest.None? then None
    else
      var split := FirstDigit(rest.value);
      var currency, amount := rest.value[..split], rest.value[split..];
      var msat := if amount == [] then None else ParseAmount(Chars(amount));
      if currency == [] || (amount != [] && msat.None?) || |words| < 7 + SIGNATURE_WORDS then None
      else
        var data := words[..|words| - SIGNATURE_WORDS];
        ReadFields(data[7..], Blank(currency, msat, FoldWords(data[..7])))
  }

  function WithoutScheme(lower: Text): Text {
    var stripped := StripPrefix(lower, LIGHTNING);
    if stripped.Some? then stripped.value else lower
  }

  function Decode(s: Text): Option<Invoice> {
    var d := Bech32.Decode(WithoutScheme(Lower(Trim(s))));
    if d.None? then None else FromParts(d.value.hrp, d.value.words)
  }

  method DecodeText(s: Text) returns (r: Option<Invoice>)
    ensures r == Decode(s)
  {
    hide Bech32.Decode, Trim, Lower, ParseAmount, FoldWords, FirstDigit;
    var d := Bech32.Decode(WithoutScheme(Lower(Trim(s))));
    if d.None? {
      return None;
    }
    var rest, words := StripPrefix(d.value.hrp, LN), d.value.words;
    if rest.None? {
      return None;
    }
    var split := FirstDigit(rest.value);
    var currency, amount := rest.value[..split], rest.value[split..];
    if currency == [] {
      return None;
    }
    var msat := None;
    if amount != [] {
      msat := ParseAmount(Chars(amount));
      if msat.None? {
        return None;
      }
    }
    if |words| < 7 + SIGNATURE_WORDS {
      return None;
    }
    var data := words[..|words| - SIGNATURE_WORDS];
    r := FieldLoop(data, Blank(currency, msat, FoldWords(data[..7])));
  }

  /** The loop over tagged fields. */
  method FieldLoop(data: seq<Word>, start: Invoice) returns (r: Option<Invoice>)
    requires |data| >= 7
    ensures r == ReadFields(data[7..], start)
  {
    hide FoldWords, BytesOf, Utf8;
    var inv := start;
    var i := 7;
    while i < |data|
      invariant 7 <= i <= |data| && ReadFields(data[7..], start) == ReadFields(data[i..], inv)
    {
      if i + 3 > |data| {
        return None;
      }
      var kind := data[i];
      var len := FieldLength(data[i + 1], data[i + 2]);
      if i + 3 + len > |data| {
        return None;
      }
      var field := data[i + 3..i + 3 + len];
      assert field == data[i..][3..3 + len] && data[i..][3 + len..] == data[i + 3 + len..];
      i := i + 3 + len;
      if kind == 1 && len == 52 {
        var hash := ToBytes(field);
        inv := inv.(paymentHash := Some(hash));
      } else if kind == 23 && len == 52 {
        var hash := ToBytes(field);
        inv := inv.(descriptionHash := Some(hash));
      } else if kind == 13 {
        var text := ToBytes(field);
        inv := inv.(description := if Utf8(text) then Some(text) else None);
      } else if kind == 6 {
        inv := inv.(expiry := FoldWords(field));
      }
    }
    r := Some(inv);
  }

  // ---- encode_unsigned -----------------------------------------------------------------

  /** The base-32 digits of `x`, none for zero. */
  function ExpiryWords(x: nat): seq<Word> {
    if x == 0 then [] else ExpiryWords(x / 32) + [x % 32]
  }

  /** A tagged field; the high half of its length is cut to a byte. */
  function Field(kind: Word, data: seq<Word>): seq<Byte> {
    [kind, |data| / 32 % 256, |data| % 32] + data
  }

  function OptionalField(kind: Word, bytes: Option<seq<Byte>>): seq<Byte> {
    if bytes.None? then [] else Field(kind, WordsOf(bytes.value))
  }

  function ExpiryField(expiry: nat): seq<Byte> {
    if expiry == DEFAULT_EXPIRY then [] else Field(6, ExpiryWords(expiry))
  }

  function Tagged(i: Invoice): seq<Byte> {
    OptionalField(1, i.paymentHash) + OptionalField(23, i.descriptionHash)
    + OptionalField(13, i.description) + ExpiryField(i.expiry)
  }

  function Signature(): seq<Word> {
    seq(SIGNATURE_WORDS, j => 0)
  }

  function InvoiceWords(i: Invoice): seq<Byte> {
    DigitsOf(32, i.timestamp, 7) + Tagged(i) + Signature()
  }

  function Hrp(i: Invoice): Text {
    LN + i.currency + (if i.amountMsat.None? then [] else Ascii(FormatAmount(i.amountMsat.value)))
  }

  predicate AllWords(bytes: seq<Byte>) {
    forall k :: 0 <= k < |bytes| ==> bytes[k] < 32
  }

  /** `None` where the code panics: a word out of the alphabet. */
  function EncodeUnsigned(i: Invoice): Option<Text> {
    var words := InvoiceWords(i);
    if AllWords(words) then Some(Bech32.Encode(Hrp(i), words)) else None
  }

  method EncodeUnsignedText(i: Invoice) returns (r: Option<Text>)
    ensures r == EncodeUnsigned(i)
  {
    hide WordsOf, ExpiryWords, FormatAmount, Bech32.Encode, DigitsOf;
    var hrp := LN + i.currency;
    if i.amountMsat.Some? {
      hrp := hrp + Ascii(FormatAmount(i.amountMsat.value));
    }
    assert hrp == Hrp(i);
    var words: seq<Byte> := DigitsOf(32, i.timestamp, 7);
    words := PushFields(words, i);
    words := words + Signature();
    if !AllWords(words) {
      return None;
    }
    var text := Bech32.EncodeText(hrp, words);
    r := Some(text);
  }

  /** The four tagged fields, each pushed if the invoice has it. */
  method PushFields(start: seq<Byte>, i: Invoice) returns (words: seq<Byte>)
    ensures words == start + Tagged(i)
  {
    hide WordsOf, ExpiryWords, Field;
    words := start;
    ghost var p, h, d := OptionalField(1, i.paymentHash), OptionalField(23, i.descriptionHash), OptionalField(13, i.description);
    if i.paymentHash.Some? {
      var data := ToWords(i.paymentHash.value);
      words := words + Field(1, data);
    }
    assert words == start + p;
    if i.descriptionHash.Some? {
      var data := ToWords(i.descriptionHash.value);
      words := words + Field(23, data);
    }
    assert words == start + (p + h);
    if i.description.Some? {
      var data := ToWords(i.description.value);
      words := words + Field(13, data);
    }
    assert words == start + (p + h + d);
    if i.expiry != DEFAULT_EXPIRY {
      var data := ExpiryLoop(i.expiry);
      words := words + Field(6, data);
    }
  }

  /** `while x > 0 { e.insert(0, x & 31); x >>= 5 }` */
  method ExpiryLoop(expiry: nat) returns (e: seq<Word>)
    ensures e == ExpiryWords(expiry)
  {
    e := [];
    var x := expiry;
    while x > 0
      invariant x >= 0 && ExpiryWords(x) + e == ExpiryWords(expiry)
    {
      e := [x % 32] + e;
      x := x / 32;
    }
  }

  // ---- whatever is read is in range --------------------------------------------------------

  lemma FoldIsU64(words: seq<Word>)
    ensures FoldWords(words) < U64_LIMIT
  {
    if words != [] {
      ShiftIsRound(FoldWords(words[..|words| - 1]));
    }
  }

  lemma ShiftIsRound(x: nat)
    ensures x * 32 % U64_LIMIT <= U64_LIMIT - 32
  {
    var q, r := x * 32 / U64_LIMIT, x * 32 % U64_LIMIT;
    assert x * 32 == q * U64_LIMIT + r;
    assert r == 32 * (x - q * (U64_LIMIT / 32));
  }

  predicate FieldsInRange(i: Invoice) {
    && IsHash(i.paymentHash) && IsHash(i.descriptionHash)
    && IsShort(i.description) && i.expiry < U64_LIMIT
  }

  lemma AssignInRange(inv: Invoice, kind: Word, field: seq<Word>)
    requires FieldsInRange(inv) && |field| < 1024
    ensures FieldsInRange(Assign(inv, kind, field))
    ensures var i := Assign(inv, kind, field);
            i.(paymentHash := inv.paymentHash, descriptionHash := inv.descriptionHash,
               description := inv.description, expiry := inv.expiry) == inv
  {
    hide FoldWords, Utf8;
    FoldIsU64(field);
  }

  lemma {:induction false} FieldsReadInRange(data: seq<Word>, inv: Invoice)
    requires ReadFields(data, inv).Some? && FieldsInRange(inv)
    ensures var i := ReadFields(data, inv).value;
            FieldsInRange(i) && i.(paymentHash := inv.paymentHash, descriptionHash := inv.descriptionHash,
                                   description := inv.description, expiry := inv.expiry) == inv
    decreases |data|
  {
    hide FieldsInRange, Assign;
    if data != [] {
      var len := FieldLength(data[1], data[2]);
      AssignInRange(inv, data[0], data[3..3 + len]);
      FieldsReadInRange(data[3 + len..], Assign(inv, data[0], data[3..3 + len]));
    }
  }

  lemma {:induction false} SevenWordsBelow(words: seq<Word>)
    requires |words| <= 7
    ensures FoldWords(words) < Pow(32, |words|) <= 0x8_0000_0000
  {
    if words != [] {
      SevenWordsBelow(words[..|words| - 1]);
      PowUpTo7(|words|);
    }
  }

  lemma PowUpTo7(n: nat)
    requires n <= 7
    ensures Pow(32, n) <= 0x8_0000_0000
  {
    assert Pow(32, 0) == 1 && Pow(32, 1) == 32 && Pow(32, 2) == 1024 && Pow(32, 3) == 0x8000
        && Pow(32, 4) == 0x10_0000 && Pow(32, 5) == 0x200_0000 && Pow(32, 6) == 0x4000_0000 && Pow(32, 7) == 0x8_0000_0000;
  }

  lemma PartsAreInRange(hrp: Text, words: seq<Word>)
    requires Printable(hrp) && NoUpper(hrp) && FromParts(hrp, words).Some?
    ensures InRange(FromParts(hrp, words).value)
  {
    hide FoldWords, ParseAmount, Utf8, ReadFields;
    var rest := StripPrefix(hrp, LN).value;
    var split := FirstDigit(rest);
    var currency, amount := rest[..split], rest[split..];
    var msat := if amount == [] then None else ParseAmount(Chars(amount));
    var data := words[..|words| - SIGNATURE_WORDS];
    SevenWordsBelow(data[..7]);
    if amount != [] {
      ParsedIsNameable(Chars(amount));
    }
    assert forall k :: 0 <= k < |currency| ==> currency[k] == hrp[2 + k];
    FieldsReadInRange(data[7..], Blank(currency, msat, FoldWords(data[..7])));
  }

  /** Nothing out of range is ever decoded, from any string. */
  lemma DecodedIsInRange(s: Text)
    requires Decode(s).Some?
    ensures InRange(Decode(s).value)
  {
    hide FromParts, InRange, Trim, Lower;
    var lower := Lower(Trim(s));
    LowerHasNoUpper(Trim(s));
    var text := WithoutScheme(lower);
    NoUpperBehind(lower);
    var hrp := Bech32.Decode(text).value.hrp;
    assert forall k :: 0 <= k < |hrp| ==> hrp[k] == text[k];
    PartsAreInRange(hrp, Bech32.Decode(text).value.words);
  }

  lemma NoUpperBehind(lower: Text)
    requires NoUpper(lower)
    ensures NoUpper(WithoutScheme(lower))
  {
    var text := WithoutScheme(lower);
    var skip := |lower| - |text|;
    assert forall k :: 0 <= k < |text| ==> text[k] == lower[skip + k];
  }

  // ---- whatever is in range is read back ---------------------------------------------------

  lemma {:induction false} FoldIsValue(words: seq<Word>)
    requires Value(32, words) < U64_LIMIT
    ensures FoldWords(words) == Value(32, words)
  {
    if words != [] {
      FoldIsValue(words[..|words| - 1]);
    }
  }

  lemma {:induction false} ValueOfExpiry(x: nat)
    ensures Value(32, ExpiryWords(x)) == x
  {
    if x > 0 {
      ValueOfExpiry(x / 32);
      ValueSnoc(32, ExpiryWords(x / 32), x % 32);
    }
  }

  lemma {:induction false} ExpiryIsShort(x: nat, n: nat)
    requires x < Pow(32, n)
    ensures |ExpiryWords(x)| <= n
    decreases n
  {
    if x > 0 && n > 0 {
      ExpiryIsShort(x / 32, n - 1);
    }
  }

  lemma U64IsThirteenWords()
    ensures U64_LIMIT < Pow(32, 13)
  {
    assert Pow(32, 13) == 32 * 32 * 32 * 32 * 32 * 32 * Pow(32, 7);
    PowUpTo7(7);
    assert Pow(32, 7) == 0x8_0000_0000;
  }

  lemma FieldIsWords(kind: Word, data: seq<Word>)
    ensures |data| < 1024 ==> AllWords(Field(kind, data))
  {
  }

  /** A field of at most 1023 words is read, and reading goes on behind it. */
  lemma ReadField(kind: Word, data: seq<Word>, behind: seq<Word>, inv: Invoice)
    requires |data| < 1024
    ensures AllWords(Field(kind, data))
    ensures ReadFields(Field(kind, data) + behind, inv) == ReadFields(behind, Assign(inv, kind, data))
  {
    hide Assign;
    FieldIsWords(kind, data);
    var all: seq<Word> := Field(kind, data) + behind;
    assert all[0] == kind && all[1] == |data| / 32 && all[2] == |data| % 32;
    assert all[3..3 + |data|] == data && all[3 + |data|..] == behind;
  }

  lemma ReadHash(kind: Word, hash: Option<seq<Byte>>, behind: seq<Word>, inv: Invoice)
    requires IsHash(hash) && (kind == 1 || kind == 23)
    ensures AllWords(OptionalField(kind, hash))
    ensures ReadFields(OptionalField(kind, hash) + behind, inv) ==
            ReadFields(behind, if hash.None? then inv
                               else if kind == 1 then inv.(paymentHash := hash) else inv.(descriptionHash := hash))
  {
    hide WordsOf, BytesOf, ReadFields;
    if hash.Some? {
      WordsLength(hash.value);
      BytesOfWords(hash.value);
      ReadField(kind, WordsOf(hash.value), behind, inv);
    } else {
      assert OptionalField(kind, hash) + behind == behind;
    }
  }

  lemma WordsLength(bytes: seq<Byte>)
    ensures |WordsOf(bytes)| == (8 * |bytes| + 4) / 5
  {
  }

  lemma ReadDescription(d: Option<Text>, behind: seq<Word>, inv: Invoice)
    requires IsShort(d)
    ensures AllWords(OptionalField(13, d))
    ensures ReadFields(OptionalField(13, d) + behind, inv) ==
            ReadFields(behind, if d.None? then inv else inv.(description := d))
  {
    hide WordsOf, BytesOf, ReadFields, Utf8;
    if d.Some? {
      WordsLength(d.value);
      BytesOfWords(d.value);
      ReadField(13, WordsOf(d.value), behind, inv);
    } else {
      assert OptionalField(13, d) + behind == behind;
    }
  }

  lemma ReadExpiry(expiry: nat, inv: Invoice)
    requires expiry < U64_LIMIT && inv.expiry == DEFAULT_EXPIRY
    ensures AllWords(ExpiryField(expiry))
    ensures ReadFields(ExpiryField(expiry), inv) == Some(inv.(expiry := expiry))
  {
    hide ExpiryWords, FoldWords, Value, Pow;
    if expiry != DEFAULT_EXPIRY {
      U64IsThirteenWords();
      ExpiryIsShort(expiry, 13);
      ValueOfExpiry(expiry);
      FoldIsValue(ExpiryWords(expiry));
      ReadField(6, ExpiryWords(expiry), [], inv);
      assert ExpiryField(expiry) + [] == ExpiryField(expiry);
    }
  }

  lemma TaggedReads(i: Invoice, blank: Invoice)
    requires FieldsInRange(i) && blank == Blank(blank.currency, blank.amountMsat, blank.timestamp)
    ensures AllWords(Tagged(i))
    ensures ReadFields(Tagged(i), blank) ==
            Some(i.(currency := blank.currency, amountMsat := blank.amountMsat, timestamp := blank.timestamp))
  {
    hide ReadFields, Assign, OptionalField, ExpiryField, IsShort, IsHash;
    var p, h, d, x := OptionalField(1, i.paymentHash), OptionalField(23, i.descriptionHash),
                      OptionalField(13, i.description), ExpiryField(i.expiry);
    var withP := if i.paymentHash.None? then blank else blank.(paymentHash := i.paymentHash);
    var withH := if i.descriptionHash.None? then withP else withP.(descriptionHash := i.descriptionHash);
    var withD := if i.description.None? then withH else withH.(description := i.description);
    ReadExpiry(i.expiry, withD);
    ReadDescription(i.description, x, withH);
    ReadHash(23, i.descriptionHash, d + x, withP);
    ReadHash(1, i.paymentHash, h + (d + x), blank);
    assert Tagged(i) == p + (h + (d + x));
  }

  lemma {:induction false} FirstDigitIs(currency: Text, amount: Text)
    requires NoDigit(currency) && (amount != [] ==> IsDigitByte(amount[0]))
    ensures FirstDigit(currency + amount) == |currency|
  {
    if currency == [] {
      assert currency + amount == amount;
    } else {
      assert (currency + amount)[1..] == currency[1..] + amount;
      FirstDigitIs(currency[1..], amount);
    }
  }

  function AmountText(msat: Option<nat>): Text {
    if msat.None? then [] else Ascii(FormatAmount(msat.value))
  }

  lemma AmountReads(msat: Option<nat>)
    requires msat.Some? ==> Nameable(msat.value)
    ensures msat.None? <==> AmountText(msat) == []
    ensures msat.Some? ==> ParseAmount(Chars(AmountText(msat))) == msat && IsDigitByte(AmountText(msat)[0])
    ensures Printable(AmountText(msat)) && NoUpper(AmountText(msat))
  {
    hide FormatAmount, ParseAmount;
    if msat.Some? {
      AmountIsGraphic(msat.value);
      CharsOfAscii(FormatAmount(msat.value));
      AmountRoundTrip(msat.value);
    }
  }

  lemma TimestampReads(timestamp: nat)
    requires timestamp < 0x8_0000_0000
    ensures FoldWords(DigitsOf(32, timestamp, 7)) == timestamp
  {
    hide DigitsOf, FoldWords;
    PowUpTo7(7);
    assert Pow(32, 7) == 0x8_0000_0000;
    ValueOfDigits(32, timestamp, 7);
    FoldIsValue(DigitsOf(32, timestamp, 7));
  }

  lemma HrpIsTaken(i: Invoice)
    requires InRange(i)
    ensures Hrp(i) == LN + i.currency + AmountText(i.amountMsat)
    ensures Printable(Hrp(i)) && NoUpper(Hrp(i))
  {
    hide FormatAmount, ParseAmount, Utf8;
    AmountReads(i.amountMsat);
  }

  lemma PartsReadBack(i: Invoice)
    requires InRange(i)
    ensures AllWords(InvoiceWords(i)) && FromParts(Hrp(i), InvoiceWords(i)) == Some(i)
  {
    hide ReadFields, FoldWords, ParseAmount, Utf8, DigitsOf, Tagged, FormatAmount, AmountText, FirstDigit, Printable, NoUpper;
    var amount := AmountText(i.amountMsat);
    AmountReads(i.amountMsat);
    FirstDigitIs(i.currency, amount);
    HrpIsTaken(i);
    var hrp, words := Hrp(i), InvoiceWords(i);
    assert hrp[..2] == LN && hrp[2..] == i.currency + amount;
    assert (i.currency + amount)[..|i.currency|] == i.currency && (i.currency + amount)[|i.currency|..] == amount;
    var blank := Blank(i.currency, i.amountMsat, i.timestamp);
    TaggedReads(i, blank);
    TimestampReads(i.timestamp);
    var data := words[..|words| - SIGNATURE_WORDS];
    assert data[..7] == DigitsOf(32, i.timestamp, 7) && data[7..] == Tagged(i);
  }

  /** Text `encode` writes is already trimmed and lower-case. */
  lemma EncodedIsLower(hrp: Text, words: seq<Word>)
    requires Printable(hrp) && NoUpper(hrp)
    ensures Printable(Bech32.Encode(hrp, words)) && NoUpper(Bech32.Encode(hrp, words))
  {
    hide Bech32.CHARSET, Bech32.ChecksumOf;
    var all := words + Bech32.ChecksumOf(hrp, words);
    forall k | 0 <= k < |all| ensures 48 <= Bech32.SymbolsOf(all)[k] <= 122 && !IsUpper(Bech32.SymbolsOf(all)[k]) {
      Bech32.CharsAreGraphic(all[k]);
    }
  }

  lemma ReadsBack(i: Invoice)
    requires InRange(i)
    ensures EncodeUnsigned(i).Some? && Decode(EncodeUnsigned(i).value) == Some(i)
  {
    hide InRange, InvoiceWords, FromParts, Trim, Lower, Printable, NoUpper, Bech32.Decode;
    PartsReadBack(i);
    HrpIsTaken(i);
    var hrp, words := Hrp(i), InvoiceWords(i);
    var s := EncodeUnsigned(i).value;
    EncodedIsLower(hrp, words);
    LowerIsIdle(s);
    PrintableHasNoSpace(s);
    assert s[1] == LN[1] != LIGHTNING[1] by { EncodeStarts(i); }
    Bech32.BechRoundTrip(hrp, words);
  }

  lemma EncodeStarts(i: Invoice)
    requires AllWords(InvoiceWords(i))
    ensures |EncodeUnsigned(i).value| > 1 && EncodeUnsigned(i).value[1] == LN[1]
  {
    hide InvoiceWords;
  }

  /** An invoice survives writing and reading exactly when its fields are in range. */
  lemma InvoiceRoundTrip(i: Invoice)
    requires IsInvoice(i)
    ensures EncodeUnsigned(i).Some? && Decode(EncodeUnsigned(i).value) == Some(i) <==> InRange(i)
  {
    hide EncodeUnsigned, Decode, InRange, IsInvoice;
    if InRange(i) {
      ReadsBack(i);
    }
    if EncodeUnsigned(i).Some? && Decode(EncodeUnsigned(i).value) == Some(i) {
      DecodedIsInRange(EncodeUnsigned(i).value);
    }
  }

  /** It is read from its upper-case spelling and behind the URI scheme as well. */
  lemma OtherSpellings(i: Invoice)
    requires InRange(i)
    ensures EncodeUnsigned(i).Some?
    ensures Decode(Upper(EncodeUnsigned(i).value)) == Some(i)
    ensures Decode(LIGHTNING + EncodeUnsigned(i).value) == Some(i)
  {
    hide InRange, InvoiceWords, FromParts, Trim, Lower, Upper, Printable, NoUpper, Bech32.Decode;
    ReadsBack(i);
    HrpIsTaken(i);
    PartsReadBack(i);
    var s := EncodeUnsigned(i).value;
    EncodedIsLower(Hrp(i), InvoiceWords(i));
    LowerIsIdle(s);
    PrintableHasNoSpace(s);
    EncodeStarts(i);
    var u := LIGHTNING + s;
    SchemeIsPlain(s);
    LowerIsIdle(u);
    PrintableHasNoSpace(u);
    assert u[|LIGHTNING|..] == s;
  }

  lemma SchemeIsPlain(s: Text)
    ensures Printable(s) && NoUpper(s) ==> Printable(LIGHTNING + s) && NoUpper(LIGHTNING + s)
  {
  }

  // ---- LNURL -----------------------------------------------------------------------------------

  /** "lnurl" */
  const LNURL: Text := [0x6c, 0x6e, 0x75, 0x72, 0x6c]

  function LnurlEncode(url: Text): Text {
    Upper(Bech32.Encode(LNURL, WordsOf(url)))
  }

  function LnurlDecode(lnurl: Text): Option<Text> {
    var d := Bech32.Decode(Lower(Trim(lnurl)));
    if d.None? || d.value.hrp != LNURL || !Utf8(BytesOf(d.value.words)) then None
    else Some(BytesOf(d.value.words))
  }

  /** Every URL is inside its LNURL. */
  lemma LnurlRoundTrip(url: Text)
    requires Utf8(url)
    ensures LnurlDecode(LnurlEncode(url)) == Some(url)
  {
    hide Bech32.Decode, Bech32.Encode, WordsOf, BytesOf, Utf8, Trim, Lower, Upper;
    var s := Bech32.Encode(LNURL, WordsOf(url));
    EncodedIsLower(LNURL, WordsOf(url));
    LowerIsIdle(s);
    PrintableHasNoSpace(s);
    Bech32.BechRoundTrip(LNURL, WordsOf(url));
    BytesOfWords(url);
  }
}
