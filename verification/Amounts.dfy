/** BOLT 11 amounts (crates/hit-event/src/zap.rs, `parse_amount` and `format_amount`). */
module Amounts {
  import opened Prelude
  import opened Digits

  /** What a multiplier letter makes of a number, in millisats; `None` is an overflow or a fraction. */
  function Millisats(n: nat, mult: Option<char>): Option<nat> {
    if mult == Some('p') then
      if n % 10 == 0 then Some(n / 10) else None
    else
      var unit := match mult
        case None => 100_000_000_000
        case Some(c) => if c == 'm' then 100_000_000 else if c == 'u' then 100_000 else 100;
      if n * unit < U64_LIMIT then Some(n * unit) else None
  }

  predicate IsMultiplier(c: char) { c == 'm' || c == 'u' || c == 'n' || c == 'p' }

  /** `a` without a multiplier letter at its end, and that letter. */
  function SplitMultiplier(a: string): (string, Option<char>) {
    if a != [] && IsMultiplier(a[|a| - 1]) then (a[..|a| - 1], Some(a[|a| - 1])) else (a, None)
  }

  function ParseAmount(a: string): Option<nat> {
    var (digits, mult) := SplitMultiplier(a);
    if digits == [] || digits[0] == '0' || !AllDigits(digits) then None
    else
      var n := ParseUnsigned(digits, U64_LIMIT);
      if n.None? then None else Millisats(n.value, mult)
  }

  /** `msat * 10` is a u64. */
  function FormatAmount(msat: nat): string {
    if msat % 100_000_000 == 0 then Decimal(msat / 100_000_000) + ['m']
    else if msat % 100_000 == 0 then Decimal(msat / 100_000) + ['u']
    else if msat % 100 == 0 then Decimal(msat / 100) + ['n']
    else Decimal(msat * 10 % U64_LIMIT) + ['p']
  }

  /** The amounts an invoice can name. */
  predicate Nameable(msat: nat) {
    0 < msat < U64_LIMIT && (msat * 10 < U64_LIMIT || msat % 100 == 0)
  }

  /** Every amount that can be read can be named. */
  lemma {:induction false} ParsedIsNameable(a: string)
    requires ParseAmount(a).Some?
    ensures Nameable(ParseAmount(a).value)
  {
    var (digits, mult) := SplitMultiplier(a);
    FirstDigitCounts(digits);
    assert !(digits[0] == '+');
    var n := DecimalValue(digits);
    if mult == Some('p') {
      DivisionHolds(n, 10);
    } else {
      var k: nat := match mult
        case None => 1_000_000_000
        case Some(c) => if c == 'm' then 1_000_000 else if c == 'u' then 1_000 else 1;
      assert ParseAmount(a).value == n * (100 * k);
      assert n * (100 * k) == (n * k) * 100;
      DivMod(n * k, 100, 0);
      TimesGrows(1, n, 100 * k);
    }
  }

  lemma {:induction false} FirstDigitCounts(s: string)
    requires s != [] && AllDigits(s) && s[0] != '0'
    ensures DecimalValue(s) > 0
  {
    if |s| > 1 {
      FirstDigitCounts(s[..|s| - 1]);
    }
  }

  lemma ParseOfPrinted(n: nat, c: char)
    requires 0 < n < U64_LIMIT && IsMultiplier(c)
    ensures ParseAmount(Decimal(n) + [c]) == Millisats(n, Some(c))
  {
    hide Decimal, Millisats;
    DecimalReads(n);
    var a := Decimal(n) + [c];
    assert a[..|a| - 1] == Decimal(n);
    UnsignedRoundTrip(n, U64_LIMIT);
  }

  lemma Scaled(msat: nat, unit: nat, c: char)
    requires 0 < msat < U64_LIMIT && unit > 0 && msat % unit == 0 && IsMultiplier(c)
    requires (c == 'm' && unit == 100_000_000) || (c == 'u' && unit == 100_000) || (c == 'n' && unit == 100)
    ensures 0 < msat / unit < U64_LIMIT && Millisats(msat / unit, Some(c)) == Some(msat)
  {
    DivisionHolds(msat, unit);
    assert (msat / unit) * unit == msat;
  }

  /** An amount reads back exactly when it can be named. */
  lemma {:induction false} AmountRoundTrip(msat: nat)
    requires msat < U64_LIMIT
    ensures ParseAmount(FormatAmount(msat)) == Some(msat) <==> Nameable(msat)
  {
    hide Decimal, ParseAmount, Millisats;
    if ParseAmount(FormatAmount(msat)) == Some(msat) {
      ParsedIsNameable(FormatAmount(msat));
    }
    if Nameable(msat) {
      if msat % 100_000_000 == 0 {
        Scaled(msat, 100_000_000, 'm');
        ParseOfPrinted(msat / 100_000_000, 'm');
      } else if msat % 100_000 == 0 {
        Scaled(msat, 100_000, 'u');
        ParseOfPrinted(msat / 100_000, 'u');
      } else if msat % 100 == 0 {
        Scaled(msat, 100, 'n');
        ParseOfPrinted(msat / 100, 'n');
      } else {
        ParseOfPrinted(msat * 10, 'p');
        assert Millisats(msat * 10, Some('p')) == Some(msat) by { PicoIsTenth(msat); }
      }
    }
  }

  lemma PicoIsTenth(msat: nat)
    ensures Millisats(msat * 10, Some('p')) == Some(msat)
  {
  }

  ghost predicate Graphic(s: string) {
    s != [] && IsDigit(s[0]) && forall i :: 0 <= i < |s| ==> IsDigit(s[i]) || IsMultiplier(s[i])
  }

  lemma PrintedIsGraphic(n: nat, c: char)
    requires IsMultiplier(c)
    ensures Graphic(Decimal(n) + [c])
  {
    hide Decimal;
    DecimalReads(n);
  }

  lemma AmountIsGraphic(msat: nat)
    ensures Graphic(FormatAmount(msat))
  {
    hide Decimal, Graphic;
    PrintedIsGraphic(msat / 100_000_000, 'm');
    PrintedIsGraphic(msat / 100_000, 'u');
    PrintedIsGraphic(msat / 100, 'n');
    PrintedIsGraphic(msat * 10 % U64_LIMIT, 'p');
  }
}
