/** Numbers in positional notation, and the decimal text Rust prints and parses. */
module Digits {
  import opened Prelude

  function Pow(base: nat, n: nat): nat {
    if n == 0 then 1 else base * Pow(base, n - 1)
  }

  /** The value of big-endian digits. */
  function Value(base: nat, digits: seq<nat>): nat {
    if digits == [] then 0
    else Value(base, digits[..|digits| - 1]) * base + digits[|digits| - 1]
  }

  /** The last `len` digits of `n`, big-endian. */
  function DigitsOf(base: nat, n: nat, len: nat): (digits: seq<nat>)
    requires base > 0
    ensures |digits| == len && forall i :: 0 <= i < len ==> digits[i] < base
    decreases len
  {
    if len == 0 then []
    else
      DivisionHolds(n, base);
      DigitsOf(base, n / base, len - 1) + [n % base]
  }

  lemma DivisionHolds(n: nat, base: nat)
    requires base > 0
    ensures 0 <= n / base && 0 <= n % base < base && n == (n / base) * base + n % base
  {
  }

  lemma TimesGrows(a: nat, b: nat, c: nat)
    ensures a <= b ==> a * c <= b * c
  {
  }

  ghost predicate Below(base: nat, digits: seq<nat>) {
    forall i :: 0 <= i < |digits| ==> digits[i] < base
  }

  lemma DivMod(q: nat, base: nat, r: nat)
    requires r < base
    ensures (q * base + r) / base == q && (q * base + r) % base == r
  {
    var n := q * base + r;
    DivisionHolds(n, base);
    var d := n / base;
    if q < d {
      TimesGrows(q + 1, d, base);
    } else {
      TimesGrows(d, q, base);
      if d < q {
        TimesGrows(d + 1, q, base);
      }
    }
  }

  lemma {:induction false} DigitsOfValue(base: nat, digits: seq<nat>)
    requires base > 0 && Below(base, digits)
    ensures DigitsOf(base, Value(base, digits), |digits|) == digits
  {
    if digits != [] {
      var last := |digits| - 1;
      DigitsOfValue(base, digits[..last]);
      DivMod(Value(base, digits[..last]), base, digits[last]);
    }
  }

  lemma {:induction false} ValueOfDigits(base: nat, n: nat, len: nat)
    requires base > 0 && n < Pow(base, len)
    ensures Value(base, DigitsOf(base, n, len)) == n
    decreases len
  {
    if len > 0 {
      QuotientBelow(base, n, Pow(base, len - 1));
      ValueOfDigits(base, n / base, len - 1);
      var digits := DigitsOf(base, n, len);
      assert digits[..len - 1] == DigitsOf(base, n / base, len - 1);
      DivisionHolds(n, base);
    }
  }

  lemma QuotientBelow(base: nat, n: nat, p: nat)
    requires base > 0 && n < base * p
    ensures 0 <= n / base < p
  {
    DivisionHolds(n, base);
    if n / base >= p {
      TimesGrows(p, n / base, base);
    }
  }

  lemma {:induction false} ValueBelow(base: nat, digits: seq<nat>)
    requires base > 0 && Below(base, digits)
    ensures Value(base, digits) < Pow(base, |digits|)
  {
    if digits != [] {
      var last := |digits| - 1;
      ValueBelow(base, digits[..last]);
      TimesGrows(Value(base, digits[..last]) + 1, Pow(base, last), base);
    }
  }

  lemma ValueSnoc(base: nat, digits: seq<nat>, d: nat)
    ensures Value(base, digits + [d]) == Value(base, digits) * base + d
  {
    assert (digits + [d])[..|digits|] == digits;
  }

  lemma {:induction false} PowAdd(base: nat, a: nat, b: nat)
    ensures Pow(base, a + b) == Pow(base, a) * Pow(base, b)
  {
    if a > 0 {
      PowAdd(base, a - 1, b);
      TimesAssociates(base, Pow(base, a - 1), Pow(base, b));
    }
  }

  lemma TimesAssociates(a: nat, b: nat, c: nat)
    ensures a * (b * c) == a * b * c
  {
  }

  lemma {:induction false} PowPositive(base: nat, n: nat)
    requires base > 0
    ensures Pow(base, n) > 0
  {
    if n > 0 {
      PowPositive(base, n - 1);
      TimesGrows(1, base, Pow(base, n - 1));
    }
  }

  // ---- decimal text ---------------------------------------------------------------

  function DigitChar(d: nat): char
    requires d < 10
  {
    '0' + d as char
  }

  predicate IsDigit(c: char) { '0' <= c <= '9' }

  function DigitValue(c: char): nat
    requires IsDigit(c)
  {
    (c - '0') as nat
  }

  /** `to_string` of an unsigned number. */
  function Decimal(n: nat): string {
    if n < 10 then [DigitChar(n)] else Decimal(n / 10) + [DigitChar(n % 10)]
  }

  predicate AllDigits(s: string) {
    forall i :: 0 <= i < |s| ==> IsDigit(s[i])
  }

  function DecimalValue(s: string): nat
    requires AllDigits(s)
  {
    if s == [] then 0 else DecimalValue(s[..|s| - 1]) * 10 + DigitValue(s[|s| - 1])
  }

  /** `parse` of an unsigned type holding numbers below `limit`: an optional `+`, then digits. */
  function ParseUnsigned(s: string, limit: nat): Option<nat> {
    var digits := if s != [] && s[0] == '+' then s[1..] else s;
    if digits == [] || !AllDigits(digits) || DecimalValue(digits) >= limit then None
    else Some(DecimalValue(digits))
  }

  function DecimalInt(x: int): string {
    if x < 0 then ['-'] + Decimal(-x) else Decimal(x)
  }

  /** `parse` of a signed type holding `-limit <= x < limit`. */
  function ParseSigned(s: string, limit: nat): Option<int> {
    if s != [] && s[0] == '-' then
      var digits := s[1..];
      if digits == [] || !AllDigits(digits) || DecimalValue(digits) > limit then None
      else Some(-(DecimalValue(digits) as int))
    else
      var n := ParseUnsigned(s, limit);
      if n.None? then None else Some(n.value)
  }

  lemma {:induction false} DecimalReads(n: nat)
    ensures Decimal(n) != [] && AllDigits(Decimal(n)) && DecimalValue(Decimal(n)) == n
    ensures n > 0 ==> Decimal(n)[0] != '0'
  {
    if n >= 10 {
      DecimalReads(n / 10);
      var front, s := Decimal(n / 10), Decimal(n);
      assert s[..|s| - 1] == front;
    }
  }

  /** A printed number parses back exactly when the type can hold it. */
  lemma {:induction false} UnsignedRoundTrip(n: nat, limit: nat)
    ensures ParseUnsigned(Decimal(n), limit) == if n < limit then Some(n) else None
  {
    DecimalReads(n);
    assert IsDigit(Decimal(n)[0]);
  }

  lemma {:induction false} SignedRoundTrip(x: int, limit: nat)
    requires limit > 0
    ensures ParseSigned(DecimalInt(x), limit) == if -(limit as int) <= x < limit then Some(x) else None
  {
    if x < 0 {
      DecimalReads(-x);
      assert DecimalInt(x)[1..] == Decimal(-x);
    } else {
      DecimalReads(x);
      assert IsDigit(Decimal(x)[0]);
      UnsignedRoundTrip(x, limit);
    }
  }
}
