/** Keys as 64 hexadecimal digits. */
module Hex {
  import opened Prelude
  import opened Digits
  import opened Group

  function HexChar(d: nat): char
    requires d < 16
  {
    if d < 10 then '0' + d as char else 'a' + (d - 10) as char
  }

  predicate IsHexChar(c: char) {
    '0' <= c <= '9' || 'a' <= c <= 'f' || 'A' <= c <= 'F'
  }

  function HexValue(c: char): (d: nat)
    requires IsHexChar(c)
    ensures d < 16
  {
    if c <= '9' then (c - '0') as nat
    else if c <= 'F' then 10 + (c - 'A') as nat
    else 10 + (c - 'a') as nat
  }

  function ToHex(k: PublicKey): (s: string)
    ensures |s| == 64
  {
    var digits := DigitsOf(16, k, 64);
    seq(64, i requires 0 <= i < 64 => HexChar(digits[i]))
  }

  function HexDigits(s: string): (digits: seq<nat>)
    requires forall i :: 0 <= i < |s| ==> IsHexChar(s[i])
    ensures |digits| == |s| && Below(16, digits)
  {
    seq(|s|, i requires 0 <= i < |s| => HexValue(s[i]))
  }

  function FromHex(s: string): Option<PublicKey> {
    if |s| == 64 && forall i :: 0 <= i < |s| ==> IsHexChar(s[i]) then
      SixtyFourDigits();
      ValueBelow(16, HexDigits(s));
      Some(Value(16, HexDigits(s)))
    else None
  }

  lemma SixtyFourDigits()
    ensures Pow(16, 64) == KEY_LIMIT
  {
    assert Pow(16, 8) == 0x1_0000_0000;
    PowAdd(16, 8, 8);
    assert Pow(16, 16) == 0x1_0000_0000_0000_0000;
    PowAdd(16, 16, 16);
    assert Pow(16, 32) == 0x1_0000_0000_0000_0000_0000_0000_0000_0000;
    PowAdd(16, 32, 32);
  }

  lemma HexCharBack(d: nat)
    ensures d < 16 ==> IsHexChar(HexChar(d)) && HexValue(HexChar(d)) == d
  {
  }

  /** Every key is read from what it is written as. */
  lemma {:induction false} HexRoundTrip(k: PublicKey)
    ensures FromHex(ToHex(k)) == Some(k)
  {
    hide HexChar, HexValue, IsHexChar, Pow, Value, DigitsOf;
    var digits, s := DigitsOf(16, k, 64), ToHex(k);
    forall i | 0 <= i < 64 ensures IsHexChar(s[i]) && HexValue(s[i]) == digits[i] {
      HexCharBack(digits[i]);
    }
    assert HexDigits(s) == digits;
    SixtyFourDigits();
    ValueOfDigits(16, k, 64);
  }
}
