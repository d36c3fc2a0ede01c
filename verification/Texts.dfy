/** Strings as the bytes of their UTF-8, and the few operations on them the codecs use. */
module Texts {
  import opened Prelude

  type Byte = n: nat | n < 256

  type Text = seq<Byte>

  function Ascii(s: string): Text {
    seq(|s|, i requires 0 <= i < |s| => (s[i] as int % 256) as Byte)
  }

  function Chars(t: Text): string {
    seq(|t|, i requires 0 <= i < |t| => t[i] as char)
  }

  lemma CharsOfAscii(s: string)
    ensures (forall i :: 0 <= i < |s| ==> s[i] as int < 256) ==> Chars(Ascii(s)) == s
  {
  }

  predicate IsUpper(b: Byte) { 65 <= b <= 90 }

  predicate IsLower(b: Byte) { 97 <= b <= 122 }

  predicate IsDigitByte(b: Byte) { 48 <= b <= 57 }

  /** Tab to carriage return, and space. */
  predicate IsSpace(b: Byte) { 9 <= b <= 13 || b == 32 }

  /** `to_ascii_lowercase`. */
  function Lower(t: Text): (r: Text)
    ensures |r| == |t|
  {
    seq(|t|, i requires 0 <= i < |t| => if IsUpper(t[i]) then t[i] + 32 else t[i])
  }

  function Upper(t: Text): (r: Text)
    ensures |r| == |t|
  {
    seq(|t|, i requires 0 <= i < |t| => if IsLower(t[i]) then t[i] - 32 else t[i])
  }

  function Trim(t: Text): Text {
    if t != [] && IsSpace(t[0]) then Trim(t[1..])
    else if t != [] && IsSpace(t[|t| - 1]) then Trim(t[..|t| - 1])
    else t
  }

  predicate NoUpper(t: Text) {
    forall i :: 0 <= i < |t| ==> !IsUpper(t[i])
  }

  predicate NoDigit(t: Text) {
    forall i :: 0 <= i < |t| ==> !IsDigitByte(t[i])
  }

  /** Every character has a glyph: 33 to 126. */
  predicate Printable(t: Text) {
    forall i :: 0 <= i < |t| ==> 33 <= t[i] <= 126
  }

  lemma LowerIsIdle(t: Text)
    ensures NoUpper(t) ==> Lower(t) == t && Lower(Upper(t)) == t
  {
  }

  lemma LowerHasNoUpper(t: Text)
    ensures NoUpper(Lower(t))
  {
  }

  lemma PrintableHasNoSpace(t: Text)
    requires Printable(t)
    ensures Trim(t) == t && Trim(Upper(t)) == Upper(t)
  {
  }

  function StripPrefix(t: Text, prefix: Text): Option<Text> {
    if prefix <= t then Some(t[|prefix|..]) else None
  }

  // ---- UTF-8 (RFC 3629, section 4) --------------------------------------------------

  predicate Tail(b: Byte) { 0x80 <= b <= 0xbf }

  predicate Tails(t: Text, from: nat, n: nat)
  {
    from + n <= |t| && forall i :: from <= i < from + n ==> Tail(t[i])
  }

  /** How many bytes the character at the front takes; 0 if there is none. */
  function CharLength(t: Text): (n: nat)
    ensures n <= |t|
  {
    if t == [] then 0
    else if t[0] < 0x80 then 1
    else if 0xc2 <= t[0] <= 0xdf && Tails(t, 1, 1) then 2
    else if 0xe0 <= t[0] <= 0xef && Tails(t, 1, 2)
            && (t[0] == 0xe0 ==> 0xa0 <= t[1]) && (t[0] == 0xed ==> t[1] <= 0x9f) then 3
    else if 0xf0 <= t[0] <= 0xf4 && Tails(t, 1, 3)
            && (t[0] == 0xf0 ==> 0x90 <= t[1]) && (t[0] == 0xf4 ==> t[1] <= 0x8f) then 4
    else 0
  }

  predicate Utf8(t: Text) {
    t == [] || (CharLength(t) > 0 && Utf8(t[CharLength(t)..]))
  }

  /** A Unicode scalar value: a code point that is no surrogate. */
  predicate Scalar(c: nat) { c < 0xd800 || 0xe000 <= c < 0x11_0000 }

  /** The UTF-8 of one scalar value. */
  function CharBytes(c: nat): Text
    requires Scalar(c)
  {
    if c < 0x80 then [c]
    else if c < 0x800 then [0xc0 + c / 64, 0x80 + c % 64]
    else if c < 0x1_0000 then [0xe0 + c / 4096, 0x80 + c / 64 % 64, 0x80 + c % 64]
    else [0xf0 + c / 262144, 0x80 + c / 4096 % 64, 0x80 + c / 64 % 64, 0x80 + c % 64]
  }

  lemma CharIsTaken(c: nat, behind: Text)
    requires Scalar(c)
    ensures CharLength(CharBytes(c) + behind) == |CharBytes(c)|
  {
    var t := CharBytes(c) + behind;
    assert forall i :: 0 <= i < |CharBytes(c)| ==> t[i] == CharBytes(c)[i];
  }

  lemma SixBits(h: nat, m: nat, l: nat)
    requires m < 64 && l < 64
    ensures var c := h * 4096 + m * 64 + l; c / 4096 == h && c / 64 % 64 == m && c % 64 == l && c / 64 == h * 64 + m
  {
  }

  lemma MoreBits(g: nat, h: nat, m: nat, l: nat)
    requires h < 64 && m < 64 && l < 64
    ensures var c := g * 262144 + h * 4096 + m * 64 + l;
            c / 262144 == g && c / 4096 % 64 == h && c / 64 % 64 == m && c % 64 == l
  {
    SixBits(g * 64 + h, m, l);
  }

  lemma TakenIsChar(t: Text) returns (c: nat)
    requires CharLength(t) > 0
    ensures Scalar(c) && CharBytes(c) == t[..CharLength(t)]
  {
    var n := CharLength(t);
    if n == 1 {
      c := t[0];
    } else if n == 2 {
      var m: nat, l: nat := t[0] - 0xc0, t[1] - 0x80;
      SixBits(0, m, l);
      c := m * 64 + l;
    } else if n == 3 {
      var h: nat, m: nat, l: nat := t[0] - 0xe0, t[1] - 0x80, t[2] - 0x80;
      SixBits(h, m, l);
      c := h * 4096 + m * 64 + l;
    } else {
      c := FourTaken(t);
    }
  }

  lemma FourTaken(t: Text) returns (c: nat)
    requires CharLength(t) == 4
    ensures Scalar(c) && CharBytes(c) == t[..4]
  {
    var g: nat, h: nat, m: nat, l: nat := t[0] - 0xf0, t[1] - 0x80, t[2] - 0x80, t[3] - 0x80;
    MoreBits(g, h, m, l);
    c := g * 262144 + h * 4096 + m * 64 + l;
  }

  function AllBytes(chars: seq<nat>): Text
    requires forall i :: 0 <= i < |chars| ==> Scalar(chars[i])
  {
    if chars == [] then [] else CharBytes(chars[0]) + AllBytes(chars[1..])
  }

  /** Text is what some scalar values are written as, one after another. */
  lemma {:induction false} Utf8Exactly(t: Text)
    ensures Utf8(t) <==> exists chars: seq<nat> :: (forall i :: 0 <= i < |chars| ==> Scalar(chars[i])) && AllBytes(chars) == t
    decreases |t|
  {
    if Utf8(t) {
      var chars := CharsOf(t);
    }
    if chars: seq<nat> :| (forall i :: 0 <= i < |chars| ==> Scalar(chars[i])) && AllBytes(chars) == t {
      BytesAreUtf8(chars);
    }
  }

  lemma {:induction false} CharsOf(t: Text) returns (chars: seq<nat>)
    requires Utf8(t)
    ensures (forall i :: 0 <= i < |chars| ==> Scalar(chars[i])) && AllBytes(chars) == t
    decreases |t|
  {
    hide CharBytes, CharLength;
    chars := [];
    if t != [] {
      var c := TakenIsChar(t);
      var rest := CharsOf(t[CharLength(t)..]);
      chars := [c] + rest;
      assert chars[1..] == rest;
    }
  }

  lemma {:induction false} BytesAreUtf8(chars: seq<nat>)
    requires forall i :: 0 <= i < |chars| ==> Scalar(chars[i])
    ensures Utf8(AllBytes(chars))
  {
    hide CharLength;
    if chars != [] {
      BytesAreUtf8(chars[1..]);
      CharIsTaken(chars[0], AllBytes(chars[1..]));
      var t := AllBytes(chars);
      assert t[|CharBytes(chars[0])|..] == AllBytes(chars[1..]);
    }
  }
}
