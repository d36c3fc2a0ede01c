/**
  Regrouping bytes into 5-bit words and back (crates/hit-event/src/zap.rs, `to_words` and
  `to_bytes`), with the accumulators the code keeps, and the second implementation in
  scripts/gui/nsec.py whose accumulator is never masked.
 */
module Regroup {
  import opened Digits
  import opened Texts

  type Word = n: nat | n < 32

  /** What is left of `n` in a u32. */
  function U32(n: nat): nat { n % 0x1_0000_0000 }

  /** The bits that pad `n` bytes to whole words. */
  function Padding(n: nat): (pad: nat)
    ensures pad < 5 && (8 * n + pad) % 5 == 0
  {
    (5 - 8 * n % 5) % 5
  }

  /** The big-endian bits of `bytes`, padded with zeros, five at a time. */
  function WordsOf(bytes: seq<Byte>): seq<Word> {
    var pad := Padding(|bytes|);
    DigitsOf(32, Value(256, bytes) * Pow(2, pad), (8 * |bytes| + pad) / 5)
  }

  /** The big-endian bits of `words`, eight at a time, an incomplete byte left out. */
  function BytesOf(words: seq<Word>): seq<Byte> {
    PowPositive(2, 5 * |words| % 8);
    DivisionHolds(Value(32, words), Pow(2, 5 * |words| % 8));
    DigitsOf(256, Value(32, words) / Pow(2, 5 * |words| % 8), 5 * |words| / 8)
  }

  lemma WordsBelow(words: seq<Word>)
    ensures Below(32, words)
  {
  }

  lemma BytesBelow(bytes: seq<Byte>)
    ensures Below(256, bytes)
  {
  }

  lemma {:induction false} PowOfPow(n: nat)
    ensures Pow(32, n) == Pow(2, 5 * n) && Pow(256, n) == Pow(2, 8 * n)
  {
    if n > 0 {
      PowOfPow(n - 1);
      assert Pow(2, 5) == 32 && Pow(2, 8) == 256;
      PowAdd(2, 5, 5 * (n - 1));
      PowAdd(2, 8, 8 * (n - 1));
    }
  }

  /** `to_bytes` inverts `to_words`, for every byte string. */
  lemma {:induction false} BytesOfWords(bytes: seq<Byte>)
    ensures BytesOf(WordsOf(bytes)) == bytes
  {
    hide Pow, Value;
    var n := |bytes|;
    var pad := Padding(n);
    var v, p := Value(256, bytes), Pow(2, pad);
    var len := (8 * n + pad) / 5;
    assert 5 * len == 8 * n + pad;
    BytesBelow(bytes);
    ValueBelow(256, bytes);
    PowOfPow(n);
    PowOfPow(len);
    PowAdd(2, 8 * n, pad);
    PowPositive(2, pad);
    ProductBelow(v, p, Pow(256, n));
    ValueOfDigits(32, v * p, len);
    assert 5 * len % 8 == pad && 5 * len / 8 == n;
    DivMod(v, p, 0);
    DigitsOfValue(256, bytes);
  }

  lemma ProductBelow(v: nat, p: nat, limit: nat)
    requires v < limit && p > 0
    ensures v * p < limit * p
  {
    TimesGrows(v + 1, limit, p);
  }

  // ---- one step of an accumulator ------------------------------------------------

  /** The low `b + k` bits: `k` of them above `b`. */
  lemma SplitBits(acc: nat, high: nat, low: nat)
    requires high > 0 && low > 0
    ensures high * low > 0 && 0 <= acc / low
    ensures acc % (high * low) == ((acc / low) % high) * low + acc % low
  {
    TimesGrows(1, high, low);
    DivisionHolds(acc, low);
    var q := acc / low;
    DivisionHolds(q, high);
    var a, d, r := q / high, q % high, acc % low;
    TimesGrows(d + 1, high, low);
    assert acc == (a * high + d) * low + r;
    assert (a * high + d) * low == a * (high * low) + d * low by { Distribute(a, high, d, low); }
    DivMod(a, high * low, d * low + r);
  }

  lemma Distribute(a: nat, b: nat, c: nat, d: nat)
    ensures (a * b + c) * d == a * (b * d) + c * d
  {
    assert (a * b + c) * d == a * b * d + c * d;
    assert a * b * d == a * (b * d);
  }

  /** Taking `k` bits more in: what was read stays what was written and what is pending. */
  lemma TakeIn(read: nat, written: nat, unit: nat, acc: nat, base: nat, digit: nat)
    requires read == written * unit + acc && acc < unit && digit < base
    ensures read * base + digit == written * (base * unit) + (acc * base + digit)
    ensures acc * base + digit < base * unit
  {
    Distribute(written, unit, acc, base);
    assert unit * base == base * unit;
    TimesGrows(acc + 1, unit, base);
  }

  /** Giving a digit out: the same. */
  lemma GiveOut(read: nat, written: nat, acc: nat, high: nat, low: nat)
    requires high > 0 && low > 0 && high * low > 0 && 0 <= acc / low
    requires read == written * (high * low) + acc % (high * low)
    ensures read == (written * high + (acc / low) % high) * low + acc % low
  {
    SplitBits(acc, high, low);
    Distribute(written, high, (acc / low) % high, low);
  }

  // ---- to_bytes ------------------------------------------------------------------

  /** Reading one digit of `2^k`: nothing is lost and a u32 is wide enough. */
  lemma ReadDigit(base: nat, k: nat, read: nat, written: nat, acc: nat, bits: nat, digit: nat)
    requires base == Pow(2, k) && bits + k <= 12 && digit < base
    requires acc < Pow(2, bits) && read == written * Pow(2, bits) + acc
    ensures 0 <= acc * base + digit < Pow(2, bits + k) && U32(acc * base + digit) == acc * base + digit
    ensures read * base + digit == written * Pow(2, bits + k) + (acc * base + digit)
  {
    hide Pow, U32;
    TakeIn(read, written, Pow(2, bits), acc, base, digit);
    PowAdd(2, k, bits);
    SmallPow(bits + k);
    FitsU32(acc * base + digit);
  }

  lemma FitsU32(n: nat)
    ensures n < 0x1_0000_0000 ==> U32(n) == n
  {
  }

  /** The accumulator stays below 2^13, so the u32 never overflows. */
  method ToBytes(words: seq<Word>) returns (out: seq<Byte>)
    ensures out == BytesOf(words)
  {
    hide Pow, Value, U32;
    out := [];
    var acc: nat, bits: nat := 0, 0;
    EmptyValue(32);
    EmptyValue(256);
    for i := 0 to |words|
      invariant bits < 8 && 8 * |out| + bits == 5 * i
      invariant acc < Pow(2, bits) && Value(32, words[..i]) == Value(256, out) * Pow(2, bits) + acc
    {
      assert words[..i + 1] == words[..i] + [words[i]];
      ValueSnoc(32, words[..i], words[i]);
      ghost var read := Value(32, words[..i]);
      TwoTo();
      ReadDigit(32, 5, read, Value(256, out), acc, bits, words[i]);
      acc := U32(acc * 32 + words[i]);
      bits := bits + 5;
      if bits >= 8 {
        PowPositive(2, bits);
        DivMod(0, Pow(2, bits), acc);
        bits, out := PushByte(read * 32 + words[i], out, acc, bits);
        DivisionHolds(acc, Pow(2, bits));
        acc := acc % Pow(2, bits);
      }
    }
    assert words[..|words|] == words;
    BytesOfIs(words, out, acc, bits);
  }

  lemma TwoTo()
    ensures Pow(2, 0) == 1 && Pow(2, 5) == 32 && Pow(2, 8) == 256
  {
  }

  lemma EmptyValue(base: nat)
    ensures Value(base, []) == 0
    ensures Pow(2, 0) == 1
  {
  }

  lemma BytesOfIs(words: seq<Word>, out: seq<Byte>, acc: nat, bits: nat)
    requires bits < 8 && 8 * |out| + bits == 5 * |words| && acc < Pow(2, bits)
    requires Value(32, words) == Value(256, out) * Pow(2, bits) + acc
    ensures out == BytesOf(words)
  {
    assert 5 * |words| % 8 == bits && 5 * |words| / 8 == |out|;
    BytesBelow(out);
    DivMod(Value(256, out), Pow(2, bits), acc);
    DigitsOfValue(256, out);
  }

  /** `bits -= 8; out.push((acc >> bits) as u8)`. */
  method PushByte(ghost read: nat, out: seq<Byte>, acc: nat, bits: nat) returns (left: nat, more: seq<Byte>)
    requires bits >= 8 && Pow(2, bits) > 0 && read == Value(256, out) * Pow(2, bits) + acc % Pow(2, bits)
    ensures left == bits - 8 && |more| == |out| + 1
    ensures Pow(2, left) > 0 && read == Value(256, more) * Pow(2, left) + acc % Pow(2, left)
  {
    left := bits - 8;
    PowAdd(2, 8, left);
    assert Pow(2, 8) == 256;
    PowPositive(2, left);
    SplitBits(acc, 256, Pow(2, left));
    GiveOut(read, Value(256, out), acc, 256, Pow(2, left));
    var b: Byte := (acc / Pow(2, left)) % 256;
    ValueSnoc(256, out, b);
    more := out + [b];
  }

  lemma SmallPow(n: nat)
    requires n <= 12
    ensures Pow(2, n) <= 4096
  {
    if n < 12 {
      PowAdd(2, 12 - n, n);
      PowPositive(2, 12 - n);
      assert Pow(2, 12) == 4096;
      TimesGrows(1, Pow(2, 12 - n), Pow(2, n));
    } else {
      assert Pow(2, 12) == 4096;
    }
  }

  // ---- to_words ------------------------------------------------------------------

  method ToWords(bytes: seq<Byte>) returns (out: seq<Word>)
    ensures out == WordsOf(bytes)
  {
    hide Pow, Value, U32;
    out := [];
    var acc: nat, bits: nat := 0, 0;
    EmptyValue(32);
    EmptyValue(256);
    for i := 0 to |bytes|
      invariant bits < 5 && 5 * |out| + bits == 8 * i
      invariant acc < Pow(2, bits) && Value(256, bytes[..i]) == Value(32, out) * Pow(2, bits) + acc
    {
      assert bytes[..i + 1] == bytes[..i] + [bytes[i]];
      ValueSnoc(256, bytes[..i], bytes[i]);
      ghost var before := Value(256, bytes[..i]);
      TwoTo();
      ReadDigit(256, 8, before, Value(32, out), acc, bits, bytes[i]);
      acc := U32(acc * 256 + bytes[i]);
      bits := bits + 8;
      PowPositive(2, bits);
      DivMod(0, Pow(2, bits), acc);
      ghost var read := before * 256 + bytes[i];
      while bits >= 5
        invariant 5 * |out| + bits == 8 * (i + 1)
        invariant Pow(2, bits) > 0 && read == Value(32, out) * Pow(2, bits) + acc % Pow(2, bits)
      {
        bits, out := PushWord(read, out, acc, bits);
      }
      DivisionHolds(acc, Pow(2, bits));
      acc := acc % Pow(2, bits);
    }
    assert bytes[..|bytes|] == bytes;
    TwoTo();
    if bits > 0 {
      out := PadWord(Value(256, bytes), out, acc, bits);
    }
    WordsOfIs(bytes, out, Padding(|bytes|), acc, bits);
  }

  /** `bits -= 5; out.push((acc >> bits) & 31)`. */
  method PushWord(ghost read: nat, out: seq<Word>, acc: nat, bits: nat) returns (left: nat, more: seq<Word>)
    requires bits >= 5 && Pow(2, bits) > 0 && read == Value(32, out) * Pow(2, bits) + acc % Pow(2, bits)
    ensures left == bits - 5 && |more| == |out| + 1
    ensures Pow(2, left) > 0 && read == Value(32, more) * Pow(2, left) + acc % Pow(2, left)
  {
    left := bits - 5;
    PowAdd(2, 5, left);
    assert Pow(2, 5) == 32;
    PowPositive(2, left);
    SplitBits(acc, 32, Pow(2, left));
    GiveOut(read, Value(32, out), acc, 32, Pow(2, left));
    var w: Word := (acc / Pow(2, left)) % 32;
    ValueSnoc(32, out, w);
    more := out + [w];
  }

  /** `out.push((acc << (5 - bits)) & 31)`, the last word. */
  method PadWord(ghost read: nat, out: seq<Word>, acc: nat, bits: nat) returns (more: seq<Word>)
    requires 0 < bits < 5 && acc < Pow(2, bits) && read == Value(32, out) * Pow(2, bits) + acc
    ensures |more| == |out| + 1 && Value(32, more) == read * Pow(2, 5 - bits)
  {
    var p := Pow(2, 5 - bits);
    PowAdd(2, bits, 5 - bits);
    assert Pow(2, 5) == 32;
    PowPositive(2, 5 - bits);
    ProductBelow(acc, p, Pow(2, bits));
    assert acc * p < 32;
    var w: Word := (acc * p) % 32;
    ValueSnoc(32, out, w);
    more := out + [w];
    Distribute(Value(32, out), Pow(2, bits), acc, p);
  }

  lemma WordsOfIs(bytes: seq<Byte>, out: seq<Word>, pad: nat, acc: nat, bits: nat)
    requires pad == Padding(|bytes|) && bits < 5 && acc < Pow(2, bits)
    requires bits == 0 ==> 5 * |out| == 8 * |bytes| && Value(256, bytes) == Value(32, out) * Pow(2, 0) + acc
    requires bits > 0 ==> 5 * (|out| - 1) + bits == 8 * |bytes| && Value(32, out) == Value(256, bytes) * Pow(2, 5 - bits)
    ensures out == WordsOf(bytes)
  {
    hide Pow, Value;
    WordsBelow(out);
    DigitsOfValue(32, out);
    TwoTo();
    if bits > 0 {
      assert pad == 5 - bits;
      assert 8 * |bytes| + pad == 5 * |out|;
    } else {
      assert pad == 0;
    }
  }

  // ---- nsec.py -------------------------------------------------------------------

  /** The regrouping half of nsec.py's `encode`: `acc` holds every bit read so far. */
  method PythonWords(data: seq<Byte>) returns (out: seq<Word>)
    ensures out == WordsOf(data)
  {
    out := [];
    var acc: nat, bits: nat := 0, 0;
    for i := 0 to |data|
      invariant bits < 5 && 5 * |out| + bits == 8 * i
      invariant acc == Value(256, data[..i])
      invariant Pow(2, bits) > 0 && acc == Value(32, out) * Pow(2, bits) + acc % Pow(2, bits)
    {
      assert data[..i + 1][..i] == data[..i];
      var b := data[i];
      TakeIn(acc, Value(32, out), Pow(2, bits), acc % Pow(2, bits), 256, b);
      PowAdd(2, 8, bits);
      assert Pow(2, 8) == 256;
      DivMod(Value(32, out), 256 * Pow(2, bits), (acc % Pow(2, bits)) * 256 + b);
      acc := acc * 256 + b;
      bits := bits + 8;
      PowPositive(2, bits);
      while bits >= 5
        invariant 5 * |out| + bits == 8 * (i + 1)
        invariant Pow(2, bits) > 0 && acc == Value(32, out) * Pow(2, bits) + acc % Pow(2, bits)
      {
        bits, out := PushWord(acc, out, acc, bits);
      }
    }
    assert data[..|data|] == data;
    if bits > 0 {
      out := PythonPad(out, acc, bits);
    }
    WordsOfIs(data, out, Padding(|data|), 0, bits);
  }

  /** `out.append((acc << (5 - bits)) & 31)` with everything still in `acc`. */
  method PythonPad(out: seq<Word>, acc: nat, bits: nat) returns (more: seq<Word>)
    requires 0 < bits < 5 && Pow(2, bits) > 0 && acc == Value(32, out) * Pow(2, bits) + acc % Pow(2, bits)
    ensures |more| == |out| + 1 && Value(32, more) == acc * Pow(2, 5 - bits)
  {
    var p, low := Pow(2, 5 - bits), acc % Pow(2, bits);
    PowAdd(2, bits, 5 - bits);
    assert Pow(2, 5) == 32;
    PowPositive(2, 5 - bits);
    DivisionHolds(acc, Pow(2, bits));
    ProductBelow(low, p, Pow(2, bits));
    Distribute(Value(32, out), Pow(2, bits), low, p);
    DivMod(Value(32, out), 32, low * p);
    var w: Word := (acc * p) % 32;
    ValueSnoc(32, out, w);
    more := out + [w];
  }
}
