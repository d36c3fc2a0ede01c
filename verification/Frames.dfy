/**
  Length-prefixed framing over a stream whose reads may return any part of what was asked for
  (crates/hit-proto/src/frame.rs and crates/hit-proto/src/io.rs).
 */
module Frames {
  import opened Prelude
  import opened Digits
  import opened Texts

  const HEADER_BYTES := 4
  const MAX_FRAME_BYTES := 1024 * 1024

  datatype FrameError =
    | TooLarge(announced: nat)
    | Empty
    | Closed
    | Truncated(read: nat, expected: nat)
    | Transport(text: string)

  // ---- frame.rs ------------------------------------------------------------------------

  function Reversed(h: seq<nat>): seq<nat>
    requires |h| == HEADER_BYTES
  {
    [h[3], h[2], h[1], h[0]]
  }

  /** `to_le_bytes` of a u32. */
  function LittleEndian(n: nat): (h: seq<Byte>)
    ensures |h| == HEADER_BYTES
  {
    Reversed(DigitsOf(256, n, HEADER_BYTES))
  }

  function FromLittleEndian(h: seq<Byte>): nat
    requires |h| == HEADER_BYTES
  {
    Value(256, Reversed(h))
  }

  /** A complete frame: header, then body. */
  function Encode(body: seq<Byte>): Result<seq<Byte>, FrameError> {
    if body == [] then Err(Empty)
    else if |body| > MAX_FRAME_BYTES then Err(TooLarge(|body|))
    else Ok(LittleEndian(|body|) + body)
  }

  /** The body length a header announces. */
  function BodyLen(header: seq<Byte>): Result<nat, FrameError>
    requires |header| == HEADER_BYTES
  {
    var n := FromLittleEndian(header);
    if n == 0 then Err(Empty)
    else if n > MAX_FRAME_BYTES then Err(TooLarge(n))
    else Ok(n)
  }

  lemma HeaderRoundTrip(n: nat)
    requires n < 0x1_0000_0000
    ensures FromLittleEndian(LittleEndian(n)) == n
  {
    hide DigitsOf, Value;
    assert Pow(256, HEADER_BYTES) == 0x1_0000_0000;
    ValueOfDigits(256, n, HEADER_BYTES);
    assert Reversed(LittleEndian(n)) == DigitsOf(256, n, HEADER_BYTES);
  }

  lemma HeaderIsForced(header: seq<Byte>)
    requires |header| == HEADER_BYTES
    ensures LittleEndian(FromLittleEndian(header)) == header
  {
    hide DigitsOf, Value;
    DigitsOfValue(256, Reversed(header));
  }

  /** The number four bytes spell, the lowest first. */
  function LowestFirst(h: seq<nat>): nat
    requires |h| == 4
  {
    h[0] + 0x100 * h[1] + 0x1_0000 * h[2] + 0x100_0000 * h[3]
  }

  /** A frame is its body behind four bytes of its length, the lowest first; none is empty or over a mebibyte. */
  lemma FrameExactly(body: seq<Byte>)
    ensures Encode(body).Ok? <==> 1 <= |body| <= 1048576
    ensures Encode(body).Ok? ==>
              var f := Encode(body).value;
              && |f| == 4 + |body| && f[4..] == body
              && LowestFirst(f[..4]) == |body|
  {
    hide DigitsOf;
    if 1 <= |body| <= 1048576 {
      HeaderRoundTrip(|body|);
      var h := LittleEndian(|body|);
      HeaderMeans(h);
      assert (h + body)[4..] == body && (h + body)[..4] == h;
    }
  }

  /** What a header announces, or why it is refused. */
  lemma HeaderMeans(h: seq<Byte>)
    requires |h| == 4
    ensures
      var n := LowestFirst(h);
      && FromLittleEndian(h) == n
      && BodyLen(h) == (if n == 0 then Err(Empty) else if n > 1048576 then Err(TooLarge(n)) else Ok(n))
  {
    FourDigits(h[3], h[2], h[1], h[0]);
    hide Value;
  }

  lemma FourDigits(d: nat, c: nat, b: nat, a: nat)
    ensures Value(256, [d, c, b, a]) == a + 0x100 * b + 0x1_0000 * c + 0x100_0000 * d
  {
    assert [d] == [] + [d] && [d, c] == [d] + [c] && [d, c, b] == [d, c] + [b] && [d, c, b, a] == [d, c, b] + [a];
    ValueSnoc(256, [], d);
    ValueSnoc(256, [d], c);
    ValueSnoc(256, [d, c], b);
    ValueSnoc(256, [d, c, b], a);
    EmptyDigits();
    hide Value;
  }

  lemma EmptyDigits()
    ensures Value(256, []) == 0
  {
  }

  // ---- a stream --------------------------------------------------------------------------

  /** What successive reads deliver at most, and how the stream ends. */
  class Stream {
    var pieces: seq<seq<Byte>>
    const failure: Option<string>

    ghost predicate Valid()
      reads this
    {
      forall i :: 0 <= i < |pieces| ==> pieces[i] != []
    }

    ghost function Rest(): seq<Byte>
      reads this
    {
      Joined(pieces)
    }

    constructor (pieces: seq<seq<Byte>>, failure: Option<string>)
      requires forall i :: 0 <= i < |pieces| ==> pieces[i] != []
      ensures Valid() && Rest() == Joined(pieces) && this.failure == failure
    {
      this.pieces := pieces;
      this.failure := failure;
    }

    /** One `read` into `buf[from..]`: nothing only at the end of the stream. */
    method Read(buf: array<Byte>, from: nat) returns (r: Result<nat, FrameError>)
      requires Valid() && from < buf.Length
      modifies this, buf
      ensures Valid() && buf[..from] == old(buf[..from])
      ensures old(Rest()) == [] ==>
                Rest() == [] && r == (if failure.Some? then Err(Transport(failure.value)) else Ok(0))
      ensures old(Rest()) != [] ==>
                && r.Ok? && 0 < r.value <= buf.Length - from
                && old(Rest()) == buf[from..from + r.value] + Rest()
    {
      if pieces == [] {
        r := if failure.Some? then Err(Transport(failure.value)) else Ok(0);
        return;
      }
      var piece := pieces[0];
      var n := if |piece| < buf.Length - from then |piece| else buf.Length - from;
      JoinedCut(pieces, n);
      forall i | 0 <= i < n {
        buf[from + i] := piece[i];
      }
      assert forall i :: 0 <= i < n ==> buf[from + i] == piece[i];
      assert buf[from..from + n] == piece[..n];
      assert forall i :: 0 <= i < from ==> buf[i] == old(buf[i]);
      pieces := Behind(pieces, n);
      r := Ok(n);
    }
  }

  function Joined(pieces: seq<seq<Byte>>): seq<Byte> {
    if pieces == [] then [] else pieces[0] + Joined(pieces[1..])
  }

  /** The pieces once `n` bytes of the first are read. */
  function Behind(pieces: seq<seq<Byte>>, n: nat): seq<seq<Byte>>
    requires pieces != [] && n <= |pieces[0]|
  {
    if n == |pieces[0]| then pieces[1..] else [pieces[0][n..]] + pieces[1..]
  }

  lemma JoinedCut(pieces: seq<seq<Byte>>, n: nat)
    requires pieces != [] && n <= |pieces[0]| && forall i :: 0 <= i < |pieces| ==> pieces[i] != []
    ensures Joined(pieces) == pieces[0][..n] + Joined(Behind(pieces, n)) && Joined(pieces) != []
    ensures forall i :: 0 <= i < |Behind(pieces, n)| ==> Behind(pieces, n)[i] != []
  {
    var after := Behind(pieces, n);
    assert pieces[0] == pieces[0][..n] + pieces[0][n..];
    if n < |pieces[0]| {
      assert after[1..] == pieces[1..];
    }
  }

  lemma JoinedFirst(pieces: seq<seq<Byte>>)
    ensures pieces != [] ==> Joined(pieces) == pieces[0] + Joined(pieces[1..])
  {
  }

  // ---- io.rs -------------------------------------------------------------------------------

  /** Short only at the end of the stream. */
  method Fill(reader: Stream, buf: array<Byte>) returns (r: Result<nat, FrameError>)
    requires reader.Valid()
    modifies reader, buf
    ensures reader.Valid()
    ensures r == Filled(old(reader.Rest()), reader.failure, buf.Length)
    ensures r.Ok? ==> buf[..r.value] == old(reader.Rest())[..r.value] && reader.Rest() == old(reader.Rest())[r.value..]
    ensures r.Err? ==> reader.Rest() == []
  {
    ghost var all := reader.Rest();
    var read := 0;
    while read < buf.Length
      invariant reader.Valid() && read <= buf.Length && read <= |all|
      invariant all == buf[..read] + reader.Rest()
    {
      ghost var soFar := buf[..read];
      var n := reader.Read(buf, read);
      match n {
        case Ok(k) =>
          if k == 0 {
            break;
          }
          assert buf[..read + k] == soFar + buf[read..read + k];
          read := read + k;
        case Err(e) =>
          return Err(e);
      }
    }
    r := Ok(read);
  }

  /** How much a buffer of `size` takes from a stream. */
  function Filled(rest: seq<Byte>, failure: Option<string>, size: nat): (r: Result<nat, FrameError>)
    ensures r.Ok? ==> r.value <= |rest| && r.value <= size
  {
    if size <= |rest| then Ok(size)
    else if failure.Some? then Err(Transport(failure.value))
    else Ok(|rest|)
  }

  /** One frame's body, and the bytes behind it. */
  function Take(rest: seq<Byte>, failure: Option<string>): (r: (Result<seq<Byte>, FrameError>, seq<Byte>))
    ensures r.0.Ok? ==> |r.1| < |rest|
  {
    match Filled(rest, failure, HEADER_BYTES)
    case Err(e) => (Err(e), [])
    case Ok(read) =>
      if read == 0 then (Err(Closed), [])
      else if read < HEADER_BYTES then (Err(Truncated(read, HEADER_BYTES)), [])
      else
        match BodyLen(rest[..HEADER_BYTES])
        case Err(e) => (Err(e), rest[HEADER_BYTES..])
        case Ok(expected) =>
          match Filled(rest[HEADER_BYTES..], failure, expected)
          case Err(e) => (Err(e), [])
          case Ok(got) =>
            if got < expected then (Err(Truncated(got, expected)), [])
            else (Ok(rest[HEADER_BYTES..][..expected]), rest[HEADER_BYTES..][expected..])
  }

  method ReadFrame(reader: Stream) returns (r: Result<seq<Byte>, FrameError>)
    requires reader.Valid()
    modifies reader
    ensures reader.Valid() && (r, reader.Rest()) == Take(old(reader.Rest()), reader.failure)
  {
    hide FromLittleEndian;
    var header := new Byte[HEADER_BYTES];
    var filled := Fill(reader, header);
    if filled.Err? {
      return Err(filled.error);
    }
    if filled.value == 0 {
      return Err(Closed);
    }
    if filled.value < HEADER_BYTES {
      return Err(Truncated(filled.value, HEADER_BYTES));
    }
    assert header[..HEADER_BYTES] == header[..];
    var expected := BodyLen(header[..]);
    if expected.Err? {
      return Err(expected.error);
    }
    var body := new Byte[expected.value];
    var read := Fill(reader, body);
    if read.Err? {
      return Err(read.error);
    }
    if read.value < expected.value {
      return Err(Truncated(read.value, expected.value));
    }
    assert body[..expected.value] == body[..];
    r := Ok(body[..]);
  }

  // ---- whole streams ---------------------------------------------------------------------------

  /** Frame after frame until one cannot be read. */
  function ReadAll(rest: seq<Byte>, failure: Option<string>): (seq<seq<Byte>>, FrameError)
    decreases |rest|
  {
    var (r, behind) := Take(rest, failure);
    match r
    case Err(e) => ([], e)
    case Ok(body) =>
      var (bodies, e) := ReadAll(behind, failure);
      ([body] + bodies, e)
  }

  predicate Sendable(body: seq<Byte>) { Encode(body).Ok? }

  ghost predicate AllSendable(bodies: seq<seq<Byte>>) {
    forall i :: 0 <= i < |bodies| ==> Sendable(bodies[i])
  }

  /** The frames of some bodies, one after another. */
  function Written(bodies: seq<seq<Byte>>): seq<Byte> {
    if bodies == [] then []
    else (if Encode(bodies[0]).Ok? then Encode(bodies[0]).value else []) + Written(bodies[1..])
  }

  lemma TakeWritten(body: seq<Byte>, behind: seq<Byte>, failure: Option<string>)
    requires Sendable(body)
    ensures Take(Encode(body).value + behind, failure) == (Ok(body), behind)
  {
    hide FromLittleEndian, LittleEndian;
    HeaderRoundTrip(|body|);
    var rest := Encode(body).value + behind;
    assert rest[..HEADER_BYTES] == LittleEndian(|body|);
    assert rest[HEADER_BYTES..] == body + behind;
    assert (body + behind)[..|body|] == body && (body + behind)[|body|..] == behind;
  }

  /** What reading takes is what writing gave: the stream is the frames it yields, then the rest. */
  lemma TakeIsWritten(rest: seq<Byte>, failure: Option<string>)
    requires Take(rest, failure).0.Ok?
    ensures var (r, behind) := Take(rest, failure); Sendable(r.value) && rest == Encode(r.value).value + behind
  {
    hide FromLittleEndian, LittleEndian;
    var body := Take(rest, failure).0.value;
    var header := rest[..HEADER_BYTES];
    assert |body| == FromLittleEndian(header);
    HeaderIsForced(header);
    assert rest == header + (body + Take(rest, failure).1);
  }

  /** Reading after some frames goes on behind them. */
  lemma {:induction false} ReadBehind(bodies: seq<seq<Byte>>, tail: seq<Byte>, failure: Option<string>)
    requires AllSendable(bodies)
    ensures ReadAll(Written(bodies) + tail, failure) ==
            (bodies + ReadAll(tail, failure).0, ReadAll(tail, failure).1)
  {
    hide Encode, Take;
    if bodies == [] {
      assert Written(bodies) + tail == tail && bodies + ReadAll(tail, failure).0 == ReadAll(tail, failure).0;
    } else {
      ReadBehind(bodies[1..], tail, failure);
      assert Sendable(bodies[0]);
      var frame := Encode(bodies[0]).value;
      TakeWritten(bodies[0], Written(bodies[1..]) + tail, failure);
      assert Written(bodies) + tail == frame + (Written(bodies[1..]) + tail);
      assert [bodies[0]] + (bodies[1..] + ReadAll(tail, failure).0) == bodies + ReadAll(tail, failure).0;
    }
  }

  /** Frames written are frames read, and then the stream is closed. */
  lemma FramesReadBack(bodies: seq<seq<Byte>>)
    requires AllSendable(bodies)
    ensures ReadAll(Written(bodies), None) == (bodies, Closed)
  {
    ReadBehind(bodies, [], None);
    assert Written(bodies) + [] == Written(bodies) && bodies + [] == bodies;
  }

  /** A stream cut strictly inside a frame: the frames before it, then how far it got, and never `Closed`. */
  lemma {:induction false} CutInsideAFrame(bodies: seq<seq<Byte>>, next: seq<Byte>, cut: nat)
    requires AllSendable(bodies) && Sendable(next) && 0 < cut < |Encode(next).value|
    ensures ReadAll(Written(bodies) + Encode(next).value[..cut], None) ==
            (bodies, if cut < HEADER_BYTES then Truncated(cut, HEADER_BYTES)
                     else Truncated(cut - HEADER_BYTES, |next|))
  {
    hide FromLittleEndian, LittleEndian, Written;
    var frame := Encode(next).value;
    var tail := frame[..cut];
    ReadBehind(bodies, tail, None);
    HeaderRoundTrip(|next|);
    if cut >= HEADER_BYTES {
      assert tail[..HEADER_BYTES] == LittleEndian(|next|);
    }
    assert bodies + [] == bodies;
  }

  /** On any bytes at all, what is read is a prefix of the stream, and `Closed` means it was all of it. */
  lemma {:induction false} ClosedMeansWhole(rest: seq<Byte>, failure: Option<string>)
    ensures var (bodies, e) := ReadAll(rest, failure);
            && AllSendable(bodies) && Written(bodies) <= rest
            && (e == Closed <==> rest == Written(bodies) && failure.None?)
    decreases |rest|
  {
    hide Encode, Sendable;
    var (r, behind) := Take(rest, failure);
    if r.Ok? {
      ClosedMeansWhole(behind, failure);
      TakeIsWritten(rest, failure);
      var (more, e) := ReadAll(behind, failure);
      var bodies := [r.value] + more;
      assert bodies[1..] == more;
      SendableIs(r.value);
      assert Written(bodies) == Encode(r.value).value + Written(more);
      assert rest == Encode(r.value).value + behind;
      assert rest == Written(bodies) ==> behind == Written(more) by {
        assert rest[|Encode(r.value).value|..] == behind;
        assert Written(bodies)[|Encode(r.value).value|..] == Written(more);
      }
    }
  }

  lemma SendableIs(body: seq<Byte>)
    ensures Sendable(body) <==> Encode(body).Ok?
  {
  }
}
