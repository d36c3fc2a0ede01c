/**
  Device bindings (crates/hit-event/src/binding.rs): the checks on one binding, the book of the
  newest per person and device, and what a successful authentication means.
 */
module Bindings {
  import opened Prelude
  import opened Group
  import opened Replace
  import Store

  const MAX_TTL := 2592000
  const MAX_CLOCK_SKEW := 600

  datatype BindingError =
    | WrongKind | BadSignature | MissingDevice | NotCanonicalDevice | WrongDevice | MissingProof | BadProofError
    | MissingExpiry | Expired | TtlTooLong | FromTheFuture | Revoked | Superseded

  /** `Parsed::check`, yielding the device; `signed` is whether the event's own signature verifies. */
  function Check(e: Event, signed: bool, now: Timestamp): Result<string, BindingError> {
    if !e.body.Binding? then Err(WrongKind)
    else
      var t := e.body.tags;
      if !signed then Err(BadSignature)
      else if e.at > now + MAX_CLOCK_SKEW then Err(FromTheFuture)
      else if t.device.None? then Err(MissingDevice)
      else if !t.canonical then Err(NotCanonicalDevice)
      else if t.revoked then Ok(t.device.value)
      else if t.expires.None? then Err(MissingExpiry)
      else if t.expires.value <= now then Err(Expired)
      else if t.expires.value > e.at + MAX_TTL then Err(TtlTooLong)
      else if t.proof.NoProof? then Err(MissingProof)
      else if t.proof.BadProof? then Err(BadProofError)
      else Ok(t.device.value)
  }

  /** `verify_binding_at`. */
  function Verify(e: Event, signed: bool, conn: string, now: Timestamp): Result<PublicKey, BindingError> {
    match Check(e, signed, now)
    case Err(x) => Err(x)
    case Ok(device) =>
      if device != conn then Err(WrongDevice)
      else if e.body.tags.revoked then Err(Revoked)
      else Ok(e.author)
  }

  type Newest = map<(PublicKey, string), Event>

  datatype Outcome = Kept | Stale

  datatype Booked = Booked(newest: Newest, result: Result<Outcome, BindingError>)

  function BookInsert(newest: Newest, e: Event, signed: bool, now: Timestamp): Booked {
    match Check(e, signed, now)
    case Err(x) => Booked(newest, Err(x))
    case Ok(device) =>
      var key := (e.author, device);
      if key in newest && !Replaces(e, newest[key]) then Booked(newest, Ok(Stale))
      else Booked(newest[key := e], Ok(Kept))
  }

  /** What the book and the connection say of `presented`, after `presented` is booked. */
  function Authenticated(newest: Newest, presented: Event, signed: bool, conn: string, now: Timestamp): Result<PublicKey, BindingError> {
    match Verify(presented, signed, conn, now)
    case Err(x) => Err(x)
    case Ok(person) =>
      var after := BookInsert(newest, presented, signed, now).newest;
      if (person, conn) !in after then Err(Superseded)
      else if IsRevocation(after[(person, conn)]) then Err(Revoked)
      else Verify(after[(person, conn)], true, conn, now)
  }

  class BindingBook {
    var newest: Newest

    constructor ()
      ensures newest == map[]
    {
      newest := map[];
    }

    method Insert(e: Event, signed: bool, now: Timestamp) returns (r: Result<Outcome, BindingError>)
      modifies this
      ensures Booked(newest, r) == BookInsert(old(newest), e, signed, now)
    {
      var parsed := Check(e, signed, now);
      if parsed.Err? {
        return Err(parsed.error);
      }
      var key := (e.author, parsed.value);
      if key in newest && !Replaces(e, newest[key]) {
        return Ok(Stale);
      }
      newest := newest[key := e];
      r := Ok(Kept);
    }

    /** Signatures of events in the book were checked on the way in. */
    method Authenticate(presented: Event, signed: bool, conn: string, now: Timestamp) returns (r: Result<PublicKey, BindingError>)
      modifies this
      ensures r == Authenticated(old(newest), presented, signed, conn, now)
      ensures newest == if Verify(presented, signed, conn, now).Ok? then BookInsert(old(newest), presented, signed, now).newest else old(newest)
    {
      var verified := Verify(presented, signed, conn, now);
      if verified.Err? {
        return Err(verified.error);
      }
      var inserted := Insert(presented, signed, now);
      assert inserted.Ok?;
      var key := (verified.value, conn);
      if key !in newest {
        return Err(Superseded);
      }
      if IsRevocation(newest[key]) {
        return Err(Revoked);
      }
      r := Verify(newest[key], true, conn, now);
    }
  }

  // ---- every run of the book --------------------------------------------------------

  datatype BookOp =
    | InsertOp(event: Event, signed: bool, now: Timestamp)
    | AuthenticateOp(event: Event, signed: bool, conn: string, now: Timestamp)

  function StepBook(newest: Newest, op: BookOp): Newest {
    match op
    case InsertOp(e, signed, now) => BookInsert(newest, e, signed, now).newest
    case AuthenticateOp(e, signed, conn, now) =>
      if Verify(e, signed, conn, now).Ok? then BookInsert(newest, e, signed, now).newest else newest
  }

  function RunBook(ops: seq<BookOp>): Newest {
    if ops == [] then map[]
    else StepBook(RunBook(ops[..|ops| - 1]), ops[|ops| - 1])
  }

  /** `op` took `e` in: its checks passed, whether the book kept it or held a newer one. */
  predicate TookIn(op: BookOp, e: Event) {
    && op.event == e && Check(e, op.signed, op.now).Ok?
    && (op.AuthenticateOp? ==> Verify(e, op.signed, op.conn, op.now).Ok?)
  }

  predicate IsEntry(e: Event, key: (PublicKey, string)) {
    e.body.Binding? && e.author == key.0 && e.body.tags.device == Some(key.1)
  }

  /** Every entry was taken in under its own key, and nothing ever taken in replaces it. */
  ghost predicate BookInv(newest: Newest, ops: seq<BookOp>) {
    && (forall key :: key in newest ==> IsEntry(newest[key], key) && exists op :: op in ops && TookIn(op, newest[key]))
    && (forall op, key :: op in ops && TookIn(op, op.event) && IsEntry(op.event, key) ==> key in newest && !Replaces(op.event, newest[key]))
  }

  lemma CheckedIsEntry(e: Event, signed: bool, now: Timestamp)
    ensures Check(e, signed, now).Ok? ==> IsEntry(e, (e.author, Check(e, signed, now).value))
  {
  }

  lemma EntriesShareKind(a: Event, b: Event)
    ensures a.body.Binding? && b.body.Binding? ==> SameKind(a, b)
  {
  }

  lemma {:induction false} StepKeepsBookInv(newest: Newest, ops: seq<BookOp>, op: BookOp)
    requires BookInv(newest, ops)
    ensures BookInv(StepBook(newest, op), ops + [op])
  {
    hide Replaces, Check;
    var e, after, all := op.event, StepBook(newest, op), ops + [op];
    forall o | o in ops ensures o in all {
    }
    if TookIn(op, e) {
      CheckedIsEntry(e, op.signed, op.now);
      var key := (e.author, Check(e, op.signed, op.now).value);
      forall k | IsEntry(e, k) ensures k == key {
      }
      forall k | k in after ensures IsEntry(after[k], k) && exists o :: o in all && TookIn(o, after[k]) {
        if k in newest && after[k] == newest[k] {
          var o :| o in ops && TookIn(o, newest[k]);
          assert o in all;
        } else {
          assert op in all;
        }
      }
      EntriesShareKind(e, e);
      ReplacesIsStrictTotalOrder(e, e, e);
      forall o, k | o in all && TookIn(o, o.event) && IsEntry(o.event, k) ensures k in after && !Replaces(o.event, after[k]) {
        if o in ops && k == key && after[k] == e && key in newest && Replaces(e, newest[key]) {
          EntriesShareKind(e, newest[key]);
          EntriesShareKind(newest[key], o.event);
          UnbeatenIsTransitive(e, newest[key], o.event);
        }
      }
    } else {
      assert after == newest;
      forall k | k in after ensures exists o :: o in all && TookIn(o, after[k]) {
        var o :| o in ops && TookIn(o, newest[k]);
        assert o in all;
      }
    }
  }

  lemma {:induction false} RunKeepsBookInv(ops: seq<BookOp>)
    ensures BookInv(RunBook(ops), ops)
  {
    hide StepBook, BookInv;
    if ops == [] {
      EmptyBookInv();
    } else {
      var last := |ops| - 1;
      RunKeepsBookInv(ops[..last]);
      assert ops == ops[..last] + [ops[last]];
      StepKeepsBookInv(RunBook(ops[..last]), ops[..last], ops[last]);
    }
  }

  lemma EmptyBookInv()
    ensures BookInv(map[], [])
  {
  }

  /** A live binding of `person` to `conn`: proof-carrying, unexpired, not a revocation. */
  predicate LiveBinding(e: Event, person: PublicKey, conn: string, now: Timestamp) {
    && IsEntry(e, (person, conn)) && e.body.tags.canonical && !e.body.tags.revoked
    && e.body.tags.expires.Some? && now < e.body.tags.expires.value <= e.at + MAX_TTL
    && e.body.tags.proof.GoodProof? && e.at <= now + MAX_CLOCK_SKEW
  }

  /**
    After any run, a connection that authenticates as `person` does so on the newest binding
    the book has for that person and device, live and proof-carrying, and dated strictly later
    than every revocation of that device by that person ever taken in.
   */
  lemma {:induction false} AuthenticationOutlivesRevocations(ops: seq<BookOp>, presented: Event, signed: bool, conn: string, now: Timestamp, person: PublicKey)
    requires Authenticated(RunBook(ops), presented, signed, conn, now) == Ok(person)
    ensures
      var op := AuthenticateOp(presented, signed, conn, now);
      var after := StepBook(RunBook(ops), op);
      && (person, conn) in after
      && LiveBinding(after[(person, conn)], person, conn, now)
      && (forall o :: o in ops + [op] && TookIn(o, o.event) && IsEntry(o.event, (person, conn)) ==> !Replaces(o.event, after[(person, conn)]))
      && (forall o :: o in ops + [op] && TookIn(o, o.event) && IsEntry(o.event, (person, conn)) && o.event.body.tags.revoked
                      ==> o.event.at < after[(person, conn)].at)
  {
    var op := AuthenticateOp(presented, signed, conn, now);
    RunKeepsBookInv(ops);
    StepKeepsBookInv(RunBook(ops), ops, op);
  }

  /**
    Exactly: whatever the book holds, a connection is `person` when the presented binding is
    theirs and verifies for it, and the newest the book then has for that person and device,
    presented or not, is live.
   */
  lemma {:induction false} AuthenticatedExactly(ops: seq<BookOp>, presented: Event, signed: bool, conn: string, now: Timestamp, person: PublicKey)
    ensures
      var after := BookInsert(RunBook(ops), presented, signed, now).newest;
      Authenticated(RunBook(ops), presented, signed, conn, now) == Ok(person) <==>
      && Verify(presented, signed, conn, now) == Ok(person)
      && (person, conn) in after && LiveBinding(after[(person, conn)], person, conn, now)
  {
    var op := AuthenticateOp(presented, signed, conn, now);
    var after := BookInsert(RunBook(ops), presented, signed, now).newest;
    RunKeepsBookInv(ops);
    StepKeepsBookInv(RunBook(ops), ops, op);
    if Verify(presented, signed, conn, now) == Ok(person) && (person, conn) in after {
      var o :| o in ops + [op] && TookIn(o, after[(person, conn)]);
      TakenInIsCanonical(o);
      VerifiedWhenLive(after[(person, conn)], person, conn, now);
    }
    VerifiedIsAuthor(presented, signed, conn, now);
    hide Check, Replaces, RunBook, BookInv, LiveBinding, Verify, BookInsert;
  }

  lemma TakenInIsCanonical(op: BookOp)
    ensures TookIn(op, op.event) ==> op.event.body.Binding? && op.event.body.tags.canonical
  {
  }

  lemma VerifiedIsAuthor(e: Event, signed: bool, conn: string, now: Timestamp)
    ensures Verify(e, signed, conn, now).Ok? ==> Verify(e, signed, conn, now).value == e.author
  {
  }

  lemma VerifiedWhenLive(e: Event, person: PublicKey, conn: string, now: Timestamp)
    requires IsEntry(e, (person, conn)) && e.body.tags.canonical
    ensures !IsRevocation(e) && Verify(e, true, conn, now) == Ok(person) <==> LiveBinding(e, person, conn, now)
    ensures Verify(e, true, conn, now).Ok? ==> Verify(e, true, conn, now) == Ok(person)
  {
  }

  /** So a valid binding that no taken-in event replaces authenticates its connection. */
  lemma {:induction false} LiveBindingAuthenticates(ops: seq<BookOp>, presented: Event, conn: string, now: Timestamp)
    requires LiveBinding(presented, presented.author, conn, now)
    requires forall o :: o in ops && TookIn(o, o.event) && IsEntry(o.event, (presented.author, conn)) ==> Replaces(presented, o.event)
    ensures Authenticated(RunBook(ops), presented, true, conn, now) == Ok(presented.author)
  {
    RunKeepsBookInv(ops);
    var newest := RunBook(ops);
    var key := (presented.author, conn);
    if key in newest {
      var o :| o in ops && TookIn(o, newest[key]);
      assert o.event == newest[key];
    }
  }

  // ---- by the tags alone -----------------------------------------------------------

  /**
    A revocation needs its device and no expiry; a binding a proof and an expiry to come, at most
    thirty days after its date. Neither is dated more than ten minutes ahead.
   */
  predicate WellTagged(e: Event, now: Timestamp) {
    && e.body.Binding? && e.at <= now + 600 && e.body.tags.device.Some? && e.body.tags.canonical
    && (e.body.tags.revoked
        || (e.body.tags.expires.Some? && now < e.body.tags.expires.value <= e.at + 2592000 && e.body.tags.proof.GoodProof?))
  }

  lemma CheckExactly(e: Event, signed: bool, now: Timestamp)
    ensures Check(e, signed, now).Ok? <==> signed && WellTagged(e, now)
    ensures Check(e, signed, now).Ok? ==> Some(Check(e, signed, now).value) == e.body.tags.device
  {
  }

  /** The later of two; on a tie the revocation, and between equals the lower id. */
  predicate Outdates(e: Event, current: Event)
    requires e.body.Binding? && current.body.Binding?
  {
    || e.at > current.at
    || (e.at == current.at
        && (if e.body.tags.revoked == current.body.tags.revoked then e.id < current.id else e.body.tags.revoked))
  }

  lemma OutdatesExactly(e: Event, current: Event)
    requires e.body.Binding? && current.body.Binding?
    ensures Replaces(e, current) <==> Outdates(e, current)
  {
  }

  /** What is taken in at all, and what it changes: only the entry of its person and device, and only if it outdates it. */
  lemma {:induction false} InsertExactly(ops: seq<BookOp>, e: Event, signed: bool, now: Timestamp)
    ensures
      var before, after := RunBook(ops), RunBook(ops + [InsertOp(e, signed, now)]);
      if !signed || !WellTagged(e, now) then after == before
      else
        var key := (e.author, e.body.tags.device.value);
        && after.Keys == before.Keys + {key} && (forall k :: k in before && k != key ==> after[k] == before[k])
        && (key in before ==> before[key].body.Binding?)
        && after[key] == if key in before && !Outdates(e, before[key]) then before[key] else e
  {
    hide Check, Replaces, WellTagged, Outdates;
    var all := ops + [InsertOp(e, signed, now)];
    assert all[..|ops|] == ops;
    CheckExactly(e, signed, now);
    RunKeepsBookInv(ops);
    if signed && WellTagged(e, now) {
      CheckedIsEntry(e, signed, now);
      var key := (e.author, e.body.tags.device.value);
      if key in RunBook(ops) {
        OutdatesExactly(e, RunBook(ops)[key]);
      }
    }
  }

  /**
    A revocation somebody signed for a device, once inserted, outlives every binding of it dated
    no later: whoever that device authenticates as them does so on a binding dated after it.
   */
  lemma {:induction false} RevocationsHold(ops: seq<BookOp>, r: Event, taken: Timestamp, presented: Event, signed: bool,
                                           conn: string, now: Timestamp, person: PublicKey)
    requires InsertOp(r, true, taken) in ops && r.body.Binding? && r.author == person && r.at <= taken + 600
    requires r.body.tags.device == Some(conn) && r.body.tags.canonical && r.body.tags.revoked
    requires Authenticated(RunBook(ops), presented, signed, conn, now) == Ok(person)
    ensures
      var after := BookInsert(RunBook(ops), presented, signed, now).newest;
      && (person, conn) in after && after[(person, conn)].body.Binding?
      && r.at < after[(person, conn)].at && !after[(person, conn)].body.tags.revoked
      && LiveBinding(after[(person, conn)], person, conn, now)
  {
    hide RunBook, Authenticated, LiveBinding;
    CheckExactly(r, true, taken);
    CheckedIsEntry(r, true, taken);
    var o := InsertOp(r, true, taken);
    assert o in ops + [AuthenticateOp(presented, signed, conn, now)];
    AuthenticationOutlivesRevocations(ops, presented, signed, conn, now, person);
    AuthenticatedExactly(ops, presented, signed, conn, now, person);
    LiveIsNotRevoked(BookInsert(RunBook(ops), presented, signed, now).newest, person, conn, now);
  }

  lemma LiveIsNotRevoked(newest: Newest, person: PublicKey, conn: string, now: Timestamp)
    ensures (person, conn) in newest && LiveBinding(newest[(person, conn)], person, conn, now) ==>
            newest[(person, conn)].body.Binding? && !newest[(person, conn)].body.tags.revoked
  {
  }

  /** Who is authenticated, by the tags of the event presented and of the newest booked. */
  lemma {:induction false} AuthenticatedByTags(ops: seq<BookOp>, presented: Event, signed: bool, conn: string, now: Timestamp, person: PublicKey)
    ensures
      var after := RunBook(ops + [InsertOp(presented, signed, now)]);
      Authenticated(RunBook(ops), presented, signed, conn, now) == Ok(person) <==>
      && signed && WellTagged(presented, now) && presented.author == person
      && presented.body.tags.device == Some(conn) && !presented.body.tags.revoked
      && (person, conn) in after && LiveBinding(after[(person, conn)], person, conn, now)
  {
    hide Check, Replaces, RunBook, Authenticated, LiveBinding, BookInsert, WellTagged;
    var all := ops + [InsertOp(presented, signed, now)];
    RunSnoc(ops, InsertOp(presented, signed, now));
    CheckExactly(presented, signed, now);
    BindingWhenTagged(presented, now);
    AuthenticatedExactly(ops, presented, signed, conn, now, person);
  }

  lemma BindingWhenTagged(e: Event, now: Timestamp)
    ensures WellTagged(e, now) ==> e.body.Binding?
  {
  }

  lemma RunSnoc(ops: seq<BookOp>, op: BookOp)
    ensures RunBook(ops + [op]) == StepBook(RunBook(ops), op)
  {
    assert (ops + [op])[..|ops|] == ops;
  }

  // ---- the book and the store ------------------------------------------------------

  function EventsOf(ops: seq<BookOp>): seq<Event> {
    if ops == [] then [] else EventsOf(ops[..|ops| - 1]) + [ops[|ops| - 1].event]
  }

  lemma {:induction false} EventsOfAre(ops: seq<BookOp>, e: Event)
    ensures e in EventsOf(ops) <==> exists o :: o in ops && o.event == e
  {
    if ops != [] {
      var last := |ops| - 1;
      EventsOfAre(ops[..last], e);
      assert ops == ops[..last] + [ops[last]];
      if exists o :: o in ops && o.event == e {
        var o :| o in ops && o.event == e;
        assert o in ops[..last] || o == ops[last];
      }
      if exists o :: o in ops[..last] && o.event == e {
        var o :| o in ops[..last] && o.event == e;
        assert o in ops;
      }
    }
  }

  lemma {:induction false} EntriesShareASlot(a: Event, b: Event, key: (PublicKey, string))
    ensures IsEntry(a, key) ==> (SameSlot(b, a) && b.body.Binding? && b.body.tags.device.Some? <==> IsEntry(b, key))
  {
  }

  /** Fed the same accepted bindings, the book and the store never disagree. */
  lemma {:induction false} BookAgreesWithStore(ops: seq<BookOp>, key: (PublicKey, string), e: Event)
    requires forall o :: o in ops ==> TookIn(o, o.event)
    requires Store.IdsName(EventsOf(ops))
    ensures key in RunBook(ops) && RunBook(ops)[key] == e <==> e in Store.InsertAll(EventsOf(ops)) && IsEntry(e, key)
  {
    hide Replaces, RunBook, Store.InsertAll, Store.Survives, EventsOf, SameSlot;
    RunKeepsBookInv(ops);
    Store.StoreHoldsTheNewest(EventsOf(ops), e);
    var newest := RunBook(ops);
    if key in newest && newest[key] == e {
      EntrySurvives(ops, key);
    }
    if e in Store.InsertAll(EventsOf(ops)) && IsEntry(e, key) {
      SurvivorArrived(e, EventsOf(ops));
      EventsOfAre(ops, e);
      var o :| o in ops && o.event == e;
      EntrySurvives(ops, key);
      TwoSurvivors(EventsOf(ops), newest[key], e, key);
    }
  }

  lemma SurvivorArrived(e: Event, arrivals: seq<Event>)
    requires Store.Survives(e, arrivals)
    ensures e in arrivals
  {
  }

  /** The book's entry replaces every other arrival in its slot. */
  lemma {:induction false} EntrySurvives(ops: seq<BookOp>, key: (PublicKey, string))
    requires forall o :: o in ops ==> TookIn(o, o.event)
    requires BookInv(RunBook(ops), ops) && key in RunBook(ops) && Store.IdsName(EventsOf(ops))
    ensures Store.Survives(RunBook(ops)[key], EventsOf(ops))
  {
    hide Replaces, RunBook, EventsOf, SameSlot;
    var e := RunBook(ops)[key];
    var o :| o in ops && TookIn(o, e);
    EventsOfAre(ops, e);
    BindingsAreKept(e);
    forall f | f in EventsOf(ops) && SameSlot(f, e) && f != e ensures Replaces(e, f) {
      EventsOfAre(ops, f);
      var q :| q in ops && q.event == f;
      assert TookIn(q, f);
      EntriesShareASlot(e, f, key);
      CheckedIsEntry(f, q.signed, q.now);
      EntriesShareKind(e, f);
      ReplacesIsStrictTotalOrder(e, f, e);
    }
  }

  lemma BindingsAreKept(e: Event)
    ensures e.body.Binding? ==> !SlotOf(e).Ephemeral?
  {
  }

  lemma TwoSurvivors(arrivals: seq<Event>, a: Event, b: Event, key: (PublicKey, string))
    requires Store.Survives(a, arrivals) && Store.Survives(b, arrivals) && IsEntry(a, key) && IsEntry(b, key)
    ensures a == b
  {
    EntriesShareASlot(a, b, key);
    EntriesShareASlot(b, a, key);
    EntriesShareKind(a, b);
    ReplacesIsStrictTotalOrder(a, b, a);
  }
}
