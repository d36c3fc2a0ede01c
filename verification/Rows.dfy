/**
  The tag rows of group state (crates/hit-event/src/group.rs, `Snapshot::sign` and
  `parse_state`): what is written, what is read, and when they agree.
 */
module Rows {
  import opened Prelude
  import opened Digits
  import opened Group
  import opened Perm
  import opened Hex
  import opened State
  import opened Invariants
  import C = Compaction

  /** A tag: its name, then its values. */
  type Row = seq<string>

  const GROUP_METADATA: nat := 39000
  const GROUP_ADMINS: nat := 39001
  const GROUP_MEMBERS: nat := 39002
  const GROUP_ROLES: nat := 39003

  /** An event before its tags are understood. Its signature is not part of this model. */
  datatype RawEvent = RawEvent(kind: nat, author: PublicKey, at: Timestamp, rows: seq<Row>)

  // ---- numbers -----------------------------------------------------------------------

  function BitsText(b: Bits): string { Decimal(b as nat) }

  function ParseBits(s: string): Option<Bits> {
    var n := ParseUnsigned(s, U64_LIMIT);
    if n.None? then None else Some(n.value as bv64)
  }

  lemma BitsBack(b: Bits)
    ensures (b as nat) < U64_LIMIT && (b as nat) as bv64 == b
  {
  }

  lemma BitsRoundTrip(b: Bits)
    ensures ParseBits(BitsText(b)) == Some(b)
  {
    hide Decimal, ParseUnsigned;
    BitsBack(b);
    UnsignedRoundTrip(b as nat, U64_LIMIT);
  }

  function ParseSeconds(s: string): Option<Seconds> {
    var n := ParseUnsigned(s, U32_LIMIT);
    if n.None? || n.value >= U32_LIMIT then None else Some(n.value)
  }

  lemma SecondsRoundTrip(n: Seconds)
    ensures ParseSeconds(Decimal(n)) == Some(n)
  {
    hide Decimal, ParseUnsigned;
    UnsignedRoundTrip(n, U32_LIMIT);
  }

  function ParsePosition(s: string): Option<Position> {
    var x := ParseSigned(s, I64_LIMIT);
    if x.None? || !(I64_MIN <= x.value < I64_LIMIT) then None else Some(x.value)
  }

  lemma PositionRoundTrip(x: Position)
    ensures ParsePosition(DecimalInt(x)) == Some(x)
  {
    hide DecimalInt, ParseSigned;
    SignedRoundTrip(x, I64_LIMIT);
  }

  // ---- rows of one thing ---------------------------------------------------------------

  function KindText(k: ChannelKind): string {
    match k
    case Text => "text"
    case Voice => "voice"
  }

  function ParseKind(s: string): Option<ChannelKind> {
    if s == "text" then Some(Text) else if s == "voice" then Some(Voice) else None
  }

  function ChannelRow(c: Channel): Row {
    ["channel", c.id, c.name, KindText(c.kind), Decimal(c.slowmode)]
  }

  /** `[id, name, kind, slowmode?]` */
  function ParseChannel(rest: Row): Option<Channel> {
    if |rest| < 3 then None
    else
      var kind := ParseKind(rest[2]);
      var slowmode := if |rest| > 3 then ParseSeconds(rest[3]) else Some(0);
      if kind.None? || slowmode.None? then None
      else Some(Channel(rest[0], rest[1], kind.value, slowmode.value))
  }

  lemma {:induction false} ChannelRoundTrip(c: Channel)
    ensures ParseChannel(ChannelRow(c)[1..]) == Some(c)
  {
    hide Decimal, ParseSeconds;
    SecondsRoundTrip(c.slowmode);
  }

  function OverrideRow(o: Override): Row {
    ["override", o.channel, o.role, BitsText(o.allow), BitsText(o.deny)]
  }

  function ParseOverride(rest: Row): Option<Override> {
    if |rest| < 4 then None
    else
      var allow, deny := ParseBits(rest[2]), ParseBits(rest[3]);
      if allow.None? || deny.None? then None else Some(Override(rest[0], rest[1], allow.value, deny.value))
  }

  lemma OverrideRoundTrip(o: Override)
    ensures ParseOverride(OverrideRow(o)[1..]) == Some(o)
  {
    hide BitsText, ParseBits;
    BitsRoundTrip(o.allow);
    BitsRoundTrip(o.deny);
  }

  function RoleRow(r: RoleDef): Row {
    ["role", r.id, r.name, BitsText(r.perms), DecimalInt(r.position)]
  }

  function ParseRole(rest: Row): Option<RoleDef> {
    if |rest| < 4 then None
    else
      var perms, position := ParseBits(rest[2]), ParsePosition(rest[3]);
      if perms.None? || position.None? then None else Some(RoleDef(rest[0], rest[1], perms.value, position.value))
  }

  lemma RoleRoundTrip(r: RoleDef)
    ensures ParseRole(RoleRow(r)[1..]) == Some(r)
  {
    hide BitsText, ParseBits, DecimalInt, ParsePosition;
    BitsRoundTrip(r.perms);
    PositionRoundTrip(r.position);
  }

  // ---- reading rows one after another ------------------------------------------------------

  /** Left to right; the first row that cannot be read stops it. */
  function FoldRows<A>(step: (A, Row) -> Option<A>, a: A, rows: seq<Row>): Option<A> {
    if rows == [] then Some(a)
    else
      var front := FoldRows(step, a, rows[..|rows| - 1]);
      if front.None? then None else step(front.value, rows[|rows| - 1])
  }

  lemma {:induction false} FoldRowsConcat<A>(step: (A, Row) -> Option<A>, a: A, x: seq<Row>, y: seq<Row>)
    ensures FoldRows(step, a, x + y) ==
            var front := FoldRows(step, a, x); if front.None? then None else FoldRows(step, front.value, y)
  {
    if y == [] {
      assert x + y == x;
    } else {
      assert (x + y)[..|x + y| - 1] == x + y[..|y| - 1];
      FoldRowsConcat(step, a, x, y[..|y| - 1]);
    }
  }

  lemma FoldOneRow<A>(step: (A, Row) -> Option<A>, a: A, row: Row)
    ensures FoldRows(step, a, [row]) == step(a, row)
  {
    assert [row][..0] == [];
  }

  /** The first value of the first row of that name that has one. */
  function FirstValue(rows: seq<Row>, name: string): Option<string> {
    if rows == [] then None
    else if |rows[0]| >= 2 && rows[0][0] == name then Some(rows[0][1])
    else FirstValue(rows[1..], name)
  }

  // ---- metadata ------------------------------------------------------------------------------

  datatype MetadataSoFar = MetadataSoFar(
    name: string, public: bool, private: bool, newcomerWait: Seconds, about: string,
    channels: seq<Channel>, overrides: seq<Override>)

  function MetadataStep(a: MetadataSoFar, row: Row): Option<MetadataSoFar> {
    if row == [] then Some(a)
    else if row[0] == "name" && |row| >= 2 then Some(a.(name := row[1]))
    else if row[0] == "public" then Some(a.(public := true))
    else if row[0] == "private" then Some(a.(private := true))
    else if row[0] == "newcomer_wait" && |row| >= 2 then
      var n := ParseSeconds(row[1]);
      if n.None? then None else Some(a.(newcomerWait := n.value))
    else if row[0] == "about" && |row| >= 2 then Some(a.(about := row[1]))
    else if row[0] == "channel" then
      var c := ParseChannel(row[1..]);
      if c.None? then None else Some(a.(channels := a.channels + [c.value]))
    else if row[0] == "override" then
      var o := ParseOverride(row[1..]);
      if o.None? then None else Some(a.(overrides := a.overrides + [o.value]))
    else Some(a)
  }

  const NO_METADATA := MetadataSoFar("", false, false, 0, "", [], [])

  /** Both words, or neither: private. */
  function MetadataPiece(a: MetadataSoFar): StatePiece {
    Metadata(a.name, a.public && !a.private, a.newcomerWait, a.about, a.channels, a.overrides)
  }

  // ---- admins ----------------------------------------------------------------------------------

  datatype AdminsSoFar = AdminsSoFar(owner: Option<PublicKey>, assignments: map<PublicKey, set<string>>)

  function AdminsStep(a: AdminsSoFar, row: Row): Option<AdminsSoFar> {
    if |row| >= 2 && row[0] == "p" then
      var p := FromHex(row[1]);
      if p.None? then None
      else if OWNER_MARK in row[2..] then Some(a.(owner := p))
      else Some(a.(assignments := a.assignments[p.value := set r | r in row[2..]]))
    else Some(a)
  }

  function AdminsPiece(a: AdminsSoFar): StatePiece { Admins(a.owner, a.assignments) }

  // ---- members ---------------------------------------------------------------------------------

  datatype MembersSoFar = MembersSoFar(members: set<PublicKey>, bans: set<PublicKey>, mutes: map<PublicKey, Timestamp>)

  function MembersStep(a: MembersSoFar, row: Row): Option<MembersSoFar> {
    if |row| >= 2 && row[0] == "p" then
      var p := FromHex(row[1]);
      if p.None? then None else Some(a.(members := a.members + {p.value}))
    else if |row| >= 2 && row[0] == "ban" then
      var p := FromHex(row[1]);
      if p.None? then None else Some(a.(bans := a.bans + {p.value}))
    else if |row| >= 3 && row[0] == "mute" then
      var p, until := FromHex(row[1]), ParseUnsigned(row[2], U64_LIMIT);
      if p.None? || until.None? then None else Some(a.(mutes := a.mutes[p.value := until.value]))
    else Some(a)
  }

  function MembersPiece(a: MembersSoFar): StatePiece { Members(a.members, a.bans, a.mutes) }

  // ---- roles -----------------------------------------------------------------------------------

  function RolesStep(a: seq<RoleDef>, row: Row): Option<seq<RoleDef>> {
    if row != [] && row[0] == "role" then
      var r := ParseRole(row[1..]);
      if r.None? then None else Some(a + [r.value])
    else Some(a)
  }

  // ---- parse_state ------------------------------------------------------------------------------

  function ParsePiece(kind: nat, rows: seq<Row>): Option<StatePiece> {
    if kind == GROUP_METADATA then
      var a := FoldRows(MetadataStep, NO_METADATA, rows);
      if a.None? then None else Some(MetadataPiece(a.value))
    else if kind == GROUP_ADMINS then
      var a := FoldRows(AdminsStep, AdminsSoFar(None, map[]), rows);
      if a.None? then None else Some(AdminsPiece(a.value))
    else if kind == GROUP_MEMBERS then
      var a := FoldRows(MembersStep, MembersSoFar({}, {}, map[]), rows);
      if a.None? then None else Some(MembersPiece(a.value))
    else
      var a := FoldRows(RolesStep, [], rows);
      if a.None? then None else Some(Roles(a.value))
  }

  datatype Parsed = Parsed(group: PublicKey, seqNo: nat, piece: StatePiece)

  function ParseState(e: RawEvent): Option<Parsed> {
    var d := FirstValue(e.rows, "d");
    var group := if d.None? then None else FromHex(d.value);
    if !(GROUP_METADATA <= e.kind <= GROUP_ROLES) || group.None? || e.author != group.value then None
    else
      var text := FirstValue(e.rows, "seq");
      var seqNo := if text.None? then None else ParseUnsigned(text.value, U64_LIMIT);
      var piece := ParsePiece(e.kind, e.rows);
      if seqNo.None? || piece.None? then None else Some(Parsed(group.value, seqNo.value, piece.value))
  }

  /** The loops of `parse_state`, one a kind. */
  method ParseStateEvent(e: RawEvent) returns (r: Option<Parsed>)
    ensures r == ParseState(e)
  {
    hide FromHex, ParseUnsigned, FoldRows, MetadataStep, AdminsStep, MembersStep, RolesStep;
    var d := FirstValue(e.rows, "d");
    var group := if d.None? then None else FromHex(d.value);
    if !(GROUP_METADATA <= e.kind <= GROUP_ROLES) || group.None? || e.author != group.value {
      return None;
    }
    var text := FirstValue(e.rows, "seq");
    var seqNo := if text.None? then None else ParseUnsigned(text.value, U64_LIMIT);
    if seqNo.None? {
      return None;
    }
    var piece;
    if e.kind == GROUP_METADATA {
      var a := ReadRows(MetadataStep, NO_METADATA, e.rows);
      piece := if a.None? then None else Some(MetadataPiece(a.value));
    } else if e.kind == GROUP_ADMINS {
      var a := ReadRows(AdminsStep, AdminsSoFar(None, map[]), e.rows);
      piece := if a.None? then None else Some(AdminsPiece(a.value));
    } else if e.kind == GROUP_MEMBERS {
      var a := ReadRows(MembersStep, MembersSoFar({}, {}, map[]), e.rows);
      piece := if a.None? then None else Some(MembersPiece(a.value));
    } else {
      var a := ReadRows(RolesStep, [], e.rows);
      piece := if a.None? then None else Some(Roles(a.value));
    }
    r := if piece.None? then None else Some(Parsed(group.value, seqNo.value, piece.value));
  }

  method ReadRows<A>(step: (A, Row) -> Option<A>, start: A, rows: seq<Row>) returns (r: Option<A>)
    ensures r == FoldRows(step, start, rows)
  {
    var a := start;
    for i := 0 to |rows|
      invariant FoldRows(step, start, rows[..i]) == Some(a)
    {
      assert rows[..i + 1][..i] == rows[..i];
      var next := step(a, rows[i]);
      if next.None? {
        FoldRowsConcat(step, start, rows[..i + 1], rows[i + 1..]);
        assert rows[..i + 1] + rows[i + 1..] == rows;
        return None;
      }
      a := next.value;
    }
    assert rows[..|rows|] == rows;
    r := Some(a);
  }

  // ---- sign ---------------------------------------------------------------------------------------

  /** The order in which the code walks a snapshot's maps and sets; any will do. */
  datatype Listing = Listing(
    members: seq<PublicKey>, held: map<PublicKey, seq<string>>, bans: seq<PublicKey>, mutes: seq<PublicKey>)

  ghost predicate ListsSnapshot(l: Listing, s: Snapshot) {
    && C.Lists(l.members, s.members.Keys) && C.Lists(l.bans, s.bans) && C.Lists(l.mutes, s.mutes.Keys)
    && (forall p :: p in s.members ==> p in l.held && C.Lists(l.held[p], s.members[p]))
  }

  function BaseRows(g: PublicKey, seqNo: nat): seq<Row> {
    [["d", ToHex(g)], ["seq", Decimal(seqNo)]]
  }

  function VisibilityRows(public: bool): seq<Row> {
    if public then [["public"], ["open"]] else [["private"], ["closed"]]
  }

  function ChannelRows(channels: seq<Channel>): seq<Row> {
    seq(|channels|, i requires 0 <= i < |channels| => ChannelRow(channels[i]))
  }

  function OverrideRows(overrides: seq<Override>): seq<Row> {
    seq(|overrides|, i requires 0 <= i < |overrides| => OverrideRow(overrides[i]))
  }

  function MetadataRows(s: Snapshot): seq<Row> {
    [["name", s.name]] + VisibilityRows(s.public)
    + (if s.newcomerWait > 0 then [["newcomer_wait", Decimal(s.newcomerWait)]] else [])
    + (if s.about != "" then [["about", s.about]] else [])
    + ChannelRows(s.channels) + OverrideRows(s.overrides)
  }

  function OwnerRows(owner: Option<PublicKey>): seq<Row> {
    if owner.None? then [] else [["p", ToHex(owner.value), OWNER_MARK]]
  }

  /** Members without roles have no row. */
  function AssignmentRows(order: seq<PublicKey>, held: map<PublicKey, seq<string>>): seq<Row>
    requires forall p :: p in order ==> p in held
  {
    if order == [] then []
    else
      var p := order[|order| - 1];
      AssignmentRows(order[..|order| - 1], held) + (if held[p] == [] then [] else [["p", ToHex(p)] + held[p]])
  }

  function KeyRows(name: string, order: seq<PublicKey>): seq<Row> {
    seq(|order|, i requires 0 <= i < |order| => [name, ToHex(order[i])])
  }

  function MuteRows(order: seq<PublicKey>, mutes: map<PublicKey, Timestamp>): seq<Row>
    requires forall p :: p in order ==> p in mutes
  {
    seq(|order|, i requires 0 <= i < |order| => ["mute", ToHex(order[i]), Decimal(mutes[order[i]])])
  }

  function RoleRows(roles: seq<RoleDef>): seq<Row> {
    seq(|roles|, i requires 0 <= i < |roles| => RoleRow(roles[i]))
  }

  function MemberRows(s: Snapshot, l: Listing): seq<Row>
    requires forall p :: p in l.mutes ==> p in s.mutes
  {
    KeyRows("p", l.members) + KeyRows("ban", l.bans) + MuteRows(l.mutes, s.mutes)
  }

  /** The four state events of a snapshot. */
  function Signed(s: Snapshot, g: PublicKey, at: Timestamp, l: Listing): (events: seq<RawEvent>)
    requires (forall p :: p in l.members ==> p in l.held) && forall p :: p in l.mutes ==> p in s.mutes
    ensures |events| == 4
  {
    var base := BaseRows(g, s.seqNo);
    [RawEvent(GROUP_METADATA, g, at, base + MetadataRows(s)),
     RawEvent(GROUP_ADMINS, g, at, base + (OwnerRows(s.owner) + AssignmentRows(l.members, l.held))),
     RawEvent(GROUP_MEMBERS, g, at, base + MemberRows(s, l)),
     RawEvent(GROUP_ROLES, g, at, base + RoleRows(s.roles))]
  }

  /** The loops of `sign`. */
  method SignSnapshot(s: Snapshot, g: PublicKey, at: Timestamp, l: Listing) returns (events: seq<RawEvent>)
    requires (forall p :: p in l.members ==> p in l.held) && forall p :: p in l.mutes ==> p in s.mutes
    ensures events == Signed(s, g, at, l)
  {
    hide ToHex, Decimal, MetadataRows, BaseRows, OwnerRows, AssignmentRows, KeyRows, MuteRows, RoleRows;
    var base := BaseRows(g, s.seqNo);
    var meta := PushMetadata(base, s);
    var admins := PushAssignments(base + OwnerRows(s.owner), l.members, l.held);
    var members := PushKeys(base, "p", l.members);
    members := PushKeys(members, "ban", l.bans);
    members := PushMutes(members, l.mutes, s.mutes);
    assert admins == base + (OwnerRows(s.owner) + AssignmentRows(l.members, l.held));
    assert members == base + MemberRows(s, l);
    var roles := PushRoles(base, s.roles);
    events := [RawEvent(GROUP_METADATA, g, at, meta), RawEvent(GROUP_ADMINS, g, at, admins),
               RawEvent(GROUP_MEMBERS, g, at, members), RawEvent(GROUP_ROLES, g, at, roles)];
  }

  method PushMetadata(base: seq<Row>, s: Snapshot) returns (meta: seq<Row>)
    ensures meta == base + MetadataRows(s)
  {
    hide Decimal, ChannelRows, OverrideRows, VisibilityRows;
    ghost var name: seq<Row> := [["name", s.name]];
    ghost var wait: seq<Row> := if s.newcomerWait > 0 then [["newcomer_wait", Decimal(s.newcomerWait)]] else [];
    ghost var about: seq<Row> := if s.about != "" then [["about", s.about]] else [];
    meta := base + [["name", s.name]] + VisibilityRows(s.public);
    if s.newcomerWait > 0 {
      meta := meta + [["newcomer_wait", Decimal(s.newcomerWait)]];
    }
    assert meta == base + (name + VisibilityRows(s.public) + wait);
    if s.about != "" {
      meta := meta + [["about", s.about]];
    }
    assert meta == base + (name + VisibilityRows(s.public) + wait + about);
    meta := PushChannels(meta, s.channels);
    meta := PushOverrides(meta, s.overrides);
  }

  method PushChannels(start: seq<Row>, channels: seq<Channel>) returns (rows: seq<Row>)
    ensures rows == start + ChannelRows(channels)
  {
    hide ChannelRow;
    rows := start;
    for i := 0 to |channels|
      invariant rows == start + ChannelRows(channels)[..i]
    {
      rows := rows + [ChannelRow(channels[i])];
    }
  }

  method PushOverrides(start: seq<Row>, overrides: seq<Override>) returns (rows: seq<Row>)
    ensures rows == start + OverrideRows(overrides)
  {
    hide OverrideRow;
    rows := start;
    for i := 0 to |overrides|
      invariant rows == start + OverrideRows(overrides)[..i]
    {
      rows := rows + [OverrideRow(overrides[i])];
    }
  }

  method PushAssignments(start: seq<Row>, order: seq<PublicKey>, held: map<PublicKey, seq<string>>) returns (rows: seq<Row>)
    requires forall p :: p in order ==> p in held
    ensures rows == start + AssignmentRows(order, held)
  {
    hide ToHex;
    rows := start;
    for i := 0 to |order|
      invariant rows == start + AssignmentRows(order[..i], held)
    {
      assert order[..i + 1][..i] == order[..i];
      if held[order[i]] == [] {
        continue;
      }
      rows := rows + [["p", ToHex(order[i])] + held[order[i]]];
    }
    assert order[..|order|] == order;
  }

  method PushKeys(start: seq<Row>, name: string, order: seq<PublicKey>) returns (rows: seq<Row>)
    ensures rows == start + KeyRows(name, order)
  {
    hide ToHex;
    rows := start;
    for i := 0 to |order|
      invariant rows == start + KeyRows(name, order)[..i]
    {
      rows := rows + [[name, ToHex(order[i])]];
    }
  }

  method PushMutes(start: seq<Row>, order: seq<PublicKey>, mutes: map<PublicKey, Timestamp>) returns (rows: seq<Row>)
    requires forall p :: p in order ==> p in mutes
    ensures rows == start + MuteRows(order, mutes)
  {
    hide ToHex, Decimal;
    rows := start;
    for i := 0 to |order|
      invariant rows == start + MuteRows(order, mutes)[..i]
    {
      rows := rows + [["mute", ToHex(order[i]), Decimal(mutes[order[i]])]];
    }
  }

  method PushRoles(start: seq<Row>, roles: seq<RoleDef>) returns (rows: seq<Row>)
    ensures rows == start + RoleRows(roles)
  {
    hide RoleRow;
    rows := start;
    for i := 0 to |roles|
      invariant rows == start + RoleRows(roles)[..i]
    {
      rows := rows + [RoleRow(roles[i])];
    }
  }

  // ---- reading what was written: metadata -------------------------------------------------------------

  lemma {:induction false} ChannelsRead(a: MetadataSoFar, channels: seq<Channel>)
    ensures FoldRows(MetadataStep, a, ChannelRows(channels)) == Some(a.(channels := a.channels + channels))
  {
    hide ChannelRow, ParseChannel;
    if channels == [] {
      assert a.channels + channels == a.channels;
    } else {
      var last := |channels| - 1;
      ChannelsRead(a, channels[..last]);
      assert ChannelRows(channels)[..last] == ChannelRows(channels[..last]);
      ChannelStep(a.(channels := a.channels + channels[..last]), channels[last]);
      assert a.channels + channels[..last] + [channels[last]] == a.channels + channels;
    }
  }

  lemma ChannelStep(a: MetadataSoFar, c: Channel)
    ensures MetadataStep(a, ChannelRow(c)) == Some(a.(channels := a.channels + [c]))
  {
    hide ParseChannel, Decimal;
    ChannelRoundTrip(c);
  }

  lemma {:induction false} OverridesRead(a: MetadataSoFar, overrides: seq<Override>)
    ensures FoldRows(MetadataStep, a, OverrideRows(overrides)) == Some(a.(overrides := a.overrides + overrides))
  {
    hide OverrideRow, ParseOverride;
    if overrides == [] {
      assert a.overrides + overrides == a.overrides;
    } else {
      var last := |overrides| - 1;
      OverridesRead(a, overrides[..last]);
      assert OverrideRows(overrides)[..last] == OverrideRows(overrides[..last]);
      OverrideStep(a.(overrides := a.overrides + overrides[..last]), overrides[last]);
      assert a.overrides + overrides[..last] + [overrides[last]] == a.overrides + overrides;
    }
  }

  lemma OverrideStep(a: MetadataSoFar, o: Override)
    ensures MetadataStep(a, OverrideRow(o)) == Some(a.(overrides := a.overrides + [o]))
  {
    hide ParseOverride, BitsText;
    OverrideRoundTrip(o);
  }

  lemma BaseIsIdle(a: MetadataSoFar, g: PublicKey, seqNo: nat)
    ensures FoldRows(MetadataStep, a, BaseRows(g, seqNo)) == Some(a)
  {
    hide ToHex, Decimal, FoldRows;
    assert MetadataStep(a, ["d", ToHex(g)]) == Some(a);
    assert MetadataStep(a, ["seq", Decimal(seqNo)]) == Some(a);
    FoldTwoRows(MetadataStep, a, ["d", ToHex(g)], ["seq", Decimal(seqNo)]);
  }

  lemma FoldTwoRows<A>(step: (A, Row) -> Option<A>, a: A, x: Row, y: Row)
    ensures FoldRows(step, a, [x, y]) ==
            var front := step(a, x); if front.None? then None else step(front.value, y)
  {
    assert [x, y][..1] == [x];
    FoldOneRow(step, a, x);
  }

  lemma NameRead(a: MetadataSoFar, name: string)
    ensures FoldRows(MetadataStep, a, [["name", name]]) == Some(a.(name := name))
  {
    FoldOneRow(MetadataStep, a, ["name", name]);
  }

  lemma VisibilityRead(a: MetadataSoFar, public: bool)
    ensures FoldRows(MetadataStep, a, VisibilityRows(public)) ==
            Some(if public then a.(public := true) else a.(private := true))
  {
    if public {
      FoldTwoRows(MetadataStep, a, ["public"], ["open"]);
    } else {
      FoldTwoRows(MetadataStep, a, ["private"], ["closed"]);
    }
  }

  lemma WaitRead(a: MetadataSoFar, wait: Seconds)
    requires a.newcomerWait == 0
    ensures FoldRows(MetadataStep, a, if wait > 0 then [["newcomer_wait", Decimal(wait)]] else []) ==
            Some(a.(newcomerWait := wait))
  {
    hide Decimal, ParseSeconds;
    SecondsRoundTrip(wait);
    FoldOneRow(MetadataStep, a, ["newcomer_wait", Decimal(wait)]);
  }

  lemma AboutRead(a: MetadataSoFar, about: string)
    requires a.about == ""
    ensures FoldRows(MetadataStep, a, if about != "" then [["about", about]] else []) == Some(a.(about := about))
  {
    FoldOneRow(MetadataStep, a, ["about", about]);
  }

  lemma {:induction false} MetadataReadsBack(s: Snapshot, g: PublicKey)
    ensures ParsePiece(GROUP_METADATA, BaseRows(g, s.seqNo) + MetadataRows(s)) == Some(C.MetadataOf(s))
  {
    hide FoldRows, MetadataStep, Decimal, BaseRows, VisibilityRows, ChannelRows, OverrideRows;
    var wait: seq<Row> := if s.newcomerWait > 0 then [["newcomer_wait", Decimal(s.newcomerWait)]] else [];
    var about: seq<Row> := if s.about != "" then [["about", s.about]] else [];
    var name: seq<Row> := [["name", s.name]];
    var base, vis, chans, overs := BaseRows(g, s.seqNo), VisibilityRows(s.public), ChannelRows(s.channels), OverrideRows(s.overrides);
    var a0 := NO_METADATA;
    BaseIsIdle(a0, g, s.seqNo);
    NameRead(a0, s.name);
    var a1 := a0.(name := s.name);
    VisibilityRead(a1, s.public);
    var a2 := if s.public then a1.(public := true) else a1.(private := true);
    WaitRead(a2, s.newcomerWait);
    var a3 := a2.(newcomerWait := s.newcomerWait);
    AboutRead(a3, s.about);
    var a4 := a3.(about := s.about);
    ChannelsRead(a4, s.channels);
    var a5 := a4.(channels := a4.channels + s.channels);
    OverridesRead(a5, s.overrides);
    FoldRowsConcat(MetadataStep, a0, base, name);
    FoldRowsConcat(MetadataStep, a0, base + name, vis);
    FoldRowsConcat(MetadataStep, a0, base + name + vis, wait);
    FoldRowsConcat(MetadataStep, a0, base + name + vis + wait, about);
    FoldRowsConcat(MetadataStep, a0, base + name + vis + wait + about, chans);
    FoldRowsConcat(MetadataStep, a0, base + name + vis + wait + about + chans, overs);
    assert base + MetadataRows(s) == base + name + vis + wait + about + chans + overs;
    assert [] + s.channels == s.channels && [] + s.overrides == s.overrides;
  }

  // ---- reading what was written: admins ---------------------------------------------------------------

  ghost predicate HeldMatches(order: seq<PublicKey>, held: map<PublicKey, seq<string>>, members: map<PublicKey, set<string>>) {
    forall p :: p in order ==> p in held && p in members && C.Lists(held[p], members[p])
  }

  /** The members a row is written for and read back as holding roles. */
  ghost predicate Shown(members: map<PublicKey, set<string>>, p: PublicKey) {
    p in members && members[p] != {} && OWNER_MARK !in members[p]
  }

  lemma AssignmentStep(a: AdminsSoFar, p: PublicKey, held: seq<string>, roles: set<string>)
    requires C.Lists(held, roles)
    ensures AdminsStep(a, ["p", ToHex(p)] + held) ==
            Some(if OWNER_MARK in roles then a.(owner := Some(p)) else a.(assignments := a.assignments[p := roles]))
  {
    hide ToHex, FromHex;
    HexRoundTrip(p);
    var row := ["p", ToHex(p)] + held;
    assert row[2..] == held;
    assert (set r | r in held) == roles;
  }

  /** What the rows of `order` leave: the roles of whoever is shown. */
  ghost predicate AssignmentsAre(a: AdminsSoFar, r: AdminsSoFar, order: seq<PublicKey>, members: map<PublicKey, set<string>>) {
    && (forall p :: p in r.assignments <==> p in a.assignments || (p in order && Shown(members, p)))
    && (forall p :: p in r.assignments ==>
          r.assignments[p] == if p in order && Shown(members, p) then members[p] else a.assignments[p])
    && ((forall p :: p in order && p in members ==> OWNER_MARK !in members[p]) ==> r.owner == a.owner)
  }

  lemma AssignmentsGrow(a: AdminsSoFar, b: AdminsSoFar, front: seq<PublicKey>, p: PublicKey, members: map<PublicKey, set<string>>)
    requires p in members && AssignmentsAre(a, b, front, members)
    ensures var r := if members[p] == {} then b
                     else if OWNER_MARK in members[p] then b.(owner := Some(p))
                     else b.(assignments := b.assignments[p := members[p]]);
            AssignmentsAre(a, r, front + [p], members)
  {
    var r := if members[p] == {} then b
             else if OWNER_MARK in members[p] then b.(owner := Some(p))
             else b.(assignments := b.assignments[p := members[p]]);
    var order := front + [p];
    assert forall q :: q in order <==> q in front || q == p;
    if OWNER_MARK in members[p] {
      assert p in order;
    }
  }

  /** Whoever holds a role named `owner` is read as the owner, and as holding nothing. */
  lemma {:induction false} AssignmentsRead(a: AdminsSoFar, order: seq<PublicKey>, held: map<PublicKey, seq<string>>, members: map<PublicKey, set<string>>)
    requires HeldMatches(order, held, members)
    ensures FoldRows(AdminsStep, a, AssignmentRows(order, held)).Some?
    ensures AssignmentsAre(a, FoldRows(AdminsStep, a, AssignmentRows(order, held)).value, order, members)
  {
    hide AdminsStep, ToHex, AssignmentsAre;
    if order == [] {
      assert AssignmentsAre(a, a, [], members) by { NothingGrows(a, members); }
    } else {
      var last := |order| - 1;
      var front, p := order[..last], order[last];
      assert order == front + [p];
      AssignmentsRead(a, front, held, members);
      var b := FoldRows(AdminsStep, a, AssignmentRows(front, held)).value;
      AssignmentsGrow(a, b, front, p, members);
      if held[p] != [] {
        assert held[p][0] in members[p];
        AssignmentStep(b, p, held[p], members[p]);
        FoldRowsConcat(AdminsStep, a, AssignmentRows(front, held), [["p", ToHex(p)] + held[p]]);
        FoldOneRow(AdminsStep, b, ["p", ToHex(p)] + held[p]);
      } else {
        assert members[p] == {};
        assert AssignmentRows(order, held) == AssignmentRows(front, held);
      }
    }
  }

  lemma NothingGrows(a: AdminsSoFar, members: map<PublicKey, set<string>>)
    ensures AssignmentsAre(a, a, [], members)
  {
  }

  lemma AdminsBaseIsIdle(a: AdminsSoFar, g: PublicKey, seqNo: nat)
    ensures FoldRows(AdminsStep, a, BaseRows(g, seqNo)) == Some(a)
  {
    hide ToHex, Decimal, FoldRows;
    FoldTwoRows(AdminsStep, a, ["d", ToHex(g)], ["seq", Decimal(seqNo)]);
  }

  lemma OwnerRead(a: AdminsSoFar, owner: Option<PublicKey>)
    requires a.owner == None
    ensures FoldRows(AdminsStep, a, OwnerRows(owner)) == Some(a.(owner := owner))
  {
    hide ToHex, FromHex;
    if owner.Some? {
      HexRoundTrip(owner.value);
      var row := ["p", ToHex(owner.value), OWNER_MARK];
      assert row[2..] == [OWNER_MARK];
      FoldOneRow(AdminsStep, a, row);
    }
  }

  ghost predicate NobodyHoldsTheMark(s: Snapshot) {
    forall p :: p in s.members ==> OWNER_MARK !in s.members[p]
  }

  /** The admins' event reads back exactly when nobody holds a role named like the owner's mark. */
  lemma {:induction false} AdminsReadBack(s: Snapshot, g: PublicKey, l: Listing)
    requires ListsSnapshot(l, s)
    ensures var rows := BaseRows(g, s.seqNo) + (OwnerRows(s.owner) + AssignmentRows(l.members, l.held));
            ParsePiece(GROUP_ADMINS, rows) == Some(C.AdminsOf(s)) <==> NobodyHoldsTheMark(s)
  {
    hide FoldRows, AdminsStep, ToHex, BaseRows, OwnerRows, AssignmentRows, C.Lists;
    var a0 := AdminsSoFar(None, map[]);
    AdminsBaseIsIdle(a0, g, s.seqNo);
    OwnerRead(a0, s.owner);
    var a1 := a0.(owner := s.owner);
    ListedAreMembers(l, s);
    AssignmentsRead(a1, l.members, l.held, s.members);
    FoldRowsConcat(AdminsStep, a0, OwnerRows(s.owner), AssignmentRows(l.members, l.held));
    FoldRowsConcat(AdminsStep, a0, BaseRows(g, s.seqNo), OwnerRows(s.owner) + AssignmentRows(l.members, l.held));
    var r := FoldRows(AdminsStep, a1, AssignmentRows(l.members, l.held)).value;
    var all := map p | p in s.members && s.members[p] != {} :: s.members[p];
    if NobodyHoldsTheMark(s) {
      assert r.assignments == all == C.AdminsOf(s).assignments;
    } else {
      var p :| p in s.members && OWNER_MARK in s.members[p];
      assert p in C.AdminsOf(s).assignments && p !in r.assignments;
    }
  }

  lemma ListedAreMembers(l: Listing, s: Snapshot)
    requires ListsSnapshot(l, s)
    ensures HeldMatches(l.members, l.held, s.members)
    ensures forall p :: p in l.members <==> p in s.members
    ensures forall p :: p in l.mutes <==> p in s.mutes
  {
  }

  // ---- reading what was written: members and roles ------------------------------------------------------

  lemma KeyStep(a: MembersSoFar, p: PublicKey)
    ensures MembersStep(a, ["p", ToHex(p)]) == Some(a.(members := a.members + {p}))
    ensures MembersStep(a, ["ban", ToHex(p)]) == Some(a.(bans := a.bans + {p}))
  {
    hide ToHex, FromHex;
    HexRoundTrip(p);
  }

  function SetOf(order: seq<PublicKey>): set<PublicKey> {
    set p | p in order
  }

  lemma {:induction false} KeysRead(a: MembersSoFar, order: seq<PublicKey>)
    ensures FoldRows(MembersStep, a, KeyRows("p", order)) == Some(a.(members := a.members + SetOf(order)))
    ensures FoldRows(MembersStep, a, KeyRows("ban", order)) == Some(a.(bans := a.bans + SetOf(order)))
  {
    hide MembersStep, ToHex;
    if order == [] {
      assert a.members + SetOf(order) == a.members && a.bans + SetOf(order) == a.bans;
    } else {
      var last := |order| - 1;
      var front, p := order[..last], order[last];
      assert order == front + [p];
      KeysRead(a, front);
      assert KeyRows("p", order)[..last] == KeyRows("p", front) && KeyRows("ban", order)[..last] == KeyRows("ban", front);
      KeyStep(a.(members := a.members + SetOf(front)), p);
      KeyStep(a.(bans := a.bans + SetOf(front)), p);
      assert a.members + SetOf(front) + {p} == a.members + SetOf(order);
      assert a.bans + SetOf(front) + {p} == a.bans + SetOf(order);
    }
  }

  lemma MuteStep(a: MembersSoFar, p: PublicKey, until: Timestamp)
    requires until < U64_LIMIT
    ensures MembersStep(a, ["mute", ToHex(p), Decimal(until)]) == Some(a.(mutes := a.mutes[p := until]))
  {
    hide ToHex, FromHex, Decimal, ParseUnsigned;
    HexRoundTrip(p);
    UnsignedRoundTrip(until, U64_LIMIT);
  }

  function MutesOf(order: seq<PublicKey>, mutes: map<PublicKey, Timestamp>): map<PublicKey, Timestamp> {
    map p | p in order && p in mutes :: mutes[p]
  }

  lemma {:induction false} MutesRead(a: MembersSoFar, order: seq<PublicKey>, mutes: map<PublicKey, Timestamp>)
    requires a.mutes == map[] && forall p :: p in order ==> p in mutes && mutes[p] < U64_LIMIT
    ensures FoldRows(MembersStep, a, MuteRows(order, mutes)) == Some(a.(mutes := MutesOf(order, mutes)))
  {
    hide MembersStep, ToHex, Decimal;
    if order == [] {
      assert MutesOf(order, mutes) == map[];
    } else {
      var last := |order| - 1;
      var front, p := order[..last], order[last];
      assert order == front + [p];
      MutesRead(a, front, mutes);
      assert MuteRows(order, mutes)[..last] == MuteRows(front, mutes);
      MuteStep(a.(mutes := MutesOf(front, mutes)), p, mutes[p]);
      assert MutesOf(front, mutes)[p := mutes[p]] == MutesOf(order, mutes);
    }
  }

  lemma MembersBaseIsIdle(a: MembersSoFar, g: PublicKey, seqNo: nat)
    ensures FoldRows(MembersStep, a, BaseRows(g, seqNo)) == Some(a)
  {
    hide ToHex, Decimal, FoldRows;
    FoldTwoRows(MembersStep, a, ["d", ToHex(g)], ["seq", Decimal(seqNo)]);
  }

  ghost predicate TimesFit(s: Snapshot) {
    s.seqNo < U64_LIMIT && forall p :: p in s.mutes ==> s.mutes[p] < U64_LIMIT
  }

  lemma {:induction false} MembersReadBack(s: Snapshot, g: PublicKey, l: Listing)
    requires ListsSnapshot(l, s) && TimesFit(s)
    ensures ParsePiece(GROUP_MEMBERS, BaseRows(g, s.seqNo) + MemberRows(s, l)) == Some(C.MembersOf(s))
  {
    hide FoldRows, MembersStep, ToHex, BaseRows, KeyRows, MuteRows;
    var a0 := MembersSoFar({}, {}, map[]);
    MembersBaseIsIdle(a0, g, s.seqNo);
    KeysRead(a0, l.members);
    var a1 := a0.(members := a0.members + SetOf(l.members));
    KeysRead(a1, l.bans);
    var a2 := a1.(bans := a1.bans + SetOf(l.bans));
    MutesRead(a2, l.mutes, s.mutes);
    var base, p, b, m := BaseRows(g, s.seqNo), KeyRows("p", l.members), KeyRows("ban", l.bans), MuteRows(l.mutes, s.mutes);
    FoldRowsConcat(MembersStep, a0, base, p);
    FoldRowsConcat(MembersStep, a0, base + p, b);
    FoldRowsConcat(MembersStep, a0, base + p + b, m);
    assert base + MemberRows(s, l) == base + p + b + m;
    assert {} + SetOf(l.members) == s.members.Keys && {} + SetOf(l.bans) == s.bans;
    assert SetOf(l.members) == s.members.Keys && SetOf(l.bans) == s.bans && MutesOf(l.mutes, s.mutes) == s.mutes;
  }

  lemma RoleStep(a: seq<RoleDef>, r: RoleDef)
    ensures RolesStep(a, RoleRow(r)) == Some(a + [r])
  {
    hide ParseRole, BitsText, DecimalInt;
    RoleRoundTrip(r);
  }

  lemma {:induction false} RolesRead(a: seq<RoleDef>, roles: seq<RoleDef>)
    ensures FoldRows(RolesStep, a, RoleRows(roles)) == Some(a + roles)
  {
    hide RolesStep, RoleRow;
    if roles == [] {
      assert a + roles == a;
    } else {
      var last := |roles| - 1;
      RolesRead(a, roles[..last]);
      assert RoleRows(roles)[..last] == RoleRows(roles[..last]);
      RoleStep(a + roles[..last], roles[last]);
      assert a + roles[..last] + [roles[last]] == a + roles;
    }
  }

  lemma {:induction false} RolesReadBack(s: Snapshot, g: PublicKey)
    ensures ParsePiece(GROUP_ROLES, BaseRows(g, s.seqNo) + RoleRows(s.roles)) == Some(C.RolesOf(s))
  {
    hide FoldRows, RoleRows;
    RolesBaseIsIdle(g, s.seqNo);
    RolesRead([], s.roles);
    FoldRowsConcat(RolesStep, [], BaseRows(g, s.seqNo), RoleRows(s.roles));
    assert [] + s.roles == s.roles;
  }

  lemma RolesBaseIsIdle(g: PublicKey, seqNo: nat)
    ensures FoldRows(RolesStep, [], BaseRows(g, seqNo)) == Some([])
  {
    hide ToHex, Decimal, FoldRows;
    FoldTwoRows(RolesStep, [], ["d", ToHex(g)], ["seq", Decimal(seqNo)]);
  }

  // ---- the whole snapshot ---------------------------------------------------------------------------------

  lemma HeadReads(g: PublicKey, seqNo: nat, at: Timestamp, kind: nat, behind: seq<Row>)
    requires seqNo < U64_LIMIT && GROUP_METADATA <= kind <= GROUP_ROLES
    ensures var rows := BaseRows(g, seqNo) + behind;
            ParseState(RawEvent(kind, g, at, rows)) ==
            if ParsePiece(kind, rows).None? then None else Some(Parsed(g, seqNo, ParsePiece(kind, rows).value))
  {
    hide ToHex, FromHex, Decimal, ParseUnsigned, ParsePiece;
    HexRoundTrip(g);
    UnsignedRoundTrip(seqNo, U64_LIMIT);
    var rows := BaseRows(g, seqNo) + behind;
    assert rows[0] == ["d", ToHex(g)] && rows[1] == ["seq", Decimal(seqNo)];
    assert rows[1..][0] == rows[1];
    assert FirstValue(rows, "d") == Some(ToHex(g));
    assert FirstValue(rows, "seq") == FirstValue(rows[1..], "seq") == Some(Decimal(seqNo));
  }

  /** The snapshot four pieces of one number say. */
  function Reassembled(seqNo: nat, meta: StatePiece, admins: StatePiece, members: StatePiece, roles: StatePiece): Snapshot
    requires meta.Metadata? && admins.Admins? && members.Members? && roles.Roles?
  {
    Snapshot(seqNo, meta.name, meta.public, meta.newcomerWait, meta.about, meta.channels, meta.overrides, roles.roles,
             admins.owner,
             map p | p in members.members :: if p in admins.assignments then admins.assignments[p] else {},
             members.bans, members.mutes)
  }

  lemma PiecesReassemble(s: Snapshot)
    ensures Reassembled(s.seqNo, C.MetadataOf(s), C.AdminsOf(s), C.MembersOf(s), C.RolesOf(s)) == s
  {
    var again := Reassembled(s.seqNo, C.MetadataOf(s), C.AdminsOf(s), C.MembersOf(s), C.RolesOf(s));
    assert again.members == s.members;
  }

  /**
    In whatever order the maps are walked, the four signed events always parse to the snapshot's
    four pieces, and those to the snapshot - but for the admins', which do exactly when nobody
    holds a role named `owner`.
   */
  lemma {:induction false} SnapshotRoundTrip(s: Snapshot, g: PublicKey, at: Timestamp, l: Listing)
    requires ListsSnapshot(l, s) && TimesFit(s)
    ensures (forall p :: p in l.members ==> p in l.held) && forall p :: p in l.mutes ==> p in s.mutes
    ensures var e := Signed(s, g, at, l);
            && ParseState(e[0]) == Some(Parsed(g, s.seqNo, C.MetadataOf(s)))
            && (ParseState(e[1]) == Some(Parsed(g, s.seqNo, C.AdminsOf(s))) <==> NobodyHoldsTheMark(s))
            && ParseState(e[2]) == Some(Parsed(g, s.seqNo, C.MembersOf(s)))
            && ParseState(e[3]) == Some(Parsed(g, s.seqNo, C.RolesOf(s)))
    ensures Reassembled(s.seqNo, C.MetadataOf(s), C.AdminsOf(s), C.MembersOf(s), C.RolesOf(s)) == s
  {
    hide ParseState, ParsePiece, BaseRows, MetadataRows, OwnerRows, AssignmentRows, MemberRows, RoleRows, C.Lists;
    ListedAreMembers(l, s);
    MetadataReadsBack(s, g);
    AdminsReadBack(s, g, l);
    MembersReadBack(s, g, l);
    RolesReadBack(s, g);
    HeadReads(g, s.seqNo, at, GROUP_METADATA, MetadataRows(s));
    HeadReads(g, s.seqNo, at, GROUP_ADMINS, OwnerRows(s.owner) + AssignmentRows(l.members, l.held));
    HeadReads(g, s.seqNo, at, GROUP_MEMBERS, MemberRows(s, l));
    HeadReads(g, s.seqNo, at, GROUP_ROLES, RoleRows(s.roles));
    PiecesReassemble(s);
  }

  /** The snapshot of a state the fold can reach always comes back whole. */
  lemma ReachedStateRoundTrip(state: GroupState, order: seq<string>, g: PublicKey, at: Timestamp, l: Listing)
    requires ShapeInv(state.core) && C.Lists(order, state.core.roles.Keys)
    requires ListsSnapshot(l, C.SnapshotOf(state, order))
    requires forall p :: p in state.core.mutes ==> state.core.mutes[p] < U64_LIMIT
    ensures (forall p :: p in l.members ==> p in l.held) && forall p :: p in l.mutes ==> p in state.core.mutes
    ensures var s, e := C.SnapshotOf(state, order), Signed(C.SnapshotOf(state, order), g, at, l);
            && ParseState(e[0]) == Some(Parsed(g, s.seqNo, C.MetadataOf(s)))
            && ParseState(e[1]) == Some(Parsed(g, s.seqNo, C.AdminsOf(s)))
            && ParseState(e[2]) == Some(Parsed(g, s.seqNo, C.MembersOf(s)))
            && ParseState(e[3]) == Some(Parsed(g, s.seqNo, C.RolesOf(s)))
  {
    hide ParseState, Signed, ListsSnapshot;
    SnapshotRoundTrip(C.SnapshotOf(state, order), g, at, l);
  }
}
