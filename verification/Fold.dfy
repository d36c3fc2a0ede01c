/**
  The fold: from the events a peer holds, in whatever order, to a group's state
  (crates/hit-group/src/state.rs, `GroupState::fold`).
 */
module Fold {
  import opened Prelude
  import opened Perm
  import opened Group
  import opened Replace
  import opened State

  // ---- the snapshot ----------------------------------------------------

  datatype StateKind = MetadataKind | AdminsKind | MembersKind | RolesKind

  function KindOf(p: StatePiece): StateKind {
    match p
    case Metadata(_, _, _, _, _, _) => MetadataKind
    case Admins(_, _) => AdminsKind
    case Members(_, _, _) => MembersKind
    case Roles(_) => RolesKind
  }

  predicate OfGroup(group: PublicKey, e: Event) { e.group == Some(group) }

  /** A valid state event of this kind, signed by the group key. */
  predicate IsPiece(group: PublicKey, kind: StateKind, e: Event) {
    OfGroup(group, e) && e.body.StateBody? && e.author == group && KindOf(e.body.piece) == kind
  }

  /** The piece of one kind that replaces all the others seen. */
  function Newest(group: PublicKey, kind: StateKind, events: seq<Event>): Option<Event> {
    if events == [] then None
    else
      var e := events[|events| - 1];
      var best := Newest(group, kind, events[..|events| - 1]);
      if !IsPiece(group, kind, e) then best
      else if best.None? || Replaces(e, best.value) then Some(e)
      else best
  }

  function Creators(group: PublicKey, events: seq<Event>): set<PublicKey> {
    set e | e in events && OfGroup(group, e) && e.body.CreateGroup? :: e.author
  }

  predicate IsAction(group: PublicKey, e: Event) { OfGroup(group, e) && e.body.ActionBody? }

  function Actions(group: PublicKey, events: seq<Event>): seq<Event> {
    if events == [] then []
    else
      var e := events[|events| - 1];
      var rest := Actions(group, events[..|events| - 1]);
      if IsAction(group, e) then rest + [e] else rest
  }

  // ---- the order of actions --------------------------------------------

  predicate Before(a: Event, b: Event) {
    a.at < b.at || (a.at == b.at && a.id <= b.id)
  }

  /** Inserts after every element not above it, so equal keys keep their order. */
  function InsertSorted(sorted: seq<Event>, e: Event): seq<Event> {
    if sorted == [] then [e]
    else
      var last := |sorted| - 1;
      if Before(sorted[last], e) then sorted + [e]
      else InsertSorted(sorted[..last], e) + [sorted[last]]
  }

  /** `sort_by_key(|ev| (ev.created_at, ev.id))`. */
  function Sort(events: seq<Event>): seq<Event> {
    if events == [] then []
    else InsertSorted(Sort(events[..|events| - 1]), events[|events| - 1])
  }

  predicate IsInvite(e: Event) { e.body.ActionBody? && e.body.kind.CreateInvite? }

  /** The invites, each code's in action order. */
  function InvitesOf(actions: seq<Event>): Invites {
    if actions == [] then map[]
    else
      var e := actions[|actions| - 1];
      var rest := InvitesOf(actions[..|actions| - 1]);
      var a := ActionOf(e);
      if IsInvite(e) && a.Some? && a.value.Invite? then
        var entry := InviteEntry(e.author, e.at, a.value.expires);
        rest[a.value.code := (if a.value.code in rest then rest[a.value.code] else []) + [entry]]
      else rest
  }

  predicate IsLive(cutoff: Timestamp, e: Event) { !IsInvite(e) && e.at >= cutoff }

  /** The actions the fold tries: no invites, and nothing before the cutoff. */
  function Live(cutoff: Timestamp, actions: seq<Event>): seq<Event> {
    if actions == [] then []
    else
      var e := actions[|actions| - 1];
      var rest := Live(cutoff, actions[..|actions| - 1]);
      if IsLive(cutoff, e) then rest + [e] else rest
  }

  // ---- the state the snapshot gives -------------------------------------

  /** The roles a snapshot defines: none called `owner`, undefined bits dropped, the last of an id wins. */
  function RoleTable(roles: seq<RoleDef>): map<string, RoleDef> {
    if roles == [] then map[]
    else
      var r := roles[|roles| - 1];
      var rest := RoleTable(roles[..|roles| - 1]);
      if r.id == OWNER_MARK then rest else rest[r.id := r.(perms := Sanitized(r.perms))]
  }

  const DEFAULT_ROLE_DEF := RoleDef(DEFAULT_ROLE, DEFAULT_ROLE, NONE, 0)

  function WithDefaultRole(roles: map<string, RoleDef>): map<string, RoleDef> {
    if DEFAULT_ROLE in roles then roles else roles[DEFAULT_ROLE := DEFAULT_ROLE_DEF]
  }

  function KnownRoles(table: map<string, RoleDef>, roles: set<string>): set<string> {
    set r | r in roles && r != DEFAULT_ROLE && r in table
  }

  function InitialMembers(owner: Option<PublicKey>, members: set<PublicKey>,
                          assignments: map<PublicKey, set<string>>, table: map<string, RoleDef>)
    : map<PublicKey, set<string>>
  {
    var plain := map p | p in members :: if p in assignments then KnownRoles(table, assignments[p]) else {};
    if owner.Some? then plain[owner.value := {}] else plain
  }

  /** The keys of `s` in ascending order, as a `BTreeMap` iterates them. */
  function Ascending(s: set<PublicKey>): (keys: seq<PublicKey>)
    ensures forall p :: p in keys <==> p in s
    ensures forall i, j :: 0 <= i < j < |keys| ==> keys[i] < keys[j]
  {
    if s == {} then []
    else
      var least := Least(s);
      [least] + Ascending(s - {least})
  }

  ghost predicate IsLeast(p: PublicKey, s: set<PublicKey>) {
    p in s && forall q :: q in s ==> p <= q
  }

  function Least(s: set<PublicKey>): (least: PublicKey)
    requires s != {}
    ensures least in s && forall p :: p in s ==> least <= p
  {
    SomethingIsLeast(s);
    assert exists least :: least in s && IsLeast(least, s);
    var least :| least in s && forall p :: p in s ==> least <= p;
    least
  }

  lemma SomethingIsLeast(s: set<PublicKey>)
    requires s != {}
    ensures exists least :: IsLeast(least, s)
  {
    var least := LeastExists(s);
  }

  lemma {:induction false} LeastExists(s: set<PublicKey>) returns (least: PublicKey)
    requires s != {}
    ensures IsLeast(least, s)
    decreases |s|
  {
    least :| least in s;
    if s != {least} {
      var q := LeastExists(s - {least});
      assert forall x :: x in s ==> x == least || x in s - {least};
      if q < least {
        least := q;
      }
    }
  }

  /** Silences a fold starts with: one a mute of the snapshot, open from the cutoff on. */
  function InitialSilences(keys: seq<PublicKey>, mutes: map<PublicKey, Timestamp>, cutoff: Timestamp): seq<Silence>
    requires forall p :: p in keys ==> p in mutes
  {
    if keys == [] then []
    else
      var p := keys[|keys| - 1];
      var rest := InitialSilences(keys[..|keys| - 1], mutes, cutoff);
      if mutes[p] > cutoff then rest + [Silence(p, cutoff, Some(mutes[p]), true)] else rest
  }

  function Max(a: nat, b: nat): nat { if a < b then b else a }

  datatype Pieces = Pieces(metadata: Event, admins: Event, members: Event, roles: Event)

  predicate GoodPieces(p: Pieces) {
    && p.metadata.body.StateBody? && p.metadata.body.piece.Metadata?
    && p.admins.body.StateBody? && p.admins.body.piece.Admins?
    && p.members.body.StateBody? && p.members.body.piece.Members?
    && p.roles.body.StateBody? && p.roles.body.piece.Roles?
  }

  function PiecesOf(group: PublicKey, events: seq<Event>): (p: Option<Pieces>)
    ensures p.Some? ==> GoodPieces(p.value)
  {
    var m := Newest(group, MetadataKind, events);
    var a := Newest(group, AdminsKind, events);
    var u := Newest(group, MembersKind, events);
    var r := Newest(group, RolesKind, events);
    NewestIsPiece(group, MetadataKind, events);
    NewestIsPiece(group, AdminsKind, events);
    NewestIsPiece(group, MembersKind, events);
    NewestIsPiece(group, RolesKind, events);
    if m.None? || a.None? || u.None? || r.None? then None
    else Some(Pieces(m.value, a.value, u.value, r.value))
  }

  lemma NewestIsPiece(group: PublicKey, kind: StateKind, events: seq<Event>)
    ensures Newest(group, kind, events).Some? ==>
              Newest(group, kind, events).value in events && IsPiece(group, kind, Newest(group, kind, events).value)
  {
  }

  function CutoffOf(p: Pieces): Timestamp {
    Max(Max(p.metadata.at, p.admins.at), Max(p.members.at, p.roles.at))
  }

  function SeqOf(p: Pieces): nat
    requires GoodPieces(p)
  {
    Max(Max(p.metadata.body.seqNo, p.admins.body.seqNo), Max(p.members.body.seqNo, p.roles.body.seqNo))
  }

  function InitialCore(p: Pieces, creators: set<PublicKey>): Core
    requires GoodPieces(p)
  {
    var meta := p.metadata.body.piece;
    var table := WithDefaultRole(RoleTable(p.roles.body.piece.roles));
    var named := p.admins.body.piece.owner;
    var owner := if named.Some? && named.value in creators then named else None;
    var people := p.members.body.piece;
    Core(owner, meta.name, meta.public, meta.newcomerWait, meta.about, meta.channels, meta.overrides,
         table, InitialMembers(owner, people.members, p.admins.body.piece.assignments, table),
         people.bans, people.mutes)
  }

  function Initial(group: PublicKey, p: Pieces, creators: set<PublicKey>, invites: Invites): GroupState
    requires GoodPieces(p)
  {
    var core := InitialCore(p, creators);
    var cutoff := CutoffOf(p);
    GroupState(group, SeqOf(p), cutoff, p.admins.body.piece.owner, invites, core,
               Trace(map[], {}, InitialSilences(Ascending(core.mutes.Keys), core.mutes, cutoff)))
  }

  /** The state of `group`; `None` until all four pieces are present. */
  ghost function FoldEvents(group: PublicKey, events: seq<Event>): Option<GroupState> {
    var p := PiecesOf(group, events);
    if p.None? then None
    else
      var actions := Sort(Actions(group, events));
      Some(RunAll(Initial(group, p.value, Creators(group, events), InvitesOf(actions)),
                  Live(CutoffOf(p.value), actions)))
  }
}
