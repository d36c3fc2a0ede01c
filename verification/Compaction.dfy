/**
  Compaction preserves meaning: a snapshot of a state, signed and dated after everything it
  folds, changes nothing that any later action can see.
 */
module Compaction {
  import opened Prelude
  import opened Perm
  import opened Group
  import opened State
  import opened Fold
  import opened Refused
  import opened Runs
  import opened Invariants

  // ---- the snapshot of a state -------------------------------------------------

  /** `order` names each of `keys` once. */
  ghost predicate Lists<T(!new)>(order: seq<T>, keys: set<T>) {
    && (forall k :: k in order <==> k in keys)
    && (forall i, j :: 0 <= i < j < |order| ==> order[i] != order[j])
  }

  function RolesIn(roles: map<string, RoleDef>, order: seq<string>): seq<RoleDef>
    requires forall r :: r in order ==> r in roles
  {
    if order == [] then []
    else RolesIn(roles, order[..|order| - 1]) + [roles[order[|order| - 1]]]
  }

  /** `to_snapshot`, its role list in `order`; the counter is a u64. */
  function SnapshotOf(s: GroupState, order: seq<string>): Snapshot
    requires forall r :: r in order ==> r in s.core.roles
  {
    var c := s.core;
    Snapshot((s.seqNo + 1) % U64_LIMIT, c.name, c.public, c.newcomerWait, c.about, c.channels, c.overrides,
             RolesIn(c.roles, order), c.owner, c.members, c.bans, c.mutes)
  }

  function MetadataOf(n: Snapshot): StatePiece {
    Metadata(n.name, n.public, n.newcomerWait, n.about, n.channels, n.overrides)
  }

  function AdminsOf(n: Snapshot): StatePiece {
    Admins(n.owner, map p | p in n.members && n.members[p] != {} :: n.members[p])
  }

  function MembersOf(n: Snapshot): StatePiece {
    Members(n.members.Keys, n.bans, n.mutes)
  }

  function RolesOf(n: Snapshot): StatePiece {
    Roles(n.roles)
  }

  predicate SignedPiece(e: Event, group: PublicKey, at: Timestamp, seqNo: nat, piece: StatePiece) {
    e.group == Some(group) && e.author == group && e.at == at && e.body == StateBody(seqNo, piece)
  }

  /** The four events the group key signs for a snapshot. */
  predicate SignedSnapshot(signed: seq<Event>, group: PublicKey, n: Snapshot, at: Timestamp) {
    && |signed| == 4
    && SignedPiece(signed[0], group, at, n.seqNo, MetadataOf(n))
    && SignedPiece(signed[1], group, at, n.seqNo, AdminsOf(n))
    && SignedPiece(signed[2], group, at, n.seqNo, MembersOf(n))
    && SignedPiece(signed[3], group, at, n.seqNo, RolesOf(n))
  }

  // ---- the snapshot gives the core back ----------------------------------------

  lemma {:induction false} RoleTableOfList(roles: map<string, RoleDef>, order: seq<string>)
    requires TableInv(roles) && (forall r :: r in order ==> r in roles)
    ensures RoleTable(RolesIn(roles, order)) == map r | r in order :: roles[r]
  {
    hide Sanitized;
    if order != [] {
      var last := |order| - 1;
      RoleTableOfList(roles, order[..last]);
      var list := RolesIn(roles, order[..last]);
      var r := roles[order[last]];
      assert (list + [r])[..|list|] == list;
      assert order == order[..last] + [order[last]];
      assert r.(perms := Sanitized(r.perms)) == r;
    }
  }

  lemma HeldAreKnown(roles: map<string, RoleDef>, held: set<string>)
    ensures held <= roles.Keys - {DEFAULT_ROLE} ==> KnownRoles(roles, held) == held
  {
  }

  lemma MembersSurvive(c: Core)
    requires ShapeInv(c)
    ensures InitialMembers(c.owner, c.members.Keys, map p | p in c.members && c.members[p] != {} :: c.members[p], c.roles) == c.members
  {
    hide TableInv, KnownRoles;
    var assignments := map p | p in c.members && c.members[p] != {} :: c.members[p];
    var plain := map p | p in c.members.Keys :: if p in assignments then KnownRoles(c.roles, assignments[p]) else {};
    forall p | p in c.members ensures plain[p] == c.members[p] {
      HeldAreKnown(c.roles, c.members[p]);
    }
    assert plain == c.members;
    if c.owner.Some? {
      assert c.members[c.owner.value := {}] == c.members;
    }
  }

  lemma CoreSurvives(s: GroupState, order: seq<string>, group: PublicKey, at: Timestamp, signed: seq<Event>, creators: set<PublicKey>)
    requires ShapeInv(s.core) && Lists(order, s.core.roles.Keys)
    requires SignedSnapshot(signed, group, SnapshotOf(s, order), at)
    requires s.core.owner.Some? ==> s.core.owner.value in creators
    ensures InitialCore(Pieces(signed[0], signed[1], signed[2], signed[3]), creators) == s.core
  {
    hide Sanitized;
    RoleTableOfList(s.core.roles, order);
    assert (map r | r in order :: s.core.roles[r]) == s.core.roles;
    MembersSurvive(s.core);
  }

  // ---- the signed pieces win -----------------------------------------------------

  lemma {:induction false} NewestSeqBound(group: PublicKey, kind: StateKind, events: seq<Event>, e: Event)
    requires e in events && IsPiece(group, kind, e)
    ensures Newest(group, kind, events).Some? && Newest(group, kind, events).value.body.StateBody?
    ensures Newest(group, kind, events).value.body.seqNo >= e.body.seqNo
  {
    NewestIsPiece(group, kind, events);
    var last := |events| - 1;
    NewestIsPiece(group, kind, events[..last]);
    if e in events[..last] {
      NewestSeqBound(group, kind, events[..last], e);
    } else {
      assert events == events[..last] + [events[last]];
    }
  }

  lemma {:induction false} NewestConcat(group: PublicKey, kind: StateKind, a: seq<Event>, b: seq<Event>, top: Event)
    requires top in b && IsPiece(group, kind, top)
    requires forall e :: e in b && IsPiece(group, kind, e) ==> e == top
    requires forall e :: e in a && IsPiece(group, kind, e) ==> e.body.seqNo < top.body.seqNo
    ensures Newest(group, kind, a + b) == Some(top)
  {
    var last := |b| - 1;
    assert (a + b)[..|a + b| - 1] == a + b[..last];
    assert b == b[..last] + [b[last]];
    if top in b[..last] {
      NewestConcat(group, kind, a, b[..last], top);
    } else {
      NewestOfQuietTail(group, kind, a, b[..last]);
      NewestIsPiece(group, kind, a);
    }
  }

  lemma {:induction false} NewestOfQuietTail(group: PublicKey, kind: StateKind, a: seq<Event>, b: seq<Event>)
    requires forall e :: e in b ==> !IsPiece(group, kind, e)
    ensures Newest(group, kind, a + b) == Newest(group, kind, a)
  {
    if b == [] {
      assert a + b == a;
    } else {
      var last := |b| - 1;
      assert (a + b)[..|a + b| - 1] == a + b[..last];
      NewestOfQuietTail(group, kind, a, b[..last]);
    }
  }

  ghost predicate AllActions(group: PublicKey, events: seq<Event>) {
    forall e :: e in events ==> IsAction(group, e)
  }

  lemma SnapshotWins(group: PublicKey, base: seq<Event>, signed: seq<Event>, later: seq<Event>, n: Snapshot, at: Timestamp)
    requires SignedSnapshot(signed, group, n, at) && AllActions(group, later)
    requires forall e, kind :: e in base && IsPiece(group, kind, e) ==> e.body.seqNo < n.seqNo
    ensures PiecesOf(group, base + signed + later) == Some(Pieces(signed[0], signed[1], signed[2], signed[3]))
  {
    NewestConcat(group, MetadataKind, base, signed, signed[0]);
    NewestConcat(group, AdminsKind, base, signed, signed[1]);
    NewestConcat(group, MembersKind, base, signed, signed[2]);
    NewestConcat(group, RolesKind, base, signed, signed[3]);
    NewestOfQuietTail(group, MetadataKind, base + signed, later);
    NewestOfQuietTail(group, AdminsKind, base + signed, later);
    NewestOfQuietTail(group, MembersKind, base + signed, later);
    NewestOfQuietTail(group, RolesKind, base + signed, later);
  }

  // ---- earlier actions stay earlier -----------------------------------------------

  lemma {:induction false} ActionsConcat(group: PublicKey, a: seq<Event>, b: seq<Event>)
    ensures Actions(group, a + b) == Actions(group, a) + Actions(group, b)
  {
    if b == [] {
      assert a + b == a;
    } else {
      var last := |b| - 1;
      assert (a + b)[..|a + b| - 1] == a + b[..last];
      ActionsConcat(group, a, b[..last]);
    }
  }

  lemma {:induction false} NoActions(group: PublicKey, events: seq<Event>)
    requires forall e :: e in events ==> !IsAction(group, e)
    ensures Actions(group, events) == []
  {
    if events != [] {
      NoActions(group, events[..|events| - 1]);
    }
  }

  ghost predicate Precede(a: seq<Event>, b: seq<Event>) {
    forall x, y :: x in a && y in b ==> x.at < y.at
  }

  lemma {:induction false} InsertAbove(low: seq<Event>, high: seq<Event>, e: Event)
    requires forall x :: x in low ==> x.at < e.at
    ensures InsertSorted(low + high, e) == low + InsertSorted(high, e)
  {
    if high == [] {
      assert low + high == low;
    } else {
      var last := |high| - 1;
      assert (low + high)[..|low + high| - 1] == low + high[..last];
      InsertAbove(low, high[..last], e);
    }
  }

  lemma {:induction false} SortConcat(a: seq<Event>, b: seq<Event>)
    requires Precede(a, b)
    ensures Sort(a + b) == Sort(a) + Sort(b)
  {
    if b == [] {
      assert a + b == a;
    } else {
      var last := |b| - 1;
      assert (a + b)[..|a + b| - 1] == a + b[..last];
      AllAbove(a, b, []);
      SortConcat(a, b[..last]);
      SortMembers(a);
      hide Precede, InsertSorted;
      AllAbove(a, b, Sort(a));
      InsertAbove(Sort(a), Sort(b[..last]), b[last]);
    }
  }

  lemma SortMembers(a: seq<Event>)
    ensures forall x :: x in Sort(a) <==> x in a
  {
    SortSorts(a);
    assert forall x :: x in Sort(a) <==> x in multiset(Sort(a));
    assert forall x :: x in a <==> x in multiset(a);
  }

  lemma AllAbove(a: seq<Event>, b: seq<Event>, sorted: seq<Event>)
    requires Precede(a, b) && b != [] && forall x :: x in sorted ==> x in a
    ensures forall x :: x in sorted ==> x.at < b[|b| - 1].at
    ensures Precede(a, b[..|b| - 1])
  {
  }

  lemma {:induction false} LiveConcat(cutoff: Timestamp, a: seq<Event>, b: seq<Event>)
    ensures Live(cutoff, a + b) == Live(cutoff, a) + Live(cutoff, b)
  {
    if b == [] {
      assert a + b == a;
    } else {
      var last := |b| - 1;
      assert (a + b)[..|a + b| - 1] == a + b[..last];
      LiveConcat(cutoff, a, b[..last]);
    }
  }

  lemma {:induction false} LiveFrom(cutoff: Timestamp, lower: Timestamp, actions: seq<Event>)
    requires lower <= cutoff && forall e :: e in actions ==> e.at >= cutoff
    ensures Live(cutoff, actions) == Live(lower, actions)
  {
    if actions != [] {
      LiveFrom(cutoff, lower, actions[..|actions| - 1]);
    }
  }

  lemma {:induction false} NoneLive(cutoff: Timestamp, actions: seq<Event>)
    requires forall e :: e in actions ==> e.at < cutoff
    ensures Live(cutoff, actions) == []
  {
    if actions != [] {
      NoneLive(cutoff, actions[..|actions| - 1]);
    }
  }

  lemma {:induction false} RunConcat(s: GroupState, a: seq<Event>, b: seq<Event>)
    requires InTime(a) && Precede(a, b)
    ensures RunAll(s, a + b) == RunAll(RunAll(s, a), b)
    decreases |a|
  {
    hide Second;
    if a == [] {
      assert a + b == b;
    } else {
      var n := SecondLength(a);
      var head, tail := a[..n], a[n..];
      assert a + b == head + (tail + b);
      RunSplitsSecond(s, head, tail + b);
      RunConcat(Second(s, head).state, tail, b);
    }
  }

  // ---- later invites change nothing earlier ----------------------------------------

  ghost predicate Offered(invites: Invites, code: string, i: InviteEntry) {
    code in invites && i in invites[code]
  }

  ghost predicate SameBefore(a: Invites, b: Invites, t: Timestamp) {
    forall code, i: InviteEntry :: i.at < t ==> (Offered(a, code, i) <==> Offered(b, code, i))
  }

  ghost predicate OffersAs(e: Event, code: string, i: InviteEntry) {
    && IsInvite(e) && ActionOf(e).Some? && ActionOf(e).value.Invite?
    && ActionOf(e).value.code == code && i == InviteEntry(e.author, e.at, ActionOf(e).value.expires)
  }

  lemma {:induction false} InvitesAre(actions: seq<Event>, code: string, i: InviteEntry)
    ensures Offered(InvitesOf(actions), code, i) <==> exists e :: e in actions && OffersAs(e, code, i)
  {
    if actions != [] {
      var last := |actions| - 1;
      InvitesAre(actions[..last], code, i);
      assert actions == actions[..last] + [actions[last]];
      var rest := InvitesOf(actions[..last]);
      var e := actions[last];
      if OffersAs(e, code, i) {
        assert i in InvitesOf(actions)[code];
      }
      if exists x :: x in actions && OffersAs(x, code, i) {
        var x :| x in actions && OffersAs(x, code, i);
        assert x in actions[..last] || x == e;
      }
      if exists x :: x in actions[..last] && OffersAs(x, code, i) {
        var x :| x in actions[..last] && OffersAs(x, code, i);
        assert x in actions;
      }
    }
  }

  lemma LaterInvites(a: seq<Event>, b: seq<Event>, t: Timestamp)
    requires forall e :: e in b ==> e.at >= t
    ensures SameBefore(InvitesOf(a), InvitesOf(a + b), t)
  {
    hide InvitesOf;
    forall code, i: InviteEntry | i.at < t
      ensures Offered(InvitesOf(a), code, i) <==> Offered(InvitesOf(a + b), code, i)
    {
      InvitesAre(a, code, i);
      InvitesAre(a + b, code, i);
      if exists e :: e in a + b && OffersAs(e, code, i) {
        var e :| e in a + b && OffersAs(e, code, i);
        assert e in a;
      }
      if exists e :: e in a && OffersAs(e, code, i) {
        var e :| e in a && OffersAs(e, code, i);
        assert e in a + b;
      }
    }
  }

  lemma {:induction false} JudgeIgnoresLaterInvites(c: Core, a: Invites, b: Invites, ev: Event, t: Timestamp)
    requires SameBefore(a, b, t) && ev.at < t
    ensures Judge(c, a, ev) == Judge(c, b, ev)
  {
    hide Holds;
    if ActionOf(ev).Some? && ActionOf(ev).value.Join? {
      var code := ActionOf(ev).value.joinCode;
      HonouredIgnoresLaterInvites(c, a, b, code, ev.at, t);
      HonouredIgnoresLaterInvites(c, b, a, code, ev.at, t);
      hide Honoured;
    } else {
      hide JudgePut, JudgeRemove, JudgeUnban, JudgeMute, JudgeLeave, EditAll;
    }
  }

  lemma HonouredIgnoresLaterInvites(c: Core, a: Invites, b: Invites, code: Option<string>, at: Timestamp, t: Timestamp)
    requires SameBefore(a, b, t) && at < t
    ensures Honoured(c, a, code, at) ==> Honoured(c, b, code, at)
  {
    hide Holds;
    if code.Some? && Honoured(c, a, code, at) {
      var i :| i in a[code.value] && i.at <= at && (i.expires.None? || at <= i.expires.value) && Holds(c, i.author, CREATE_INVITE);
      assert Offered(a, code.value, i);
      assert Offered(b, code.value, i);
    }
  }

  /** By either list of invites every one of these events is judged the same, whatever the core. */
  ghost predicate SameVerdicts(a: Invites, b: Invites, events: seq<Event>) {
    forall c: Core, e :: e in events ==> Judge(c, a, e) == Judge(c, b, e)
  }

  lemma LaterInvitesSameVerdicts(a: Invites, b: Invites, t: Timestamp, events: seq<Event>)
    requires SameBefore(a, b, t) && forall e :: e in events ==> e.at < t
    ensures SameVerdicts(a, b, events)
  {
    hide Judge, SameBefore;
    forall c: Core, e | e in events ensures Judge(c, a, e) == Judge(c, b, e) {
      JudgeIgnoresLaterInvites(c, a, b, e, t);
    }
  }

  lemma {:induction false} PassIgnoresInvites(s: GroupState, acts: seq<Event>, more: Invites)
    requires SameVerdicts(s.invites, more, acts)
    ensures Pass(s.(invites := more), acts).state == Pass(s, acts).state.(invites := more)
    ensures Pass(s.(invites := more), acts).left == Pass(s, acts).left
    ensures Pass(s, acts).state.invites == s.invites
  {
    hide Judge, NextTrace;
    if acts != [] {
      PassIgnoresInvites(s, acts[..|acts| - 1], more);
    }
  }

  lemma {:induction false} SecondIgnoresInvites(s: GroupState, pending: seq<Event>, more: Invites)
    requires SameVerdicts(s.invites, more, pending)
    ensures Second(s.(invites := more), pending).state == Second(s, pending).state.(invites := more)
    ensures Second(s, pending).state.invites == s.invites
    decreases |pending|
  {
    hide Judge;
    PassIgnoresInvites(s, pending, more);
    PassShrinks(s, pending);
    var p := Pass(s, pending);
    if |p.left| != |pending| && p.left != [] {
      SecondIgnoresInvites(p.state, p.left, more);
    }
  }

  lemma {:induction false} AllIgnoresInvites(s: GroupState, live: seq<Event>, more: Invites)
    requires SameVerdicts(s.invites, more, live)
    ensures RunAll(s.(invites := more), live) == RunAll(s, live).(invites := more)
    ensures RunAll(s, live).invites == s.invites
    decreases |live|
  {
    hide Judge, Second;
    if live != [] {
      var n := SecondLength(live);
      SecondIgnoresInvites(s, live[..n], more);
      AllIgnoresInvites(Second(s, live[..n]).state, live[n..], more);
    }
  }

  // ---- verdicts read the core and the invites only -----------------------------------

  ghost predicate SameCore(s: GroupState, t: GroupState) {
    s.core == t.core && s.invites == t.invites
  }

  lemma {:induction false} PassReadsCore(s: GroupState, t: GroupState, pending: seq<Event>)
    requires SameCore(s, t)
    ensures SameCore(Pass(s, pending).state, Pass(t, pending).state)
    ensures Pass(s, pending).left == Pass(t, pending).left
  {
    hide Judge, NextTrace;
    if pending != [] {
      PassReadsCore(s, t, pending[..|pending| - 1]);
    }
  }

  lemma {:induction false} SecondReadsCore(s: GroupState, t: GroupState, pending: seq<Event>)
    requires SameCore(s, t)
    ensures SameCore(Second(s, pending).state, Second(t, pending).state)
    decreases |pending|
  {
    hide SameCore;
    PassReadsCore(s, t, pending);
    var p, q := Pass(s, pending), Pass(t, pending);
    if |p.left| != |pending| && p.left != [] {
      SecondReadsCore(p.state, q.state, p.left);
    }
  }

  lemma {:induction false} RunReadsCore(s: GroupState, t: GroupState, live: seq<Event>)
    requires SameCore(s, t)
    ensures SameCore(RunAll(s, live), RunAll(t, live))
    decreases |live|
  {
    hide SameCore, Second;
    if live != [] {
      var n := SecondLength(live);
      SecondReadsCore(s, t, live[..n]);
      RunReadsCore(Second(s, live[..n]).state, Second(t, live[..n]).state, live[n..]);
    }
  }

  // ---- the shape every fold has ---------------------------------------------------------

  lemma {:induction false} RunKeepsShape(s: GroupState, acts: seq<Event>)
    requires ShapeInv(s.core)
    ensures ShapeInv(RunSteps(s, acts).core) && RunSteps(s, acts).core.owner == s.core.owner
    ensures RunSteps(s, acts).seqNo == s.seqNo
  {
    hide ShapeInv, Judge, NextTrace;
    if acts != [] {
      var last := |acts| - 1;
      RunKeepsShape(s, acts[..last]);
      var mid := RunSteps(s, acts[..last]);
      if Judge(mid.core, mid.invites, acts[last]).Ok? {
        JudgeKeepsShape(mid.core, mid.invites, acts[last]);
        OwnerIsFixed(mid.core, mid.invites, acts[last]);
      }
    }
  }

  lemma {:induction false} FoldShape(group: PublicKey, events: seq<Event>)
    requires PiecesOf(group, events).Some?
    ensures ShapeInv(FoldEvents(group, events).value.core)
    ensures FoldEvents(group, events).value.core.owner.Some? ==> FoldEvents(group, events).value.core.owner.value in Creators(group, events)
    ensures FoldEvents(group, events).value.seqNo == SeqOf(PiecesOf(group, events).value)
  {
    var p := PiecesOf(group, events).value;
    var acts := FoldIsRun(group, events);
    InitialShape(p, Creators(group, events));
    RunKeepsShape(Initial(group, p, Creators(group, events), InvitesOf(Sort(Actions(group, events)))), acts);
  }

  lemma {:induction false} PieceBounds(group: PublicKey, events: seq<Event>, t: Timestamp)
    requires PiecesOf(group, events).Some? && forall e :: e in events ==> e.at < t
    ensures forall e, kind :: e in events && IsPiece(group, kind, e) ==> e.body.seqNo <= SeqOf(PiecesOf(group, events).value)
    ensures CutoffOf(PiecesOf(group, events).value) < t
  {
    forall e, kind | e in events && IsPiece(group, kind, e)
      ensures e.body.seqNo <= SeqOf(PiecesOf(group, events).value)
    {
      NewestSeqBound(group, kind, events, e);
    }
    NewestIsPiece(group, MetadataKind, events);
    NewestIsPiece(group, AdminsKind, events);
    NewestIsPiece(group, MembersKind, events);
    NewestIsPiece(group, RolesKind, events);
  }

  // ---- the theorem -------------------------------------------------------------------------

  /** The live actions of `base` and then `later`, with and without the snapshot between. */
  lemma LiveSplits(group: PublicKey, base: seq<Event>, later: seq<Event>, cutoff: Timestamp, at: Timestamp)
    requires cutoff <= at && (forall e :: e in base ==> e.at < at) && AllActions(group, later) && (forall e :: e in later ==> e.at >= at)
    ensures
      var a, b := Sort(Actions(group, base)), Sort(Actions(group, later));
      && Sort(Actions(group, base + later)) == a + b
      && Live(at, a + b) == Live(at, b)
      && Live(cutoff, a + b) == Live(cutoff, a) + Live(at, b)
      && InTime(Live(cutoff, a)) && Precede(Live(cutoff, a), Live(at, b))
      && (forall e :: e in Live(cutoff, a) ==> e.at < at)
      && (forall e :: e in b ==> e.at >= at)
  {
    var a, b := Sort(Actions(group, base)), Sort(Actions(group, later));
    ActionsConcat(group, base, later);
    SortedActions(group, base);
    SortedActions(group, later);
    DropActions(group, base, {});
    DropActions(group, later, {});
    SortConcat(Actions(group, base), Actions(group, later));
    LiveConcat(at, a, b);
    LiveConcat(cutoff, a, b);
    NoneLive(at, a);
    LiveFrom(at, cutoff, b);
    LiveMembers(cutoff, a);
    LiveMembers(at, b);
    LiveInTime(cutoff, a);
  }

  ghost predicate CompactionSetting(group: PublicKey, base: seq<Event>, s: GroupState, order: seq<string>,
                                    signed: seq<Event>, at: Timestamp, later: seq<Event>)
  {
    && FoldEvents(group, base) == Some(s) && s.seqNo + 1 < U64_LIMIT
    && Lists(order, s.core.roles.Keys)
    && SignedSnapshot(signed, group, SnapshotOf(s, order), at)
    && (forall e :: e in base ==> e.at < at)
    && AllActions(group, later) && (forall e :: e in later ==> e.at >= at)
  }

  /** Without the snapshot: the run behind `s`, then `later`. */
  lemma {:induction false} FoldOnward(group: PublicKey, base: seq<Event>, s: GroupState, at: Timestamp, later: seq<Event>)
    requires FoldEvents(group, base) == Some(s) && (forall e :: e in base ==> e.at < at)
    requires AllActions(group, later) && (forall e :: e in later ==> e.at >= at)
    ensures
      var invites := InvitesOf(Sort(Actions(group, base + later)));
      FoldEvents(group, base + later) == Some(RunAll(s.(invites := invites), Live(at, Sort(Actions(group, later)))))
  {
    var p := PiecesOf(group, base).value;
    PieceBounds(group, base, at);
    var cutoff := CutoffOf(p);
    NewestOfQuietTail(group, MetadataKind, base, later);
    NewestOfQuietTail(group, AdminsKind, base, later);
    NewestOfQuietTail(group, MembersKind, base, later);
    NewestOfQuietTail(group, RolesKind, base, later);
    assert PiecesOf(group, base + later) == Some(p);
    var creators := Creators(group, base);
    assert Creators(group, base + later) == creators;
    LiveSplits(group, base, later, cutoff, at);
    var a, b := Sort(Actions(group, base)), Sort(Actions(group, later));
    var invites := InvitesOf(a + b);
    var start := Initial(group, p, creators, InvitesOf(a));
    var starting := Initial(group, p, creators, invites);
    assert starting == start.(invites := invites);
    hide Initial, InvitesOf, RunAll, Sort, Actions, Live, PiecesOf, Creators;
    LaterInvites(a, b, at);
    LaterInvitesSameVerdicts(start.invites, invites, at, Live(cutoff, a));
    AllIgnoresInvites(start, Live(cutoff, a), invites);
    RunConcat(starting, Live(cutoff, a), Live(at, b));
  }

  /** The signed pieces add no action and no creator. */
  lemma SnapshotIsNoAction(group: PublicKey, base: seq<Event>, signed: seq<Event>, later: seq<Event>, n: Snapshot, at: Timestamp)
    requires SignedSnapshot(signed, group, n, at) && AllActions(group, later)
    ensures Actions(group, base + signed + later) == Actions(group, base + later)
    ensures Creators(group, base + signed + later) == Creators(group, base)
  {
    hide Actions;
    ActionsConcat(group, base + signed, later);
    ActionsConcat(group, base, signed);
    NoActions(group, signed);
    ActionsConcat(group, base, later);
    assert Actions(group, base) + [] == Actions(group, base);
  }

  /** With it: `later` alone, from the state the snapshot gives. */
  lemma {:induction false} FoldCompacted(group: PublicKey, base: seq<Event>, s: GroupState, order: seq<string>,
                                         signed: seq<Event>, at: Timestamp, later: seq<Event>)
    requires CompactionSetting(group, base, s, order, signed, at, later)
    ensures
      var pieces := Pieces(signed[0], signed[1], signed[2], signed[3]);
      var invites := InvitesOf(Sort(Actions(group, base + later)));
      var start := Initial(group, pieces, Creators(group, base), invites);
      FoldEvents(group, base + signed + later) == Some(RunAll(start, Live(at, Sort(Actions(group, later)))))
  {
    hide SnapshotOf, ShapeInv, Initial, InvitesOf, RunAll, Sort, Actions, Live, PiecesOf, Creators;
    FoldShape(group, base);
    FoldNeedsPieces(group, base);
    PieceBounds(group, base, at);
    SnapshotSeq(s, order);
    SnapshotIsNoAction(group, base, signed, later, SnapshotOf(s, order), at);
    SnapshotWins(group, base, signed, later, SnapshotOf(s, order), at);
    assert CutoffOf(Pieces(signed[0], signed[1], signed[2], signed[3])) == at;
    LiveSplits(group, base, later, at, at);
  }

  lemma FoldNeedsPieces(group: PublicKey, events: seq<Event>)
    ensures FoldEvents(group, events).Some? <==> PiecesOf(group, events).Some?
  {
  }

  lemma SnapshotSeq(s: GroupState, order: seq<string>)
    ensures ((forall r :: r in order ==> r in s.core.roles) && s.seqNo + 1 < U64_LIMIT) ==>
            SnapshotOf(s, order).seqNo == s.seqNo + 1
  {
  }

  lemma {:induction false} CompactedStart(group: PublicKey, base: seq<Event>, s: GroupState, order: seq<string>,
                                          signed: seq<Event>, at: Timestamp, later: seq<Event>, invites: Invites)
    requires CompactionSetting(group, base, s, order, signed, at, later)
    ensures
      var start := Initial(group, Pieces(signed[0], signed[1], signed[2], signed[3]), Creators(group, base), invites);
      start.core == s.core && start.seqNo == s.seqNo + 1 && start.cutoff == at && start.invites == invites
  {
    hide Initial, InitialCore, Creators, Lists, ShapeInv;
    FoldShape(group, base);
    CoreSurvives(s, order, group, at, signed, Creators(group, base));
    hide FoldEvents;
    InitialFields(group, Pieces(signed[0], signed[1], signed[2], signed[3]), Creators(group, base), invites);
  }

  lemma InitialFields(group: PublicKey, p: Pieces, creators: set<PublicKey>, invites: Invites)
    requires GoodPieces(p)
    ensures
      var s := Initial(group, p, creators, invites);
      s.core == InitialCore(p, creators) && s.seqNo == SeqOf(p) && s.cutoff == CutoffOf(p) && s.invites == invites
  {
    hide InitialCore;
  }

  /**
    Compaction is transparent. `base` folds to `s`; its snapshot, one `seq` up, is signed and
    dated after every event of `base`; `later` holds any actions dated from then on. With or
    without the snapshot the fold reaches the same core: name, about, visibility, wait,
    channels, overrides, roles, members with their roles, bans, mutes and owner, and so the
    same base, effective permissions and rank of everybody.
   */
  lemma {:induction false} CompactionIsTransparent(group: PublicKey, base: seq<Event>, s: GroupState, order: seq<string>,
                                                   signed: seq<Event>, at: Timestamp, later: seq<Event>)
    requires CompactionSetting(group, base, s, order, signed, at, later)
    ensures FoldEvents(group, base + signed + later).Some? && FoldEvents(group, base + later).Some?
    ensures FoldEvents(group, base + signed + later).value.core == FoldEvents(group, base + later).value.core
    ensures FoldEvents(group, base + signed + later).value.seqNo == s.seqNo + 1
    ensures FoldEvents(group, base + signed + later).value.cutoff == at
  {
    FoldOnward(group, base, s, at, later);
    FoldCompacted(group, base, s, order, signed, at, later);
    hide FoldEvents, Initial, RunAll, InvitesOf;
    var pieces := Pieces(signed[0], signed[1], signed[2], signed[3]);
    var invites := InvitesOf(Sort(Actions(group, base + later)));
    var start := Initial(group, pieces, Creators(group, base), invites);
    var live := Live(at, Sort(Actions(group, later)));
    CompactedStart(group, base, s, order, signed, at, later, invites);
    RunReadsCore(start, s.(invites := invites), live);
    RunAllKeepsSeq(start, live);
  }

  lemma {:induction false} RunAllKeepsSeq(s: GroupState, live: seq<Event>)
    ensures RunAll(s, live).seqNo == s.seqNo && RunAll(s, live).cutoff == s.cutoff
    decreases |live|
  {
    hide Second;
    if live != [] {
      var n := SecondLength(live);
      var acts := SecondIsRun(s, live[..n]);
      RunStepsKeepsSeq(s, acts);
      RunAllKeepsSeq(Second(s, live[..n]).state, live[n..]);
    }
  }

  lemma {:induction false} RunStepsKeepsSeq(s: GroupState, acts: seq<Event>)
    ensures RunSteps(s, acts).seqNo == s.seqNo && RunSteps(s, acts).cutoff == s.cutoff
  {
    hide Judge, NextTrace;
    if acts != [] {
      RunStepsKeepsSeq(s, acts[..|acts| - 1]);
    }
  }
}
