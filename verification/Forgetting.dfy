/**
  What may be forgotten once a snapshot is taken, and that a newcomer without it holds the
  same group as those who were there.
 */
module Forgetting {
  import opened Prelude
  import opened Perm
  import opened Group
  import opened EventLists
  import opened Replace
  import opened State
  import opened Fold
  import opened FoldStore
  import opened Refused
  import opened Compaction
  import opened Judge

  /** An invite that can still let someone in at the cutoff or later. */
  predicate StillOffers(e: Event, cutoff: Timestamp) {
    && IsInvite(e) && ActionOf(e).Some? && ActionOf(e).value.Invite?
    && (ActionOf(e).value.expires.None? || ActionOf(e).value.expires.value >= cutoff)
  }

  /** An action of the group with nothing left to do from the cutoff on. */
  predicate Spent(group: PublicKey, e: Event, cutoff: Timestamp) {
    IsAction(group, e) && !IsLive(cutoff, e) && !StillOffers(e, cutoff)
  }

  /** What the gate calls folded is spent. */
  lemma FoldedIsSpent(group: PublicKey, s: GroupState, e: Event, now: Timestamp)
    requires IsAction(group, e) && IsFolded(s, e, now)
    ensures Spent(group, e, s.cutoff)
  {
  }

  // ---- doors that are shut by the cutoff ------------------------------------------------------

  ghost predicate SameDoors(a: Invites, b: Invites, cutoff: Timestamp) {
    forall code, i: InviteEntry :: i.expires.None? || i.expires.value >= cutoff ==> (Offered(a, code, i) <==> Offered(b, code, i))
  }

  lemma HonouredThroughSameDoors(c: Core, a: Invites, b: Invites, code: Option<string>, at: Timestamp, cutoff: Timestamp)
    requires SameDoors(a, b, cutoff) && at >= cutoff
    ensures Honoured(c, a, code, at) ==> Honoured(c, b, code, at)
  {
    hide Holds;
    if code.Some? && Honoured(c, a, code, at) {
      var i :| i in a[code.value] && i.at <= at && (i.expires.None? || at <= i.expires.value) && Holds(c, i.author, CREATE_INVITE);
      assert Offered(a, code.value, i);
      assert Offered(b, code.value, i);
    }
  }

  lemma SameDoorsSameVerdicts(a: Invites, b: Invites, cutoff: Timestamp, events: seq<Event>)
    requires SameDoors(a, b, cutoff) && forall e :: e in events ==> e.at >= cutoff
    ensures SameVerdicts(a, b, events)
  {
    hide State.Judge, SameDoors;
    forall c: Core, e | e in events ensures State.Judge(c, a, e) == State.Judge(c, b, e) {
      JudgeThroughSameDoors(c, a, b, e, cutoff);
    }
  }

  lemma JudgeThroughSameDoors(c: Core, a: Invites, b: Invites, e: Event, cutoff: Timestamp)
    requires SameDoors(a, b, cutoff) && e.at >= cutoff
    ensures State.Judge(c, a, e) == State.Judge(c, b, e)
  {
    hide Holds;
    if ActionOf(e).Some? && ActionOf(e).value.Join? {
      var code := ActionOf(e).value.joinCode;
      HonouredThroughSameDoors(c, a, b, code, e.at, cutoff);
      HonouredThroughSameDoors(c, b, a, code, e.at, cutoff);
      hide Honoured;
    } else {
      hide JudgePut, JudgeRemove, JudgeUnban, JudgeMute, JudgeLeave, EditAll;
    }
  }

  lemma ForgottenDoors(actions: seq<Event>, ids: set<EventId>, cutoff: Timestamp)
    requires forall e :: e in actions && e.id in ids ==> !StillOffers(e, cutoff)
    ensures SameDoors(InvitesOf(actions), InvitesOf(Drop(actions, ids)), cutoff)
  {
    hide InvitesOf;
    DropMembers(actions, ids);
    forall code, i: InviteEntry | i.expires.None? || i.expires.value >= cutoff
      ensures Offered(InvitesOf(actions), code, i) <==> Offered(InvitesOf(Drop(actions, ids)), code, i)
    {
      InvitesAre(actions, code, i);
      InvitesAre(Drop(actions, ids), code, i);
      if e :| e in actions && OffersAs(e, code, i) {
        assert StillOffers(e, cutoff);
        assert e in Drop(actions, ids);
      }
    }
  }

  // ---- forgetting what is spent ----------------------------------------------------------------

  /** Forgetting spent actions leaves the fold as it was, but for the invites it no longer lists. */
  lemma {:induction false} SpentActionsAreForgotten(group: PublicKey, events: seq<Event>, ids: set<EventId>)
    requires FoldEvents(group, events).Some?
    requires forall e :: e in events && e.id in ids ==> Spent(group, e, FoldEvents(group, events).value.cutoff)
    ensures
      var left := InvitesOf(Sort(Actions(group, Drop(events, ids))));
      FoldEvents(group, Drop(events, ids)) == Some(FoldEvents(group, events).value.(invites := left))
  {
    FoldNeedsPieces(group, events);
    var p := PiecesOf(group, events).value;
    var cutoff := CutoffOf(p);
    var actions := Sort(Actions(group, events));
    var start := Initial(group, p, Creators(group, events), InvitesOf(actions));
    var live := Live(cutoff, actions);
    InitialFields(group, p, Creators(group, events), InvitesOf(actions));
    RunAllKeepsSeq(start, live);
    DropKeepsSnapshot(group, events, ids);
    SortedActions(group, events);
    DropActions(group, events, ids);
    DropSort(Actions(group, events), ids);
    DropLive(cutoff, actions, ids);
    LiveMembers(cutoff, actions);
    DropNone(live, ids);
    var left := InvitesOf(Drop(actions, ids));
    ForgottenDoors(actions, ids, cutoff);
    SameDoorsSameVerdicts(InvitesOf(actions), left, cutoff, live);
    AllIgnoresInvites(start, live, left);
    assert Initial(group, p, Creators(group, events), left) == start.(invites := left);
  }

  // ---- a newcomer --------------------------------------------------------------------------------

  /** A compaction leaves no use for `e`: no creation, and no invite still open. */
  predicate MayForget(group: PublicKey, e: Event, at: Timestamp) {
    !(OfGroup(group, e) && e.body.CreateGroup?) && !(IsAction(group, e) && StillOffers(e, at))
  }

  lemma {:induction false} DropTwice(events: seq<Event>, a: set<EventId>, b: set<EventId>)
    ensures Drop(Drop(events, a), b) == Drop(events, a + b)
  {
    if events != [] {
      var last := |events| - 1;
      DropTwice(events[..last], a, b);
      DropSnoc(Drop(events[..last], a), events[last], b);
    }
  }

  /** The pieces and the unread of `base` are idle beside the snapshot. */
  lemma {:induction false} OldPiecesAreIdle(group: PublicKey, base: seq<Event>, s: GroupState, order: seq<string>,
                                            signed: seq<Event>, at: Timestamp, later: seq<Event>, ids: set<EventId>)
    requires CompactionSetting(group, base, s, order, signed, at, later) && DistinctIds(base + signed + later)
    requires forall e :: e in base + signed + later && e.id in ids ==> e in base && !ReadsAlways(group, e)
    ensures Idle(group, base + signed + later, ids)
  {
    hide FoldEvents, SnapshotOf, DistinctIds;
    FoldNeedsPieces(group, base);
    FoldShape(group, base);
    PieceBounds(group, base, at);
    SnapshotSeq(s, order);
    var all := base + signed + later;
    forall e, kind | e in all && e.id in ids && IsPiece(group, kind, e) ensures Superseded(group, kind, all, ids, e) {
      var f := match kind case MetadataKind => signed[0] case AdminsKind => signed[1] case MembersKind => signed[2] case RolesKind => signed[3];
      assert f in signed && IsPiece(group, kind, f) && f in all;
      assert f.at == at && f !in base;
      assert e.body.seqNo <= s.seqNo;
      PieceAboveReplaces(group, kind, f, e);
    }
  }

  lemma PieceAboveReplaces(group: PublicKey, kind: StateKind, f: Event, e: Event)
    requires IsPiece(group, kind, f) && IsPiece(group, kind, e) && f.body.seqNo > e.body.seqNo
    ensures Replaces(f, e)
  {
  }

  /**
    After a compaction anything dated before it may be forgotten but the group's creations and
    the invites still open: whoever holds the rest computes the same core, whatever comes later.
   */
  lemma {:induction false} NewcomersAgree(group: PublicKey, base: seq<Event>, s: GroupState, order: seq<string>,
                                          signed: seq<Event>, at: Timestamp, later: seq<Event>, gone: set<EventId>)
    requires CompactionSetting(group, base, s, order, signed, at, later) && DistinctIds(base + signed + later)
    requires forall e :: e in base + signed + later && e.id in gone ==> e in base && MayForget(group, e, at)
    ensures FoldEvents(group, Drop(base + signed + later, gone)).Some? && FoldEvents(group, base + later).Some?
    ensures FoldEvents(group, Drop(base + signed + later, gone)).value.core == FoldEvents(group, base + later).value.core
  {
    hide FoldEvents, SnapshotOf, DistinctIds;
    CompactionIsTransparent(group, base, s, order, signed, at, later);
    var all := base + signed + later;
    var idle := set e | e in all && e.id in gone && !IsAction(group, e) :: e.id;
    var spent := gone - idle;
    DropTwice(all, idle, spent);
    assert idle + spent == gone;
    forall e | e in all && e.id in idle ensures e in base && !ReadsAlways(group, e) {
      var x :| x in all && x.id in gone && !IsAction(group, x) && x.id == e.id;
      SameEvent(all, x, e);
    }
    OldPiecesAreIdle(group, base, s, order, signed, at, later, idle);
    DropIdle(group, all, idle);
    var kept := Drop(all, idle);
    DropMembers(all, idle);
    forall e | e in kept && e.id in spent ensures Spent(group, e, at) {
      assert e in base;
    }
    SpentActionsAreForgotten(group, kept, spent);
  }

  lemma SameEvent(events: seq<Event>, a: Event, b: Event)
    requires DistinctIds(events) && a in events && b in events && a.id == b.id
    ensures a == b
  {
  }
}
