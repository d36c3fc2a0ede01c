/** Where a fold begins, person by person and role by role, and in what order it goes on. */
module Beginnings {
  import opened Prelude
  import opened Perm
  import opened Group
  import opened Replace
  import opened State
  import opened Fold
  import opened FoldStore
  import opened Refused
  import opened Runs
  import opened Powers
  import opened Rights
  import opened Slots
  import opened Edits
  import Batch
  import Compaction
  import Invariants

  // ---- the pieces --------------------------------------------------------------------------------

  /** A piece of the group's state, the `k`th of its four kinds, signed by the group itself. */
  predicate IsPieceOf(group: PublicKey, k: nat, e: Event) {
    e.group == Some(group) && e.author == group && e.body.StateBody? && PieceNumber(e.body) == k
  }

  /** It wins against every other piece of its kind there is. */
  ghost predicate WinsOver(group: PublicKey, k: nat, events: seq<Event>, e: Event) {
    e in events && IsPieceOf(group, k, e) && forall f :: f in events && f != e && IsPieceOf(group, k, f) ==> Wins(e, f)
  }

  function NumberOf(kind: StateKind): nat {
    match kind
    case MetadataKind => 0
    case AdminsKind => 1
    case MembersKind => 2
    case RolesKind => 3
  }

  lemma PiecesAre(group: PublicKey, kind: StateKind, e: Event)
    ensures IsPiece(group, kind, e) <==> IsPieceOf(group, NumberOf(kind), e)
  {
  }

  lemma {:induction false} WinnerIsNewest(group: PublicKey, kind: StateKind, events: seq<Event>, e: Event)
    requires WinsOver(group, NumberOf(kind), events, e)
    ensures Newest(group, kind, events) == Some(e)
  {
    hide Wins, Replaces;
    PiecesAre(group, kind, e);
    forall f | f in events && IsPiece(group, kind, f) && f != e ensures Replaces(e, f) {
      PiecesAre(group, kind, f);
      WinsExactly(e, f);
    }
    hide IsPiece, IsPieceOf;
    NewestIs(group, kind, events, e);
  }

  lemma {:induction false} NoneWithout(group: PublicKey, kind: StateKind, events: seq<Event>)
    ensures Newest(group, kind, events).Some? <==> exists e :: e in events && IsPieceOf(group, NumberOf(kind), e)
  {
    hide IsPieceOf, IsPiece, Replaces;
    if events != [] {
      var last := |events| - 1;
      NoneWithout(group, kind, events[..last]);
      PiecesAre(group, kind, events[last]);
      assert events == events[..last] + [events[last]];
    }
  }

  /** There is a state exactly when there is a piece of each kind. */
  lemma {:induction false} FoldsExactly(group: PublicKey, events: seq<Event>)
    ensures FoldEvents(group, events).Some? <==>
            && (exists e :: e in events && IsPieceOf(group, 0, e)) && (exists e :: e in events && IsPieceOf(group, 1, e))
            && (exists e :: e in events && IsPieceOf(group, 2, e)) && (exists e :: e in events && IsPieceOf(group, 3, e))
  {
    hide IsPieceOf, Newest, RunAll, Initial, Live, Sort, Actions;
    NoneWithout(group, MetadataKind, events);
    NoneWithout(group, AdminsKind, events);
    NoneWithout(group, MembersKind, events);
    NoneWithout(group, RolesKind, events);
  }

  /** The four winning pieces. */
  ghost predicate Winners(group: PublicKey, events: seq<Event>, p: Pieces) {
    && WinsOver(group, 0, events, p.metadata) && WinsOver(group, 1, events, p.admins)
    && WinsOver(group, 2, events, p.members) && WinsOver(group, 3, events, p.roles)
  }

  // ---- the roles ---------------------------------------------------------------------------------

  /** The last definition of that id in the list. */
  ghost predicate DefinesLast(roles: seq<RoleDef>, id: string, r: RoleDef) {
    exists i :: 0 <= i < |roles| && roles[i] == r && r.id == id && forall j :: i < j < |roles| ==> roles[j].id != id
  }

  lemma {:induction false} RoleTableExactly(roles: seq<RoleDef>, id: string, r: RoleDef)
    requires DefinesLast(roles, id, r) && id != "owner"
    ensures id in RoleTable(roles) && RoleTable(roles)[id] == r.(perms := Sanitized(r.perms))
  {
    var last := |roles| - 1;
    if roles[last].id != id {
      var i :| 0 <= i < |roles| && roles[i] == r && forall j :: i < j < |roles| ==> roles[j].id != id;
      assert roles[..last][i] == r;
      RoleTableExactly(roles[..last], id, r);
    }
  }

  lemma {:induction false} RoleTableOnly(roles: seq<RoleDef>, id: string)
    ensures id in RoleTable(roles) <==> id != "owner" && exists r :: r in roles && r.id == id
  {
    if roles != [] {
      var last := |roles| - 1;
      RoleTableOnly(roles[..last], id);
      assert roles == roles[..last] + [roles[last]];
    }
  }

  /** Defined roles: those the piece lists, none called `owner`, and always the default one. */
  lemma {:induction false} RolesExactly(p: Pieces, creators: set<PublicKey>, id: string)
    requires GoodPieces(p)
    ensures
      var c := InitialCore(p, creators);
      var listed := p.roles.body.piece.roles;
      && (id in c.roles <==> id == "member" || (id != "owner" && exists r :: r in listed && r.id == id))
      && (forall r :: DefinesLast(listed, id, r) && id != "owner" ==>
            id in c.roles && c.roles[id] == r.(perms := c.roles[id].perms) && SameBits(c.roles[id].perms, r.perms, false))
      && (id == "member" && !(exists r :: r in listed && r.id == id) ==> c.roles[id] == RoleDef("member", "member", 0, 0))
  {
    hide Bit, Defined, Sanitized, RoleTable, InitialMembers;
    var listed := p.roles.body.piece.roles;
    RoleTableOnly(listed, id);
    hide SameBits;
    forall r | DefinesLast(listed, id, r) && id != "owner"
      ensures id in RoleTable(listed) && RoleTable(listed)[id] == r.(perms := Sanitized(r.perms))
    {
      RoleTableExactly(listed, id, r);
    }
    forall r: RoleDef ensures SameBits(Sanitized(r.perms), r.perms, false) {
      SanitizedSame(r.perms);
    }
  }

  // ---- the state they give -------------------------------------------------------------------------

  /**
    The owner is whom the piece of admins names, if they created the group; members are those
    listed and the owner, with the defined roles assigned to them; bans and mutes as listed.
   */
  lemma {:induction false} PeopleExactly(p: Pieces, creators: set<PublicKey>, who: PublicKey)
    requires GoodPieces(p)
    ensures
      var c := InitialCore(p, creators);
      var named, people := p.admins.body.piece, p.members.body.piece;
      && (c.owner == Some(who) <==> named.owner == Some(who) && who in creators)
      && (who in c.members <==> who in people.members || c.owner == Some(who))
      && (who in c.members ==> forall r :: r in c.members[who] <==>
            c.owner != Some(who) && who in named.assignments && r in named.assignments[who] && r != "member" && r in c.roles)
      && (who in c.bans <==> who in people.bans)
      && (who in c.mutes <==> who in people.mutes) && (who in c.mutes ==> c.mutes[who] == people.mutes[who])
  {
    hide RoleTable;
  }

  /** Who created the group: whoever signed a creation of it. */
  lemma CreatorsExactly(group: PublicKey, events: seq<Event>, who: PublicKey)
    ensures who in Creators(group, events) <==> exists e :: e in events && e.group == Some(group) && e.body.CreateGroup? && e.author == who
  {
  }

  /** A group's owner, whatever happens in it, is whom its admins' piece names, if they created it. */
  lemma {:induction false} OwnerExactly(group: PublicKey, events: seq<Event>, p: Pieces, who: PublicKey)
    requires GoodPieces(p) && Winners(group, events, p)
    ensures FoldEvents(group, events).Some?
    ensures FoldEvents(group, events).value.core.owner == Some(who) <==>
            && p.admins.body.piece.owner == Some(who)
            && exists e :: e in events && e.group == Some(group) && e.body.CreateGroup? && e.author == who
  {
    WinnerIsNewest(group, MetadataKind, events, p.metadata);
    WinnerIsNewest(group, AdminsKind, events, p.admins);
    WinnerIsNewest(group, MembersKind, events, p.members);
    WinnerIsNewest(group, RolesKind, events, p.roles);
    CreatorsExactly(group, events, who);
    hide RunSteps, Newest, FoldEvents, Initial, Winners;
    var acts := FoldIsRun(group, events);
    var start := Initial(group, p, Creators(group, events), InvitesOf(Sort(Actions(group, events))));
    RunKeepsOwner(start, acts);
    Compaction.InitialFields(group, p, Creators(group, events), InvitesOf(Sort(Actions(group, events))));
    PeopleExactly(p, Creators(group, events), who);
  }

  lemma {:induction false} RunKeepsOwner(s: GroupState, acts: seq<Event>)
    ensures RunSteps(s, acts).core.owner == s.core.owner
  {
    hide State.Judge, NextTrace;
    if acts != [] {
      var last := |acts| - 1;
      RunKeepsOwner(s, acts[..last]);
      var mid := RunSteps(s, acts[..last]);
      if State.Judge(mid.core, mid.invites, acts[last]).Ok? {
        Invariants.OwnerIsFixed(mid.core, mid.invites, acts[last]);
      }
    }
  }

  /** The invites a fold knows: every well-formed one of the group, under its code, dated and ending as it says. */
  lemma {:induction false} InvitesExactly(group: PublicKey, events: seq<Event>, code: string, author: PublicKey, at: Timestamp, expires: Option<Timestamp>)
    ensures
      var invites := InvitesOf(Sort(Actions(group, events)));
      code in invites && InviteEntry(author, at, expires) in invites[code] <==>
      exists e :: && e in events && e.group == Some(group) && e.author == author && e.at == at
                  && e.body == ActionBody(CreateInvite, Some(Invite(code, expires)))
  {
    hide InvitesOf;
    var i := InviteEntry(author, at, expires);
    Compaction.InvitesAre(Sort(Actions(group, events)), code, i);
    SortedActions(group, events);
    if e :| && e in events && e.group == Some(group) && e.author == author && e.at == at
            && e.body == ActionBody(CreateInvite, Some(Invite(code, expires)))
    {
      assert Compaction.OffersAs(e, code, i);
    }
  }

  /** The rest is as the pieces say; the cutoff is the latest of their dates, the counter the highest of theirs. */
  lemma {:induction false} RestExactly(group: PublicKey, p: Pieces, creators: set<PublicKey>, invites: Invites)
    requires GoodPieces(p)
    ensures
      var s, meta := Initial(group, p, creators, invites), p.metadata.body.piece;
      && s.core.name == meta.name && s.core.public == meta.public && s.core.newcomerWait == meta.newcomerWait
      && s.core.about == meta.about && s.core.channels == meta.channels && s.core.overrides == meta.overrides
      && s.namedOwner == p.admins.body.piece.owner && s.invites == invites
      && s.trace.applied == {} && s.trace.joined == map[]
    ensures
      var s := Initial(group, p, creators, invites);
      && s.cutoff in {p.metadata.at, p.admins.at, p.members.at, p.roles.at}
      && p.metadata.at <= s.cutoff && p.admins.at <= s.cutoff && p.members.at <= s.cutoff && p.roles.at <= s.cutoff
      && s.seqNo in {p.metadata.body.seqNo, p.admins.body.seqNo, p.members.body.seqNo, p.roles.body.seqNo}
      && p.metadata.body.seqNo <= s.seqNo && p.admins.body.seqNo <= s.seqNo
      && p.members.body.seqNo <= s.seqNo && p.roles.body.seqNo <= s.seqNo
  {
    hide RoleTable, InitialMembers, InitialSilences, Ascending;
  }

  lemma {:induction false} SilencesAtFirst(keys: seq<PublicKey>, mutes: map<PublicKey, Timestamp>, cutoff: Timestamp, who: PublicKey, t: Timestamp)
    requires forall p :: p in keys ==> p in mutes
    ensures Hushed(InitialSilences(keys, mutes, cutoff), who, true, t) <==> who in keys && cutoff <= t < mutes[who]
    ensures !Hushed(InitialSilences(keys, mutes, cutoff), who, false, t)
  {
    hide Hushed;
    if keys == [] {
      NobodyHushed(who, t);
    } else {
      var last := |keys| - 1;
      var p, rest := keys[last], InitialSilences(keys[..last], mutes, cutoff);
      SilencesAtFirst(keys[..last], mutes, cutoff, who, t);
      assert keys == keys[..last] + [p];
      OneMoreHushes(rest, Silence(p, cutoff, Some(mutes[p]), true), who, true, t);
      OneMoreHushes(rest, Silence(p, cutoff, Some(mutes[p]), true), who, false, t);
    }
  }

  lemma NobodyHushed(who: PublicKey, t: Timestamp)
    ensures !Hushed([], who, true, t) && !Hushed([], who, false, t)
  {
  }

  /** A mute of the snapshot silences from the cutoff to its end, and nothing else does yet. */
  lemma {:induction false} SilencedAtFirst(group: PublicKey, p: Pieces, creators: set<PublicKey>, invites: Invites, who: PublicKey, t: Timestamp)
    requires GoodPieces(p)
    ensures
      var s := Initial(group, p, creators, invites);
      && (Hushed(s.trace.silences, who, true, t) <==> who in s.core.mutes && s.cutoff <= t < s.core.mutes[who])
      && !Hushed(s.trace.silences, who, false, t)
  {
    hide RoleTable, InitialMembers, InitialSilences, Hushed;
    var s := Initial(group, p, creators, invites);
    SilencesAtFirst(Ascending(s.core.mutes.Keys), s.core.mutes, s.cutoff, who, t);
  }

  // ---- the order of actions ------------------------------------------------------------------------

  /** By time, and within one second by id. */
  ghost predicate InOrder(events: seq<Event>) {
    forall i, j :: 0 <= i < j < |events| ==>
      events[i].at < events[j].at || (events[i].at == events[j].at && events[i].id <= events[j].id)
  }

  lemma {:induction false} LiveKeepsOrder(cutoff: Timestamp, actions: seq<Event>)
    requires InOrder(actions)
    ensures InOrder(Live(cutoff, actions))
  {
    hide IsLive;
    if actions != [] {
      var last := |actions| - 1;
      LiveKeepsOrder(cutoff, actions[..last]);
      LiveMembers(cutoff, actions[..last]);
      forall e | e in Live(cutoff, actions[..last]) ensures e.at < actions[last].at || (e.at == actions[last].at && e.id <= actions[last].id) {
        assert e in actions[..last];
      }
    }
  }

  lemma SortedIsInOrder(events: seq<Event>)
    ensures Sorted(events) <==> InOrder(events)
  {
  }

  /** A fold runs over the group's actions but invites, none dated before any piece, in order. */
  lemma {:induction false} FoldRunsInOrder(group: PublicKey, events: seq<Event>, p: Pieces) returns (live: seq<Event>)
    requires GoodPieces(p) && Winners(group, events, p)
    ensures
      var start := Initial(group, p, Creators(group, events), InvitesOf(Sort(Actions(group, events))));
      FoldEvents(group, events) == Some(RunAll(start, live))
    ensures InOrder(live)
    ensures forall e :: e in live <==>
              && e in events && e.group == Some(group) && e.body.ActionBody? && !e.body.kind.CreateInvite?
              && p.metadata.at <= e.at && p.admins.at <= e.at && p.members.at <= e.at && p.roles.at <= e.at
  {
    WinnerIsNewest(group, MetadataKind, events, p.metadata);
    WinnerIsNewest(group, AdminsKind, events, p.admins);
    WinnerIsNewest(group, MembersKind, events, p.members);
    WinnerIsNewest(group, RolesKind, events, p.roles);
    var actions := Sort(Actions(group, events));
    live := Live(CutoffOf(p), actions);
    SortSorts(Actions(group, events));
    SortedIsInOrder(actions);
    LiveKeepsOrder(CutoffOf(p), actions);
    LiveMembers(CutoffOf(p), actions);
    SortedActions(group, events);
    hide RunAll, Initial, Winners, Newest;
    CutoffIsLatest(p);
  }

  lemma CutoffIsLatest(p: Pieces)
    ensures forall e: Event :: CutoffOf(p) <= e.at <==>
              p.metadata.at <= e.at && p.admins.at <= e.at && p.members.at <= e.at && p.roles.at <= e.at
  {
  }

  lemma {:induction false} PassKeepsApplied(s: GroupState, pending: seq<Event>, k: nat)
    requires k <= |pending|
    ensures Pass(s, pending[..k]).state.trace.applied <= Pass(s, pending).state.trace.applied
    decreases |pending|
  {
    if k < |pending| {
      var front := pending[..|pending| - 1];
      PassKeepsApplied(s, front, k);
      assert front[..k] == pending[..k];
    } else {
      assert pending[..k] == pending;
    }
  }

  /**
    Within a second actions are tried in order: what the state reached by the ones before it
    accepts is applied, whatever comes after.
   */
  lemma {:induction false} TriedInOrder(s: GroupState, before: seq<Event>, second: seq<Event>, after: seq<Event>, k: nat)
    requires InTime(before) && Compaction.Precede(before, second + after) && k < |second|
    requires forall i :: 0 <= i < |second| ==> second[i].at == second[0].at
    requires after != [] ==> after[0].at != second[0].at
    requires !Refuses(RunSteps(RunAll(s, before), second[..k]), second[k])
    ensures second[k].id in RunAll(s, before + (second + after)).trace.applied
  {
    hide RunAll, Refuses, Step, Second;
    var mid := RunAll(s, before);
    Compaction.RunConcat(s, before, second + after);
    RunSplitsSecond(mid, second, after);
    RunGrowsApplied(Second(mid, second).state, after);
    PassIsRun(mid, second[..k]);
    StepApplies(Pass(mid, second[..k]).state, second[k]);
    assert second[..k + 1][..k] == second[..k];
    assert Pass(mid, second[..k + 1]).state == Step(Pass(mid, second[..k]).state, second[k]);
    PassKeepsApplied(mid, second, k + 1);
    Batch.SecondKeepsPass(mid, second);
  }
}
