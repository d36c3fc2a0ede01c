/**
  What every reachable state keeps: the owner's place, bans and members apart, only defined
  roles held, and silence spans that match who is a member.
 */
module Invariants {
  import opened Prelude
  import opened Perm
  import opened Group
  import opened State
  import opened Fold
  import opened Refused
  import opened Runs
  import opened Authority

  /** A role table as the fold builds it. */
  ghost predicate TableInv(roles: map<string, RoleDef>) {
    && DEFAULT_ROLE in roles && OWNER_MARK !in roles
    && (forall r :: r in roles ==> roles[r].id == r && Sanitized(roles[r].perms) == roles[r].perms)
  }

  /** Only defined roles are held, never the default one; the owner is a member without roles. */
  ghost predicate ShapeInv(c: Core) {
    && TableInv(c.roles)
    && (forall p :: p in c.members ==> c.members[p] <= c.roles.Keys - {DEFAULT_ROLE})
    && (c.owner.Some? ==> c.owner.value in c.members && c.members[c.owner.value] == {})
  }

  /** Nobody is both in and banned. */
  ghost predicate CoreInv(c: Core) {
    ShapeInv(c) && c.members.Keys !! c.bans
  }

  /** `span` at time `now`: well ordered, and open for a removal only while its person is out. */
  ghost predicate SpanOk(members: set<PublicKey>, span: Silence, now: Timestamp) {
    && span.from <= now
    && (span.until.Some? ==> span.from <= span.until.value)
    && (!span.mute && span.until.Some? ==> span.until.value <= now)
    && (!span.mute && span.until.None? ==> span.who !in members)
    && (span.mute ==> span.until.Some?)
  }

  ghost predicate SpansInv(members: set<PublicKey>, silences: seq<Silence>, now: Timestamp) {
    forall i :: 0 <= i < |silences| ==> SpanOk(members, silences[i], now)
  }

  ghost predicate StateInv(s: GroupState, now: Timestamp) {
    CoreInv(s.core) && SpansInv(s.core.members.Keys, s.trace.silences, now)
  }

  // ---- the start --------------------------------------------------------------

  lemma {:induction false} RoleTableInv(roles: seq<RoleDef>)
    ensures TableInv(WithDefaultRole(RoleTable(roles)))
    ensures OWNER_MARK !in RoleTable(roles)
    ensures forall r :: r in RoleTable(roles) ==>
              RoleTable(roles)[r].id == r && Sanitized(RoleTable(roles)[r].perms) == RoleTable(roles)[r].perms
  {
    hide Sanitized;
    SanitizedShrinks(NONE);
    assert Sanitized(NONE) == NONE by { NoneSanitized(); }
    if roles != [] {
      var last := |roles| - 1;
      RoleTableInv(roles[..last]);
      SanitizedShrinks(roles[last].perms);
    }
  }

  lemma NoneSanitized()
    ensures Sanitized(NONE) == NONE
  {
  }

  /** The snapshot keeps bans apart from members, and does not ban the owner. */
  ghost predicate FairSnapshot(p: Pieces, creators: set<PublicKey>)
    requires GoodPieces(p)
  {
    var people := p.members.body.piece;
    && people.bans !! people.members
    && (InitialCore(p, creators).owner.Some? ==> InitialCore(p, creators).owner.value !in people.bans)
  }

  lemma {:induction false} InitialSilencesInv(keys: seq<PublicKey>, mutes: map<PublicKey, Timestamp>, members: set<PublicKey>, cutoff: Timestamp)
    requires forall p :: p in keys ==> p in mutes
    ensures SpansInv(members, InitialSilences(keys, mutes, cutoff), cutoff)
  {
    if keys != [] {
      InitialSilencesInv(keys[..|keys| - 1], mutes, members, cutoff);
    }
  }

  lemma InitialShape(p: Pieces, creators: set<PublicKey>)
    requires GoodPieces(p)
    ensures ShapeInv(InitialCore(p, creators))
  {
    RoleTableInv(p.roles.body.piece.roles);
    hide TableInv, RoleTable;
  }

  lemma InitialInv(group: PublicKey, p: Pieces, creators: set<PublicKey>, invites: Invites)
    requires GoodPieces(p) && FairSnapshot(p, creators)
    ensures StateInv(Initial(group, p, creators, invites), CutoffOf(p))
  {
    var s := Initial(group, p, creators, invites);
    InitialShape(p, creators);
    InitialSilencesInv(Ascending(s.core.mutes.Keys), s.core.mutes, s.core.members.Keys, CutoffOf(p));
  }

  // ---- one step ---------------------------------------------------------------

  lemma {:induction false} EditKeepsShape(before: Core, next: Core, actor: PublicKey, e: Edit)
    requires ShapeInv(next) && EditOne(before, next, actor, e).Ok?
    ensures ShapeInv(EditOne(before, next, actor, e).value)
    ensures EditOne(before, next, actor, e).value.members.Keys == next.members.Keys
    ensures EditOne(before, next, actor, e).value.bans == next.bans
  {
    hide Holds, CanGrant, GoodLabel, Trim, OutranksRole, Sanitized;
    if e.EditRole? {
      SanitizedShrinks(e.role.perms);
      NewRoleKeepsInv(next, e.role.(perms := Sanitized(e.role.perms)));
    } else if e.EditRoleDelete? {
      GoneRoleKeepsInv(next, e.roleId, EditOne(before, next, actor, e).value.overrides);
    } else {
      QuietEdit(before, next, actor, e);
      hide EditOne;
    }
  }

  lemma NewRoleKeepsInv(c: Core, r: RoleDef)
    requires ShapeInv(c) && r.id != OWNER_MARK && Sanitized(r.perms) == r.perms
    ensures ShapeInv(c.(roles := c.roles[r.id := r]))
  {
    hide Sanitized;
  }

  lemma GoneRoleKeepsInv(c: Core, id: string, overrides: seq<Override>)
    requires ShapeInv(c) && id != DEFAULT_ROLE
    ensures ShapeInv(c.(roles := c.roles - {id}, members := StripRole(c.members, id), overrides := overrides))
  {
    hide Sanitized;
  }

  lemma {:induction false} BatchKeepsShape(before: Core, actor: PublicKey, edits: seq<Edit>)
    requires ShapeInv(before) && EditAll(before, before, actor, edits).Ok?
    ensures ShapeInv(EditAll(before, before, actor, edits).value)
    ensures EditAll(before, before, actor, edits).value.members.Keys == before.members.Keys
    ensures EditAll(before, before, actor, edits).value.bans == before.bans
    decreases |edits|
  {
    hide ShapeInv, EditOne;
    if edits != [] {
      var last := |edits| - 1;
      BatchKeepsShape(before, actor, edits[..last]);
      EditKeepsShape(before, EditAll(before, before, actor, edits[..last]).value, actor, edits[last]);
    }
  }

  lemma {:induction false} JudgeKeepsShape(c: Core, invites: Invites, ev: Event)
    requires ShapeInv(c) && Judge(c, invites, ev).Ok?
    ensures ShapeInv(Judge(c, invites, ev).value)
  {
    hide Holds, CanGrant, Outranks, OutranksRole, Honoured, EditAll, TableInv, JudgePut;
    var a := ActionOf(ev).value;
    if a.EditGroup? {
      hide ShapeInv;
      BatchKeepsShape(c, ev.author, a.edits);
    } else if a.Put? {
      PutKeepsShape(c, ev.author, a.target, a.roles);
      hide ShapeInv;
    }
  }

  lemma {:induction false} PutKeepsShape(c: Core, actor: PublicKey, target: PublicKey, roles: set<string>)
    requires ShapeInv(c) && JudgePut(c, actor, target, roles).Ok?
    ensures ShapeInv(JudgePut(c, actor, target, roles).value)
  {
    hide Holds, CanGrant, Outranks, OutranksRole, TableInv;
  }

  /** Who is a member after an applied action. */
  lemma {:induction false} MembersAfter(c: Core, invites: Invites, ev: Event)
    requires ShapeInv(c) && Judge(c, invites, ev).Ok?
    ensures
      var next := Judge(c, invites, ev).value.members.Keys;
      match ActionOf(ev).value
      case Put(target, _) => next == c.members.Keys + {target}
      case Remove(target, _) => next == c.members.Keys - {target}
      case Join(_) => next == c.members.Keys + {ev.author} && ev.author !in c.members
      case Leave => next == c.members.Keys - {ev.author}
      case _ => next == c.members.Keys
  {
    hide Holds, CanGrant, Outranks, OutranksRole, Honoured, EditAll, ShapeInv;
    if ActionOf(ev).value.EditGroup? {
      BatchKeepsShape(c, ev.author, ActionOf(ev).value.edits);
    }
  }

  lemma {:induction false} JudgeKeepsApart(c: Core, invites: Invites, ev: Event)
    requires CoreInv(c) && Judge(c, invites, ev).Ok?
    ensures Judge(c, invites, ev).value.members.Keys !! Judge(c, invites, ev).value.bans
  {
    hide Holds, CanGrant, Outranks, OutranksRole, Honoured, EditAll, ShapeInv;
    if ActionOf(ev).value.EditGroup? {
      BatchKeepsShape(c, ev.author, ActionOf(ev).value.edits);
    }
  }

  lemma {:induction false} OwnerIsFixed(c: Core, invites: Invites, ev: Event)
    requires Judge(c, invites, ev).Ok?
    ensures Judge(c, invites, ev).value.owner == c.owner
  {
    hide Holds, CanGrant, Outranks, OutranksRole, Honoured, EditAll;
    if ActionOf(ev).value.EditGroup? {
      BatchKeepsOwner(c, ev.author, ActionOf(ev).value.edits);
    }
  }

  lemma {:induction false} BatchKeepsOwner(before: Core, actor: PublicKey, edits: seq<Edit>)
    requires EditAll(before, before, actor, edits).Ok?
    ensures EditAll(before, before, actor, edits).value.owner == before.owner
    decreases |edits|
  {
    hide EditOne;
    if edits != [] {
      var last := |edits| - 1;
      BatchKeepsOwner(before, actor, edits[..last]);
      EditKeepsOwner(before, EditAll(before, before, actor, edits[..last]).value, actor, edits[last]);
    }
  }

  lemma EditKeepsOwner(before: Core, next: Core, actor: PublicKey, e: Edit)
    requires EditOne(before, next, actor, e).Ok?
    ensures EditOne(before, next, actor, e).value.owner == next.owner
  {
    hide Holds, CanGrant, GoodLabel, Trim, OutranksRole, Sanitized;
  }

  lemma LetBackInInv(members: set<PublicKey>, silences: seq<Silence>, who: PublicKey, now: Timestamp, at: Timestamp)
    requires SpansInv(members, silences, now) && now <= at
    ensures SpansInv(members + {who}, LetBackIn(silences, who, at), at)
  {
    var after := LetBackIn(silences, who, at);
    forall i | 0 <= i < |after| ensures SpanOk(members + {who}, after[i], at) {
      assert SpanOk(members, silences[i], now);
    }
  }

  lemma CutMutesInv(members: set<PublicKey>, silences: seq<Silence>, who: PublicKey, now: Timestamp, at: Timestamp)
    requires SpansInv(members, silences, now) && now <= at
    ensures SpansInv(members, CutMutes(silences, who, at), at)
  {
    var after := CutMutes(silences, who, at);
    forall i | 0 <= i < |after| ensures SpanOk(members, after[i], at) {
      assert SpanOk(members, silences[i], now);
    }
  }

  lemma FewerMembersInv(members: set<PublicKey>, fewer: set<PublicKey>, silences: seq<Silence>, now: Timestamp, at: Timestamp)
    requires SpansInv(members, silences, now) && now <= at && fewer <= members
    ensures SpansInv(fewer, silences, at)
  {
    forall i | 0 <= i < |silences| ensures SpanOk(fewer, silences[i], at) {
      assert SpanOk(members, silences[i], now);
    }
  }

  lemma {:induction false} StepKeepsSpans(s: GroupState, ev: Event, now: Timestamp)
    requires StateInv(s, now) && now <= ev.at
    ensures SpansInv(Step(s, ev).core.members.Keys, Step(s, ev).trace.silences, ev.at)
  {
    hide Judge, SpansInv, LetBackIn, CutMutes, MayMute, ShapeInv, NextJoined;
    var silences := s.trace.silences;
    var members := s.core.members.Keys;
    FewerMembersInv(members, members, silences, now, ev.at);
    var ok := Judge(s.core, s.invites, ev).Ok?;
    if ActionOf(ev).None? {
      NoActionIsRefused(s.core, s.invites, ev);
    } else {
      if ok {
        MembersAfter(s.core, s.invites, ev);
      }
      var a := ActionOf(ev).value;
      match a {
        case Put(target, _) =>
          LetBackInInv(members, silences, target, now, ev.at);
          if target in members {
            assert members + {target} == members;
          }
        case Remove(target, _) =>
          FewerMembersInv(members, members - {target}, silences, now, ev.at);
          AppendSpan(members - {target}, silences, Silence(target, ev.at, None, false), ev.at);
        case Mute(target, until) =>
          CutMutesInv(members, silences, target, now, ev.at);
          if ok && until.Some? {
            MuteEndsLater(s.core, s.invites, ev);
            AppendSpan(members, CutMutes(silences, target, ev.at), Silence(target, ev.at, until, true), ev.at);
          }
        case Join(_) =>
          LetBackInInv(members, silences, ev.author, now, ev.at);
        case Leave =>
          FewerMembersInv(members, members - {ev.author}, silences, now, ev.at);
          AppendSpan(members - {ev.author}, silences, Silence(ev.author, ev.at, None, false), ev.at);
        case _ =>
      }
    }
  }

  lemma NoActionIsRefused(c: Core, invites: Invites, ev: Event)
    ensures ActionOf(ev).None? ==> Judge(c, invites, ev).Err?
  {
  }

  lemma MuteEndsLater(c: Core, invites: Invites, ev: Event)
    requires ActionOf(ev).Some? && ActionOf(ev).value.Mute? && ActionOf(ev).value.until.Some?
    requires Judge(c, invites, ev).Ok?
    ensures ActionOf(ev).value.until.value > ev.at
  {
  }

  lemma AppendSpan(members: set<PublicKey>, silences: seq<Silence>, span: Silence, now: Timestamp)
    requires SpansInv(members, silences, now) && SpanOk(members, span, now)
    ensures SpansInv(members, silences + [span], now)
  {
  }

  lemma {:induction false} StepKeepsInv(s: GroupState, ev: Event, now: Timestamp)
    requires StateInv(s, now) && now <= ev.at
    ensures StateInv(Step(s, ev), ev.at) && Step(s, ev).core.owner == s.core.owner
  {
    hide Judge, ShapeInv, SpansInv, NextTrace;
    StepKeepsSpans(s, ev, now);
    if Judge(s.core, s.invites, ev).Ok? {
      JudgeKeepsShape(s.core, s.invites, ev);
      JudgeKeepsApart(s.core, s.invites, ev);
      OwnerIsFixed(s.core, s.invites, ev);
    }
  }

  // ---- every run, every fold --------------------------------------------------

  function LastAt(now: Timestamp, acts: seq<Event>): Timestamp {
    if acts == [] then now else acts[|acts| - 1].at
  }

  /** The attempts come in time order, none before `now`. */
  ghost predicate Onward(now: Timestamp, acts: seq<Event>) {
    InTime(acts) && forall e :: e in acts ==> now <= e.at
  }

  lemma {:induction false} RunKeepsInv(s: GroupState, acts: seq<Event>, now: Timestamp)
    requires StateInv(s, now) && Onward(now, acts)
    ensures StateInv(RunSteps(s, acts), LastAt(now, acts))
    ensures RunSteps(s, acts).core.owner == s.core.owner
  {
    hide StateInv, Step;
    if acts != [] {
      var last := |acts| - 1;
      RunKeepsInv(s, acts[..last], now);
      StepKeepsInv(RunSteps(s, acts[..last]), acts[last], LastAt(now, acts[..last]));
    }
  }

  /** Every fold of a fair snapshot is in order, and no event but the snapshot makes the owner. */
  lemma {:induction false} FoldKeepsInv(group: PublicKey, events: seq<Event>, now: Timestamp)
    requires PiecesOf(group, events).Some? && FairSnapshot(PiecesOf(group, events).value, Creators(group, events))
    requires CutoffOf(PiecesOf(group, events).value) <= now
    requires forall e :: e in events && IsAction(group, e) ==> e.at <= now
    ensures StateInv(FoldEvents(group, events).value, now)
    ensures FoldEvents(group, events).value.core.owner == InitialCore(PiecesOf(group, events).value, Creators(group, events)).owner
  {
    var p := PiecesOf(group, events).value;
    var acts := FoldIsRun(group, events);
    var s := Initial(group, p, Creators(group, events), InvitesOf(Sort(Actions(group, events))));
    assert s.core.owner == InitialCore(p, Creators(group, events)).owner;
    InitialInv(group, p, Creators(group, events), s.invites);
    hide Initial, FoldEvents, InitialCore, CoreInv, Step;
    RunKeepsInv(s, acts, CutoffOf(p));
    var t := RunSteps(s, acts);
    FewerMembersInv(t.core.members.Keys, t.core.members.Keys, t.trace.silences, LastAt(CutoffOf(p), acts), now);
  }

  // ---- the removed ------------------------------------------------------------

  ghost predicate HasOpenRemoval(silences: seq<Silence>, p: PublicKey) {
    exists i :: 0 <= i < |silences| && silences[i].who == p && !silences[i].mute && silences[i].until.None?
  }

  ghost predicate InOrSilenced(s: GroupState, p: PublicKey) {
    p in s.core.members || HasOpenRemoval(s.trace.silences, p)
  }

  lemma KeepsOpenRemoval(before: seq<Silence>, after: seq<Silence>, p: PublicKey)
    requires HasOpenRemoval(before, p) && |before| <= |after|
    requires forall i :: 0 <= i < |before| && before[i].who == p && !before[i].mute ==> after[i] == before[i]
    ensures HasOpenRemoval(after, p)
  {
    var i :| 0 <= i < |before| && before[i].who == p && !before[i].mute && before[i].until.None?;
    assert after[i] == before[i];
  }

  lemma {:induction false} StepKeepsInOrSilenced(s: GroupState, ev: Event, p: PublicKey)
    requires CoreInv(s.core) && InOrSilenced(s, p)
    ensures InOrSilenced(Step(s, ev), p)
  {
    hide Judge, ShapeInv, MayMute, NextJoined, HasOpenRemoval;
    var before, after := s.trace.silences, Step(s, ev).trace.silences;
    var ok := Judge(s.core, s.invites, ev).Ok?;
    if ActionOf(ev).None? {
      NoActionIsRefused(s.core, s.invites, ev);
    } else {
      if ok {
        MembersAfter(s.core, s.invites, ev);
      }
      if p !in Step(s, ev).core.members {
        if p in s.core.members {
          assert after == before + [Silence(p, ev.at, None, false)];
          OpenAtEnd(before, p, ev.at);
        } else {
          KeepsOpenRemoval(before, after, p);
        }
      }
    }
  }

  lemma OpenAtEnd(before: seq<Silence>, p: PublicKey, at: Timestamp)
    ensures HasOpenRemoval(before + [Silence(p, at, None, false)], p)
  {
    var after := before + [Silence(p, at, None, false)];
    assert after[|before|].who == p;
  }

  lemma {:induction false} RunKeepsInOrSilenced(s: GroupState, acts: seq<Event>, now: Timestamp, p: PublicKey)
    requires StateInv(s, now) && Onward(now, acts) && InOrSilenced(s, p)
    ensures InOrSilenced(RunSteps(s, acts), p)
  {
    hide CoreInv, SpansInv, Step, InOrSilenced;
    if acts != [] {
      var last := |acts| - 1;
      RunKeepsInOrSilenced(s, acts[..last], now, p);
      RunKeepsInv(s, acts[..last], now);
      StepKeepsInOrSilenced(RunSteps(s, acts[..last]), acts[last], p);
    }
  }

  ghost predicate RemovalCovers(silences: seq<Silence>, p: PublicKey, t: Timestamp) {
    exists i :: 0 <= i < |silences| && silences[i].who == p && !silences[i].mute && silences[i].Covers(t)
  }

  /**
    Anyone who was a member at some point of a run is, at its end, either a member whom no
    removal span silences from then on, or out and silenced at every time from then on.
   */
  lemma {:induction false} RemovedExactlyWhenSilenced(s: GroupState, acts: seq<Event>, now: Timestamp, p: PublicKey, t: Timestamp)
    requires StateInv(s, now) && Onward(now, acts) && p in s.core.members && LastAt(now, acts) <= t
    ensures
      var end := RunSteps(s, acts);
      p in end.core.members <==> !RemovalCovers(end.trace.silences, p, t)
  {
    hide CoreInv, RunSteps;
    RunKeepsInv(s, acts, now);
    RunKeepsInOrSilenced(s, acts, now, p);
    var end := RunSteps(s, acts);
    if p !in end.core.members {
      var silences := end.trace.silences;
      var i :| 0 <= i < |silences| && silences[i].who == p && !silences[i].mute && silences[i].until.None?;
      assert SpanOk(end.core.members.Keys, silences[i], LastAt(now, acts));
      assert silences[i].Covers(t);
    }
  }
}
