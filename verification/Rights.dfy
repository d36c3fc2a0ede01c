/** What one action can do to whom, and exactly when, from the state before it alone. */
module Rights {
  import opened Prelude
  import opened Perm
  import opened Group
  import opened State
  import opened Runs
  import opened Powers

  ghost predicate Can(c: Core, p: PublicKey, b: Bits) { Bit(Base(c, p), b) }

  lemma HoldsIsCan(c: Core, p: PublicKey, b: Bits)
    ensures Defined(b) ==> (Holds(c, p, b) <==> Can(c, p, b))
  {
    hide Base;
    BitIsContained(Base(c, p), b);
  }

  /** A role of the actor's is above that position, or the actor owns the group. */
  ghost predicate Above(c: Core, actor: PublicKey, position: Position) {
    || c.owner == Some(actor)
    || (actor in c.members && exists r :: r in c.members[actor] && r in c.roles && c.roles[r].position > position)
  }

  lemma AboveIsRank(c: Core, actor: PublicKey, position: Position)
    ensures Above(c, actor, position) <==> c.owner == Some(actor) || Rank(c, actor) > position
  {
    if position + 1 < I64_LIMIT {
      RankExactly(c, actor, position + 1);
    }
  }

  /** The role is above the floor and every role of the target's. */
  predicate RoleAbove(c: Core, role: string, target: PublicKey)
    requires role in c.roles
  {
    && c.roles[role].position > I64_MIN
    && (target in c.members ==> forall q :: q in c.members[target] && q in c.roles ==> c.roles[q].position < c.roles[role].position)
  }

  /** A role of the actor's is above every one of the target's, or the actor owns the group; nobody is above its owner. */
  ghost predicate AbovePerson(c: Core, actor: PublicKey, target: PublicKey) {
    && c.owner != Some(target)
    && (c.owner == Some(actor) || (actor in c.members && exists r :: r in c.members[actor] && r in c.roles && RoleAbove(c, r, target)))
  }

  lemma AbovePersonIsOutranking(c: Core, actor: PublicKey, target: PublicKey)
    ensures AbovePerson(c, actor, target) <==> Outranks(c, actor, target)
  {
    if actor in c.members {
      var top := TopPosition(c.roles, c.members[actor]);
      if top > I64_MIN {
        var r :| r in c.members[actor] && r in c.roles && c.roles[r].position == top;
      }
    }
  }

  // ---- coming in -------------------------------------------------------------------------------

  /** The group is open and no code is named, or somebody who may invite has an invite running under it. */
  ghost predicate OpenTo(c: Core, invites: Invites, code: Option<string>, at: Timestamp) {
    if code.None? then c.public
    else
      code.value in invites && exists i :: && i in invites[code.value] && i.at <= at && Can(c, i.author, 0x010)
                                           && (i.expires.Some? ==> at <= i.expires.value)
  }

  /** Who may have `roles` added or taken: below the actor, and granting nothing the actor lacks. */
  ghost predicate MayGive(c: Core, actor: PublicKey, added: set<string>, taken: set<string>) {
    && Can(c, actor, 0x200)
    && (forall r :: r in added || r in taken ==> r in c.roles && Above(c, actor, c.roles[r].position))
    && (forall r :: r in added ==> Grantable(c, actor, c.roles[r].perms))
  }

  /** Roles somebody can hold: defined, and none called `owner`. */
  predicate Holdable(c: Core, roles: set<string>) {
    forall r :: r in roles ==> r != "owner" && r in c.roles
  }

  /** `actor` may give `target` exactly `wanted`, the default role aside. */
  ghost predicate MayPut(c: Core, actor: PublicKey, target: PublicKey, wanted: set<string>) {
    && actor in c.members && c.owner != Some(target) && Holdable(c, wanted)
    && if target in c.members then
         var held := c.members[target];
         wanted == held || (MayGive(c, actor, wanted - held, held - wanted) && AbovePerson(c, actor, target))
       else
         target !in c.bans && Can(c, actor, 0x010) && (wanted == {} || MayGive(c, actor, wanted, {}))
  }

  /** `actor` may take `target` out, for good if `ban`. */
  ghost predicate MayRemove(c: Core, actor: PublicKey, target: PublicKey, ban: bool) {
    actor in c.members && (ban || target in c.members) && Can(c, actor, if ban then 0x080 else 0x040) && AbovePerson(c, actor, target)
  }

  ghost predicate MayHush(c: Core, actor: PublicKey, target: PublicKey) {
    actor in c.members && target in c.members && Can(c, actor, 0x100) && AbovePerson(c, actor, target)
  }

  lemma {:induction false} PutExactly(c: Core, actor: PublicKey, target: PublicKey, roles: set<string>)
    ensures JudgePut(c, actor, target, roles).Ok? <==> MayPut(c, actor, target, roles - {"member"})
  {
    hide Base, Rank, Bit, Can, Grantable, PermsOver, Above, AbovePerson, Holds, Outranks, OutranksRole, CanGrant;
    var wanted := roles - {DEFAULT_ROLE};
    var held := if target in c.members then c.members[target] else {};
    HoldsIsCan(c, actor, CREATE_INVITE);
    HoldsIsCan(c, actor, MANAGE_ROLES);
    AbovePersonIsOutranking(c, actor, target);
    GrantsEach(c, actor, wanted - held);
    forall r | r in c.roles ensures Above(c, actor, c.roles[r].position) <==> OutranksRole(c, actor, c.roles[r]) {
      OverRole(c, actor, c.roles[r]);
    }
    PutNumbers();
    assert wanted == held ==> (wanted - held) + (held - wanted) == {};
    assert target !in c.members ==> wanted - held == wanted && held - wanted == {};
  }

  lemma OverRole(c: Core, actor: PublicKey, role: RoleDef)
    ensures Above(c, actor, role.position) <==> OutranksRole(c, actor, role)
  {
    AboveIsRank(c, actor, role.position);
  }

  lemma PutNumbers()
    ensures CREATE_INVITE == 0x010 && MANAGE_ROLES == 0x200 && Defined(0x010) && Defined(0x200)
    ensures KICK_MEMBERS == 0x040 && BAN_MEMBERS == 0x080 && MUTE_MEMBERS == 0x100
    ensures Defined(0x040) && Defined(0x080) && Defined(0x100)
  {
  }

  lemma RemoveExactly(c: Core, actor: PublicKey, target: PublicKey, ban: bool)
    ensures JudgeRemove(c, actor, target, ban).Ok? <==> MayRemove(c, actor, target, ban)
  {
    hide Base, Rank, Bit, Can, AbovePerson, Holds, Outranks;
    PutNumbers();
    HoldsIsCan(c, actor, BAN_MEMBERS);
    HoldsIsCan(c, actor, KICK_MEMBERS);
    AbovePersonIsOutranking(c, actor, target);
    OwnerIsAbove(c, actor, target);
  }

  lemma OwnerIsAbove(c: Core, actor: PublicKey, target: PublicKey)
    ensures c.owner == Some(target) ==> !AbovePerson(c, actor, target)
  {
  }

  lemma HushExactly(c: Core, actor: PublicKey, target: PublicKey)
    ensures MayMute(c, actor, target).None? <==> MayHush(c, actor, target)
  {
    hide Base, Rank, Bit, Can, AbovePerson, Holds, Outranks;
    PutNumbers();
    HoldsIsCan(c, actor, MUTE_MEMBERS);
    AbovePersonIsOutranking(c, actor, target);
    OwnerIsAbove(c, actor, target);
  }

  lemma OpenExactly(c: Core, invites: Invites, code: Option<string>, at: Timestamp)
    ensures Honoured(c, invites, code, at) <==> OpenTo(c, invites, code, at)
  {
    hide Base, Bit, Can, Holds;
    PutNumbers();
    forall p ensures Holds(c, p, CREATE_INVITE) <==> Can(c, p, 0x010) {
      HoldsIsCan(c, p, CREATE_INVITE);
    }
  }

  // ---- whether an action applies -----------------------------------------------------------------

  /** The action may be done, by its author, in the state before it; edits are judged in Edits.dfy. */
  ghost predicate Accepted(s: GroupState, e: Event)
    requires ActionOf(e).Some? && !ActionOf(e).value.EditGroup?
  {
    var c, actor := s.core, e.author;
    match ActionOf(e).value
    case Put(target, roles) => MayPut(c, actor, target, roles - {"member"})
    case Remove(target, ban) => MayRemove(c, actor, target, ban)
    case Unban(target) => actor in c.members && Can(c, actor, 0x080) && target in c.bans
    case Mute(target, until) => MayHush(c, actor, target) && (if until.Some? then until.value > e.at else target in c.mutes)
    case Join(code) => actor !in c.members && actor !in c.bans && OpenTo(c, s.invites, code, e.at)
    case Leave => actor in c.members && c.owner != Some(actor)
    case Invite(_, _) => false
  }

  /** What is recorded as applied is what may be done. */
  lemma {:induction false} AppliesExactly(s: GroupState, e: Event)
    requires ActionOf(e).Some? && !ActionOf(e).value.EditGroup?
    ensures Refuses(s, e) <==> !Accepted(s, e)
    ensures Step(s, e).trace.applied == if Accepted(s, e) then s.trace.applied + {e.id} else s.trace.applied
  {
    hide MayPut, MayRemove, MayHush, OpenTo, Can, Honoured, MayMute, JudgePut, JudgeRemove, Holds, NextJoined, NextSilences;
    var c, actor := s.core, e.author;
    PutNumbers();
    match ActionOf(e).value
    case Put(target, roles) => PutExactly(c, actor, target, roles);
    case Remove(target, ban) => RemoveExactly(c, actor, target, ban);
    case Unban(target) => HoldsIsCan(c, actor, BAN_MEMBERS);
    case Mute(target, until) => HushExactly(c, actor, target);
    case Join(code) => OpenExactly(c, s.invites, code, e.at);
    case _ =>
  }

  // ---- what it does to whom ------------------------------------------------------------------------

  ghost predicate ComesIn(s: GroupState, e: Event, p: PublicKey) {
    && p !in s.core.members && ActionOf(e).Some?
    && (match ActionOf(e).value
        case Put(target, roles) => target == p && MayPut(s.core, e.author, p, roles - {"member"})
        case Join(code) => e.author == p && p !in s.core.bans && OpenTo(s.core, s.invites, code, e.at)
        case _ => false)
  }

  ghost predicate GoesOut(s: GroupState, e: Event, p: PublicKey) {
    && p in s.core.members && ActionOf(e).Some?
    && (match ActionOf(e).value
        case Remove(target, ban) => target == p && MayRemove(s.core, e.author, p, ban)
        case Leave => e.author == p && s.core.owner != Some(p)
        case _ => false)
  }

  ghost predicate IsBannedBy(s: GroupState, e: Event, p: PublicKey) {
    ActionOf(e) == Some(Remove(p, true)) && MayRemove(s.core, e.author, p, true)
  }

  predicate IsEdit(e: Event) { ActionOf(e).Some? && ActionOf(e).value.EditGroup? }

  /** Who is in after one action, and with which roles. */
  lemma {:induction false} MembersExactly(s: GroupState, e: Event, p: PublicKey)
    requires !IsEdit(e)
    ensures
      var d := Step(s, e).core;
      && (p in d.members <==> if p in s.core.members then !GoesOut(s, e, p) else ComesIn(s, e, p))
      && (ComesIn(s, e, p) ==> d.members[p] == if ActionOf(e).value.Put? then ActionOf(e).value.roles - {"member"} else {})
      && (p in d.members && p in s.core.members ==>
            d.members[p] ==
            if ActionOf(e).Some? && ActionOf(e).value.Put? && ActionOf(e).value.target == p && Accepted(s, e)
            then ActionOf(e).value.roles - {"member"} else s.core.members[p])
  {
    hide MayPut, MayRemove, MayHush, OpenTo, Can, Refuses;
    if ActionOf(e).Some? {
      AppliesExactly(s, e);
      AppliedCore(s, e);
    }
    hide Judge, Step;
    UnparsedIsIdle(s, e);
  }

  lemma UnparsedIsIdle(s: GroupState, e: Event)
    ensures ActionOf(e).None? ==> Step(s, e) == s
  {
  }

  /** The members, bans and mutes an applied action leaves; a refused one changes no core. */
  lemma {:induction false} AppliedCore(s: GroupState, e: Event)
    requires ActionOf(e).Some? && !ActionOf(e).value.EditGroup?
    ensures
      var c, d := s.core, Step(s, e).core;
      if Refuses(s, e) then d == c
      else
        d == match ActionOf(e).value
             case Put(target, roles) => c.(members := c.members[target := roles - {"member"}])
             case Remove(target, ban) =>
               c.(members := c.members - {target},
                  mutes := if target in c.members then c.mutes - {target} else c.mutes,
                  bans := if ban then c.bans + {target} else c.bans)
             case Unban(target) => c.(bans := c.bans - {target})
             case Mute(target, until) =>
               c.(mutes := if until.Some? then c.mutes[target := until.value] else c.mutes - {target})
             case Join(_) => c.(members := c.members[e.author := {}])
             case _ => c.(members := c.members - {e.author}, mutes := c.mutes - {e.author})
  {
    hide Holds, Outranks, OutranksRole, CanGrant, Honoured, MayMute, NextTrace, PermsOver;
  }

  /** Who is banned, and who is muted until when. */
  lemma {:induction false} BansAndMutesExactly(s: GroupState, e: Event, p: PublicKey)
    requires !IsEdit(e)
    ensures
      var c, d := s.core, Step(s, e).core;
      && (p in d.bans <==>
            || IsBannedBy(s, e, p)
            || (p in c.bans && !(ActionOf(e) == Some(Unban(p)) && e.author in c.members && Can(c, e.author, 0x080))))
      && (p in d.mutes <==>
            if HushedBy(s, e, p) then ActionOf(e).value.until.Some? else p in c.mutes && !GoesOut(s, e, p))
      && (p in d.mutes ==> d.mutes[p] == if HushedBy(s, e, p) then ActionOf(e).value.until.value else c.mutes[p])
  {
    hide MayPut, MayRemove, MayHush, OpenTo, Can, Refuses;
    if ActionOf(e).Some? {
      AppliesExactly(s, e);
      AppliedCore(s, e);
    }
    hide Judge, Step;
    UnparsedIsIdle(s, e);
  }

  /** The mute of `p` is set or lifted. */
  ghost predicate HushedBy(s: GroupState, e: Event, p: PublicKey) {
    && ActionOf(e).Some? && ActionOf(e).value.Mute? && ActionOf(e).value.target == p && MayHush(s.core, e.author, p)
    && (ActionOf(e).value.until.Some? ==> ActionOf(e).value.until.value > e.at)
  }

  /** When somebody let themselves in; nobody put in by another is a newcomer. */
  lemma {:induction false} JoinedExactly(s: GroupState, e: Event, p: PublicKey)
    requires !IsEdit(e)
    ensures
      var j, k := s.trace.joined, Step(s, e).trace.joined;
      var self := ActionOf(e).Some? && ActionOf(e).value.Join? && ComesIn(s, e, p);
      && (p in k <==> self || (p in j && !GoesOut(s, e, p)))
      && (p in k ==> k[p] == if self then e.at else j[p])
  {
    hide MayPut, MayRemove, MayHush, OpenTo, Can, NextSilences, Judge;
    if ActionOf(e).Some? {
      AppliesExactly(s, e);
    }
    UnparsedIsIdle(s, e);
  }

  // ---- silences ---------------------------------------------------------------------------------

  /** The span silences `p` at `t`. */
  predicate Spans(x: Silence, p: PublicKey, mute: bool, t: Timestamp) {
    x.who == p && x.mute == mute && x.from <= t && (x.until.Some? ==> t < x.until.value)
  }

  /** Some span of that kind silences `p` at `t`. */
  ghost predicate Hushed(spans: seq<Silence>, p: PublicKey, mute: bool, t: Timestamp) {
    exists i :: 0 <= i < |spans| && Spans(spans[i], p, mute, t)
  }

  /** Some removal of `p` does, once the open ones end at `at`. */
  ghost predicate HushedClosing(spans: seq<Silence>, p: PublicKey, t: Timestamp, at: Timestamp) {
    exists i :: 0 <= i < |spans| && Spans(spans[i], p, false, t) && (spans[i].until.None? ==> t < at)
  }

  /** Some mute of `p` does, once those that cover `at` end there. */
  ghost predicate HushedCut(spans: seq<Silence>, p: PublicKey, t: Timestamp, at: Timestamp) {
    exists i :: 0 <= i < |spans| && Spans(spans[i], p, true, t) && (Spans(spans[i], p, true, at) ==> t < at)
  }

  lemma LetBackInHushes(spans: seq<Silence>, who: PublicKey, at: Timestamp, p: PublicKey, t: Timestamp)
    ensures
      var after := LetBackIn(spans, who, at);
      && (Hushed(after, p, true, t) <==> Hushed(spans, p, true, t))
      && (Hushed(after, p, false, t) <==> if p == who then HushedClosing(spans, p, t, at) else Hushed(spans, p, false, t))
  {
    var after := LetBackIn(spans, who, at);
    assert forall i :: 0 <= i < |spans| ==> (Spans(after[i], p, true, t) <==> Spans(spans[i], p, true, t));
    assert forall i :: 0 <= i < |spans| ==>
             (Spans(after[i], p, false, t) <==> Spans(spans[i], p, false, t) && (p == who && spans[i].until.None? ==> t < at));
    hide LetBackIn, Spans;
  }

  lemma CutMutesHushes(spans: seq<Silence>, who: PublicKey, at: Timestamp, p: PublicKey, t: Timestamp)
    ensures
      var after := CutMutes(spans, who, at);
      && (Hushed(after, p, false, t) <==> Hushed(spans, p, false, t))
      && (Hushed(after, p, true, t) <==> if p == who then HushedCut(spans, p, t, at) else Hushed(spans, p, true, t))
  {
    var after := CutMutes(spans, who, at);
    assert forall i :: 0 <= i < |spans| ==> (Spans(after[i], p, false, t) <==> Spans(spans[i], p, false, t));
    assert forall i :: 0 <= i < |spans| ==>
             (Spans(after[i], p, true, t) <==> Spans(spans[i], p, true, t) && (p == who && Spans(spans[i], p, true, at) ==> t < at));
    hide CutMutes, Spans;
  }

  lemma OneMoreHushes(spans: seq<Silence>, y: Silence, p: PublicKey, mute: bool, t: Timestamp)
    ensures Hushed(spans + [y], p, mute, t) <==> Hushed(spans, p, mute, t) || Spans(y, p, mute, t)
  {
    hide Spans;
    var all := spans + [y];
    assert all[|spans|] == y && forall i :: 0 <= i < |spans| ==> all[i] == spans[i];
  }

  /**
    A removal or a ban silences from its time on, until its target is in again; a mute silences
    from its time to its end, and a mute by one who may mute ends what mutes its target then.
   */
  lemma {:induction false} SilencesExactly(s: GroupState, e: Event, p: PublicKey, t: Timestamp)
    requires !IsEdit(e)
    ensures
      var before, after := s.trace.silences, Step(s, e).trace.silences;
      && (Hushed(after, p, false, t) <==>
            if GoesOut(s, e, p) || IsBannedBy(s, e, p) then Hushed(before, p, false, t) || e.at <= t
            else if ComesIn(s, e, p) then HushedClosing(before, p, t, e.at)
            else Hushed(before, p, false, t))
      && (Hushed(after, p, true, t) <==>
            if ActionOf(e).Some? && ActionOf(e).value.Mute? && ActionOf(e).value.target == p && MayHush(s.core, e.author, p) then
              || HushedCut(before, p, t, e.at)
              || (ActionOf(e).value.until.Some? && e.at <= t < ActionOf(e).value.until.value)
            else Hushed(before, p, true, t))
  {
    hide MayPut, OpenTo, Can, NextJoined, Judge, LetBackIn, CutMutes, Hushed, HushedClosing, HushedCut, MayMute, AbovePerson;
    var before, at := s.trace.silences, e.at;
    if ActionOf(e).Some? {
      AppliesExactly(s, e);
      match ActionOf(e).value
      case Put(target, _) => LetBackInHushes(before, target, at, p, t);
      case Remove(target, _) =>
        OneMoreHushes(before, Silence(target, at, None, false), p, false, t);
        OneMoreHushes(before, Silence(target, at, None, false), p, true, t);
      case Mute(target, until) =>
        HushExactly(s.core, e.author, target);
        CutMutesHushes(before, target, at, p, t);
        OneMoreHushes(CutMutes(before, target, at), Silence(target, at, until, true), p, false, t);
        OneMoreHushes(CutMutes(before, target, at), Silence(target, at, until, true), p, true, t);
      case Join(_) => LetBackInHushes(before, e.author, at, p, t);
      case Leave =>
        OneMoreHushes(before, Silence(e.author, at, None, false), p, false, t);
        OneMoreHushes(before, Silence(e.author, at, None, false), p, true, t);
      case _ =>
    }
    UnparsedIsIdle(s, e);
  }

  // ---- the door -----------------------------------------------------------------------------------

  /**
    Somebody neither in nor banned who asks to join is in afterwards exactly when the group is
    public and they name no code, or they name one under which an invite was running that its
    author may still give.
   */
  lemma {:induction false} JoinExactly(s: GroupState, e: Event)
    requires ActionOf(e).Some? && ActionOf(e).value.Join? && e.author !in s.core.members && e.author !in s.core.bans
    ensures
      var code := ActionOf(e).value.joinCode;
      e.author in Step(s, e).core.members <==>
      || (code.None? && s.core.public)
      || (code.Some? && code.value in s.invites
          && exists i :: && i in s.invites[code.value] && i.at <= e.at && (i.expires.None? || e.at <= i.expires.value)
                         && Contains(Base(s.core, i.author), CREATE_INVITE))
  {
    hide Base, Contains, Bit, Step;
    MembersExactly(s, e, e.author);
    var code := ActionOf(e).value.joinCode;
    if code.Some? && code.value in s.invites {
      forall i | i in s.invites[code.value] ensures Contains(Base(s.core, i.author), CREATE_INVITE) <==> Can(s.core, i.author, 0x010) {
        PutNumbers();
        HoldsIsCan(s.core, i.author, CREATE_INVITE);
      }
    }
  }

  /** An invite of somebody who may not invite opens nothing. */
  ghost predicate NoDoors(c: Core, invites: Invites) {
    && !c.public
    && forall code, i: InviteEntry :: code in invites && i in invites[code] ==> !Can(c, i.author, 0x010)
  }

  /**
    Strangers change nothing: in a private group without an invite anybody there stands behind,
    no run of events of people who are not in it changes anything a verdict reads.
   */
  lemma {:induction false} StrangersChangeNothing(s: GroupState, acts: seq<Event>)
    requires NoDoors(s.core, s.invites) && forall e :: e in acts ==> e.author !in s.core.members
    ensures RunSteps(s, acts).core == s.core && RunSteps(s, acts).invites == s.invites
    ensures RunSteps(s, acts).trace == s.trace
  {
    hide Step, NoDoors;
    if acts != [] {
      StrangersChangeNothing(s, acts[..|acts| - 1]);
      StrangerIsRefused(RunSteps(s, acts[..|acts| - 1]), acts[|acts| - 1]);
    }
  }

  lemma {:induction false} StrangerIsRefused(s: GroupState, e: Event)
    requires NoDoors(s.core, s.invites) && e.author !in s.core.members
    ensures Step(s, e) == s
  {
    hide Holds, Outranks, OutranksRole, CanGrant, PermsOver, EditAll, Can;
    if ActionOf(e).Some? && ActionOf(e).value.Join? {
      OpenExactly(s.core, s.invites, ActionOf(e).value.joinCode, e.at);
    }
    hide Honoured;
  }
}
