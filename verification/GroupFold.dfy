/**
  `GroupState` as the code keeps it (crates/hit-group/src/state.rs): one object whose fields each
  action updates in place, built by the loops of its `fold`. Every method is proved equal to the
  functions of State.dfy and Fold.dfy, down to which spans a refused mute has cut, so what is
  proved of those holds of this.
 */
module GroupFold {
  import opened Prelude
  import opened Perm
  import opened Group
  import opened Replace
  import opened State
  import opened Fold
  import opened Refused
  import opened Authority

  datatype Unit = Unit

  /** Every role held is defined, as in any state a fold reaches. */
  ghost predicate HeldKnown(c: Core) {
    forall p :: p in c.members ==> c.members[p] <= c.roles.Keys
  }

  class GroupObject {
    var id: PublicKey
    var seqNo: nat
    var cutoff: Timestamp
    var name: string
    var public: bool
    var newcomerWait: Seconds
    var about: string
    var joined: map<PublicKey, Timestamp>
    var owner: Option<PublicKey>
    var namedOwner: Option<PublicKey>
    var channels: seq<Channel>
    var overrides: seq<Override>
    var roles: map<string, RoleDef>
    var members: map<PublicKey, set<string>>
    var invites: Invites
    var applied: set<EventId>
    var bans: set<PublicKey>
    var mutes: map<PublicKey, Timestamp>
    var silences: seq<Silence>

    ghost function CoreNow(): Core
      reads this
    {
      Core(owner, name, public, newcomerWait, about, channels, overrides, roles, members, bans, mutes)
    }

    ghost function Now(): GroupState
      reads this
    {
      GroupState(id, seqNo, cutoff, namedOwner, invites, CoreNow(), Trace(joined, applied, silences))
    }

    constructor (group: PublicKey)
      ensures Now() == GroupState(group, 0, 0, None, map[],
                                  Core(None, "", false, 0, "", [], [], map[], map[], {}, map[]), Trace(map[], {}, []))
    {
      id, seqNo, cutoff := group, 0, 0;
      name, public, newcomerWait, about := "", false, 0, "";
      joined, owner, namedOwner := map[], None, None;
      channels, overrides, roles, members, invites := [], [], map[], map[], map[];
      applied, bans, mutes, silences := {}, {}, map[], [];
    }

    /** `clone`. */
    constructor Clone(that: GroupObject)
      ensures Now() == that.Now()
    {
      id, seqNo, cutoff := that.id, that.seqNo, that.cutoff;
      name, public, newcomerWait, about := that.name, that.public, that.newcomerWait, that.about;
      joined, owner, namedOwner := that.joined, that.owner, that.namedOwner;
      channels, overrides, roles, members, invites := that.channels, that.overrides, that.roles, that.members, that.invites;
      applied, bans, mutes, silences := that.applied, that.bans, that.mutes, that.silences;
    }

    /** `*self = that`, for the fields edits touch: the rest of `that` is equal already. */
    method Assign(that: GroupObject)
      requires that != this
      modifies this`owner, this`name, this`public, this`newcomerWait, this`about, this`channels
      modifies this`overrides, this`roles, this`members, this`bans, this`mutes
      ensures CoreNow() == that.CoreNow()
    {
      TakeMetadata(that.name, that.public, that.newcomerWait, that.about, that.channels, that.overrides);
      owner, roles, members, bans, mutes := that.owner, that.roles, that.members, that.bans, that.mutes;
    }

    method TakeMetadata(name: string, public: bool, newcomerWait: Seconds, about: string,
                        channels: seq<Channel>, overrides: seq<Override>)
      modifies this`name, this`public, this`newcomerWait, this`about, this`channels, this`overrides
      ensures this.name == name && this.public == public && this.newcomerWait == newcomerWait
      ensures this.about == about && this.channels == channels && this.overrides == overrides
    {
      this.name, this.public, this.newcomerWait := name, public, newcomerWait;
      this.about, this.channels, this.overrides := about, channels, overrides;
    }

    // ---- the answers ----------------------------------------------------------

    method UnionOf(ids: set<string>) returns (perms: Bits)
      ensures perms == PermsOver(roles, ids)
    {
      perms := NONE;
      var todo := ids;
      while todo != {}
        invariant todo <= ids && perms == PermsOver(roles, ids - todo)
      {
        var r :| r in todo;
        PermsOverAdd(roles, ids - todo, r);
        assert ids - (todo - {r}) == ids - todo + {r};
        todo := todo - {r};
        if r in roles {
          perms := Union(perms, roles[r].perms);
        }
      }
      assert ids - todo == ids;
    }

    method BaseOfRoles(held: set<string>) returns (perms: Bits)
      ensures perms == BaseOf(roles, held)
    {
      perms := UnionOf(held + {DEFAULT_ROLE});
      perms := Sanitized(perms);
    }

    method BaseFor(p: PublicKey) returns (perms: Bits)
      ensures perms == Base(CoreNow(), p)
    {
      if owner == Some(p) {
        return ALL;
      }
      if p !in members {
        return NONE;
      }
      perms := BaseOfRoles(members[p]);
    }

    method EffectiveFor(p: PublicKey, channel: string) returns (perms: Bits)
      ensures perms == Effective(CoreNow(), p, channel)
    {
      if owner == Some(p) {
        return ALL;
      }
      if p !in members {
        return NONE;
      }
      var held := members[p];
      var base := BaseOfRoles(held);
      var allow, deny := NONE, NONE;
      for i := 0 to |overrides|
        invariant allow == Allowed(overrides[..i], held, channel)
        invariant deny == Denied(overrides[..i], held, channel)
      {
        assert overrides[..i + 1][..i] == overrides[..i];
        var o := overrides[i];
        if o.channel == channel && (o.role == DEFAULT_ROLE || o.role in held) {
          allow, deny := Union(allow, o.allow), Union(deny, o.deny);
        }
      }
      assert overrides[..|overrides|] == overrides;
      allow, deny := Intersection(allow, CHANNEL_SCOPED), Intersection(deny, CHANNEL_SCOPED);
      perms := Sanitized(Union(Without(base, deny), allow));
    }

    method RankFor(p: PublicKey) returns (rank: Position)
      ensures rank == Rank(CoreNow(), p)
    {
      rank := I64_MIN;
      if p in members {
        var held := members[p];
        var todo := held;
        while todo != {}
          invariant todo <= held
          invariant forall r :: r in held - todo && r in roles ==> roles[r].position <= rank
          invariant rank == I64_MIN || exists r :: r in held - todo && r in roles && roles[r].position == rank
        {
          var r :| r in todo;
          todo := todo - {r};
          if r in roles && roles[r].position > rank {
            rank := roles[r].position;
          }
        }
      }
    }

    method MayOutrank(actor: PublicKey, target: PublicKey) returns (yes: bool)
      ensures yes == Outranks(CoreNow(), actor, target)
    {
      if owner == Some(target) {
        return false;
      }
      if owner == Some(actor) {
        return true;
      }
      var a := RankFor(actor);
      var t := RankFor(target);
      yes := a > t;
    }

    method MayOutrankRole(actor: PublicKey, role: RoleDef) returns (yes: bool)
      ensures yes == OutranksRole(CoreNow(), actor, role)
    {
      if owner == Some(actor) {
        return true;
      }
      var a := RankFor(actor);
      yes := a > role.position;
    }

    method MayGrant(actor: PublicKey, granting: Bits) returns (yes: bool)
      ensures yes == CanGrant(CoreNow(), actor, granting)
    {
      var base := BaseFor(actor);
      yes := Beyond(granting, base) == NONE;
    }

    method Require(p: PublicKey, needed: Bits) returns (r: Result<Unit, Refusal>)
      ensures r == if Holds(CoreNow(), p, needed) then Ok(Unit) else Err(Lacks(needed))
    {
      var base := BaseFor(p);
      r := if Contains(base, needed) then Ok(Unit) else Err(Lacks(needed));
    }

    // ---- spans ------------------------------------------------------------------

    method AddSilence(who: PublicKey, from: Timestamp, until: Option<Timestamp>, mute: bool)
      modifies this`silences
      ensures silences == old(silences) + [Silence(who, from, until, mute)]
    {
      silences := silences + [Silence(who, from, until, mute)];
    }

    method EndRemovals(who: PublicKey, at: Timestamp)
      modifies this`silences
      ensures silences == LetBackIn(old(silences), who, at)
    {
      for i := 0 to |silences|
        invariant |silences| == |old(silences)|
        invariant forall j :: 0 <= j < i ==> silences[j] == LetBackIn(old(silences), who, at)[j]
        invariant forall j :: i <= j < |silences| ==> silences[j] == old(silences)[j]
      {
        var s := silences[i];
        if s.who == who && !s.mute && s.until.None? {
          silences := silences[i := s.(until := Some(at))];
        }
      }
    }

    method EndMutes(who: PublicKey, at: Timestamp)
      modifies this`silences
      ensures silences == CutMutes(old(silences), who, at)
    {
      for i := 0 to |silences|
        invariant |silences| == |old(silences)|
        invariant forall j :: 0 <= j < i ==> silences[j] == CutMutes(old(silences), who, at)[j]
        invariant forall j :: i <= j < |silences| ==> silences[j] == old(silences)[j]
      {
        var s := silences[i];
        if s.who == who && s.mute && s.Covers(at) {
          silences := silences[i := s.(until := Some(at))];
        }
      }
    }

    // ---- edits ------------------------------------------------------------------

    method KeepChannel(ch: Channel)
      modifies this`channels
      ensures channels == PutChannel(old(channels), ch)
    {
      var i := 0;
      while i < |channels| && channels[i].id != ch.id
        invariant i <= |channels|
        invariant PutChannel(channels, ch) == channels[..i] + PutChannel(channels[i..], ch)
      {
        assert channels[i..][1..] == channels[i + 1..];
        assert channels[..i + 1] == channels[..i] + [channels[i]];
        i := i + 1;
      }
      if i < |channels| {
        assert channels[i..][1..] == channels[i + 1..];
        assert channels[i := ch] == channels[..i] + ([ch] + channels[i + 1..]);
        channels := channels[i := ch];
      } else {
        assert channels[i..] == [] && channels[..i] == channels;
        channels := channels + [ch];
      }
    }

    method ForgetRole(role: string)
      modifies this`members
      ensures members == StripRole(old(members), role)
    {
      var todo := members.Keys;
      while todo != {}
        invariant todo <= old(members).Keys == members.Keys
        invariant forall p :: p in members ==>
                    members[p] == if p in todo then old(members)[p] else old(members)[p] - {role}
      {
        var p :| p in todo;
        members := members[p := members[p] - {role}];
        todo := todo - {p};
      }
    }

    /** One edit, checked against `before`, applied to `this`. */
    method Edit(before: GroupObject, actor: PublicKey, e: Edit) returns (r: Result<Unit, Refusal>)
      requires before != this
      modifies this`name, this`public, this`newcomerWait, this`about, this`channels, this`overrides, this`roles, this`members
      ensures
        match EditOne(before.CoreNow(), old(CoreNow()), actor, e)
        case Ok(c) => r == Ok(Unit) && CoreNow() == c
        case Err(why) => r == Err(why) && CoreNow() == old(CoreNow())
    {
      hide EditOverrideOne, EditRoleOne, EditRoleDeleteOne, GoodLabel, Trim, Holds, HasChannel, PutChannel, DropChannel, DropOverrides;
      match e {
        case EditOverride(o) =>
          r := EditAnOverride(before, actor, o);
        case EditRole(role) =>
          r := EditARole(before, actor, role);
        case EditRoleDelete(roleId) =>
          r := DeleteRole(before, actor, roleId);
        case EditChannel(ch) =>
          r := before.Require(actor, MANAGE_CHANNELS);
          if r.Err? { return; }
          if !GoodLabel(ch.id) || !GoodLabel(ch.name) || ch.slowmode > MAX_SLOWMODE { return Err(BadEdit); }
          KeepChannel(ch);
        case EditChannelDelete(channelId) =>
          r := before.Require(actor, MANAGE_CHANNELS);
          if r.Err? { return; }
          if !HasChannel(channels, channelId) { return Err(NoSuchChannel); }
          channels := DropChannel(channels, channelId);
          overrides := DropOverrides(overrides, Some(channelId), None);
        case _ =>
          r := EditSettings(before, actor, e);
      }
    }

    /** The edits of one setting. */
    method EditSettings(before: GroupObject, actor: PublicKey, e: Edit) returns (r: Result<Unit, Refusal>)
      requires before != this && (e.EditName? || e.EditPublic? || e.EditNewcomerWait? || e.EditAbout?)
      modifies this`name, this`public, this`newcomerWait, this`about
      ensures
        match EditOne(before.CoreNow(), old(CoreNow()), actor, e)
        case Ok(c) => r == Ok(Unit) && CoreNow() == c
        case Err(why) => r == Err(why) && CoreNow() == old(CoreNow())
    {
      hide Trim, Holds;
      match e {
        case EditName(n) =>
          r := before.Require(actor, MANAGE_GROUP);
          if r.Err? { return; }
          if !GoodLabel(n) { return Err(BadEdit); }
          name := Trim(n);
        case EditPublic(open) =>
          if before.owner != Some(actor) { return Err(NotTheOwner); }
          r := Ok(Unit);
          public := open;
        case EditNewcomerWait(secs) =>
          r := before.Require(actor, MANAGE_CHANNELS);
          if r.Err? { return; }
          if secs > MAX_NEWCOMER_WAIT { return Err(BadEdit); }
          newcomerWait := secs;
        case EditAbout(a) =>
          r := before.Require(actor, MANAGE_GROUP);
          if r.Err? { return; }
          if |Trim(a)| > MAX_ABOUT { return Err(BadEdit); }
          about := Trim(a);
      }
    }

    method DeleteRole(before: GroupObject, actor: PublicKey, roleId: string) returns (r: Result<Unit, Refusal>)
      requires before != this
      modifies this`roles, this`members, this`overrides
      ensures
        match EditRoleDeleteOne(before.CoreNow(), old(CoreNow()), actor, roleId)
        case Ok(c) => r == Ok(Unit) && CoreNow() == c
        case Err(why) => r == Err(why) && CoreNow() == old(CoreNow())
    {
      hide Holds, OutranksRole, DropOverrides;
      r := before.Require(actor, MANAGE_ROLES);
      if r.Err? { return; }
      if roleId == DEFAULT_ROLE { return Err(BadEdit); }
      if roleId !in before.roles { return Err(UnknownRole); }
      var outranks := before.MayOutrankRole(actor, before.roles[roleId]);
      if !outranks { return Err(Outranked); }
      roles := roles - {roleId};
      ForgetRole(roleId);
      overrides := DropOverrides(overrides, None, Some(roleId));
    }

    method EditAnOverride(before: GroupObject, actor: PublicKey, o: Override) returns (r: Result<Unit, Refusal>)
      requires before != this
      modifies this`overrides
      ensures
        match EditOverrideOne(before.CoreNow(), old(CoreNow()), actor, o)
        case Ok(c) => r == Ok(Unit) && CoreNow() == c
        case Err(why) => r == Err(why) && CoreNow() == old(CoreNow())
    {
      r := before.Require(actor, MANAGE_ROLES);
      if r.Err? { return; }
      if !HasChannel(channels, o.channel) { return Err(NoSuchChannel); }
      if o.role !in before.roles { return Err(UnknownRole); }
      var outranks := before.MayOutrankRole(actor, before.roles[o.role]);
      if !outranks { return Err(Outranked); }
      var scoped := o.(allow := Scoped(o.allow), deny := Scoped(o.deny));
      var effective := before.EffectiveFor(actor, o.channel);
      if Beyond(scoped.allow, effective) != NONE { return Err(CannotGrant); }
      overrides := DropOverrides(overrides, Some(o.channel), Some(o.role));
      if scoped.allow != NONE || scoped.deny != NONE {
        overrides := overrides + [scoped];
      }
    }

    method EditARole(before: GroupObject, actor: PublicKey, def: RoleDef) returns (r: Result<Unit, Refusal>)
      requires before != this
      modifies this`roles
      ensures
        match EditRoleOne(before.CoreNow(), old(CoreNow()), actor, def)
        case Ok(c) => r == Ok(Unit) && CoreNow() == c
        case Err(why) => r == Err(why) && CoreNow() == old(CoreNow())
    {
      r := before.Require(actor, MANAGE_ROLES);
      if r.Err? { return; }
      if !GoodLabel(def.id) || !GoodLabel(def.name) { return Err(BadEdit); }
      if def.id == OWNER_MARK { return Err(BadEdit); }
      var role := def.(perms := Sanitized(def.perms));
      if role.id == DEFAULT_ROLE {
        if before.owner != Some(actor) { return Err(NotTheOwner); }
        if role.position != 0 { return Err(BadEdit); }
      } else {
        if role.position <= 0 { return Err(BadEdit); }
        if role.id in before.roles {
          var outranksOld := before.MayOutrankRole(actor, before.roles[role.id]);
          if !outranksOld { return Err(Outranked); }
        }
        var outranks := before.MayOutrankRole(actor, role);
        if !outranks { return Err(Outranked); }
      }
      var may := before.MayGrant(actor, role.perms);
      if !may { return Err(CannotGrant); }
      roles := roles[role.id := role];
    }

    /** A batch: judged by the state before it, applied whole or not at all. */
    method EditBatch(actor: PublicKey, edits: seq<Edit>) returns (r: Result<Unit, Refusal>)
      modifies this`owner, this`name, this`public, this`newcomerWait, this`about, this`channels
      modifies this`overrides, this`roles, this`members, this`bans, this`mutes
      ensures
        match EditAll(old(CoreNow()), old(CoreNow()), actor, edits)
        case Ok(c) => r == Ok(Unit) && CoreNow() == c
        case Err(why) => r == Err(why) && CoreNow() == old(CoreNow())
    {
      hide EditOne;
      var before := new GroupObject.Clone(this);
      var next := new GroupObject.Clone(this);
      ghost var start := CoreNow();
      for i := 0 to |edits|
        invariant CoreNow() == start && before.CoreNow() == start
        invariant EditAll(start, start, actor, edits[..i]) == Ok(next.CoreNow())
      {
        assert edits[..i + 1][..i] == edits[..i];
        r := next.Edit(before, actor, edits[i]);
        if r.Err? {
          EditAllStops(start, actor, edits, i + 1);
          return;
        }
      }
      assert edits[..|edits|] == edits;
      Assign(next);
      r := Ok(Unit);
    }

    // ---- one action --------------------------------------------------------------

    /** The roles a put changes, all below the actor, and the bits it adds. */
    method GrantOf(actor: PublicKey, wanted: set<string>, held: set<string>) returns (r: Result<Bits, Refusal>)
      ensures
        var changed := (wanted - held) + (held - wanted);
        && (r.Ok? <==> changed <= roles.Keys && forall q :: q in changed ==> OutranksRole(CoreNow(), actor, roles[q]))
        && (r.Ok? ==> r.value == PermsOver(roles, wanted - held))
        && (r.Err? ==> r.error == UnknownRole || r.error == Outranked)
        && (r == Err(UnknownRole) ==> !(changed <= roles.Keys))
        && (r == Err(Outranked) ==> exists q :: q in changed && q in roles && !OutranksRole(CoreNow(), actor, roles[q]))
    {
      var changed := (wanted - held) + (held - wanted);
      var todo := changed;
      var granting := NONE;
      while todo != {}
        invariant todo <= changed && changed - todo <= roles.Keys
        invariant forall q :: q in changed - todo ==> OutranksRole(CoreNow(), actor, roles[q])
        invariant granting == PermsOver(roles, (wanted - held) - todo)
      {
        var q :| q in todo;
        if q !in roles { return Err(UnknownRole); }
        var outranks := MayOutrankRole(actor, roles[q]);
        if !outranks { return Err(Outranked); }
        if q in wanted {
          PermsOverAdd(roles, (wanted - held) - todo, q);
          granting := Union(granting, roles[q].perms);
          assert (wanted - held) - (todo - {q}) == (wanted - held) - todo + {q};
        } else {
          assert (wanted - held) - (todo - {q}) == (wanted - held) - todo;
        }
        todo := todo - {q};
      }
      assert changed - todo == changed && (wanted - held) - todo == wanted - held;
      r := Ok(granting);
    }

    /** May `actor` turn the roles `held` by `target` into `wanted`? */
    method MayChange(actor: PublicKey, target: PublicKey, wanted: set<string>, held: set<string>, present: bool)
      returns (r: Result<Unit, Refusal>)
      ensures
        var c := CoreNow();
        var changed := (wanted - held) + (held - wanted);
        if !Holds(c, actor, MANAGE_ROLES) then r == Err(Lacks(MANAGE_ROLES))
        else if present && !Outranks(c, actor, target) then r == Err(Outranked)
        else if !(changed <= roles.Keys) then
          || r == Err(UnknownRole)
          || (r == Err(Outranked) && exists q :: q in changed && q in roles && !OutranksRole(c, actor, roles[q]))
        else if exists q :: q in changed && !OutranksRole(c, actor, roles[q]) then r == Err(Outranked)
        else if !CanGrant(c, actor, PermsOver(roles, wanted - held)) then r == Err(CannotGrant)
        else r == Ok(Unit)
    {
      hide Holds, Outranks, OutranksRole, CanGrant;
      r := Require(actor, MANAGE_ROLES);
      if r.Err? { return; }
      if present {
        var outranks := MayOutrank(actor, target);
        if !outranks { return Err(Outranked); }
      }
      var grant := GrantOf(actor, wanted, held);
      if grant.Err? { return Err(grant.error); }
      var may := MayGrant(actor, grant.value);
      if !may { return Err(CannotGrant); }
    }

    method ApplyPut(actor: PublicKey, target: PublicKey, named: set<string>, at: Timestamp) returns (r: Result<Unit, Refusal>)
      modifies this`members, this`silences
      ensures
        match JudgePut(old(CoreNow()), actor, target, named)
        case Ok(c) =>
          && r == Ok(Unit) && CoreNow() == c
          && silences == if target in old(members) then old(silences) else LetBackIn(old(silences), target, at)
        case Err(why) =>
          && (r == Err(why) || (r == Err(Outranked) && why == UnknownRole && !HeldKnown(old(CoreNow()))))
          && CoreNow() == old(CoreNow()) && silences == old(silences)
    {
      hide Holds, Outranks, OutranksRole, CanGrant, LetBackIn, PermsOver;
      if actor !in members { return Err(NotAMember); }
      if owner == Some(target) { return Err(TheOwner); }
      var wanted := named - {DEFAULT_ROLE};
      if OWNER_MARK in wanted || !(wanted <= roles.Keys) { return Err(UnknownRole); }
      var present := target in members;
      if !present {
        if target in bans { return Err(Banned); }
        r := Require(actor, CREATE_INVITE);
        if r.Err? { return; }
      }
      var held := if present then members[target] else {};
      if wanted != held {
        r := MayChange(actor, target, wanted, held, present);
        if r.Err? { return; }
      }
      if !present {
        EndRemovals(target, at);
      }
      members := members[target := wanted];
      r := Ok(Unit);
    }

    method ApplyRemove(actor: PublicKey, target: PublicKey, ban: bool, at: Timestamp) returns (r: Result<Unit, Refusal>)
      modifies this`members, this`mutes, this`joined, this`silences, this`bans
      ensures
        match JudgeRemove(old(CoreNow()), actor, target, ban)
        case Ok(c) =>
          && r == Ok(Unit) && CoreNow() == c
          && silences == old(silences) + [Silence(target, at, None, false)]
          && joined == if target in old(members) then old(joined) - {target} else old(joined)
        case Err(why) =>
          r == Err(why) && CoreNow() == old(CoreNow()) && silences == old(silences) && joined == old(joined)
    {
      hide Holds, Outranks;
      if actor !in members { return Err(NotAMember); }
      if owner == Some(target) { return Err(TheOwner); }
      var member := target in members;
      if !member && !ban { return Err(NotAMember); }
      r := Require(actor, if ban then BAN_MEMBERS else KICK_MEMBERS);
      if r.Err? { return; }
      var outranks := MayOutrank(actor, target);
      if !outranks { return Err(Outranked); }
      TakeOut(target, ban);
      if member || ban {
        AddSilence(target, at, None, false);
      }
    }

    /** Forgets `target` as a member, and bans them if asked. */
    method TakeOut(target: PublicKey, ban: bool)
      modifies this`members, this`mutes, this`joined, this`bans
      ensures members == old(members) - {target}
      ensures mutes == if target in old(members) then old(mutes) - {target} else old(mutes)
      ensures joined == if target in old(members) then old(joined) - {target} else old(joined)
      ensures bans == if ban then old(bans) + {target} else old(bans)
    {
      if target in members {
        members := members - {target};
        mutes := mutes - {target};
        joined := joined - {target};
      }
      if ban {
        bans := bans + {target};
      }
    }

    method ApplyMute(actor: PublicKey, target: PublicKey, until: Option<Timestamp>, at: Timestamp) returns (r: Result<Unit, Refusal>)
      modifies this`mutes, this`silences
      ensures
        && (match JudgeMute(old(CoreNow()), actor, target, until, at)
            case Ok(c) => r == Ok(Unit) && CoreNow() == c
            case Err(why) => r == Err(why) && CoreNow() == old(CoreNow()))
        && silences == NextSilences(old(CoreNow()), r.Ok?, old(silences), actor, at, Mute(target, until))
    {
      if actor !in members { return Err(NotAMember); }
      if owner == Some(target) { return Err(TheOwner); }
      if target !in members { return Err(NotAMember); }
      r := Require(actor, MUTE_MEMBERS);
      if r.Err? { return; }
      var outranks := MayOutrank(actor, target);
      if !outranks { return Err(Outranked); }
      EndMutes(target, at);
      if until.Some? {
        if until.value <= at { return Err(Malformed); }
        mutes := mutes[target := until.value];
        AddSilence(target, at, until, true);
      } else {
        if target !in mutes { return Err(NotMuted); }
        mutes := mutes - {target};
      }
    }

    /** Does a stored invite under `code` let its bearer in? */
    method HasInvite(code: string, at: Timestamp) returns (yes: bool)
      ensures yes == Honoured(CoreNow(), invites, Some(code), at)
    {
      if code !in invites {
        return false;
      }
      var offers := invites[code];
      for i := 0 to |offers|
        invariant forall j :: 0 <= j < i ==>
                    !(offers[j].at <= at && (offers[j].expires.None? || at <= offers[j].expires.value)
                      && Holds(CoreNow(), offers[j].author, CREATE_INVITE))
      {
        var o := offers[i];
        if o.at <= at && (o.expires.None? || at <= o.expires.value) {
          var base := BaseFor(o.author);
          if Contains(base, CREATE_INVITE) {
            assert o in invites[code];
            return true;
          }
        }
      }
      yes := false;
    }

    method ApplyJoin(actor: PublicKey, code: Option<string>, at: Timestamp) returns (r: Result<Unit, Refusal>)
      modifies this`members, this`silences, this`joined
      ensures
        match JudgeJoin(old(CoreNow()), invites, actor, code, at)
        case Ok(c) =>
          && r == Ok(Unit) && CoreNow() == c
          && silences == LetBackIn(old(silences), actor, at) && joined == old(joined)[actor := at]
        case Err(why) =>
          r == Err(why) && CoreNow() == old(CoreNow()) && silences == old(silences) && joined == old(joined)
    {
      if actor in members { return Err(AlreadyAMember); }
      var honoured := public;
      if code.Some? {
        honoured := HasInvite(code.value, at);
      }
      if !honoured { return Err(NoSuchInvite); }
      if actor in bans { return Err(Banned); }
      EndRemovals(actor, at);
      members := members[actor := {}];
      joined := joined[actor := at];
      r := Ok(Unit);
    }

    method ApplyUnban(actor: PublicKey, target: PublicKey) returns (r: Result<Unit, Refusal>)
      modifies this`bans
      ensures
        match JudgeUnban(old(CoreNow()), actor, target)
        case Ok(c) => r == Ok(Unit) && CoreNow() == c
        case Err(why) => r == Err(why) && CoreNow() == old(CoreNow())
    {
      if actor !in members { return Err(NotAMember); }
      r := Require(actor, BAN_MEMBERS);
      if r.Err? { return; }
      if target !in bans { return Err(NotBanned); }
      bans := bans - {target};
    }

    method ApplyLeave(actor: PublicKey, at: Timestamp) returns (r: Result<Unit, Refusal>)
      modifies this`members, this`mutes, this`joined, this`silences
      ensures
        match JudgeLeave(old(CoreNow()), actor)
        case Ok(c) =>
          && r == Ok(Unit) && CoreNow() == c
          && silences == old(silences) + [Silence(actor, at, None, false)] && joined == old(joined) - {actor}
        case Err(why) =>
          r == Err(why) && CoreNow() == old(CoreNow()) && silences == old(silences) && joined == old(joined)
    {
      if owner == Some(actor) { return Err(TheOwner); }
      if actor !in members { return Err(NotAMember); }
      members := members - {actor};
      mutes := mutes - {actor};
      joined := joined - {actor};
      AddSilence(actor, at, None, false);
      r := Ok(Unit);
    }

    /** One action: judged, and carried out if the judgement allows; recording it is left to `Attempt`. */
    method Apply(ev: Event) returns (r: Result<Unit, Refusal>)
      modifies this`owner, this`name, this`public, this`newcomerWait, this`about, this`channels
      modifies this`overrides, this`roles, this`members, this`bans, this`mutes, this`joined, this`silences
      ensures
        match Judge(old(CoreNow()), invites, ev)
        case Ok(c) => r == Ok(Unit) && CoreNow() == c
        case Err(why) =>
          && (r == Err(why) || (r == Err(Outranked) && why == UnknownRole && !HeldKnown(old(CoreNow()))))
          && CoreNow() == old(CoreNow())
      ensures
        NextTrace(old(CoreNow()), r.Ok?, Trace(old(joined), applied, old(silences)), ev)
        == Trace(joined, if r.Ok? then applied + {ev.id} else applied, silences)
    {
      hide JudgePut, JudgeRemove, JudgeJoin, JudgeMute, JudgeLeave, JudgeUnban, MayMute, EditAll, LetBackIn, CutMutes, HeldKnown;
      var parsed := ActionOf(ev);
      if parsed.None? { return Err(Malformed); }
      var actor := ev.author;
      match parsed.value {
        case Put(target, named) =>
          r := ApplyPut(actor, target, named, ev.at);
        case Remove(target, ban) =>
          r := ApplyRemove(actor, target, ban, ev.at);
        case Unban(target) =>
          r := ApplyUnban(actor, target);
        case Mute(target, until) =>
          r := ApplyMute(actor, target, until, ev.at);
        case EditGroup(edits) =>
          if actor !in members { return Err(NotAMember); }
          r := EditBatch(actor, edits);
        case Join(code) =>
          r := ApplyJoin(actor, code, ev.at);
        case Leave =>
          r := ApplyLeave(actor, ev.at);
        case Invite(_, _) =>
          r := Err(Malformed);
      }
    }

    /** What `retain` does with one event: try it, and record it if it applied. */
    method Attempt(ev: Event) returns (applies: bool)
      modifies this
      ensures Now() == Step(old(Now()), ev) && applies == !Refuses(old(Now()), ev)
    {
      hide Judge, NextTrace, HeldKnown;
      var r := Apply(ev);
      if r.Ok? {
        applied := applied + {ev.id};
      }
      applies := r.Ok?;
    }

    /** One second: pass after pass over what is pending, ended by a pass that takes nothing. */
    method ApplySecond(events: seq<Event>)
      modifies this
      ensures Now() == Second(old(Now()), events).state
    {
      hide Step, Refuses, Now;
      var pending := events;
      while true
        invariant Second(Now(), pending).state == Second(old(Now()), events).state
        decreases |pending|
      {
        ghost var start := Now();
        var kept: seq<Event> := [];
        for i := 0 to |pending|
          invariant Progress(Now(), kept) == Pass(start, pending[..i])
        {
          assert pending[..i + 1][..i] == pending[..i];
          var applies := Attempt(pending[i]);
          if !applies {
            kept := kept + [pending[i]];
          }
        }
        assert pending[..|pending|] == pending;
        if |kept| == |pending| || kept == [] {
          return;
        }
        pending := kept;
      }
    }

    // ---- the fold ------------------------------------------------------------------

    /** Tries the live actions second by second. */
    method ApplyAll(live: seq<Event>)
      modifies this
      ensures Now() == RunAll(old(Now()), live)
    {
      hide RunAll, Second, Now;
      var second: seq<Event> := [];
      assert second + live[0..] == live;
      for i := 0 to |live|
        invariant RunAll(old(Now()), live) == RunAll(Now(), second + live[i..])
        invariant forall j :: 0 <= j < |second| ==> second[j].at == second[0].at
      {
        var ev := live[i];
        assert live[i..] == [ev] + live[i + 1..];
        if second != [] && second[0].at != ev.at {
          RunSplitsSecond(Now(), second, live[i..]);
          ApplySecond(second);
          second := [];
          assert second + live[i..] == live[i..];
        }
        assert second + live[i..] == (second + [ev]) + live[i + 1..];
        second := second + [ev];
      }
      assert second + live[|live|..] == second + [];
      RunSplitsSecond(Now(), second, []);
      ApplySecond(second);
      RunNothing(Now());
    }

    /** The silences of the mutes the snapshot carries for `keys`, in that order. */
    method SilenceMuted(keys: seq<PublicKey>)
      requires forall p :: p in keys ==> p in mutes
      modifies this`silences
      ensures silences == InitialSilences(keys, mutes, cutoff)
    {
      silences := [];
      for i := 0 to |keys|
        invariant silences == InitialSilences(keys[..i], mutes, cutoff)
      {
        var p := keys[i];
        assert keys[..i + 1][..i] == keys[..i];
        if mutes[p] > cutoff {
          silences := silences + [Silence(p, cutoff, Some(mutes[p]), true)];
        }
      }
      assert keys[..|keys|] == keys;
    }

    /** Fills the fields from the four pieces. */
    method TakeSnapshot(p: Pieces, creators: set<PublicKey>)
      requires GoodPieces(p) && owner == None
      modifies this`seqNo, this`cutoff, this`namedOwner, this`silences
      modifies this`owner, this`name, this`public, this`newcomerWait, this`about, this`channels
      modifies this`overrides, this`roles, this`members, this`bans, this`mutes
      ensures CoreNow() == InitialCore(p, creators)
      ensures seqNo == SeqOf(p) && cutoff == CutoffOf(p) && namedOwner == p.admins.body.piece.owner
      ensures silences == InitialSilences(Ascending(mutes.Keys), mutes, cutoff)
    {
      hide InitialSilences, Ascending, SeqOf, CutoffOf;
      var meta := p.metadata.body.piece;
      TakeMetadata(meta.name, meta.public, meta.newcomerWait, meta.about, meta.channels, meta.overrides);
      seqNo, cutoff, namedOwner := SeqOf(p), CutoffOf(p), p.admins.body.piece.owner;
      TakePeople(p, creators);
      SilenceMuted(Ascending(mutes.Keys));
    }

    method TakePeople(p: Pieces, creators: set<PublicKey>)
      requires GoodPieces(p) && owner == None && namedOwner == p.admins.body.piece.owner
      modifies this`owner, this`roles, this`members, this`bans, this`mutes
      ensures
        var c := InitialCore(p, creators);
        owner == c.owner && roles == c.roles && members == c.members && bans == c.bans && mutes == c.mutes
    {
      hide RoleTable, WithDefaultRole, InitialMembers;
      TakeRoles(p.roles.body.piece.roles);
      if namedOwner.Some? && namedOwner.value in creators {
        owner := namedOwner;
      }
      TakeMembers(p.members.body.piece.members, p.admins.body.piece.assignments);
      bans, mutes := p.members.body.piece.bans, p.members.body.piece.mutes;
    }

    method TakeRoles(defs: seq<RoleDef>)
      modifies this`roles
      ensures roles == WithDefaultRole(RoleTable(defs))
    {
      roles := map[];
      for i := 0 to |defs|
        invariant roles == RoleTable(defs[..i])
      {
        assert defs[..i + 1][..i] == defs[..i];
        if defs[i].id != OWNER_MARK {
          roles := roles[defs[i].id := defs[i].(perms := Sanitized(defs[i].perms))];
        }
      }
      assert defs[..|defs|] == defs;
      if DEFAULT_ROLE !in roles {
        roles := roles[DEFAULT_ROLE := DEFAULT_ROLE_DEF];
      }
    }

    method TakeMembers(people: set<PublicKey>, assignments: map<PublicKey, set<string>>)
      modifies this`members
      ensures members == InitialMembers(owner, people, assignments, roles)
    {
      members := map p | p in people :: {};
      var todo := assignments.Keys;
      while todo != {}
        invariant todo <= assignments.Keys && members.Keys == people
        invariant forall p :: p in people ==>
                    members[p] == if p in assignments && p !in todo then KnownRoles(roles, assignments[p]) else {}
      {
        var p :| p in todo;
        if p in members {
          members := members[p := KnownRoles(roles, assignments[p])];
        }
        todo := todo - {p};
      }
      assert members == map p | p in people :: if p in assignments then KnownRoles(roles, assignments[p]) else {};
      if owner.Some? {
        members := members[owner.value := {}];
      }
    }

    method TakeInvites(actions: seq<Event>)
      modifies this`invites
      ensures invites == InvitesOf(actions)
    {
      invites := map[];
      for i := 0 to |actions|
        invariant invites == InvitesOf(actions[..i])
      {
        assert actions[..i + 1][..i] == actions[..i];
        var e := actions[i];
        var a := ActionOf(e);
        if IsInvite(e) && a.Some? && a.value.Invite? {
          var code := a.value.code;
          invites := invites[code := (if code in invites then invites[code] else [])
                                     + [InviteEntry(e.author, e.at, a.value.expires)]];
        }
      }
      assert actions[..|actions|] == actions;
    }
  }

  lemma {:induction false} PermsOverAdd(roles: map<string, RoleDef>, ids: set<string>, r: string)
    ensures PermsOver(roles, ids + {r}) == Union(PermsOver(roles, ids), if r in roles then roles[r].perms else NONE)
  {
    hide Within, Union;
    var mine := if r in roles then roles[r].perms else NONE;
    var part, all := PermsOver(roles, ids), PermsOver(roles, ids + {r});
    PermsOverIsJoin(roles, ids);
    PermsOverIsJoin(roles, ids + {r});
    UnionIsJoin(part, mine);
    EmptyWithin();
    assert RolesWithin(roles, ids, all);
    forall q | q in ids + {r} && q in roles ensures Within(roles[q].perms, Union(part, mine)) {
      if q != r {
        WithinTransitive(roles[q].perms, part, Union(part, mine));
      }
    }
    assert RolesWithin(roles, ids + {r}, Union(part, mine));
    WithinAntisymmetric(all, Union(part, mine));
  }

  lemma RunNothing(s: GroupState)
    ensures RunAll(s, []) == s
  {
  }

  lemma {:induction false} EditAllStops(c: Core, actor: PublicKey, edits: seq<Edit>, n: nat)
    requires n <= |edits| && EditAll(c, c, actor, edits[..n]).Err?
    ensures EditAll(c, c, actor, edits) == EditAll(c, c, actor, edits[..n])
    decreases |edits|
  {
    hide EditOne;
    if n == |edits| {
      assert edits[..n] == edits;
    } else {
      var last := |edits| - 1;
      assert edits[..last][..n] == edits[..n];
      EditAllStops(c, actor, edits[..last], n);
    }
  }

  /** What the scan over the events collects. */
  datatype Scan = Scan(pieces: map<StateKind, Event>, creators: set<PublicKey>, actions: seq<Event>)

  ghost predicate Collected(s: Scan, group: PublicKey, events: seq<Event>) {
    && (forall kind :: Newest(group, kind, events) == if kind in s.pieces then Some(s.pieces[kind]) else None)
    && s.creators == Creators(group, events)
    && s.actions == Actions(group, events)
  }

  method ScanEvents(group: PublicKey, events: seq<Event>) returns (s: Scan)
    ensures Collected(s, group, events)
  {
    s := Scan(map[], {}, []);
    for i := 0 to |events|
      invariant Collected(s, group, events[..i])
    {
      var seen := events[..i + 1];
      assert seen[..i] == events[..i] && seen == events[..i] + [events[i]];
      var e := events[i];
      if e.group == Some(group) {
        if e.body.StateBody? && e.author == group {
          var kind := KindOf(e.body.piece);
          if kind !in s.pieces || Replaces(e, s.pieces[kind]) {
            s := s.(pieces := s.pieces[kind := e]);
          }
        } else if e.body.CreateGroup? {
          s := s.(creators := s.creators + {e.author});
        } else if e.body.ActionBody? {
          s := s.(actions := s.actions + [e]);
        }
      }
    }
    assert events[..|events|] == events;
  }

  lemma ScanPieces(s: Scan, group: PublicKey, events: seq<Event>)
    requires Collected(s, group, events)
    ensures s.creators == Creators(group, events) && s.actions == Actions(group, events)
    ensures
      PiecesOf(group, events) ==
      if MetadataKind in s.pieces && AdminsKind in s.pieces && MembersKind in s.pieces && RolesKind in s.pieces
      then Some(Pieces(s.pieces[MetadataKind], s.pieces[AdminsKind], s.pieces[MembersKind], s.pieces[RolesKind]))
      else None
  {
    hide Newest, Creators, Actions;
  }

  /** `GroupState::fold`. */
  method FoldGroup(group: PublicKey, events: seq<Event>) returns (g: GroupObject?)
    ensures g == null <==> FoldEvents(group, events).None?
    ensures g != null ==> fresh(g) && FoldEvents(group, events) == Some(g.Now())
  {
    hide PiecesOf, Collected, Initial, InitialCore, InitialSilences, Ascending, SeqOf, CutoffOf, Sort, InvitesOf, Live, RunAll, Actions, Creators, Newest, GroupObject.Now;
    var scan := ScanEvents(group, events);
    ScanPieces(scan, group, events);
    if MetadataKind !in scan.pieces || AdminsKind !in scan.pieces || MembersKind !in scan.pieces || RolesKind !in scan.pieces {
      return null;
    }
    var pieces := Pieces(scan.pieces[MetadataKind], scan.pieces[AdminsKind], scan.pieces[MembersKind], scan.pieces[RolesKind]);
    var actions := Sort(scan.actions);
    g := Started(group, pieces, scan.creators, actions);
    g.ApplyAll(Live(g.cutoff, actions));
  }

  /** The group a snapshot and its creators say, knowing every invite. */
  method Started(group: PublicKey, p: Pieces, creators: set<PublicKey>, actions: seq<Event>) returns (g: GroupObject)
    requires GoodPieces(p)
    ensures fresh(g) && g.Now() == Initial(group, p, creators, InvitesOf(actions)) && g.cutoff == CutoffOf(p)
  {
    hide Initial, InitialCore, InitialSilences, Ascending, SeqOf, CutoffOf, InvitesOf;
    g := new GroupObject(group);
    g.TakeSnapshot(p, creators);
    g.TakeInvites(actions);
    InitialIs(group, p, creators, g.invites);
  }

  lemma InitialIs(group: PublicKey, p: Pieces, creators: set<PublicKey>, invites: Invites)
    requires GoodPieces(p)
    ensures
      var c := InitialCore(p, creators);
      Initial(group, p, creators, invites)
      == GroupState(group, SeqOf(p), CutoffOf(p), p.admins.body.piece.owner, invites, c,
                    Trace(map[], {}, InitialSilences(Ascending(c.mutes.Keys), c.mutes, CutoffOf(p))))
  {
  }
}
