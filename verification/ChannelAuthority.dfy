/**
  What a coalition can reach inside a channel: its own ceiling, joined with what the channel
  allows the roles it can hand out.
 */
module ChannelAuthority {
  import opened Prelude
  import opened Perm
  import opened Group
  import opened State
  import opened Fold
  import opened Runs
  import opened Authority

  // Overrides can hand a role more in a channel than it has group-wide, and assigning a role checks
  // only its group-wide bits: see `PutEscalatesInChannel`.

  // ---- what the overrides of one channel allow -------------------------------

  predicate Applies(o: Override, held: set<string>, channel: string) {
    o.channel == channel && (o.role == DEFAULT_ROLE || o.role in held)
  }

  function AllowedThere(o: Override): Bits { Intersection(o.allow, CHANNEL_SCOPED) }

  lemma UnionScoped(a: Bits, b: Bits, k: Bits)
    ensures Within(Intersection(Union(a, b), CHANNEL_SCOPED), k) <==>
            Within(Intersection(a, CHANNEL_SCOPED), k) && Within(Intersection(b, CHANNEL_SCOPED), k)
  {
  }

  lemma NothingScoped(k: Bits)
    ensures Within(Intersection(NONE, CHANNEL_SCOPED), k)
  {
  }

  /** What a role set is allowed in a channel stays within `k` exactly when each override that applies does. */
  lemma {:induction false} AllowedWithin(overrides: seq<Override>, held: set<string>, channel: string, k: Bits)
    ensures Within(Intersection(Allowed(overrides, held, channel), CHANNEL_SCOPED), k) <==>
            forall o :: o in overrides && Applies(o, held, channel) ==> Within(AllowedThere(o), k)
  {
    hide Within, Intersection, Union;
    if overrides == [] {
      NothingScoped(k);
    } else {
      var last := |overrides| - 1;
      var front, o := overrides[..last], overrides[last];
      assert overrides == front + [o];
      AllowedWithin(front, held, channel, k);
      if Applies(o, held, channel) {
        UnionScoped(Allowed(front, held, channel), o.allow, k);
      }
    }
  }

  lemma MixWithin(base: Bits, deny: Bits, allow: Bits, k: Bits)
    requires Within(base, k)
    ensures Within(Sanitized(Union(Without(base, deny), Intersection(allow, CHANNEL_SCOPED))), k) <==>
            Within(Intersection(allow, CHANNEL_SCOPED), k)
  {
  }

  /** Somebody within `k` group-wide is within it in a channel exactly when its overrides allow them no more. */
  lemma {:induction false} EffectiveWithin(c: Core, p: PublicKey, channel: string, k: Bits)
    requires !IsOwner(c, p) && p in c.members && Within(Base(c, p), k)
    ensures Within(Effective(c, p, channel), k) <==>
            Within(Intersection(Allowed(c.overrides, c.members[p], channel), CHANNEL_SCOPED), k)
  {
    hide Within, Intersection, Union, Without, Sanitized, BaseOf, Denied;
    MixWithin(BaseOf(c.roles, c.members[p]),
              Intersection(Denied(c.overrides, c.members[p], channel), CHANNEL_SCOPED),
              Allowed(c.overrides, c.members[p], channel), k);
  }

  lemma {:induction false} AllowedIsEffective(c: Core, p: PublicKey, channel: string, o: Override)
    requires !IsOwner(c, p) && p in c.members && o in c.overrides && Applies(o, c.members[p], channel)
    ensures Within(AllowedThere(o), Effective(c, p, channel))
  {
    hide Within, Intersection, Union, Without, Sanitized, BaseOf, Denied;
    var allow := Allowed(c.overrides, c.members[p], channel);
    SelfWithin(Intersection(allow, CHANNEL_SCOPED));
    AllowedWithin(c.overrides, c.members[p], channel, Intersection(allow, CHANNEL_SCOPED));
    ScopedIsMixed(BaseOf(c.roles, c.members[p]),
                  Intersection(Denied(c.overrides, c.members[p], channel), CHANNEL_SCOPED), allow);
    WithinTransitive(AllowedThere(o), Intersection(allow, CHANNEL_SCOPED), Effective(c, p, channel));
  }

  lemma ScopedIsMixed(base: Bits, deny: Bits, allow: Bits)
    ensures Within(Intersection(allow, CHANNEL_SCOPED),
                   Sanitized(Union(Without(base, deny), Intersection(allow, CHANNEL_SCOPED))))
  {
  }

  // ---- one assignment -----------------------------------------------------------

  /**
    A `Put` by a coalition keeps its target within a ceiling in a channel exactly when what the
    channel's overrides allow the roles put is within it: something to look at before the `Put`.
   */
  lemma {:induction false} PutKeepsChannelExactly(c: Core, crew: set<PublicKey>, k: Bits, actor: PublicKey, target: PublicKey,
                                                  roles: set<string>, channel: string)
    requires Covers(c, crew, k) && OwnerOutside(c, crew) && actor in crew && JudgePut(c, actor, target, roles).Ok?
    ensures
      var d := JudgePut(c, actor, target, roles).value;
      var ceiling := Union(Base(c, target), k);
      Within(Effective(d, target, channel), ceiling) <==>
      Within(Intersection(Allowed(c.overrides, roles - {DEFAULT_ROLE}, channel), CHANNEL_SCOPED), ceiling)
  {
    hide Within, Intersection, Union, Covers, Capped, Outranks, OutranksRole, Holds, CanGrant, Effective, Allowed, HeldWithin, BaseOf;
    var d := JudgePut(c, actor, target, roles).value;
    CappedAtStart(c, crew, k);
    PutKeepsCap(c, c, crew, k, actor, target, roles);
    CappedBase(c, d, k, target);
    EffectiveWithin(d, target, channel, Union(Base(c, target), k));
  }

  lemma CappedBase(c0: Core, c: Core, k: Bits, p: PublicKey)
    requires Capped(c0, c, k) && p in c.members && !IsOwner(c, p)
    ensures Within(Base(c, p), Union(Base(c0, p), k))
  {
    hide Within, Union;
    BaseOfWithin(c, c.members[p], Union(Base(c0, p), k));
  }

  const MODERATOR := RoleDef("mod", "Moderator", MANAGE_ROLES, 5)
  const GUEST := RoleDef("vip", "Guest", NONE, 1)
  const PLAIN := RoleDef(DEFAULT_ROLE, DEFAULT_ROLE, NONE, 0)

  /** Somebody may hand out a role that has nothing group-wide and manages messages in one channel. */
  const LOUNGE := Core(None, "Group", false, 0, "", [Channel("x", "X", ChannelKind.Text, 0)],
                       [Override("x", "vip", MANAGE_MESSAGES, NONE)],
                       map["mod" := MODERATOR, "vip" := GUEST, DEFAULT_ROLE := PLAIN],
                       map[1 := {"mod"}, 2 := {}], {}, map[])

  lemma LoungeBases()
    ensures Base(LOUNGE, 1) == MANAGE_ROLES && Base(LOUNGE, 2) == NONE
  {
    hide Within, Sanitized;
    PermsOverIsJoin(LOUNGE.roles, {"mod", DEFAULT_ROLE});
    PermsOverIsJoin(LOUNGE.roles, {DEFAULT_ROLE});
    var mod, plain := PermsOver(LOUNGE.roles, {"mod", DEFAULT_ROLE}), PermsOver(LOUNGE.roles, {DEFAULT_ROLE});
    EmptyWithin();
    SelfWithin(MANAGE_ROLES);
    assert RolesWithin(LOUNGE.roles, {"mod", DEFAULT_ROLE}, MANAGE_ROLES);
    assert RolesWithin(LOUNGE.roles, {DEFAULT_ROLE}, NONE);
    SelfWithin(mod);
    assert LOUNGE.roles["mod"].perms == MANAGE_ROLES;
    WithinAntisymmetric(mod, MANAGE_ROLES);
    EmptyWithin();
    WithinAntisymmetric(plain, NONE);
    assert {"mod"} + {DEFAULT_ROLE} == {"mod", DEFAULT_ROLE} && {} + {DEFAULT_ROLE} == {DEFAULT_ROLE};
    SanitizedConstants();
  }

  lemma SanitizedConstants()
    ensures Sanitized(MANAGE_ROLES) == MANAGE_ROLES && Sanitized(NONE) == NONE
    ensures Contains(MANAGE_ROLES, MANAGE_ROLES) && Within(NONE, MANAGE_ROLES)
  {
  }

  lemma GuestIsNothing()
    ensures PermsOver(LOUNGE.roles, {"vip"}) == NONE
  {
    hide Within;
    PermsOverIsJoin(LOUNGE.roles, {"vip"});
    EmptyWithin();
    assert RolesWithin(LOUNGE.roles, {"vip"}, NONE);
    WithinAntisymmetric(PermsOver(LOUNGE.roles, {"vip"}), NONE);
  }

  /**
    Nobody manages messages, group-wide or in the channel; one allowed `Put` of a role that has
    no bits later, its target does in the channel. The ceiling that holds group-wide fails there.
   */
  lemma {:induction false} PutEscalatesInChannel()
    ensures forall q :: Within(Base(LOUNGE, q), MANAGE_ROLES) && Within(Effective(LOUNGE, q, "x"), MANAGE_ROLES)
    ensures Covers(LOUNGE, {1, 2}, MANAGE_ROLES) && OwnerOutside(LOUNGE, {1, 2})
    ensures JudgePut(LOUNGE, 1, 2, {"vip"}).Ok?
    ensures !Within(Effective(JudgePut(LOUNGE, 1, 2, {"vip"}).value, 2, "x"), MANAGE_ROLES)
  {
    hide Base, Effective, Within, Sanitized, PermsOver, Intersection, Allowed;
    LoungeBases();
    SanitizedConstants();
    LoungeIsQuiet();
    LoungePut();
    forall q ensures Within(Base(LOUNGE, q), MANAGE_ROLES) && Within(Effective(LOUNGE, q, "x"), MANAGE_ROLES) {
      OutsidersHoldNothing(q);
      SelfWithin(MANAGE_ROLES);
    }
    assert {"vip"} - {DEFAULT_ROLE} == {"vip"};
    LoungeAllows();
    PutKeepsChannelExactly(LOUNGE, {1, 2}, MANAGE_ROLES, 1, 2, {"vip"}, "x");
    NothingJoined(MANAGE_ROLES);
  }

  lemma NothingJoined(k: Bits)
    ensures Union(NONE, k) == k
  {
  }

  lemma LoungeAllows()
    ensures !Within(Intersection(Allowed(LOUNGE.overrides, {"vip"}, "x"), CHANNEL_SCOPED), MANAGE_ROLES)
  {
    AllowedWithin(LOUNGE.overrides, {"vip"}, "x", MANAGE_ROLES);
    assert Applies(LOUNGE.overrides[0], {"vip"}, "x");
  }

  lemma OutsidersHoldNothing(q: PublicKey)
    ensures q != 1 && q != 2 ==> Within(Base(LOUNGE, q), MANAGE_ROLES) && Within(Effective(LOUNGE, q, "x"), MANAGE_ROLES)
  {
  }

  lemma LoungeIsQuiet()
    ensures Within(Effective(LOUNGE, 1, "x"), MANAGE_ROLES) && Within(Effective(LOUNGE, 2, "x"), MANAGE_ROLES)
  {
    hide Within, Base, BaseOf, Effective, Allowed;
    LoungeBases();
    SanitizedConstants();
    SelfWithin(MANAGE_ROLES);
    AllowedWithin(LOUNGE.overrides, {"mod"}, "x", MANAGE_ROLES);
    AllowedWithin(LOUNGE.overrides, {}, "x", MANAGE_ROLES);
    EffectiveWithin(LOUNGE, 1, "x", MANAGE_ROLES);
    EffectiveWithin(LOUNGE, 2, "x", MANAGE_ROLES);
  }

  lemma LoungePut()
    ensures JudgePut(LOUNGE, 1, 2, {"vip"}).Ok?
    ensures JudgePut(LOUNGE, 1, 2, {"vip"}).value == LOUNGE.(members := LOUNGE.members[2 := {"vip"}])
  {
    hide Base, Within, PermsOver, Contains;
    LoungeBases();
    GuestIsNothing();
    SanitizedConstants();
    var wanted := {"vip"} - {DEFAULT_ROLE};
    assert wanted == {"vip"} && wanted - {} == {"vip"} && (wanted - {}) + ({} - wanted) == {"vip"};
    assert "mod" in LOUNGE.members[1] && LOUNGE.roles["mod"].position == 5;
    assert Rank(LOUNGE, 1) >= 5 && OutranksRole(LOUNGE, 1, GUEST);
    assert Rank(LOUNGE, 2) == I64_MIN && Outranks(LOUNGE, 1, 2);
  }

  // ---- any run -----------------------------------------------------------------------

  /** The roles a coalition of top rank `m` could hand out, now or once it has defined them. */
  predicate Handable(c0: Core, m: Position, role: string) {
    role == DEFAULT_ROLE || role !in c0.roles || c0.roles[role].position < m
  }

  /** Of the overrides of `channel`, those of roles the coalition can hand out allow no more than `k`. */
  ghost predicate HandsWithin(c0: Core, overrides: seq<Override>, m: Position, channel: string, k: Bits) {
    forall o :: o in overrides && o.channel == channel && Handable(c0, m, o.role) ==> Within(AllowedThere(o), k)
  }

  /** Out of the coalition's reach: overrides of other roles are old ones, and holders of those held them. */
  ghost predicate HighKept(c0: Core, c: Core, m: Position, channel: string) {
    && (forall o :: o in c.overrides && o.channel == channel && !Handable(c0, m, o.role) ==> o in c0.overrides)
    && (forall p, r :: p in c.members && r in c.members[p] && !Handable(c0, m, r) ==> p in c0.members && r in c0.members[p])
  }

  ghost predicate ChannelCapped(c0: Core, c: Core, m: Position, channel: string, k: Bits) {
    HandsWithin(c0, c.overrides, m, channel, k) && HighKept(c0, c, m, channel)
  }

  /** The coalition's start: its top rank, its ceiling group-wide and in the channel, and what it can hand out there. */
  ghost predicate ChannelSetting(c0: Core, crew: set<PublicKey>, k: Bits, m: Position, channel: string) {
    && Covers(c0, crew, k) && OwnerOutside(c0, crew)
    && (forall x :: x in crew ==> Rank(c0, x) <= m && Within(Effective(c0, x, channel), k))
    && HandsWithin(c0, c0.overrides, m, channel, k)
  }

  /** The invariants of a run, together. */
  ghost predicate Contained(c0: Core, c: Core, crew: set<PublicKey>, k: Bits, m: Position, channel: string) {
    Capped(c0, c, k) && Hierarchy(c0, c, crew, m) && ChannelCapped(c0, c, m, channel, k)
  }

  function ChannelCeiling(base: Bits, effective: Bits, k: Bits): Bits {
    Union(Union(base, effective), k)
  }

  lemma InCeiling(a: Bits, base: Bits, effective: Bits, k: Bits)
    ensures Within(a, Union(base, k)) || Within(a, effective) || Within(a, k) ==> Within(a, ChannelCeiling(base, effective, k))
  {
    hide Within, Union;
    if Within(a, base) || Within(a, effective) {
      WithinUnion(a, base, effective);
      WithinUnion(a, Union(base, effective), k);
    } else if Within(a, Union(base, k)) || Within(a, k) {
      UnionIsJoin(Union(base, effective), k);
      UnionIsJoin(base, effective);
      WithinTransitive(base, Union(base, effective), ChannelCeiling(base, effective, k));
      UnionIsJoin(base, k);
      WithinTransitive(a, Union(base, k), ChannelCeiling(base, effective, k));
      WithinTransitive(a, k, ChannelCeiling(base, effective, k));
    }
  }

  /** Under the invariants, nobody exceeds their start in the channel joined with `k`. */
  lemma {:induction false} ContainedEffective(c0: Core, c: Core, crew: set<PublicKey>, k: Bits, m: Position, channel: string, p: PublicKey)
    requires Contained(c0, c, crew, k, m, channel)
    ensures Within(Effective(c, p, channel), ChannelCeiling(Base(c0, p), Effective(c0, p, channel), k))
  {
    hide Within, Capped, Hierarchy, HandsWithin, ChannelCeiling, Base, Effective, AllowedThere, Allowed, Intersection;
    var bound := ChannelCeiling(Base(c0, p), Effective(c0, p, channel), k);
    OwnerKept(c0, c, k);
    if IsOwner(c, p) || p !in c.members {
      OwnerOrNobody(c0, c, crew, k, m, channel, p);
    } else {
      CappedBase(c0, c, k, p);
      InCeiling(Base(c, p), Base(c0, p), Effective(c0, p, channel), k);
      forall o | o in c.overrides && Applies(o, c.members[p], channel) ensures Within(AllowedThere(o), bound) {
        InCeiling(AllowedThere(o), Base(c0, p), Effective(c0, p, channel), k);
        if Handable(c0, m, o.role) {
          assert Within(AllowedThere(o), k) by { HandWithin(c0, c.overrides, m, channel, k, o); }
        } else {
          AllowedIsEffective(c0, p, channel, o);
        }
      }
      AllowedWithin(c.overrides, c.members[p], channel, bound);
      EffectiveWithin(c, p, channel, bound);
    }
  }

  lemma OwnerKept(c0: Core, c: Core, k: Bits)
    ensures Capped(c0, c, k) ==> c.owner == c0.owner
  {
  }

  lemma HandWithin(c0: Core, overrides: seq<Override>, m: Position, channel: string, k: Bits, o: Override)
    requires HandsWithin(c0, overrides, m, channel, k) && o in overrides && o.channel == channel && Handable(c0, m, o.role)
    ensures Within(AllowedThere(o), k)
  {
  }

  lemma OwnerOrNobody(c0: Core, c: Core, crew: set<PublicKey>, k: Bits, m: Position, channel: string, p: PublicKey)
    requires c.owner == c0.owner && (IsOwner(c, p) || p !in c.members)
    ensures Within(Effective(c, p, channel), ChannelCeiling(Base(c0, p), Effective(c0, p, channel), k))
  {
    EmptyWithin();
    if IsOwner(c, p) {
      SelfWithin(ALL);
      InCeiling(ALL, Base(c0, p), ALL, k);
    }
  }

  /** A crew member never gets beyond `k` in the channel. */
  lemma {:induction false} CrewContained(c0: Core, c: Core, crew: set<PublicKey>, k: Bits, m: Position, channel: string, x: PublicKey)
    requires ChannelSetting(c0, crew, k, m, channel) && Contained(c0, c, crew, k, m, channel) && x in crew
    ensures Within(Effective(c, x, channel), k)
  {
    hide Within, Contained, ChannelCeiling, Base, Effective, HandsWithin, Rank;
    ContainedEffective(c0, c, crew, k, m, channel, x);
    CeilingOfCrew(Base(c0, x), Effective(c0, x, channel), k, Effective(c, x, channel));
  }

  lemma CeilingOfCrew(base: Bits, effective: Bits, k: Bits, a: Bits)
    ensures Within(base, k) && Within(effective, k) && Within(a, ChannelCeiling(base, effective, k)) ==> Within(a, k)
  {
  }

  lemma {:induction false} DropOverridesMembers(overrides: seq<Override>, channel: Option<string>, role: Option<string>)
    ensures forall o :: o in DropOverrides(overrides, channel, role) ==> o in overrides
  {
    if overrides != [] {
      DropOverridesMembers(overrides[..|overrides| - 1], channel, role);
    }
  }

  /** What a lower rank may act on is what the coalition can hand out. */
  lemma LowIsHandable(c0: Core, c: Core, crew: set<PublicKey>, m: Position, actor: PublicKey, role: string)
    requires Hierarchy(c0, c, crew, m) && OwnerOutside(c0, crew) && actor in crew
    requires role in c.roles && OutranksRole(c, actor, c.roles[role])
    ensures Handable(c0, m, role)
  {
    hide Rank;
    CrewRank(c0, c, crew, m, actor);
  }

  lemma {:induction false} EditKeepsChannel(c0: Core, before: Core, next: Core, crew: set<PublicKey>, k: Bits, m: Position,
                                            channel: string, actor: PublicKey, e: Edit)
    requires ChannelSetting(c0, crew, k, m, channel) && actor in crew && Contained(c0, before, crew, k, m, channel)
    requires ChannelCapped(c0, next, m, channel, k) && EditOne(before, next, actor, e).Ok?
    ensures ChannelCapped(c0, EditOne(before, next, actor, e).value, m, channel, k)
  {
    hide Within, Intersection, Sanitized, Holds, CanGrant, GoodLabel, Trim, OutranksRole, ChannelSetting, Contained, Handable, EditOverrideOne;
    match e
    case EditChannelDelete(id) => DropOverridesMembers(next.overrides, Some(id), None);
    case EditRoleDelete(id) => DropOverridesMembers(next.overrides, None, Some(id));
    case EditOverride(o) => OverrideKeepsChannel(c0, before, next, crew, k, m, channel, actor, o);
    case _ =>
  }

  lemma {:induction false} OverrideKeepsChannel(c0: Core, before: Core, next: Core, crew: set<PublicKey>, k: Bits, m: Position,
                                                channel: string, actor: PublicKey, o: Override)
    requires ChannelSetting(c0, crew, k, m, channel) && actor in crew && Contained(c0, before, crew, k, m, channel)
    requires ChannelCapped(c0, next, m, channel, k) && EditOverrideOne(before, next, actor, o).Ok?
    ensures ChannelCapped(c0, EditOverrideOne(before, next, actor, o).value, m, channel, k)
  {
    hide Within, Intersection, Sanitized, Holds, OutranksRole, Effective, Hierarchy, Handable, Capped, Covers, Rank;
    DropOverridesMembers(next.overrides, Some(o.channel), Some(o.role));
    LowIsHandable(c0, before, crew, m, actor, o.role);
    hide Contained, ChannelSetting;
    if o.channel == channel {
      CrewContained(c0, before, crew, k, m, channel, actor);
      var allow := Scoped(o.allow);
      WithinTransitive(allow, Effective(before, actor, channel), k);
      IntersectionShrinks(allow);
      WithinTransitive(Intersection(allow, CHANNEL_SCOPED), allow, k);
    }
  }

  lemma IntersectionShrinks(a: Bits)
    ensures Within(Intersection(a, CHANNEL_SCOPED), a)
  {
  }

  lemma {:induction false} BatchKeepsChannel(c0: Core, before: Core, crew: set<PublicKey>, k: Bits, m: Position,
                                             channel: string, actor: PublicKey, edits: seq<Edit>)
    requires ChannelSetting(c0, crew, k, m, channel) && actor in crew && Contained(c0, before, crew, k, m, channel)
    requires EditAll(before, before, actor, edits).Ok?
    ensures ChannelCapped(c0, EditAll(before, before, actor, edits).value, m, channel, k)
    decreases |edits|
  {
    hide ChannelSetting, Capped, Hierarchy, ChannelCapped, EditOne;
    if edits != [] {
      var last := |edits| - 1;
      BatchKeepsChannel(c0, before, crew, k, m, channel, actor, edits[..last]);
      EditKeepsChannel(c0, before, EditAll(before, before, actor, edits[..last]).value, crew, k, m, channel, actor, edits[last]);
    }
  }

  lemma {:induction false} PutKeepsHigh(c0: Core, c: Core, crew: set<PublicKey>, m: Position, channel: string,
                                        actor: PublicKey, target: PublicKey, roles: set<string>)
    requires Hierarchy(c0, c, crew, m) && OwnerOutside(c0, crew) && actor in crew
    requires HighKept(c0, c, m, channel) && JudgePut(c, actor, target, roles).Ok?
    ensures HighKept(c0, JudgePut(c, actor, target, roles).value, m, channel)
  {
    hide Holds, CanGrant, Hierarchy, Handable, Outranks, OutranksRole;
    var d := JudgePut(c, actor, target, roles).value;
    var wanted := roles - {DEFAULT_ROLE};
    var held := if target in c.members then c.members[target] else {};
    forall r | r in wanted && r !in held ensures Handable(c0, m, r) {
      assert r in (wanted - held) + (held - wanted);
      LowIsHandable(c0, c, crew, m, actor, r);
    }
  }

  lemma OtherActionsKeepHigh(c0: Core, c: Core, invites: Invites, m: Position, channel: string, ev: Event)
    requires HighKept(c0, c, m, channel) && Judge(c, invites, ev).Ok?
    requires !ActionOf(ev).value.EditGroup? && !ActionOf(ev).value.Put?
    ensures HighKept(c0, Judge(c, invites, ev).value, m, channel)
  {
    hide Holds, Outranks, Honoured, Handable;
  }

  lemma OverridesOnlyByEdits(c: Core, invites: Invites, ev: Event)
    requires Judge(c, invites, ev).Ok? && !ActionOf(ev).value.EditGroup?
    ensures Judge(c, invites, ev).value.overrides == c.overrides
  {
  }

  lemma {:induction false} JudgeKeepsChannel(c0: Core, c: Core, invites: Invites, crew: set<PublicKey>, k: Bits, m: Position,
                                             channel: string, ev: Event)
    requires ChannelSetting(c0, crew, k, m, channel) && ev.author in crew && Contained(c0, c, crew, k, m, channel)
    requires Judge(c, invites, ev).Ok?
    ensures Contained(c0, Judge(c, invites, ev).value, crew, k, m, channel)
  {
    hide Capped, Hierarchy, Handable, HandsWithin, EditAll, JudgePut, Rank, Effective, Within, HighKept, Covers;
    JudgeKeepsCap(c0, c, invites, crew, k, ev);
    JudgeKeepsHierarchy(c0, c, invites, crew, m, ev);
    match ActionOf(ev).value {
      case EditGroup(edits) => BatchKeepsChannel(c0, c, crew, k, m, channel, ev.author, edits);
      case Put(target, roles) =>
        OverridesOnlyByEdits(c, invites, ev);
        PutKeepsHigh(c0, c, crew, m, channel, ev.author, target, roles);
      case _ =>
        OverridesOnlyByEdits(c, invites, ev);
        OtherActionsKeepHigh(c0, c, invites, m, channel, ev);
    }
  }

  lemma {:induction false} ContainedAtStart(c0: Core, crew: set<PublicKey>, k: Bits, m: Position, channel: string)
    requires ChannelSetting(c0, crew, k, m, channel)
    ensures Contained(c0, c0, crew, k, m, channel)
  {
    hide Capped, Hierarchy, HandsWithin, Covers, Effective, Rank, Within;
    CappedAtStart(c0, crew, k);
    HierarchyAtStart(c0, crew, m);
  }

  lemma {:induction false} RunKeepsChannel(s: GroupState, acts: seq<Event>, crew: set<PublicKey>, k: Bits, m: Position, channel: string)
    requires ChannelSetting(s.core, crew, k, m, channel) && AuthoredBy(crew, acts)
    ensures Contained(s.core, RunSteps(s, acts).core, crew, k, m, channel)
  {
    hide ChannelSetting, Contained, Judge, NextTrace;
    if acts == [] {
      ContainedAtStart(s.core, crew, k, m, channel);
    } else {
      var last := |acts| - 1;
      RunKeepsChannel(s, acts[..last], crew, k, m, channel);
      var mid := RunSteps(s, acts[..last]);
      if Judge(mid.core, mid.invites, acts[last]).Ok? {
        JudgeKeepsChannel(s.core, mid.core, mid.invites, crew, k, m, channel, acts[last]);
      }
    }
  }

  /**
    No coalition escalates in a channel beyond what it can hand out there: for any `k` covering
    the default role, all its members hold group-wide and in the channel, and what the channel
    allows the roles below its top rank `m` (or not yet defined), nobody's permissions in the
    channel ever exceed their own at the start, group-wide or there, joined with `k`. Overrides of
    roles at `m` or above may allow anything.
   */
  lemma {:induction false} NoCoalitionEscalatesInChannel(s: GroupState, acts: seq<Event>, crew: set<PublicKey>, k: Bits, m: Position,
                                                         channel: string, p: PublicKey)
    requires ChannelSetting(s.core, crew, k, m, channel) && AuthoredBy(crew, acts)
    ensures Within(Effective(RunSteps(s, acts).core, p, channel),
                   ChannelCeiling(Base(s.core, p), Effective(s.core, p, channel), k))
  {
    hide RunSteps, ChannelSetting, Contained, Effective, Base, Within, ChannelCeiling;
    RunKeepsChannel(s, acts, crew, k, m, channel);
    ContainedEffective(s.core, RunSteps(s, acts).core, crew, k, m, channel, p);
  }

  // ---- at the level of whole folds -------------------------------------------

  /** Every live action of the group among `events` was signed by somebody in `crew`. */
  ghost predicate LiveActionsBy(crew: set<PublicKey>, group: PublicKey, cutoff: Timestamp, events: seq<Event>) {
    forall e :: e in events && IsAction(group, e) && IsLive(cutoff, e) ==> e.author in crew
  }

  /** What the group-wide guarantees say of a fold whose live actions all come from `crew`. */
  lemma {:induction false} FoldRespectsAuthority(group: PublicKey, events: seq<Event>, crew: set<PublicKey>, k: Bits, m: Position, p: PublicKey)
    requires PiecesOf(group, events).Some?
    requires LiveActionsBy(crew, group, CutoffOf(PiecesOf(group, events).value), events)
    requires
      var c0 := InitialCore(PiecesOf(group, events).value, Creators(group, events));
      Covers(c0, crew, k) && OwnerOutside(c0, crew) && forall x :: x in crew ==> Rank(c0, x) <= m
    ensures
      var c0 := InitialCore(PiecesOf(group, events).value, Creators(group, events));
      var c := FoldEvents(group, events).value.core;
      && Within(Base(c, p), Union(Base(c0, p), k))
      && (p in crew ==> Rank(c, p) <= m)
      && (Superior(c0, crew, m, p) ==> Untouched(c0, c, m, p))
  {
    var acts := FoldIsRun(group, events);
    var pieces := PiecesOf(group, events).value;
    var s := Initial(group, pieces, Creators(group, events), InvitesOf(Sort(Actions(group, events))));
    assert s.core == InitialCore(pieces, Creators(group, events));
    assert AuthoredBy(crew, acts);
    hide RunSteps, Initial, InitialCore, FoldEvents, Within, Base, Rank, Untouched, Superior, Covers, Union;
    NoCoalitionEscalates(s, acts, crew, k, p);
    SuperiorsAreSafe(s, acts, crew, m);
  }

  /** And what the guarantee inside a channel does. */
  lemma {:induction false} FoldRespectsChannel(group: PublicKey, events: seq<Event>, crew: set<PublicKey>, k: Bits, m: Position,
                                               p: PublicKey, channel: string)
    requires PiecesOf(group, events).Some?
    requires LiveActionsBy(crew, group, CutoffOf(PiecesOf(group, events).value), events)
    requires ChannelSetting(InitialCore(PiecesOf(group, events).value, Creators(group, events)), crew, k, m, channel)
    ensures
      var c0 := InitialCore(PiecesOf(group, events).value, Creators(group, events));
      Within(Effective(FoldEvents(group, events).value.core, p, channel),
             ChannelCeiling(Base(c0, p), Effective(c0, p, channel), k))
  {
    var acts := FoldIsRun(group, events);
    var pieces := PiecesOf(group, events).value;
    var s := Initial(group, pieces, Creators(group, events), InvitesOf(Sort(Actions(group, events))));
    assert s.core == InitialCore(pieces, Creators(group, events));
    assert AuthoredBy(crew, acts);
    hide RunSteps, Initial, InitialCore, FoldEvents, Within, Base, Effective, ChannelSetting, ChannelCeiling;
    NoCoalitionEscalatesInChannel(s, acts, crew, k, m, channel, p);
  }
}
