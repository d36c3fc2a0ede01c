/** Permissions bit by bit: what a person may do group-wide and in a channel. */
module Powers {
  import opened Prelude
  import opened Perm
  import opened Group
  import opened State
  import opened Authority

  predicate Bit(a: Bits, b: Bits) { Intersection(a, b) != NONE }

  /** A permission this build defines. */
  predicate Defined(b: Bits) {
    || b == 0x001 || b == 0x002 || b == 0x004 || b == 0x008 || b == 0x010 || b == 0x020
    || b == 0x040 || b == 0x080 || b == 0x100 || b == 0x200 || b == 0x400 || b == 0x800
  }

  /** One of the four permissions an override can touch: view, send, manage messages, attach files. */
  predicate InChannels(b: Bits) { b == 0x001 || b == 0x002 || b == 0x004 || b == 0x800 }

  lemma BitOfUnion(a: Bits, c: Bits, b: Bits)
    ensures Bit(Union(a, c), b) <==> Bit(a, b) || Bit(c, b)
  {
    hide Union, Intersection;
    Distributes(a, c, b);
    UnionIsNone(Intersection(a, b), Intersection(c, b));
  }

  lemma Distributes(a: Bits, c: Bits, b: Bits)
    ensures Intersection(Union(a, c), b) == Union(Intersection(a, b), Intersection(c, b))
  {
    assert (a | c) & b == (a & b) | (c & b);
  }

  lemma UnionIsNone(a: Bits, b: Bits)
    ensures Union(a, b) == NONE <==> a == NONE && b == NONE
  {
  }

  lemma BitOfSanitized(a: Bits, b: Bits)
    ensures Defined(b) ==> (Bit(Sanitized(a), b) <==> Bit(a, b))
    ensures Defined(b) ==> Bit(ALL, b) && !Bit(NONE, b)
  {
  }

  lemma BitOfScoped(a: Bits, b: Bits)
    ensures Defined(b) ==> (Bit(Intersection(a, CHANNEL_SCOPED), b) <==> Bit(a, b) && InChannels(b))
  {
  }

  lemma BitOfWithout(a: Bits, c: Bits, b: Bits)
    ensures Defined(b) ==> (Bit(Without(a, c), b) <==> Bit(a, b) && !Bit(c, b))
  {
  }

  lemma BitIsContained(a: Bits, b: Bits)
    ensures Defined(b) ==> (Contains(a, b) <==> Bit(a, b))
  {
  }

  lemma BothContained(a: Bits, b: Bits, c: Bits)
    ensures Defined(b) && Defined(c) ==> (Contains(a, Union(b, c)) <==> Bit(a, b) && Bit(a, c))
  {
  }

  // ---- group-wide -----------------------------------------------------------------------------

  lemma {:induction false} BitOfRoles(roles: map<string, RoleDef>, ids: set<string>, b: Bits)
    requires Defined(b)
    ensures Bit(PermsOver(roles, ids), b) <==> exists r :: r in ids && r in roles && Bit(roles[r].perms, b)
    decreases |ids|
  {
    hide Bit, Union, Defined;
    BitOfSanitized(NONE, b);
    if ids != {} {
      var r :| r in ids && PermsOver(roles, ids) == Union(if r in roles then roles[r].perms else NONE, PermsOver(roles, ids - {r}));
      BitOfRoles(roles, ids - {r}, b);
      BitOfUnion(if r in roles then roles[r].perms else NONE, PermsOver(roles, ids - {r}), b);
      forall q | q in ids && q in roles && Bit(roles[q].perms, b) ensures q == r || q in ids - {r} {
      }
    }
  }

  /**
    The owner may everything, a stranger nothing; a member may what some defined role of theirs,
    or the default role, grants.
   */
  lemma {:induction false} BaseExactly(c: Core, p: PublicKey, b: Bits)
    requires Defined(b)
    ensures Bit(Base(c, p), b) <==>
            || c.owner == Some(p)
            || (p in c.members && exists r :: (r in c.members[p] || r == "member") && r in c.roles && Bit(c.roles[r].perms, b))
  {
    hide Bit, Defined, PermsOver, Sanitized;
    BitOfSanitized(NONE, b);
    if p in c.members {
      BitOfRoles(c.roles, c.members[p] + {DEFAULT_ROLE}, b);
      BitOfSanitized(PermsOver(c.roles, c.members[p] + {DEFAULT_ROLE}), b);
    }
  }

  // ---- in a channel -----------------------------------------------------------------------------

  /** The override is for the channel, and for the default role or one held. */
  predicate AppliesTo(o: Override, held: set<string>, channel: string) {
    o.channel == channel && (o.role == "member" || o.role in held)
  }

  lemma {:induction false} BitOfAllowed(overrides: seq<Override>, held: set<string>, channel: string, b: Bits)
    requires Defined(b)
    ensures Bit(Allowed(overrides, held, channel), b) <==> exists o :: o in overrides && AppliesTo(o, held, channel) && Bit(o.allow, b)
  {
    hide Bit, Union, Defined;
    BitOfSanitized(NONE, b);
    if overrides != [] {
      var last := |overrides| - 1;
      BitOfAllowed(overrides[..last], held, channel, b);
      BitOfUnion(Allowed(overrides[..last], held, channel), overrides[last].allow, b);
      assert overrides == overrides[..last] + [overrides[last]];
    }
  }

  lemma {:induction false} BitOfDenied(overrides: seq<Override>, held: set<string>, channel: string, b: Bits)
    requires Defined(b)
    ensures Bit(Denied(overrides, held, channel), b) <==> exists o :: o in overrides && AppliesTo(o, held, channel) && Bit(o.deny, b)
  {
    hide Bit, Union, Defined;
    BitOfSanitized(NONE, b);
    if overrides != [] {
      var last := |overrides| - 1;
      BitOfDenied(overrides[..last], held, channel, b);
      BitOfUnion(Denied(overrides[..last], held, channel), overrides[last].deny, b);
      assert overrides == overrides[..last] + [overrides[last]];
    }
  }

  /**
    In a channel an override of a role held may grant one of the four channel permissions, or take
    it away from whom no override grants it; nothing else differs from the group. Allowing wins.
   */
  lemma {:induction false} EffectiveExactly(c: Core, p: PublicKey, channel: string, b: Bits)
    requires Defined(b) && p in c.members && c.owner != Some(p)
    ensures
      var allowed := exists o :: o in c.overrides && AppliesTo(o, c.members[p], channel) && Bit(o.allow, b);
      var denied := exists o :: o in c.overrides && AppliesTo(o, c.members[p], channel) && Bit(o.deny, b);
      Bit(Effective(c, p, channel), b) <==>
      if InChannels(b) then allowed || (Bit(Base(c, p), b) && !denied) else Bit(Base(c, p), b)
  {
    hide Bit, Defined, InChannels, Allowed, Denied, BaseOf, Union, Without, Intersection, Sanitized, AppliesTo;
    var held := c.members[p];
    BitOfAllowed(c.overrides, held, channel, b);
    BitOfDenied(c.overrides, held, channel, b);
    BitOfMix(BaseOf(c.roles, held), Denied(c.overrides, held, channel), Allowed(c.overrides, held, channel), b);
  }

  lemma BitOfMix(base: Bits, deny: Bits, allow: Bits, b: Bits)
    requires Defined(b)
    ensures Bit(Sanitized(Union(Without(base, Intersection(deny, CHANNEL_SCOPED)), Intersection(allow, CHANNEL_SCOPED))), b) <==>
            if InChannels(b) then Bit(allow, b) || (Bit(base, b) && !Bit(deny, b)) else Bit(base, b)
  {
    hide *;
    BitOfScoped(allow, b);
    BitOfScoped(deny, b);
    BitOfWithout(base, Intersection(deny, CHANNEL_SCOPED), b);
    BitOfUnion(Without(base, Intersection(deny, CHANNEL_SCOPED)), Intersection(allow, CHANNEL_SCOPED), b);
    BitOfSanitized(Union(Without(base, Intersection(deny, CHANNEL_SCOPED)), Intersection(allow, CHANNEL_SCOPED)), b);
  }

  /** The owner may everything everywhere, a stranger nothing anywhere, and nobody what is not defined. */
  lemma {:induction false} EffectiveBounds(c: Core, p: PublicKey, channel: string)
    ensures c.owner == Some(p) ==> forall b :: Defined(b) ==> Bit(Effective(c, p, channel), b)
    ensures c.owner != Some(p) && p !in c.members ==> Effective(c, p, channel) == 0 && Base(c, p) == 0
    ensures Effective(c, p, channel) < 0x1000 && Base(c, p) < 0x1000
  {
    hide Defined, Bit, PermsOver, Allowed, Denied;
    forall b | Defined(b) ensures Bit(ALL, b) {
      BitOfSanitized(NONE, b);
    }
    BelowUndefined();
  }

  lemma BelowUndefined()
    ensures ALL < 0x1000 && forall a :: Sanitized(a) < 0x1000
  {
  }

  // ---- order and grants ----------------------------------------------------------------------

  /** A rank is reached by a defined role held at it or above; everybody reaches the floor. */
  lemma RankExactly(c: Core, p: PublicKey, x: Position)
    ensures Rank(c, p) >= x <==>
            x == I64_MIN || (p in c.members && exists r :: r in c.members[p] && r in c.roles && c.roles[r].position >= x)
  {
  }

  /** Nothing undefined, and nothing the actor may not do. */
  ghost predicate Grantable(c: Core, actor: PublicKey, perms: Bits) {
    perms < 0x1000 && forall b :: Defined(b) && Bit(perms, b) ==> Bit(Base(c, actor), b)
  }

  lemma WithinExactly(a: Bits, k: Bits)
    requires k < 0x1000
    ensures Within(a, k) <==> a < 0x1000 && forall b :: Defined(b) && Bit(a, b) ==> Bit(k, b)
  {
    forall b | Within(a, k) && Defined(b) && Bit(a, b) ensures Bit(k, b) {
      WithinCarries(a, k, b);
    }
    if a < 0x1000 && forall b :: Defined(b) && Bit(a, b) ==> Bit(k, b) {
      hide Within, Defined, Bit;
      Twelve();
      TwelveSuffice(a, k);
    }
    WithinIsSmall(a, k);
  }

  lemma WithinCarries(a: Bits, k: Bits, b: Bits)
    ensures Within(a, k) && Bit(a, b) ==> Bit(k, b)
  {
  }

  lemma WithinIsSmall(a: Bits, k: Bits)
    ensures Within(a, k) && k < 0x1000 ==> a < 0x1000
  {
  }

  lemma Twelve()
    ensures Defined(0x001) && Defined(0x002) && Defined(0x004) && Defined(0x008) && Defined(0x010) && Defined(0x020)
    ensures Defined(0x040) && Defined(0x080) && Defined(0x100) && Defined(0x200) && Defined(0x400) && Defined(0x800)
  {
  }

  predicate Carries(a: Bits, k: Bits, b: Bits) { Bit(a, b) ==> Bit(k, b) }

  lemma TwelveSuffice(a: Bits, k: Bits)
    requires a < 0x1000
    requires Carries(a, k, 0x001) && Carries(a, k, 0x002) && Carries(a, k, 0x004) && Carries(a, k, 0x008)
    requires Carries(a, k, 0x010) && Carries(a, k, 0x020) && Carries(a, k, 0x040) && Carries(a, k, 0x080)
    requires Carries(a, k, 0x100) && Carries(a, k, 0x200) && Carries(a, k, 0x400) && Carries(a, k, 0x800)
    ensures Within(a, k)
  {
  }

  /** What may be granted is what the grantor holds, bit by bit. */
  lemma CanGrantExactly(c: Core, actor: PublicKey, perms: Bits)
    ensures CanGrant(c, actor, perms) <==> Grantable(c, actor, perms)
  {
    hide Within, Defined, Bit, Base;
    EffectiveBounds(c, actor, "");
    WithinExactly(perms, Base(c, actor));
  }

  /** A union of roles may be granted when each role may. */
  lemma GrantsEach(c: Core, actor: PublicKey, ids: set<string>)
    ensures CanGrant(c, actor, PermsOver(c.roles, ids)) <==>
            forall r :: r in ids && r in c.roles ==> Grantable(c, actor, c.roles[r].perms)
  {
    hide Within, Base, Grantable;
    PermsOverIsJoin(c.roles, ids);
    var k := Base(c, actor);
    forall r | r in ids && r in c.roles ensures Grantable(c, actor, c.roles[r].perms) <==> Within(c.roles[r].perms, k) {
      CanGrantExactly(c, actor, c.roles[r].perms);
    }
    if Within(PermsOver(c.roles, ids), k) {
      forall r | r in ids && r in c.roles ensures Within(c.roles[r].perms, k) {
        WithinTransitive(c.roles[r].perms, PermsOver(c.roles, ids), k);
      }
    }
    if forall r :: r in ids && r in c.roles ==> Grantable(c, actor, c.roles[r].perms) {
      assert RolesWithin(c.roles, ids, k);
    }
  }
}
