/** No privilege escalation: no run of a set of people without the owner exceeds its ceiling or touches its superiors. */
module Authority {
  import opened Prelude
  import opened Perm
  import opened Group
  import opened State
  import opened Runs

  // ---- what most actions leave alone ---------------------------------------

  lemma QuietEdit(before: Core, next: Core, actor: PublicKey, e: Edit)
    requires EditOne(before, next, actor, e).Ok? && !e.EditRole? && !e.EditRoleDelete?
    ensures
      var c := EditOne(before, next, actor, e).value;
      c.owner == next.owner && c.roles == next.roles && c.members == next.members && c.bans == next.bans && c.mutes == next.mutes
  {
  }

  lemma QuietAction(c: Core, invites: Invites, ev: Event)
    requires Judge(c, invites, ev).Ok?
    requires !ActionOf(ev).value.Put? && !ActionOf(ev).value.EditGroup? && !ActionOf(ev).value.Join?
    ensures Judge(c, invites, ev).value.owner == c.owner && Judge(c, invites, ev).value.roles == c.roles
    ensures
      var next := Judge(c, invites, ev).value;
      forall p :: p in next.members ==> p in c.members && next.members[p] == c.members[p]
  {
  }

  // ---- unions and maxima over the roles held ------------------------------

  /** Every role in `ids` stays, bit for bit, within `k`. */
  ghost predicate RolesWithin(roles: map<string, RoleDef>, ids: set<string>, k: Bits) {
    forall r :: r in ids && r in roles ==> Within(roles[r].perms, k)
  }

  /** `PermsOver` is the least set of bits its roles stay within. */
  lemma {:induction false} PermsOverIsJoin(roles: map<string, RoleDef>, ids: set<string>)
    ensures RolesWithin(roles, ids, PermsOver(roles, ids))
    ensures forall k :: RolesWithin(roles, ids, k) ==> Within(PermsOver(roles, ids), k)
    decreases |ids|
  {
    hide Within, Union;
    if ids == {} {
      EmptyWithin();
    } else {
      var r :| r in ids && PermsOver(roles, ids) == Union(if r in roles then roles[r].perms else NONE, PermsOver(roles, ids - {r}));
      var mine, rest := if r in roles then roles[r].perms else NONE, PermsOver(roles, ids - {r});
      PermsOverIsJoin(roles, ids - {r});
      UnionIsJoin(mine, rest);
      EmptyWithin();
      forall q | q in ids && q in roles ensures Within(roles[q].perms, Union(mine, rest)) {
        if q != r {
          WithinTransitive(roles[q].perms, rest, Union(mine, rest));
        }
      }
      forall k | RolesWithin(roles, ids, k) ensures Within(Union(mine, rest), k) {
        assert RolesWithin(roles, ids - {r}, k);
      }
    }
  }

  lemma EmptyWithin()
    ensures forall k :: Within(NONE, k)
  {
  }

  ghost predicate HeldWithin(c: Core, held: set<string>, k: Bits) {
    forall r :: r in held + {DEFAULT_ROLE} && r in c.roles ==> Within(Sanitized(c.roles[r].perms), k)
  }

  /** What somebody's roles grant stays within `k` exactly when each of them does. */
  lemma {:induction false} BaseOfWithin(c: Core, held: set<string>, k: Bits)
    ensures Within(BaseOf(c.roles, held), k) <==> HeldWithin(c, held, k)
  {
    hide Within, Sanitized;
    var ids := held + {DEFAULT_ROLE};
    var all := PermsOver(c.roles, ids);
    PermsOverIsJoin(c.roles, ids);
    forall r | r in ids && r in c.roles ensures Within(Sanitized(c.roles[r].perms), Sanitized(all)) {
      SanitizedMonotone(c.roles[r].perms, all);
    }
    if Within(Sanitized(all), k) {
      forall r | r in ids && r in c.roles ensures Within(Sanitized(c.roles[r].perms), k) {
        WithinTransitive(Sanitized(c.roles[r].perms), Sanitized(all), k);
      }
    }
    if HeldWithin(c, held, k) {
      forall r | r in ids && r in c.roles ensures Within(c.roles[r].perms, OrUndefined(k)) {
        WithinSanitized(c.roles[r].perms, k);
      }
      WithinSanitized(all, k);
    }
  }

  /** `k` and every bit this build does not define. */
  function OrUndefined(k: Bits): Bits { k | !ALL }

  lemma WithinSanitized(a: Bits, k: Bits)
    ensures Within(Sanitized(a), k) <==> Within(a, OrUndefined(k))
  {
  }

  // ---- the ceiling ----------------------------------------------------------

  ghost predicate OwnerOutside(c: Core, crew: set<PublicKey>) {
    c.owner.None? || c.owner.value !in crew
  }

  /** `k` covers the default role's bits and everything each of `crew` holds. */
  ghost predicate Covers(c: Core, crew: set<PublicKey>, k: Bits) {
    && (DEFAULT_ROLE in c.roles ==> Within(Sanitized(c.roles[DEFAULT_ROLE].perms), k))
    && forall x :: x in crew ==> Within(Base(c, x), k)
  }

  /** Nobody holds a role beyond what they held at `c0` together with `k`. */
  ghost predicate Capped(c0: Core, c: Core, k: Bits) {
    && c.owner == c0.owner
    && (DEFAULT_ROLE in c.roles ==> Within(Sanitized(c.roles[DEFAULT_ROLE].perms), k))
    && forall p :: p in c.members ==> HeldWithin(c, c.members[p], Union(Base(c0, p), k))
  }

  lemma WithinUnionRight(a: Bits, b: Bits, k: Bits)
    requires Within(a, k)
    ensures Within(a, Union(b, k))
  {
    WithinUnion(a, b, k);
  }

  lemma {:induction false} CappedAtStart(c0: Core, crew: set<PublicKey>, k: Bits)
    requires Covers(c0, crew, k)
    ensures Capped(c0, c0, k)
  {
    hide Within, Sanitized, Union;
    forall p | p in c0.members ensures HeldWithin(c0, c0.members[p], Union(Base(c0, p), k)) {
      var held := c0.members[p];
      if IsOwner(c0, p) {
        forall r | r in held + {DEFAULT_ROLE} && r in c0.roles
          ensures Within(Sanitized(c0.roles[r].perms), Union(ALL, k))
        {
          SanitizedShrinks(c0.roles[r].perms);
          WithinUnion(Sanitized(c0.roles[r].perms), ALL, k);
        }
      } else {
        UnionIsJoin(BaseOf(c0.roles, held), k);
        BaseOfWithin(c0, held, Union(Base(c0, p), k));
      }
    }
  }

  /** Under the cap, what a crew member may grant stays within `k`. */
  lemma {:induction false} CrewWithin(c0: Core, c: Core, crew: set<PublicKey>, k: Bits, x: PublicKey)
    requires Covers(c0, crew, k) && Capped(c0, c, k) && OwnerOutside(c0, crew) && x in crew
    ensures Within(Base(c, x), k)
  {
    hide Within, Sanitized, Union;
    EmptyWithin();
    if x in c.members {
      BaseOfWithin(c, c.members[x], Union(Base(c0, x), k));
      SelfWithin(k);
      UnionIsJoin(Base(c0, x), k);
      WithinTransitive(BaseOf(c.roles, c.members[x]), Union(Base(c0, x), k), k);
    }
  }

  lemma SelfWithin(k: Bits)
    ensures Within(k, k)
  {
  }

  lemma {:induction false} PutKeepsCap(c0: Core, c: Core, crew: set<PublicKey>, k: Bits, actor: PublicKey, target: PublicKey, roles: set<string>)
    requires Covers(c0, crew, k) && Capped(c0, c, k) && OwnerOutside(c0, crew) && actor in crew
    requires JudgePut(c, actor, target, roles).Ok?
    ensures Capped(c0, JudgePut(c, actor, target, roles).value, k)
  {
    hide Within, Sanitized, Union, OutranksRole, Outranks, Holds;
    CrewWithin(c0, c, crew, k, actor);
    var wanted := roles - {DEFAULT_ROLE};
    var held := if target in c.members then c.members[target] else {};
    var bound := Union(Base(c0, target), k);
    forall r | r in wanted + {DEFAULT_ROLE} && r in c.roles ensures Within(Sanitized(c.roles[r].perms), bound) {
      if r == DEFAULT_ROLE {
        WithinUnionRight(Sanitized(c.roles[r].perms), Base(c0, target), k);
      } else if r !in held {
        var granted := PermsOver(c.roles, wanted - held);
        PermsOverIsJoin(c.roles, wanted - held);
        WithinTransitive(c.roles[r].perms, granted, Base(c, actor));
        WithinTransitive(c.roles[r].perms, Base(c, actor), k);
        SanitizedShrinks(c.roles[r].perms);
        WithinTransitive(Sanitized(c.roles[r].perms), c.roles[r].perms, k);
        WithinUnionRight(Sanitized(c.roles[r].perms), Base(c0, target), k);
      }
    }
  }

  lemma {:induction false} EditRoleKeepsCap(c0: Core, before: Core, next: Core, crew: set<PublicKey>, k: Bits, actor: PublicKey, r: RoleDef)
    requires Covers(c0, crew, k) && Capped(c0, before, k) && Capped(c0, next, k)
    requires OwnerOutside(c0, crew) && actor in crew
    requires EditRoleOne(before, next, actor, r).Ok?
    ensures Capped(c0, EditRoleOne(before, next, actor, r).value, k)
  {
    hide Within, Sanitized, Union, OutranksRole, Holds, GoodLabel;
    CrewWithin(c0, before, crew, k, actor);
    var bits := Sanitized(r.perms);
    WithinTransitive(bits, Base(before, actor), k);
    SanitizedShrinks(r.perms);
    var c := EditRoleOne(before, next, actor, r).value;
    assert c.roles == next.roles[r.id := r.(perms := bits)];
    assert r.id != DEFAULT_ROLE;
    forall p | p in c.members ensures HeldWithin(c, c.members[p], Union(Base(c0, p), k)) {
      WithinUnionRight(bits, Base(c0, p), k);
      assert HeldWithin(next, next.members[p], Union(Base(c0, p), k));
    }
  }

  lemma {:induction false} EditKeepsCap(c0: Core, before: Core, next: Core, crew: set<PublicKey>, k: Bits, actor: PublicKey, e: Edit)
    requires Covers(c0, crew, k) && Capped(c0, before, k) && Capped(c0, next, k)
    requires OwnerOutside(c0, crew) && actor in crew
    requires EditOne(before, next, actor, e).Ok?
    ensures Capped(c0, EditOne(before, next, actor, e).value, k)
  {
    hide Within, Sanitized, Union, OutranksRole, Holds, GoodLabel, Trim;
    match e
    case EditRole(r) => EditRoleKeepsCap(c0, before, next, crew, k, actor, r);
    case EditRoleDelete(id) =>
      var c := EditOne(before, next, actor, e).value;
      forall p | p in c.members ensures HeldWithin(c, c.members[p], Union(Base(c0, p), k)) {
        assert HeldWithin(next, next.members[p], Union(Base(c0, p), k));
      }
    case _ => QuietEdit(before, next, actor, e);
  }

  lemma {:induction false} BatchKeepsCap(c0: Core, before: Core, crew: set<PublicKey>, k: Bits, actor: PublicKey, edits: seq<Edit>)
    requires Covers(c0, crew, k) && Capped(c0, before, k) && OwnerOutside(c0, crew) && actor in crew
    requires EditAll(before, before, actor, edits).Ok?
    ensures Capped(c0, EditAll(before, before, actor, edits).value, k)
    decreases |edits|
  {
    hide Covers, Capped, EditOne;
    if edits != [] {
      var last := |edits| - 1;
      BatchKeepsCap(c0, before, crew, k, actor, edits[..last]);
      EditKeepsCap(c0, before, EditAll(before, before, actor, edits[..last]).value, crew, k, actor, edits[last]);
    }
  }

  lemma {:induction false} JudgeKeepsCap(c0: Core, c: Core, invites: Invites, crew: set<PublicKey>, k: Bits, ev: Event)
    requires Covers(c0, crew, k) && Capped(c0, c, k) && OwnerOutside(c0, crew) && ev.author in crew
    requires Judge(c, invites, ev).Ok?
    ensures Capped(c0, Judge(c, invites, ev).value, k)
  {
    hide Within, Sanitized, Union, Holds, Outranks, Honoured, EditAll, JudgePut;
    var next := Judge(c, invites, ev).value;
    match ActionOf(ev).value
    case Put(target, roles) => PutKeepsCap(c0, c, crew, k, ev.author, target, roles);
    case EditGroup(edits) =>
      hide Capped;
      BatchKeepsCap(c0, c, crew, k, ev.author, edits);
    case Join(_) =>
      forall p | p in next.members ensures HeldWithin(next, next.members[p], Union(Base(c0, p), k)) {
        if p == ev.author {
          if DEFAULT_ROLE in c.roles {
            WithinUnionRight(Sanitized(c.roles[DEFAULT_ROLE].perms), Base(c0, p), k);
          }
        } else {
          assert HeldWithin(c, c.members[p], Union(Base(c0, p), k));
        }
      }
    case _ =>
      QuietAction(c, invites, ev);
      hide Judge;
      forall p | p in next.members ensures HeldWithin(next, next.members[p], Union(Base(c0, p), k)) {
        assert HeldWithin(c, c.members[p], Union(Base(c0, p), k));
      }
  }

  ghost predicate AuthoredBy(crew: set<PublicKey>, acts: seq<Event>) {
    forall e :: e in acts ==> e.author in crew
  }

  lemma {:induction false} RunKeepsCap(s: GroupState, acts: seq<Event>, crew: set<PublicKey>, k: Bits)
    requires Covers(s.core, crew, k) && OwnerOutside(s.core, crew) && AuthoredBy(crew, acts)
    ensures Capped(s.core, RunSteps(s, acts).core, k)
    ensures RunSteps(s, acts).invites == s.invites
  {
    hide Covers, Capped, Judge, NextTrace;
    if acts == [] {
      CappedAtStart(s.core, crew, k);
    } else {
      var last := |acts| - 1;
      RunKeepsCap(s, acts[..last], crew, k);
      var m := RunSteps(s, acts[..last]);
      if Judge(m.core, m.invites, acts[last]).Ok? {
        JudgeKeepsCap(s.core, m.core, m.invites, crew, k, acts[last]);
      }
    }
  }

  /**
    No coalition escalates: whatever `crew` does, in any order, nobody's permissions exceed
    what they held at the start joined with `k`, for any `k` covering the default role and all
    that the crew held at the start.
   */
  lemma {:induction false} NoCoalitionEscalates(s: GroupState, acts: seq<Event>, crew: set<PublicKey>, k: Bits, p: PublicKey)
    requires Covers(s.core, crew, k) && OwnerOutside(s.core, crew) && AuthoredBy(crew, acts)
    ensures Within(Base(RunSteps(s, acts).core, p), Union(Base(s.core, p), k))
  {
    hide Within, Union, RunSteps, Covers;
    RunKeepsCap(s, acts, crew, k);
    var c := RunSteps(s, acts).core;
    EmptyWithin();
    if IsOwner(c, p) {
      UnionIsJoin(ALL, k);
    } else if p in c.members {
      BaseOfWithin(c, c.members[p], Union(Base(s.core, p), k));
    }
  }

  // ---- superiors --------------------------------------------------------------

  /** The roles at position `m` or above are those of `c0`, untouched. */
  ghost predicate HighRolesFrozen(c0: Core, c: Core, m: Position) {
    && (forall r :: r in c0.roles && c0.roles[r].position >= m ==> r in c.roles && c.roles[r] == c0.roles[r])
    && (forall r :: r in c.roles && c.roles[r].position >= m ==> r in c0.roles && c.roles[r] == c0.roles[r])
  }

  /** Outside the crew, and at its top rank or above, or the owner. */
  ghost predicate Superior(c0: Core, crew: set<PublicKey>, m: Position, p: PublicKey) {
    p !in crew && p in c0.members && (Rank(c0, p) >= m || IsOwner(c0, p))
  }

  ghost predicate Untouched(c0: Core, c: Core, m: Position, p: PublicKey)
    requires p in c0.members
  {
    && p in c.members
    && (forall r :: r in c0.members[p] && r in c0.roles && c0.roles[r].position >= m ==> r in c.members[p])
    && (p in c.bans ==> p in c0.bans)
    && (p in c.mutes <==> p in c0.mutes)
    && (p in c.mutes ==> c.mutes[p] == c0.mutes[p])
  }

  ghost predicate HeldUpTo(c: Core, held: set<string>, m: Position) {
    forall r :: r in held && r in c.roles ==> c.roles[r].position <= m
  }

  ghost predicate Hierarchy(c0: Core, c: Core, crew: set<PublicKey>, m: Position) {
    && c.owner == c0.owner
    && HighRolesFrozen(c0, c, m)
    && (forall x :: x in crew && x in c.members ==> HeldUpTo(c, c.members[x], m))
    && (forall p :: Superior(c0, crew, m, p) ==> Untouched(c0, c, m, p))
  }

  lemma HierarchyAtStart(c0: Core, crew: set<PublicKey>, m: Position)
    requires forall x :: x in crew ==> Rank(c0, x) <= m
    ensures Hierarchy(c0, c0, crew, m)
  {
    forall x | x in crew && x in c0.members ensures HeldUpTo(c0, c0.members[x], m) {
      assert Rank(c0, x) <= m;
    }
  }

  lemma CrewRank(c0: Core, c: Core, crew: set<PublicKey>, m: Position, x: PublicKey)
    requires Hierarchy(c0, c, crew, m) && x in crew
    ensures Rank(c, x) <= m
  {
  }

  lemma CrewBelowSuperiors(c0: Core, c: Core, crew: set<PublicKey>, m: Position, x: PublicKey, p: PublicKey)
    requires Hierarchy(c0, c, crew, m) && OwnerOutside(c0, crew) && x in crew && Superior(c0, crew, m, p)
    ensures !Outranks(c, x, p)
  {
    CrewRank(c0, c, crew, m, x);
    assert Untouched(c0, c, m, p);
    if !IsOwner(c, p) && m > I64_MIN {
      var r :| r in c0.members[p] && r in c0.roles && c0.roles[r].position == Rank(c0, p);
      assert r in c.members[p] && c.roles[r] == c0.roles[r];
    }
  }

  lemma {:induction false} PutKeepsHierarchy(c0: Core, c: Core, crew: set<PublicKey>, m: Position, actor: PublicKey, target: PublicKey, roles: set<string>)
    requires Hierarchy(c0, c, crew, m) && OwnerOutside(c0, crew) && actor in crew
    requires JudgePut(c, actor, target, roles).Ok?
    ensures Hierarchy(c0, JudgePut(c, actor, target, roles).value, crew, m)
  {
    hide Holds, CanGrant;
    var next := JudgePut(c, actor, target, roles).value;
    var wanted := roles - {DEFAULT_ROLE};
    var held := if target in c.members then c.members[target] else {};
    CrewRank(c0, c, crew, m, actor);
    forall r | r in wanted && r !in held ensures c.roles[r].position < m {
      assert r in (wanted - held) + (held - wanted);
      assert OutranksRole(c, actor, c.roles[r]);
    }
    if Superior(c0, crew, m, target) {
      assert Untouched(c0, c, m, target);
      CrewBelowSuperiors(c0, c, crew, m, actor, target);
    }
    forall p | Superior(c0, crew, m, p) ensures Untouched(c0, next, m, p) {
      assert Untouched(c0, c, m, p);
    }
    forall x | x in crew && x in next.members ensures HeldUpTo(next, next.members[x], m) {
      if x in c.members {
        assert HeldUpTo(c, c.members[x], m);
      }
    }
  }

  /** `d` differs from `c` in roles below `m` only, and in people losing them. */
  ghost predicate LowRoleChange(c: Core, d: Core, id: string, m: Position) {
    && d.owner == c.owner && d.bans == c.bans && d.mutes == c.mutes
    && (id in c.roles ==> c.roles[id].position < m)
    && (id in d.roles ==> d.roles[id].position < m)
    && (forall r :: r != id ==> (r in c.roles <==> r in d.roles))
    && (forall r :: r != id && r in c.roles ==> d.roles[r] == c.roles[r])
    && d.members.Keys == c.members.Keys
    && (forall p :: p in c.members ==> d.members[p] <= c.members[p] && c.members[p] - d.members[p] <= {id})
  }

  lemma LowRoleChangeKeepsHierarchy(c0: Core, c: Core, d: Core, crew: set<PublicKey>, id: string, m: Position)
    requires Hierarchy(c0, c, crew, m) && LowRoleChange(c, d, id, m)
    ensures Hierarchy(c0, d, crew, m)
  {
    forall p | Superior(c0, crew, m, p) ensures Untouched(c0, d, m, p) {
      assert Untouched(c0, c, m, p);
      forall r | r in c0.members[p] && r in c0.roles && c0.roles[r].position >= m ensures r in d.members[p] {
        assert r in c.members[p] && r != id;
        assert r !in c.members[p] - d.members[p];
      }
    }
    forall x | x in crew && x in d.members ensures HeldUpTo(d, d.members[x], m) {
      assert HeldUpTo(c, c.members[x], m);
    }
  }

  /** Two cores whose roles at `m` or above are the same. */
  ghost predicate SameHighRoles(a: Core, b: Core, m: Position) {
    forall r :: (r in a.roles && a.roles[r].position >= m) <==> (r in b.roles && b.roles[r].position >= m)
  }

  lemma LowRoleEdited(before: Core, next: Core, actor: PublicKey, r: RoleDef, m: Position)
    requires EditRoleOne(before, next, actor, r).Ok? && !IsOwner(before, actor) && Rank(before, actor) <= m
    requires SameHighRoles(before, next, m)
    ensures LowRoleChange(next, EditRoleOne(before, next, actor, r).value, r.id, m)
  {
    hide Holds, CanGrant, GoodLabel, Sanitized, Rank;
    assert r.id in before.roles ==> before.roles[r.id].position < m;
  }

  lemma LowRoleDeleted(before: Core, next: Core, actor: PublicKey, id: string, m: Position)
    requires EditRoleDeleteOne(before, next, actor, id).Ok? && !IsOwner(before, actor) && Rank(before, actor) <= m
    requires SameHighRoles(before, next, m)
    ensures LowRoleChange(next, EditRoleDeleteOne(before, next, actor, id).value, id, m)
  {
    hide Holds, DropOverrides, Rank;
    assert before.roles[id].position < m;
  }

  lemma {:induction false} EditKeepsHierarchy(c0: Core, before: Core, next: Core, crew: set<PublicKey>, m: Position, actor: PublicKey, e: Edit)
    requires Hierarchy(c0, before, crew, m) && Hierarchy(c0, next, crew, m) && OwnerOutside(c0, crew) && actor in crew
    requires EditOne(before, next, actor, e).Ok?
    ensures Hierarchy(c0, EditOne(before, next, actor, e).value, crew, m)
  {
    hide EditOverrideOne, EditRoleOne, EditRoleDeleteOne, LowRoleChange, HeldUpTo, Rank, Superior, Untouched;
    var c := EditOne(before, next, actor, e).value;
    CrewRank(c0, before, crew, m, actor);
    match e
    case EditRole(r) =>
      LowRoleEdited(before, next, actor, r, m);
      LowRoleChangeKeepsHierarchy(c0, next, c, crew, r.id, m);
    case EditRoleDelete(id) =>
      LowRoleDeleted(before, next, actor, id, m);
      LowRoleChangeKeepsHierarchy(c0, next, c, crew, id, m);
    case _ =>
      QuietEdit(before, next, actor, e);
      hide Hierarchy, EditOne;
      SameRanks(c0, next, c, crew, m);
  }

  lemma SameRanks(c0: Core, c: Core, d: Core, crew: set<PublicKey>, m: Position)
    requires Hierarchy(c0, c, crew, m)
    requires c.roles == d.roles && c.members == d.members && c.owner == d.owner
    requires c.bans == d.bans && c.mutes == d.mutes
    ensures Hierarchy(c0, d, crew, m)
  {
    forall x | x in crew && x in d.members ensures HeldUpTo(d, d.members[x], m) {
      assert HeldUpTo(c, c.members[x], m);
    }
    forall p | Superior(c0, crew, m, p) ensures Untouched(c0, d, m, p) {
      assert Untouched(c0, c, m, p);
    }
  }

  lemma {:induction false} BatchKeepsHierarchy(c0: Core, before: Core, crew: set<PublicKey>, m: Position, actor: PublicKey, edits: seq<Edit>)
    requires Hierarchy(c0, before, crew, m) && OwnerOutside(c0, crew) && actor in crew
    requires EditAll(before, before, actor, edits).Ok?
    ensures Hierarchy(c0, EditAll(before, before, actor, edits).value, crew, m)
    decreases |edits|
  {
    hide Hierarchy, EditOne;
    if edits != [] {
      var last := |edits| - 1;
      BatchKeepsHierarchy(c0, before, crew, m, actor, edits[..last]);
      EditKeepsHierarchy(c0, before, EditAll(before, before, actor, edits[..last]).value, crew, m, actor, edits[last]);
    }
  }

  /** Roles are kept, no roles are handed out, and every superior is spared. */
  ghost predicate Spares(c0: Core, c: Core, d: Core, crew: set<PublicKey>, m: Position) {
    && d.owner == c.owner && d.roles == c.roles
    && (forall p :: p in d.members ==> d.members[p] == if p in c.members then c.members[p] else {})
    && (forall p :: Superior(c0, crew, m, p) && p in c.members ==>
          && p in d.members
          && (p in d.bans ==> p in c.bans)
          && (p in d.mutes <==> p in c.mutes)
          && (p in d.mutes ==> d.mutes[p] == c.mutes[p]))
  }

  lemma SparingKeepsHierarchy(c0: Core, c: Core, d: Core, crew: set<PublicKey>, m: Position)
    requires Hierarchy(c0, c, crew, m) && Spares(c0, c, d, crew, m)
    ensures Hierarchy(c0, d, crew, m)
  {
    forall x | x in crew && x in d.members ensures HeldUpTo(d, d.members[x], m) {
      if x in c.members {
        assert HeldUpTo(c, c.members[x], m);
      }
    }
    forall p | Superior(c0, crew, m, p) ensures Untouched(c0, d, m, p) {
      assert Untouched(c0, c, m, p);
    }
  }

  /** Sparing one person at a time: `target` is the only one a removal or mute touches. */
  lemma RemoveSpares(c0: Core, c: Core, crew: set<PublicKey>, m: Position, actor: PublicKey, target: PublicKey, ban: bool)
    requires JudgeRemove(c, actor, target, ban).Ok? && !Superior(c0, crew, m, target)
    ensures Spares(c0, c, JudgeRemove(c, actor, target, ban).value, crew, m)
  {
    hide Holds, Outranks, Superior;
  }

  lemma MuteSpares(c0: Core, c: Core, crew: set<PublicKey>, m: Position, actor: PublicKey, target: PublicKey, until: Option<Timestamp>, at: Timestamp)
    requires JudgeMute(c, actor, target, until, at).Ok? && !Superior(c0, crew, m, target)
    ensures Spares(c0, c, JudgeMute(c, actor, target, until, at).value, crew, m)
  {
    hide Holds, Outranks, Superior;
  }

  lemma {:induction false} CrewSparesSuperiors(c0: Core, c: Core, invites: Invites, crew: set<PublicKey>, m: Position, ev: Event)
    requires Hierarchy(c0, c, crew, m) && OwnerOutside(c0, crew) && ev.author in crew
    requires Judge(c, invites, ev).Ok? && !ActionOf(ev).value.Put? && !ActionOf(ev).value.EditGroup?
    ensures Spares(c0, c, Judge(c, invites, ev).value, crew, m)
  {
    hide Holds, Honoured, EditAll, JudgePut, Rank, Hierarchy, Spares;
    match ActionOf(ev).value
    case Remove(target, ban) =>
      if Superior(c0, crew, m, target) {
        CrewBelowSuperiors(c0, c, crew, m, ev.author, target);
      }
      RemoveSpares(c0, c, crew, m, ev.author, target, ban);
    case Mute(target, until) =>
      if Superior(c0, crew, m, target) {
        CrewBelowSuperiors(c0, c, crew, m, ev.author, target);
      }
      MuteSpares(c0, c, crew, m, ev.author, target, until, ev.at);
    case _ =>
      hide JudgeRemove, JudgeMute;
      OthersSpare(c0, c, invites, crew, m, ev);
  }

  lemma OthersSpare(c0: Core, c: Core, invites: Invites, crew: set<PublicKey>, m: Position, ev: Event)
    requires ev.author in crew && Judge(c, invites, ev).Ok?
    requires ActionOf(ev).value.Unban? || ActionOf(ev).value.Join? || ActionOf(ev).value.Leave?
    ensures Spares(c0, c, Judge(c, invites, ev).value, crew, m)
  {
    hide Holds, Honoured, Rank, IsOwner;
  }

  lemma {:induction false} JudgeKeepsHierarchy(c0: Core, c: Core, invites: Invites, crew: set<PublicKey>, m: Position, ev: Event)
    requires Hierarchy(c0, c, crew, m) && OwnerOutside(c0, crew) && ev.author in crew
    requires Judge(c, invites, ev).Ok?
    ensures Hierarchy(c0, Judge(c, invites, ev).value, crew, m)
  {
    hide Hierarchy, EditAll, JudgePut, Spares;
    match ActionOf(ev).value {
      case Put(target, roles) => PutKeepsHierarchy(c0, c, crew, m, ev.author, target, roles);
      case EditGroup(edits) => BatchKeepsHierarchy(c0, c, crew, m, ev.author, edits);
      case _ =>
        CrewSparesSuperiors(c0, c, invites, crew, m, ev);
        SparingKeepsHierarchy(c0, c, Judge(c, invites, ev).value, crew, m);
    }
  }

  lemma {:induction false} RunKeepsHierarchy(s: GroupState, acts: seq<Event>, crew: set<PublicKey>, m: Position)
    requires forall x :: x in crew ==> Rank(s.core, x) <= m
    requires OwnerOutside(s.core, crew) && AuthoredBy(crew, acts)
    ensures Hierarchy(s.core, RunSteps(s, acts).core, crew, m)
  {
    hide Hierarchy, Judge, NextTrace, Rank;
    if acts == [] {
      HierarchyAtStart(s.core, crew, m);
    } else {
      var last := |acts| - 1;
      RunKeepsHierarchy(s, acts[..last], crew, m);
      var mid := RunSteps(s, acts[..last]);
      if Judge(mid.core, mid.invites, acts[last]).Ok? {
        JudgeKeepsHierarchy(s.core, mid.core, mid.invites, crew, m, acts[last]);
      }
    }
  }

  /**
    Superiors are safe: with `m` at or above every crew rank at the start, no crew member ever
    exceeds `m`, and whoever outside the crew starts at `m` or above (or owns the group) stays
    a member, keeps every role at `m` or above, is not newly banned, and no mute of theirs
    changes.
   */
  lemma {:induction false} SuperiorsAreSafe(s: GroupState, acts: seq<Event>, crew: set<PublicKey>, m: Position)
    requires forall x :: x in crew ==> Rank(s.core, x) <= m
    requires OwnerOutside(s.core, crew) && AuthoredBy(crew, acts)
    ensures forall x :: x in crew ==> Rank(RunSteps(s, acts).core, x) <= m
    ensures forall p :: Superior(s.core, crew, m, p) ==> Untouched(s.core, RunSteps(s, acts).core, m, p)
    ensures forall p :: Superior(s.core, crew, m, p) && !IsOwner(s.core, p) ==> Rank(RunSteps(s, acts).core, p) >= m
  {
    hide RunSteps;
    RunKeepsHierarchy(s, acts, crew, m);
    var c := RunSteps(s, acts).core;
    forall x | x in crew ensures Rank(c, x) <= m {
      CrewRank(s.core, c, crew, m, x);
    }
    forall p | Superior(s.core, crew, m, p) && !IsOwner(s.core, p) ensures Rank(c, p) >= m {
      assert Untouched(s.core, c, m, p);
      if m > I64_MIN {
        var r :| r in s.core.members[p] && r in s.core.roles && s.core.roles[r].position == Rank(s.core, p);
        assert r in c.members[p] && c.roles[r] == s.core.roles[r];
      }
    }
  }
}
