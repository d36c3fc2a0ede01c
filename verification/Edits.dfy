/**
  A batch of edits: exactly which batches are taken, each edit judged by the state before the
  whole batch, and what each edit leaves changed and unchanged.
 */
module Edits {
  import opened Prelude
  import opened Perm
  import opened Group
  import opened State
  import opened Runs
  import opened Powers
  import opened Rights

  predicate Listed(channels: seq<Channel>, id: string) {
    exists ch :: ch in channels && ch.id == id
  }

  /** Between one character and 64, the white space around them aside. */
  predicate Labels(text: string) { 1 <= |Trim(text)| <= 64 }

  /** Trimming takes white space off both ends, all of it and nothing else. */
  lemma {:induction false} TrimExactly(text: string) returns (front: string, back: string)
    ensures text == front + Trim(text) + back
    ensures (forall c :: c in front || c in back ==> IsWhitespace(c))
    ensures Trim(text) != [] ==> !IsWhitespace(Trim(text)[0]) && !IsWhitespace(Trim(text)[|Trim(text)| - 1])
  {
    hide IsWhitespace;
    front := StartTrimmed(text);
    back := EndTrimmed(TrimStart(text));
    assert Trim(text) + back == TrimStart(text);
    if Trim(text) != [] {
      assert Trim(text)[0] == TrimStart(text)[0];
    }
  }

  lemma {:induction false} StartTrimmed(s: string) returns (front: string)
    ensures s == front + TrimStart(s) && (forall c :: c in front ==> IsWhitespace(c))
    ensures TrimStart(s) != [] ==> !IsWhitespace(TrimStart(s)[0])
  {
    hide IsWhitespace;
    front := [];
    if s != [] && IsWhitespace(s[0]) {
      var rest := StartTrimmed(s[1..]);
      front := [s[0]] + rest;
    }
  }

  lemma {:induction false} EndTrimmed(s: string) returns (back: string)
    ensures s == TrimEnd(s) + back && (forall c :: c in back ==> IsWhitespace(c))
    ensures TrimEnd(s) != [] ==> !IsWhitespace(TrimEnd(s)[|TrimEnd(s)| - 1])
  {
    hide IsWhitespace;
    back := [];
    if s != [] && IsWhitespace(s[|s| - 1]) {
      var rest := EndTrimmed(s[..|s| - 1]);
      back := rest + [s[|s| - 1]];
    }
  }

  /** What the actor must be able to do, in the state before the batch, for the edit to be taken. */
  ghost predicate Permitted(c: Core, actor: PublicKey, e: Edit) {
    match e
    case EditName(name) => Can(c, actor, 0x400) && Labels(name)
    case EditPublic(_) => c.owner == Some(actor)
    case EditNewcomerWait(secs) => Can(c, actor, 0x008) && secs <= 86400
    case EditAbout(about) => Can(c, actor, 0x400) && |Trim(about)| <= 280
    case EditChannel(ch) => Can(c, actor, 0x008) && Labels(ch.id) && Labels(ch.name) && ch.slowmode <= 21600
    case EditChannelDelete(_) => Can(c, actor, 0x008)
    case EditOverride(o) =>
      && Can(c, actor, 0x200) && o.role in c.roles && Above(c, actor, c.roles[o.role].position)
      && forall b :: Defined(b) && InChannels(b) && Bit(o.allow, b) ==> Bit(Effective(c, actor, o.channel), b)
    case EditRole(r) =>
      && Can(c, actor, 0x200) && Labels(r.id) && Labels(r.name) && r.id != "owner"
      && (if r.id == "member" then c.owner == Some(actor) && r.position == 0
          else r.position > 0 && Above(c, actor, r.position) && (r.id in c.roles ==> Above(c, actor, c.roles[r.id].position)))
      && forall b :: Defined(b) && Bit(r.perms, b) ==> Can(c, actor, b)
    case EditRoleDelete(id) => Can(c, actor, 0x200) && id != "member" && id in c.roles && Above(c, actor, c.roles[id].position)
  }

  /** The channel that must be there when the edit's turn comes. */
  function ChannelNeeded(e: Edit): Option<string> {
    match e
    case EditChannelDelete(id) => Some(id)
    case EditOverride(o) => Some(o.channel)
    case _ => None
  }

  lemma ListedIsHas(channels: seq<Channel>, id: string)
    ensures HasChannel(channels, id) <==> Listed(channels, id)
  {
    if HasChannel(channels, id) {
      var i :| 0 <= i < |channels| && channels[i].id == id;
      assert channels[i] in channels;
    }
  }

  lemma EditNumbers()
    ensures MANAGE_GROUP == 0x400 && MANAGE_CHANNELS == 0x008 && MANAGE_ROLES == 0x200
    ensures Defined(0x400) && Defined(0x008) && Defined(0x200)
  {
  }

  /** What survives of an override's bits: those of the four channel permissions. */
  lemma ScopedExactly(a: Bits)
    ensures Scoped(a) < 0x1000
    ensures forall b :: Defined(b) ==> (Bit(Scoped(a), b) <==> InChannels(b) && Bit(a, b))
  {
    hide Bit, Defined, InChannels, Sanitized, Intersection;
    forall b | Defined(b) ensures Bit(Scoped(a), b) <==> InChannels(b) && Bit(a, b) {
      BitOfScoped(Sanitized(a), b);
      BitOfSanitized(a, b);
    }
    ScopedIsSmall(a);
  }

  lemma ScopedIsSmall(a: Bits)
    ensures Scoped(a) < 0x1000
  {
  }

  lemma OverrideExactly(c: Core, next: Core, actor: PublicKey, o: Override)
    ensures EditOverrideOne(c, next, actor, o).Ok? <==> Permitted(c, actor, EditOverride(o)) && Listed(next.channels, o.channel)
  {
    hide Base, Bit, Can, Defined, InChannels, Effective, Holds, Scoped, Within, Above, OutranksRole, DropOverrides;
    EditNumbers();
    HoldsIsCan(c, actor, MANAGE_ROLES);
    ListedIsHas(next.channels, o.channel);
    if o.role in c.roles {
      OverRole(c, actor, c.roles[o.role]);
    }
    ScopedExactly(o.allow);
    EffectiveBounds(c, actor, o.channel);
    WithinExactly(Scoped(o.allow), Effective(c, actor, o.channel));
  }

  lemma RoleExactly(c: Core, next: Core, actor: PublicKey, r: RoleDef)
    ensures EditRoleOne(c, next, actor, r).Ok? <==> Permitted(c, actor, EditRole(r))
  {
    hide Base, Bit, Can, Defined, Holds, Sanitized, CanGrant, Above, OutranksRole, Trim;
    EditNumbers();
    HoldsIsCan(c, actor, MANAGE_ROLES);
    if r.id in c.roles {
      OverRole(c, actor, c.roles[r.id]);
    }
    OverRole(c, actor, r.(perms := Sanitized(r.perms)));
    CanGrantExactly(c, actor, Sanitized(r.perms));
    SanitizedGrants(c, actor, r.perms);
  }

  lemma SanitizedGrants(c: Core, actor: PublicKey, perms: Bits)
    ensures Grantable(c, actor, Sanitized(perms)) <==> forall b :: Defined(b) && Bit(perms, b) ==> Can(c, actor, b)
  {
    hide Base, Bit, Defined, Sanitized;
    forall b | Defined(b) ensures Bit(Sanitized(perms), b) <==> Bit(perms, b) {
      BitOfSanitized(perms, b);
    }
    BelowUndefined();
  }

  /** One edit is taken exactly when it was permitted before the batch, and its channel is there now. */
  lemma {:induction false} EditExactly(c: Core, next: Core, actor: PublicKey, e: Edit)
    ensures EditOne(c, next, actor, e).Ok? <==>
            Permitted(c, actor, e) && (ChannelNeeded(e).Some? ==> Listed(next.channels, ChannelNeeded(e).value))
  {
    hide Base, Bit, Can, Defined, Holds, EditOverrideOne, EditRoleOne, Above, OutranksRole, Trim, DropOverrides, DropChannel, PutChannel;
    EditNumbers();
    HoldsIsCan(c, actor, MANAGE_GROUP);
    HoldsIsCan(c, actor, MANAGE_CHANNELS);
    HoldsIsCan(c, actor, MANAGE_ROLES);
    match e
    case EditOverride(o) => OverrideExactly(c, next, actor, o);
    case EditRole(r) => RoleExactly(c, next, actor, r);
    case EditChannelDelete(id) => ListedIsHas(next.channels, id);
    case EditRoleDelete(id) =>
      if id in c.roles {
        OverRole(c, actor, c.roles[id]);
      }
    case _ =>
  }

  // ---- the batch ------------------------------------------------------------------------------

  /** After these edits the channel is there: the last that names it added it, or none does and it was. */
  predicate ListedAfter(channels: seq<Channel>, edits: seq<Edit>, id: string) {
    if edits == [] then Listed(channels, id)
    else
      match edits[|edits| - 1]
      case EditChannel(ch) => ch.id == id || ListedAfter(channels, edits[..|edits| - 1], id)
      case EditChannelDelete(x) => x != id && ListedAfter(channels, edits[..|edits| - 1], id)
      case _ => ListedAfter(channels, edits[..|edits| - 1], id)
  }

  ghost predicate Taken(c: Core, actor: PublicKey, edits: seq<Edit>) {
    forall i :: 0 <= i < |edits| ==>
      && Permitted(c, actor, edits[i])
      && (ChannelNeeded(edits[i]).Some? ==> ListedAfter(c.channels, edits[..i], ChannelNeeded(edits[i]).value))
  }

  lemma {:induction false} PutChannelLists(channels: seq<Channel>, ch: Channel, id: string)
    ensures Listed(PutChannel(channels, ch), id) <==> Listed(channels, id) || ch.id == id
  {
    if channels != [] && channels[0].id != ch.id {
      PutChannelLists(channels[1..], ch, id);
      assert channels == [channels[0]] + channels[1..];
      assert forall x :: x in PutChannel(channels, ch) <==> x == channels[0] || x in PutChannel(channels[1..], ch);
    } else if channels != [] {
      assert channels == [channels[0]] + channels[1..];
      assert forall x :: x in PutChannel(channels, ch) <==> x == ch || x in channels[1..];
      assert ch in PutChannel(channels, ch);
    } else {
      assert ch in PutChannel(channels, ch);
    }
  }

  lemma {:induction false} DropChannelMembers(channels: seq<Channel>, id: string)
    ensures forall ch :: ch in DropChannel(channels, id) <==> ch in channels && ch.id != id
  {
    if channels != [] {
      var last := |channels| - 1;
      DropChannelMembers(channels[..last], id);
      assert channels == channels[..last] + [channels[last]];
    }
  }

  lemma ChannelsAfterEdit(c: Core, next: Core, actor: PublicKey, e: Edit, id: string)
    requires EditOne(c, next, actor, e).Ok?
    ensures Listed(EditOne(c, next, actor, e).value.channels, id) <==>
            match e
            case EditChannel(ch) => ch.id == id || Listed(next.channels, id)
            case EditChannelDelete(x) => x != id && Listed(next.channels, id)
            case _ => Listed(next.channels, id)
  {
    hide Holds, OutranksRole, CanGrant, Listed, Trim, Within;
    match e
    case EditChannel(ch) => PutChannelLists(next.channels, ch, id);
    case EditChannelDelete(x) =>
      DropChannelMembers(next.channels, x);
      StillListed(next.channels, x, id);
    case _ =>
  }

  lemma StillListed(channels: seq<Channel>, x: string, id: string)
    requires forall ch :: ch in DropChannel(channels, x) <==> ch in channels && ch.id != x
    ensures Listed(DropChannel(channels, x), id) <==> x != id && Listed(channels, id)
  {
  }

  /**
    A batch is taken whole, and exactly when each edit in it was permitted in the state before
    the batch and finds its channel after the edits before it.
   */
  lemma {:induction false} BatchExactly(c: Core, actor: PublicKey, edits: seq<Edit>)
    ensures EditAll(c, c, actor, edits).Ok? <==> Taken(c, actor, edits)
    ensures EditAll(c, c, actor, edits).Ok? ==>
              forall id :: Listed(EditAll(c, c, actor, edits).value.channels, id) <==> ListedAfter(c.channels, edits, id)
    decreases |edits|
  {
    hide EditOne, Permitted, Listed;
    if edits != [] {
      var last := |edits| - 1;
      var front, e := edits[..last], edits[last];
      BatchExactly(c, actor, front);
      TakenSnoc(c, actor, edits);
      if EditAll(c, c, actor, front).Ok? {
        var mid := EditAll(c, c, actor, front).value;
        EditExactly(c, mid, actor, e);
        if EditOne(c, mid, actor, e).Ok? {
          forall id ensures Listed(EditOne(c, mid, actor, e).value.channels, id) <==> ListedAfter(c.channels, edits, id) {
            ChannelsAfterEdit(c, mid, actor, e, id);
          }
        }
      }
    }
  }

  lemma TakenSnoc(c: Core, actor: PublicKey, edits: seq<Edit>)
    requires edits != []
    ensures
      var last := |edits| - 1;
      var e := edits[last];
      Taken(c, actor, edits) <==>
      && Taken(c, actor, edits[..last]) && Permitted(c, actor, e)
      && (ChannelNeeded(e).Some? ==> ListedAfter(c.channels, edits[..last], ChannelNeeded(e).value))
  {
    hide Permitted, ListedAfter;
    var front := edits[..|edits| - 1];
    assert forall i :: 0 <= i < |front| ==> front[i] == edits[i] && front[..i] == edits[..i];
  }

  /** An edit action applies exactly when its author is in and its batch is taken. */
  lemma {:induction false} EditsApplyExactly(s: GroupState, e: Event)
    requires IsEdit(e)
    ensures
      var ok := e.author in s.core.members && Taken(s.core, e.author, ActionOf(e).value.edits);
      && (Refuses(s, e) <==> !ok)
      && Step(s, e).trace == (if ok then s.trace.(applied := s.trace.applied + {e.id}) else s.trace)
      && Step(s, e).core == (if ok then EditAll(s.core, s.core, e.author, ActionOf(e).value.edits).value else s.core)
  {
    hide Taken, EditAll;
    BatchExactly(s.core, e.author, ActionOf(e).value.edits);
  }

  // ---- what an edit changes ---------------------------------------------------------------------

  /** `a` is the list of `b`'s elements that `keep` keeps, in order. */
  ghost predicate Filters<T(!new)>(a: seq<T>, b: seq<T>, keep: T -> bool)
    decreases |b|
  {
    if b == [] then a == []
    else if keep(b[|b| - 1]) then a != [] && a[|a| - 1] == b[|b| - 1] && Filters(a[..|a| - 1], b[..|b| - 1], keep)
    else Filters(a, b[..|b| - 1], keep)
  }

  /** Overrides of another channel or another role than those named. */
  function OtherThan(channel: Option<string>, role: Option<string>): Override -> bool {
    (o: Override) => (channel.Some? && o.channel != channel.value) || (role.Some? && o.role != role.value)
  }

  lemma {:induction false} DropOverridesFilters(overrides: seq<Override>, channel: Option<string>, role: Option<string>)
    ensures Filters(DropOverrides(overrides, channel, role), overrides, OtherThan(channel, role))
  {
    if overrides != [] {
      DropOverridesFilters(overrides[..|overrides| - 1], channel, role);
    }
  }

  lemma {:induction false} DropChannelFilters(channels: seq<Channel>, id: string)
    ensures Filters(DropChannel(channels, id), channels, (ch: Channel) => ch.id != id)
  {
    if channels != [] {
      DropChannelFilters(channels[..|channels| - 1], id);
    }
  }

  /** The first channel of that id replaced where it is, or the channel added at the end. */
  ghost predicate Placed(after: seq<Channel>, before: seq<Channel>, ch: Channel) {
    if Listed(before, ch.id) then
      exists i :: && 0 <= i < |before| && before[i].id == ch.id && after == before[i := ch]
                  && forall j :: 0 <= j < i ==> before[j].id != ch.id
    else after == before + [ch]
  }

  lemma {:induction false} PutChannelPlaces(channels: seq<Channel>, ch: Channel)
    ensures Placed(PutChannel(channels, ch), channels, ch)
  {
    if channels != [] {
      var rest := channels[1..];
      assert channels == [channels[0]] + rest;
      if channels[0].id == ch.id {
        assert channels[0] in channels;
        assert PutChannel(channels, ch) == channels[0 := ch];
      } else {
        PutChannelPlaces(rest, ch);
        hide Placed;
        PlacedBehind(channels[0], rest, ch, PutChannel(rest, ch));
      }
    }
  }

  lemma PlacedBehind(x: Channel, rest: seq<Channel>, ch: Channel, after: seq<Channel>)
    requires x.id != ch.id && Placed(after, rest, ch)
    ensures Placed([x] + after, [x] + rest, ch)
  {
    var all := [x] + rest;
    assert Listed(all, ch.id) <==> Listed(rest, ch.id);
    hide Listed;
    if Listed(rest, ch.id) {
      var i :| 0 <= i < |rest| && rest[i].id == ch.id && after == rest[i := ch] && forall j :: 0 <= j < i ==> rest[j].id != ch.id;
      assert all[i + 1] == rest[i] && [x] + after == all[i + 1 := ch];
      assert forall j :: 0 < j < i + 1 ==> all[j] == rest[j - 1];
    }
  }

  /** The bits of an override that count, or of a role this build knows. */
  ghost predicate SameBits(a: Bits, b: Bits, scoped: bool) {
    a < 0x1000 && forall x :: Defined(x) ==> (Bit(a, x) <==> Bit(b, x) && (scoped ==> InChannels(x)))
  }

  /** What one taken edit leaves, of the state the ones before it left. */
  lemma {:induction false} EditLeaves(c: Core, next: Core, actor: PublicKey, e: Edit)
    requires EditOne(c, next, actor, e).Ok?
    ensures
      var d := EditOne(c, next, actor, e).value;
      match e
      case EditName(name) => d == next.(name := Trim(name))
      case EditPublic(public) => d == next.(public := public)
      case EditNewcomerWait(secs) => d == next.(newcomerWait := secs)
      case EditAbout(about) => d == next.(about := Trim(about))
      case EditChannel(ch) => d == next.(channels := d.channels) && Placed(d.channels, next.channels, ch)
      case EditChannelDelete(id) =>
        && d == next.(channels := d.channels, overrides := d.overrides)
        && Filters(d.channels, next.channels, (ch: Channel) => ch.id != id)
        && Filters(d.overrides, next.overrides, OtherThan(Some(id), None))
      case EditOverride(o) =>
        && d == next.(overrides := d.overrides)
        && exists rest, x: Override ::
             && Filters(rest, next.overrides, OtherThan(Some(o.channel), Some(o.role)))
             && x.channel == o.channel && x.role == o.role && SameBits(x.allow, o.allow, true) && SameBits(x.deny, o.deny, true)
             && d.overrides == if x.allow == 0 && x.deny == 0 then rest else rest + [x]
      case EditRole(r) =>
        && d == next.(roles := d.roles) && d.roles.Keys == next.roles.Keys + {r.id}
        && (forall id :: id in next.roles && id != r.id ==> d.roles[id] == next.roles[id])
        && d.roles[r.id] == r.(perms := d.roles[r.id].perms) && SameBits(d.roles[r.id].perms, r.perms, false)
      case EditRoleDelete(id) =>
        && d == next.(roles := next.roles - {id}, members := d.members, overrides := d.overrides)
        && d.members.Keys == next.members.Keys && (forall p :: p in next.members ==> d.members[p] == next.members[p] - {id})
        && Filters(d.overrides, next.overrides, OtherThan(None, Some(id)))
  {
    hide Holds, OutranksRole, CanGrant, Trim, Within, Filters, Placed, SameBits, Scoped, Sanitized, PutChannel, DropChannel, DropOverrides;
    var d := EditOne(c, next, actor, e).value;
    match e
    case EditChannel(ch) => PutChannelPlaces(next.channels, ch);
    case EditChannelDelete(id) =>
      DropChannelFilters(next.channels, id);
      DropOverridesFilters(next.overrides, Some(id), None);
    case EditOverride(o) =>
      var x := o.(allow := Scoped(o.allow), deny := Scoped(o.deny));
      DropOverridesFilters(next.overrides, Some(o.channel), Some(o.role));
      ScopedSame(o.allow);
      ScopedSame(o.deny);
      var rest := DropOverrides(next.overrides, Some(o.channel), Some(o.role));
      assert d.overrides == if x.allow == 0 && x.deny == 0 then rest else rest + [x];
    case EditRole(r) => SanitizedSame(r.perms);
    case EditRoleDelete(id) => DropOverridesFilters(next.overrides, None, Some(id));
    case _ =>
  }

  lemma ScopedSame(a: Bits)
    ensures SameBits(Scoped(a), a, true)
  {
    hide Bit, Defined, InChannels, Scoped;
    ScopedExactly(a);
  }

  lemma SanitizedSame(a: Bits)
    ensures SameBits(Sanitized(a), a, false)
  {
    hide Bit, Defined, Sanitized;
    BelowUndefined();
    forall b | Defined(b) ensures Bit(Sanitized(a), b) <==> Bit(a, b) {
      BitOfSanitized(a, b);
    }
  }

  /** The states a taken batch passes through, each edit judged by the first. */
  lemma {:induction false} BatchIsChain(c: Core, actor: PublicKey, edits: seq<Edit>) returns (cs: seq<Core>)
    requires EditAll(c, c, actor, edits).Ok?
    ensures |cs| == |edits| + 1 && cs[0] == c && cs[|edits|] == EditAll(c, c, actor, edits).value
    ensures forall i :: 0 <= i < |edits| ==> EditOne(c, cs[i], actor, edits[i]) == Ok(cs[i + 1])
    decreases |edits|
  {
    hide EditOne;
    if edits == [] {
      cs := [c];
    } else {
      var last := |edits| - 1;
      var front := BatchIsChain(c, actor, edits[..last]);
      cs := front + [EditAll(c, c, actor, edits).value];
      assert forall i :: 0 <= i < last ==> edits[..last][i] == edits[i];
    }
  }

  // ---- over runs -----------------------------------------------------------------------------------

  /** Whether a group is public is its owner's alone to say. */
  lemma {:induction false} OwnerAloneOpens(s: GroupState, acts: seq<Event>)
    requires forall e :: e in acts ==> s.core.owner != Some(e.author)
    ensures RunSteps(s, acts).core.public == s.core.public && RunSteps(s, acts).core.owner == s.core.owner
  {
    hide Step;
    if acts != [] {
      var last := |acts| - 1;
      OwnerAloneOpens(s, acts[..last]);
      OpensOnlyAsOwner(RunSteps(s, acts[..last]), acts[last]);
    }
  }

  lemma {:induction false} OpensOnlyAsOwner(s: GroupState, e: Event)
    requires s.core.owner != Some(e.author)
    ensures Step(s, e).core.public == s.core.public && Step(s, e).core.owner == s.core.owner
  {
    hide Step, Refuses, EditAll, Taken;
    if IsEdit(e) {
      EditsApplyExactly(s, e);
      BatchExactly(s.core, e.author, ActionOf(e).value.edits);
      if EditAll(s.core, s.core, e.author, ActionOf(e).value.edits).Ok? {
        BatchOpensOnlyAsOwner(s.core, e.author, ActionOf(e).value.edits);
      }
    } else if ActionOf(e).Some? {
      AppliedCore(s, e);
    } else {
      UnparsedIsIdle(s, e);
    }
  }

  lemma {:induction false} BatchOpensOnlyAsOwner(c: Core, actor: PublicKey, edits: seq<Edit>)
    requires EditAll(c, c, actor, edits).Ok? && c.owner != Some(actor)
    ensures EditAll(c, c, actor, edits).value.public == c.public && EditAll(c, c, actor, edits).value.owner == c.owner
    decreases |edits|
  {
    if edits != [] {
      var last := |edits| - 1;
      BatchOpensOnlyAsOwner(c, actor, edits[..last]);
      hide EditAll;
      EditLeaves(c, EditAll(c, c, actor, edits[..last]).value, actor, edits[last]);
      EditExactly(c, EditAll(c, c, actor, edits[..last]).value, actor, edits[last]);
      hide EditOne;
    }
  }
}
