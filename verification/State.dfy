/**
  One group's state and the verdict on one action (crates/hit-group/src/state.rs), as
  functions of values. `Core` is what a verdict reads and changes; `GroupState` adds what
  the fold records beside it. GroupFold.dfy proves the field-by-field code equal to these.
 */
module State {
  import opened Prelude
  import opened Perm
  import opened Group

  type Invites = map<string, seq<InviteEntry>>

  datatype Core = Core(
    owner: Option<PublicKey>,
    name: string,
    public: bool,
    newcomerWait: Seconds,
    about: string,
    channels: seq<Channel>,
    overrides: seq<Override>,
    roles: map<string, RoleDef>,
    members: map<PublicKey, set<string>>,
    bans: set<PublicKey>,
    mutes: map<PublicKey, Timestamp>)

  /** What the fold keeps that no verdict reads. */
  datatype Trace = Trace(
    joined: map<PublicKey, Timestamp>,
    applied: set<EventId>,
    silences: seq<Silence>)

  datatype GroupState = GroupState(
    id: PublicKey, seqNo: nat, cutoff: Timestamp, namedOwner: Option<PublicKey>,
    invites: Invites, core: Core, trace: Trace)

  datatype Refusal =
    | NotAMember | AlreadyAMember | Malformed | NoSuchChannel | Lacks(needed: Bits)
    | TheOwner | NotTheOwner | Outranked | CannotGrant | UnknownRole | NoSuchInvite
    | Banned | NotBanned | NotMuted | BadEdit

  type Verdict = Result<Core, Refusal>

  // ---- the answers -----------------------------------------------------

  ghost function PermsOver(roles: map<string, RoleDef>, ids: set<string>): (perms: Bits)
    decreases |ids|
  {
    if ids == {} then NONE
    else
      var r :| r in ids;
      Union(if r in roles then roles[r].perms else NONE, PermsOver(roles, ids - {r}))
  }

  ghost function BaseOf(roles: map<string, RoleDef>, held: set<string>): Bits {
    Sanitized(PermsOver(roles, held + {DEFAULT_ROLE}))
  }

  predicate IsOwner(c: Core, p: PublicKey) { c.owner == Some(p) }

  /** Group-wide permissions; a non-member holds nothing. */
  ghost function Base(c: Core, p: PublicKey): Bits {
    if IsOwner(c, p) then ALL
    else if p !in c.members then NONE
    else BaseOf(c.roles, c.members[p])
  }

  function Allowed(overrides: seq<Override>, held: set<string>, channel: string): Bits {
    if overrides == [] then NONE
    else
      var o := overrides[|overrides| - 1];
      var rest := Allowed(overrides[..|overrides| - 1], held, channel);
      if o.channel == channel && (o.role == DEFAULT_ROLE || o.role in held) then Union(rest, o.allow) else rest
  }

  function Denied(overrides: seq<Override>, held: set<string>, channel: string): Bits {
    if overrides == [] then NONE
    else
      var o := overrides[|overrides| - 1];
      var rest := Denied(overrides[..|overrides| - 1], held, channel);
      if o.channel == channel && (o.role == DEFAULT_ROLE || o.role in held) then Union(rest, o.deny) else rest
  }

  ghost function EffectiveOf(c: Core, held: set<string>, channel: string): Bits {
    var allow := Intersection(Allowed(c.overrides, held, channel), CHANNEL_SCOPED);
    var deny := Intersection(Denied(c.overrides, held, channel), CHANNEL_SCOPED);
    Sanitized(Union(Without(BaseOf(c.roles, held), deny), allow))
  }

  ghost function Effective(c: Core, p: PublicKey, channel: string): Bits {
    if IsOwner(c, p) then ALL
    else if p !in c.members then NONE
    else EffectiveOf(c, c.members[p], channel)
  }

  /** The highest position among the defined roles of `held`, or the floor. */
  ghost function TopPosition(roles: map<string, RoleDef>, held: set<string>): (top: Position)
    ensures forall r :: r in held && r in roles ==> roles[r].position <= top
    ensures top == I64_MIN || exists r :: r in held && r in roles && roles[r].position == top
    decreases |held|
  {
    if held == {} then I64_MIN
    else
      var r :| r in held;
      var rest := TopPosition(roles, held - {r});
      if r in roles && roles[r].position > rest then roles[r].position else rest
  }

  ghost function Rank(c: Core, p: PublicKey): Position {
    if p in c.members then TopPosition(c.roles, c.members[p]) else I64_MIN
  }

  /** Nobody acts on the owner; the owner acts on everybody else; equal rank is not enough. */
  ghost predicate Outranks(c: Core, actor: PublicKey, target: PublicKey) {
    !IsOwner(c, target) && (IsOwner(c, actor) || Rank(c, actor) > Rank(c, target))
  }

  ghost predicate OutranksRole(c: Core, actor: PublicKey, role: RoleDef) {
    IsOwner(c, actor) || Rank(c, actor) > role.position
  }

  ghost predicate CanGrant(c: Core, actor: PublicKey, granting: Bits) {
    Within(granting, Base(c, actor))
  }

  ghost predicate Holds(c: Core, p: PublicKey, needed: Bits) {
    Contains(Base(c, p), needed)
  }

  predicate HasChannel(channels: seq<Channel>, id: string) {
    exists i :: 0 <= i < |channels| && channels[i].id == id
  }

  function SlowmodeOf(channels: seq<Channel>, id: string): Seconds {
    if channels == [] then 0
    else if channels[0].id == id then channels[0].slowmode
    else SlowmodeOf(channels[1..], id)
  }

  // ---- one action ------------------------------------------------------

  ghost function JudgePut(c: Core, actor: PublicKey, target: PublicKey, roles: set<string>): Verdict {
    var wanted := roles - {DEFAULT_ROLE};
    var present := target in c.members;
    var held := if present then c.members[target] else {};
    var changed := (wanted - held) + (held - wanted);
    if actor !in c.members then Err(NotAMember)
    else if IsOwner(c, target) then Err(TheOwner)
    else if OWNER_MARK in wanted || !(wanted <= c.roles.Keys) then Err(UnknownRole)
    else if !present && target in c.bans then Err(Banned)
    else if !present && !Holds(c, actor, CREATE_INVITE) then Err(Lacks(CREATE_INVITE))
    else if wanted != held && !Holds(c, actor, MANAGE_ROLES) then Err(Lacks(MANAGE_ROLES))
    else if wanted != held && present && !Outranks(c, actor, target) then Err(Outranked)
    else if !(changed <= c.roles.Keys) then Err(UnknownRole)
    else if exists r :: r in changed && !OutranksRole(c, actor, c.roles[r]) then Err(Outranked)
    else if wanted != held && !CanGrant(c, actor, PermsOver(c.roles, wanted - held)) then Err(CannotGrant)
    else Ok(c.(members := c.members[target := wanted]))
  }

  ghost function JudgeRemove(c: Core, actor: PublicKey, target: PublicKey, ban: bool): Verdict {
    var needed := if ban then BAN_MEMBERS else KICK_MEMBERS;
    if actor !in c.members then Err(NotAMember)
    else if IsOwner(c, target) then Err(TheOwner)
    else if target !in c.members && !ban then Err(NotAMember)
    else if !Holds(c, actor, needed) then Err(Lacks(needed))
    else if !Outranks(c, actor, target) then Err(Outranked)
    else
      Ok(c.(members := c.members - {target},
            mutes := if target in c.members then c.mutes - {target} else c.mutes,
            bans := if ban then c.bans + {target} else c.bans))
  }

  ghost function JudgeUnban(c: Core, actor: PublicKey, target: PublicKey): Verdict {
    if actor !in c.members then Err(NotAMember)
    else if !Holds(c, actor, BAN_MEMBERS) then Err(Lacks(BAN_MEMBERS))
    else if target !in c.bans then Err(NotBanned)
    else Ok(c.(bans := c.bans - {target}))
  }

  /** The checks of a mute that come before it touches anything. */
  ghost function MayMute(c: Core, actor: PublicKey, target: PublicKey): Option<Refusal> {
    if actor !in c.members then Some(NotAMember)
    else if IsOwner(c, target) then Some(TheOwner)
    else if target !in c.members then Some(NotAMember)
    else if !Holds(c, actor, MUTE_MEMBERS) then Some(Lacks(MUTE_MEMBERS))
    else if !Outranks(c, actor, target) then Some(Outranked)
    else None
  }

  ghost function JudgeMute(c: Core, actor: PublicKey, target: PublicKey, until: Option<Timestamp>, at: Timestamp): Verdict {
    var no := MayMute(c, actor, target);
    if no.Some? then Err(no.value)
    else if until.Some? then
      if until.value > at then Ok(c.(mutes := c.mutes[target := until.value])) else Err(Malformed)
    else if target in c.mutes then Ok(c.(mutes := c.mutes - {target}))
    else Err(NotMuted)
  }

  /** Does some invite under `code` let its bearer in at `at`? */
  ghost predicate Honoured(c: Core, invites: Invites, code: Option<string>, at: Timestamp) {
    match code
    case None => c.public
    case Some(k) =>
      k in invites && exists i :: i in invites[k] && i.at <= at
                                  && (i.expires.None? || at <= i.expires.value)
                                  && Holds(c, i.author, CREATE_INVITE)
  }

  ghost function JudgeJoin(c: Core, invites: Invites, actor: PublicKey, code: Option<string>, at: Timestamp): Verdict {
    if actor in c.members then Err(AlreadyAMember)
    else if !Honoured(c, invites, code, at) then Err(NoSuchInvite)
    else if actor in c.bans then Err(Banned)
    else Ok(c.(members := c.members[actor := {}]))
  }

  function JudgeLeave(c: Core, actor: PublicKey): Verdict {
    if IsOwner(c, actor) then Err(TheOwner)
    else if actor !in c.members then Err(NotAMember)
    else Ok(c.(members := c.members - {actor}, mutes := c.mutes - {actor}))
  }

  // ---- edits -----------------------------------------------------------

  predicate GoodLabel(s: string) { 0 < |Trim(s)| <= MAX_LABEL }

  /** Replaces the first channel with this id, or appends. */
  function PutChannel(channels: seq<Channel>, ch: Channel): seq<Channel> {
    if channels == [] then [ch]
    else if channels[0].id == ch.id then [ch] + channels[1..]
    else [channels[0]] + PutChannel(channels[1..], ch)
  }

  function DropChannel(channels: seq<Channel>, id: string): seq<Channel> {
    if channels == [] then []
    else
      var rest := DropChannel(channels[..|channels| - 1], id);
      if channels[|channels| - 1].id == id then rest else rest + [channels[|channels| - 1]]
  }

  function DropOverrides(overrides: seq<Override>, channel: Option<string>, role: Option<string>): seq<Override> {
    if overrides == [] then []
    else
      var o := overrides[|overrides| - 1];
      var rest := DropOverrides(overrides[..|overrides| - 1], channel, role);
      if (channel.None? || o.channel == channel.value) && (role.None? || o.role == role.value)
      then rest else rest + [o]
  }

  function StripRole(members: map<PublicKey, set<string>>, role: string): map<PublicKey, set<string>> {
    map p | p in members :: members[p] - {role}
  }

  function Scoped(bits: Bits): Bits { Intersection(Sanitized(bits), CHANNEL_SCOPED) }

  ghost function EditRoleOne(before: Core, next: Core, actor: PublicKey, r: RoleDef): Verdict {
    var role := r.(perms := Sanitized(r.perms));
    if !Holds(before, actor, MANAGE_ROLES) then Err(Lacks(MANAGE_ROLES))
    else if !GoodLabel(r.id) || !GoodLabel(r.name) || r.id == OWNER_MARK then Err(BadEdit)
    else if r.id == DEFAULT_ROLE && !IsOwner(before, actor) then Err(NotTheOwner)
    else if r.id == DEFAULT_ROLE && r.position != 0 then Err(BadEdit)
    else if r.id != DEFAULT_ROLE && r.position <= 0 then Err(BadEdit)
    else if r.id != DEFAULT_ROLE && r.id in before.roles && !OutranksRole(before, actor, before.roles[r.id]) then Err(Outranked)
    else if r.id != DEFAULT_ROLE && !OutranksRole(before, actor, role) then Err(Outranked)
    else if !CanGrant(before, actor, role.perms) then Err(CannotGrant)
    else Ok(next.(roles := next.roles[r.id := role]))
  }

  ghost function EditOverrideOne(before: Core, next: Core, actor: PublicKey, o: Override): Verdict {
    var scoped := o.(allow := Scoped(o.allow), deny := Scoped(o.deny));
    if !Holds(before, actor, MANAGE_ROLES) then Err(Lacks(MANAGE_ROLES))
    else if !HasChannel(next.channels, o.channel) then Err(NoSuchChannel)
    else if o.role !in before.roles then Err(UnknownRole)
    else if !OutranksRole(before, actor, before.roles[o.role]) then Err(Outranked)
    else if !Within(scoped.allow, Effective(before, actor, o.channel)) then Err(CannotGrant)
    else
      var rest := DropOverrides(next.overrides, Some(o.channel), Some(o.role));
      Ok(next.(overrides := if scoped.allow != NONE || scoped.deny != NONE then rest + [scoped] else rest))
  }

  ghost function EditRoleDeleteOne(before: Core, next: Core, actor: PublicKey, id: string): Verdict {
    if !Holds(before, actor, MANAGE_ROLES) then Err(Lacks(MANAGE_ROLES))
    else if id == DEFAULT_ROLE then Err(BadEdit)
    else if id !in before.roles then Err(UnknownRole)
    else if !OutranksRole(before, actor, before.roles[id]) then Err(Outranked)
    else
      Ok(next.(roles := next.roles - {id},
               members := StripRole(next.members, id),
               overrides := DropOverrides(next.overrides, None, Some(id))))
  }

  /** One edit: judged by `before`, written to `next`. */
  ghost function EditOne(before: Core, next: Core, actor: PublicKey, e: Edit): Verdict {
    match e
    case EditName(n) =>
      if !Holds(before, actor, MANAGE_GROUP) then Err(Lacks(MANAGE_GROUP))
      else if !GoodLabel(n) then Err(BadEdit)
      else Ok(next.(name := Trim(n)))
    case EditPublic(public) =>
      if !IsOwner(before, actor) then Err(NotTheOwner)
      else Ok(next.(public := public))
    case EditNewcomerWait(secs) =>
      if !Holds(before, actor, MANAGE_CHANNELS) then Err(Lacks(MANAGE_CHANNELS))
      else if secs > MAX_NEWCOMER_WAIT then Err(BadEdit)
      else Ok(next.(newcomerWait := secs))
    case EditAbout(a) =>
      if !Holds(before, actor, MANAGE_GROUP) then Err(Lacks(MANAGE_GROUP))
      else if |Trim(a)| > MAX_ABOUT then Err(BadEdit)
      else Ok(next.(about := Trim(a)))
    case EditChannel(ch) =>
      if !Holds(before, actor, MANAGE_CHANNELS) then Err(Lacks(MANAGE_CHANNELS))
      else if !GoodLabel(ch.id) || !GoodLabel(ch.name) || ch.slowmode > MAX_SLOWMODE then Err(BadEdit)
      else Ok(next.(channels := PutChannel(next.channels, ch)))
    case EditChannelDelete(id) =>
      if !Holds(before, actor, MANAGE_CHANNELS) then Err(Lacks(MANAGE_CHANNELS))
      else if !HasChannel(next.channels, id) then Err(NoSuchChannel)
      else Ok(next.(channels := DropChannel(next.channels, id),
                    overrides := DropOverrides(next.overrides, Some(id), None)))
    case EditOverride(o) => EditOverrideOne(before, next, actor, o)
    case EditRole(r) => EditRoleOne(before, next, actor, r)
    case EditRoleDelete(id) => EditRoleDeleteOne(before, next, actor, id)
  }

  /** A batch, in order; the first refusal refuses it all. */
  ghost function EditAll(before: Core, next: Core, actor: PublicKey, edits: seq<Edit>): Verdict
    decreases |edits|
  {
    if edits == [] then Ok(next)
    else
      var last := |edits| - 1;
      match EditAll(before, next, actor, edits[..last])
      case Err(e) => Err(e)
      case Ok(mid) => EditOne(before, mid, actor, edits[last])
  }

  ghost function JudgeAction(c: Core, invites: Invites, actor: PublicKey, at: Timestamp, a: Action): Verdict {
    match a
    case Put(target, roles) => JudgePut(c, actor, target, roles)
    case Remove(target, ban) => JudgeRemove(c, actor, target, ban)
    case Unban(target) => JudgeUnban(c, actor, target)
    case Mute(target, until) => JudgeMute(c, actor, target, until, at)
    case EditGroup(edits) => if actor in c.members then EditAll(c, c, actor, edits) else Err(NotAMember)
    case Join(code) => JudgeJoin(c, invites, actor, code, at)
    case Leave => JudgeLeave(c, actor)
    case Invite(_, _) => Err(Malformed)
  }

  /** The verdict on an event against `c`, and the core it leaves if it is valid. */
  ghost function Judge(c: Core, invites: Invites, ev: Event): Verdict {
    match ActionOf(ev)
    case None => Err(Malformed)
    case Some(a) => JudgeAction(c, invites, ev.author, ev.at, a)
  }

  // ---- what is recorded beside -----------------------------------------

  /** Ends the removal spans of `who` still open. */
  function LetBackIn(silences: seq<Silence>, who: PublicKey, at: Timestamp): seq<Silence> {
    seq(|silences|, i requires 0 <= i < |silences| =>
      var s := silences[i];
      if s.who == who && !s.mute && s.until.None? then s.(until := Some(at)) else s)
  }

  /** Ends the mute spans of `who` that cover `at`. */
  function CutMutes(silences: seq<Silence>, who: PublicKey, at: Timestamp): seq<Silence> {
    seq(|silences|, i requires 0 <= i < |silences| =>
      var s := silences[i];
      if s.who == who && s.mute && s.Covers(at) then s.(until := Some(at)) else s)
  }

  /** The silences after `a`, judged against `c`, applied or not. */
  ghost function NextSilences(c: Core, ok: bool, silences: seq<Silence>, actor: PublicKey, at: Timestamp, a: Action): seq<Silence> {
    match a
    case Put(target, _) =>
      if ok && target !in c.members then LetBackIn(silences, target, at) else silences
    case Remove(target, _) =>
      if ok then silences + [Silence(target, at, None, false)] else silences
    case Mute(target, until) =>
      if MayMute(c, actor, target).Some? then silences
      else
        var cut := CutMutes(silences, target, at);
        if ok && until.Some? then cut + [Silence(target, at, until, true)] else cut
    case Join(_) =>
      if ok then LetBackIn(silences, actor, at) else silences
    case Leave =>
      if ok then silences + [Silence(actor, at, None, false)] else silences
    case _ => silences
  }

  function NextJoined(c: Core, ok: bool, joined: map<PublicKey, Timestamp>, actor: PublicKey, at: Timestamp, a: Action): map<PublicKey, Timestamp> {
    if !ok then joined
    else match a
      case Remove(target, _) => if target in c.members then joined - {target} else joined
      case Join(_) => joined[actor := at]
      case Leave => joined - {actor}
      case _ => joined
  }

  ghost function NextTrace(c: Core, ok: bool, t: Trace, ev: Event): Trace {
    match ActionOf(ev)
    case None => t
    case Some(a) =>
      Trace(NextJoined(c, ok, t.joined, ev.author, ev.at, a),
            if ok then t.applied + {ev.id} else t.applied,
            NextSilences(c, ok, t.silences, ev.author, ev.at, a))
  }

  ghost predicate Refuses(s: GroupState, ev: Event) { Judge(s.core, s.invites, ev).Err? }

  /** One attempt at `ev`: the state after it, whether it applied or not. */
  ghost function Step(s: GroupState, ev: Event): GroupState {
    var v := Judge(s.core, s.invites, ev);
    s.(core := if v.Ok? then v.value else s.core,
       trace := NextTrace(s.core, v.Ok?, s.trace, ev))
  }

  // ---- one second, and the run over all of them -------------------------

  datatype Progress = Progress(state: GroupState, left: seq<Event>)

  /** One pass of `retain`: every event is tried once, in order; the refused are kept. */
  ghost function Pass(s: GroupState, pending: seq<Event>): (r: Progress)
    ensures |r.left| <= |pending|
    decreases |pending|
  {
    if pending == [] then Progress(s, [])
    else
      var last := |pending| - 1;
      var p := Pass(s, pending[..last]);
      Progress(Step(p.state, pending[last]),
               if Refuses(p.state, pending[last]) then p.left + [pending[last]] else p.left)
  }

  /** Passes until nothing more applies. */
  ghost function Second(s: GroupState, pending: seq<Event>): Progress
    decreases |pending|
  {
    var p := Pass(s, pending);
    if |p.left| == |pending| || p.left == [] then p else Second(p.state, p.left)
  }

  /** The leading events of `live` dated as its first. */
  function SecondLength(live: seq<Event>): (n: nat)
    ensures n <= |live|
    ensures live != [] ==> 0 < n
    ensures forall i :: 0 <= i < n ==> live[i].at == live[0].at
    ensures n < |live| ==> live[n].at != live[0].at
  {
    if live == [] then 0
    else if |live| == 1 || live[1].at != live[0].at then 1
    else
      var m := SecondLength(live[1..]);
      assert forall i :: 0 < i < m + 1 ==> live[i].at == live[1..][i - 1].at;
      assert m < |live[1..]| ==> live[m + 1] == live[1..][m];
      m + 1
  }

  /** Second after second, in time order. */
  ghost function RunAll(s: GroupState, live: seq<Event>): GroupState
    decreases |live|
  {
    if live == [] then s
    else
      var n := SecondLength(live);
      RunAll(Second(s, live[..n]).state, live[n..])
  }
}
