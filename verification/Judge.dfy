/**
  What a node asks of an event before it keeps it (crates/hit-group/src/lib.rs, `judge`, and
  the message judgements of crates/hit-group/src/state.rs).
 */
module Judge {
  import opened Prelude
  import opened Perm
  import opened Group
  import opened State

  const MAX_CLOCK_SKEW := 600
  const PRESENCE_MAX_AGE := 120
  const MAX_REACTION := 32

  type Groups = map<PublicKey, Option<GroupState>>

  datatype Judgement = Refuse | Keep | FoldWith(group: PublicKey)

  function NewcomerWait(c: Core): nat {
    if c.public && c.newcomerWait < PUBLIC_NEWCOMER_FLOOR then PUBLIC_NEWCOMER_FLOOR else c.newcomerWait
  }

  /** A newcomer still waiting at `now`. */
  predicate Waiting(s: GroupState, p: PublicKey, now: Timestamp) {
    var wait := NewcomerWait(s.core);
    wait != 0 && p in s.trace.joined && s.trace.joined[p] + wait > now
  }

  predicate SilencedAt(s: GroupState, who: PublicKey, t: Timestamp) {
    exists span :: span in s.trace.silences && span.who == who && span.Covers(t)
  }

  /** In an existing channel, by a member holding `needed` there. */
  ghost predicate MayInChannel(s: GroupState, e: Event, needed: Bits) {
    && e.channel.Some? && HasChannel(s.core.channels, e.channel.value)
    && e.author in s.core.members
    && Contains(Effective(s.core, e.author, e.channel.value), needed)
  }

  ghost predicate MayPost(s: GroupState, e: Event) {
    && (e.body.Chat? ==> e.body.filesOk)
    && MayInChannel(s, e, Union(VIEW_CHANNEL, SEND_MESSAGES))
    && !SilencedAt(s, e.author, e.at)
    && !Waiting(s, e.author, e.at)
  }

  /** Nothing left to do: dated before the cutoff or, for an invite, ended before both it and `now`. */
  predicate IsFolded(s: GroupState, e: Event, now: Timestamp)
    requires e.body.ActionBody?
  {
    if e.body.kind.CreateInvite? then
      var a := ActionOf(e);
      a.Some? && a.value.Invite? && a.value.expires.Some? && a.value.expires.value < now && a.value.expires.value < s.cutoff
    else e.at < s.cutoff
  }

  /** Both are members of a group the node carries. */
  ghost predicate ShareAGroup(groups: Groups, a: PublicKey, b: PublicKey) {
    exists g :: g in groups && groups[g].Some? && a in groups[g].value.core.members && b in groups[g].value.core.members
  }

  /** The profile of a member of a public group, which anyone may read. */
  ghost predicate PublicProfile(groups: Groups, e: Event) {
    e.body.Profile? && exists g :: g in groups && groups[g].Some? && groups[g].value.core.public && e.author in groups[g].value.core.members
  }

  /** May the node of `me` keep this binding or profile? */
  ghost predicate JudgePersonal(me: PublicKey, groups: Groups, e: Event, now: Timestamp) {
    && (e.body.Binding? || e.body.Profile?) && e.at <= now + MAX_CLOCK_SKEW
    && (e.author == me || ShareAGroup(groups, me, e.author) || PublicProfile(groups, e))
  }

  /** May this group event be stored and passed on, whoever delivered it? */
  ghost function JudgeEvent(groups: Groups, e: Event, now: Timestamp): Judgement {
    if e.at > now + MAX_CLOCK_SKEW || e.group.None? || e.group.value !in groups then Refuse
    else
      var g := e.group.value;
      var slot := groups[g];
      if e.body.StateBody? then (if e.author == g then Keep else Refuse)
      else if slot.None? then Refuse
      else
        var s := slot.value;
        match e.body
        case CreateGroup => if s.namedOwner == Some(e.author) then Keep else Refuse
        case ActionBody(kind, _) =>
          if IsFolded(s, e, now) then Refuse
          else if kind.CreateInvite? then (if Holds(s.core, e.author, CREATE_INVITE) then Keep else Refuse)
          else FoldWith(g)
        case Presence => if e.at + PRESENCE_MAX_AGE >= now && e.author in s.core.members then Keep else Refuse
        case Chat(_) => if MayPost(s, e) then Keep else Refuse
        case Reaction(targets, length) =>
          if |targets| == 1 && 0 < length <= MAX_REACTION && MayPost(s, e) then Keep else Refuse
        case Deletion(targets) => if targets != [] && MayInChannel(s, e, VIEW_CHANNEL) then Keep else Refuse
        case Removal(targets) =>
          if targets != [] && MayInChannel(s, e, Union(VIEW_CHANNEL, MANAGE_MESSAGES)) then Keep else Refuse
        case _ => Refuse
  }
}
