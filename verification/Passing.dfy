/** Whose events get in, and whose take others away: every node at rest, every event, every moment. */
module Passing {
  import opened Prelude
  import opened Perm
  import opened Group
  import opened EventLists
  import opened Replace
  import opened State
  import opened Fold
  import opened Judge
  import opened Store
  import opened Gate
  import opened Arrivals
  import opened Powers
  import opened Edits

  // ---- who may do what in a channel ----------------------------------------------------------------

  /** Dated no more than ten minutes ahead, in a group the node carries and has the state of. */
  predicate Placeable(n: Node, e: Event, now: Timestamp) {
    && e.at <= now + 600 && e.group.Some? && e.group.value in n.groups && n.groups[e.group.value].Some?
  }

  /** By a member, in a channel there is, which they may view and do `b` in. */
  ghost predicate InChannelWith(n: Node, e: Event, now: Timestamp, b: Bits) {
    && Placeable(n, e, now) && e.channel.Some?
    && var c := n.groups[e.group.value].value.core;
       && Listed(c.channels, e.channel.value) && e.author in c.members
       && Bit(Effective(c, e.author, e.channel.value), 0x001) && Bit(Effective(c, e.author, e.channel.value), b)
  }

  /** Some silence of `who` covers `t`. */
  predicate Muzzled(s: GroupState, who: PublicKey, t: Timestamp) {
    exists x :: x in s.trace.silences && x.who == who && x.from <= t && (x.until.Some? ==> t < x.until.value)
  }

  /** How long a newcomer waits: what the group asks, and in a public one five minutes at the least. */
  function NewcomersWait(c: Core): nat { if c.public && c.newcomerWait < 300 then 300 else c.newcomerWait }

  /** May speak there: sending allowed, nobody silenced, and no newcomer inside their wait. */
  ghost predicate Speaks(n: Node, e: Event, now: Timestamp) {
    && InChannelWith(n, e, now, 0x002)
    && var s := n.groups[e.group.value].value;
       && !Muzzled(s, e.author, e.at)
       && (NewcomersWait(s.core) == 0 || e.author !in s.trace.joined || s.trace.joined[e.author] + NewcomersWait(s.core) <= e.at)
  }

  /** No stored deletion by its author, and no stored removal in its channel, names it. */
  predicate StillWanted(rows: seq<Event>, e: Event) {
    forall d :: d in rows ==>
      && !(d.body.Deletion? && d.author == e.author && e.id in d.body.withdrawn)
      && !(d.body.Removal? && d.group == e.group && d.channel == e.channel && e.id in d.body.removed)
  }

  /** The slowmode of the first channel of that id. */
  ghost predicate SlowBy(channels: seq<Channel>, id: string, wait: nat) {
    exists i :: 0 <= i < |channels| && channels[i].id == id && channels[i].slowmode == wait
                && forall j :: 0 <= j < i ==> channels[j].id != id
  }

  /** No other message of its author's in its channel is less than the slowmode away. */
  ghost predicate Paces(n: Node, e: Event, now: Timestamp)
    requires Placeable(n, e, now) && e.channel.Some?
  {
    forall m, wait :: && m in n.rows && m.body.Chat? && m.id != e.id && m.author == e.author && m.group == e.group && m.channel == e.channel
                      && SlowBy(n.groups[e.group.value].value.core.channels, e.channel.value, wait) ==>
      m.at + wait <= e.at || e.at + wait <= m.at
  }

  lemma ListedChannel(channels: seq<Channel>, id: string)
    ensures HasChannel(channels, id) <==> Listed(channels, id)
  {
    ListedIsHas(channels, id);
  }

  lemma {:induction false} SlowmodeIs(channels: seq<Channel>, id: string)
    requires Listed(channels, id)
    ensures SlowBy(channels, id, SlowmodeOf(channels, id))
    ensures forall wait :: SlowBy(channels, id, wait) ==> wait == SlowmodeOf(channels, id)
  {
    SlowmodeFirst(channels, id);
  }

  lemma {:induction false} SlowmodeFirst(channels: seq<Channel>, id: string)
    requires Listed(channels, id)
    ensures exists i :: && 0 <= i < |channels| && channels[i].id == id && channels[i].slowmode == SlowmodeOf(channels, id)
                        && forall j :: 0 <= j < i ==> channels[j].id != id
  {
    if channels[0].id != id {
      var rest := channels[1..];
      assert channels == [channels[0]] + rest;
      SlowmodeFirst(rest, id);
      var i :| && 0 <= i < |rest| && rest[i].id == id && rest[i].slowmode == SlowmodeOf(rest, id)
               && forall j :: 0 <= j < i ==> rest[j].id != id;
      assert channels[i + 1] == rest[i];
      assert forall j :: 0 < j < i + 1 ==> channels[j] == rest[j - 1];
    }
  }

  lemma ChannelNumbers()
    ensures VIEW_CHANNEL == 0x001 && SEND_MESSAGES == 0x002 && MANAGE_MESSAGES == 0x004 && CREATE_INVITE == 0x010
    ensures Defined(0x001) && Defined(0x002) && Defined(0x004) && Defined(0x010)
  {
  }

  lemma InChannelIs(s: GroupState, e: Event, b: Bits)
    ensures Defined(b) ==> (MayInChannel(s, e, Union(VIEW_CHANNEL, b)) <==>
              && e.channel.Some? && Listed(s.core.channels, e.channel.value) && e.author in s.core.members
              && Bit(Effective(s.core, e.author, e.channel.value), 0x001) && Bit(Effective(s.core, e.author, e.channel.value), b))
    ensures MayInChannel(s, e, VIEW_CHANNEL) <==>
              && e.channel.Some? && Listed(s.core.channels, e.channel.value) && e.author in s.core.members
              && Bit(Effective(s.core, e.author, e.channel.value), 0x001)
  {
    hide Effective, Defined, Bit, Contains, HasChannel, Listed, Union;
    ChannelNumbers();
    if e.channel.Some? {
      var k := Effective(s.core, e.author, e.channel.value);
      ListedChannel(s.core.channels, e.channel.value);
      BothContained(k, 0x001, b);
      BitIsContained(k, 0x001);
    }
  }

  lemma SpeaksIs(n: Node, e: Event, now: Timestamp)
    requires Placeable(n, e, now)
    ensures
      var s := n.groups[e.group.value].value;
      Speaks(n, e, now) <==>
      MayInChannel(s, e, Union(VIEW_CHANNEL, SEND_MESSAGES)) && !SilencedAt(s, e.author, e.at) && !Waiting(s, e.author, e.at)
  {
    hide Effective, Bit, MayInChannel, Defined, Listed;
    ChannelNumbers();
    InChannelIs(n.groups[e.group.value].value, e, SEND_MESSAGES);
  }

  // ---- what comes in ---------------------------------------------------------------------------------

  /** The row that will do for an event's slot: none is there, or it replaces the one that is. */
  predicate Newest(rows: seq<Event>, e: Event) {
    forall r :: r in rows && SameSlot(r, e) ==> Replaces(e, r)
  }

  /** Shares a group with the node's person, is that person, or shows a profile in a public group. */
  predicate OfAPeer(n: Node, e: Event) {
    || e.author == n.me
    || exists g :: && g in n.groups && n.groups[g].Some? && e.author in n.groups[g].value.core.members
                   && (n.me in n.groups[g].value.core.members || (e.body.Profile? && n.groups[g].value.core.public))
  }

  /** What it takes for an event that is not there to be there after it arrives. */
  ghost predicate ComesToStay(n: Node, e: Event, now: Timestamp) {
    match e.body
    case Chat(filesOk) => Speaks(n, e, now) && filesOk && StillWanted(n.rows, e) && Paces(n, e, now)
    case Reaction(targets, length) => Speaks(n, e, now) && |targets| == 1 && 1 <= length <= 32 && StillWanted(n.rows, e)
    case Deletion(targets) => InChannelWith(n, e, now, 0x001) && targets != []
    case Removal(targets) => InChannelWith(n, e, now, 0x004) && targets != []
    case CreateGroup => Placeable(n, e, now) && n.groups[e.group.value].value.namedOwner == Some(e.author)
    case StateBody(_, _) =>
      e.at <= now + 600 && e.group.Some? && e.group.value in n.groups && e.author == e.group.value && Newest(n.rows, e)
    case ActionBody(CreateInvite, a) =>
      && Placeable(n, e, now) && Bit(Base(n.groups[e.group.value].value.core, e.author), 0x010)
      && !(a.Some? && a.value.Invite? && a.value.expires.Some?
           && a.value.expires.value < now && a.value.expires.value < n.groups[e.group.value].value.cutoff)
    case ActionBody(_, _) =>
      && Placeable(n, e, now) && n.groups[e.group.value].value.cutoff <= e.at
      && FoldEvents(e.group.value, n.rows + [e]).Some? && e.id in FoldEvents(e.group.value, n.rows + [e]).value.trace.applied
    case Binding(_) => e.at <= now + 600 && OfAPeer(n, e) && Bindings.WellTagged(e, now) && Newest(n.rows, e)
    case Profile => e.at <= now + 600 && OfAPeer(n, e) && Newest(n.rows, e)
    case _ => false
  }

  // ---- the gate lets in exactly that ------------------------------------------------------------------

  lemma TakenBackIs(rows: seq<Event>, e: Event)
    ensures Deletable(e) ==> (StillWanted(rows, e) <==> !IsDeleted(rows, e.id, e.author) && !RemovedByModerator(rows, e))
  {
  }

  lemma {:induction false} PaceIs(n: Node, e: Event, now: Timestamp)
    requires InChannelWith(n, e, now, 0x002)
    ensures Paces(n, e, now) <==> !TooSoon(n.rows, n.groups, e)
  {
    hide Effective, Bit, SlowBy, SlowmodeOf;
    SlowmodeIs(n.groups[e.group.value].value.core.channels, e.channel.value);
  }

  /** A message, a reaction, a deletion or a removal is judged and checked exactly so. */
  lemma {:induction false} ChannelWelcome(n: Node, e: Event, now: Timestamp)
    requires InChannel(e) && SharesLock(e)
    ensures Welcome(n, e, now) <==> ComesToStay(n, e, now)
  {
    hide Effective, Bit, MayInChannel, SilencedAt, Waiting, Speaks, Paces, TooSoon, IsDeleted, RemovedByModerator, StillWanted, Contains, Listed;
    if Placeable(n, e, now) {
      var s := n.groups[e.group.value].value;
      ChannelNumbers();
      SpeaksIs(n, e, now);
      InChannelIs(s, e, MANAGE_MESSAGES);
      TakenBackIs(n.rows, e);
      SpeakersAreThere(n, e, now);
      if e.body.Chat? && Speaks(n, e, now) {
        PaceIs(n, e, now);
      }
    } else {
      Unplaceable(n, e, now);
    }
  }

  lemma SpeakersAreThere(n: Node, e: Event, now: Timestamp)
    ensures Speaks(n, e, now) ==> InChannelWith(n, e, now, 0x002)
    ensures InChannelWith(n, e, now, 0x001) || InChannelWith(n, e, now, 0x004) ==> Placeable(n, e, now)
  {
  }

  lemma Unplaceable(n: Node, e: Event, now: Timestamp)
    requires !Placeable(n, e, now) && InChannel(e)
    ensures !JudgeEvent(n.groups, e, now).Keep? && !ComesToStay(n, e, now)
  {
  }

  /** One row a slot. */
  ghost predicate SlotsAreSingle(rows: seq<Event>) {
    forall a, b :: a in rows && b in rows && SameSlot(a, b) ==> a == b
  }

  lemma {:induction false} InsertedWhenNewest(rows: seq<Event>, e: Event)
    requires SlotsAreSingle(rows) && !HasId(rows, e.id) && !e.body.Presence?
    requires !SlotOf(e).Ephemeral?
    ensures e in Insert(rows, e).rows <==> Newest(rows, e)
    ensures Insert(rows, e).outcome.New? <==> Newest(rows, e)
  {
    hide Replaces, Drop;
    CurrentInFinds(rows, e);
    RegularHasNoSlot(e);
    var current := CurrentIn(rows, e);
    if current.Some? {
      assert Newest(rows, e) <==> Replaces(e, current.value) by {
        SlotmateIs(rows, e, current.value);
      }
    }
    InsertMembers(rows, e);
  }

  lemma SlotmateIs(rows: seq<Event>, e: Event, c: Event)
    requires SlotsAreSingle(rows) && c in rows && SameSlot(c, e)
    ensures forall r :: r in rows && SameSlot(r, e) ==> r == c
  {
    forall r | r in rows && SameSlot(r, e) ensures r == c {
      SameSlotIsEquivalence(r, e, c);
      SameSlotIsEquivalence(e, c, e);
      assert SameSlot(r, c);
    }
  }

  lemma Slots(e: Event)
    ensures InChannel(e) || e.body.CreateGroup? || e.body.ActionBody? ==> SlotOf(e).Regular?
    ensures e.body.StateBody? || e.body.Binding? || e.body.Profile? ==> !SlotOf(e).Regular? && !SlotOf(e).Ephemeral?
    ensures e.body.Presence? ==> SlotOf(e).Ephemeral?
  {
  }

  lemma RegularIsNewest(rows: seq<Event>, e: Event)
    ensures SlotOf(e).Regular? ==> Newest(rows, e)
  {
  }

  /** Dropping messages and reactions keeps whatever is neither. */
  lemma OthersStay(rows: seq<Event>, ids: set<EventId>, e: Event)
    requires DistinctIds(rows) && e in rows && !Deletable(e)
    requires forall id :: id in ids ==> exists x :: x in rows && x.id == id && Deletable(x)
    ensures e in Drop(rows, ids)
  {
    DropMembers(rows, ids);
    if e.id in ids {
      var x :| x in rows && x.id == e.id && Deletable(x);
      SameIdSameRow(rows, x, e);
    }
  }

  lemma {:induction false} KeptMessageStays(rows: seq<Event>, e: Event)
    requires DistinctIds(rows) && !HasId(rows, e.id) && InChannel(e)
    ensures e in KeepMessage(rows, e)
  {
    hide Drop, DistinctIds;
    Slots(e);
    assert Insert(rows, e).rows == rows + [e];
    DistinctAppend(rows, e);
    if e.body.Deletion? {
      OthersStay(rows + [e], Withdrawn(rows + [e], e), e);
    } else if e.body.Removal? {
      OthersStay(rows + [e], RemovedBy(rows + [e], e), e);
    }
  }

  /** A state change is admitted exactly so. */
  lemma {:induction false} GroupWelcome(n: Node, e: Event, now: Timestamp)
    requires TakesLock(e)
    ensures Admissible(n, e, now) && Newest(n.rows, e) <==> ComesToStay(n, e, now) && Newest(n.rows, e)
    ensures ComesToStay(n, e, now) ==> Newest(n.rows, e)
  {
    hide Base, Bit, Contains, FoldEvents, SameSlot, Replaces;
    Slots(e);
    RegularIsNewest(n.rows, e);
    ChannelNumbers();
    if Placeable(n, e, now) {
      BitIsContained(Base(n.groups[e.group.value].value.core, e.author), CREATE_INVITE);
    }
    hide Newest;
  }

  lemma {:induction false} GroupRows(n: Node, e: Event, now: Timestamp)
    requires TakesLock(e) && DistinctIds(n.rows) && SlotsAreSingle(n.rows) && !HasId(n.rows, e.id)
    ensures e in Accept(n, ToGroup(e, now)).rows <==> ComesToStay(n, e, now)
  {
    hide FoldEvents, Replaces, SameSlot, Drop, DistinctIds, Admissible, SlotOf, Newest, ComesToStay, SlotsAreSingle;
    GroupWelcome(n, e, now);
    NeverStored(n, e, now);
    if Admissible(n, e, now) && !SlotOf(e).Ephemeral? {
      InsertedWhenNewest(n.rows, e);
      var rows := Insert(n.rows, e).rows;
      InsertChanges(n.rows, e);
      if Insert(n.rows, e).outcome.New? {
        forall s: GroupState ensures e in Drop(rows, Silenced(rows, e.group.value, s)) {
          OthersStay(rows, Silenced(rows, e.group.value, s), e);
        }
        DropNone(rows, {});
      }
    }
  }

  /** What would not be kept is not admitted. */
  lemma NeverStored(n: Node, e: Event, now: Timestamp)
    requires TakesLock(e)
    ensures Admissible(n, e, now) ==> !SlotOf(e).Ephemeral? && !e.body.Presence? && !Deletable(e)
  {
    hide Base, Contains, FoldEvents, Applies;
  }

  lemma {:induction false} PersonalRows(n: Node, e: Event, now: Timestamp)
    requires AtRest(n) && SlotsAreSingle(n.rows) && !HasId(n.rows, e.id) && !TakesLock(e) && !SharesLock(e)
    ensures e in Accept(n, Personal(e, now)).rows <==> ComesToStay(n, e, now)
  {
    hide Replaces, SameSlot, SlotsAreSingle, Bindings.Check, Bindings.BookInsert, Newest, Effective, Base, FoldEvents, Bit, Bindings.WellTagged;
    Slots(e);
    PeerIs(n, e, now);
    Bindings.CheckExactly(e, true, now);
    if e.body.Binding? || e.body.Profile? {
      InsertedWhenNewest(n.rows, e);
    }
    hide SlotOf, Insert;
  }

  lemma PeerIs(n: Node, e: Event, now: Timestamp)
    ensures JudgePersonal(n.me, n.groups, e, now) <==> (e.body.Binding? || e.body.Profile?) && e.at <= now + 600 && OfAPeer(n, e)
  {
  }

  /**
    An event that is not there is stored by its arrival exactly when it is one its author may
    leave there: words of a member who may speak where they are said, their own deletions, a
    moderator's removals, the group's own state, actions the fold applies, invites of those who
    may invite, and the bindings and profiles of people a group is shared with.
   */
  lemma {:induction false} StoredExactly(n: Node, e: Event, now: Timestamp)
    requires AtRest(n) && DistinctIds(n.rows) && SlotsAreSingle(n.rows) && !HasId(n.rows, e.id)
    ensures e in Accept(n, Route(e, now)).rows <==> ComesToStay(n, e, now)
  {
    hide ComesToStay, Welcome, Admissible, TakesPersonal, KeepMessage, Refolded, Insert, DistinctIds, SlotsAreSingle;
    if TakesLock(e) {
      GroupRows(n, e, now);
    } else if SharesLock(e) {
      if InChannel(e) {
        ChannelWelcome(n, e, now);
        KeptMessageStays(n.rows, e);
      } else {
        PresenceGoes(n, e, now);
      }
    } else {
      PersonalRows(n, e, now);
    }
  }

  lemma PresenceGoes(n: Node, e: Event, now: Timestamp)
    requires SharesLock(e) && !InChannel(e)
    ensures e !in KeepMessage(n.rows, e) || HasId(n.rows, e.id)
    ensures !ComesToStay(n, e, now)
  {
    Slots(e);
  }

  /** Nothing comes in but what arrived. */
  lemma {:induction false} OnlyTheArrivalComes(n: Node, a: Arrival, x: Event)
    requires x in Accept(n, a).rows && x !in n.rows
    ensures x == a.event
  {
    hide Welcome, Admissible, TakesPersonal, FoldEvents, Silenced, Withdrawn, RemovedBy, Drop, Bindings.BookInsert, Bindings.Check;
    var e := a.event;
    InsertMembers(n.rows, e);
    var rows := Insert(n.rows, e).rows;
    forall ids | x in Drop(rows, ids) ensures x in rows {
      DropMembers(rows, ids);
    }
    hide Insert;
  }

  /** A presence is told on and never kept: a member's, no older than two minutes. */
  lemma PresenceExactly(n: Node, e: Event, now: Timestamp)
    requires e.body.Presence? && e.group.Some?
    ensures AnswerTo(n, Route(e, now)).New? <==>
            Placeable(n, e, now) && now <= e.at + 120 && e.author in n.groups[e.group.value].value.core.members
    ensures AnswerTo(n, Route(e, now)).New? || AnswerTo(n, Route(e, now)).Refused?
    ensures Accept(n, Route(e, now)).rows == n.rows
  {
  }

  /** The gate says so: new when it comes to stay, refused when it does not. */
  lemma {:induction false} AnsweredExactly(n: Node, e: Event, now: Timestamp)
    requires AtRest(n) && DistinctIds(n.rows) && SlotsAreSingle(n.rows) && !HasId(n.rows, e.id) && !e.body.Presence?
    ensures AnswerTo(n, Route(e, now)).New? <==> ComesToStay(n, e, now)
  {
    StoredExactly(n, e, now);
    hide ComesToStay, DistinctIds, SlotsAreSingle;
    StoredIsNew(n, Route(e, now));
    if TakesLock(e) {
      NewGroupRow(n, e, now);
    } else if SharesLock(e) {
      if InChannel(e) {
        KeptMessageStays(n.rows, e);
      }
      hide Welcome, Insert, KeepMessage;
    } else {
      hide Insert;
      NewIsThere(n.rows, e);
    }
  }

  lemma NewIsThere(rows: seq<Event>, e: Event)
    ensures Insert(rows, e).outcome.New? ==> e in Insert(rows, e).rows
  {
  }

  lemma {:induction false} NewGroupRow(n: Node, e: Event, now: Timestamp)
    requires DistinctIds(n.rows) && TakesLock(e)
    ensures AnswerTo(n, ToGroup(e, now)).New? ==> e in Accept(n, ToGroup(e, now)).rows
  {
    hide FoldEvents, Drop, DistinctIds, Admissible, Silenced, Insert;
    NeverStored(n, e, now);
    InsertChanges(n.rows, e);
    NewIsThere(n.rows, e);
    OnlyRefusedOrNew(n.rows, e);
    var rows := Insert(n.rows, e).rows;
    if Admissible(n, e, now) && Insert(n.rows, e).outcome.New? {
      forall s: GroupState ensures e in Drop(rows, Silenced(rows, e.group.value, s)) {
        SilencedAreWords(rows, e.group.value, s);
        OthersStay(rows, Silenced(rows, e.group.value, s), e);
      }
      DropNone(rows, {});
    }
  }

  lemma OnlyRefusedOrNew(rows: seq<Event>, e: Event)
    ensures Insert(rows, e).outcome.NotKept? ==> SlotOf(e).Ephemeral?
  {
  }

  lemma SilencedAreWords(rows: seq<Event>, g: PublicKey, s: GroupState)
    ensures forall id :: id in Silenced(rows, g, s) ==> exists x :: x in rows && x.id == id && Deletable(x)
  {
  }

  lemma {:induction false} StoredIsNew(n: Node, a: Arrival)
    requires !HasId(n.rows, a.event.id)
    ensures a.event in Accept(n, a).rows ==> AnswerTo(n, a).New?
  {
    hide Drop, Admissible, FoldEvents, Bindings.Check, Bindings.BookInsert, JudgePersonal, JudgeEvent, Silenced, Withdrawn, RemovedBy;
    UnchangedRows(n.rows, a.event);
    hide Insert;
  }

  /** Slots hold one row each, whatever arrives. */
  lemma {:induction false} SlotsStaySingle(n: Node, a: Arrival)
    requires SlotsAreSingle(n.rows) && DistinctIds(n.rows)
    ensures SlotsAreSingle(Accept(n, a).rows)
  {
    hide Welcome, Admissible, TakesPersonal, FoldEvents, Silenced, Withdrawn, RemovedBy, SameSlot, Drop, Insert, DistinctIds;
    hide Bindings.BookInsert, Bindings.Check;
    InsertStaysSingle(n.rows, a.event);
    var rows := Insert(n.rows, a.event).rows;
    forall ids ensures SlotsAreSingle(Drop(rows, ids)) {
      DropMembers(rows, ids);
    }
  }

  lemma {:induction false} InsertStaysSingle(rows: seq<Event>, e: Event)
    requires SlotsAreSingle(rows) && DistinctIds(rows)
    ensures SlotsAreSingle(Insert(rows, e).rows)
  {
    hide SameSlot, Replaces, Drop, DistinctIds, SlotOf;
    CurrentInFinds(rows, e);
    RegularHasNoSlot(e);
    var current := if SlotOf(e).Regular? then None else CurrentIn(rows, e);
    var kept := if current.Some? then Drop(rows, {current.value.id}) else rows;
    if current.Some? {
      DropMembers(rows, {current.value.id});
      SlotmateIs(rows, e, current.value);
    }
    forall x, y | x in kept + [e] && y in kept + [e] && SameSlot(x, y) ensures x == y {
      SameSlotIsEquivalence(x, y, x);
    }
  }

  // ---- what goes ----------------------------------------------------------------------------------------

  /** New to the node, and well placed, by one who may view the channel and do `b` there. */
  ghost predicate Arrives(n: Node, d: Event, now: Timestamp, b: Bits) {
    !HasId(n.rows, d.id) && InChannelWith(n, d, now, b)
  }

  /**
    What takes a stored word away: its author's own deletion naming it, a removal naming it where
    it stands by one who may manage messages there, or a change after which its author is silenced
    at its date.
   */
  ghost predicate TakesAway(n: Node, a: Arrival, e: Event) {
    match a
    case ToChannel(d, now) =>
      || (d.body.Deletion? && d.author == e.author && e.id in d.body.withdrawn && Arrives(n, d, now, 0x001))
      || (d.body.Removal? && d.group == e.group && d.channel == e.channel && e.id in d.body.removed && Arrives(n, d, now, 0x004))
    case ToGroup(_, _) =>
      && e.group.Some? && e.group.value in Accept(n, a).groups && Accept(n, a).groups[e.group.value].Some?
      && Muzzled(Accept(n, a).groups[e.group.value].value, e.author, e.at)
    case Personal(_, _) => false
  }

  lemma {:induction false} ChannelTakes(n: Node, d: Event, now: Timestamp, e: Event)
    requires DistinctIds(n.rows) && e in n.rows && Deletable(e)
    ensures e !in Accept(n, ToChannel(d, now)).rows <==> TakesAway(n, ToChannel(d, now), e)
  {
    hide Drop, DistinctIds, Welcome, ComesToStay, InChannelWith;
    InsertChanges(n.rows, d);
    if SharesLock(d) && InChannel(d) {
      ChannelSlots(n.rows, d);
      StoredIfNew(n.rows, d);
      ChannelWelcome(n, d, now);
      TargetsThere(n, d, now, e);
      var rows := n.rows + [d];
      if d.body.Deletion? {
        DropMembers(rows, Withdrawn(rows, d));
        if !HasId(n.rows, d.id) {
          NamedByDeletion(n.rows, d, e);
        }
      } else if d.body.Removal? {
        DropMembers(rows, RemovedBy(rows, d));
        if !HasId(n.rows, d.id) {
          NamedByRemoval(n.rows, d, e);
        }
      }
    } else {
      Elsewhere(n, d, now, e);
    }
  }

  lemma StoredIfNew(rows: seq<Event>, d: Event)
    ensures SharesLock(d) && InChannel(d) ==> (Insert(rows, d).outcome.New? <==> !HasId(rows, d.id))
    ensures !Insert(rows, d).outcome.New? ==> Insert(rows, d).rows == rows
  {
  }

  lemma TargetsThere(n: Node, d: Event, now: Timestamp, e: Event)
    ensures d.body.Deletion? && e.id in d.body.withdrawn ==> (ComesToStay(n, d, now) <==> InChannelWith(n, d, now, 0x001))
    ensures d.body.Removal? && e.id in d.body.removed ==> (ComesToStay(n, d, now) <==> InChannelWith(n, d, now, 0x004))
  {
    hide InChannelWith;
  }

  lemma NamedByDeletion(rows: seq<Event>, d: Event, e: Event)
    requires DistinctIds(rows) && e in rows && Deletable(e) && d.body.Deletion? && !HasId(rows, d.id)
    ensures e.id in Withdrawn(rows + [d], d) <==> d.author == e.author && e.id in d.body.withdrawn
  {
    assert e in rows + [d];
    if e.id in Withdrawn(rows + [d], d) {
      var x :| x in rows + [d] && x.id == e.id && x.author == d.author && Deletable(x);
      assert x in rows;
      SameIdSameRow(rows, x, e);
    }
  }

  lemma NamedByRemoval(rows: seq<Event>, d: Event, e: Event)
    requires DistinctIds(rows) && e in rows && Deletable(e) && d.body.Removal? && !HasId(rows, d.id)
    ensures e.id in RemovedBy(rows + [d], d) <==> d.group == e.group && d.channel == e.channel && e.id in d.body.removed
  {
    assert e in rows + [d];
    if e.id in RemovedBy(rows + [d], d) {
      var x :| x in rows + [d] && x.id == e.id && Deletable(x) && SamePlace(x, d);
      assert x in rows;
      SameIdSameRow(rows, x, e);
    }
  }

  /** What is no word, deletion or removal in a group takes nothing. */
  lemma Elsewhere(n: Node, d: Event, now: Timestamp, e: Event)
    requires !(SharesLock(d) && InChannel(d)) && e in n.rows
    ensures e in Accept(n, ToChannel(d, now)).rows && !TakesAway(n, ToChannel(d, now), e)
  {
    Slots(d);
  }

  lemma {:induction false} GroupTakes(n: Node, c: Event, now: Timestamp, known: set<Event>, e: Event)
    requires GateInv(n, known) && AtRest(n) && e in n.rows && Deletable(e)
    ensures e !in Accept(n, ToGroup(c, now)).rows <==> TakesAway(n, ToGroup(c, now), e)
  {
    hide FoldEvents, Drop, DistinctIds, Admissible, SilencedAt, Insert, Folded, StillWelcome, Sweeps;
    var m := Accept(n, ToGroup(c, now));
    WordsAreKept(n.rows, c, e);
    StillQuiet(n, e);
    AdmittedToAGroup(n, c, now);
    if Admissible(n, c, now) && Insert(n.rows, c).outcome.New? {
      var rows, g := Insert(n.rows, c).rows, c.group.value;
      InsertChanges(n.rows, c);
      DropNone(rows, {});
      if g in n.groups && FoldEvents(g, rows).Some? {
        var s := FoldEvents(g, rows).value;
        DropMembers(rows, Silenced(rows, g, s));
        SilencedOnly(rows, g, s, e);
      }
    } else {
      UnchangedRows(n.rows, c);
    }
    hide GateInv;
    MuzzledIsSilenced();
  }

  lemma AdmittedToAGroup(n: Node, c: Event, now: Timestamp)
    ensures Admissible(n, c, now) ==> c.group.Some?
  {
  }

  lemma MuzzledIsSilenced()
    ensures forall s, p, t :: Muzzled(s, p, t) <==> SilencedAt(s, p, t)
  {
  }

  lemma UnchangedRows(rows: seq<Event>, c: Event)
    ensures !Insert(rows, c).outcome.New? ==> Insert(rows, c).rows == rows
  {
  }

  /** Words live in no slot: no insert replaces them. */
  lemma {:induction false} WordsAreKept(rows: seq<Event>, c: Event, e: Event)
    requires DistinctIds(rows) && e in rows && Deletable(e)
    ensures e in Insert(rows, c).rows
  {
    hide Drop, DistinctIds;
    CurrentInFinds(rows, c);
    var current := CurrentIn(rows, c);
    if current.Some? {
      DropMembers(rows, {current.value.id});
      SameIdSameRow(rows, e, current.value);
    }
  }

  lemma StillQuiet(n: Node, e: Event)
    requires AllQuiet(n) && n.writer.None? && e in n.rows && Deletable(e)
    ensures e.group.Some? && e.group.value in n.groups && n.groups[e.group.value].Some? ==>
            !SilencedAt(n.groups[e.group.value].value, e.author, e.at)
  {
    hide SilencedAt;
    if e.group.Some? && e.group.value in n.groups && n.groups[e.group.value].Some? {
      assert Quiet(n.rows, e.group.value, n.groups[e.group.value].value);
    }
  }

  lemma SilencedOnly(rows: seq<Event>, g: PublicKey, s: GroupState, e: Event)
    requires DistinctIds(rows) && e in rows && Deletable(e)
    ensures e.id in Silenced(rows, g, s) <==> e.group == Some(g) && SilencedAt(s, e.author, e.at)
  {
    hide SilencedAt;
    if e.id in Silenced(rows, g, s) {
      var x :| x in rows && x.id == e.id && x.group == Some(g) && SilencedAt(s, x.author, x.at);
      SameIdSameRow(rows, x, e);
    }
  }

  /** A stored message or reaction is gone after an arrival exactly when the arrival is one that may take it away. */
  lemma {:induction false} TakenAwayExactly(n: Node, a: Arrival, known: set<Event>, e: Event)
    requires GateInv(n, known) && AtRest(n) && e in n.rows && (e.body.Chat? || e.body.Reaction?)
    ensures e !in Accept(n, a).rows <==> TakesAway(n, a, e)
  {
    match a
    case ToChannel(d, now) =>
      ChannelTakes(n, d, now, e);
    case ToGroup(c, now) => GroupTakes(n, c, now, known, e);
    case Personal(x, now) => WordsAreKept(n.rows, x, e);
  }
}
