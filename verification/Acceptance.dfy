/**
  The node as the object it is (crates/hit-node/src/lib.rs, `Inner`): a store and a map of
  folded groups, updated in place. Each way in does exactly what its steps, taken alone, do.
 */
module Acceptance {
  import opened Prelude
  import opened Perm
  import opened Group
  import opened EventLists
  import opened State
  import opened Fold
  import opened GroupFold
  import opened Judge
  import opened Store
  import opened Gate
  import opened Arrivals

  // ---- one group's answers (crates/hit-group/src/state.rs) ---------------------------------

  method IsSilenced(s: GroupObject, who: PublicKey, t: Timestamp) returns (yes: bool)
    ensures yes == SilencedAt(s.Now(), who, t)
  {
    for i := 0 to |s.silences|
      invariant forall j :: 0 <= j < i ==> !(s.silences[j].who == who && s.silences[j].Covers(t))
    {
      if s.silences[i].who == who && s.silences[i].Covers(t) {
        assert s.silences[i] in s.Now().trace.silences;
        return true;
      }
    }
    yes := false;
  }

  method IsWaiting(s: GroupObject, p: PublicKey, now: Timestamp) returns (yes: bool)
    ensures yes == Waiting(s.Now(), p, now)
  {
    var wait: nat := if s.public && s.newcomerWait < PUBLIC_NEWCOMER_FLOOR then PUBLIC_NEWCOMER_FLOOR else s.newcomerWait;
    yes := wait != 0 && p in s.joined && s.joined[p] + wait > now;
  }

  method MayAct(s: GroupObject, e: Event, needed: Bits) returns (yes: bool)
    ensures yes == MayInChannel(s.Now(), e, needed)
  {
    hide Effective;
    if e.channel.None? || !HasChannel(s.channels, e.channel.value) || e.author !in s.members {
      return false;
    }
    var perms := s.EffectiveFor(e.author, e.channel.value);
    yes := Contains(perms, needed);
  }

  method MayWrite(s: GroupObject, e: Event) returns (yes: bool)
    ensures yes == MayPost(s.Now(), e)
  {
    hide MayInChannel, SilencedAt, Waiting;
    if e.body.Chat? && !e.body.filesOk {
      return false;
    }
    yes := MayAct(s, e, Union(VIEW_CHANNEL, SEND_MESSAGES));
    if yes {
      var silenced := IsSilenced(s, e.author, e.at);
      var waiting := IsWaiting(s, e.author, e.at);
      yes := !silenced && !waiting;
    }
  }

  method MayInvite(s: GroupObject, p: PublicKey) returns (yes: bool)
    ensures yes == Holds(s.Now().core, p, CREATE_INVITE)
  {
    var base := s.BaseFor(p);
    yes := Contains(base, CREATE_INVITE);
  }

  method FoldedAway(s: GroupObject, e: Event, now: Timestamp) returns (yes: bool)
    requires e.body.ActionBody?
    ensures yes == IsFolded(s.Now(), e, now)
  {
    if e.body.kind.CreateInvite? {
      var a := ActionOf(e);
      yes := a.Some? && a.value.Invite? && a.value.expires.Some? && a.value.expires.value < now && a.value.expires.value < s.cutoff;
    } else {
      yes := e.at < s.cutoff;
    }
  }

  /** What a known state says of an event that is no state piece. */
  method JudgeIn(s: GroupObject, g: PublicKey, e: Event, now: Timestamp) returns (j: Judgement)
    requires !e.body.StateBody? && e.at <= now + MAX_CLOCK_SKEW && e.group == Some(g)
    ensures forall groups: Groups :: g in groups && groups[g] == Some(s.Now()) ==> j == JudgeEvent(groups, e, now)
  {
    hide MayInChannel, MayPost, IsFolded, Holds;
    var yes := false;
    match e.body {
      case CreateGroup => yes := s.namedOwner == Some(e.author);
      case ActionBody(kind, _) =>
        var folded := FoldedAway(s, e, now);
        if !folded {
          if !kind.CreateInvite? {
            return FoldWith(g);
          }
          yes := MayInvite(s, e.author);
        }
      case Presence => yes := e.at + PRESENCE_MAX_AGE >= now && e.author in s.members;
      case Chat(_) => yes := MayWrite(s, e);
      case Reaction(targets, length) =>
        if |targets| == 1 && 0 < length <= MAX_REACTION {
          yes := MayWrite(s, e);
        }
      case Deletion(targets) =>
        if targets != [] {
          yes := MayAct(s, e, VIEW_CHANNEL);
        }
      case Removal(targets) =>
        if targets != [] {
          yes := MayAct(s, e, Union(VIEW_CHANNEL, MANAGE_MESSAGES));
        }
      case _ =>
    }
    j := if yes then Keep else Refuse;
  }

  class NodeObject {
    const me: PublicKey
    const table: EventTable
    const book: Bindings.BindingBook
    var states: map<PublicKey, GroupObject?>

    constructor (me: PublicKey, carried: set<PublicKey>)
      ensures Value() == Fresh(me, carried) && fresh(table) && fresh(book)
    {
      this.me := me;
      table := new EventTable();
      book := new Bindings.BindingBook();
      states := map g | g in carried :: null;
    }

    ghost function GroupsNow(): Groups
      reads this, set g | g in states :: states[g]
    {
      map g | g in states :: if states[g] == null then None else Some(states[g].Now())
    }

    /** The node with nobody inside. */
    ghost function Value(): Node
      reads this, table, book, set g | g in states :: states[g]
    {
      Node(me, table.rows, book.newest, GroupsNow(), map[], None)
    }

    method JudgeNow(e: Event, now: Timestamp) returns (j: Judgement)
      ensures j == JudgeEvent(GroupsNow(), e, now)
    {
      hide MayInChannel, MayPost, IsFolded, Holds;
      if e.at > now + MAX_CLOCK_SKEW || e.group.None? || e.group.value !in states {
        return Refuse;
      }
      var g := e.group.value;
      if e.body.StateBody? {
        return if e.author == g then Keep else Refuse;
      }
      if states[g] == null {
        return Refuse;
      }
      j := JudgeIn(states[g], g, e, now);
    }

    /** `is_deleted`, `removed_by_moderator` and `too_soon`, in turn. */
    method PassesChecks(e: Event) returns (yes: bool)
      ensures yes == Clear(table.rows, GroupsNow(), e)
    {
      if Deletable(e) && (IsDeleted(table.rows, e.id, e.author) || RemovedByModerator(table.rows, e)) {
        return false;
      }
      if e.body.Chat? {
        var soon := CameTooSoon(e);
        return !soon;
      }
      yes := true;
    }

    method CameTooSoon(e: Event) returns (yes: bool)
      ensures yes == TooSoon(table.rows, GroupsNow(), e)
    {
      var wait: nat := 0;
      if e.group.Some? && e.channel.Some? && e.group.value in states && states[e.group.value] != null {
        wait := SlowmodeOf(states[e.group.value].channels, e.channel.value);
      }
      assert wait == SlowmodeFor(GroupsNow(), e);
      yes := exists m :: m in table.rows && m.body.Chat? && m.id != e.id && m.author == e.author && SamePlace(m, e) && Near(m, e, wait);
    }

    /** Stored, and for a deletion or removal its targets gone. */
    method StoreAndSweep(e: Event) returns (answer: Answer)
      modifies table
      ensures table.rows == KeepMessage(old(table.rows), e) && answer == AnswerOf(Insert(old(table.rows), e).outcome)
    {
      hide Insert, Withdrawn, RemovedBy, Drop;
      var stored := table.Put(e);
      if stored.New? && e.body.Deletion? {
        var gone := table.Withdraw(e);
      } else if stored.New? && e.body.Removal? {
        table.Remove(RemovedBy(table.rows, e));
      }
      answer := AnswerOf(stored);
    }

    /** `accept_event`, with nobody else inside. */
    method AcceptEvent(e: Event, now: Timestamp) returns (answer: Answer)
      modifies this, table, book
      ensures Value() == Accept(old(Value()), Route(e, now)) && answer == AnswerTo(old(Value()), Route(e, now))
    {
      hide Accept, AnswerTo, GroupObject.Now;
      if TakesLock(e) {
        answer := AcceptToGroup(e, now);
      } else if SharesLock(e) {
        answer := AcceptToChannel(e, now);
      } else {
        answer := AcceptPersonal(e, now);
      }
    }

    /** `accept_event` of a channel event, its lock shared with nobody. */
    method AcceptToChannel(e: Event, now: Timestamp) returns (answer: Answer)
      modifies table
      ensures Value() == Accept(old(Value()), ToChannel(e, now)) && answer == AnswerTo(old(Value()), ToChannel(e, now))
    {
      hide JudgeEvent, Clear, KeepMessage, SharesLock, GroupObject.Now;
      if !SharesLock(e) {
        return Answer.Refused;
      }
      var judgement := JudgeNow(e, now);
      if !judgement.Keep? {
        return Answer.Refused;
      }
      var passes := PassesChecks(e);
      if !passes {
        return Answer.Refused;
      }
      answer := StoreAndSweep(e);
    }

    /** `accept_event` of whatever changes a group's state, alone under the lock. */
    method AcceptToGroup(e: Event, now: Timestamp) returns (answer: Answer)
      modifies this, table
      ensures Value() == Accept(old(Value()), ToGroup(e, now)) && answer == AnswerTo(old(Value()), ToGroup(e, now))
    {
      hide JudgeEvent, FoldEvents, Insert, Silenced, Drop, GroupObject.Now;
      if !TakesLock(e) {
        return Answer.Refused;
      }
      var judgement := JudgeNow(e, now);
      if judgement.FoldWith? {
        var applies := WouldApply(judgement.group, e);
        if !applies {
          return Answer.Refused;
        }
      } else if !judgement.Keep? {
        return Answer.Refused;
      }
      var stored := table.Put(e);
      answer := AnswerOf(stored);
      if stored.New? {
        Refold(e.group.value);
        PurgeSilenced(e.group.value);
      }
    }

    /** Folded with everything held, does the action apply? */
    method WouldApply(g: PublicKey, e: Event) returns (yes: bool)
      ensures yes == Applies(table.rows, g, e)
    {
      hide FoldEvents;
      var s := FoldGroup(g, table.rows + [e]);
      yes := s != null && e.id in s.applied;
    }

    /** `set_state`, for a carried group. */
    method Refold(g: PublicKey)
      modifies this
      ensures GroupsNow() == if g in old(GroupsNow()) then old(GroupsNow())[g := FoldEvents(g, table.rows)] else old(GroupsNow())
    {
      hide FoldEvents, GroupObject.Now;
      var s := FoldGroup(g, table.rows);
      if g in states {
        states := states[g := s];
      }
    }

    /** The loop over silences, each asking the store what its person wrote inside it. */
    method PurgeSilenced(g: PublicKey)
      modifies table
      ensures
        var n := old(Value());
        Value() == n.(rows := Drop(n.rows, if g in n.groups && n.groups[g].Some? then Silenced(n.rows, g, n.groups[g].value) else {}))
    {
      hide Drop;
      var gone: set<EventId> := {};
      if g in states && states[g] != null {
        var spans := states[g].silences;
        for i := 0 to |spans|
          invariant gone == set e | e in table.rows && e.group == Some(g) && Deletable(e) && InSpans(spans[..i], e) :: e.id
          invariant spans == states[g].silences && table.rows == old(table.rows)
        {
          ghost var before := gone;
          gone := gone + AuthoredIn(table.rows, g, spans[i]);
          OneMoreSpan(table.rows, g, spans[..i], spans[i], before);
          assert spans[..i + 1] == spans[..i] + [spans[i]];
        }
        assert spans[..|spans|] == spans;
        SilencedIs(table.rows, g, spans, GroupsNow()[g].value);
      }
      table.Remove(gone);
    }

    /** `share_a_group` and `public_profile`, over the states this node carries. */
    method MayKeepPersonal(e: Event, now: Timestamp) returns (yes: bool)
      ensures yes == JudgePersonal(me, GroupsNow(), e, now)
    {
      if !(e.body.Binding? || e.body.Profile?) || e.at > now + Judge.MAX_CLOCK_SKEW {
        return false;
      }
      if e.author == me {
        return true;
      }
      var groups := states.Keys;
      while groups != {}
        invariant groups <= states.Keys
        invariant forall g :: g in states.Keys - groups && states[g] != null ==>
                    !(e.author in states[g].members && (me in states[g].members || (e.body.Profile? && states[g].public)))
      {
        var g :| g in groups;
        var s := states[g];
        if s != null && e.author in s.members && (me in s.members || (e.body.Profile? && s.public)) {
          assert GroupsNow()[g] == Some(s.Now());
          return true;
        }
        groups := groups - {g};
      }
      yes := false;
    }

    /** `accept_event` of a binding or a profile. */
    method AcceptPersonal(e: Event, now: Timestamp) returns (answer: Answer)
      modifies table, book
      ensures Value() == Accept(old(Value()), Personal(e, now)) && answer == AnswerTo(old(Value()), Personal(e, now))
    {
      hide Insert, JudgePersonal, Bindings.Check, Bindings.BookInsert, GroupObject.Now;
      BookedWhenChecked(book.newest, e, now);
      var may := MayKeepPersonal(e, now);
      if !may {
        return Answer.Refused;
      }
      if e.body.Binding? {
        var booked := book.Insert(e, true, now);
        if booked.Err? {
          return Answer.Refused;
        }
      }
      var stored := table.Put(e);
      answer := AnswerOf(stored);
    }
  }

  lemma BookedWhenChecked(newest: Bindings.Newest, e: Event, now: Timestamp)
    ensures
      var booked := Bindings.BookInsert(newest, e, true, now);
      (booked.result.Err? <==> Bindings.Check(e, true, now).Err?) && (booked.result.Err? ==> booked.newest == newest)
  {
    hide Bindings.Check;
  }

  /** `authored_in`: what a silenced person wrote in the group inside the span. */
  function AuthoredIn(rows: seq<Event>, g: PublicKey, span: Silence): set<EventId> {
    set e | e in rows && e.group == Some(g) && Deletable(e) && e.author == span.who && span.Covers(e.at) :: e.id
  }

  predicate InSpans(spans: seq<Silence>, e: Event) {
    exists span :: span in spans && span.who == e.author && span.Covers(e.at)
  }

  lemma OneMoreSpan(rows: seq<Event>, g: PublicKey, spans: seq<Silence>, span: Silence, gone: set<EventId>)
    requires gone == set e | e in rows && e.group == Some(g) && Deletable(e) && InSpans(spans, e) :: e.id
    ensures gone + AuthoredIn(rows, g, span) ==
            set e | e in rows && e.group == Some(g) && Deletable(e) && InSpans(spans + [span], e) :: e.id
  {
    assert forall e :: InSpans(spans + [span], e) <==> InSpans(spans, e) || (e.author == span.who && span.Covers(e.at)) by {
      forall e ensures InSpans(spans + [span], e) <==> InSpans(spans, e) || (e.author == span.who && span.Covers(e.at)) {
        assert span in spans + [span];
        assert forall x :: x in spans + [span] <==> x in spans || x == span;
      }
    }
  }

  lemma SilencedIs(rows: seq<Event>, g: PublicKey, spans: seq<Silence>, s: GroupState)
    requires s.trace.silences == spans
    ensures Silenced(rows, g, s) == set e | e in rows && e.group == Some(g) && Deletable(e) && InSpans(spans, e) :: e.id
  {
    assert forall e: Event :: SilencedAt(s, e.author, e.at) == InSpans(spans, e);
  }
}
