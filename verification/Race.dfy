/**
  Under the shared lock alone a check can be overtaken: a message checked before an event is
  stored, and stored after, stands beside it. So a withdrawal, a moderator's removal, or the
  author's own message before it is missed. Shown for every node at rest that would take both,
  and for one concrete node: a group with its owner as the only member, one channel with
  slowmode, a message of the owner's, and each of the three.
 */
module Race {
  import opened Prelude
  import opened Perm
  import opened Group
  import opened EventLists
  import opened State
  import opened Fold
  import opened FoldStore
  import Compaction
  import opened Judge
  import opened Store
  import opened Gate
  import opened Arrivals
  import opened Withdrawals
  import opened Pace

  /** The message `m` is checked, then `d` goes all the way, then `m` is stored. */
  function RaceSteps(m: Event, d: Event, now: Timestamp): seq<Step> {
    [EnterRead(1, m), JudgeRead(1, now), CheckWithdrawn(1), CheckRemoved(1)]
    + [CheckPace(1), EnterRead(2, d), JudgeRead(2, now), CheckWithdrawn(2)]
    + [CheckRemoved(2), CheckPace(2), StoreRead(2), SweepRead(2)]
    + [SweepRead(2), StoreRead(1)]
  }

  /** `n` is at rest, would take the message `m` and the event `d`, and holds neither. */
  ghost predicate WouldTakeBoth(n: Node, m: Event, d: Event, now: Timestamp) {
    && AtRest(n) && m.body.Chat? && (d.body.Deletion? || d.body.Removal? || d.body.Chat?) && m.id != d.id
    && JudgeEvent(n.groups, m, now).Keep? && JudgeEvent(n.groups, d, now).Keep?
    && !HasId(n.rows, m.id) && !HasId(n.rows, d.id) && Clear(n.rows, n.groups, m) && Clear(n.rows, n.groups, d)
  }

  /** Judged and checked while nobody else moves: `e` is ready to be stored. */
  lemma {:induction false} ChecksPass(n: Node, t: nat, e: Event, now: Timestamp)
    requires n.writer.None? && t !in n.readers && SharesLock(e) && JudgeEvent(n.groups, e, now).Keep?
    requires Deletable(e) ==> !IsDeleted(n.rows, e.id, e.author) && !RemovedByModerator(n.rows, e)
    requires e.body.Chat? ==> !TooSoon(n.rows, n.groups, e)
    ensures
      var mid := Next(Next(Next(n, EnterRead(t, e)), JudgeRead(t, now)), CheckWithdrawn(t));
      Next(Next(mid, CheckRemoved(t)), CheckPace(t)) == n.(readers := n.readers[t := Reader(e, Paced)])
  {
    hide JudgeEvent, IsDeleted, RemovedByModerator, TooSoon, SharesLock, Deletable, TakesPersonal;
    var n1 := Next(n, EnterRead(t, e));
    assert n1 == n.(readers := n.readers[t := Reader(e, Entered)]);
    var n2 := Next(n1, JudgeRead(t, now));
    assert n2 == n.(readers := n.readers[t := Reader(e, Admitted)]);
    var n3 := Next(n2, CheckWithdrawn(t));
    assert n3 == n.(readers := n.readers[t := Reader(e, NotWithdrawn)]);
    var n4 := Next(n3, CheckRemoved(t));
    assert n4 == n.(readers := n.readers[t := Reader(e, NotRemoved)]);
  }

  lemma RunFour(n: Node, s: seq<Step>)
    requires |s| == 4
    ensures Run(n, s) == Next(Next(Next(Next(n, s[0]), s[1]), s[2]), s[3])
  {
    hide Next;
    assert s == [] + [s[0]] + [s[1]] + [s[2]] + [s[3]];
    RunSnoc(n, [], s[0]);
    RunSnoc(n, [] + [s[0]], s[1]);
    RunSnoc(n, [] + [s[0]] + [s[1]], s[2]);
    RunSnoc(n, [] + [s[0]] + [s[1]] + [s[2]], s[3]);
  }

  lemma {:induction false} MessageReady(n: Node, m: Event, d: Event, now: Timestamp)
    requires WouldTakeBoth(n, m, d, now)
    ensures
      var ready := Run(n, [EnterRead(1, m), JudgeRead(1, now), CheckWithdrawn(1), CheckRemoved(1)]);
      Next(ready, CheckPace(1)) == n.(readers := map[1 := Reader(m, Paced)])
  {
    hide Next, JudgeEvent, IsDeleted, RemovedByModerator, TooSoon, HasId;
    KeptHasGroup(n.groups, m, now);
    ChecksPass(n, 1, m, now);
    RunFour(n, [EnterRead(1, m), JudgeRead(1, now), CheckWithdrawn(1), CheckRemoved(1)]);
    assert n.readers[1 := Reader(m, Paced)] == map[1 := Reader(m, Paced)];
  }

  lemma KeptHasGroup(groups: Groups, e: Event, now: Timestamp)
    ensures JudgeEvent(groups, e, now).Keep? ==> e.group.Some?
  {
  }

  lemma {:induction false} OtherReady(n: Node, m: Event, d: Event, now: Timestamp)
    requires n.writer.None? && n.readers == map[1 := Reader(m, Paced)] && SharesLock(d) && Clear(n.rows, n.groups, d)
    requires JudgeEvent(n.groups, d, now).Keep?
    ensures
      var mid := Next(Next(Next(n, EnterRead(2, d)), JudgeRead(2, now)), CheckWithdrawn(2));
      Next(Next(mid, CheckRemoved(2)), CheckPace(2)) == n.(readers := map[1 := Reader(m, Paced), 2 := Reader(d, Paced)])
  {
    hide Next, JudgeEvent, IsDeleted, RemovedByModerator, TooSoon;
    ChecksPass(n, 2, d, now);
    assert n.readers[2 := Reader(d, Paced)] == map[1 := Reader(m, Paced), 2 := Reader(d, Paced)];
  }

  /** `d` stored and all it sweeps gone, while `m` waits to be stored. */
  lemma {:induction false} OtherGoesThrough(n: Node, m: Event, d: Event)
    requires n.writer.None? && n.readers == map[1 := Reader(m, Paced), 2 := Reader(d, Paced)]
    requires SharesLock(d) && InChannel(d) && !HasId(n.rows, d.id) && !HasId(n.rows, m.id) && m.id != d.id
    ensures
      var end := Next(Next(Next(n, StoreRead(2)), SweepRead(2)), SweepRead(2));
      && end.readers == map[1 := Reader(m, Paced)] && end.groups == n.groups && end.writer.None?
      && d in end.rows && !HasId(end.rows, m.id)
  {
    hide Insert, JudgeEvent, Withdrawn, RemovedBy, Drop, TakesPersonal;
    NewChannelRow(n.rows, d);
    var stored := Next(n, StoreRead(2));
    assert stored.rows == n.rows + [d];
    var once := Next(stored, SweepRead(2));
    SweptKeeps(n.rows, m, d);
    if d.body.Removal? {
      assert once.readers == map[1 := Reader(m, Paced), 2 := Reader(d, Sweeping(RemovedBy(stored.rows, d)))];
    }
  }

  /** A sweep keeps the withdrawal itself, and brings nothing. */
  lemma SweptKeeps(before: seq<Event>, m: Event, d: Event)
    requires !HasId(before, m.id) && !HasId(before, d.id) && m.id != d.id
    ensures
      var rows := before + [d];
      && (d.body.Deletion? ==> d in Drop(rows, Withdrawn(rows, d)) && !HasId(Drop(rows, Withdrawn(rows, d)), m.id))
      && (d.body.Removal? ==> d in Drop(rows, RemovedBy(rows, d)) && !HasId(Drop(rows, RemovedBy(rows, d)), m.id))
  {
    var rows := before + [d];
    if d.body.Deletion? {
      DropMembers(rows, Withdrawn(rows, d));
    } else if d.body.Removal? {
      DropMembers(rows, RemovedBy(rows, d));
    }
  }

  lemma NewChannelRow(rows: seq<Event>, e: Event)
    ensures SharesLock(e) && InChannel(e) && !HasId(rows, e.id) ==>
            Insert(rows, e).outcome.New? && Insert(rows, e).rows == rows + [e]
  {
  }

  lemma {:induction false} OtherPasses(n: Node, m: Event, d: Event, now: Timestamp)
    requires n.writer.None? && n.readers == map[1 := Reader(m, Paced)] && SharesLock(d) && InChannel(d) && Clear(n.rows, n.groups, d)
    requires JudgeEvent(n.groups, d, now).Keep? && !HasId(n.rows, d.id) && !HasId(n.rows, m.id) && m.id != d.id
    ensures
      var mid := Next(Next(Next(n, EnterRead(2, d)), JudgeRead(2, now)), CheckWithdrawn(2));
      var end := Next(Next(Next(Next(Next(mid, CheckRemoved(2)), CheckPace(2)), StoreRead(2)), SweepRead(2)), SweepRead(2));
      && end.readers == n.readers && end.groups == n.groups && end.writer.None?
      && d in end.rows && !HasId(end.rows, m.id)
  {
    hide JudgeEvent, Next, HasId, Clear;
    OtherReady(n, m, d, now);
    OtherGoesThrough(n.(readers := map[1 := Reader(m, Paced), 2 := Reader(d, Paced)]), m, d);
  }

  /** Everything but the last step: `m` still ready, `d` stored. */
  lemma {:induction false} MessageStillReady(n: Node, m: Event, d: Event, now: Timestamp)
    requires WouldTakeBoth(n, m, d, now)
    ensures
      var before := Run(n, RaceSteps(m, d, now)[..13]);
      && before.readers == map[1 := Reader(m, Paced)] && before.writer.None? && before.groups == n.groups
      && d in before.rows && !HasId(before.rows, m.id)
  {
    KeptHasGroup(n.groups, d, now);
    var first := [EnterRead(1, m), JudgeRead(1, now), CheckWithdrawn(1), CheckRemoved(1)];
    var second := [CheckPace(1), EnterRead(2, d), JudgeRead(2, now), CheckWithdrawn(2)];
    var third := [CheckRemoved(2), CheckPace(2), StoreRead(2), SweepRead(2)];
    MessageReady(n, m, d, now);
    var ready := n.(readers := map[1 := Reader(m, Paced)]);
    OtherPasses(ready, m, d, now);
    hide JudgeEvent, HasId, Next, Run, Clear, RaceSteps;
    RunThen(n, first, second);
    RunThen(n, first + second, third);
    RunFour(Run(n, first), second);
    RunFour(Run(n, first + second), third);
    RunSnoc(n, first + second + third, SweepRead(2));
    RaceSplits(m, d, now);
  }

  lemma RaceSplits(m: Event, d: Event, now: Timestamp)
    ensures
      var first := [EnterRead(1, m), JudgeRead(1, now), CheckWithdrawn(1), CheckRemoved(1)];
      var second := [CheckPace(1), EnterRead(2, d), JudgeRead(2, now), CheckWithdrawn(2)];
      var third := [CheckRemoved(2), CheckPace(2), StoreRead(2), SweepRead(2)];
      |RaceSteps(m, d, now)| == 14 && RaceSteps(m, d, now)[..13] == first + second + third + [SweepRead(2)]
  {
  }

  /** On any node that would take both, this interleaving ends at rest with both stored. */
  lemma {:induction false} BothAreStored(n: Node, m: Event, d: Event, now: Timestamp)
    requires WouldTakeBoth(n, m, d, now)
    ensures
      var end := Run(n, RaceSteps(m, d, now));
      AtRest(end) && end.groups == n.groups && m in end.rows && d in end.rows
  {
    KeptHasGroup(n.groups, m, now);
    MessageStillReady(n, m, d, now);
    var before := Run(n, RaceSteps(m, d, now)[..13]);
    RunSnoc(n, RaceSteps(m, d, now)[..13], StoreRead(1));
    assert RaceSteps(m, d, now) == RaceSteps(m, d, now)[..13] + [StoreRead(1)];
    hide Run, JudgeEvent, RaceSteps, Next;
    NewChannelRow(before.rows, m);
    StoreReadIs(before, 1);
  }

  /** So a withdrawal, or a moderator's removal, can be missed. */
  lemma {:induction false} WithdrawalCanBeMissed(n: Node, m: Event, d: Event, now: Timestamp)
    requires WouldTakeBoth(n, m, d, now) && TakesBack(d, m)
    ensures
      var end := Run(n, RaceSteps(m, d, now));
      AtRest(end) && m in end.rows && d in end.rows && Missed(n, RaceSteps(m, d, now), m, d)
  {
    BothAreStored(n, m, d, now);
    MessageStillReady(n, m, d, now);
    hide Run, JudgeEvent, TakesBack, TakesPersonal;
    assert StoresLate(Run(n, RaceSteps(m, d, now)[..13]), RaceSteps(m, d, now)[13], m, d);
  }

  /** And slowmode: both messages pass its check before either is stored. */
  lemma {:induction false} PaceCanBeMissed(n: Node, a: Event, b: Event, now: Timestamp)
    requires WouldTakeBoth(n, a, b, now) && b.body.Chat? && a.author == b.author && SamePlace(a, b)
    requires Near(a, b, SlowmodeFor(n.groups, a))
    ensures
      var end := Run(n, RaceSteps(a, b, now));
      && AtRest(end) && a in end.rows && b in end.rows && Near(a, b, SlowmodeFor(end.groups, a))
      && CameTooSoon(n, RaceSteps(a, b, now), a, b)
  {
    BothAreStored(n, a, b, now);
    MessageStillReady(n, a, b, now);
    hide Run, JudgeEvent, SlowmodeFor, Near, TakesPersonal;
    assert StoresTooSoon(Run(n, RaceSteps(a, b, now)[..13]), RaceSteps(a, b, now)[13], a, b);
  }

  // ---- one node --------------------------------------------------------------------------

  /** A node that starts on `rows`: every carried group folded from them. */
  ghost function Started(carried: set<PublicKey>, rows: seq<Event>): Node {
    Node(OWNER, rows, map[], map g | g in carried :: FoldEvents(g, rows), map[], None)
  }

  const GROUP: PublicKey := 5
  const OWNER: PublicKey := 7
  const HALL := Channel("hall", "Hall", ChannelKind.Text, 30)
  const METADATA := Event(1, GROUP, 10, Some(GROUP), None, StateBody(1, Metadata("Group", false, 0, "", [HALL], [])))
  const ADMINS := Event(2, GROUP, 10, Some(GROUP), None, StateBody(1, Admins(Some(OWNER), map[])))
  const MEMBERS := Event(3, GROUP, 10, Some(GROUP), None, StateBody(1, Members({OWNER}, {}, map[])))
  const ROLES := Event(4, GROUP, 10, Some(GROUP), None, StateBody(1, Roles([])))
  const CREATED := Event(5, OWNER, 10, Some(GROUP), None, CreateGroup)
  const ROWS := [METADATA, ADMINS, MEMBERS, ROLES, CREATED]
  const MESSAGE := Event(6, OWNER, 11, Some(GROUP), Some("hall"), Chat(true))
  const SECOND := Event(9, OWNER, 13, Some(GROUP), Some("hall"), Chat(true))
  const WITHDRAWAL := Event(8, OWNER, 12, Some(GROUP), Some("hall"), Deletion([6]))
  const REMOVAL := Event(10, OWNER, 12, Some(GROUP), Some("hall"), Removal([6]))

  lemma {:induction false} ConcreteFold()
    ensures FoldEvents(GROUP, ROWS).Some?
    ensures
      var s := FoldEvents(GROUP, ROWS).value;
      && s.core.owner == Some(OWNER) && OWNER in s.core.members && s.core.channels == [HALL]
      && s.core.public == false && s.core.newcomerWait == 0
      && s.trace.silences == [] && s.trace.joined == map[]
  {
    hide RunAll, Newest, Sort, Live, RoleTable, InvitesOf;
    NewestIs(GROUP, MetadataKind, ROWS, METADATA);
    NewestIs(GROUP, AdminsKind, ROWS, ADMINS);
    NewestIs(GROUP, MembersKind, ROWS, MEMBERS);
    NewestIs(GROUP, RolesKind, ROWS, ROLES);
    Compaction.NoActions(GROUP, ROWS);
    assert CREATED in ROWS;
    assert OWNER in Creators(GROUP, ROWS);
    var start := Initial(GROUP, Pieces(METADATA, ADMINS, MEMBERS, ROLES), Creators(GROUP, ROWS), InvitesOf([]));
    NothingRuns(start, 10);
    assert Ascending({}) == [];
  }

  lemma NothingRuns(s: GroupState, cutoff: Timestamp)
    ensures Sort([]) == [] && Live(cutoff, []) == [] && RunAll(s, []) == s
  {
  }

  /** What the owner may send at that node. */
  predicate Sendable(e: Event) {
    && e.author == OWNER && e.at <= 20 && e.group == Some(GROUP) && e.channel == Some("hall")
    && (e.body == Chat(true) || (e.body.Deletion? && e.body.withdrawn != []) || (e.body.Removal? && e.body.removed != []))
  }

  lemma ConcretelyAdmitted(groups: Groups, s: GroupState, e: Event)
    requires GROUP in groups && groups[GROUP] == Some(s) && Sendable(e)
    requires s.core.owner == Some(OWNER) && OWNER in s.core.members && s.core.channels == [HALL]
    requires s.core.public == false && s.core.newcomerWait == 0 && s.trace.silences == []
    ensures JudgeEvent(groups, e, 20).Keep? && SlowmodeFor(groups, e) == 30
  {
    OwnerMay(s, e);
    hide MayPost, MayInChannel;
  }

  lemma ConcretelyClear(groups: Groups, e: Event)
    requires Sendable(e) && e.id >= 6
    ensures Clear(ROWS, groups, e) && !HasId(ROWS, e.id)
  {
    hide SlowmodeFor;
  }

  lemma {:induction false} ConcretelyTaken(d: Event)
    requires Sendable(d) && d.id >= 8
    ensures
      var n := Started({GROUP}, ROWS);
      WouldTakeBoth(n, MESSAGE, d, 20) && SlowmodeFor(n.groups, MESSAGE) == 30
  {
    hide FoldEvents, JudgeEvent, Clear, HasId, ROWS, TakesPersonal;
    ConcreteFold();
    var n := Started({GROUP}, ROWS);
    ConcretelyAdmitted(n.groups, FoldEvents(GROUP, ROWS).value, MESSAGE);
    ConcretelyAdmitted(n.groups, FoldEvents(GROUP, ROWS).value, d);
    ConcretelyClear(n.groups, MESSAGE);
    ConcretelyClear(n.groups, d);
  }

  /** The owner's message stands beside their withdrawal of it. */
  lemma {:induction false} ConcreteMiss()
    ensures
      var end := Run(Started({GROUP}, ROWS), RaceSteps(MESSAGE, WITHDRAWAL, 20));
      AtRest(end) && MESSAGE in end.rows && WITHDRAWAL in end.rows && TakesBack(WITHDRAWAL, MESSAGE)
  {
    hide FoldEvents, Run, RaceSteps, WouldTakeBoth;
    ConcretelyTaken(WITHDRAWAL);
    WithdrawalCanBeMissed(Started({GROUP}, ROWS), MESSAGE, WITHDRAWAL, 20);
  }

  /** And beside a removal of it, by one who may manage messages. */
  lemma {:induction false} ConcreteRemovalMiss()
    ensures
      var end := Run(Started({GROUP}, ROWS), RaceSteps(MESSAGE, REMOVAL, 20));
      AtRest(end) && MESSAGE in end.rows && REMOVAL in end.rows && TakesBack(REMOVAL, MESSAGE)
  {
    hide FoldEvents, Run, RaceSteps, WouldTakeBoth;
    ConcretelyTaken(REMOVAL);
    WithdrawalCanBeMissed(Started({GROUP}, ROWS), MESSAGE, REMOVAL, 20);
  }

  /** And two seconds from their next one, where slowmode asks for thirty. */
  lemma {:induction false} ConcreteCrowd()
    ensures
      var n := Started({GROUP}, ROWS);
      var end := Run(n, RaceSteps(MESSAGE, SECOND, 20));
      && AtRest(end) && MESSAGE in end.rows && SECOND in end.rows
      && OneAuthors(MESSAGE, SECOND, GROUP, "hall") && SlowmodeFor(end.groups, MESSAGE) == 30 && Near(MESSAGE, SECOND, 30)
  {
    hide FoldEvents, Run, RaceSteps, WouldTakeBoth, SlowmodeFor;
    ConcretelyTaken(SECOND);
    BothAreStored(Started({GROUP}, ROWS), MESSAGE, SECOND, 20);
    PaceCanBeMissed(Started({GROUP}, ROWS), MESSAGE, SECOND, 20);
  }

  lemma OwnerMay(s: GroupState, e: Event)
    requires s.core.owner == Some(e.author) && e.author in s.core.members && s.core.channels == [HALL] && e.channel == Some("hall")
    requires s.core.public == false && s.core.newcomerWait == 0 && s.trace.silences == []
    requires e.body.Chat? ==> e.body.filesOk
    ensures MayPost(s, e) && MayInChannel(s, e, VIEW_CHANNEL)
  {
    assert s.core.channels[0].id == "hall";
    EverythingContained();
  }

  lemma EverythingContained()
    ensures Contains(ALL, VIEW_CHANNEL) && Contains(ALL, Union(VIEW_CHANNEL, SEND_MESSAGES))
  {
  }
}
