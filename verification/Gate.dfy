/**
  The node's one way in (crates/hit-node/src/lib.rs, `accept_event`) as interleaved steps.
  Channel events share the fold lock while they are judged, checked and stored; whatever
  changes a group's state holds it alone while it is judged, stored, refolded and purged. The
  invariant ties the state in memory to the rows stored, at every step of every interleaving.
 */
module Gate {
  import opened Prelude
  import opened Group
  import opened EventLists
  import opened Replace
  import opened State
  import opened Fold
  import opened FoldStore
  import opened Judge
  import opened Store
  import Bindings

  /** A channel event's progress under the shared lock. */
  datatype ReadPhase =
    | Entered | Admitted | NotWithdrawn | NotRemoved | Paced
    | Kept                          // a deletion or removal, stored, its targets not yet swept
    | Sweeping(gone: set<EventId>)  // a removal's targets looked up

  datatype Reader = Reader(event: Event, phase: ReadPhase)

  /** A state change's progress under the exclusive lock. */
  datatype WritePhase = WEntered | WAdmitted | WStored | WRefolded | WGathered(gone: set<EventId>)

  datatype Writer = Writer(event: Event, phase: WritePhase)

  /** `me` is whose node it is; `book`, the newest binding it has taken in per person and device. */
  datatype Node = Node(
    me: PublicKey, rows: seq<Event>, book: Bindings.Newest, groups: Groups, readers: map<nat, Reader>, writer: Option<Writer>)

  predicate InChannel(e: Event) {
    e.body.Chat? || e.body.Reaction? || e.body.Deletion? || e.body.Removal?
  }

  predicate SharesLock(e: Event) { e.group.Some? && (InChannel(e) || e.body.Presence?) }

  predicate TakesLock(e: Event) { e.group.Some? && !InChannel(e) && !e.body.Presence? && !e.body.Binding? && !e.body.Profile? }

  predicate SamePlace(a: Event, b: Event) { a.group == b.group && a.channel == b.channel }

  /** Has a moderator, in the same group and channel, removed `e`? */
  predicate RemovedByModerator(rows: seq<Event>, e: Event) {
    exists r :: r in rows && r.body.Removal? && e.id in r.body.removed && SamePlace(r, e)
  }

  function RemovedBy(rows: seq<Event>, removal: Event): set<EventId>
    requires removal.body.Removal?
  {
    set e | e in rows && e.id in removal.body.removed && Deletable(e) && SamePlace(e, removal) :: e.id
  }

  function SlowmodeFor(groups: Groups, e: Event): nat {
    if e.group.Some? && e.channel.Some? && e.group.value in groups && groups[e.group.value].Some?
    then SlowmodeOf(groups[e.group.value].value.core.channels, e.channel.value)
    else 0
  }

  predicate Near(a: Event, b: Event, wait: nat) {
    a.at < b.at + wait && b.at < a.at + wait
  }

  /** Another message of its author in its channel less than the slowmode away. */
  predicate TooSoon(rows: seq<Event>, groups: Groups, e: Event) {
    exists m :: m in rows && m.body.Chat? && m.id != e.id && m.author == e.author && SamePlace(m, e) && Near(m, e, SlowmodeFor(groups, e))
  }

  /** What the checks of a message establish, taken together. */
  predicate Clear(rows: seq<Event>, groups: Groups, e: Event) {
    && (Deletable(e) ==> !IsDeleted(rows, e.id, e.author) && !RemovedByModerator(rows, e))
    && (e.body.Chat? ==> !TooSoon(rows, groups, e))
  }

  /** The ids `g`'s silences say should not be here. */
  function Silenced(rows: seq<Event>, g: PublicKey, s: GroupState): set<EventId> {
    set e | e in rows && e.group == Some(g) && Deletable(e) && SilencedAt(s, e.author, e.at) :: e.id
  }

  datatype Step =
    | EnterRead(t: nat, e: Event) | JudgeRead(t: nat, now: Timestamp) | CheckWithdrawn(t: nat) | CheckRemoved(t: nat)
    | CheckPace(t: nat) | StoreRead(t: nat) | SweepRead(t: nat)
    | EnterWrite(e: Event) | JudgeWrite(now: Timestamp) | StoreWrite | Refold | Gather | Purge
    | KeepPersonal(e: Event, now: Timestamp)

  function Advance(n: Node, t: nat, phase: ReadPhase): Node
    requires t in n.readers
  {
    n.(readers := n.readers[t := n.readers[t].(phase := phase)])
  }

  function LeaveRead(n: Node, t: nat): Node { n.(readers := n.readers - {t}) }

  function StoreMessage(n: Node, t: nat): Node
    requires t in n.readers
  {
    var e := n.readers[t].event;
    var stored := Insert(n.rows, e);
    var m := n.(rows := stored.rows);
    if stored.outcome.New? && (e.body.Deletion? || e.body.Removal?) then Advance(m, t, Kept) else LeaveRead(m, t)
  }

  function Sweep(n: Node, t: nat): Node
    requires t in n.readers
  {
    var r := n.readers[t];
    if r.phase.Sweeping? then LeaveRead(n.(rows := Drop(n.rows, r.phase.gone)), t)
    else if r.event.body.Deletion? then LeaveRead(n.(rows := Drop(n.rows, Withdrawn(n.rows, r.event))), t)
    else if r.event.body.Removal? then Advance(n, t, Sweeping(RemovedBy(n.rows, r.event)))
    else LeaveRead(n, t)
  }

  /** Is the action, folded with everything held, applied? */
  ghost predicate Applies(rows: seq<Event>, g: PublicKey, e: Event) {
    var s := FoldEvents(g, rows + [e]);
    s.Some? && e.id in s.value.trace.applied
  }

  /** A binding or profile judged and, for a binding, checked as the book does; with a group, under the shared lock. */
  ghost predicate TakesPersonal(n: Node, e: Event, now: Timestamp) {
    && JudgePersonal(n.me, n.groups, e, now) && (e.group.None? || n.writer.None?)
    && (e.body.Binding? ==> Bindings.Check(e, true, now).Ok?)
  }

  function KeepPerson(n: Node, e: Event, now: Timestamp): Node {
    n.(rows := Insert(n.rows, e).rows,
       book := if e.body.Binding? then Bindings.BookInsert(n.book, e, true, now).newest else n.book)
  }

  /** One step of the node; a step that is not enabled changes nothing. */
  ghost function Next(n: Node, step: Step): Node {
    match step
    case EnterRead(t, e) =>
      if n.writer.None? && t !in n.readers && SharesLock(e) then n.(readers := n.readers[t := Reader(e, Entered)]) else n
    case JudgeRead(t, now) =>
      if t in n.readers && n.readers[t].phase.Entered? then
        (if JudgeEvent(n.groups, n.readers[t].event, now).Keep? then Advance(n, t, Admitted) else LeaveRead(n, t))
      else n
    case CheckWithdrawn(t) =>
      if t in n.readers && n.readers[t].phase.Admitted? then
        var e := n.readers[t].event;
        if Deletable(e) && IsDeleted(n.rows, e.id, e.author) then LeaveRead(n, t) else Advance(n, t, NotWithdrawn)
      else n
    case CheckRemoved(t) =>
      if t in n.readers && n.readers[t].phase.NotWithdrawn? then
        var e := n.readers[t].event;
        if Deletable(e) && RemovedByModerator(n.rows, e) then LeaveRead(n, t) else Advance(n, t, NotRemoved)
      else n
    case CheckPace(t) =>
      if t in n.readers && n.readers[t].phase.NotRemoved? then
        var e := n.readers[t].event;
        if e.body.Chat? && TooSoon(n.rows, n.groups, e) then LeaveRead(n, t) else Advance(n, t, Paced)
      else n
    case StoreRead(t) => if t in n.readers && n.readers[t].phase.Paced? then StoreMessage(n, t) else n
    case SweepRead(t) =>
      if t in n.readers && (n.readers[t].phase.Kept? || n.readers[t].phase.Sweeping?) then Sweep(n, t) else n
    case EnterWrite(e) =>
      if n.writer.None? && n.readers == map[] && TakesLock(e) then n.(writer := Some(Writer(e, WEntered))) else n
    case JudgeWrite(now) =>
      if n.writer.Some? && n.writer.value.phase.WEntered? then
        var e := n.writer.value.event;
        var verdict := JudgeEvent(n.groups, e, now);
        if verdict.Keep? || (verdict.FoldWith? && Applies(n.rows, verdict.group, e))
        then n.(writer := Some(Writer(e, WAdmitted))) else n.(writer := None)
      else n
    case StoreWrite =>
      if n.writer.Some? && n.writer.value.phase.WAdmitted? then
        var e := n.writer.value.event;
        var stored := Insert(n.rows, e);
        n.(rows := stored.rows, writer := if stored.outcome.New? then Some(Writer(e, WStored)) else None)
      else n
    case Refold =>
      if n.writer.Some? && n.writer.value.phase.WStored? then
        var e := n.writer.value.event;
        var g := e.group;
        n.(groups := if g.Some? && g.value in n.groups then n.groups[g.value := FoldEvents(g.value, n.rows)] else n.groups,
           writer := Some(Writer(e, WRefolded)))
      else n
    case Gather =>
      if n.writer.Some? && n.writer.value.phase.WRefolded? then
        var e := n.writer.value.event;
        var g := e.group;
        var gone := if g.Some? && g.value in n.groups && n.groups[g.value].Some?
                    then Silenced(n.rows, g.value, n.groups[g.value].value) else {};
        n.(writer := Some(Writer(e, WGathered(gone))))
      else n
    case Purge =>
      if n.writer.Some? && n.writer.value.phase.WGathered? then
        n.(rows := Drop(n.rows, n.writer.value.phase.gone), writer := None)
      else n
    case KeepPersonal(e, now) => if TakesPersonal(n, e, now) then KeepPerson(n, e, now) else n
  }

  ghost function Run(n: Node, steps: seq<Step>): Node {
    if steps == [] then n
    else Next(Run(n, steps[..|steps| - 1]), steps[|steps| - 1])
  }

  // ---- the invariant ---------------------------------------------------------------

  /** `g`'s state is between a stored change and the end of that change. */
  predicate Changing(n: Node, g: PublicKey) {
    n.writer.Some? && n.writer.value.event.group == Some(g)
    && (n.writer.value.phase.WStored? || n.writer.value.phase.WRefolded? || n.writer.value.phase.WGathered?)
  }

  predicate Unfolded(n: Node, g: PublicKey) {
    n.writer.Some? && n.writer.value.event.group == Some(g) && n.writer.value.phase.WStored?
  }

  /** The state in memory is the fold of the rows. */
  ghost predicate Folded(n: Node) {
    forall g :: g in n.groups && !Unfolded(n, g) ==> n.groups[g] == FoldEvents(g, n.rows)
  }

  predicate Quiet(rows: seq<Event>, g: PublicKey, s: GroupState) {
    forall e :: e in rows && e.group == Some(g) && Deletable(e) ==> !SilencedAt(s, e.author, e.at)
  }

  /** No stored message is dated inside a silence of its author. */
  ghost predicate AllQuiet(n: Node) {
    forall g :: g in n.groups && n.groups[g].Some? && !Changing(n, g) ==> Quiet(n.rows, g, n.groups[g].value)
  }

  /** A message past its judgement may still be posted by the state in memory. */
  ghost predicate StillWelcome(n: Node) {
    forall t :: t in n.readers && !n.readers[t].phase.Entered? && Deletable(n.readers[t].event) ==>
      var e := n.readers[t].event;
      && e.group.Some? && e.group.value in n.groups && n.groups[e.group.value].Some?
      && !SilencedAt(n.groups[e.group.value].value, e.author, e.at)
  }

  ghost predicate LockKept(n: Node) {
    && (n.writer.Some? ==> n.readers == map[] && TakesLock(n.writer.value.event))
    && (forall t :: t in n.readers ==> SharesLock(n.readers[t].event))
  }

  /** What is about to be removed is messages and reactions, and all the silenced ones. */
  ghost predicate Sweeps(n: Node, known: set<Event>) {
    && (forall t, e :: t in n.readers && n.readers[t].phase.Sweeping? && e in known && e.id in n.readers[t].phase.gone ==> Deletable(e))
    && (n.writer.Some? && n.writer.value.phase.WGathered? ==>
          && (forall e :: e in known && e.id in n.writer.value.phase.gone ==> Deletable(e))
          && (forall e, g :: e in n.rows && e.group == Some(g) && n.writer.value.event.group == Some(g)
                             && g in n.groups && n.groups[g].Some? && Deletable(e) && SilencedAt(n.groups[g].value, e.author, e.at)
                             ==> e.id in n.writer.value.phase.gone))
  }

  /** `known` holds every event in play; an id, being a hash, names one of them. */
  ghost predicate InPlay(n: Node, known: set<Event>) {
    && (forall a, b :: a in known && b in known && a.id == b.id ==> a == b)
    && (forall e :: e in n.rows ==> e in known)
    && (forall t :: t in n.readers ==> n.readers[t].event in known)
    && (n.writer.Some? ==> n.writer.value.event in known)
  }

  ghost predicate GateInv(n: Node, known: set<Event>) {
    && InPlay(n, known) && DistinctIds(n.rows) && LockKept(n)
    && Folded(n) && AllQuiet(n) && StillWelcome(n) && Sweeps(n, known)
  }

  predicate EventIn(step: Step, known: set<Event>) {
    match step
    case EnterRead(_, e) => e in known
    case EnterWrite(e) => e in known
    case KeepPersonal(e, _) => e in known
    case _ => true
  }

  // ---- rows the fold does not read ---------------------------------------------------

  ghost predicate Unread(g: PublicKey, e: Event) {
    !ReadsAlways(g, e) && forall kind :: !IsPiece(g, kind, e)
  }

  lemma DropUnread(g: PublicKey, rows: seq<Event>, ids: set<EventId>)
    requires DistinctIds(rows) && forall e :: e in rows && e.id in ids ==> Unread(g, e)
    ensures FoldEvents(g, Drop(rows, ids)) == FoldEvents(g, rows)
  {
    hide IsPiece, ReadsAlways, FoldEvents;
    DropIdle(g, rows, ids);
  }

  lemma DistinctAppend(rows: seq<Event>, e: Event)
    requires DistinctIds(rows) && !HasId(rows, e.id)
    ensures DistinctIds(rows + [e]) && Drop(rows + [e], {e.id}) == rows
  {
    forall i | 0 <= i < |rows| ensures rows[i].id != e.id {
      assert rows[i] in rows;
    }
    DropSnoc(rows, e, {e.id});
    DropNone(rows, {e.id});
  }

  lemma AppendUnread(g: PublicKey, rows: seq<Event>, e: Event)
    requires DistinctIds(rows) && !HasId(rows, e.id) && Unread(g, e)
    ensures FoldEvents(g, rows + [e]) == FoldEvents(g, rows)
  {
    hide FoldEvents, Unread;
    DistinctAppend(rows, e);
    assert e in rows + [e];
    forall x | x in rows + [e] && x.id in {e.id} ensures Unread(g, x) {
      assert x == e;
    }
    DropUnread(g, rows + [e], {e.id});
  }

  /** How an insert changes the rows: not at all, or `e` comes and at most the row of its slot goes. */
  lemma {:induction false} InsertChanges(rows: seq<Event>, e: Event)
    requires DistinctIds(rows)
    ensures DistinctIds(Insert(rows, e).rows)
    ensures !Insert(rows, e).outcome.New? ==> Insert(rows, e).rows == rows
    ensures Insert(rows, e).outcome.New? ==> !HasId(rows, e.id) && exists ids ::
              && Insert(rows, e).rows == Drop(rows, ids) + [e]
              && (forall x :: x in rows && x.id in ids ==> SameSlot(x, e))
  {
    hide DistinctIds, Drop, SameSlot;
    CurrentInFinds(rows, e);
    if Insert(rows, e).outcome.New? {
      var current := if SlotOf(e).Regular? then None else CurrentIn(rows, e);
      var ids: set<EventId> := if current.Some? then {current.value.id} else {};
      DropNone(rows, {});
      DropMembers(rows, ids);
      DropDistinct(rows, ids);
      assert Insert(rows, e).rows == Drop(rows, ids) + [e];
      forall x | x in Drop(rows, ids) ensures x.id != e.id {
        assert x in rows;
      }
      DistinctAppend(Drop(rows, ids), e);
      forall x | x in rows && x.id in ids ensures SameSlot(x, e) {
        SameIdSameRow(rows, x, current.value);
      }
    }
  }

  lemma SlotmateUnread(g: PublicKey, e: Event, x: Event)
    ensures (SameSlot(x, e) && (SharesLock(e) || e.body.Binding? || e.body.Profile? || (e.group.Some? && e.group != Some(g)))) ==>
            Unread(g, x)
  {
  }

  /** Inserting what `g`'s fold does not read leaves it as it was. */
  lemma {:induction false} InsertUnread(g: PublicKey, rows: seq<Event>, e: Event)
    requires DistinctIds(rows) && (SharesLock(e) || e.body.Binding? || e.body.Profile? || (e.group.Some? && e.group != Some(g)))
    ensures FoldEvents(g, Insert(rows, e).rows) == FoldEvents(g, rows)
  {
    hide FoldEvents, Unread, Insert, SameSlot;
    if e.group != Some(g) {
      OtherGroupIsUnread(g, e);
    } else {
      ChannelIsUnread(g, e);
    }
    InsertChanges(rows, e);
    if Insert(rows, e).outcome.New? {
      var ids :| Insert(rows, e).rows == Drop(rows, ids) + [e] && (forall x :: x in rows && x.id in ids ==> SameSlot(x, e));
      forall x | x in rows && x.id in ids ensures Unread(g, x) {
        SlotmateUnread(g, e, x);
      }
      DropUnread(g, rows, ids);
      DropMembers(rows, ids);
      DropDistinct(rows, ids);
      AppendUnread(g, Drop(rows, ids), e);
    }
  }

  lemma ChannelIsUnread(g: PublicKey, e: Event)
    ensures (InChannel(e) || e.body.Presence? || e.body.Binding? || e.body.Profile?) ==> Unread(g, e)
  {
  }

  lemma OtherGroupIsUnread(g: PublicKey, e: Event)
    ensures e.group != Some(g) ==> Unread(g, e)
  {
  }

  // ---- every step keeps the invariant --------------------------------------------------

  /** A step of readers that changes no row and no group. */
  lemma MoveReader(n: Node, known: set<Event>, m: Node, t: nat)
    requires GateInv(n, known) && t in n.readers && m == n.(readers := m.readers)
    requires m.readers.Keys <= n.readers.Keys
    requires forall u :: u in m.readers && u != t ==> m.readers[u] == n.readers[u]
    requires t in m.readers ==> m.readers[t].event == n.readers[t].event && !m.readers[t].phase.Sweeping?
    requires t in m.readers && Deletable(m.readers[t].event) && n.readers[t].phase.Entered? && !m.readers[t].phase.Entered? ==>
               var e := m.readers[t].event;
               && e.group.Some? && e.group.value in n.groups && n.groups[e.group.value].Some?
               && !SilencedAt(n.groups[e.group.value].value, e.author, e.at)
    ensures GateInv(m, known)
  {
    hide SilencedAt, Quiet, DistinctIds, FoldEvents;
    assert n.writer.None?;
  }

  lemma AdmittedIsUnsilenced(groups: Groups, e: Event, now: Timestamp)
    ensures JudgeEvent(groups, e, now).Keep? && Deletable(e) ==>
            e.group.Some? && e.group.value in groups && groups[e.group.value].Some?
    ensures JudgeEvent(groups, e, now).Keep? && Deletable(e) ==>
            !SilencedAt(groups[e.group.value].value, e.author, e.at)
  {
  }

  lemma {:induction false} StoreReadFolds(n: Node, t: nat)
    requires t in n.readers && SharesLock(n.readers[t].event) && DistinctIds(n.rows) && n.writer.None? && Folded(n)
    ensures Folded(StoreMessage(n, t)) && DistinctIds(StoreMessage(n, t).rows)
  {
    hide FoldEvents, DistinctIds, Unread, Insert, SharesLock;
    var e := n.readers[t].event;
    ChannelIsUnreadAll(e);
    InsertChanges(n.rows, e);
    forall g | g in n.groups ensures n.groups[g] == FoldEvents(g, Insert(n.rows, e).rows) {
      InsertUnread(g, n.rows, e);
    }
  }

  lemma StoreReadReaders(n: Node, known: set<Event>, t: nat)
    requires StillWelcome(n) && LockKept(n) && Sweeps(n, known) && t in n.readers && n.readers[t].phase.Paced?
    ensures StillWelcome(StoreMessage(n, t)) && LockKept(StoreMessage(n, t)) && Sweeps(StoreMessage(n, t), known)
  {
    hide SilencedAt, Insert, Deletable, SharesLock, TakesLock;
  }

  lemma {:induction false} StoreReadKeepsInv(n: Node, known: set<Event>, t: nat)
    requires GateInv(n, known) && t in n.readers && n.readers[t].phase.Paced?
    ensures GateInv(StoreMessage(n, t), known)
  {
    StoreReadFolds(n, t);
    hide SilencedAt, FoldEvents, DistinctIds, Insert, Folded, Sweeps;
    var e := n.readers[t].event;
    var m := StoreMessage(n, t);
    ChannelSlots(n.rows, e);
    assert forall x :: x in m.rows ==> x in n.rows || x == e;
    forall g | g in m.groups && m.groups[g].Some? ensures Quiet(m.rows, g, m.groups[g].value) {
      assert Quiet(n.rows, g, n.groups[g].value);
    }
    StoreReadReaders(n, known, t);
  }

  lemma ChannelIsUnreadAll(e: Event)
    requires SharesLock(e)
    ensures forall g :: Unread(g, e)
  {
    forall g ensures Unread(g, e) {
      ChannelIsUnread(g, e);
    }
  }

  /** A channel event takes no slot: its insert only appends. */
  lemma ChannelSlots(rows: seq<Event>, e: Event)
    requires SharesLock(e)
    ensures forall x :: x in Insert(rows, e).rows ==> x in rows || x == e
    ensures Insert(rows, e).outcome.New? ==> Insert(rows, e).rows == rows + [e]
  {
  }

  /** Rows may go as long as they are messages or reactions. */
  lemma {:induction false} DropMessagesKeepsInv(n: Node, known: set<Event>, m: Node, ids: set<EventId>)
    requires GateInv(n, known) && n.writer.None?
    requires m.rows == Drop(n.rows, ids) && m.groups == n.groups && m.writer == n.writer
    requires m.readers.Keys <= n.readers.Keys && forall u :: u in m.readers ==> m.readers[u] == n.readers[u]
    requires forall e :: e in n.rows && e.id in ids ==> Deletable(e)
    ensures GateInv(m, known)
  {
    hide SilencedAt, FoldEvents, DistinctIds;
    DropMembers(n.rows, ids);
    DropDistinct(n.rows, ids);
    forall g | g in m.groups ensures m.groups[g] == FoldEvents(g, m.rows) {
      forall e | e in n.rows && e.id in ids ensures Unread(g, e) {
        ChannelIsUnread(g, e);
      }
      DropUnread(g, n.rows, ids);
    }
    forall g | g in m.groups && m.groups[g].Some? ensures Quiet(m.rows, g, m.groups[g].value) {
      assert Quiet(n.rows, g, n.groups[g].value);
    }
  }

  lemma {:induction false} SweepKeepsInv(n: Node, known: set<Event>, t: nat)
    requires GateInv(n, known) && t in n.readers && (n.readers[t].phase.Kept? || n.readers[t].phase.Sweeping?)
    ensures GateInv(Sweep(n, t), known)
  {
    hide SilencedAt, FoldEvents, Folded, AllQuiet;
    var r := n.readers[t];
    if r.phase.Sweeping? {
      DropMessagesKeepsInv(n, known, Sweep(n, t), r.phase.gone);
    } else if r.event.body.Deletion? {
      var ids := Withdrawn(n.rows, r.event);
      forall e | e in n.rows && e.id in ids ensures Deletable(e) {
        var x :| x in n.rows && x.id == e.id && Deletable(x);
        SameIdSameRow(n.rows, x, e);
      }
      DropMessagesKeepsInv(n, known, Sweep(n, t), ids);
    } else if r.event.body.Removal? {
      var ids := RemovedBy(n.rows, r.event);
      forall e | e in known && e.id in ids ensures Deletable(e) {
        var x :| x in n.rows && x.id == e.id && Deletable(x);
        assert x in known;
      }
      SweepingKeepsInv(n, known, t, ids);
    } else {
      MoveReader(n, known, LeaveRead(n, t), t);
    }
  }

  lemma SweepingKeepsInv(n: Node, known: set<Event>, t: nat, ids: set<EventId>)
    requires GateInv(n, known) && t in n.readers && n.readers[t].phase.Kept?
    requires forall e :: e in known && e.id in ids ==> Deletable(e)
    ensures GateInv(Advance(n, t, Sweeping(ids)), known)
  {
    hide SilencedAt, FoldEvents, Quiet, DistinctIds;
    assert n.writer.None?;
  }

  lemma {:induction false} StoreWriteKeepsInv(n: Node, known: set<Event>)
    requires GateInv(n, known) && n.writer.Some? && n.writer.value.phase.WAdmitted?
    ensures GateInv(Next(n, StoreWrite), known)
  {
    hide SilencedAt, FoldEvents, DistinctIds, Unread, Insert, JudgeEvent, Applies, TakesPersonal;
    var e := n.writer.value.event;
    var m := Next(n, StoreWrite);
    InsertChanges(n.rows, e);
    forall g | g in m.groups && !Unfolded(m, g) ensures m.groups[g] == FoldEvents(g, m.rows) {
      if e.group != Some(g) {
        OtherGroupIsUnread(g, e);
        InsertUnread(g, n.rows, e);
      }
    }
    assert forall x :: x in m.rows ==> x in n.rows || x == e by { InsertMembers(n.rows, e); }
    forall g | g in m.groups && m.groups[g].Some? && !Changing(m, g) ensures Quiet(m.rows, g, m.groups[g].value) {
      assert Quiet(n.rows, g, n.groups[g].value);
    }
  }

  lemma InsertMembers(rows: seq<Event>, e: Event)
    ensures forall x :: x in Insert(rows, e).rows ==> x in rows || x == e
  {
    var current := CurrentIn(rows, e);
    if current.Some? {
      DropMembers(rows, {current.value.id});
    }
  }

  lemma {:induction false} RefoldKeepsInv(n: Node, known: set<Event>)
    requires GateInv(n, known) && n.writer.Some? && n.writer.value.phase.WStored?
    ensures GateInv(Next(n, Refold), known)
  {
    hide SilencedAt, FoldEvents, DistinctIds, JudgeEvent, Applies, Quiet, TakesPersonal;
    var m := Next(n, Refold);
    assert m.readers == map[];
    forall g | g in m.groups && m.groups[g].Some? && !Changing(m, g) ensures Quiet(m.rows, g, m.groups[g].value) {
      assert !Changing(n, g);
    }
  }

  lemma {:induction false} GatherKeepsInv(n: Node, known: set<Event>)
    requires GateInv(n, known) && n.writer.Some? && n.writer.value.phase.WRefolded?
    ensures GateInv(Next(n, Gather), known)
  {
    hide SilencedAt, FoldEvents, JudgeEvent, Applies, TakesPersonal;
    var m := Next(n, Gather);
    var gone := m.writer.value.phase.gone;
    forall e | e in m.rows && e.id in gone ensures Deletable(e) {
      var x :| x in m.rows && x.id == e.id && Deletable(x);
      SameIdSameRow(m.rows, x, e);
    }
    forall g | g in m.groups && m.groups[g].Some? && !Changing(m, g) ensures Quiet(m.rows, g, m.groups[g].value) {
      assert Quiet(n.rows, g, n.groups[g].value);
    }
  }

  lemma {:induction false} PurgeKeepsInv(n: Node, known: set<Event>)
    requires GateInv(n, known) && n.writer.Some? && n.writer.value.phase.WGathered?
    ensures GateInv(Next(n, Purge), known)
  {
    hide SilencedAt, FoldEvents, DistinctIds, JudgeEvent, Applies, TakesPersonal;
    var m := Next(n, Purge);
    var gone := n.writer.value.phase.gone;
    DropMembers(n.rows, gone);
    DropDistinct(n.rows, gone);
    forall g | g in m.groups ensures m.groups[g] == FoldEvents(g, m.rows) {
      forall e | e in n.rows && e.id in gone ensures Unread(g, e) {
        ChannelIsUnread(g, e);
      }
      DropUnread(g, n.rows, gone);
    }
    forall g | g in m.groups && m.groups[g].Some? ensures Quiet(m.rows, g, m.groups[g].value) {
      if !Changing(n, g) {
        assert Quiet(n.rows, g, n.groups[g].value);
      }
    }
  }

  lemma {:induction false} PersonalKeepsInv(n: Node, known: set<Event>, e: Event, now: Timestamp)
    requires GateInv(n, known) && e in known && (e.body.Binding? || e.body.Profile?)
    ensures GateInv(KeepPerson(n, e, now), known)
  {
    hide SilencedAt, FoldEvents, DistinctIds, Unread, Insert;
    var m := KeepPerson(n, e, now);
    InsertChanges(n.rows, e);
    InsertMembers(n.rows, e);
    forall g | g in m.groups && !Unfolded(m, g) ensures m.groups[g] == FoldEvents(g, m.rows) {
      ChannelIsUnread(g, e);
      InsertUnread(g, n.rows, e);
    }
    forall g | g in m.groups && m.groups[g].Some? && !Changing(m, g) ensures Quiet(m.rows, g, m.groups[g].value) {
      assert Quiet(n.rows, g, n.groups[g].value);
    }
  }

  lemma TakenIsPersonal(n: Node, e: Event, now: Timestamp)
    ensures TakesPersonal(n, e, now) ==> e.body.Binding? || e.body.Profile?
  {
  }

  lemma EnterKeepsInv(n: Node, known: set<Event>, step: Step)
    requires GateInv(n, known) && EventIn(step, known) && (step.EnterRead? || step.EnterWrite? || step.JudgeWrite?)
    ensures GateInv(Next(n, step), known)
  {
    hide SilencedAt, FoldEvents, DistinctIds, Quiet, JudgeEvent, Applies, TakesPersonal;
  }

  lemma {:induction false} NextKeepsInv(n: Node, known: set<Event>, step: Step)
    requires GateInv(n, known) && EventIn(step, known)
    ensures GateInv(Next(n, step), known)
  {
    hide GateInv, JudgeEvent, Applies, SilencedAt, TooSoon, IsDeleted, RemovedByModerator, TakesPersonal, KeepPerson;
    match step
    case EnterRead(_, _) => EnterKeepsInv(n, known, step);
    case EnterWrite(_) => EnterKeepsInv(n, known, step);
    case JudgeWrite(_) => EnterKeepsInv(n, known, step);
    case JudgeRead(t, now) =>
      if t in n.readers && n.readers[t].phase.Entered? {
        if JudgeEvent(n.groups, n.readers[t].event, now).Keep? && Deletable(n.readers[t].event) {
          AdmittedIsUnsilenced(n.groups, n.readers[t].event, now);
        }
        MoveReader(n, known, Next(n, step), t);
      }
    case CheckWithdrawn(t) =>
      if t in n.readers && n.readers[t].phase.Admitted? { MoveReader(n, known, Next(n, step), t); }
    case CheckRemoved(t) =>
      if t in n.readers && n.readers[t].phase.NotWithdrawn? { MoveReader(n, known, Next(n, step), t); }
    case CheckPace(t) =>
      if t in n.readers && n.readers[t].phase.NotRemoved? { MoveReader(n, known, Next(n, step), t); }
    case StoreRead(t) =>
      if t in n.readers && n.readers[t].phase.Paced? { StoreReadKeepsInv(n, known, t); }
    case SweepRead(t) =>
      if t in n.readers && (n.readers[t].phase.Kept? || n.readers[t].phase.Sweeping?) { SweepKeepsInv(n, known, t); }
    case StoreWrite =>
      if n.writer.Some? && n.writer.value.phase.WAdmitted? { StoreWriteKeepsInv(n, known); }
    case Refold =>
      if n.writer.Some? && n.writer.value.phase.WStored? { RefoldKeepsInv(n, known); }
    case Gather =>
      if n.writer.Some? && n.writer.value.phase.WRefolded? { GatherKeepsInv(n, known); }
    case Purge =>
      if n.writer.Some? && n.writer.value.phase.WGathered? { PurgeKeepsInv(n, known); }
    case KeepPersonal(e, now) =>
      if TakesPersonal(n, e, now) {
        TakenIsPersonal(n, e, now);
        PersonalKeepsInv(n, known, e, now);
      }
  }

  /** The node of `me`, which carries `carried` and holds nothing yet. */
  function Fresh(me: PublicKey, carried: set<PublicKey>): Node {
    Node(me, [], map[], map g | g in carried :: None, map[], None)
  }

  /** Every event the steps bring is in `known`, which gives no two events one id. */
  ghost predicate Brings(steps: seq<Step>, known: set<Event>) {
    && (forall a, b :: a in known && b in known && a.id == b.id ==> a == b)
    && (forall step :: step in steps ==> EventIn(step, known))
  }

  lemma FreshInv(me: PublicKey, carried: set<PublicKey>, known: set<Event>)
    requires Brings([], known)
    ensures GateInv(Fresh(me, carried), known)
  {
    forall g | g in carried ensures FoldEvents(g, []) == None {
    }
  }

  lemma {:induction false} RunKeepsGateInv(me: PublicKey, carried: set<PublicKey>, steps: seq<Step>, known: set<Event>)
    requires Brings(steps, known)
    ensures GateInv(Run(Fresh(me, carried), steps), known)
  {
    hide GateInv, Next;
    if steps == [] {
      FreshInv(me, carried, known);
    } else {
      RunKeepsGateInv(me, carried, steps[..|steps| - 1], known);
      NextKeepsInv(Run(Fresh(me, carried), steps[..|steps| - 1]), known, steps[|steps| - 1]);
    }
  }
}
