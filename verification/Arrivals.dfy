/**
  Arrivals one at a time: with nobody else inside, the steps of `accept_event`
  (crates/hit-node/src/lib.rs) come to one plain function of the node and the event.
 */
module Arrivals {
  import opened Prelude
  import opened Group
  import opened EventLists
  import opened Fold
  import opened Judge
  import opened Store
  import opened Gate

  datatype Arrival =
    | ToChannel(event: Event, now: Timestamp)
    | ToGroup(event: Event, now: Timestamp)
    | Personal(event: Event, now: Timestamp)

  /** Which way in an event takes. */
  function Route(e: Event, now: Timestamp): Arrival {
    if TakesLock(e) then ToGroup(e, now) else if SharesLock(e) then ToChannel(e, now) else Personal(e, now)
  }

  function StepsOf(a: Arrival): seq<Step> {
    match a
    case ToChannel(e, now) =>
      [EnterRead(0, e), JudgeRead(0, now), CheckWithdrawn(0), CheckRemoved(0), CheckPace(0), StoreRead(0), SweepRead(0), SweepRead(0)]
    case ToGroup(e, now) => [EnterWrite(e), JudgeWrite(now), StoreWrite, Refold, Gather, Purge]
    case Personal(e, now) => [KeepPersonal(e, now)]
  }

  function AllSteps(arrivals: seq<Arrival>): seq<Step> {
    if arrivals == [] then [] else AllSteps(arrivals[..|arrivals| - 1]) + StepsOf(arrivals[|arrivals| - 1])
  }

  /** Nobody at work. */
  predicate AtRest(n: Node) { n.readers == map[] && n.writer.None? }

  // ---- what an arrival comes to ----------------------------------------------------------

  /** A channel event that passed its checks: stored, and what it takes back gone. */
  function KeepMessage(rows: seq<Event>, e: Event): seq<Event> {
    var stored := Insert(rows, e);
    if stored.outcome.New? && e.body.Deletion? then Drop(stored.rows, Withdrawn(stored.rows, e))
    else if stored.outcome.New? && e.body.Removal? then Drop(stored.rows, RemovedBy(stored.rows, e))
    else stored.rows
  }

  ghost predicate Welcome(n: Node, e: Event, now: Timestamp) {
    SharesLock(e) && JudgeEvent(n.groups, e, now).Keep? && Clear(n.rows, n.groups, e)
  }

  ghost predicate Admissible(n: Node, e: Event, now: Timestamp) {
    var verdict := JudgeEvent(n.groups, e, now);
    TakesLock(e) && (verdict.Keep? || (verdict.FoldWith? && Applies(n.rows, verdict.group, e)))
  }

  /** A stored state change: the group refolded, and the newly silenced gone. */
  ghost function Refolded(n: Node, rows: seq<Event>, g: PublicKey): Node {
    if g !in n.groups then n.(rows := Drop(rows, {}))
    else
      var s := FoldEvents(g, rows);
      n.(rows := Drop(rows, if s.Some? then Silenced(rows, g, s.value) else {}), groups := n.groups[g := s])
  }

  ghost function Accept(n: Node, a: Arrival): Node {
    match a
    case ToChannel(e, now) => if Welcome(n, e, now) then n.(rows := KeepMessage(n.rows, e)) else n
    case ToGroup(e, now) =>
      if !Admissible(n, e, now) then n
      else
        var stored := Insert(n.rows, e);
        if stored.outcome.New? then Refolded(n, stored.rows, e.group.value) else n.(rows := stored.rows)
    case Personal(e, now) => if TakesPersonal(n, e, now) then KeepPerson(n, e, now) else n
  }

  /** What `accept_event` answers: taken as new, taken because the store has it or better, refused. */
  datatype Answer = New | Known | Refused

  ghost predicate Lets(n: Node, a: Arrival) {
    match a
    case ToChannel(e, now) => Welcome(n, e, now)
    case ToGroup(e, now) => Admissible(n, e, now)
    case Personal(e, now) => TakesPersonal(n, e, now)
  }

  ghost function AnswerTo(n: Node, a: Arrival): Answer {
    if Lets(n, a) then AnswerOf(Insert(n.rows, a.event).outcome) else Answer.Refused
  }

  function AnswerOf(outcome: Stored): Answer {
    if outcome.Duplicate? || outcome.Stale? then Answer.Known else Answer.New
  }

  ghost function AcceptAll(n: Node, arrivals: seq<Arrival>): Node {
    if arrivals == [] then n
    else Accept(AcceptAll(n, arrivals[..|arrivals| - 1]), arrivals[|arrivals| - 1])
  }

  // ---- runs ----------------------------------------------------------------------------------

  lemma RunSnoc(n: Node, steps: seq<Step>, step: Step)
    ensures Run(n, steps + [step]) == Next(Run(n, steps), step)
  {
    assert (steps + [step])[..|steps|] == steps;
  }

  lemma {:induction false} RunThen(n: Node, a: seq<Step>, b: seq<Step>)
    ensures Run(n, a + b) == Run(Run(n, a), b)
  {
    hide Next;
    if b == [] {
      assert a + b == a;
    } else {
      var last := |b| - 1;
      RunThen(n, a, b[..last]);
      assert a + b == a + b[..last] + [b[last]];
      RunSnoc(n, a + b[..last], b[last]);
    }
  }

  lemma RunFirst(n: Node, step: Step, rest: seq<Step>)
    ensures Run(n, [step] + rest) == Run(Next(n, step), rest)
  {
    hide Next;
    RunThen(n, [step], rest);
    assert [step] == [] + [step];
    RunSnoc(n, [], step);
  }

  /** The steps of a reader or a writer that has left change nothing. */
  lemma {:induction false} NobodySteps(n: Node, steps: seq<Step>)
    requires AtRest(n)
    requires forall s :: s in steps ==> !s.EnterRead? && !s.EnterWrite? && !s.KeepPersonal?
    ensures Run(n, steps) == n
  {
    hide JudgeEvent, Applies, FoldEvents, Insert, Drop, TakesPersonal;
    if steps != [] {
      NobodySteps(n, steps[..|steps| - 1]);
    }
  }

  // ---- a channel event alone --------------------------------------------------------------------

  const SWEEPS: seq<Step> := [SweepRead(0)] + [SweepRead(0)]
  const FROM_STORE: seq<Step> := [StoreRead(0)] + SWEEPS
  const FROM_PACE: seq<Step> := [CheckPace(0)] + FROM_STORE
  const FROM_REMOVED: seq<Step> := [CheckRemoved(0)] + FROM_PACE
  const FROM_WITHDRAWN: seq<Step> := [CheckWithdrawn(0)] + FROM_REMOVED

  function At(n: Node, e: Event, phase: ReadPhase): Node {
    n.(readers := map[0 := Reader(e, phase)])
  }

  lemma Swept(n: Node, e: Event)
    requires AtRest(n) && (e.body.Deletion? || e.body.Removal?)
    ensures Run(At(n, e, Kept), SWEEPS) ==
            n.(rows := if e.body.Deletion? then Drop(n.rows, Withdrawn(n.rows, e)) else Drop(n.rows, RemovedBy(n.rows, e)))
  {
    hide JudgeEvent, Run, Drop, Withdrawn, RemovedBy, TakesPersonal;
    var one := Next(At(n, e, Kept), SweepRead(0));
    RunFirst(At(n, e, Kept), SweepRead(0), [SweepRead(0)]);
    RunFirst(one, SweepRead(0), []);
    NobodySteps(Next(one, SweepRead(0)).(readers := map[]), []);
    assert [SweepRead(0)] + [] == [SweepRead(0)];
  }

  lemma StoredAndSwept(n: Node, e: Event)
    requires AtRest(n) && Clear(n.rows, n.groups, e)
    ensures Run(At(n, e, Paced), FROM_STORE) == n.(rows := KeepMessage(n.rows, e))
  {
    hide JudgeEvent, Run, Drop, Withdrawn, RemovedBy, Insert, Clear, SWEEPS, TakesPersonal;
    var stored := Insert(n.rows, e);
    var after := n.(rows := stored.rows);
    RunFirst(At(n, e, Paced), StoreRead(0), SWEEPS);
    if stored.outcome.New? && (e.body.Deletion? || e.body.Removal?) {
      assert Next(At(n, e, Paced), StoreRead(0)) == At(after, e, Kept);
      Swept(after, e);
    } else {
      assert Next(At(n, e, Paced), StoreRead(0)) == after;
      SweepsOnly();
      NobodySteps(after, SWEEPS);
    }
  }

  lemma SweepsOnly()
    ensures forall s :: s in SWEEPS ==> s == SweepRead(0)
    ensures forall s :: s in FROM_STORE ==> s == SweepRead(0) || s == StoreRead(0)
    ensures forall s :: s in FROM_PACE ==> s == SweepRead(0) || s == StoreRead(0) || s == CheckPace(0)
    ensures forall s :: s in FROM_REMOVED ==> s == SweepRead(0) || s == StoreRead(0) || s == CheckPace(0) || s == CheckRemoved(0)
    ensures forall s :: s in FROM_WITHDRAWN ==>
              s == SweepRead(0) || s == StoreRead(0) || s == CheckPace(0) || s == CheckRemoved(0) || s == CheckWithdrawn(0)
  {
  }

  ghost predicate NotTakenBack(n: Node, e: Event) {
    Deletable(e) ==> !IsDeleted(n.rows, e.id, e.author) && !RemovedByModerator(n.rows, e)
  }

  lemma PacedAlone(n: Node, e: Event)
    requires AtRest(n) && NotTakenBack(n, e)
    ensures Run(At(n, e, NotRemoved), FROM_PACE) ==
            if Clear(n.rows, n.groups, e) then n.(rows := KeepMessage(n.rows, e)) else n
  {
    hide JudgeEvent, Run, KeepMessage, IsDeleted, RemovedByModerator, TooSoon, FROM_STORE, TakesPersonal;
    RunFirst(At(n, e, NotRemoved), CheckPace(0), FROM_STORE);
    if Clear(n.rows, n.groups, e) {
      assert Next(At(n, e, NotRemoved), CheckPace(0)) == At(n, e, Paced);
      StoredAndSwept(n, e);
    } else {
      assert Next(At(n, e, NotRemoved), CheckPace(0)) == n;
      SweepsOnly();
      NobodySteps(n, FROM_STORE);
    }
  }

  lemma CheckedAlone(n: Node, e: Event)
    requires AtRest(n)
    ensures Run(At(n, e, Admitted), FROM_WITHDRAWN) ==
            if Clear(n.rows, n.groups, e) then n.(rows := KeepMessage(n.rows, e)) else n
  {
    hide JudgeEvent, Run, KeepMessage, IsDeleted, RemovedByModerator, TooSoon, FROM_PACE, FROM_REMOVED, TakesPersonal;
    RunFirst(At(n, e, Admitted), CheckWithdrawn(0), FROM_REMOVED);
    SweepsOnly();
    if Deletable(e) && IsDeleted(n.rows, e.id, e.author) {
      assert Next(At(n, e, Admitted), CheckWithdrawn(0)) == n;
      NobodySteps(n, FROM_REMOVED);
    } else {
      assert Next(At(n, e, Admitted), CheckWithdrawn(0)) == At(n, e, NotWithdrawn);
      RemovalAlone(n, e);
    }
  }

  lemma RemovalAlone(n: Node, e: Event)
    requires AtRest(n) && (Deletable(e) ==> !IsDeleted(n.rows, e.id, e.author))
    ensures Run(At(n, e, NotWithdrawn), FROM_REMOVED) ==
            if Clear(n.rows, n.groups, e) then n.(rows := KeepMessage(n.rows, e)) else n
  {
    hide JudgeEvent, Run, KeepMessage, IsDeleted, RemovedByModerator, TooSoon, FROM_PACE, TakesPersonal;
    RunFirst(At(n, e, NotWithdrawn), CheckRemoved(0), FROM_PACE);
    SweepsOnly();
    if Deletable(e) && RemovedByModerator(n.rows, e) {
      assert Next(At(n, e, NotWithdrawn), CheckRemoved(0)) == n;
      NobodySteps(n, FROM_PACE);
    } else {
      assert Next(At(n, e, NotWithdrawn), CheckRemoved(0)) == At(n, e, NotRemoved);
      PacedAlone(n, e);
    }
  }

  lemma ChannelArrivalIsAccept(n: Node, e: Event, now: Timestamp)
    requires AtRest(n)
    ensures Run(n, StepsOf(ToChannel(e, now))) == Accept(n, ToChannel(e, now))
  {
    hide JudgeEvent, Run, KeepMessage, Clear, FROM_WITHDRAWN, TakesPersonal;
    var judge := JudgeRead(0, now);
    assert StepsOf(ToChannel(e, now)) == [EnterRead(0, e)] + ([judge] + FROM_WITHDRAWN) by { Spelled(e, now); }
    RunFirst(n, EnterRead(0, e), [judge] + FROM_WITHDRAWN);
    SweepsOnly();
    if SharesLock(e) {
      assert Next(n, EnterRead(0, e)) == At(n, e, Entered);
      RunFirst(At(n, e, Entered), judge, FROM_WITHDRAWN);
      if JudgeEvent(n.groups, e, now).Keep? {
        assert Next(At(n, e, Entered), judge) == At(n, e, Admitted);
        CheckedAlone(n, e);
      } else {
        assert Next(At(n, e, Entered), judge) == n;
        NobodySteps(n, FROM_WITHDRAWN);
      }
    } else {
      NobodySteps(n, [judge] + FROM_WITHDRAWN);
    }
  }

  lemma Spelled(e: Event, now: Timestamp)
    ensures StepsOf(ToChannel(e, now)) == [EnterRead(0, e)] + ([JudgeRead(0, now)] + FROM_WITHDRAWN)
    ensures StepsOf(ToGroup(e, now)) == [EnterWrite(e)] + ([JudgeWrite(now)] + FROM_WRITE)
  {
  }

  // ---- a state change alone ------------------------------------------------------------------------

  const FROM_REFOLD: seq<Step> := [Refold] + ([Gather] + [Purge])
  const FROM_WRITE: seq<Step> := [StoreWrite] + FROM_REFOLD

  function Writing(n: Node, e: Event, phase: WritePhase): Node {
    n.(writer := Some(Writer(e, phase)))
  }

  lemma RefoldedAlone(n: Node, e: Event)
    requires AtRest(n) && TakesLock(e)
    ensures Run(Writing(n, e, WStored), FROM_REFOLD) == Refolded(n, n.rows, e.group.value)
  {
    hide JudgeEvent, Run, Drop, FoldEvents, Silenced, Applies, TakesPersonal;
    var one := Next(Writing(n, e, WStored), Refold);
    var two := Next(one, Gather);
    RunFirst(Writing(n, e, WStored), Refold, [Gather] + [Purge]);
    RunFirst(one, Gather, [Purge]);
    RunFirst(two, Purge, []);
    assert [Purge] + [] == [Purge];
    NobodySteps(Next(two, Purge), []);
  }

  lemma GroupArrivalIsAccept(n: Node, e: Event, now: Timestamp)
    requires AtRest(n)
    ensures Run(n, StepsOf(ToGroup(e, now))) == Accept(n, ToGroup(e, now))
  {
    hide JudgeEvent, Run, Refolded, Insert, Applies, FROM_WRITE, FROM_REFOLD, TakesPersonal;
    var judge := JudgeWrite(now);
    Spelled(e, now);
    RunFirst(n, EnterWrite(e), [judge] + FROM_WRITE);
    WritesOnly();
    if TakesLock(e) {
      RunFirst(Writing(n, e, WEntered), judge, FROM_WRITE);
      if Admissible(n, e, now) {
        assert Next(Writing(n, e, WEntered), judge) == Writing(n, e, WAdmitted);
        StoredAlone(n, e);
      } else {
        assert Next(Writing(n, e, WEntered), judge) == n;
        NobodySteps(n, FROM_WRITE);
      }
    } else {
      NobodySteps(n, [judge] + FROM_WRITE);
    }
  }

  lemma StoredAlone(n: Node, e: Event)
    requires AtRest(n) && TakesLock(e)
    ensures var stored := Insert(n.rows, e);
            Run(Writing(n, e, WAdmitted), FROM_WRITE) ==
            if stored.outcome.New? then Refolded(n, stored.rows, e.group.value) else n.(rows := stored.rows)
  {
    hide JudgeEvent, Run, Insert, Applies, FoldEvents, Silenced, FROM_REFOLD, TakesPersonal;
    var stored := Insert(n.rows, e);
    var after := n.(rows := stored.rows);
    RunFirst(Writing(n, e, WAdmitted), StoreWrite, FROM_REFOLD);
    WritesOnly();
    if stored.outcome.New? {
      assert Next(Writing(n, e, WAdmitted), StoreWrite) == Writing(after, e, WStored);
      RefoldedAlone(after, e);
    } else {
      assert Next(Writing(n, e, WAdmitted), StoreWrite) == after;
      NobodySteps(after, FROM_REFOLD);
    }
  }

  lemma WritesOnly()
    ensures forall s :: s in FROM_REFOLD ==> s == Refold || s == Gather || s == Purge
    ensures forall s :: s in FROM_WRITE ==> s == Refold || s == Gather || s == Purge || s == StoreWrite
  {
  }

  // ---- arrivals one after another ---------------------------------------------------------------------

  lemma ArrivalIsAccept(n: Node, a: Arrival)
    requires AtRest(n)
    ensures Run(n, StepsOf(a)) == Accept(n, a)
    ensures AtRest(Accept(n, a))
  {
    hide JudgeEvent, Run, Insert, FoldEvents, Welcome, Admissible, KeepMessage, TakesPersonal;
    match a
    case ToChannel(e, now) => ChannelArrivalIsAccept(n, e, now);
    case ToGroup(e, now) => GroupArrivalIsAccept(n, e, now);
    case Personal(e, now) =>
      RunFirst(n, KeepPersonal(e, now), []);
      assert [KeepPersonal(e, now)] + [] == [KeepPersonal(e, now)];
      NobodySteps(Next(n, KeepPersonal(e, now)), []);
  }

  /** One arrival at a time, all the interleaved steps come to accepting each in turn. */
  lemma {:induction false} ArrivalsAreAccepted(n: Node, arrivals: seq<Arrival>)
    requires AtRest(n)
    ensures Run(n, AllSteps(arrivals)) == AcceptAll(n, arrivals)
    ensures AtRest(AcceptAll(n, arrivals))
  {
    hide Next, StepsOf, Accept;
    if arrivals != [] {
      var last := |arrivals| - 1;
      ArrivalsAreAccepted(n, arrivals[..last]);
      RunThen(n, AllSteps(arrivals[..last]), StepsOf(arrivals[last]));
      ArrivalIsAccept(AcceptAll(n, arrivals[..last]), arrivals[last]);
    }
  }
}
