/**
  Words that were taken back, and words that came too soon. Under the shared lock a withdrawal
  can be stored between a message's checks and its storing, and so can another message of its
  author. Here: for each pair of events, the one step that leaves both of them stored, what it
  takes for it to happen, and that nothing else does.
 */
module Withdrawals {
  import opened Prelude
  import opened Group
  import opened EventLists
  import opened Fold
  import opened Judge
  import opened Store
  import opened Gate

  /** `d` takes `m` back: its author's withdrawal, or a removal in the same place. */
  predicate TakesBack(d: Event, m: Event) {
    && Deletable(m)
    && ((d.body.Deletion? && d.author == m.author && m.id in d.body.withdrawn)
        || (d.body.Removal? && SamePlace(d, m) && m.id in d.body.removed))
  }

  /** The reader has stored its withdrawal and has still to sweep `m` away. */
  predicate WillSweep(r: Reader, m: Event) {
    r.phase.Kept? || (r.phase.Sweeping? && m.id in r.phase.gone)
  }

  ghost predicate Pending(n: Node, d: Event, m: Event) {
    exists t :: t in n.readers && n.readers[t].event == d && WillSweep(n.readers[t], m)
  }

  /** The step stores `m` beside a stored `d`, whose sweep is over or has passed `m` by. */
  ghost predicate StoresLate(n: Node, step: Step, m: Event, d: Event) {
    && step.StoreRead? && step.t in n.readers && n.readers[step.t] == Reader(m, Paced) && !HasId(n.rows, m.id)
    && d in n.rows && TakesBack(d, m) && !Pending(n, d, m)
  }

  /** Some step of the run stored `m` too late for `d`'s sweep. */
  ghost predicate Missed(start: Node, steps: seq<Step>, m: Event, d: Event) {
    exists k :: 0 <= k < |steps| && StoresLate(Run(start, steps[..k]), steps[k], m, d)
  }

  lemma MissedSnoc(start: Node, steps: seq<Step>, step: Step, m: Event, d: Event)
    ensures Missed(start, steps + [step], m, d) <==> Missed(start, steps, m, d) || StoresLate(Run(start, steps), step, m, d)
  {
    hide StoresLate, Run;
    var all := steps + [step];
    assert all[..|steps|] == steps && all[|steps|] == step;
    assert forall k :: 0 <= k < |steps| ==> all[..k] == steps[..k] && all[k] == steps[k];
    if Missed(start, steps, m, d) {
      var k :| 0 <= k < |steps| && StoresLate(Run(start, steps[..k]), steps[k], m, d);
      assert StoresLate(Run(start, all[..k]), all[k], m, d);
    }
    if StoresLate(Run(start, steps), step, m, d) {
      assert StoresLate(Run(start, all[..|steps|]), all[|steps|], m, d);
    }
  }

  // ---- how a reader moves ----------------------------------------------------------------

  /** A reader that is not as it was has taken the step itself, and passed its check. */
  lemma MovedReader(n: Node, step: Step, t: nat)
    requires t in Next(n, step).readers && !(t in n.readers && n.readers[t] == Next(n, step).readers[t])
    ensures
      var r := Next(n, step).readers[t];
      if r.phase.Entered? then step == EnterRead(t, r.event)
      else t in n.readers && r.event == n.readers[t].event && Advances(n, step, t, r)
  {
    hide JudgeEvent, Applies, TooSoon, IsDeleted, RemovedByModerator, FoldEvents, Silenced, Insert, Drop, Withdrawn, RemovedBy;
    hide TakesPersonal, KeepPerson, SharesLock, TakesLock;
    match step
    case KeepPersonal(e, now) => KeepsReaders(n, e, now);
    case _ =>
  }

  lemma KeepsReaders(n: Node, e: Event, now: Timestamp)
    ensures KeepPerson(n, e, now).readers == n.readers
  {
    hide Bindings.Check, Bindings.BookInsert, Insert;
  }

  /** What `t`'s step to `r` has established. */
  predicate Advances(n: Node, step: Step, t: nat, r: Reader)
    requires t in n.readers
  {
    var e, was := r.event, n.readers[t].phase;
    match r.phase
    case Entered => false
    case Admitted => step.JudgeRead? && step.t == t && was.Entered?
    case NotWithdrawn => step == CheckWithdrawn(t) && was.Admitted? && !(Deletable(e) && IsDeleted(n.rows, e.id, e.author))
    case NotRemoved => step == CheckRemoved(t) && was.NotWithdrawn? && !(Deletable(e) && RemovedByModerator(n.rows, e))
    case Paced => step == CheckPace(t) && was.NotRemoved? && !(e.body.Chat? && TooSoon(n.rows, n.groups, e))
    case Kept => step == StoreRead(t) && was.Paced? && (e.body.Deletion? || e.body.Removal?)
    case Sweeping(gone) => step == SweepRead(t) && was.Kept? && e.body.Removal? && gone == RemovedBy(n.rows, e)
  }

  // ---- what the sweeps and the purge aim at ------------------------------------------------

  /** A sweep takes only what its withdrawal takes back, a purge only what is silenced. */
  ghost predicate Aims(n: Node, known: set<Event>) { SweepsAim(n, known) && PurgeAims(n, known) }

  ghost predicate SweepsAim(n: Node, known: set<Event>) {
    && (forall t :: t in n.readers && n.readers[t].phase.Kept? ==> n.readers[t].event.body.Deletion? || n.readers[t].event.body.Removal?)
    && (forall t :: t in n.readers && n.readers[t].phase.Sweeping? ==> n.readers[t].event.body.Removal?)
    && (forall t, e :: t in n.readers && n.readers[t].phase.Sweeping? && e in known && e.id in n.readers[t].phase.gone ==>
          TakesBack(n.readers[t].event, e))
  }

  ghost predicate PurgeAims(n: Node, known: set<Event>) {
    n.writer.Some? && n.writer.value.phase.WGathered? ==>
      forall e :: e in known && e.id in n.writer.value.phase.gone ==> e.group == n.writer.value.event.group && SilencedNow(n, e)
  }

  /** Its group's state in memory says `e` should not be here. */
  ghost predicate SilencedNow(n: Node, e: Event) {
    && Deletable(e) && e.group.Some? && e.group.value in n.groups && n.groups[e.group.value].Some?
    && SilencedAt(n.groups[e.group.value].value, e.author, e.at)
  }

  lemma RemovedByTakesBack(n: Node, known: set<Event>, d: Event, e: Event)
    requires InPlay(n, known) && e in known && d.body.Removal? && e.id in RemovedBy(n.rows, d)
    ensures TakesBack(d, e)
  {
    var x :| x in n.rows && x.id == e.id && x.id in d.body.removed && Deletable(x) && SamePlace(x, d);
    assert x in known;
  }

  lemma {:induction false} SweepKeepsAims(n: Node, known: set<Event>, t: nat)
    requires GateInv(n, known) && Aims(n, known) && t in n.readers && WillSweepOrDone(n.readers[t])
    ensures Aims(Sweep(n, t), known)
  {
    hide TakesBack, SilencedNow, DistinctIds, Folded, AllQuiet, StillWelcome, Sweeps, InPlay, RemovedBy, Withdrawn, Drop;
    var r := n.readers[t];
    if r.phase.Kept? && r.event.body.Removal? {
      forall e | e in known && e.id in RemovedBy(n.rows, r.event) ensures TakesBack(r.event, e) {
        RemovedByTakesBack(n, known, r.event, e);
      }
    }
  }

  predicate WillSweepOrDone(r: Reader) { r.phase.Kept? || r.phase.Sweeping? }

  lemma {:induction false} GatherKeepsAims(n: Node, known: set<Event>)
    requires GateInv(n, known) && Aims(n, known)
    ensures Aims(Next(n, Gather), known)
  {
    hide TakesBack, DistinctIds, Folded, AllQuiet, StillWelcome, Sweeps, SilencedAt, JudgeEvent, Applies, FoldEvents, TakesPersonal;
    if n.writer.Some? && n.writer.value.phase.WRefolded? {
      var m := Next(n, Gather);
      forall e | e in known && e.id in m.writer.value.phase.gone ensures e.group == n.writer.value.event.group && SilencedNow(m, e) {
        var g := n.writer.value.event.group.value;
        var x :| x in n.rows && x.id == e.id && x.group == Some(g) && Deletable(x) && SilencedAt(n.groups[g].value, x.author, x.at);
        assert x in known;
      }
    }
  }

  lemma {:induction false} NextKeepsAims(n: Node, known: set<Event>, step: Step)
    requires GateInv(n, known) && Aims(n, known)
    ensures Aims(Next(n, step), known)
  {
    if step.Gather? {
      GatherKeepsAims(n, known);
    } else if step.SweepRead? {
      hide Aims, GateInv, Sweep;
      if step.t in n.readers && WillSweepOrDone(n.readers[step.t]) {
        SweepKeepsAims(n, known, step.t);
      }
    } else {
      OthersKeepAims(n, known, step);
    }
  }

  lemma OthersKeepAims(n: Node, known: set<Event>, step: Step)
    requires Aims(n, known) && !step.Gather? && !step.SweepRead?
    ensures Aims(Next(n, step), known)
  {
    hide TakesBack, PurgeAims, Next;
    OthersKeepPurge(n, known, step);
    var m := Next(n, step);
    forall t | t in m.readers && (m.readers[t].phase.Kept? || m.readers[t].phase.Sweeping?)
      ensures (t in n.readers && n.readers[t] == m.readers[t]) || (m.readers[t].phase.Kept? && SweepsWhatItIs(m.readers[t].event))
    {
      if !(t in n.readers && n.readers[t] == m.readers[t]) {
        MovedReader(n, step, t);
      }
    }
  }

  predicate SweepsWhatItIs(e: Event) { e.body.Deletion? || e.body.Removal? }

  lemma OthersKeepPurge(n: Node, known: set<Event>, step: Step)
    requires PurgeAims(n, known) && !step.Gather?
    ensures PurgeAims(Next(n, step), known)
  {
    hide SilencedAt, Deletable, SharesLock, TakesLock;
    hide JudgeEvent, Applies, TooSoon, IsDeleted, RemovedByModerator, FoldEvents, Silenced, Insert, Drop, TakesPersonal, Withdrawn, RemovedBy;
  }

  // ---- which rows come and go -----------------------------------------------------------------

  predicate Spoken(e: Event) { Deletable(e) || e.body.Deletion? || e.body.Removal? }

  /** Only a channel event's own step stores it. */
  lemma RowsFrom(n: Node, step: Step, e: Event)
    requires LockKept(n) && !step.StoreRead? && e in Next(n, step).rows && Spoken(e)
    ensures e in n.rows
  {
    hide JudgeEvent, Applies, SilencedAt, TooSoon, IsDeleted, RemovedByModerator, FoldEvents, Silenced, TakesPersonal;
    match step
    case StoreWrite =>
      if n.writer.Some? {
        InsertMembers(n.rows, n.writer.value.event);
      }
    case KeepPersonal(x, now) =>
      TakenIsPersonal(n, x, now);
      InsertMembers(n.rows, x);
    case Purge =>
      if n.writer.Some? && n.writer.value.phase.WGathered? {
        DropMembers(n.rows, n.writer.value.phase.gone);
      }
    case SweepRead(t) =>
      if t in n.readers {
        var r := n.readers[t];
        if r.phase.Sweeping? {
          DropMembers(n.rows, r.phase.gone);
        } else if r.event.body.Deletion? {
          DropMembers(n.rows, Withdrawn(n.rows, r.event));
        }
      }
    case _ =>
  }

  lemma InsertKeepsSpoken(rows: seq<Event>, x: Event, e: Event)
    requires DistinctIds(rows) && e in rows && Spoken(e)
    ensures e in Insert(rows, x).rows
  {
    hide DistinctIds, Drop;
    CurrentInFinds(rows, x);
    var current := CurrentIn(rows, x);
    if current.Some? {
      DropMembers(rows, {current.value.id});
      SameIdSameRow(rows, e, current.value);
    }
  }

  /** What may take `e` off the rows: a withdrawal that takes it back, or a silence it is dated in. */
  ghost predicate Leaves(n: Node, step: Step, e: Event) {
    || (step.SweepRead? && step.t in n.readers && WillSweep(n.readers[step.t], e) && TakesBack(n.readers[step.t].event, e))
    || (step.Purge? && n.writer.Some? && e.group == n.writer.value.event.group && SilencedNow(n, e))
  }

  lemma {:induction false} SweepLeaves(n: Node, known: set<Event>, t: nat, e: Event)
    requires GateInv(n, known) && Aims(n, known) && e in n.rows && e !in Next(n, SweepRead(t)).rows
    ensures Leaves(n, SweepRead(t), e)
  {
    hide JudgeEvent, Applies, SilencedAt, FoldEvents, DistinctIds, Folded, AllQuiet, StillWelcome, TakesPersonal;
    var r := n.readers[t];
    if r.phase.Sweeping? {
      DropMembers(n.rows, r.phase.gone);
    } else if r.event.body.Deletion? {
      DropMembers(n.rows, Withdrawn(n.rows, r.event));
      var x :| x in n.rows && x.id == e.id && x.id in r.event.body.withdrawn && x.author == r.event.author && Deletable(x);
      assert x == e;
    }
  }

  /** A channel event leaves in no other way. */
  lemma {:induction false} RowsLeave(n: Node, known: set<Event>, step: Step, e: Event)
    requires GateInv(n, known) && Aims(n, known) && e in n.rows && Spoken(e) && e !in Next(n, step).rows
    ensures Leaves(n, step, e)
  {
    hide JudgeEvent, Applies, SilencedAt, TooSoon, IsDeleted, RemovedByModerator, FoldEvents, Silenced, Folded, AllQuiet, StillWelcome, TakesPersonal;
    hide Insert, DistinctIds, TakesBack, Sweep;
    match step
    case StoreRead(t) =>
      if t in n.readers {
        InsertKeepsSpoken(n.rows, n.readers[t].event, e);
      }
    case StoreWrite =>
      if n.writer.Some? {
        InsertKeepsSpoken(n.rows, n.writer.value.event, e);
      }
    case KeepPersonal(x, _) => InsertKeepsSpoken(n.rows, x, e);
    case Purge =>
      if n.writer.Some? && n.writer.value.phase.WGathered? {
        DropMembers(n.rows, n.writer.value.phase.gone);
      }
    case SweepRead(t) => SweepLeaves(n, known, t, e);
    case _ =>
  }

  lemma WithdrawalsStay(n: Node, known: set<Event>, step: Step, m: Event, d: Event)
    requires GateInv(n, known) && Aims(n, known) && d in n.rows && TakesBack(d, m)
    ensures d in Next(n, step).rows
  {
    hide GateInv, Aims, Next;
    if d !in Next(n, step).rows {
      RowsLeave(n, known, step, d);
    }
  }

  // ---- one pair through the steps ---------------------------------------------------------------

  /** For `m` and what takes it back: both stored means still to be swept, or missed. */
  ghost predicate PairInv(n: Node, m: Event, d: Event, missed: bool) {
    && (m in n.rows && d in n.rows ==> missed || Pending(n, d, m))
    && (missed ==> d in n.rows && !Pending(n, d, m))
  }

  lemma {:induction false} StoreKeepsPair(n: Node, t: nat, m: Event, d: Event, missed: bool)
    requires PairInv(n, m, d, missed) && TakesBack(d, m)
    requires t in n.readers && n.readers[t].phase.Paced? && SharesLock(n.readers[t].event)
    ensures PairInv(StoreMessage(n, t), m, d, missed || StoresLate(n, StoreRead(t), m, d))
  {
    hide TakesBack, Insert;
    var e := n.readers[t].event;
    var after := StoreMessage(n, t);
    ChannelSlots(n.rows, e);
    StoredWhenNew(n.rows, e);
    assert m != d && (d.body.Deletion? || d.body.Removal?) by { TakenBackDiffers(m, d); }
    var grown := Insert(n.rows, e).outcome.New?;
    if e == d && grown {
      assert after.readers[t].event == d && WillSweep(after.readers[t], m);
      assert d !in n.rows;
    } else {
      PendingUnchanged(n, after, d, m);
    }
  }

  lemma TakenBackDiffers(m: Event, d: Event)
    ensures TakesBack(d, m) ==> m != d && Deletable(m) && (d.body.Deletion? || d.body.Removal?)
  {
  }

  lemma StoredWhenNew(rows: seq<Event>, e: Event)
    ensures SharesLock(e) && InChannel(e) ==> (Insert(rows, e).outcome.New? <==> !HasId(rows, e.id))
    ensures if Insert(rows, e).outcome.New? then !HasId(rows, e.id) && e !in rows else Insert(rows, e).rows == rows
  {
  }

  lemma PendingUnchanged(n: Node, after: Node, d: Event, m: Event)
    requires forall t :: t in n.readers && n.readers[t].event == d && WillSweep(n.readers[t], m) ==>
               t in after.readers && after.readers[t].event == d && WillSweep(after.readers[t], m)
    requires forall t :: t in after.readers && after.readers[t].event == d && WillSweep(after.readers[t], m) ==>
               t in n.readers && n.readers[t].event == d && WillSweep(n.readers[t], m)
    ensures Pending(after, d, m) == Pending(n, d, m)
  {
  }

  lemma {:induction false} SweepKeepsPair(n: Node, known: set<Event>, t: nat, m: Event, d: Event, missed: bool)
    requires GateInv(n, known) && Aims(n, known) && PairInv(n, m, d, missed) && TakesBack(d, m)
    requires t in n.readers && WillSweepOrDone(n.readers[t])
    ensures PairInv(Next(n, SweepRead(t)), m, d, missed)
  {
    var after := Next(n, SweepRead(t));
    if d in n.rows {
      WithdrawalsStay(n, known, SweepRead(t), m, d);
    }
    TakenBackDiffers(m, d);
    if m in after.rows {
      RowsFrom(n, SweepRead(t), m);
    }
    if d in after.rows {
      RowsFrom(n, SweepRead(t), d);
    }
    hide GateInv, Next;
    var r := n.readers[t];
    if r.event != d || (r.phase.Sweeping? && m.id !in r.phase.gone) {
      SweepsOnlyItself(n, t);
      PendingUnchanged(n, after, d, m);
    } else if m in n.rows {
      SweptGoes(n, t, m);
    } else {
      assert WillSweep(r, m);
    }
  }

  lemma SweepsOnlyItself(n: Node, t: nat)
    requires t in n.readers && WillSweepOrDone(n.readers[t])
    ensures
      var after := Next(n, SweepRead(t));
      && (forall u :: u != t ==> (u in n.readers <==> u in after.readers))
      && (forall u :: u != t && u in after.readers ==> after.readers[u] == n.readers[u])
      && (t in after.readers ==> after.readers[t].event == n.readers[t].event && n.readers[t].phase.Kept?)
  {
    hide JudgeEvent, Applies, SilencedAt, TooSoon, IsDeleted, RemovedByModerator, FoldEvents, Silenced, Insert, Drop, Withdrawn, RemovedBy, TakesPersonal;
  }

  /** A sweep that reaches `m` removes it, or has looked it up to be removed next. */
  lemma SweptGoes(n: Node, t: nat, m: Event)
    requires t in n.readers && WillSweep(n.readers[t], m) && m in n.rows && TakesBack(n.readers[t].event, m)
    ensures
      var after := Next(n, SweepRead(t));
      m in after.rows ==> t in after.readers && after.readers[t].event == n.readers[t].event && WillSweep(after.readers[t], m)
  {
    hide JudgeEvent, Applies, SilencedAt, TooSoon, IsDeleted, RemovedByModerator, FoldEvents, Silenced, Insert, TakesPersonal;
    var r := n.readers[t];
    if r.phase.Sweeping? {
      DropMembers(n.rows, r.phase.gone);
    } else if r.event.body.Deletion? {
      DropMembers(n.rows, Withdrawn(n.rows, r.event));
    }
  }

  lemma {:induction false} QuietStepKeepsPair(n: Node, known: set<Event>, step: Step, m: Event, d: Event, missed: bool)
    requires GateInv(n, known) && Aims(n, known) && PairInv(n, m, d, missed) && TakesBack(d, m)
    requires !step.StoreRead? && !step.SweepRead?
    ensures PairInv(Next(n, step), m, d, missed)
  {
    var after := Next(n, step);
    TakenBackDiffers(m, d);
    if d in n.rows {
      WithdrawalsStay(n, known, step, m, d);
    }
    if m in after.rows {
      RowsFrom(n, step, m);
    }
    if d in after.rows {
      RowsFrom(n, step, d);
    }
    QuietStepReaders(n, step);
    hide GateInv, TakesBack, Next;
    PendingUnchanged(n, after, d, m);
  }

  lemma QuietStepReaders(n: Node, step: Step)
    requires !step.StoreRead? && !step.SweepRead?
    ensures forall t :: t in n.readers && WillSweepOrDone(n.readers[t]) ==>
                          t in Next(n, step).readers && Next(n, step).readers[t] == n.readers[t]
    ensures forall t :: t in Next(n, step).readers && WillSweepOrDone(Next(n, step).readers[t]) ==>
                          t in n.readers && Next(n, step).readers[t] == n.readers[t]
  {
    hide JudgeEvent, Applies, SilencedAt, TooSoon, IsDeleted, RemovedByModerator, FoldEvents, Silenced, Insert, Drop, TakesPersonal;
  }

  lemma {:induction false} NextKeepsPair(n: Node, known: set<Event>, step: Step, m: Event, d: Event, missed: bool)
    requires GateInv(n, known) && Aims(n, known) && PairInv(n, m, d, missed) && TakesBack(d, m)
    ensures PairInv(Next(n, step), m, d, missed || StoresLate(n, step, m, d))
  {
    hide JudgeEvent, Applies, SilencedAt, FoldEvents, Insert, TakesBack, Sweep, StoreMessage, PairInv, Aims, Pending, TakesPersonal;
    match step
    case StoreRead(t) =>
      if t in n.readers && n.readers[t].phase.Paced? {
        StoreKeepsPair(n, t, m, d, missed);
      }
    case SweepRead(t) =>
      if t in n.readers && WillSweepOrDone(n.readers[t]) {
        SweepKeepsPair(n, known, t, m, d, missed);
      }
    case _ => QuietStepKeepsPair(n, known, step, m, d, missed);
  }

  lemma FreshPair(me: PublicKey, carried: set<PublicKey>, known: set<Event>, m: Event, d: Event)
    ensures PairInv(Fresh(me, carried), m, d, false) && Aims(Fresh(me, carried), known) && !Missed(Fresh(me, carried), [], m, d)
  {
  }

  lemma {:induction false} RunKeepsAims(me: PublicKey, carried: set<PublicKey>, steps: seq<Step>, known: set<Event>)
    requires Brings(steps, known)
    ensures Aims(Run(Fresh(me, carried), steps), known)
  {
    hide GateInv, Aims, Next;
    if steps == [] {
      FreshAims(me, carried, known);
    } else {
      var front := steps[..|steps| - 1];
      RunKeepsAims(me, carried, front, known);
      RunKeepsGateInv(me, carried, front, known);
      NextKeepsAims(Run(Fresh(me, carried), front), known, steps[|steps| - 1]);
    }
  }

  lemma FreshAims(me: PublicKey, carried: set<PublicKey>, known: set<Event>)
    ensures Aims(Fresh(me, carried), known)
  {
  }

  lemma {:induction false} RunKeepsPair(me: PublicKey, carried: set<PublicKey>, steps: seq<Step>, known: set<Event>, m: Event, d: Event)
    requires Brings(steps, known) && TakesBack(d, m)
    ensures PairInv(Run(Fresh(me, carried), steps), m, d, Missed(Fresh(me, carried), steps, m, d))
  {
    hide GateInv, Aims, Next, PairInv, Missed, StoresLate, TakesBack;
    if steps == [] {
      FreshPair(me, carried, known, m, d);
    } else {
      var front, step := steps[..|steps| - 1], steps[|steps| - 1];
      var n := Run(Fresh(me, carried), front);
      RunKeepsPair(me, carried, front, known, m, d);
      RunKeepsGateInv(me, carried, front, known);
      RunKeepsAims(me, carried, front, known);
      NextKeepsPair(n, known, step, m, d, Missed(Fresh(me, carried), front, m, d));
      MissedSnoc(Fresh(me, carried), front, step, m, d);
      assert steps == front + [step];
    }
  }

  // ---- never in progress at once -------------------------------------------------------------------

  ghost predicate Together(n: Node, a: Event, b: Event) {
    exists t, u :: t in n.readers && u in n.readers && n.readers[t].event == a && n.readers[u].event == b
  }

  /** At no point of the run are both in progress. */
  ghost predicate Apart(start: Node, steps: seq<Step>, a: Event, b: Event) {
    forall k :: 0 <= k <= |steps| ==> !Together(Run(start, steps[..k]), a, b)
  }

  lemma ApartFront(start: Node, steps: seq<Step>, a: Event, b: Event)
    requires steps != [] && Apart(start, steps, a, b)
    ensures Apart(start, steps[..|steps| - 1], a, b) && !Together(Run(start, steps[..|steps| - 1]), a, b)
  {
    hide Run, Together;
    var front := steps[..|steps| - 1];
    forall k | 0 <= k <= |front| ensures !Together(Run(start, front[..k]), a, b) {
      assert front[..k] == steps[..k];
    }
  }

  /** The check that would have seen a stored `d` is behind the reader. */
  predicate PastCheck(phase: ReadPhase, d: Event) {
    phase.NotRemoved? || phase.Paced? || (phase.NotWithdrawn? && d.body.Deletion?)
  }

  ghost predicate NotYetStored(n: Node, m: Event, d: Event) {
    forall t :: t in n.readers && n.readers[t].event == m && PastCheck(n.readers[t].phase, d) ==> d !in n.rows
  }

  lemma {:induction false} NextKeepsNotYet(n: Node, step: Step, m: Event, d: Event)
    requires LockKept(n) && NotYetStored(n, m, d) && !Together(n, m, d) && TakesBack(d, m)
    ensures NotYetStored(Next(n, step), m, d)
  {
    var after := Next(n, step);
    if d in after.rows && d !in n.rows {
      TakenBackDiffers(m, d);
      OnlyItsReaderStores(n, step, d);
    } else {
      ChecksLookFor(n, step, m, d);
    }
  }

  /** A withdrawal that appears among the rows was in progress, and no other reader moved. */
  lemma OnlyItsReaderStores(n: Node, step: Step, d: Event)
    requires LockKept(n) && Spoken(d) && d in Next(n, step).rows && d !in n.rows
    ensures step.StoreRead? && step.t in n.readers && n.readers[step.t] == Reader(d, Paced)
    ensures forall u :: u in Next(n, step).readers && u != step.t ==> u in n.readers && Next(n, step).readers[u] == n.readers[u]
    ensures step.t in Next(n, step).readers ==> Next(n, step).readers[step.t].event == d
  {
    hide JudgeEvent, Applies, Next, Insert;
    if !step.StoreRead? {
      RowsFrom(n, step, d);
    } else {
      StoreReadIs(n, step.t);
      if step.t in n.readers {
        ChannelSlots(n.rows, n.readers[step.t].event);
      }
    }
  }

  lemma StoreReadIs(n: Node, t: nat)
    ensures Next(n, StoreRead(t)) == if t in n.readers && n.readers[t].phase.Paced? then StoreMessage(n, t) else n
  {
    hide StoreMessage;
  }

  /** A reader past the check has looked for `d`, or was past it before. */
  lemma ChecksLookFor(n: Node, step: Step, m: Event, d: Event)
    requires NotYetStored(n, m, d) && TakesBack(d, m) && (d in Next(n, step).rows ==> d in n.rows)
    ensures NotYetStored(Next(n, step), m, d)
  {
    hide Next;
    var after := Next(n, step);
    forall t | t in after.readers && after.readers[t].event == m && PastCheck(after.readers[t].phase, d) ensures d !in after.rows {
      if !(t in n.readers && n.readers[t] == after.readers[t]) {
        MovedReader(n, step, t);
      }
    }
  }

  lemma {:induction false} ApartNeverMissed(me: PublicKey, carried: set<PublicKey>, steps: seq<Step>, known: set<Event>, m: Event, d: Event)
    requires Brings(steps, known) && TakesBack(d, m) && Apart(Fresh(me, carried), steps, m, d)
    ensures NotYetStored(Run(Fresh(me, carried), steps), m, d) && !Missed(Fresh(me, carried), steps, m, d)
  {
    hide GateInv, Next, Apart, Together, Missed, TakesBack;
    if steps == [] {
      FreshPair(me, carried, known, m, d);
    } else {
      var front, step := steps[..|steps| - 1], steps[|steps| - 1];
      var n := Run(Fresh(me, carried), front);
      ApartFront(Fresh(me, carried), steps, m, d);
      ApartNeverMissed(me, carried, front, known, m, d);
      RunKeepsGateInv(me, carried, front, known);
      LockIsKept(n, known);
      NextKeepsNotYet(n, step, m, d);
      MissedSnoc(Fresh(me, carried), front, step, m, d);
      assert steps == front + [step];
    }
  }

  lemma LockIsKept(n: Node, known: set<Event>)
    ensures GateInv(n, known) ==> LockKept(n) && StillWelcome(n)
  {
  }
}
