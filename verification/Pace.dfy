/**
  Slowmode under the shared lock: for two messages of one author in one channel, the step that
  stores them too near each other, and when no step does.
 */
module Pace {
  import opened Prelude
  import opened Group
  import opened EventLists
  import opened State
  import opened Fold
  import opened Judge
  import opened Store
  import opened Gate
  import opened Withdrawals

  predicate Posted(e: Event, g: PublicKey, channel: string) {
    e.body.Chat? && e.group == Some(g) && e.channel == Some(channel)
  }

  predicate OneAuthors(a: Event, b: Event, g: PublicKey, channel: string) {
    a.id != b.id && Posted(a, g, channel) && Posted(b, g, channel) && a.author == b.author
  }

  ghost predicate SlowAt(n: Node, g: PublicKey, channel: string, wait: nat) {
    g in n.groups && n.groups[g].Some? ==> SlowmodeOf(n.groups[g].value.core.channels, channel) >= wait
  }

  /** At every point of the run the channel's slowmode is at least `wait`. */
  ghost predicate SlowThroughout(start: Node, steps: seq<Step>, g: PublicKey, channel: string, wait: nat) {
    forall k :: 0 <= k <= |steps| ==> SlowAt(Run(start, steps[..k]), g, channel, wait)
  }

  ghost predicate SlowIs(n: Node, g: PublicKey, channel: string, wait: nat) {
    g in n.groups && n.groups[g].Some? ==> SlowmodeOf(n.groups[g].value.core.channels, channel) == wait
  }

  /** At every point of the run the channel's slowmode is `wait`. */
  ghost predicate SlowFixed(start: Node, steps: seq<Step>, g: PublicKey, channel: string, wait: nat) {
    forall k :: 0 <= k <= |steps| ==> SlowIs(Run(start, steps[..k]), g, channel, wait)
  }

  /** The step stores `a` with `b` among the rows less than the slowmode away. */
  ghost predicate StoresTooSoon(n: Node, step: Step, a: Event, b: Event) {
    && step.StoreRead? && step.t in n.readers && n.readers[step.t] == Reader(a, Paced) && !HasId(n.rows, a.id)
    && b in n.rows && Near(a, b, SlowmodeFor(n.groups, a))
  }

  ghost predicate CameTooSoon(start: Node, steps: seq<Step>, a: Event, b: Event) {
    exists k :: 0 <= k < |steps| && StoresTooSoon(Run(start, steps[..k]), steps[k], a, b)
  }

  lemma TooSoonSnoc(start: Node, steps: seq<Step>, step: Step, a: Event, b: Event)
    ensures CameTooSoon(start, steps + [step], a, b) <==>
            CameTooSoon(start, steps, a, b) || StoresTooSoon(Run(start, steps), step, a, b)
  {
    hide StoresTooSoon, Run;
    var all := steps + [step];
    assert all[..|steps|] == steps && all[|steps|] == step;
    assert forall k :: 0 <= k < |steps| ==> all[..k] == steps[..k] && all[k] == steps[k];
    if CameTooSoon(start, steps, a, b) {
      var k :| 0 <= k < |steps| && StoresTooSoon(Run(start, steps[..k]), steps[k], a, b);
      assert StoresTooSoon(Run(start, all[..k]), all[k], a, b);
    }
    if StoresTooSoon(Run(start, steps), step, a, b) {
      assert StoresTooSoon(Run(start, all[..|steps|]), all[|steps|], a, b);
    }
  }

  lemma SlowFront(start: Node, steps: seq<Step>, g: PublicKey, channel: string, wait: nat)
    requires steps != [] && SlowThroughout(start, steps, g, channel, wait)
    ensures SlowThroughout(start, steps[..|steps| - 1], g, channel, wait) && SlowAt(Run(start, steps[..|steps| - 1]), g, channel, wait)
  {
    hide Run, SlowAt;
    var front := steps[..|steps| - 1];
    forall k | 0 <= k <= |front| ensures SlowAt(Run(start, front[..k]), g, channel, wait) {
      assert front[..k] == steps[..k];
    }
  }

  // ---- near each other only when one came too soon ------------------------------------------------

  predicate Spaced(n: Node, a: Event, b: Event, wait: nat) {
    a in n.rows && b in n.rows ==> !Near(a, b, wait)
  }

  lemma {:induction false} StoreKeepsSpaced(n: Node, t: nat, a: Event, b: Event, g: PublicKey, channel: string, wait: nat)
    requires OneAuthors(a, b, g, channel) && SlowAt(n, g, channel, wait) && StillWelcome(n)
    requires t in n.readers && n.readers[t].phase.Paced? && SharesLock(n.readers[t].event)
    requires Spaced(n, a, b, wait) && !StoresTooSoon(n, StoreRead(t), a, b) && !StoresTooSoon(n, StoreRead(t), b, a)
    ensures Spaced(StoreMessage(n, t), a, b, wait)
  {
    hide Insert, SilencedAt;
    var e := n.readers[t].event;
    ChannelSlots(n.rows, e);
    StoredWhenNew(n.rows, e);
    assert n.readers[t] == Reader(e, Paced);
  }

  lemma {:induction false} NextKeepsSpaced(n: Node, known: set<Event>, step: Step, a: Event, b: Event, g: PublicKey, channel: string, wait: nat)
    requires GateInv(n, known) && OneAuthors(a, b, g, channel) && SlowAt(n, g, channel, wait)
    requires Spaced(n, a, b, wait) && !StoresTooSoon(n, step, a, b) && !StoresTooSoon(n, step, b, a)
    ensures Spaced(Next(n, step), a, b, wait)
  {
    hide JudgeEvent, Applies, SilencedAt, FoldEvents, Insert, SlowAt, StoresTooSoon, Near, StoreMessage, TakesPersonal;
    if step.StoreRead? {
      if step.t in n.readers && n.readers[step.t].phase.Paced? {
        StoreKeepsSpaced(n, step.t, a, b, g, channel, wait);
      }
    } else {
      hide Next, GateInv;
      LockIsKept(n, known);
      if a in Next(n, step).rows {
        RowsFrom(n, step, a);
      }
      if b in Next(n, step).rows {
        RowsFrom(n, step, b);
      }
    }
  }

  lemma {:induction false} NearMeansTooSoon(me: PublicKey, carried: set<PublicKey>, steps: seq<Step>, known: set<Event>,
                                            a: Event, b: Event, g: PublicKey, channel: string, wait: nat)
    requires Brings(steps, known) && OneAuthors(a, b, g, channel) && SlowThroughout(Fresh(me, carried), steps, g, channel, wait)
    requires !CameTooSoon(Fresh(me, carried), steps, a, b) && !CameTooSoon(Fresh(me, carried), steps, b, a)
    ensures Spaced(Run(Fresh(me, carried), steps), a, b, wait)
  {
    hide GateInv, Next, SlowAt, SlowThroughout, CameTooSoon, StoresTooSoon, OneAuthors, Near;
    if steps != [] {
      var front, step := steps[..|steps| - 1], steps[|steps| - 1];
      assert steps == front + [step];
      TooSoonSnoc(Fresh(me, carried), front, step, a, b);
      TooSoonSnoc(Fresh(me, carried), front, step, b, a);
      SlowFront(Fresh(me, carried), steps, g, channel, wait);
      NearMeansTooSoon(me, carried, front, known, a, b, g, channel, wait);
      RunKeepsGateInv(me, carried, front, known);
      NextKeepsSpaced(Run(Fresh(me, carried), front), known, step, a, b, g, channel, wait);
    }
  }

  /** Where the slowmode was `wait`, too soon means nearer than `wait`. */
  lemma {:induction false} TooSoonMeansNear(me: PublicKey, carried: set<PublicKey>, steps: seq<Step>, known: set<Event>,
                                            a: Event, b: Event, g: PublicKey, channel: string, wait: nat)
    requires Brings(steps, known) && Posted(a, g, channel) && SlowFixed(Fresh(me, carried), steps, g, channel, wait)
    requires CameTooSoon(Fresh(me, carried), steps, a, b)
    ensures Near(a, b, wait)
  {
    var k :| 0 <= k < |steps| && StoresTooSoon(Run(Fresh(me, carried), steps[..k]), steps[k], a, b);
    var n := Run(Fresh(me, carried), steps[..k]);
    RunKeepsGateInv(me, carried, steps[..k], known);
    LockIsKept(n, known);
    hide GateInv, Run, Next, SilencedAt;
    assert SlowIs(n, g, channel, wait);
  }

  // ---- never in progress at once ---------------------------------------------------------------------

  /** A reader of `a` past the pace check has no `b` to fear among the rows. */
  ghost predicate LookedRound(n: Node, a: Event, b: Event) {
    forall t :: t in n.readers && n.readers[t].event == a && n.readers[t].phase.Paced? && b in n.rows ==>
      !Near(a, b, SlowmodeFor(n.groups, a))
  }

  lemma {:induction false} NextKeepsLooked(n: Node, step: Step, a: Event, b: Event, g: PublicKey, channel: string)
    requires LockKept(n) && OneAuthors(a, b, g, channel) && LookedRound(n, a, b) && !Together(n, a, b)
    ensures LookedRound(Next(n, step), a, b)
  {
    if b in Next(n, step).rows && b !in n.rows {
      OnlyItsReaderStores(n, step, b);
    } else {
      PaceLooksFor(n, step, a, b, g, channel);
    }
  }

  lemma PaceLooksFor(n: Node, step: Step, a: Event, b: Event, g: PublicKey, channel: string)
    requires LockKept(n) && OneAuthors(a, b, g, channel) && LookedRound(n, a, b) && (b in Next(n, step).rows ==> b in n.rows)
    ensures LookedRound(Next(n, step), a, b)
  {
    hide Near, SlowmodeFor;
    NearEitherWay(a, b);
    GroupsStay(n, step);
    hide Next;
    var after := Next(n, step);
    forall t | t in after.readers && after.readers[t].event == a && after.readers[t].phase.Paced? && b in after.rows
      ensures !Near(a, b, SlowmodeFor(after.groups, a))
    {
      if !(t in n.readers && n.readers[t] == after.readers[t]) {
        MovedReader(n, step, t);
      }
    }
  }

  /** While there are readers no group changes. */
  lemma GroupsStay(n: Node, step: Step)
    requires LockKept(n)
    ensures n.readers != map[] ==> Next(n, step).groups == n.groups
    ensures n.readers == map[] ==> forall t :: t in Next(n, step).readers ==> Next(n, step).readers[t].phase.Entered?
  {
    hide JudgeEvent, Applies, TooSoon, IsDeleted, RemovedByModerator, FoldEvents, Silenced, Insert, Drop, Withdrawn, RemovedBy, TakesPersonal;
  }

  lemma NearEitherWay(a: Event, b: Event)
    ensures forall wait: nat :: Near(a, b, wait) == Near(b, a, wait)
  {
  }

  lemma {:induction false} ApartNeverTooSoon(me: PublicKey, carried: set<PublicKey>, steps: seq<Step>, known: set<Event>,
                                             a: Event, b: Event, g: PublicKey, channel: string)
    requires Brings(steps, known) && OneAuthors(a, b, g, channel) && Apart(Fresh(me, carried), steps, a, b)
    ensures LookedRound(Run(Fresh(me, carried), steps), a, b) && !CameTooSoon(Fresh(me, carried), steps, a, b)
  {
    hide GateInv, Next, Apart, Together, CameTooSoon, OneAuthors;
    if steps == [] {
      FreshLooked(me, carried, a, b);
    } else {
      var front, step := steps[..|steps| - 1], steps[|steps| - 1];
      var n := Run(Fresh(me, carried), front);
      ApartFront(Fresh(me, carried), steps, a, b);
      ApartNeverTooSoon(me, carried, front, known, a, b, g, channel);
      RunKeepsGateInv(me, carried, front, known);
      LockIsKept(n, known);
      NextKeepsLooked(n, step, a, b, g, channel);
      TooSoonSnoc(Fresh(me, carried), front, step, a, b);
      assert steps == front + [step];
    }
  }

  lemma FreshLooked(me: PublicKey, carried: set<PublicKey>, a: Event, b: Event)
    ensures LookedRound(Fresh(me, carried), a, b) && !CameTooSoon(Fresh(me, carried), [], a, b)
  {
  }

  lemma ApartEitherWay(start: Node, steps: seq<Step>, a: Event, b: Event)
    requires Apart(start, steps, a, b)
    ensures Apart(start, steps, b, a)
  {
    hide Run;
  }
}
