/** What the node's one way in keeps, whatever arrives and however it interleaves. */
module Promises {
  import opened Group
  import opened EventLists
  import opened Fold
  import opened Judge
  import opened Store
  import opened Gate
  import opened Withdrawals
  import opened Pace
  import opened Arrivals

  /**
    Under every interleaving, whenever nobody holds the lock for writing, every carried group's
    state in memory is the fold of the stored rows, and no stored message or reaction is dated
    inside a current silence of its author.
   */
  lemma {:induction false} GateKeepsStateAndSilence(me: PublicKey, carried: set<PublicKey>, steps: seq<Step>, known: set<Event>, g: PublicKey)
    requires Brings(steps, known)
    requires Run(Fresh(me, carried), steps).writer.None? && g in Run(Fresh(me, carried), steps).groups
    ensures
      var n := Run(Fresh(me, carried), steps);
      && n.groups[g] == FoldEvents(g, n.rows)
      && (n.groups[g].Some? ==> Quiet(n.rows, g, n.groups[g].value))
  {
    hide FoldEvents, SilencedAt, Run;
    RunKeepsGateInv(me, carried, steps, known);
  }

  /** While a state change holds the lock, nothing is stored or removed but by it, or outside every group. */
  lemma {:induction false} WriterIsAlone(me: PublicKey, carried: set<PublicKey>, steps: seq<Step>, known: set<Event>, step: Step)
    requires Brings(steps, known) && Run(Fresh(me, carried), steps).writer.Some?
    ensures
      var n := Run(Fresh(me, carried), steps);
      Next(n, step).rows != n.rows ==> step.StoreWrite? || step.Purge? || (step.KeepPersonal? && step.e.group.None?)
  {
    hide Run, GateInv;
    RunKeepsGateInv(me, carried, steps, known);
    var n := Run(Fresh(me, carried), steps);
    LockIsKept(n, known);
    assert n.readers == map[];
    hide JudgeEvent, Applies, FoldEvents, Silenced, Insert, Drop, Sweep, StoreMessage, KeepPerson;
  }

  /**
    Under every interleaving, once no channel event is in progress, a stored message or reaction
    `m` stands beside a stored withdrawal or removal of it exactly when the run stored `m` with
    that withdrawal already stored and its sweep over, or past looking `m` up.
   */
  lemma {:induction false} BesideExactlyWhenMissed(me: PublicKey, carried: set<PublicKey>, steps: seq<Step>, known: set<Event>, m: Event, d: Event)
    requires Brings(steps, known) && Run(Fresh(me, carried), steps).readers == map[] && m in Run(Fresh(me, carried), steps).rows
    ensures d in Run(Fresh(me, carried), steps).rows && TakesBack(d, m) <==> Missed(Fresh(me, carried), steps, m, d)
  {
    hide Run, TakesBack, Missed;
    if TakesBack(d, m) {
      RunKeepsPair(me, carried, steps, known, m, d);
    } else {
      MissedTakesBack(Fresh(me, carried), steps, m, d);
    }
  }

  lemma MissedTakesBack(start: Node, steps: seq<Step>, m: Event, d: Event)
    ensures Missed(start, steps, m, d) ==> TakesBack(d, m)
  {
    hide Run, TakesBack, Pending;
  }

  /**
    A message stored beside what takes it back stays: it leaves only with another withdrawal of
    it, or when a silence it is dated in is purged.
   */
  lemma {:induction false} MissedStays(me: PublicKey, carried: set<PublicKey>, steps: seq<Step>, step: Step, known: set<Event>, m: Event, d: Event)
    requires Brings(steps + [step], known) && Missed(Fresh(me, carried), steps, m, d)
    requires m in Run(Fresh(me, carried), steps).rows && m !in Run(Fresh(me, carried), steps + [step]).rows
    ensures
      var n := Run(Fresh(me, carried), steps);
      || (step.SweepRead? && step.t in n.readers && n.readers[step.t].event != d && TakesBack(n.readers[step.t].event, m))
      || (step.Purge? && SilencedNow(n, m))
  {
    hide Run, Next, TakesBack, GateInv, Aims, Missed, SilencedNow;
    var n := Run(Fresh(me, carried), steps);
    FewerBrings(steps, step, known);
    RunSnoc(Fresh(me, carried), steps, step);
    RunKeepsGateInv(me, carried, steps, known);
    RunKeepsAims(me, carried, steps, known);
    MissedTakesBack(Fresh(me, carried), steps, m, d);
    TakenBackDiffers(m, d);
    RunKeepsPair(me, carried, steps, known, m, d);
    RowsLeave(n, known, step, m);
  }

  lemma FewerBrings(steps: seq<Step>, step: Step, known: set<Event>)
    requires Brings(steps + [step], known)
    ensures Brings(steps, known)
  {
    forall s | s in steps ensures EventIn(s, known) {
      assert s in steps + [step];
    }
  }

  /** A message and a withdrawal of it that were never in progress at once are never both stored at rest. */
  lemma {:induction false} ApartNeverBeside(me: PublicKey, carried: set<PublicKey>, steps: seq<Step>, known: set<Event>, m: Event, d: Event)
    requires Brings(steps, known) && Run(Fresh(me, carried), steps).readers == map[] && Apart(Fresh(me, carried), steps, m, d)
    requires m in Run(Fresh(me, carried), steps).rows && d in Run(Fresh(me, carried), steps).rows
    ensures !TakesBack(d, m)
  {
    hide Run, TakesBack, Apart, Missed;
    BesideExactlyWhenMissed(me, carried, steps, known, m, d);
    if TakesBack(d, m) {
      ApartNeverMissed(me, carried, steps, known, m, d);
    }
  }

  /**
    While a channel's slowmode is `wait`, two stored messages there by one author are less than
    `wait` apart exactly when the run stored one of them with the other already stored that near.
   */
  lemma {:induction false} CrowdedExactlyWhenTooSoon(me: PublicKey, carried: set<PublicKey>, steps: seq<Step>, known: set<Event>,
                                                     g: PublicKey, channel: string, wait: nat, a: Event, b: Event)
    requires Brings(steps, known) && SlowFixed(Fresh(me, carried), steps, g, channel, wait) && OneAuthors(a, b, g, channel)
    requires a in Run(Fresh(me, carried), steps).rows && b in Run(Fresh(me, carried), steps).rows
    ensures Near(a, b, wait) <==> CameTooSoon(Fresh(me, carried), steps, a, b) || CameTooSoon(Fresh(me, carried), steps, b, a)
  {
    hide Run, CameTooSoon, SlowThroughout, SlowFixed;
    FixedIsThroughout(Fresh(me, carried), steps, g, channel, wait);
    if CameTooSoon(Fresh(me, carried), steps, a, b) {
      TooSoonMeansNear(me, carried, steps, known, a, b, g, channel, wait);
    } else if CameTooSoon(Fresh(me, carried), steps, b, a) {
      TooSoonMeansNear(me, carried, steps, known, b, a, g, channel, wait);
    } else {
      NearMeansTooSoon(me, carried, steps, known, a, b, g, channel, wait);
    }
  }

  lemma FixedIsThroughout(start: Node, steps: seq<Step>, g: PublicKey, channel: string, wait: nat)
    requires SlowFixed(start, steps, g, channel, wait)
    ensures SlowThroughout(start, steps, g, channel, wait)
  {
    hide Run;
  }

  /** While it is `wait` or above, messages of one author never in progress at once keep that distance. */
  lemma {:induction false} ApartKeepsSlowmode(me: PublicKey, carried: set<PublicKey>, steps: seq<Step>, known: set<Event>,
                                              g: PublicKey, channel: string, wait: nat, a: Event, b: Event)
    requires Brings(steps, known) && SlowThroughout(Fresh(me, carried), steps, g, channel, wait) && OneAuthors(a, b, g, channel)
    requires Apart(Fresh(me, carried), steps, a, b)
    requires a in Run(Fresh(me, carried), steps).rows && b in Run(Fresh(me, carried), steps).rows
    ensures a.at + wait <= b.at || b.at + wait <= a.at
  {
    hide Run, CameTooSoon, SlowThroughout, Apart;
    ApartNeverTooSoon(me, carried, steps, known, a, b, g, channel);
    ApartEitherWay(Fresh(me, carried), steps, a, b);
    ApartNeverTooSoon(me, carried, steps, known, b, a, g, channel);
    NearMeansTooSoon(me, carried, steps, known, a, b, g, channel, wait);
  }

  // ---- one arrival at a time -------------------------------------------------------------

  predicate OneReader(steps: seq<Step>) {
    forall step :: step in steps && step.EnterRead? ==> step.t == 0
  }

  lemma {:induction false} ArrivalsUseOneReader(arrivals: seq<Arrival>)
    ensures OneReader(AllSteps(arrivals))
  {
    if arrivals != [] {
      ArrivalsUseOneReader(arrivals[..|arrivals| - 1]);
    }
  }

  lemma {:induction false} OneReaderAlone(me: PublicKey, carried: set<PublicKey>, steps: seq<Step>)
    requires OneReader(steps)
    ensures Run(Fresh(me, carried), steps).readers.Keys <= {0}
  {
    hide JudgeEvent, Applies, FoldEvents, Insert, Drop, TooSoon, IsDeleted, RemovedByModerator, Silenced, TakesPersonal;
    if steps != [] {
      OneReaderAlone(me, carried, steps[..|steps| - 1]);
    }
  }

  /** Taking each arrival to its end before the next, no two events are ever in progress at once. */
  lemma {:induction false} OneAtATimeIsApart(me: PublicKey, carried: set<PublicKey>, arrivals: seq<Arrival>, a: Event, b: Event)
    requires a != b
    ensures AtRest(Run(Fresh(me, carried), AllSteps(arrivals))) && Apart(Fresh(me, carried), AllSteps(arrivals), a, b)
  {
    hide Run, AcceptAll, AllSteps;
    ArrivalsAreAccepted(Fresh(me, carried), arrivals);
    ArrivalsUseOneReader(arrivals);
    var steps := AllSteps(arrivals);
    forall k | 0 <= k <= |steps| ensures !Together(Run(Fresh(me, carried), steps[..k]), a, b) {
      OneReaderAlone(me, carried, steps[..k]);
    }
  }

  /**
    Taking each arrival as one step, no reachable store holds a message or reaction beside its
    author's withdrawal or a moderator's removal of it, whichever came first.
   */
  lemma {:induction false} NothingOutlivesItsRemoval(me: PublicKey, carried: set<PublicKey>, arrivals: seq<Arrival>, known: set<Event>, m: Event, d: Event)
    requires Brings(AllSteps(arrivals), known)
    requires m in Run(Fresh(me, carried), AllSteps(arrivals)).rows && d in Run(Fresh(me, carried), AllSteps(arrivals)).rows
    ensures !TakesBack(d, m)
  {
    hide Run, TakesBack, Apart, AllSteps;
    TakenBackDiffers(m, d);
    if TakesBack(d, m) {
      OneAtATimeIsApart(me, carried, arrivals, m, d);
      ApartNeverBeside(me, carried, AllSteps(arrivals), known, m, d);
    }
  }

  /** And while a channel's slowmode stays at `wait` or above, one author's messages there keep that distance. */
  lemma {:induction false} SlowmodeHoldsOneAtATime(me: PublicKey, carried: set<PublicKey>, arrivals: seq<Arrival>, known: set<Event>,
                                                   g: PublicKey, channel: string, wait: nat, a: Event, b: Event)
    requires Brings(AllSteps(arrivals), known) && SlowThroughout(Fresh(me, carried), AllSteps(arrivals), g, channel, wait)
    requires a in Run(Fresh(me, carried), AllSteps(arrivals)).rows && b in Run(Fresh(me, carried), AllSteps(arrivals)).rows
    requires OneAuthors(a, b, g, channel)
    ensures a.at + wait <= b.at || b.at + wait <= a.at
  {
    hide Run, SlowThroughout, Apart, AllSteps;
    OneAtATimeIsApart(me, carried, arrivals, a, b);
    ApartKeepsSlowmode(me, carried, AllSteps(arrivals), known, g, channel, wait, a, b);
  }
}
