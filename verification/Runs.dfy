/**
  Runs of attempts. Every fold is one: the events it tried, in the order it tried them, so a
  property of every run of `Step` is a property of every fold.
 */
module Runs {
  import opened Prelude
  import opened Group
  import opened State
  import opened Fold
  import opened Refused

  /** The state after attempting `acts` one after the other. */
  ghost function RunSteps(s: GroupState, acts: seq<Event>): GroupState {
    if acts == [] then s
    else Step(RunSteps(s, acts[..|acts| - 1]), acts[|acts| - 1])
  }

  lemma RunStepsSnoc(s: GroupState, acts: seq<Event>, e: Event)
    ensures RunSteps(s, acts + [e]) == Step(RunSteps(s, acts), e)
  {
    assert (acts + [e])[..|acts|] == acts;
  }

  lemma {:induction false} RunStepsConcat(s: GroupState, a: seq<Event>, b: seq<Event>)
    ensures RunSteps(s, a + b) == RunSteps(RunSteps(s, a), b)
  {
    hide Step;
    if b == [] {
      assert a + b == a;
    } else {
      var last := |b| - 1;
      RunStepsConcat(s, a, b[..last]);
      assert a + b == a + b[..last] + [b[last]];
      RunStepsSnoc(s, a + b[..last], b[last]);
    }
  }

  lemma {:induction false} PassIsRun(s: GroupState, pending: seq<Event>)
    ensures Pass(s, pending).state == RunSteps(s, pending)
  {
    hide Step;
    if pending != [] {
      PassIsRun(s, pending[..|pending| - 1]);
    }
  }

  lemma {:induction false} SecondIsRun(s: GroupState, pending: seq<Event>) returns (acts: seq<Event>)
    ensures Second(s, pending).state == RunSteps(s, acts)
    ensures forall e :: e in acts ==> e in pending
    decreases |pending|
  {
    PassIsRun(s, pending);
    PassShrinks(s, pending);
    var p := Pass(s, pending);
    acts := pending;
    if |p.left| != |pending| && p.left != [] {
      var rest := SecondIsRun(p.state, p.left);
      RunStepsConcat(s, pending, rest);
      acts := pending + rest;
    }
  }

  /** The attempts behind a run over all seconds, in time order. */
  lemma {:induction false} RunAllIsRun(s: GroupState, live: seq<Event>) returns (acts: seq<Event>)
    requires InTime(live)
    ensures RunAll(s, live) == RunSteps(s, acts)
    ensures forall e :: e in acts ==> e in live
    ensures InTime(acts)
    decreases |live|
  {
    acts := [];
    if live != [] {
      var n := SecondLength(live);
      var head := SecondIsRun(s, live[..n]);
      var tail := RunAllIsRun(Second(s, live[..n]).state, live[n..]);
      RunStepsConcat(s, head, tail);
      acts := head + tail;
      forall i | 0 <= i < |head| ensures head[i].at == live[0].at {
        assert head[i] in live[..n];
      }
      forall i | 0 <= i < |tail| ensures tail[i] in live && tail[i].at >= live[0].at {
        assert tail[i] in live[n..];
      }
    }
  }

  /** The attempts behind a whole fold. */
  lemma {:induction false} FoldIsRun(group: PublicKey, events: seq<Event>) returns (acts: seq<Event>)
    requires PiecesOf(group, events).Some?
    ensures
      var p := PiecesOf(group, events).value;
      var start := Initial(group, p, Creators(group, events), InvitesOf(Sort(Actions(group, events))));
      FoldEvents(group, events) == Some(RunSteps(start, acts))
    ensures InTime(acts)
    ensures forall e :: e in acts ==> e in events && IsAction(group, e) && IsLive(CutoffOf(PiecesOf(group, events).value), e)
  {
    var p := PiecesOf(group, events).value;
    var actions := Sort(Actions(group, events));
    var start := Initial(group, p, Creators(group, events), InvitesOf(actions));
    SortedActions(group, events);
    LiveInTime(CutoffOf(p), actions);
    LiveMembers(CutoffOf(p), actions);
    acts := RunAllIsRun(start, Live(CutoffOf(p), actions));
  }
}
