/**
  The one thing a refused action can change: a mute refused late has already cut the target's
  running mutes. When it does, and a group where it shows.
 */
module MuteCuts {
  import opened Prelude
  import opened Perm
  import opened Group
  import opened State
  import opened Fold
  import opened FoldStore
  import opened Refused
  import Compaction

  /** `e` is a mute by one who may mute its target, while a mute of theirs runs. */
  ghost predicate CutsAMute(s: GroupState, e: Event) {
    && IsMute(e) && MayMute(s.core, e.author, ActionOf(e).value.target).None?
    && exists span :: span in s.trace.silences && span.who == ActionOf(e).value.target && span.mute && span.Covers(e.at)
  }

  lemma {:induction false} CutsWhenCovered(silences: seq<Silence>, who: PublicKey, at: Timestamp)
    ensures CutMutes(silences, who, at) != silences <==>
            exists span :: span in silences && span.who == who && span.mute && span.Covers(at)
  {
    var cut := CutMutes(silences, who, at);
    if span :| span in silences && span.who == who && span.mute && span.Covers(at) {
      var i :| 0 <= i < |silences| && silences[i] == span;
      assert cut[i].until == Some(at) && silences[i].until != Some(at);
    } else {
      assert forall i :: 0 <= i < |silences| ==> silences[i] in silences && cut[i] == silences[i];
      assert cut == silences;
    }
  }

  /** A refused action changes the state exactly when it cuts a mute, and then only the silences. */
  lemma {:induction false} RefusedChangesExactly(s: GroupState, e: Event)
    requires Refuses(s, e)
    ensures Step(s, e) != s <==> CutsAMute(s, e)
    ensures Agree(Step(s, e), s, false)
  {
    hide MayMute;
    if IsMute(e) {
      CutsWhenCovered(s.trace.silences, ActionOf(e).value.target, e.at);
    }
    RefusedOnlyTouchesSilences(s, e);
  }

  lemma RefusedOnlyTouchesSilences(s: GroupState, e: Event)
    requires Refuses(s, e)
    ensures Step(s, e) == s.(trace := s.trace.(silences := Step(s, e).trace.silences))
    ensures !IsMute(e) ==> Step(s, e) == s
  {
  }

  // ---- a group where it shows ----------------------------------------------------------------

  const GROUP: PublicKey := 5
  const OWNER: PublicKey := 7
  const MUTED: PublicKey := 9
  const METADATA := Event(1, GROUP, 10, Some(GROUP), None, StateBody(1, Metadata("Group", false, 0, "", [], [])))
  const ADMINS := Event(2, GROUP, 10, Some(GROUP), None, StateBody(1, Admins(Some(OWNER), map[])))
  const MEMBERS := Event(3, GROUP, 10, Some(GROUP), None, StateBody(1, Members({OWNER, MUTED}, {}, map[MUTED := 100])))
  const ROLES := Event(4, GROUP, 10, Some(GROUP), None, StateBody(1, Roles([])))
  const CREATED := Event(5, OWNER, 10, Some(GROUP), None, CreateGroup)
  const ROWS := [METADATA, ADMINS, MEMBERS, ROLES, CREATED]

  /** Dated 20, until 5: refused as malformed. */
  const LATE := Event(6, OWNER, 20, Some(GROUP), None, ActionBody(MuteUser, Some(Mute(MUTED, Some(5)))))

  const RUNNING := Silence(MUTED, 10, Some(100), true)
  const CUT := Silence(MUTED, 10, Some(20), true)

  ghost function Start(): GroupState {
    Initial(GROUP, Pieces(METADATA, ADMINS, MEMBERS, ROLES), {OWNER}, map[])
  }

  lemma {:induction false} StartIs()
    ensures
      var s := Start();
      && s.core.owner == Some(OWNER) && OWNER in s.core.members && MUTED in s.core.members
      && s.trace.silences == [RUNNING] && s.trace.applied == {}
  {
    hide RoleTable, Ascending;
    var mutes: map<PublicKey, Timestamp> := map[MUTED := 100];
    OneKey(mutes.Keys);
    OneSilence(mutes);
  }

  lemma OneKey(s: set<PublicKey>)
    requires s == {MUTED}
    ensures Ascending(s) == [MUTED]
  {
    var keys := Ascending(s);
    assert MUTED in keys;
    forall i | 0 <= i < |keys| ensures keys[i] == MUTED {
      assert keys[i] in keys;
    }
  }

  lemma OneSilence(mutes: map<PublicKey, Timestamp>)
    requires mutes == map[MUTED := 100]
    ensures InitialSilences([MUTED], mutes, 10) == [RUNNING]
  {
    assert InitialSilences([], mutes, 10) == [];
  }

  lemma LateIsRefused()
    ensures Refuses(Start(), LATE) && Step(Start(), LATE).trace.silences == [CUT]
  {
    hide Initial;
    StartIs();
    hide Start;
    OwnerMayMute(Start().core);
    hide MayMute;
  }

  lemma OwnerMayMute(c: Core)
    requires c.owner == Some(OWNER) && OWNER in c.members && MUTED in c.members
    ensures MayMute(c, OWNER, MUTED).None?
  {
    AllContains();
  }

  lemma AllContains()
    ensures Contains(ALL, MUTE_MEMBERS)
  {
  }

  lemma SnapshotIs(rows: seq<Event>)
    requires rows == ROWS || rows == ROWS + [LATE]
    ensures PiecesOf(GROUP, rows) == Some(Pieces(METADATA, ADMINS, MEMBERS, ROLES))
  {
    hide Newest;
    NewestIs(GROUP, MetadataKind, rows, METADATA);
    NewestIs(GROUP, AdminsKind, rows, ADMINS);
    NewestIs(GROUP, MembersKind, rows, MEMBERS);
    NewestIs(GROUP, RolesKind, rows, ROLES);
  }

  lemma {:induction false} FoldIs(rows: seq<Event>)
    requires rows == ROWS || rows == ROWS + [LATE]
    ensures FoldEvents(GROUP, rows) == Some(RunAll(Start(), Live(10, Sort(Actions(GROUP, rows)))))
  {
    hide RunAll, Newest, Sort, Live, Initial, PiecesOf;
    SnapshotIs(rows);
    assert Creators(GROUP, rows) == {OWNER} by {
      assert CREATED in rows;
    }
    OneOrNone(rows);
  }

  lemma OneOrNone(rows: seq<Event>)
    requires rows == ROWS || rows == ROWS + [LATE]
    ensures Sort(Actions(GROUP, rows)) == if rows == ROWS then [] else [LATE]
    ensures InvitesOf(Sort(Actions(GROUP, rows))) == map[]
  {
    Compaction.NoActions(GROUP, ROWS);
    assert |ROWS| == 5;
    assert (ROWS + [LATE])[..5] == ROWS && (ROWS + [LATE])[5] == LATE;
    assert Sort([]) == [] && Sort([LATE]) == InsertSorted([], LATE);
  }

  lemma RunsOver(s: GroupState, e: Event)
    ensures RunAll(s, []) == s && (Refuses(s, e) ==> RunAll(s, [e]) == Step(s, e))
  {
    hide Step, Refuses;
    assert [e][..1] == [e] && [e][1..] == [] && [e][..0] == [];
    assert Pass(s, [e]) == Progress(Step(s, e), if Refuses(s, e) then [] + [e] else []);
    assert RunAll(s, [e]) == RunAll(Second(s, [e][..1]).state, [e][1..]);
  }

  /** The peer that holds the refused mute ends the silence at 20; the one that does not, at 100. */
  lemma {:induction false} RefusedMuteShows()
    ensures
      var without, held := FoldEvents(GROUP, ROWS), FoldEvents(GROUP, ROWS + [LATE]);
      && without.Some? && held.Some? && LATE.id !in held.value.trace.applied
      && without.value.trace.silences == [RUNNING] && held.value.trace.silences == [CUT]
      && RUNNING.Covers(50) && !CUT.Covers(50)
  {
    hide FoldEvents, Start, Step, Refuses;
    FoldIs(ROWS);
    FoldIs(ROWS + [LATE]);
    OneOrNone(ROWS);
    OneOrNone(ROWS + [LATE]);
    assert ROWS + [LATE] != ROWS;
    assert Live(10, []) == [] && Live(10, [LATE]) == [LATE];
    StartIs();
    LateIsRefused();
    StepApplies(Start(), LATE);
    RunsOver(Start(), LATE);
  }
}
