# HIT_ENTER, verified

A Dafny model of the parts of HIT_ENTER in which peers must agree without a server: the group
fold and the authority inside it, the node's one gate and its lock, the store and the binding
book, the tag rows everything travels in, the Bech32 and BOLT 11 codecs, framing, the sync
loop, and the picture cache.

`dafny verify dfyconfig.toml` checks all of it.

## What is modelled

**The group fold.** Every peer folds an unordered bag of signed events into a group's state:
the newest of four snapshot pieces, then the actions of each second in id order, pass after
pass, each applied only if the state so far allows it. `State` holds the step function on
values: `Core` is what a verdict reads and changes, `Trace` what it never reads (silences, join
times, applied ids). `GroupFold.GroupObject` is the object with the source's fields, whose
methods loop and update in place; each is tied to the function it computes, up to `FoldGroup`,
which is the fold. The theorems are about the functions:

- `Beginnings`: where a fold starts, person by person and role by role, which actions it runs
  over, and in which order. `Powers`: what anybody may do, group-wide and in a channel, bit by
  bit. `Rights`, `Edits`: exactly when one action applies and exactly what it changes, from the
  bits, roles and positions of the state before it; so strangers change nothing in a closed
  group, and only its owner opens it.
- `FoldOrder`, `FoldStore`: the state is a function of the *set* of events, and of what a
  last-writer-wins store keeps of them.
- `Refused`: actions that were not applied might as well not exist, silences apart. `MuteCuts`
  says when a refused action changes a silence after all: exactly when it is a mute refused
  only after its author was found fit to mute, while a mute of its target runs. It ends with
  two peers, one holding such a mute, whose silences differ.
- `Batch`: a node asks of each action alone whether its fold would apply it. Actions refused
  one by one are refused all together, so two stores that refuse everything more the other
  holds fold to the same group, silences apart.
- `Authority`, `ChannelAuthority`: no coalition without the owner raises anybody above what
  they and it held at the start, and nobody ranked as high as the whole coalition is touched by
  it. Inside a channel that ceiling fails: handing out a role does not look at the overrides
  the role has there. `PutEscalatesInChannel` is such a hand-out; `PutKeepsChannelExactly` says
  for which hand-outs the ceiling holds, as a condition on the overrides before it; and over
  whole runs the ceiling holds once it also covers what the channel allows the roles below
  the coalition's top rank, whatever it allows the others.
- `Invariants`: the owner's place, bans and members apart, defined roles only, spans in order,
  and a removal span covering exactly those who are out.
- `Compaction`, `Forgetting`: a snapshot of a state, signed one higher and dated after
  everything, is invisible to every later action; what it makes the gate refuse as folded was
  of no use any more; and a newcomer given the snapshot, the group's creations, the invites
  still open and what came later computes the same core as those who hold it all.

**The gate.** `Gate` is `accept_event` as a state machine whose steps interleave freely: readers
share the lock across judging, checking and storing a message; a writer holds it alone across
judging, storing, refolding and purging. `Acceptance.NodeObject` is the object itself, and does
in place what those steps come to one arrival at a time (`Arrivals`). With no writer inside, the
state in memory is the fold of what is stored and nobody's stored words are dated inside their
silence, after every interleaving. `Passing` says, for every node at rest, every event and every
moment, exactly when what was not there is there after it arrives, and exactly which arrivals take
a stored message or reaction away.

What the checks of a message promise is another matter: the shared lock lets them be overtaken.
`Race` builds, from any node at rest that would take both events, the interleaving that leaves a
message stored beside its author's deletion, beside a moderator's removal, or nearer another of
its author than slowmode allows, with a concrete node for each. `Withdrawals`, `Pace` and
`Promises` say what does hold, both ways. At rest a stored message stands beside a withdrawal of
it exactly when some step of the run stored the message with that withdrawal already stored and
no longer due to sweep it (`Missed`); from then on it leaves only with another withdrawal of it or
when a silence is purged. Two messages are nearer than a fixed slowmode exactly when some step
stored one of them with the other there that near (`CameTooSoon`). Neither ever happens to two
events that were never in progress at once (`Apart`), and so never one arrival at a time.

`Convergence` puts gate and fold together: two nodes at rest, each of which refuses whatever
action the other holds and it does not, agree on the group, silences apart.

**The store and the binding book.** Both keep the `replaces`-maximum per slot, so they never
disagree; `Slots` says what competes for a slot and what wins it, kind by kind. By the tags alone,
a signed revocation of a device is always taken in and outlives every binding dated before it; a presented binding authenticates exactly when it verifies for the connection and the
newest the book then has for that person and device is live, and that one is later than every
revocation.

**Rows.** `Rows` and `ActionRows` write and read the tags of group state and of actions. A
snapshot comes back whole in whatever order its maps are walked, except that a member holding a
role named `owner` is read as the owner; no state the fold reaches has one. `Samples` spells every
row out as other programs write it.

**Codecs.** `Checksum` proves the Bech32 checksum linear over GF(2) and thirty bits wide, hence
that replacing up to six consecutive data characters by others, none of them the separator, never
passes; `Bursts` that with a separator among them it may, with a pair of valid strings for which
it does; `Bech32` that decoding inverts encoding and accepts nothing else; `Alphabet` reads the
standard's own example of every character; `Regroup` that bytes
and five-bit words convert back and forth within a u32; `Bolt11` that an invoice survives exactly
when its fields are in range, and that nothing out of range is ever decoded; `Invoices` what any
text anybody wrote says, whatever signs it. For an ASCII prefix
`scripts/gui/nsec.py` is proved to write the same strings.

**Framing, sync, pictures.** `Frames` reads any split of any byte stream; `Closed` means every
byte was a whole frame. `Sync` counts every fetched event once; `Fetching` runs it against the
gate above, where a refusal is proved to change nothing: what a sync leaves is what the node as
it then is refuses, and the sync is a run of arrivals. `Pictures` evicts no more than the cap asks.

Times and ids are natural numbers below the width the code gives them; a signature, the hash of
an event and the hexadecimal spelling of an id inside a message are opaque.

## Model

| member | source | states |
|---|---|---|
| FoldOrder.FoldIgnoresOrder | crates/hit-group/src/state.rs:139-298 | Two peers holding the same events in any order, ids distinct, fold them to the same state, every field included |
| FoldOrder.NewestIgnoresOrder | crates/hit-group/src/state.rs:143-160 | The piece kept of each kind does not depend on the order pieces arrive in |
| FoldOrder.SortIgnoresOrder | crates/hit-group/src/state.rs:271-271 | Sorting actions by time and id gives one list for every order they come in |
| FoldStore.DropIdle | crates/hit-event/src/replace.rs:28-67 | Removing superseded pieces, and whatever the fold does not read, never changes a fold |
| FoldStore.StoreFoldsLikeItsArrivals | crates/hit-store/src/lib.rs:71-159 | What a store keeps of its arrivals folds to the state all the arrivals fold to |
| Runs.FoldIsRun | crates/hit-group/src/state.rs:283-317 | Every fold is a run of single live actions in time order from its snapshot, so what every step keeps every fold keeps |
| Beginnings.FoldsExactly | crates/hit-group/src/state.rs:143-187 | There is a state exactly when there is a piece of each of the four kinds, signed by the group |
| Beginnings.PeopleExactly | crates/hit-group/src/state.rs:206-254 | Who is owner, who is in and with which roles, who is banned and muted, at the snapshot: exactly, person by person |
| Beginnings.RolesExactly | crates/hit-group/src/state.rs:222-243 | Which roles are defined at the snapshot, with which bits; the last of an id counts, none is called `owner`, the default one always is |
| Beginnings.RestExactly | crates/hit-group/src/state.rs:185-205 | The other fields are the pieces'; the cutoff is the latest of their dates, the counter the highest of theirs |
| Beginnings.SilencedAtFirst | crates/hit-group/src/state.rs:256-269 | A snapshot's mute silences from the cutoff to its end, and nothing else silences yet |
| Beginnings.OwnerExactly | crates/hit-group/src/state.rs:250-254 | After any fold the owner is whom the winning admins' piece names, exactly when they signed a creation of the group |
| Beginnings.InvitesExactly | crates/hit-group/src/state.rs:272-282 | The invites a fold knows are the group's well-formed ones, each with its author, date and end |
| Beginnings.FoldRunsInOrder | crates/hit-group/src/state.rs:271-296 | A fold runs over exactly the group's actions but invites that are dated no earlier than any piece, by time and then id |
| Beginnings.TriedInOrder | crates/hit-group/src/state.rs:302-317 | An action that the state reached by the ones before it in its second accepts is applied, whatever comes after |
| Refused.SecondSettles | crates/hit-group/src/state.rs:302-317 | The passes over one second end, and whatever is left is refused by the state they end in |
| Refused.SecondAccounts | crates/hit-group/src/state.rs:302-317 | Each action of a second is either left over or recorded as applied, never both, never lost |
| Refused.RefusedActionsAreIrrelevant | crates/hit-group/src/state.rs:271-317 | Deleting actions the fold did not apply changes no field but the silences, and those only if a mute was among them |
| Refused.PeersAgreeDespiteRefused | crates/hit-group/src/state.rs:139-317 | Peers whose stores differ only in actions each fold refused compute the same group, silences apart |
| MuteCuts.RefusedChangesExactly | crates/hit-group/src/state.rs:414-445 | A refused action changes the state exactly when it is a mute by one who may mute its target while a mute of theirs covers its time, and then the silences alone |
| MuteCuts.RefusedMuteShows | crates/hit-group/src/state.rs:427-444 | A group in which holding one refused mute ends a silence at 20 instead of 100 |
| Batch.RefusedAloneRefusedTogether | crates/hit-node/src/lib.rs:2153-2161 | If none of a set of non-invite actions is applied when folded without the others, none is when all are there |
| Batch.RefusedEachIsIrrelevant | crates/hit-node/src/lib.rs:2153-2161 | Actions a store refuses one at a time change nothing of its fold, silences apart, when all are added |
| Batch.RefusingStoresAgree | crates/hit-node/src/lib.rs:2153-2161 | Stores that differ only in such actions, each refusing every one the other has more, fold to the same group, silences apart |
| Convergence.RefusedMeansNotApplied | crates/hit-node/src/lib.rs:2138-2161 | An action not from the future that the gate refuses, as folded or as not applied, is one the fold of everything held would not apply |
| Convergence.RefusingNodesAgree | crates/hit-node/src/lib.rs:2119-2256 | Two nodes at rest that hold the same pieces, creations and invites, each refusing every action the other holds more, have the same group in memory, silences apart |
| Authority.PermsOverIsJoin | crates/hit-group/src/state.rs:787-810 | The permissions of a role set are the least that contain every role's |
| Powers.BaseExactly | crates/hit-group/src/state.rs:787-810 | Bit by bit: the owner may everything, a stranger nothing, a member what some defined role of theirs or the default one grants |
| Powers.EffectiveExactly | crates/hit-group/src/state.rs:811-834 | Bit by bit: in a channel an applying override grants one of four permissions, or takes it where none grants it; every other bit is the group-wide one |
| Powers.RankExactly | crates/hit-group/src/state.rs:836-846 | A rank reaches a position exactly when a defined role held does |
| Powers.GrantsEach | crates/hit-group/src/state.rs:875-878 | What may be granted is roles none of which has a bit that is undefined or that the grantor lacks |
| Rights.AppliesExactly | crates/hit-group/src/state.rs:320-503 | Every action but an edit applies exactly when its author may do it to its target, in terms of bits, roles and positions |
| Rights.MembersExactly | crates/hit-group/src/state.rs:320-503 | Who is in after an action, and with which roles: exactly who was and was not taken out, or was let in |
| Rights.BansAndMutesExactly | crates/hit-group/src/state.rs:369-445 | Who is banned and who muted until when, after an action |
| Rights.JoinedExactly | crates/hit-group/src/state.rs:475-487 | Who counts as having let themselves in, and when |
| Rights.SilencesExactly | crates/hit-group/src/state.rs:504-522 | When anybody is silenced after an action, by removals and by mutes, moment by moment |
| Rights.JoinExactly | crates/hit-group/src/state.rs:458-487 | Somebody neither in nor banned is in after a join exactly when the group is public and no code is given, or an invite of that code runs whose author may invite |
| Rights.StrangersChangeNothing | crates/hit-group/src/state.rs:320-503 | In a private group with no invite that counts, no run of events of people not in it changes anything |
| Edits.EditExactly | crates/hit-group/src/state.rs:526-669 | One edit is taken exactly when it was permitted before the batch and its channel is there |
| Edits.BatchExactly | crates/hit-group/src/state.rs:446-457 | A batch is taken exactly when each edit was permitted in the state before it all and finds its channel after the ones before it |
| Edits.EditsApplyExactly | crates/hit-group/src/state.rs:446-457 | An edit action applies exactly when its author is in and the batch is taken; otherwise nothing changes |
| Edits.EditLeaves | crates/hit-group/src/state.rs:526-669 | What each edit changes, where, and what it leaves |
| Edits.OwnerAloneOpens | crates/hit-group/src/state.rs:541-548 | Over any run without the owner the group stays as public as it was |
| Authority.JudgeKeepsCap | crates/hit-group/src/state.rs:320-503 | One action by a coalition keeps every role and member under the ceiling it started with |
| Authority.NoCoalitionEscalates | crates/hit-group/src/state.rs:320-669 | Over any run authored by a coalition without the owner, everybody stays within what they held joined with the default role's and the coalition's permissions |
| Authority.JudgeKeepsHierarchy | crates/hit-group/src/state.rs:320-503 | One action by a coalition keeps its ranks and every role and person at or above its top |
| Authority.SuperiorsAreSafe | crates/hit-group/src/state.rs:836-880 | Over any such run nobody in the coalition exceeds its top rank, and whoever started at it or above stays in, keeps their roles from there up, and is not muted or banned |
| ChannelAuthority.PutEscalatesInChannel | crates/hit-group/src/state.rs:324-368 | Nobody may manage messages anywhere; one allowed hand-out of a role without group-wide bits later, somebody may in a channel |
| ChannelAuthority.PutKeepsChannelExactly | crates/hit-group/src/state.rs:324-368 | After an allowed hand-out by a coalition its target is within the ceiling in a channel exactly when what the overrides there allow the roles given is |
| ChannelAuthority.EffectiveWithin | crates/hit-group/src/state.rs:811-835 | Somebody within a bound group-wide is within it in a channel exactly when what the overrides there allow their roles is |
| ChannelAuthority.NoCoalitionEscalatesInChannel | crates/hit-group/src/state.rs:811-835 | Over any such run nobody exceeds, in a channel, their own start there and group-wide joined with a ceiling that covers the default role, the coalition, and what the channel allows roles below its top rank |
| ChannelAuthority.FoldRespectsAuthority | crates/hit-group/src/state.rs:139-298 | A fold whose live actions are all a coalition's obeys the group-wide and rank bounds against its snapshot, whatever the overrides |
| ChannelAuthority.FoldRespectsChannel | crates/hit-group/src/state.rs:139-298 | And the channel's bound |
| Invariants.StepKeepsInv | crates/hit-group/src/state.rs:320-522 | Any action, applied or refused, keeps the owner's place, defined roles, bans apart from members, and well-ordered spans |
| Invariants.FoldKeepsInv | crates/hit-group/src/state.rs:139-522 | Every fold of a snapshot with bans apart from members satisfies the invariant and has the snapshot's owner |
| Invariants.RunKeepsInv | crates/hit-group/src/state.rs:302-522 | So does every run of actions in time order |
| Invariants.OwnerIsFixed | crates/hit-group/src/state.rs:320-522 | No action changes the owner |
| Invariants.RemovedExactlyWhenSilenced | crates/hit-group/src/state.rs:369-407 | Someone who was a member is one after a run exactly when no removal span of theirs covers the present |
| Compaction.CompactionIsTransparent | crates/hit-node/src/lib.rs:1904-1925 | With or without a compaction's four events, every later list of actions folds to the same name, settings, channels, overrides, roles, members, bans, mutes and owner |
| Compaction.CoreSurvives | crates/hit-group/src/state.rs:1123-1138 | The state a snapshot starts is the state it was taken of |
| Compaction.SnapshotWins | crates/hit-event/src/replace.rs:49-67 | The four signed pieces beat every piece before them |
| Forgetting.FoldedIsSpent | crates/hit-group/src/state.rs:1051-1059 | What the gate refuses as folded is an action before the cutoff or an invite that ran out before it |
| Forgetting.SpentActionsAreForgotten | crates/hit-group/src/state.rs:271-296 | Deleting any of those changes no field of the fold but the list of invites |
| Forgetting.NewcomersAgree | crates/hit-node/src/lib.rs:1904-1925 | After a compaction, a store without any of what came before but the creations and the invites still open folds, with any later actions, to the core of one that never compacted |
| GroupFold.FoldGroup | crates/hit-group/src/state.rs:139-298 | The loops that build and update the object compute the fold; no object exactly when a piece is missing |
| GroupFold.ScanEvents | crates/hit-group/src/state.rs:143-160 | One scan finds the kept pieces, the creators and the actions |
| GroupFold.Started | crates/hit-group/src/state.rs:162-282 | A new object made of the pieces, the creators and the invites is the fold's starting state |
| GroupFold.GroupObject.TakeSnapshot | crates/hit-group/src/state.rs:183-269 | The four pieces and the creators give the starting state, mutes silencing from the cutoff |
| GroupFold.GroupObject.TakeInvites | crates/hit-group/src/state.rs:272-282 | Every invite is recorded under its code, in order |
| GroupFold.GroupObject.ApplyAll | crates/hit-group/src/state.rs:283-296 | The live actions are applied second by second |
| GroupFold.GroupObject.ApplySecond | crates/hit-group/src/state.rs:302-317 | The retain loop computes the settled second |
| GroupFold.GroupObject.Attempt | crates/hit-group/src/state.rs:305-312 | One action applies and is recorded, or stays pending |
| GroupFold.GroupObject.Apply | crates/hit-group/src/state.rs:320-503 | An action's whole effect on the object is the step function's; a refusal changes nothing but the silences a mute cut |
| GroupFold.GroupObject.ApplyPut | crates/hit-group/src/state.rs:324-368 | Who may add a person or set their roles, with which refusal, and what of the group, the spans and nothing else changes; only where somebody holds an undefined role may one of two refusals stand for the other |
| GroupFold.GroupObject.ApplyRemove | crates/hit-group/src/state.rs:369-406 | Who may remove or ban, and that the target is out and silenced |
| GroupFold.GroupObject.ApplyUnban | crates/hit-group/src/state.rs:407-413 | Who may lift a ban, which adds nobody |
| GroupFold.GroupObject.ApplyMute | crates/hit-group/src/state.rs:414-445 | Who may mute, and that covering mute spans are cut even when the mute is then refused |
| GroupFold.GroupObject.ApplyJoin | crates/hit-group/src/state.rs:458-487 | Who may join, by invite or into a public group, and that their removals end |
| GroupFold.GroupObject.ApplyLeave | crates/hit-group/src/state.rs:488-500 | Anyone but the owner may leave, and is silenced from then |
| GroupFold.GroupObject.EditBatch | crates/hit-group/src/state.rs:446-457 | A batch of edits is judged against the state before it and takes effect whole or not at all |
| GroupFold.GroupObject.Edit | crates/hit-group/src/state.rs:526-669 | One edit's verdict reads the state before the batch and writes the one after |
| GroupFold.GroupObject.EditARole | crates/hit-group/src/state.rs:617-651 | A role is defined or changed only below one's rank and within one's permissions |
| GroupFold.GroupObject.EditAnOverride | crates/hit-group/src/state.rs:586-616 | An override grants only what its author holds, and an empty one is removed |
| GroupFold.GroupObject.DeleteRole | crates/hit-group/src/state.rs:652-668 | A deleted role leaves every member and override |
| GroupFold.GroupObject.KeepChannel | crates/hit-group/src/state.rs:566-577 | A channel replaces the one with its id in place, or is appended |
| GroupFold.GroupObject.EndRemovals | crates/hit-group/src/state.rs:516-522 | Coming back ends every open removal span at that time, and touches nothing else |
| GroupFold.GroupObject.EndMutes | crates/hit-group/src/state.rs:428-432 | A mute cuts the target's covering mute spans, and touches nothing else |
| GroupFold.GroupObject.EffectiveFor | crates/hit-group/src/state.rs:811-835 | The loop over overrides computes a person's permissions in a channel |
| GroupFold.GroupObject.RankFor | crates/hit-group/src/state.rs:836-851 | The loop over held roles finds the highest position |
| Replace.ReplacesIsStrictTotalOrder | crates/hit-event/src/replace.rs:49-67 | Within one kind `replaces` is irreflexive, transitive, and decides any two events |
| Store.EventTable.Put | crates/hit-store/src/lib.rs:71-159 | An insert keeps a new event, drops the one it replaces in its slot, and reports duplicates and stale ones |
| Store.EventTable.Withdraw | crates/hit-store/src/lib.rs:367-391 | A deletion removes its author's named messages and reactions and nothing else |
| Store.StoreHoldsTheNewest | crates/hit-store/src/lib.rs:71-159 | After any arrivals the store holds exactly the unslotted events and each slot's `replaces`-maximum |
| Store.StoresAgree | crates/hit-store/src/lib.rs:71-159 | Stores fed the same events in any order and multiplicity hold the same events |
| Slots.WinsExactly | crates/hit-event/src/replace.rs:49-67 | Pieces of state go by counter, then date, then lower id; everything else by date, a revocation winning a tie, then lower id |
| Slots.StoredIsWinner | crates/hit-store/src/lib.rs:71-159 | After any arrivals the store holds exactly those that are kept at all and win against every other of their author's they compete with |
| Bindings.BindingBook.Insert | crates/hit-event/src/binding.rs:184-200 | A valid binding or revocation is kept if it beats its person's last word on that device |
| Bindings.CheckExactly | crates/hit-event/src/binding.rs:275-330 | A signed binding is taken in exactly when its tags say device and either revoked, or proof and an end to come within thirty days of its date |
| Bindings.InsertExactly | crates/hit-event/src/binding.rs:184-200 | An insert changes the entry of its person and device alone, and only if it outdates it; a badly tagged one changes nothing |
| Bindings.RevocationsHold | crates/hit-event/src/binding.rs:202-218 | After a signed revocation was inserted at any time, whoever authenticates with that device does so on a binding dated strictly later |
| Bindings.AuthenticatedByTags | crates/hit-event/src/binding.rs:202-218 | Who is authenticated, in terms of the tags of the event presented and of the newest booked |
| Bindings.BindingBook.Authenticate | crates/hit-event/src/binding.rs:202-218 | The presented event is taken in, then the newest one decides |
| Bindings.AuthenticationOutlivesRevocations | crates/hit-event/src/binding.rs:202-218 | Over every run, `Ok` means the newest word is an unexpired, proven binding later than every revocation ever inserted |
| Bindings.AuthenticatedExactly | crates/hit-event/src/binding.rs:202-218 | After any run, a presented event authenticates a person exactly when it verifies as theirs for the connection and the newest word then booked is live |
| Bindings.LiveBindingAuthenticates | crates/hit-event/src/binding.rs:202-218 | So a live binding that beats everything inserted does |
| Bindings.BookAgreesWithStore | crates/hit-event/src/binding.rs:184-200 | Fed the same bindings, the book's entry for a person and device is the event the store holds |
| Gate.NextKeepsInv | crates/hit-node/src/lib.rs:2119-2256 | Every step of every reader or writer keeps the lock's discipline, the folded states, and silence |
| Promises.GateKeepsStateAndSilence | crates/hit-node/src/lib.rs:217-226 | After any interleaving, with no writer inside, a group's state is the fold of what is stored and no stored message or reaction is dated inside its author's silence |
| Gate.PurgeKeepsInv | crates/hit-node/src/lib.rs:2409-2428 | Purging after a refold restores silence without changing any fold |
| Promises.WriterIsAlone | crates/hit-node/src/lib.rs:217-226 | While a state change holds the lock, rows change only by it, or outside every group |
| Passing.StoredExactly | crates/hit-node/src/lib.rs:2119-2256 | An event not there is there after it arrives exactly when its author may leave it there: membership, bits, silences, waits, withdrawals and slowmode for words; each other kind by its own rule |
| Passing.AnsweredExactly | crates/hit-node/src/lib.rs:2250-2285 | The gate answers that it is new exactly then |
| Passing.OnlyTheArrivalComes | crates/hit-node/src/lib.rs:2119-2256 | Nothing comes in but what arrived |
| Passing.TakenAwayExactly | crates/hit-node/src/lib.rs:2163-2195 | A stored message or reaction is gone after an arrival exactly when that is its author's deletion naming it, a removal there naming it by somebody with MANAGE_MESSAGES there, or a change after which its author is silenced at its date |
| Passing.PresenceExactly | crates/hit-group/src/lib.rs:350-359 | A presence is never kept, and passed on exactly when it is a member's and at most two minutes old |
| Arrivals.ArrivalIsAccept | crates/hit-node/src/lib.rs:2119-2256 | With nobody else inside, the interleavable steps of one arrival come to one plain function of the node and the event |
| Arrivals.ArrivalsAreAccepted | crates/hit-node/src/lib.rs:2119-2256 | So do those of any list of arrivals |
| Acceptance.NodeObject.AcceptToChannel | crates/hit-node/src/lib.rs:2137-2195 | The object, updated in place, judges, checks, stores and sweeps a channel event as those steps do |
| Acceptance.NodeObject.AcceptToGroup | crates/hit-node/src/lib.rs:2131-2250 | It judges a state change, folding an action with everything held, then stores, refolds and purges as those steps do |
| Acceptance.NodeObject.MayKeepPersonal | crates/hit-group/src/lib.rs:246-259 | The walk over the carried groups finds whether its author is the node's own person, shares a group with them, or for a profile is in a public group |
| Acceptance.NodeObject.AcceptPersonal | crates/hit-node/src/lib.rs:2138-2181 | A binding or profile is judged, a binding checked and booked, then stored, with the answer and the new node of the gate's function |
| Acceptance.NodeObject.AcceptEvent | crates/hit-node/src/lib.rs:2119-2256 | Whichever way an event takes, the object ends as the gate's function says and gives its answer |
| Acceptance.NodeObject.JudgeNow | crates/hit-group/src/lib.rs:313-374 | The object's answer to a group's event is the judgement of the groups as they are |
| Acceptance.NodeObject.PassesChecks | crates/hit-node/src/lib.rs:2163-2180 | The three checks of a message, in turn, decide what they decide together |
| Acceptance.NodeObject.PurgeSilenced | crates/hit-node/src/lib.rs:2409-2428 | The loop over silences removes exactly the messages and reactions inside one of their author's |
| Acceptance.MayWrite | crates/hit-group/src/state.rs:888-918 | Who may post: a channel that exists, the permissions there, no silence, no wait |
| Promises.BesideExactlyWhenMissed | crates/hit-node/src/lib.rs:2163-2195 | After any interleaving that is over, a stored message stands beside a stored deletion or removal of it exactly when a step stored it with that one already stored and its sweep over or past it |
| Promises.MissedStays | crates/hit-node/src/lib.rs:2357-2371 | From then on the message leaves only when another deletion or removal of it sweeps, or a silence it is dated in is purged |
| Promises.ApartNeverBeside | crates/hit-node/src/lib.rs:2163-2195 | A message and a withdrawal of it that were never in progress at once are never both stored at rest |
| Promises.CrowdedExactlyWhenTooSoon | crates/hit-node/src/lib.rs:2378-2404 | Under a fixed slowmode two messages of one author in a channel are nearer than it exactly when a step stored one with the other there that near |
| Promises.ApartKeepsSlowmode | crates/hit-node/src/lib.rs:2378-2404 | Under a slowmode of at least some length, two that were never in progress at once are that far apart |
| Promises.OneAtATimeIsApart | crates/hit-node/src/lib.rs:2119-2256 | Taking each arrival to its end before the next, no two events are ever in progress at once |
| Promises.NothingOutlivesItsRemoval | crates/hit-node/src/lib.rs:2344-2371 | So no stored message or reaction has a stored deletion or removal naming it, whichever came first |
| Promises.SlowmodeHoldsOneAtATime | crates/hit-node/src/lib.rs:2378-2404 | And slowmode holds without exception |
| Race.WithdrawalCanBeMissed | crates/hit-node/src/lib.rs:2132-2195 | From every node at rest that would take a message and a deletion or removal of it, an interleaving of two readers leaves both stored |
| Race.PaceCanBeMissed | crates/hit-node/src/lib.rs:2132-2182 | From every node at rest that would take either of two messages nearer than slowmode, the same interleaving leaves both stored |
| Race.ConcreteMiss | crates/hit-node/src/lib.rs:2132-2190 | A node, a message and a deletion for which it happens |
| Race.ConcreteRemovalMiss | crates/hit-node/src/lib.rs:2190-2195 | A moderator's removal for which it does |
| Race.ConcreteCrowd | crates/hit-node/src/lib.rs:2178-2182 | Two messages two seconds apart under a slowmode of thirty |
| Rows.ParseStateEvent | crates/hit-event/src/group.rs:445-545 | The loops over rows compute the parse; the first unreadable row refuses the event |
| Samples.StateRead | crates/hit-event/src/group.rs:445-470 | A state event is read for the group its `d` names, if that signed it, with its `seq`, as the piece its kind says |
| Samples.MetadataRowsRead | crates/hit-event/src/group.rs:471-500 | Each row of metadata, spelled out, and what it sets |
| Samples.PublicExactly | crates/hit-event/src/group.rs:471-500 | A group is public exactly when some row says so and none says private |
| Samples.AdminsRowsRead | crates/hit-event/src/group.rs:486-502 | An admin's row names the owner or assigns roles |
| Samples.MembersRowsRead | crates/hit-event/src/group.rs:503-527 | Rows of members, bans and mutes, spelled out |
| Samples.RolesRowsRead | crates/hit-event/src/group.rs:528-543 | A role's row, spelled out |
| Rows.SignSnapshot | crates/hit-event/src/group.rs:338-415 | The loops push the four events' rows |
| Rows.SnapshotRoundTrip | crates/hit-event/src/group.rs:338-545 | The four events parse to the snapshot's pieces, and those to the snapshot; the admins' exactly when nobody holds a role named `owner` |
| Rows.ReachedStateRoundTrip | crates/hit-group/src/state.rs:1123-1138 | The snapshot of any state the fold reaches comes back whole |
| Rows.ChannelRoundTrip | crates/hit-event/src/group.rs:696-723 | A channel's row reads as the channel |
| ActionRows.EditRoundTrip | crates/hit-event/src/group.rs:610-680 | Every edit's row reads as the edit |
| ActionRows.ReadEditLoop | crates/hit-event/src/group.rs:768-778 | The loop collects the edits in order and refuses the event at a malformed one |
| Samples.EditRowsRead | crates/hit-event/src/group.rs:610-680 | The rows of the edits without numbers, spelled out, and rows that are none or malformed |
| Samples.NumberedRowsRead | crates/hit-event/src/group.rs:610-680 | The rows of the edits with numbers |
| Samples.PutRead | crates/hit-event/src/group.rs:728-740 | A put's rows, spelled out |
| Samples.RemovedRead | crates/hit-event/src/group.rs:741-755 | A kick's, a ban's and an unban's |
| Samples.MutedRead | crates/hit-event/src/group.rs:756-765 | A mute's, lifted at 0 |
| Samples.DoorsRead | crates/hit-event/src/group.rs:776-792 | An invite's, a join's and a leave's |
| ActionRows.ActionRoundTrip | crates/hit-event/src/group.rs:725-794 | An action reads as it was written exactly when it is no empty batch of edits and no mute until second 0 |
| Hex.HexRoundTrip | crates/hit-event/src/group.rs:338-345 | A key reads as it was written |
| Digits.UnsignedRoundTrip | crates/hit-event/src/group.rs:170-172 | A printed number parses exactly when the type can hold it |
| Digits.SignedRoundTrip | crates/hit-event/src/group.rs:528-533 | So does a signed one |
| Regroup.ToBytes | crates/hit-event/src/zap.rs:392-405 | The accumulator loop yields the words' bits eight at a time; the u32 never overflows |
| Regroup.ToWords | crates/hit-event/src/zap.rs:407-423 | The nested loops yield the bytes' bits five at a time, padded; the u32 never overflows |
| Regroup.BytesOfWords | crates/hit-event/src/zap.rs:392-423 | `to_bytes` inverts `to_words` on every byte string |
| Regroup.PythonWords | scripts/gui/nsec.py:19-29 | The accumulator that keeps every bit yields the same words |
| Checksum.Polymod | crates/hit-event/src/zap.rs:443-455 | The loops over values and generators fold the shift register |
| Checksum.PolymodIsLinear | crates/hit-event/src/zap.rs:443-455 | The checksum of a sum of value strings is the sum of their checksums |
| Checksum.BurstChangesChecksum | crates/hit-event/src/zap.rs:443-455 | Strings that differ only within six consecutive values never have the same checksum, at any length |
| Checksum.ChecksumCloses | crates/hit-event/src/zap.rs:481-493 | The six values written bring any string's checksum to 1 |
| Checksum.PythonPolymod | scripts/gui/nsec.py:7-16 | On integers that never wrap the loop computes the same number |
| Bech32.EncodeText | crates/hit-event/src/zap.rs:481-493 | The pushing loop writes prefix, separator, words and checksum |
| Bech32.BechRoundTrip | crates/hit-event/src/zap.rs:465-493 | Decoding gives back prefix and words exactly when the prefix is non-empty and printable, whatever it contains |
| Bech32.DecodeIsCanonical | crates/hit-event/src/zap.rs:465-479 | A string that decodes is the one encoding writes |
| Bech32.TakenExactly | crates/hit-event/src/zap.rs:465-479 | What is encoded can be read exactly when its prefix is non-empty and graphic ASCII |
| Alphabet.AlphabetReads | crates/hit-event/src/zap.rs:438-441 | The standard's example with every character in order reads as the numbers 0 to 31, and they are written as it |
| Bech32.BurstIsRejected | crates/hit-event/src/zap.rs:465-479 | Replacing up to six consecutive data characters of a valid string by others, none of them the separator, makes it invalid |
| Bursts.SeparatorIsMissed | crates/hit-event/src/zap.rs:465-479 | A valid string in which replacing one data character by the separator gives another valid string |
| Bursts.LateSeparatorIsRejected | crates/hit-event/src/zap.rs:465-479 | A replacement whose last separator leaves fewer than six characters behind it is always caught |
| Bech32.PythonEncode | scripts/gui/nsec.py:19-31 | The script's encoder writes, for an ASCII prefix, what `to_words` and `encode` write |
| Amounts.AmountRoundTrip | crates/hit-event/src/zap.rs:362-390 | An amount reads back exactly when it is positive and is a multiple of 100 or has ten times itself in a u64 |
| Amounts.ParsedIsNameable | crates/hit-event/src/zap.rs:362-381 | Nothing else is ever read |
| Bolt11.DecodeText | crates/hit-event/src/zap.rs:273-322 | The early returns and the loop over tagged fields compute the decoding |
| Invoices.ReadsWhateverTheSignature | crates/hit-event/src/zap.rs:273-322 | Prefix, currency, amount, seven words of time, any tagged fields and any 104 words of signature read as what the fields tell, the last of a type counting |
| Invoices.OnlySuchPartsRead | crates/hit-event/src/zap.rs:289-320 | Nothing else reads |
| Invoices.AnySignatureReads | crates/hit-event/src/zap.rs:288-322 | Every invoice in range is read from its own words under any signature |
| Invoices.AmountMeans | crates/hit-event/src/zap.rs:362-381 | An amount is its number of bitcoins of 10^11 millisats, or of thousandths, millionths, billionths or trillionths, and reads exactly when that is a whole number of millisats in 64 bits |
| Invoices.SpacedReads | crates/hit-event/src/zap.rs:274-274 | White space around an invoice or an LNURL does not matter |
| Texts.Utf8Exactly | crates/hit-event/src/zap.rs:316-316 | The text a description may be is exactly the UTF-8 of scalar values |
| Bolt11.EncodeUnsignedText | crates/hit-event/src/zap.rs:326-359 | The pushes and the expiry loop compute the encoding, or the panic on a field too long |
| Bolt11.DecodedIsInRange | crates/hit-event/src/zap.rs:273-322 | Whatever string is decoded, the invoice is in range |
| Bolt11.InvoiceRoundTrip | crates/hit-event/src/zap.rs:273-359 | An invoice survives writing and reading exactly when it is in range: timestamp below 2^35, description of at most 639 bytes, lower-case digit-free currency, nameable amount |
| Bolt11.OtherSpellings | crates/hit-event/src/zap.rs:273-276 | The upper-case form and the `lightning:` form read the same |
| Bolt11.LnurlRoundTrip | crates/hit-event/src/zap.rs:427-435 | Every URL is inside its LNURL |
| Frames.Fill | crates/hit-proto/src/io.rs:15-25 | Reading into a buffer, in whatever parts, fills it or stops at the end of the stream |
| Frames.ReadFrame | crates/hit-proto/src/io.rs:29-49 | One frame's body, or the error its header or the end of the stream calls for, and what is left behind it |
| Frames.FrameExactly | crates/hit-proto/src/frame.rs:42-67 | A frame is its body behind four bytes of its length, lowest first; it exists exactly for 1 to 1048576 bytes |
| Frames.HeaderMeans | crates/hit-proto/src/frame.rs:54-67 | What a header announces, or which error it is |
| Frames.FramesReadBack | crates/hit-proto/src/frame.rs:42-67 | Frames written are frames read, then `Closed` |
| Frames.CutInsideAFrame | crates/hit-proto/src/io.rs:29-49 | A stream cut inside a frame yields the earlier bodies, then `Truncated` with how far it got |
| Frames.ClosedMeansWhole | crates/hit-proto/src/io.rs:29-49 | On any bytes what is read is a prefix of the stream, and `Closed` means it was all of it |
| Sync.Apply | crates/hit-node/src/sync.rs:292-321 | The loops compute the passes, their counters and what is left, and end |
| Sync.EveryEventIsCountedOnce | crates/hit-node/src/sync.rs:292-321 | The fetched events are, as a bag, the ones counted fetched, duplicate and refused |
| Sync.LeftoversAreRefusedByTheEnd | crates/hit-node/src/sync.rs:302-321 | With any gate a refusal leaves as it was, everything left is refused by the node as it is at the end |
| Fetching.GateIsIdle | crates/hit-node/src/lib.rs:2119-2256 | The node's gate is one: an event it refuses changes nothing |
| Fetching.FetchLeavesOnlyRefused | crates/hit-node/src/sync.rs:292-321 | So what a sync through it leaves, the node as it then is refuses |
| Fetching.SyncIsARun | crates/hit-node/src/sync.rs:292-321 | And a sync from rest ends where a run of the gate's steps bringing only what was fetched ends |
| Fetching.CountedByAnswer | crates/hit-node/src/sync.rs:292-321 | Counted as fetched means new at its turn or refused then and taken later; as a duplicate, had already; as refused, refused by the node at the end |
| Fetching.KnownExactly | crates/hit-node/src/lib.rs:2119-2256 | The gate answers that it has an event exactly when it lets it in and its id is stored, or a row it does not replace; then nothing is stored or folded |
| Pictures.PictureCache.Insert | crates/hit-desktop/src/pictures.rs:101-120 | The oldest hidden pictures go, from the front, until the first moment the count is within the cap; the rest keep their order |
| Pictures.OneOutcome | crates/hit-desktop/src/pictures.rs:101-120 | Where eviction stops is determined, so an insert has one outcome |
| Pictures.PictureCache.Ask | crates/hit-desktop/src/pictures.rs:86-99 | After asking, a picture of any size is wanted unless it is shown |
| Pictures.PictureCache.SetNote | crates/hit-desktop/src/pictures.rs:82-99 | A picture with a note is not wanted |
| Pictures.RunsStayExact | crates/hit-desktop/src/pictures.rs:101-120 | Over any run of inserts of keys not shown the count is the size shown, the line is each shown key once, and either the cap holds or everything left is visible |

## Left out

- GroupFold.GroupObject.ApplyPut: in a state where someone holds an undefined role, which no fold reaches, whether `UnknownRole` or `Outranked` is reported depends on an iteration order and is not fixed.
- Gate.NextKeepsInv: one step runs between any two points where another task may, with the mutexes around the group map and the binding book taken as atomic; the interleaving is proved on values, the object on one arrival at a time.
- Promises.GateKeepsStateAndSilence: only arrivals through `accept_event` are steps; another process writing the same database is not.
- Bech32.PythonEncode: the prefix is bytes, as an ASCII one is; the script would walk the code points of any other. Python's unbounded integers in the checksum are 64-bit words here; no bit is ever lost from them.
- Bolt11.InvoiceRoundTrip: white space trimmed around an invoice is ASCII's, and `msat * 10` wraps as in a build without overflow checks.
- Fetching.FetchLeavesOnlyRefused: the clock stands still during the sync; the reconciliation before it is a library's.
- Rows.SnapshotRoundTrip: the walk order of a sorted map is any order here; signing is not modelled.
- Acceptance.NodeObject.AcceptPersonal: judging, booking and storing a binding are one step; inbox lists, which are judged alike, are not among the kinds modelled.
- Acceptance.NodeObject.JudgeNow: that an event is refused, not with which words; voice presence and zap carriers, which no group state depends on, are refused.
- Gift wraps and direct messages, zap carriers, voice presence, subscribers and gossip: they take the same gate but no group state depends on them.
- `may_read`, `gossip_group`, `apply_order`, `devices_of`, `persons_of`, `cap_wraps`, `blobs_to_keep`: answers read off maps the model has, or running totals.
- Signatures, encryption, hashing, key storage: opaque.
- SQL: the store is a list of events.
- `drift.rs` and `browse.rs`: floating point.
- The window, audio, wallets, HTTP and onboarding: I/O and foreign calls.
- Permission names, links, profile cleaning and MIME guessing: thin layers over libraries.
