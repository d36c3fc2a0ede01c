/**
  Where an event lives, and which event replaces which there
  (crates/hit-event/src/replace.rs).
 */
module Replace {
  import opened Prelude
  import opened Group

  /** The `d` tag of an addressable event. */
  datatype Identifier = GroupName(group: PublicKey) | DeviceText(text: string)

  datatype Slot = Regular | Replaceable | Addressable(d: Identifier) | Ephemeral

  function KindNumber(b: Body): nat {
    match b
    case StateBody(_, piece) =>
      (match piece
       case Metadata(_, _, _, _, _, _) => 39000
       case Admins(_, _) => 39001
       case Members(_, _, _) => 39002
       case Roles(_) => 39003)
    case MalformedState => 39000
    case CreateGroup => 9007
    case ActionBody(kind, _) =>
      (match kind
       case PutUser => 9000
       case RemoveUser => 9001
       case EditMetadata => 9002
       case MuteUser => 9030
       case CreateInvite => 9009
       case JoinGroup => 9021
       case LeaveGroup => 9022)
    case Chat(_) => 9
    case Reaction(_, _) => 7
    case Deletion(_) => 5
    case Removal(_) => 9005
    case Binding(_) => 30436
    case Profile => 0
    case Presence => 20436
    case OtherBody(number) => number
  }

  function IdentifierOf(e: Event): Identifier {
    if e.body.Binding? then DeviceText(if e.body.tags.device.Some? then e.body.tags.device.value else "")
    else if e.group.Some? then GroupName(e.group.value)
    else DeviceText("")
  }

  function SlotOf(e: Event): Slot {
    var k := KindNumber(e.body);
    if k == 0 || k == 3 || 10000 <= k < 20000 then Replaceable
    else if 20000 <= k < 30000 then Ephemeral
    else if 30000 <= k < 40000 then Addressable(IdentifierOf(e))
    else Regular
  }

  /** Both live in the same replaceable or addressable slot. */
  predicate SameSlot(a: Event, b: Event) {
    && KindNumber(a.body) == KindNumber(b.body) && a.author == b.author
    && SlotOf(a) == SlotOf(b) && (SlotOf(a).Replaceable? || SlotOf(a).Addressable?)
  }

  function SeqNoOf(e: Event): Option<nat> {
    if e.body.StateBody? then Some(e.body.seqNo) else None
  }

  predicate IsRevocation(e: Event) { e.body.Binding? && e.body.tags.revoked }

  /** `Option<u64>`'s order: no `seq` loses to any. */
  predicate SeqAbove(n: Option<nat>, c: Option<nat>) {
    n.Some? && (c.None? || n.value > c.value)
  }

  predicate IsStateKind(e: Event) { 39000 <= KindNumber(e.body) <= 39003 }

  /** Does `e` replace `current`? A group's state goes by `seq` first; a revocation wins a tie. */
  predicate Replaces(e: Event, current: Event) {
    if IsStateKind(e) && KindNumber(e.body) == KindNumber(current.body) && SeqNoOf(e) != SeqNoOf(current) then
      SeqAbove(SeqNoOf(e), SeqNoOf(current))
    else if e.at != current.at then e.at > current.at
    else if e.body.Binding? && current.body.Binding? && IsRevocation(e) != IsRevocation(current) then IsRevocation(e)
    else e.id < current.id
  }

  predicate SameKind(a: Event, b: Event) { KindNumber(a.body) == KindNumber(b.body) && a.body.Binding? == b.body.Binding? }

  /** Within a kind, `Replaces` is a strict total order on events with different ids. */
  lemma ReplacesIsStrictTotalOrder(a: Event, b: Event, c: Event)
    requires SameKind(a, b) && SameKind(b, c)
    ensures !Replaces(a, a)
    ensures Replaces(a, b) && Replaces(b, c) ==> Replaces(a, c)
    ensures a.id != b.id ==> Replaces(a, b) != Replaces(b, a)
  {
  }

  /** Not being replaced is passed on: what beats the current newest beats all it had beaten. */
  lemma UnbeatenIsTransitive(a: Event, b: Event, c: Event)
    requires SameKind(a, b) && SameKind(b, c)
    requires Replaces(a, b) && !Replaces(c, b)
    ensures !Replaces(c, a)
  {
  }
}
