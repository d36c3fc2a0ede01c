/**
  The tag rows of actions (crates/hit-event/src/group.rs, `Edit::to_tag`, `Edit::parse`,
  `parse_action` and the builders): what a person signs is what every peer reads. Each action's
  rows are read back in turn, and the two that are not read as they were written are named: an
  empty batch of edits, and a mute until second 0.
 */
module ActionRows {
  import opened Prelude
  import opened Digits
  import opened Group
  import opened Hex
  import opened Rows

  const PUT_USER: nat := 9000
  const REMOVE_USER: nat := 9001
  const EDIT_METADATA: nat := 9002
  const CREATE_INVITE: nat := 9009
  const JOIN: nat := 9021
  const LEAVE: nat := 9022
  const MUTE_USER: nat := 9030

  // ---- edits ---------------------------------------------------------------------------

  function EditRow(e: Edit): Row {
    match e
    case EditName(n) => ["name", n]
    case EditPublic(public) => if public then ["public"] else ["private"]
    case EditNewcomerWait(n) => ["newcomer_wait", Decimal(n)]
    case EditAbout(a) => ["about", a]
    case EditChannel(c) => ChannelRow(c)
    case EditChannelDelete(id) => ["channel-delete", id]
    case EditOverride(o) => OverrideRow(o)
    case EditRole(r) => RoleRow(r)
    case EditRoleDelete(id) => ["role-delete", id]
  }

  /** `NotAnEdit` is a row some other reader understands; `BadEdit` refuses the event. */
  datatype EditRead = AnEdit(edit: Edit) | NotAnEdit | BadEdit

  function ParseEdit(row: Row): EditRead {
    if row == [] then NotAnEdit
    else if row[0] == "public" then AnEdit(EditPublic(true))
    else if row[0] == "private" then AnEdit(EditPublic(false))
    else if row[0] == "name" then
      if |row| >= 2 then AnEdit(EditName(row[1])) else BadEdit
    else if row[0] == "about" then
      if |row| >= 2 then AnEdit(EditAbout(row[1])) else BadEdit
    else if row[0] == "channel-delete" then
      if |row| >= 2 then AnEdit(EditChannelDelete(row[1])) else BadEdit
    else if row[0] == "role-delete" then
      if |row| >= 2 then AnEdit(EditRoleDelete(row[1])) else BadEdit
    else ParseNumbered(row)
  }

  /** The edits that hold numbers. */
  function ParseNumbered(row: Row): EditRead
    requires row != []
  {
    if row[0] == "newcomer_wait" then
      var n := if |row| >= 2 then ParseSeconds(row[1]) else None;
      if n.None? then BadEdit else AnEdit(EditNewcomerWait(n.value))
    else if row[0] == "channel" then
      var c := ParseChannel(row[1..]);
      if c.None? then BadEdit else AnEdit(EditChannel(c.value))
    else if row[0] == "override" then
      var o := ParseOverride(row[1..]);
      if o.None? then BadEdit else AnEdit(EditOverride(o.value))
    else if row[0] == "role" then
      var r := ParseRole(row[1..]);
      if r.None? then BadEdit else AnEdit(EditRole(r.value))
    else NotAnEdit
  }

  lemma PlainEditReads(e: Edit)
    requires e.EditName? || e.EditPublic? || e.EditAbout? || e.EditChannelDelete? || e.EditRoleDelete?
    ensures ParseEdit(EditRow(e)) == AnEdit(e)
  {
  }

  lemma NumberedEditReads(e: Edit)
    requires e.EditNewcomerWait? || e.EditChannel? || e.EditOverride? || e.EditRole?
    ensures ParseEdit(EditRow(e)) == AnEdit(e)
  {
    hide Decimal, ParseSeconds, ParseChannel, ParseOverride, ParseRole, BitsText, DecimalInt;
    match e
    case EditNewcomerWait(n) => SecondsRoundTrip(n);
    case EditChannel(c) => ChannelRoundTrip(c);
    case EditOverride(o) => OverrideRoundTrip(o);
    case EditRole(r) => RoleRoundTrip(r);
  }

  lemma EditRoundTrip(e: Edit)
    ensures ParseEdit(EditRow(e)) == AnEdit(e)
  {
    hide ParseEdit, EditRow;
    if e.EditNewcomerWait? || e.EditChannel? || e.EditOverride? || e.EditRole? {
      NumberedEditReads(e);
    } else {
      PlainEditReads(e);
    }
  }

  function EditRows(edits: seq<Edit>): seq<Row> {
    seq(|edits|, i requires 0 <= i < |edits| => EditRow(edits[i]))
  }

  /** All the edits of an event; the first malformed one refuses it. */
  function ReadEdits(rows: seq<Row>): Option<seq<Edit>> {
    if rows == [] then Some([])
    else
      var front := ReadEdits(rows[..|rows| - 1]);
      match ParseEdit(rows[|rows| - 1])
      case AnEdit(e) => if front.None? then None else Some(front.value + [e])
      case NotAnEdit => front
      case BadEdit => None
  }

  method ReadEditLoop(rows: seq<Row>) returns (r: Option<seq<Edit>>)
    ensures r == ReadEdits(rows)
  {
    hide ParseEdit;
    var edits := [];
    for i := 0 to |rows|
      invariant ReadEdits(rows[..i]) == Some(edits)
    {
      assert rows[..i + 1][..i] == rows[..i];
      match ParseEdit(rows[i]) {
        case AnEdit(e) => edits := edits + [e];
        case NotAnEdit =>
        case BadEdit =>
          BadEditRefuses(rows[..i + 1], rows[i + 1..]);
          assert rows[..i + 1] + rows[i + 1..] == rows;
          return None;
      }
    }
    assert rows[..|rows|] == rows;
    r := Some(edits);
  }

  lemma {:induction false} BadEditRefuses(rows: seq<Row>, behind: seq<Row>)
    requires ReadEdits(rows).None?
    ensures ReadEdits(rows + behind).None?
  {
    hide ParseEdit;
    if behind == [] {
      assert rows + behind == rows;
    } else {
      var last := |behind| - 1;
      BadEditRefuses(rows, behind[..last]);
      assert (rows + behind)[..|rows + behind| - 1] == rows + behind[..last];
    }
  }

  lemma {:induction false} EditsRead(head: Row, edits: seq<Edit>)
    requires ParseEdit(head) == NotAnEdit
    ensures ReadEdits([head] + EditRows(edits)) == Some(edits)
  {
    hide ParseEdit, EditRow;
    var rows := [head] + EditRows(edits);
    if edits == [] {
      assert rows == [head] && rows[..0] == [];
    } else {
      var last := |edits| - 1;
      EditsRead(head, edits[..last]);
      assert rows[..|rows| - 1] == [head] + EditRows(edits[..last]);
      EditRoundTrip(edits[last]);
      assert edits[..last] + [edits[last]] == edits;
    }
  }

  // ---- parse_action ---------------------------------------------------------------------

  datatype ParsedAction = ParsedAction(group: PublicKey, action: Action)

  /** The first row named `p` that has a value: what follows it. */
  function FirstTarget(rows: seq<Row>): Option<Row> {
    if rows == [] then None
    else if |rows[0]| >= 2 && rows[0][0] == "p" then Some(rows[0][1..])
    else FirstTarget(rows[1..])
  }

  /** The time of the first `p` row that has one that parses. */
  function FirstUntil(rows: seq<Row>): Option<Timestamp> {
    if rows == [] then None
    else if |rows[0]| >= 3 && rows[0][0] == "p" && ParseUnsigned(rows[0][2], U64_LIMIT).Some? then
      ParseUnsigned(rows[0][2], U64_LIMIT)
    else FirstUntil(rows[1..])
  }

  predicate HasFlag(rows: seq<Row>, name: string) {
    exists i :: 0 <= i < |rows| && rows[i] != [] && rows[i][0] == name
  }

  function ParseTarget(rows: seq<Row>): Option<PublicKey> {
    var p := FirstTarget(rows);
    if p.None? || p.value == [] then None else FromHex(p.value[0])
  }

  function ParseBody(kind: nat, rows: seq<Row>): Option<Action> {
    var target := ParseTarget(rows);
    if kind == PUT_USER then
      var p := FirstTarget(rows);
      if target.None? || p.None? || p.value == [] then None
      else Some(Put(target.value, set r | r in p.value[1..]))
    else if kind == REMOVE_USER then
      if target.None? then None
      else if HasFlag(rows, "unban") then Some(Unban(target.value))
      else Some(Remove(target.value, HasFlag(rows, "ban")))
    else if kind == MUTE_USER then
      var until := FirstUntil(rows);
      if until.None? || target.None? then None
      else Some(Mute(target.value, if until.value > 0 then until else None))
    else if kind == EDIT_METADATA then
      var edits := ReadEdits(rows);
      if edits.None? || edits.value == [] then None else Some(EditGroup(edits.value))
    else if kind == CREATE_INVITE then
      var code, text := FirstValue(rows, "code"), FirstValue(rows, "expiration");
      var expires := if text.None? then None else ParseUnsigned(text.value, U64_LIMIT);
      if code.None? || (text.Some? && expires.None?) then None else Some(Invite(code.value, expires))
    else if kind == JOIN then Some(Join(FirstValue(rows, "code")))
    else if kind == LEAVE then Some(Leave)
    else None
  }

  function ParseAction(e: RawEvent): Option<ParsedAction> {
    var h := FirstValue(e.rows, "h");
    var group := if h.None? then None else FromHex(h.value);
    var action := ParseBody(e.kind, e.rows);
    if group.None? || action.None? then None else Some(ParsedAction(group.value, action.value))
  }

  // ---- the builders -----------------------------------------------------------------------

  function KindOf(a: Action): nat {
    match a
    case Put(_, _) => PUT_USER
    case Remove(_, _) => REMOVE_USER
    case Unban(_) => REMOVE_USER
    case Mute(_, _) => MUTE_USER
    case EditGroup(_) => EDIT_METADATA
    case Invite(_, _) => CREATE_INVITE
    case Join(_) => JOIN
    case Leave => LEAVE
  }

  /** The rows behind `h`; `held` is the order a put's roles are given in. */
  function BodyRows(a: Action, held: seq<string>): seq<Row> {
    match a
    case Put(target, _) => [["p", ToHex(target)] + held]
    case Remove(target, ban) => [["p", ToHex(target)]] + (if ban then [["ban"]] else [])
    case Unban(target) => [["p", ToHex(target)], ["unban"]]
    case Mute(target, until) => [["p", ToHex(target), Decimal(if until.None? then 0 else until.value)]]
    case EditGroup(edits) => EditRows(edits)
    case Invite(code, expires) =>
      [["code", code]] + (if expires.None? then [] else [["expiration", Decimal(expires.value)]])
    case Join(code) => if code.None? then [] else [["code", code.value]]
    case Leave => []
  }

  function Built(a: Action, held: seq<string>, g: PublicKey, author: PublicKey, at: Timestamp): RawEvent {
    RawEvent(KindOf(a), author, at, [["h", ToHex(g)]] + BodyRows(a, held))
  }

  /** Some edit, and no mute until the epoch, which is how a mute is lifted. */
  predicate Writable(a: Action) {
    match a
    case Mute(_, until) => until != Some(0)
    case EditGroup(edits) => edits != []
    case _ => true
  }

  ghost predicate Sayable(a: Action, held: seq<string>) {
    && (a.Put? ==> C.Lists(held, a.roles))
    && (a.Mute? && a.until.Some? ==> a.until.value < U64_LIMIT)
    && (a.Invite? && a.expires.Some? ==> a.expires.value < U64_LIMIT)
  }

  lemma TargetReads(head: Row, target: PublicKey, rest: Row, behind: seq<Row>)
    requires |head| == 2 && head[0] == "h"
    ensures var rows := [head] + ([["p", ToHex(target)] + rest] + behind);
            && FirstTarget(rows) == Some([ToHex(target)] + rest)
            && ParseTarget(rows) == Some(target)
            && FirstUntil(rows) == FirstUntil([["p", ToHex(target)] + rest] + behind)
  {
    hide ToHex, FromHex, ParseUnsigned;
    HexRoundTrip(target);
    var row := ["p", ToHex(target)] + rest;
    var rows := [head] + ([row] + behind);
    assert rows[1..] == [row] + behind && ([row] + behind)[0] == row;
    assert row[1..] == [ToHex(target)] + rest;
  }

  lemma FirstValueSkips(head: Row, behind: seq<Row>, name: string)
    requires |head| == 2 && head[0] != name
    ensures FirstValue([head] + behind, name) == FirstValue(behind, name)
  {
    assert ([head] + behind)[1..] == behind;
  }

  lemma PutReads(head: Row, a: Action, held: seq<string>)
    requires |head| == 2 && head[0] == "h" && a.Put? && C.Lists(held, a.roles)
    ensures ParseBody(PUT_USER, [head] + BodyRows(a, held)) == Some(a)
  {
    hide ToHex, FirstTarget, ParseTarget;
    TargetReads(head, a.target, held, []);
    assert [["p", ToHex(a.target)] + held] + [] == BodyRows(a, held);
    assert ([ToHex(a.target)] + held)[1..] == held;
    assert (set r | r in held) == a.roles;
  }

  lemma RemoveReads(head: Row, a: Action)
    requires |head| == 2 && head[0] == "h" && (a.Remove? || a.Unban?)
    ensures ParseBody(REMOVE_USER, [head] + BodyRows(a, [])) == Some(a)
  {
    hide ToHex, FirstTarget, ParseTarget;
    var flags: seq<Row> := if a.Unban? then [["unban"]] else if a.ban then [["ban"]] else [];
    TargetReads(head, a.target, [], flags);
    var rows := [head] + BodyRows(a, []);
    assert ["p", ToHex(a.target)] + [] == ["p", ToHex(a.target)];
    assert rows == [head] + ([["p", ToHex(a.target)] + []] + flags);
    if flags != [] {
      assert rows[2] == flags[0];
    }
  }

  lemma MuteReads(head: Row, a: Action)
    requires |head| == 2 && head[0] == "h" && a.Mute? && (a.until.Some? ==> a.until.value < U64_LIMIT)
    ensures ParseBody(MUTE_USER, [head] + BodyRows(a, [])) == Some(if a.until == Some(0) then a.(until := None) else a)
  {
    hide ToHex, FirstTarget, ParseTarget, Decimal, ParseUnsigned;
    var until := if a.until.None? then 0 else a.until.value;
    UnsignedRoundTrip(until, U64_LIMIT);
    TargetReads(head, a.target, [Decimal(until)], []);
    assert ["p", ToHex(a.target)] + [Decimal(until)] == ["p", ToHex(a.target), Decimal(until)];
    assert [["p", ToHex(a.target)] + [Decimal(until)]] + [] == BodyRows(a, []);
  }

  lemma InviteReads(head: Row, a: Action)
    requires |head| == 2 && head[0] == "h" && a.Invite? && (a.expires.Some? ==> a.expires.value < U64_LIMIT)
    ensures ParseBody(CREATE_INVITE, [head] + BodyRows(a, [])) == Some(a)
  {
    hide Decimal, ParseUnsigned, ParseTarget;
    var behind := BodyRows(a, []);
    FirstValueSkips(head, behind, "code");
    FirstValueSkips(head, behind, "expiration");
    var tail: seq<Row> := if a.expires.None? then [] else [["expiration", Decimal(a.expires.value)]];
    FirstValueSkips(["code", a.code], tail, "expiration");
    if a.expires.Some? {
      UnsignedRoundTrip(a.expires.value, U64_LIMIT);
    }
  }

  lemma JoinReads(head: Row, a: Action)
    requires |head| == 2 && head[0] == "h" && a.Join?
    ensures ParseBody(JOIN, [head] + BodyRows(a, [])) == Some(a)
  {
    hide ParseTarget;
    FirstValueSkips(head, BodyRows(a, []), "code");
  }

  lemma EditsReadBack(head: Row, a: Action)
    requires |head| == 2 && head[0] == "h" && a.EditGroup?
    ensures ParseBody(EDIT_METADATA, [head] + BodyRows(a, [])) == if a.edits == [] then None else Some(a)
  {
    hide ParseTarget, EditRows, ReadEdits;
    assert ParseEdit(head) == NotAnEdit;
    EditsRead(head, a.edits);
  }

  lemma BodyReads(head: Row, a: Action, held: seq<string>)
    requires |head| == 2 && head[0] == "h" && Sayable(a, held)
    ensures ParseBody(KindOf(a), [head] + BodyRows(a, held)) ==
            if Writable(a) then Some(a) else if a.Mute? then Some(a.(until := None)) else None
  {
    hide ParseBody, C.Lists;
    if a.Put? {
      PutReads(head, a, held);
    } else {
      assert BodyRows(a, held) == BodyRows(a, []);
      match a
      case Remove(_, _) => RemoveReads(head, a);
      case Unban(_) => RemoveReads(head, a);
      case Mute(_, _) => MuteReads(head, a);
      case EditGroup(_) => EditsReadBack(head, a);
      case Invite(_, _) => InviteReads(head, a);
      case Join(_) => JoinReads(head, a);
      case _ => LeaveReads([head] + BodyRows(a, []));
    }
  }

  lemma LeaveReads(rows: seq<Row>)
    ensures ParseBody(LEAVE, rows) == Some(Leave)
  {
  }

  /**
    An action is read as it was written, whatever order its roles are given in, exactly when it
    can be written: a 9002 needs an edit, and a mute until second 0 lifts the mute.
   */
  lemma {:induction false} ActionRoundTrip(a: Action, held: seq<string>, g: PublicKey, author: PublicKey, at: Timestamp)
    requires Sayable(a, held)
    ensures ParseAction(Built(a, held, g, author, at)) == Some(ParsedAction(g, a)) <==> Writable(a)
  {
    hide ToHex, FromHex, BodyRows, ParseBody, Sayable;
    HexRoundTrip(g);
    var head := ["h", ToHex(g)];
    BodyReads(head, a, held);
    assert FirstValue([head] + BodyRows(a, held), "h") == Some(ToHex(g));
  }
}
