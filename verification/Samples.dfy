/**
  Rows as other programs write them, read here: one event of each kind, tag by tag, and the
  digits every number and key is spelled in.
 */
module Samples {
  import opened Prelude
  import opened Digits
  import opened Group
  import opened Perm
  import opened Hex
  import opened Rows
  import opened ActionRows

  // ---- spellings ------------------------------------------------------------------------------

  /** Sixteen hexadecimal digits, the letters in either case, and ten decimal ones. */
  lemma DigitsSpelled(i: nat)
    requires i < 16
    ensures HexChar(i) == "0123456789abcdef"[i]
    ensures IsHexChar("0123456789abcdef"[i]) && HexValue("0123456789abcdef"[i]) == i
    ensures IsHexChar("0123456789ABCDEF"[i]) && HexValue("0123456789ABCDEF"[i]) == i
    ensures i < 10 ==> IsDigit("0123456789"[i]) && DigitValue("0123456789"[i]) == i
  {
  }

  lemma NumbersSpelled()
    ensures ParseUnsigned("60", 100) == Some(60) && ParseUnsigned("1905", 2000) == Some(1905) && ParseUnsigned("1905", 1905) == None
    ensures ParseSigned("-12", 100) == Some(-12) && Decimal(1905) == "1905" && DecimalInt(-12) == "-12"
  {
    assert DecimalValue("60") == 60 by { assert "60"[..1] == "6"; }
    assert DecimalValue("1905") == 1905 by { assert "1905"[..3] == "190" && "190"[..2] == "19" && "19"[..1] == "1"; }
    assert DecimalValue("12") == 12 by { assert "12"[..1] == "1"; }
    assert "-12"[1..] == "12";
    assert Decimal(190) == "190" by { assert Decimal(19) == "19"; }
  }

  // ---- the group's state ------------------------------------------------------------------------

  /** The rows of metadata, one by one, after any others; rows nobody knows are passed over. */
  lemma MetadataRowsRead(a: MetadataSoFar, x: string, y: string, n: Seconds, p: Bits, q: Bits)
    ensures MetadataStep(a, ["name", x]) == Some(a.(name := x)) && MetadataStep(a, ["about", x]) == Some(a.(about := x))
    ensures MetadataStep(a, ["public"]) == Some(a.(public := true)) && MetadataStep(a, ["private"]) == Some(a.(private := true))
    ensures MetadataStep(a, ["newcomer_wait", Decimal(n)]) == Some(a.(newcomerWait := n))
    ensures MetadataStep(a, ["channel", x, y, "text"]) == Some(a.(channels := a.channels + [Channel(x, y, ChannelKind.Text, 0)]))
    ensures MetadataStep(a, ["channel", x, y, "voice", Decimal(n)]) ==
            Some(a.(channels := a.channels + [Channel(x, y, ChannelKind.Voice, n)]))
    ensures MetadataStep(a, ["override", x, y, BitsText(p), BitsText(q)]) == Some(a.(overrides := a.overrides + [Override(x, y, p, q)]))
    ensures MetadataStep(a, ["channel", x, y]) == None && MetadataStep(a, ["relay", x]) == Some(a)
  {
    hide Decimal, ParseSeconds, BitsText, ParseBits;
    SecondsRoundTrip(n);
    BitsRoundTrip(p);
    BitsRoundTrip(q);
    assert ["channel", x, y, "text"][1..] == [x, y, "text"];
    assert ["channel", x, y, "voice", Decimal(n)][1..] == [x, y, "voice", Decimal(n)];
    assert ["override", x, y, BitsText(p), BitsText(q)][1..] == [x, y, BitsText(p), BitsText(q)];
  }

  /** A group is public when some row says so and none says the contrary. */
  lemma {:induction false} PublicExactly(rows: seq<Row>)
    requires ParsePiece(39000, rows).Some?
    ensures ParsePiece(39000, rows).value.public <==> HasFlag(rows, "public") && !HasFlag(rows, "private")
  {
    FlagsRead(rows);
  }

  lemma {:induction false} FlagsRead(rows: seq<Row>)
    requires FoldRows(MetadataStep, NO_METADATA, rows).Some?
    ensures
      var a := FoldRows(MetadataStep, NO_METADATA, rows).value;
      (a.public <==> HasFlag(rows, "public")) && (a.private <==> HasFlag(rows, "private"))
  {
    hide ParseSeconds, ParseChannel, ParseOverride;
    if rows != [] {
      var last := |rows| - 1;
      FlagsRead(rows[..last]);
      assert forall i :: 0 <= i < last ==> rows[..last][i] == rows[i];
    }
  }

  lemma AdminsRowsRead(a: AdminsSoFar, p: PublicKey, x: string, y: string)
    requires x != "owner" && y != "owner"
    ensures AdminsStep(a, ["p", ToHex(p), "owner"]) == Some(a.(owner := Some(p)))
    ensures AdminsStep(a, ["p", ToHex(p), x, y]) == Some(a.(assignments := a.assignments[p := {x, y}]))
    ensures AdminsStep(a, ["q", ToHex(p), x]) == Some(a)
  {
    hide ToHex, FromHex;
    HexRoundTrip(p);
    assert ["p", ToHex(p), "owner"][2..] == ["owner"];
    assert ["p", ToHex(p), x, y][2..] == [x, y];
    assert (set r | r in [x, y]) == {x, y};
  }

  lemma MembersRowsRead(a: MembersSoFar, p: PublicKey, t: Timestamp)
    requires t < 0x1_0000_0000_0000_0000
    ensures MembersStep(a, ["p", ToHex(p)]) == Some(a.(members := a.members + {p}))
    ensures MembersStep(a, ["ban", ToHex(p)]) == Some(a.(bans := a.bans + {p}))
    ensures MembersStep(a, ["mute", ToHex(p), Decimal(t)]) == Some(a.(mutes := a.mutes[p := t]))
  {
    hide ToHex, FromHex, Decimal, ParseUnsigned;
    HexRoundTrip(p);
    UnsignedRoundTrip(t, U64_LIMIT);
  }

  lemma RolesRowsRead(a: seq<RoleDef>, x: string, y: string, p: Bits, position: Position)
    ensures RolesStep(a, ["role", x, y, BitsText(p), DecimalInt(position)]) == Some(a + [RoleDef(x, y, p, position)])
  {
    hide BitsText, ParseBits, DecimalInt, ParsePosition;
    BitsRoundTrip(p);
    PositionRoundTrip(position);
    assert ["role", x, y, BitsText(p), DecimalInt(position)][1..] == [x, y, BitsText(p), DecimalInt(position)];
  }

  /** A state event: of the group `d` names, if it signed it, with its counter under `seq`; the kind says which piece. */
  lemma StateRead(kind: nat, author: PublicKey, g: PublicKey, at: Timestamp, n: nat, rows: seq<Row>)
    requires n < 0x1_0000_0000_0000_0000
    ensures
      var all := [["d", ToHex(g)], ["seq", Decimal(n)]] + rows;
      ParseState(RawEvent(kind, author, at, all)) ==
      if 39000 <= kind <= 39003 && author == g && ParsePiece(kind, all).Some? then Some(Parsed(g, n, ParsePiece(kind, all).value)) else None
    ensures ParsePiece(39000, rows).Some? ==> ParsePiece(39000, rows).value.Metadata?
    ensures ParsePiece(39001, rows).Some? ==> ParsePiece(39001, rows).value.Admins?
    ensures ParsePiece(39002, rows).Some? ==> ParsePiece(39002, rows).value.Members?
    ensures ParsePiece(39003, rows).Some? ==> ParsePiece(39003, rows).value.Roles?
  {
    var all := [["d", ToHex(g)], ["seq", Decimal(n)]] + rows;
    HexRoundTrip(g);
    UnsignedRoundTrip(n, U64_LIMIT);
    assert all[1..][0] == ["seq", Decimal(n)];
    hide ToHex, FromHex, Decimal, ParseUnsigned, FoldRows;
    assert FirstValue(all, "d") == Some(ToHex(g)) && FirstValue(all, "seq") == Some(Decimal(n));
  }

  // ---- actions ------------------------------------------------------------------------------------

  lemma EditRowsRead(x: string)
    ensures ParseEdit(["name", x]) == AnEdit(EditName(x)) && ParseEdit(["about", x]) == AnEdit(EditAbout(x))
    ensures ParseEdit(["public"]) == AnEdit(EditPublic(true)) && ParseEdit(["private"]) == AnEdit(EditPublic(false))
    ensures ParseEdit(["channel-delete", x]) == AnEdit(EditChannelDelete(x)) && ParseEdit(["role-delete", x]) == AnEdit(EditRoleDelete(x))
    ensures ParseEdit(["h", x]) == NotAnEdit && ParseEdit(["name"]) == BadEdit
  {
  }

  lemma NumberedRowsRead(x: string, y: string, n: Seconds, p: Bits, q: Bits, position: Position)
    ensures ParseEdit(["newcomer_wait", Decimal(n)]) == AnEdit(EditNewcomerWait(n))
    ensures ParseEdit(["channel", x, y, "voice", Decimal(n)]) == AnEdit(EditChannel(Channel(x, y, ChannelKind.Voice, n)))
    ensures ParseEdit(["override", x, y, BitsText(p), BitsText(q)]) == AnEdit(EditOverride(Override(x, y, p, q)))
    ensures ParseEdit(["role", x, y, BitsText(p), DecimalInt(position)]) == AnEdit(EditRole(RoleDef(x, y, p, position)))
  {
    hide Decimal, ParseSeconds, BitsText, ParseBits, DecimalInt, ParsePosition;
    SecondsRoundTrip(n);
    BitsRoundTrip(p);
    BitsRoundTrip(q);
    PositionRoundTrip(position);
    assert ["channel", x, y, "voice", Decimal(n)][1..] == [x, y, "voice", Decimal(n)];
    assert ["override", x, y, BitsText(p), BitsText(q)][1..] == [x, y, BitsText(p), BitsText(q)];
    assert ["role", x, y, BitsText(p), DecimalInt(position)][1..] == [x, y, BitsText(p), DecimalInt(position)];
  }

  lemma TargetIn(g: PublicKey, row: Row, more: seq<Row>)
    requires |row| >= 2 && row[0] == "p"
    ensures
      var rows := [["h", ToHex(g)], row] + more;
      FirstTarget(rows) == Some(row[1..]) && FirstValue(rows, "h") == Some(ToHex(g)) && FromHex(ToHex(g)) == Some(g)
  {
    HexRoundTrip(g);
    hide ToHex, FromHex;
    var rows := [["h", ToHex(g)], row] + more;
    assert rows[1..][0] == row;
  }

  /** A put names its target first, then the roles it gives. */
  lemma PutRead(g: PublicKey, p: PublicKey, author: PublicKey, at: Timestamp, x: string)
    ensures ParseAction(RawEvent(9000, author, at, [["h", ToHex(g)], ["p", ToHex(p), x]])) == Some(ParsedAction(g, Put(p, {x})))
  {
    var row := ["p", ToHex(p), x];
    TargetIn(g, row, []);
    HexRoundTrip(p);
    hide ToHex, FromHex, FirstTarget, FirstValue, ReadEdits, FirstUntil;
    assert [["h", ToHex(g)], row] + [] == [["h", ToHex(g)], row];
    assert row[1..] == [ToHex(p), x] && row[1..][1..] == [x];
    assert (set r | r in [x]) == {x};
  }

  /** A removal is a kick, a ban or its lifting, by a row of its own. */
  lemma RemovedRead(g: PublicKey, p: PublicKey, author: PublicKey, at: Timestamp)
    ensures ParseAction(RawEvent(9001, author, at, [["h", ToHex(g)], ["p", ToHex(p)]])) == Some(ParsedAction(g, Remove(p, false)))
    ensures ParseAction(RawEvent(9001, author, at, [["h", ToHex(g)], ["p", ToHex(p)], ["ban"]])) == Some(ParsedAction(g, Remove(p, true)))
    ensures ParseAction(RawEvent(9001, author, at, [["h", ToHex(g)], ["p", ToHex(p)], ["unban"]])) == Some(ParsedAction(g, Unban(p)))
  {
    var row := ["p", ToHex(p)];
    TargetIn(g, row, []);
    TargetIn(g, row, [["ban"]]);
    TargetIn(g, row, [["unban"]]);
    HexRoundTrip(p);
    hide ToHex, FromHex, FirstTarget, FirstValue, ReadEdits, FirstUntil;
    assert [["h", ToHex(g)], row] + [] == [["h", ToHex(g)], row];
    var ban, unban := [["h", ToHex(g)], row, ["ban"]], [["h", ToHex(g)], row, ["unban"]];
    assert [["h", ToHex(g)], row] + [["ban"]] == ban && [["h", ToHex(g)], row] + [["unban"]] == unban;
    assert ban[2][0] == "ban" && unban[2][0] == "unban";
    assert row[1..] == [ToHex(p)];
  }

  lemma UntilIn(head: Row, row: Row, t: Timestamp)
    requires |head| == 2 && head[0] == "h" && |row| == 3 && row[0] == "p" && ParseUnsigned(row[2], U64_LIMIT) == Some(t)
    ensures FirstUntil([head, row]) == Some(t)
  {
    hide ParseUnsigned;
    assert [head, row][1..] == [row];
  }

  /** A mute ends at its time; 0 lifts it. */
  lemma MutedRead(g: PublicKey, p: PublicKey, author: PublicKey, at: Timestamp, text: string, t: Timestamp)
    requires ParseUnsigned(text, 0x1_0000_0000_0000_0000) == Some(t)
    ensures ParseAction(RawEvent(9030, author, at, [["h", ToHex(g)], ["p", ToHex(p), text]])) ==
            Some(ParsedAction(g, Mute(p, if t > 0 then Some(t) else None)))
  {
    var head, row := ["h", ToHex(g)], ["p", ToHex(p), text];
    hide ToHex, FromHex, ParseUnsigned, ReadEdits;
    TargetIn(g, row, []);
    HexRoundTrip(p);
    UntilIn(head, row, t);
    assert [head, row] + [] == [head, row];
    assert row[1..] == [ToHex(p), text];
    hide FirstTarget, FirstValue, FirstUntil;
  }

  lemma CodeIn(head: Row, code: Row, more: seq<Row>)
    requires |head| == 2 && head[0] == "h" && |code| == 2 && code[0] == "code"
    ensures FirstValue([head, code] + more, "h") == Some(head[1]) && FirstValue([head, code] + more, "code") == Some(code[1])
    ensures FirstValue([head, code] + more, "expiration") == FirstValue(more, "expiration")
    ensures FirstValue([head], "h") == Some(head[1]) && FirstValue([head], "code") == None
  {
    var rows := [head, code] + more;
    assert rows[1..] == [code] + more && ([code] + more)[1..] == more;
  }

  /** An invite names its code and perhaps its end; a join its code, if any; a leave nothing. */
  lemma DoorsRead(g: PublicKey, author: PublicKey, at: Timestamp, x: string, t: Timestamp)
    requires t < 0x1_0000_0000_0000_0000
    ensures ParseAction(RawEvent(9009, author, at, [["h", ToHex(g)], ["code", x]])) == Some(ParsedAction(g, Invite(x, None)))
    ensures ParseAction(RawEvent(9009, author, at, [["h", ToHex(g)], ["code", x], ["expiration", Decimal(t)]])) ==
            Some(ParsedAction(g, Invite(x, Some(t))))
    ensures ParseAction(RawEvent(9021, author, at, [["h", ToHex(g)]])) == Some(ParsedAction(g, Join(None)))
    ensures ParseAction(RawEvent(9021, author, at, [["h", ToHex(g)], ["code", x]])) == Some(ParsedAction(g, Join(Some(x))))
    ensures ParseAction(RawEvent(9022, author, at, [["h", ToHex(g)]])) == Some(ParsedAction(g, Leave))
  {
    var head, code, end := ["h", ToHex(g)], ["code", x], ["expiration", Decimal(t)];
    CodeIn(head, code, []);
    CodeIn(head, code, [end]);
    assert FirstValue([end], "expiration") == Some(Decimal(t)) && FirstValue([], "expiration") == None;
    assert [head, code] + [] == [head, code] && [head, code] + [end] == [head, code, end];
    HexRoundTrip(g);
    UnsignedRoundTrip(t, U64_LIMIT);
    hide ToHex, FromHex, Decimal, ParseUnsigned, ReadEdits, FirstTarget, FirstUntil, ParseTarget, FirstValue;
  }
}
