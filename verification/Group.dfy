/**
  What group events say once parsed (crates/hit-event/src/group.rs): channels, roles,
  overrides, snapshots, edits, actions, and the event envelope the fold and the node read.
 */
module Group {
  import opened Prelude
  import opened Perm

  /** A public key or an event id: 32 bytes, ordered as a big-endian number. */
  const KEY_LIMIT: nat := 0x1_0000_0000_0000_0000_0000_0000_0000_0000_0000_0000_0000_0000_0000_0000_0000_0000
  type PublicKey = k: nat | k < KEY_LIMIT
  type EventId = k: nat | k < KEY_LIMIT
  type Timestamp = nat

  const U32_LIMIT: nat := 0x1_0000_0000
  const I64_MIN: int := -0x8000_0000_0000_0000
  const I64_LIMIT: int := 0x8000_0000_0000_0000
  type Position = x: int | I64_MIN <= x < I64_LIMIT
  type Seconds = x: nat | x < U32_LIMIT

  const MAX_LABEL := 64
  const MAX_ABOUT := 280
  const MAX_SLOWMODE := 21600
  const MAX_NEWCOMER_WAIT := 86400
  const PUBLIC_NEWCOMER_FLOOR := 300

  const DEFAULT_ROLE := "member"
  const OWNER_MARK := "owner"

  datatype ChannelKind = Text | Voice

  datatype Channel = Channel(id: string, name: string, kind: ChannelKind, slowmode: Seconds)

  datatype Override = Override(channel: string, role: string, allow: Bits, deny: Bits)

  datatype RoleDef = RoleDef(id: string, name: string, perms: Bits, position: Position)

  datatype StatePiece =
    | Metadata(name: string, public: bool, newcomerWait: Seconds, about: string,
               channels: seq<Channel>, overrides: seq<Override>)
    | Admins(owner: Option<PublicKey>, assignments: map<PublicKey, set<string>>)
    | Members(members: set<PublicKey>, bans: set<PublicKey>, mutes: map<PublicKey, Timestamp>)
    | Roles(roles: seq<RoleDef>)

  datatype Snapshot = Snapshot(
    seqNo: nat, name: string, public: bool, newcomerWait: Seconds, about: string,
    channels: seq<Channel>, overrides: seq<Override>, roles: seq<RoleDef>,
    owner: Option<PublicKey>, members: map<PublicKey, set<string>>,
    bans: set<PublicKey>, mutes: map<PublicKey, Timestamp>)

  datatype Edit =
    | EditName(name: string)
    | EditPublic(public: bool)
    | EditNewcomerWait(secs: Seconds)
    | EditAbout(about: string)
    | EditChannel(channel: Channel)
    | EditChannelDelete(channelId: string)
    | EditOverride(override: Override)
    | EditRole(role: RoleDef)
    | EditRoleDelete(roleId: string)

  datatype Action =
    | Put(target: PublicKey, roles: set<string>)
    | Remove(target: PublicKey, ban: bool)
    | Unban(target: PublicKey)
    | Mute(target: PublicKey, until: Option<Timestamp>)
    | EditGroup(edits: seq<Edit>)
    | Invite(code: string, expires: Option<Timestamp>)
    | Join(joinCode: Option<string>)
    | Leave

  datatype ActionKind = PutUser | RemoveUser | EditMetadata | MuteUser | CreateInvite | JoinGroup | LeaveGroup

  /** A kind number the other bodies do not use. */
  type OtherKind = n: nat | n !in {0, 5, 7, 9, 9000, 9001, 9002, 9005, 9007, 9009, 9021, 9022, 9030, 20436, 30436, 39000, 39001, 39002, 39003} witness 1

  datatype Proof = NoProof | BadProof | GoodProof

  /** The tags of a device binding. `canonical`: the device text is the one spelling of a device id. */
  datatype BindingTags = BindingTags(
    device: Option<string>, canonical: bool, revoked: bool, expires: Option<Timestamp>, proof: Proof)

  /** An event's kind together with what parsing its tags yields; `None` is a malformed one. */
  datatype Body =
    | StateBody(seqNo: nat, piece: StatePiece)
    | MalformedState
    | CreateGroup
    | ActionBody(kind: ActionKind, action: Option<Action>)
    | Chat(filesOk: bool)
    | Reaction(reactedTo: seq<EventId>, length: nat)
    | Deletion(withdrawn: seq<EventId>)
    | Removal(removed: seq<EventId>)
    | Binding(tags: BindingTags)
    | Profile
    | Presence
    | OtherBody(number: OtherKind)

  datatype Event = Event(
    id: EventId, author: PublicKey, at: Timestamp,
    group: Option<PublicKey>, channel: Option<string>, body: Body)

  datatype Silence = Silence(who: PublicKey, from: Timestamp, until: Option<Timestamp>, mute: bool) {
    predicate Covers(t: Timestamp) {
      from <= t && (until.None? || t < until.value)
    }
  }

  datatype InviteEntry = InviteEntry(author: PublicKey, at: Timestamp, expires: Option<Timestamp>)

  function ActionOf(e: Event): Option<Action> {
    if e.body.ActionBody? then e.body.action else None
  }

  /** `char::is_whitespace`: Unicode's White_Space property. */
  predicate IsWhitespace(c: char) {
    var n := c as int;
    || 0x09 <= n <= 0x0D || n == 0x20 || n == 0x85 || n == 0xA0 || n == 0x1680
    || 0x2000 <= n <= 0x200A || n == 0x2028 || n == 0x2029 || n == 0x202F
    || n == 0x205F || n == 0x3000
  }

  function TrimStart(s: string): string {
    if s != [] && IsWhitespace(s[0]) then TrimStart(s[1..]) else s
  }

  function TrimEnd(s: string): string {
    if s != [] && IsWhitespace(s[|s| - 1]) then TrimEnd(s[..|s| - 1]) else s
  }

  function Trim(s: string): string { TrimEnd(TrimStart(s)) }
}
