/**
  Permissions as a 64-bit set (crates/hit-group/src/perm.rs), the lattice they form,
  and the union of the bits a set of roles carries.
 */
module Perm {
  type Bits = bv64

  const VIEW_CHANNEL: Bits := 0x001
  const SEND_MESSAGES: Bits := 0x002
  const MANAGE_MESSAGES: Bits := 0x004
  const MANAGE_CHANNELS: Bits := 0x008
  const CREATE_INVITE: Bits := 0x010
  const MANAGE_INVITES: Bits := 0x020
  const KICK_MEMBERS: Bits := 0x040
  const BAN_MEMBERS: Bits := 0x080
  const MUTE_MEMBERS: Bits := 0x100
  const MANAGE_ROLES: Bits := 0x200
  const MANAGE_GROUP: Bits := 0x400
  const ATTACH_FILES: Bits := 0x800
  const ALL: Bits := 0xFFF
  const NONE: Bits := 0
  const CHANNEL_SCOPED: Bits := VIEW_CHANNEL | SEND_MESSAGES | MANAGE_MESSAGES | ATTACH_FILES

  function Sanitized(a: Bits): Bits { a & ALL }

  function Union(a: Bits, b: Bits): Bits { a | b }

  function Intersection(a: Bits, b: Bits): Bits { a & b }

  function Without(a: Bits, b: Bits): Bits { a & !b }

  /** What `a` would grant that `b` does not. */
  function Beyond(a: Bits, b: Bits): Bits { a & !b }

  predicate Contains(a: Bits, needed: Bits) { a & needed == needed }

  /** Set inclusion: nothing in `a` is beyond `b`. */
  predicate Within(a: Bits, b: Bits) { Beyond(a, b) == NONE }

  lemma WithinTransitive(a: Bits, b: Bits, c: Bits)
    ensures Within(a, b) && Within(b, c) ==> Within(a, c)
  {
  }

  lemma WithinAntisymmetric(a: Bits, b: Bits)
    ensures Within(a, b) && Within(b, a) ==> a == b
  {
  }

  /** `Union` is the least upper bound. */
  lemma UnionIsJoin(a: Bits, b: Bits)
    ensures Within(a, Union(a, b)) && Within(b, Union(a, b))
    ensures forall c :: Within(a, c) && Within(b, c) ==> Within(Union(a, b), c)
  {
  }

  lemma WithinUnion(a: Bits, b: Bits, c: Bits)
    requires Within(a, b) || Within(a, c)
    ensures Within(a, Union(b, c))
  {
    UnionIsJoin(b, c);
    if Within(a, b) {
      WithinTransitive(a, b, Union(b, c));
    } else {
      WithinTransitive(a, c, Union(b, c));
    }
  }

  lemma SanitizedShrinks(a: Bits)
    ensures Within(Sanitized(a), a) && Within(Sanitized(a), ALL)
    ensures Sanitized(Sanitized(a)) == Sanitized(a)
  {
  }

  lemma SanitizedMonotone(a: Bits, b: Bits)
    ensures Within(a, b) ==> Within(Sanitized(a), Sanitized(b))
  {
  }
}
