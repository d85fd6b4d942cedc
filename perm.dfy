/** The permission word of src/core/types.go and its twin
    src/core/types/role.go: a Go `int` whose low four bits are a role's
    capabilities. `Can` tests one bit, `Set` and `SetAll` change bits, and
    `CanEdit` tests the three editing bits together. */
module PermissionBits {

  /** Go's `int` is 64 bits wide on the platforms the service targets. */
  const WIDTH: int := 64

  /** A bit position of the permission word (Go's `PermBit int`). */
  type PermBit = b: int | 0 <= b < WIDTH

  /** A 64-bit Go `int` seen as its two's-complement bits; bit i is
      `w[i]`, so `1 << i` is the word whose only true entry is index i. */
  type Word = w: seq<bool> | |w| == WIDTH witness seq(WIDTH, _ => false)

  // Bit positions of src/core/types.go.
  const EditMembers: PermBit := 0
  const EditChores: PermBit := 1
  const EditGroup: PermBit := 2
  const EditRoles: PermBit := 3
  // src/core/types/role.go gives bit 3 this name instead.
  const DeleteGroup: PermBit := 3

  /** The Go constant 0. */
  function Zero(): Word { seq(WIDTH, _ => false) }

  /** `1 << bit`. */
  function Mask(bit: PermBit): Word { seq(WIDTH, i => i == bit) }

  /** `a | b`. */
  function Or(a: Word, b: Word): Word { seq(WIDTH, i requires 0 <= i < WIDTH => a[i] || b[i]) }

  /** `a & b`. */
  function And(a: Word, b: Word): Word { seq(WIDTH, i requires 0 <= i < WIDTH => a[i] && b[i]) }

  /** `^a`, Go's bitwise complement. */
  function Not(a: Word): Word { seq(WIDTH, i requires 0 <= i < WIDTH => !a[i]) }

  /** `Permissions & (1 << bit) != 0`, the test `Can` makes. */
  predicate HasBit(perms: Word, bit: PermBit) {
    And(perms, Mask(bit)) != Zero()
  }

  /** The masked test reads exactly bit `bit` of the word. */
  lemma HasBitIsIndex(perms: Word, bit: PermBit)
    ensures HasBit(perms, bit) <==> perms[bit]
  {
    if perms[bit] {
      assert And(perms, Mask(bit))[bit] != Zero()[bit];
    } else {
      assert forall i :: 0 <= i < WIDTH ==> And(perms, Mask(bit))[i] == Zero()[i];
    }
  }

  /** The word that `Set(bit, value)` leaves behind: `perms | mask` to
      grant, `perms & ^mask` to revoke. */
  function WithBit(perms: Word, bit: PermBit, value: bool): Word
  {
    if value then Or(perms, Mask(bit)) else And(perms, Not(Mask(bit)))
  }

  /** `Set(bit, value)` replaces bit `bit` by `value` and keeps all others. */
  lemma WithBitIsUpdate(perms: Word, bit: PermBit, value: bool)
    ensures WithBit(perms, bit, value) == perms[bit := value]
  {
    assert forall i :: 0 <= i < WIDTH ==> WithBit(perms, bit, value)[i] == perms[bit := value][i];
  }

  /** After `Set(bit, value)`, `Can(bit)` answers `value`. */
  lemma SetThenCan(perms: Word, bit: PermBit, value: bool)
    ensures HasBit(WithBit(perms, bit, value), bit) == value
  {
    WithBitIsUpdate(perms, bit, value);
    HasBitIsIndex(WithBit(perms, bit, value), bit);
  }

  /** `Set(bit, value)` leaves every other bit as it was. */
  lemma SetKeepsOtherBits(perms: Word, bit: PermBit, value: bool, other: PermBit)
    requires other != bit
    ensures HasBit(WithBit(perms, bit, value), other) == HasBit(perms, other)
  {
    WithBitIsUpdate(perms, bit, value);
    HasBitIsIndex(WithBit(perms, bit, value), other);
    HasBitIsIndex(perms, other);
  }

  /** Setting a bit a second time to the same value changes nothing. */
  lemma SetIdempotent(perms: Word, bit: PermBit, value: bool)
    ensures WithBit(WithBit(perms, bit, value), bit, value) == WithBit(perms, bit, value)
  {
    WithBitIsUpdate(perms, bit, value);
    WithBitIsUpdate(WithBit(perms, bit, value), bit, value);
  }

  /** The word that `SetAll(value)` leaves behind: `^0` or 0. */
  function AllBits(value: bool): Word
  {
    if value then Not(Zero()) else Zero()
  }

  /** After `SetAll(value)`, `Can` answers `value` for every bit. */
  lemma AllBitsCan(value: bool, bit: PermBit)
    ensures HasBit(AllBits(value), bit) == value
  {
    HasBitIsIndex(AllBits(value), bit);
  }

  /** `(1 << EditMembers) | (1 << EditChores) | (1 << EditGroup)`. */
  function EditMask(): Word {
    Or(Or(Mask(EditMembers), Mask(EditChores)), Mask(EditGroup))
  }

  /** `Permissions & mask != 0` with the editing mask. */
  predicate CanEditMask(perms: Word) {
    And(perms, EditMask()) != Zero()
  }

  /** `CanEdit` holds iff one of the bits 0, 1 and 2 is set. */
  lemma CanEditIffEditingBit(perms: Word)
    ensures CanEditMask(perms) <==> HasBit(perms, EditMembers) || HasBit(perms, EditChores) || HasBit(perms, EditGroup)
  {
    HasBitIsIndex(perms, EditMembers);
    HasBitIsIndex(perms, EditChores);
    HasBitIsIndex(perms, EditGroup);
    var m := And(perms, EditMask());
    if perms[0] || perms[1] || perms[2] {
      assert m[0] != Zero()[0] || m[1] != Zero()[1] || m[2] != Zero()[2];
    } else {
      assert forall i :: 0 <= i < WIDTH ==> m[i] == Zero()[i];
    }
  }

  /** Bit 3 (EditRoles, DeleteGroup in src/core/types/role.go) plays no
      part in `CanEdit`: granting or revoking it never changes the answer,
      and a role holding only that bit cannot edit. */
  lemma CanEditIgnoresBit3(perms: Word, value: bool)
    ensures CanEditMask(WithBit(perms, EditRoles, value)) == CanEditMask(perms)
    ensures !CanEditMask(Mask(EditRoles))
  {
    CanEditIffEditingBit(perms);
    CanEditIffEditingBit(WithBit(perms, EditRoles, value));
    CanEditIffEditingBit(Mask(EditRoles));
    SetKeepsOtherBits(perms, EditRoles, value, EditMembers);
    SetKeepsOtherBits(perms, EditRoles, value, EditChores);
    SetKeepsOtherBits(perms, EditRoles, value, EditGroup);
    HasBitIsIndex(Mask(EditRoles), EditMembers);
    HasBitIsIndex(Mask(EditRoles), EditChores);
    HasBitIsIndex(Mask(EditRoles), EditGroup);
  }

  /** A bit of `a | b` is set iff it is set in `a` or in `b`. */
  lemma OrBit(a: Word, b: Word, bit: PermBit)
    ensures HasBit(Or(a, b), bit) <==> HasBit(a, bit) || HasBit(b, bit)
  {
    HasBitIsIndex(Or(a, b), bit);
    HasBitIsIndex(a, bit);
    HasBitIsIndex(b, bit);
  }

  /** The zero word grants nothing. */
  lemma ZeroHasNoBit(bit: PermBit)
    ensures !HasBit(Zero(), bit)
  {
    HasBitIsIndex(Zero(), bit);
  }
}

/** Roles as values and as objects, and the SuperRole aggregation that ORs
    the permission words of all of a member's roles. */
module Permissions {
  import opened GoValues
  import opened PermissionBits

  /** A role as a value: what the repository stores and what a membership
      holds in its `Roles` slice and its `SuperRole` field. */
  datatype RoleRecord = RoleRecord(id: uint64, name: string, permissions: Word, getsChores: bool, groupId: uint64)
  {
    predicate Can(bit: PermBit) { HasBit(permissions, bit) }
    predicate CanEdit() { CanEditMask(permissions) }
  }

  /** A role whose fields are updated in place, as `Set` and `SetAll` do
      through their pointer receiver. */
  class Role {
    var id: uint64
    var name: string
    var permissions: Word
    var getsChores: bool
    var groupId: uint64

    /** `Role{Name: name, Group: g, GetsChores: getsChores}`: every other
        field is Go's zero value. */
    constructor (name: string, groupId: uint64, getsChores: bool)
      ensures this.name == name && this.groupId == groupId && this.getsChores == getsChores
      ensures id == 0 && permissions == Zero()
    {
      this.id := 0;
      this.name := name;
      this.permissions := Zero();
      this.getsChores := getsChores;
      this.groupId := groupId;
    }

    predicate Can(bit: PermBit)
      reads this
    {
      HasBit(permissions, bit)
    }

    predicate CanEdit()
      reads this
    {
      CanEditMask(permissions)
    }

    /** The value copy of this role, as handed to the repository. */
    function Record(): (r: RoleRecord)
      reads this
      ensures r.permissions == permissions && r.name == name && r.getsChores == getsChores
      ensures r.id == id && r.groupId == groupId
      ensures forall b: PermBit {:trigger r.Can(b)} :: r.Can(b) == Can(b)
    {
      RoleRecord(id, name, permissions, getsChores, groupId)
    }

    method Set(bit: PermBit, value: bool)
      modifies this
      ensures permissions == old(permissions)[bit := value]
      ensures Can(bit) == value
      ensures forall b: PermBit {:trigger Can(b)} :: b != bit ==> Can(b) == old(Can(b))
      ensures id == old(id) && name == old(name) && getsChores == old(getsChores) && groupId == old(groupId)
    {
      var mask := Mask(bit);
      if value {
        permissions := Or(permissions, mask);
      } else {
        mask := Not(mask);
        permissions := And(permissions, mask);
      }
      assert permissions == WithBit(old(permissions), bit, value);
      WithBitIsUpdate(old(permissions), bit, value);
      SetThenCan(old(permissions), bit, value);
      forall b: PermBit | b != bit ensures Can(b) == old(Can(b)) {
        SetKeepsOtherBits(old(permissions), bit, value, b);
      }
    }

    method SetAll(value: bool)
      modifies this
      ensures permissions == seq(WIDTH, _ => value)
      ensures forall b: PermBit {:trigger Can(b)} :: Can(b) == value
      ensures id == old(id) && name == old(name) && getsChores == old(getsChores) && groupId == old(groupId)
    {
      permissions := Zero();
      if value {
        permissions := Not(permissions);
      }
      assert permissions == AllBits(value);
      forall b: PermBit ensures Can(b) == value {
        AllBitsCan(value, b);
      }
    }
  }

  /** The OR of every role's permission word, as the SuperRole loops build
      it starting from the zero word. */
  function OrAll(roles: seq<RoleRecord>): Word
  {
    if roles == [] then Zero() else Or(OrAll(roles[..|roles| - 1]), roles[|roles| - 1].permissions)
  }

  /** The logical OR of every role's GetsChores flag. */
  predicate AnyGetsChores(roles: seq<RoleRecord>) {
    exists i :: 0 <= i < |roles| && roles[i].getsChores
  }

  /** The synthesized SuperRole of a membership: the OR of the permission
      words and of the GetsChores flags of its roles. */
  function SuperRoleOf(roles: seq<RoleRecord>): RoleRecord
  {
    RoleRecord(0, "", OrAll(roles), AnyGetsChores(roles), 0)
  }

  /** A bit is set in the OR of the roles iff some role has it. */
  lemma {:induction false} OrAllCan(roles: seq<RoleRecord>, bit: PermBit)
    ensures HasBit(OrAll(roles), bit) <==> exists i :: 0 <= i < |roles| && roles[i].Can(bit)
  {
    if roles == [] {
      ZeroHasNoBit(bit);
    } else {
      var front := roles[..|roles| - 1];
      var last := roles[|roles| - 1];
      OrAllCan(front, bit);
      OrBit(OrAll(front), last.permissions, bit);
      assert forall i :: 0 <= i < |front| ==> front[i] == roles[i];
    }
  }

  /** ORing the roles into a SuperRole that already holds `start` keeps the
      old bits and adds exactly the roles' bits. */
  lemma OrIntoCan(start: Word, roles: seq<RoleRecord>, bit: PermBit)
    ensures HasBit(Or(start, OrAll(roles)), bit) <==> HasBit(start, bit) || exists i :: 0 <= i < |roles| && roles[i].Can(bit)
  {
    OrAllCan(roles, bit);
    OrBit(start, OrAll(roles), bit);
  }

  /** The SuperRole can do exactly what one of the member's roles can do,
      and gets chores iff one of them does. */
  lemma SuperRoleCan(roles: seq<RoleRecord>, bit: PermBit)
    ensures SuperRoleOf(roles).Can(bit) <==> exists i :: 0 <= i < |roles| && roles[i].Can(bit)
    ensures SuperRoleOf(roles).getsChores <==> exists i :: 0 <= i < |roles| && roles[i].getsChores
  {
    OrAllCan(roles, bit);
  }

  lemma OrAssoc(a: Word, b: Word, c: Word)
    ensures Or(Or(a, b), c) == Or(a, Or(b, c))
  {
    assert forall i :: 0 <= i < WIDTH ==> Or(Or(a, b), c)[i] == Or(a, Or(b, c))[i];
  }

  lemma OrZero(a: Word)
    ensures Or(a, Zero()) == a && Or(Zero(), a) == a
  {
    assert forall i :: 0 <= i < WIDTH ==> Or(a, Zero())[i] == a[i] && Or(Zero(), a)[i] == a[i];
  }

  /** The loop `for _, v := range roles { perms |= v.Permissions }`: ORs
      every role's word into `start`. From the zero word it gives the
      SuperRole's word; in general a bit ends up set iff it was set before
      or some role has it. */
  method OrInto(start: Word, roles: seq<RoleRecord>) returns (perms: Word)
    ensures perms == Or(start, OrAll(roles))
    ensures forall b: PermBit {:trigger HasBit(perms, b)} ::
      HasBit(perms, b) <==> HasBit(start, b) || exists i :: 0 <= i < |roles| && roles[i].Can(b)
    ensures start == Zero() ==> perms == OrAll(roles)
  {
    perms := start;
    OrZero(start);
    assert roles[..0] == [];
    for i := 0 to |roles|
      invariant perms == Or(start, OrAll(roles[..i]))
    {
      assert roles[..i + 1][..i] == roles[..i];
      OrAssoc(start, OrAll(roles[..i]), roles[i].permissions);
      perms := Or(perms, roles[i].permissions);
    }
    assert roles[..|roles|] == roles;
    forall b: PermBit ensures HasBit(perms, b) <==> HasBit(start, b) || exists i :: 0 <= i < |roles| && roles[i].Can(b) {
      OrIntoCan(start, roles, b);
    }
    OrZero(OrAll(roles));
  }
}
