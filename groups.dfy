/** `groupService` of src/core/groups.go: creating a group with its three
    default roles, loading a membership's roles and SuperRole, and the
    permission guards in front of every change to a group, its members and
    its roles. Each service is a chain of repository calls with early
    returns; its contract gives the calls it makes and the error it returns
    for every way the chain can go. */
module GroupServices {
  import opened GoValues
  import opened PermissionBits
  import opened Permissions
  import opened CoreTypes
  import opened Storage

  /** The names of the three roles every group is created with. */
  predicate Reserved(name: string) {
    name == "Owner" || name == "Admin" || name == "Default"
  }

  /** Some role in `roles` has this name. */
  predicate AnyNamed(roles: seq<RoleRecord>, name: string) {
    exists i :: 0 <= i < |roles| && roles[i].name == name
  }

  /** `for _, r := range roles { if r.Name == name { return … } }`. */
  method ScanNames(roles: seq<RoleRecord>, name: string) returns (found: bool)
    ensures found <==> AnyNamed(roles, name)
  {
    for i := 0 to |roles|
      invariant forall j :: 0 <= j < i ==> roles[j].name != name
    {
      if roles[i].name == name {
        return true;
      }
    }
    return false;
  }

  // ---- CreateGroup

  /** A role of a new group as it is handed to `CreateRole`, before the
      store gives it an ID: every permission bit set when `all` holds, none
      otherwise. */
  function RoleFor(name: string, groupId: uint64, all: bool, getsChores: bool): RoleRecord {
    RoleRecord(0, name, if all then AllBits(true) else Zero(), getsChores, groupId)
  }

  /** `r := Role{Name: name, Group: &group, GetsChores: getsChores}`,
      followed by `r.SetAll(true)` when `all` holds: the record handed to
      `CreateRole`, before the store gives it an ID. */
  method NewRole(name: string, groupId: uint64, all: bool, getsChores: bool) returns (r: RoleRecord)
    ensures r == RoleFor(name, groupId, all, getsChores)
    ensures forall b: PermBit {:trigger r.Can(b)} :: r.Can(b) == all
  {
    var role := new Role(name, groupId, getsChores);
    if all {
      role.SetAll(true);
      assert role.permissions == AllBits(true);
    }
    r := role.Record();
    forall b: PermBit ensures r.Can(b) == all {
      AllBitsCan(all, b);
    }
  }

  /** The eight calls `CreateGroup` makes when none fails. The group and
      each role get the ID the store writes back into them. */
  function CreateGroupCalls(repo: Repository, name: string, user: User): seq<Call> {
    var groupId := repo.IdFor(Call.CreateGroup(name));
    var owner := RoleFor("Owner", groupId, true, false);
    var admin := RoleFor("Admin", groupId, true, false);
    var def := RoleFor("Default", groupId, false, true);
    [Call.CreateGroup(name), CreateMembership(user.id, groupId),
     CreateRole(owner), CreateRoleAssignment(repo.IdFor(CreateRole(owner)), user.id),
     CreateRole(admin), CreateRoleAssignment(repo.IdFor(CreateRole(admin)), user.id),
     CreateRole(def), CreateRoleAssignment(repo.IdFor(CreateRole(def)), user.id)]
  }

  /** Calls `k` and `k + 1` of the chain: create the role, then assign it
      to the user under the ID the store wrote back into it. */
  method CreateAssigned(repo: Repository, ghost base: seq<Call>, ghost plan: seq<Call>, ghost k: nat,
                        role: RoleRecord, userId: uint64) returns (e: Option<StoreError>)
    requires k + 1 < |plan| && plan[k] == CreateRole(role)
    requires plan[k + 1] == CreateRoleAssignment(repo.IdFor(CreateRole(role)), userId)
    requires Progress(repo, base, plan, k)
    modifies repo
    ensures e.Some? ==> Finished(repo, base, plan, e)
    ensures e.None? ==> Progress(repo, base, plan, k + 2)
  {
    e := Step(repo, base, plan, k, CreateRole(role));
    if e.Some? {
      return;
    }
    var created := role.(id := repo.IdFor(CreateRole(role)));
    e := Step(repo, base, plan, k + 1, CreateRoleAssignment(created.id, userId));
  }

  /** groups.go:51-99. */
  method CreateGroup(repo: Repository, name: string, user: User) returns (err: Option<Error>)
    modifies repo
    ensures repo.calls == old(repo.calls) + UntilFailure(repo, CreateGroupCalls(repo, name, user))
    ensures err == Passed(FirstError(repo, CreateGroupCalls(repo, name, user)))
  {
    ghost var plan := CreateGroupCalls(repo, name, user);
    ghost var base := repo.calls;
    assert plan[..0] == [];
    assert Progress(repo, base, plan, 0);
    var e := Step(repo, base, plan, 0, Call.CreateGroup(name));
    if e.Some? {
      return Some(Store(e.value));
    }
    var groupId := repo.IdFor(Call.CreateGroup(name));
    e := Step(repo, base, plan, 1, CreateMembership(user.id, groupId));
    if e.Some? {
      return Some(Store(e.value));
    }
    e := CreateGroupRolesFor(repo, base, name, user, groupId);
    return Passed(e);
  }

  /** Calls `2..7` of the chain: the roles Owner, Admin and Default, each
      created and assigned to the creator. */
  method CreateGroupRolesFor(repo: Repository, ghost base: seq<Call>, ghost name: string, user: User, groupId: uint64)
      returns (e: Option<StoreError>)
    requires groupId == repo.IdFor(Call.CreateGroup(name))
    requires Progress(repo, base, CreateGroupCalls(repo, name, user), 2)
    modifies repo
    ensures Finished(repo, base, CreateGroupCalls(repo, name, user), e)
  {
    ghost var plan := CreateGroupCalls(repo, name, user);
    var owner := NewRole("Owner", groupId, true, false);
    assert plan[2] == CreateRole(owner) && plan[3] == CreateRoleAssignment(repo.IdFor(CreateRole(owner)), user.id);
    e := CreateAssigned(repo, base, plan, 2, owner, user.id);
    if e.Some? {
      return;
    }
    var admin := NewRole("Admin", groupId, true, false);
    assert plan[4] == CreateRole(admin) && plan[5] == CreateRoleAssignment(repo.IdFor(CreateRole(admin)), user.id);
    e := CreateAssigned(repo, base, plan, 4, admin, user.id);
    if e.Some? {
      return;
    }
    var def := NewRole("Default", groupId, false, true);
    assert plan[6] == CreateRole(def) && plan[7] == CreateRoleAssignment(repo.IdFor(CreateRole(def)), user.id);
    e := CreateAssigned(repo, base, plan, 6, def, user.id);
    if e.Some? {
      return;
    }
    Completed(repo, base, plan);
  }

  /** What a created group holds: the creator's membership, the roles
      Owner and Admin with every permission, the role Default with none but
      with chores, and each of the three assigned to the creator under the
      ID the store gave it. Every call of the chain changes the store. */
  lemma CreateGroupRoles(repo: Repository, name: string, user: User)
    ensures var cs := CreateGroupCalls(repo, name, user);
      |cs| == 8 && (forall i :: 0 <= i < 8 ==> Mutating(cs[i])) &&
      cs[1] == CreateMembership(user.id, repo.IdFor(cs[0])) &&
      cs[2].CreateRole? && cs[4].CreateRole? && cs[6].CreateRole? &&
      cs[2].role.name == "Owner" && cs[4].role.name == "Admin" && cs[6].role.name == "Default" &&
      (forall b: PermBit :: cs[2].role.Can(b) && cs[4].role.Can(b) && !cs[6].role.Can(b)) &&
      !cs[2].role.getsChores && !cs[4].role.getsChores && cs[6].role.getsChores &&
      (forall k :: k in {2, 4, 6} ==> cs[k].role.groupId == repo.IdFor(cs[0]) &&
                                      cs[k + 1] == CreateRoleAssignment(repo.IdFor(cs[k]), user.id))
  {
    forall b: PermBit ensures HasBit(AllBits(true), b) && !HasBit(Zero(), b) {
      AllBitsCan(true, b);
      ZeroHasNoBit(b);
    }
  }

  // ---- Loading roles

  /** The call `GetRoles` makes for a membership. */
  function RolesOf(mem: Membership): Call {
    GetMemberRoles(mem.user.id, mem.groupId)
  }

  /** Whether a membership's SuperRole grants the bit once its roles are
      loaded from the store. */
  predicate Grants(repo: Repository, mem: Membership, bit: PermBit) {
    SuperRoleOf(repo.MemberRoles(mem.user.id, mem.groupId)).Can(bit)
  }

  /** `GetRoles` on a membership (groups.go:112-119): the store loads the
      roles, and `BuildSuperRole` runs whether or not that failed. */
  method GetRoles(repo: Repository, mem: Membership) returns (e: Option<StoreError>, m: Membership)
    modifies repo
    ensures repo.calls == old(repo.calls) + [RolesOf(mem)]
    ensures e == repo.Response(RolesOf(mem))
    ensures m.user == mem.user && m.groupId == mem.groupId
    ensures m.roles == if e.None? then repo.MemberRoles(mem.user.id, mem.groupId) else mem.roles
    ensures m.superRole == SuperRoleOf(m.roles)
  {
    e := repo.Perform(RolesOf(mem));
    m := mem;
    if e.None? {
      m := m.(roles := repo.MemberRoles(mem.user.id, mem.groupId));
    }
    m := m.(superRole := SuperRoleOf(m.roles));
  }

  /** groups.go:177-189: load the membership, then its roles, then OR the
      roles' words into the SuperRole the membership already has. */
  method GetMembership(repo: Repository, mem: Membership) returns (err: Option<Error>, m: Membership)
    modifies repo
    ensures var load := Call.GetMembership(mem.user.id, mem.groupId);
      var roles := GetMemberRoles(mem.user.id, mem.groupId);
      if repo.Response(load).Some? then
        err == Passed(repo.Response(load)) && m == mem && repo.calls == old(repo.calls) + [load]
      else if repo.Response(roles).Some? then
        err == Passed(repo.Response(roles)) && m == mem && repo.calls == old(repo.calls) + [load] + [roles]
      else
        err.None? && repo.calls == old(repo.calls) + [load] + [roles] &&
        m.roles == repo.MemberRoles(mem.user.id, mem.groupId) &&
        m == mem.(roles := m.roles, superRole := mem.superRole.(permissions := Or(mem.superRole.permissions, OrAll(m.roles))))
    ensures err.None? ==> forall b: PermBit {:trigger m.superRole.Can(b)} ::
      m.superRole.Can(b) <==> mem.superRole.Can(b) || exists i :: 0 <= i < |m.roles| && m.roles[i].Can(b)
  {
    var e := repo.Perform(Call.GetMembership(mem.user.id, mem.groupId));
    if e.Some? {
      return Some(Store(e.value)), mem;
    }
    e := repo.Perform(GetMemberRoles(mem.user.id, mem.groupId));
    if e.Some? {
      return Some(Store(e.value)), mem;
    }
    var roles := repo.MemberRoles(mem.user.id, mem.groupId);
    var perms := OrInto(mem.superRole.permissions, roles);
    m := mem.(roles := roles, superRole := mem.superRole.(permissions := perms));
    err := None;
  }

  // ---- Guards

  /** groups.go:121-131. */
  method UpdateGroup(repo: Repository, group: Group, user: User) returns (err: Option<Error>)
    requires FindMember(group.memberships, user.id).Some?
    modifies repo
    ensures var mem := FindMember(group.memberships, user.id).value;
      var load := RolesOf(mem);
      if repo.Response(load).Some? then
        err == Passed(repo.Response(load)) && repo.calls == old(repo.calls) + [load]
      else if !Grants(repo, mem, EditGroup) then
        err == Some(Message("Insufficient permissions")) && repo.calls == old(repo.calls) + [load]
      else
        err == Passed(repo.Response(Call.UpdateGroup(group))) && repo.calls == old(repo.calls) + [load] + [Call.UpdateGroup(group)]
  {
    var mem := FindMember(group.memberships, user.id).value;
    var e;
    e, mem := GetRoles(repo, mem);
    if e.Some? {
      return Some(Store(e.value));
    }
    if !mem.superRole.Can(EditGroup) {
      return Some(Message("Insufficient permissions"));
    }
    e := repo.Perform(Call.UpdateGroup(group));
    return Passed(e);
  }

  /** groups.go:133-153: a non-member cannot edit; a member can iff its
      SuperRole has one of the editing bits. */
  method CanEdit(group: Group, user: User) returns (ok: bool)
    ensures ok <==> match FindMember(group.memberships, user.id)
                    case None => false
                    case Some(mem) => mem.superRole.CanEdit()
  {
    var ms := group.memberships;
    var isMember := false;
    var mem: Membership;
    var i := 0;
    while i < |ms|
      invariant 0 <= i <= |ms|
      invariant forall j :: 0 <= j < i ==> ms[j].user.id != user.id
    {
      if ms[i].user.id == user.id {
        isMember := true;
        mem := ms[i];
        FindMemberAt(ms, user.id, i);
        break;
      }
      i := i + 1;
    }
    if !isMember {
      return false;
    }
    if !mem.superRole.CanEdit() {
      return false;
    }
    return true;
  }

  /** groups.go:155-175: `mem.Group` is `group`. The caller needs
      EditMembers, and a member holding a role named Owner is never
      deleted. Every repository error becomes the same message. */
  method DeleteMember(repo: Repository, group: Group, mem: Membership, user: User) returns (err: Option<Error>)
    requires FindMember(group.memberships, user.id).Some?
    modifies repo
    ensures var auth := FindMember(group.memberships, user.id).value;
      var target := repo.MemberRoles(mem.user.id, mem.groupId);
      var delete := Call.DeleteMember(mem.user.id, mem.groupId);
      if repo.Response(RolesOf(auth)).Some? then
        err == Some(Message(Unexpected)) && repo.calls == old(repo.calls) + [RolesOf(auth)]
      else if !Grants(repo, auth, EditMembers) then
        err == Some(Message("You do not have permission to remove members!")) && repo.calls == old(repo.calls) + [RolesOf(auth)]
      else if repo.Response(RolesOf(mem)).Some? then
        err == Some(Message(Unexpected)) && repo.calls == old(repo.calls) + [RolesOf(auth)] + [RolesOf(mem)]
      else if AnyNamed(target, "Owner") then
        err == Some(Message("Cannot delete owner")) && repo.calls == old(repo.calls) + [RolesOf(auth)] + [RolesOf(mem)]
      else
        err == Flattened(repo.Response(delete)) && repo.calls == old(repo.calls) + [RolesOf(auth)] + [RolesOf(mem)] + [delete]
  {
    var authMem := FindMember(group.memberships, user.id).value;
    var e;
    e, authMem := GetRoles(repo, authMem);
    if e.Some? {
      return Some(Message(Unexpected));
    }
    if !authMem.superRole.Can(EditMembers) {
      return Some(Message("You do not have permission to remove members!"));
    }
    var target;
    e, target := GetRoles(repo, mem);
    if e.Some? {
      return Some(Message(Unexpected));
    }
    var owner := ScanNames(target.roles, "Owner");
    if owner {
      return Some(Message("Cannot delete owner"));
    }
    e := repo.Perform(Call.DeleteMember(mem.user.id, mem.groupId));
    return Flattened(e);
  }

  /** groups.go:191-204: the caller needs EditMembers. */
  method AddMember(repo: Repository, group: Group, mem: Membership, user: User) returns (err: Option<Error>)
    requires FindMember(group.memberships, user.id).Some?
    modifies repo
    ensures var auth := FindMember(group.memberships, user.id).value;
      var create := CreateMembership(mem.user.id, mem.groupId);
      if repo.Response(RolesOf(auth)).Some? then
        err == Some(Message(Unexpected)) && repo.calls == old(repo.calls) + [RolesOf(auth)]
      else if !Grants(repo, auth, EditMembers) then
        err == Some(Message("You do not have permission to add members!")) && repo.calls == old(repo.calls) + [RolesOf(auth)]
      else
        err == Flattened(repo.Response(create)) && repo.calls == old(repo.calls) + [RolesOf(auth)] + [create]
  {
    var authMem := FindMember(group.memberships, user.id).value;
    var e;
    e, authMem := GetRoles(repo, authMem);
    if e.Some? {
      return Some(Message(Unexpected));
    }
    if !authMem.superRole.Can(EditMembers) {
      return Some(Message("You do not have permission to add members!"));
    }
    e := repo.Perform(CreateMembership(mem.user.id, mem.groupId));
    return Flattened(e);
  }

  /** groups.go:206-226: `role.Group` is `group`. The caller needs
      EditRoles, and a name already taken by a role of the group is
      refused. */
  method AddRole(repo: Repository, group: Group, role: RoleRecord, user: User) returns (err: Option<Error>)
    requires FindMember(group.memberships, user.id).Some?
    modifies repo
    ensures var auth := FindMember(group.memberships, user.id).value;
      var load := GetGroupRoles(group.id);
      if repo.Response(RolesOf(auth)).Some? then
        err == Some(Message(Unexpected)) && repo.calls == old(repo.calls) + [RolesOf(auth)]
      else if !Grants(repo, auth, EditRoles) then
        err == Some(Message("You do not have permission to add roles!")) && repo.calls == old(repo.calls) + [RolesOf(auth)]
      else if repo.Response(load).Some? then
        err == Some(Message(Unexpected)) && repo.calls == old(repo.calls) + [RolesOf(auth)] + [load]
      else if AnyNamed(repo.GroupRoles(group.id), role.name) then
        err == Some(Message("Role already exists")) && repo.calls == old(repo.calls) + [RolesOf(auth)] + [load]
      else
        err == Flattened(repo.Response(CreateRole(role))) && repo.calls == old(repo.calls) + [RolesOf(auth)] + [load] + [CreateRole(role)]
  {
    var authMem := FindMember(group.memberships, user.id).value;
    var e;
    e, authMem := GetRoles(repo, authMem);
    if e.Some? {
      return Some(Message(Unexpected));
    }
    if !authMem.superRole.Can(EditRoles) {
      return Some(Message("You do not have permission to add roles!"));
    }
    e := repo.Perform(GetGroupRoles(group.id));
    if e.Some? {
      return Some(Message(Unexpected));
    }
    var taken := ScanNames(repo.GroupRoles(group.id), role.name);
    if taken {
      return Some(Message("Role already exists"));
    }
    e := repo.Perform(CreateRole(role));
    return Flattened(e);
  }

  /** groups.go:228-247: the caller needs EditRoles; the stored role must
      exist and must not be one of the three reserved roles. The error of
      reloading the group's roles is ignored: the group keeps the roles it
      had. */
  method UpdateRole(repo: Repository, group: Group, role: RoleRecord, user: User) returns (err: Option<Error>)
    requires FindMember(group.memberships, user.id).Some?
    modifies repo
    ensures var auth := FindMember(group.memberships, user.id).value;
      var load := GetGroupRoles(group.id);
      var roles := if repo.Response(load).None? then repo.GroupRoles(group.id) else group.roles;
      var stored := FindRole(roles, role.id);
      if repo.Response(RolesOf(auth)).Some? then
        err == Some(Message(Unexpected)) && repo.calls == old(repo.calls) + [RolesOf(auth)]
      else if !Grants(repo, auth, EditRoles) then
        err == Some(Message("You do not have permission to update roles")) && repo.calls == old(repo.calls) + [RolesOf(auth)]
      else if stored.None? then
        err == Some(Message("Invalid request")) && repo.calls == old(repo.calls) + [RolesOf(auth)] + [load]
      else if Reserved(stored.value.name) then
        err == Some(Message("Cannot make changes to Owner, Admin, or Default roles")) && repo.calls == old(repo.calls) + [RolesOf(auth)] + [load]
      else
        err == Flattened(repo.Response(Call.UpdateRole(role))) && repo.calls == old(repo.calls) + [RolesOf(auth)] + [load] + [Call.UpdateRole(role)]
  {
    var authMem := FindMember(group.memberships, user.id).value;
    var e;
    e, authMem := GetRoles(repo, authMem);
    if e.Some? {
      return Some(Message(Unexpected));
    }
    if !authMem.superRole.Can(EditRoles) {
      return Some(Message("You do not have permission to update roles"));
    }
    var g := group;
    e := repo.Perform(GetGroupRoles(group.id));
    if e.None? {
      g := g.(roles := repo.GroupRoles(group.id));
    }
    var oldRole := FindRole(g.roles, role.id);
    if oldRole.None? {
      return Some(Message("Invalid request"));
    } else if Reserved(oldRole.value.name) {
      return Some(Message("Cannot make changes to Owner, Admin, or Default roles"));
    }
    e := repo.Perform(Call.UpdateRole(role));
    return Flattened(e);
  }

  /** groups.go:249-254: load the group's chores. */
  method GetChores(repo: Repository, group: Group) returns (err: Option<Error>, g: Group)
    modifies repo
    ensures repo.calls == old(repo.calls) + [GetGroupChores(group.id)]
    ensures err == Flattened(repo.Response(GetGroupChores(group.id)))
    ensures g == if err.None? then group.(chores := repo.GroupChores(group.id)) else group
  {
    var e := repo.Perform(GetGroupChores(group.id));
    if e.Some? {
      return Some(Message(Unexpected)), group;
    }
    return None, group.(chores := repo.GroupChores(group.id));
  }
}
