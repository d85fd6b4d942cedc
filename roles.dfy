/** `roleService` of src/core/roles.go: the guards that keep the reserved
    roles Owner, Admin and Default intact and role names unique within a
    group. Every repository error is reported as the same message. */
module RoleServices {
  import opened GoValues
  import opened Permissions
  import opened CoreTypes
  import opened Storage
  import opened GroupServices

  /** roles.go:38-46: nobody is removed from the Owner role. */
  method RemoveMember(repo: Repository, role: RoleRecord, userId: uint64) returns (err: Option<Error>)
    modifies repo
    ensures if role.name == "Owner" then
        err == Some(Message("Cannot remove owner")) && repo.calls == old(repo.calls)
      else
        err == Flattened(repo.Response(RemoveRoleMember(role.id, userId))) &&
        repo.calls == old(repo.calls) + [RemoveRoleMember(role.id, userId)]
  {
    if role.name == "Owner" {
      return Some(Message("Cannot remove owner"));
    }
    var e := repo.Perform(RemoveRoleMember(role.id, userId));
    return Flattened(e);
  }

  /** roles.go:48-60: `role.Group` is `group`. Nobody is added to the Owner
      role, and only a member of the group, found by username, is added. */
  method AddMember(repo: Repository, role: RoleRecord, group: Group, username: string) returns (err: Option<Error>)
    modifies repo
    ensures var mem := FindMemberNamed(group.memberships, username);
      if role.name == "Owner" then
        err == Some(Message("There can only be one owner")) && repo.calls == old(repo.calls)
      else if mem.None? then
        err == Some(Message("Member not found")) && repo.calls == old(repo.calls)
      else
        err == Flattened(repo.Response(AddRoleMember(role.id, mem.value.user.id))) &&
        repo.calls == old(repo.calls) + [AddRoleMember(role.id, mem.value.user.id)]
  {
    if role.name == "Owner" {
      return Some(Message("There can only be one owner"));
    }
    var mem := FindMemberNamed(group.memberships, username);
    if mem.None? {
      return Some(Message("Member not found"));
    }
    var e := repo.Perform(AddRoleMember(role.id, mem.value.user.id));
    return Flattened(e);
  }

  /** roles.go:66-85: `role.Group` is `group`. A reserved role is never
      changed. A renamed role must not take the name of any role of the
      group as the store has them; a role that keeps its name is not
      checked. */
  method Update(repo: Repository, role: RoleRecord, group: Group, newRole: RoleRecord) returns (err: Option<Error>)
    modifies repo
    ensures var load := GetGroupRoles(group.id);
      var update := Call.UpdateRole(newRole);
      if Reserved(role.name) then
        err == Some(Message("Cannot make changes to Owner, Admin, or Default roles")) && repo.calls == old(repo.calls)
      else if repo.Response(load).Some? then
        err == Some(Message(Unexpected)) && repo.calls == old(repo.calls) + [load]
      else if role.name != newRole.name && AnyNamed(repo.GroupRoles(group.id), newRole.name) then
        err == Some(Message("Role name already exists")) && repo.calls == old(repo.calls) + [load]
      else
        err == Flattened(repo.Response(update)) && repo.calls == old(repo.calls) + [load] + [update]
  {
    if Reserved(role.name) {
      return Some(Message("Cannot make changes to Owner, Admin, or Default roles"));
    }
    var e := repo.Perform(GetGroupRoles(group.id));
    if e.Some? {
      return Some(Message(Unexpected));
    }
    if role.name != newRole.name {
      var taken := ScanNames(repo.GroupRoles(group.id), newRole.name);
      if taken {
        return Some(Message("Role name already exists"));
      }
    }
    e := repo.Perform(Call.UpdateRole(newRole));
    return Flattened(e);
  }

  /** `fmt.Sprintf("Cannot delete %s role", name)`. */
  function CannotDelete(name: string): (msg: string)
    ensures |msg| == |name| + 19
    ensures msg[..14] == "Cannot delete " && msg[|msg| - 5..] == " role"
    ensures msg[14..|msg| - 5] == name
  {
    "Cannot delete " + name + " role"
  }

  /** roles.go:87-97: a reserved role is never deleted. */
  method Delete(repo: Repository, role: RoleRecord) returns (err: Option<Error>)
    modifies repo
    ensures if Reserved(role.name) then
        err == Some(Message(CannotDelete(role.name))) && repo.calls == old(repo.calls)
      else
        err == Flattened(repo.Response(DeleteRole(role))) && repo.calls == old(repo.calls) + [DeleteRole(role)]
  {
    if Reserved(role.name) {
      return Some(Message(CannotDelete(role.name)));
    }
    var e := repo.Perform(DeleteRole(role));
    return Flattened(e);
  }
}
