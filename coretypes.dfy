/** The records of `src/core/types.go` the chore engine and the services
    work on, as values. A Go pointer field that may be nil becomes an
    `Option`; a pointer that the code always follows without a nil check
    (`Membership.User`) becomes the value itself. Timestamps are opaque
    integers. */
module CoreTypes {
  import opened GoValues
  import opened Permissions

  datatype User = User(id: uint64, username: string, email: string)

  /** `ChoreAssignment`: the chore it belongs to is recorded by ID. */
  datatype Assignment = Assignment(choreId: int, user: Option<User>, dateAssigned: int)

  datatype Chore = Chore(id: int, name: string, duration: int, groupId: uint64, assignment: Option<Assignment>)

  datatype Membership = Membership(user: User, groupId: uint64, roles: seq<RoleRecord>, superRole: RoleRecord)

  datatype Group = Group(id: uint64, name: string, memberships: seq<Membership>, roles: seq<RoleRecord>, chores: seq<Chore>)

  /** The users the memberships point to, in order. */
  function UsersOf(p: seq<Membership>): (us: seq<User>)
    ensures |us| == |p| && forall i :: 0 <= i < |p| ==> us[i] == p[i].user
  {
    seq(|p|, i requires 0 <= i < |p| => p[i].user)
  }

  /** The IDs of a sequence of users, in order. */
  function Ids(us: seq<User>): (ids: seq<uint64>)
    ensures |ids| == |us| && forall i :: 0 <= i < |us| ==> ids[i] == us[i].id
  {
    seq(|us|, i requires 0 <= i < |us| => us[i].id)
  }

  /* The lookups `Group.FindMember`, `Group.FindRole` and `Group.FindChore`
     are not part of this model; they are taken to return the first record
     that matches, or nil. */

  /** The first membership of the user with this ID. */
  function FindMember(ms: seq<Membership>, userId: uint64): (r: Option<Membership>)
    ensures r.None? <==> forall i :: 0 <= i < |ms| ==> ms[i].user.id != userId
    ensures r.Some? ==> exists i :: 0 <= i < |ms| && ms[i] == r.value && ms[i].user.id == userId &&
                                    forall j :: 0 <= j < i ==> ms[j].user.id != userId
  {
    if ms == [] then None
    else if ms[0].user.id == userId then Some(ms[0])
    else FindMember(ms[1..], userId)
  }

  /** The first membership of the user with this username. */
  function FindMemberNamed(ms: seq<Membership>, username: string): (r: Option<Membership>)
    ensures r.None? <==> forall i :: 0 <= i < |ms| ==> ms[i].user.username != username
    ensures r.Some? ==> exists i :: 0 <= i < |ms| && ms[i] == r.value && ms[i].user.username == username &&
                                    forall j :: 0 <= j < i ==> ms[j].user.username != username
  {
    if ms == [] then None
    else if ms[0].user.username == username then Some(ms[0])
    else FindMemberNamed(ms[1..], username)
  }

  /** The first role with this ID. */
  function FindRole(roles: seq<RoleRecord>, id: uint64): (r: Option<RoleRecord>)
    ensures r.None? <==> forall i :: 0 <= i < |roles| ==> roles[i].id != id
    ensures r.Some? ==> exists i :: 0 <= i < |roles| && roles[i] == r.value && roles[i].id == id &&
                                    forall j :: 0 <= j < i ==> roles[j].id != id
  {
    if roles == [] then None
    else if roles[0].id == id then Some(roles[0])
    else FindRole(roles[1..], id)
  }

  /** The first chore with this name. */
  function FindChore(chores: seq<Chore>, name: string): (r: Option<Chore>)
    ensures r.None? <==> forall i :: 0 <= i < |chores| ==> chores[i].name != name
    ensures r.Some? ==> exists i :: 0 <= i < |chores| && chores[i] == r.value && chores[i].name == name &&
                                    forall j :: 0 <= j < i ==> chores[j].name != name
  {
    if chores == [] then None
    else if chores[0].name == name then Some(chores[0])
    else FindChore(chores[1..], name)
  }

  /** A search that stops at the first membership of the user finds what
      `FindMember` finds. */
  lemma {:induction false} FindMemberAt(ms: seq<Membership>, userId: uint64, i: nat)
    requires i < |ms| && ms[i].user.id == userId
    requires forall j :: 0 <= j < i ==> ms[j].user.id != userId
    ensures FindMember(ms, userId) == Some(ms[i])
  {
    if i > 0 {
      FindMemberAt(ms[1..], userId, i - 1);
    }
  }
}
