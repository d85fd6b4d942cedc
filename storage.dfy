/** The repositories the services of `src/core` talk to (`GroupRepository`,
    `RoleRepository`, `UserRepository`, `ChoreRepository`), as one abstract
    store. The store records every call made to it, in order. What it
    answers is fixed when it is built: which calls fail and with what error,
    which ID a create call writes back into its record, and what a read
    loads into the record it is given. The SQL and Mongo adapters behind the
    interfaces are not part of this model. */
module Storage {
  import opened GoValues
  import opened Permissions
  import opened CoreTypes

  /** What a repository call reports: storage's `ErrNotFound`, or any other
      failure. */
  datatype StoreError = NotFound | Failed

  /** An error a service returns: a message it makes itself, or the
      repository's error passed through unchanged. */
  datatype Error = Message(text: string) | Store(cause: StoreError)

  const Unexpected: string := "An unexpected error occurred"

  /** One call on a repository interface, with the parts of its argument
      that the store sees. */
  datatype Call =
    | CreateGroup(name: string)
    | CreateMembership(userId: uint64, groupId: uint64)
    | CreateRole(role: RoleRecord)
    | CreateRoleAssignment(roleId: uint64, userId: uint64)
    | GetMembership(userId: uint64, groupId: uint64)
    | GetMemberRoles(userId: uint64, groupId: uint64)
    | GetGroupRoles(groupId: uint64)
    | GetGroupChores(groupId: uint64)
    | UpdateGroup(group: Group)
    | DeleteMember(userId: uint64, groupId: uint64)
    | UpdateRole(role: RoleRecord)
    | CreateChore(chore: Chore)
    | UpdateChore(chore: Chore)
    | DeleteChore(chore: Chore)
    | DeleteAssignments(assignments: seq<Assignment>)
    | InsertAssignments(assignments: seq<Assignment>)
    | RemoveRoleMember(roleId: uint64, userId: uint64)
    | AddRoleMember(roleId: uint64, userId: uint64)
    | DeleteRole(role: RoleRecord)
    | GetUserByEmail(email: string)
    | GetUserByName(username: string)
    | CreateUser(user: User)
    | GetUserMemberships(userId: uint64)

  /** The calls that change what is stored; the rest only read. */
  predicate Mutating(c: Call) {
    !(c.GetMembership? || c.GetMemberRoles? || c.GetGroupRoles? || c.GetGroupChores? ||
      c.GetUserByEmail? || c.GetUserByName? || c.GetUserMemberships?)
  }

  /** A service's `return e` of a repository error. */
  function Passed(e: Option<StoreError>): (r: Option<Error>)
    ensures r.None? <==> e.None?
    ensures e.Some? ==> r == Some(Store(e.value))
  {
    if e.Some? then Some(Store(e.value)) else None
  }

  /** A service's `errors.New("An unexpected error occurred")` in place of
      a repository error. */
  function Flattened(e: Option<StoreError>): (r: Option<Error>)
    ensures r.None? <==> e.None?
    ensures e.Some? ==> r == Some(Message(Unexpected))
  {
    if e.Some? then Some(Message(Unexpected)) else None
  }

  class Repository {
    /** Every call made so far, oldest first. */
    var calls: seq<Call>
    /** The error the store reports for a call; a call not listed succeeds. */
    const failures: map<Call, StoreError>
    /** The ID a successful create call writes back into its record. */
    const ids: map<Call, uint64>
    /** The roles `GetRoles` loads into a membership, by user and group. */
    const memberRoles: map<(uint64, uint64), seq<RoleRecord>>
    /** The roles `GetRoles` loads into a group. */
    const groupRoles: map<uint64, seq<RoleRecord>>
    /** The chores `GetChores` loads into a group. */
    const groupChores: map<uint64, seq<Chore>>
    /** The memberships `GetMemberships` loads into a user. */
    const userMemberships: map<uint64, seq<Membership>>

    constructor (failures: map<Call, StoreError>, ids: map<Call, uint64>,
                 memberRoles: map<(uint64, uint64), seq<RoleRecord>>, groupRoles: map<uint64, seq<RoleRecord>>,
                 groupChores: map<uint64, seq<Chore>>, userMemberships: map<uint64, seq<Membership>>)
      ensures calls == []
      ensures this.failures == failures && this.ids == ids && this.memberRoles == memberRoles
      ensures this.groupRoles == groupRoles && this.groupChores == groupChores
      ensures this.userMemberships == userMemberships
    {
      calls := [];
      this.failures := failures;
      this.ids := ids;
      this.memberRoles := memberRoles;
      this.groupRoles := groupRoles;
      this.groupChores := groupChores;
      this.userMemberships := userMemberships;
    }

    function Response(c: Call): (e: Option<StoreError>)
      ensures e.Some? <==> c in failures
      ensures e.Some? ==> e.value == failures[c]
    {
      if c in failures then Some(failures[c]) else None
    }

    /** The ID written back by a create call; a record the store did not
        give an ID keeps Go's zero value. */
    function IdFor(c: Call): (id: uint64)
      ensures c !in ids ==> id == 0
    {
      if c in ids then ids[c] else 0
    }

    function MemberRoles(userId: uint64, groupId: uint64): seq<RoleRecord> {
      if (userId, groupId) in memberRoles then memberRoles[(userId, groupId)] else []
    }

    function GroupRoles(groupId: uint64): seq<RoleRecord> {
      if groupId in groupRoles then groupRoles[groupId] else []
    }

    function GroupChores(groupId: uint64): seq<Chore> {
      if groupId in groupChores then groupChores[groupId] else []
    }

    function UserMemberships(userId: uint64): seq<Membership> {
      if userId in userMemberships then userMemberships[userId] else []
    }

    /** Make one call: it is recorded, and the store answers it. */
    method Perform(c: Call) returns (e: Option<StoreError>)
      modifies this
      ensures calls == old(calls) + [c]
      ensures e == Response(c)
    {
      calls := calls + [c];
      e := Response(c);
    }
  }

  /** The calls of a chain that stops at its first failing call, that call
      included. */
  function UntilFailure(r: Repository, cs: seq<Call>): (done: seq<Call>)
    ensures |done| <= |cs| && done == cs[..|done|]
    ensures forall i :: 0 <= i < |done| - 1 ==> r.Response(done[i]).None?
    ensures |done| < |cs| ==> |done| >= 1 && r.Response(done[|done| - 1]).Some?
    decreases |cs|
  {
    if cs == [] then []
    else if r.Response(cs[0]).Some? then [cs[0]]
    else [cs[0]] + UntilFailure(r, cs[1..])
  }

  /** The error of such a chain: that of its first failing call. */
  function FirstError(r: Repository, cs: seq<Call>): (e: Option<StoreError>)
    ensures e.None? <==> forall i :: 0 <= i < |cs| ==> r.Response(cs[i]).None?
    decreases |cs|
  {
    if cs == [] then None
    else if r.Response(cs[0]).Some? then r.Response(cs[0])
    else FirstError(r, cs[1..])
  }

  /** A chain whose call `k` is the first to fail makes calls `0..k` and
      returns the error of call `k`. */
  lemma {:induction false} StopsAt(r: Repository, cs: seq<Call>, k: nat)
    requires k < |cs| && r.Response(cs[k]).Some?
    requires forall i :: 0 <= i < k ==> r.Response(cs[i]).None?
    ensures UntilFailure(r, cs) == cs[..k + 1]
    ensures FirstError(r, cs) == r.Response(cs[k])
  {
    if k > 0 {
      StopsAt(r, cs[1..], k - 1);
      assert cs[..k + 1] == [cs[0]] + cs[1..][..k];
    }
  }

  /** A chain none of whose calls fails makes every call and succeeds. */
  lemma {:induction false} RunsThrough(r: Repository, cs: seq<Call>)
    requires forall i :: 0 <= i < |cs| ==> r.Response(cs[i]).None?
    ensures UntilFailure(r, cs) == cs
    ensures FirstError(r, cs).None?
  {
    if cs != [] {
      RunsThrough(r, cs[1..]);
      assert cs == [cs[0]] + cs[1..];
    }
  }

  /** The first `k` calls of the chain `plan` have been made on top of
      `base`, and each succeeded. */
  ghost predicate Progress(repo: Repository, base: seq<Call>, plan: seq<Call>, k: nat)
    reads repo
  {
    k <= |plan| && repo.calls == base + plan[..k] &&
    forall i :: 0 <= i < k ==> repo.Response(plan[i]).None?
  }

  /** The chain stopped where it should, with the error it should give. */
  ghost predicate Finished(repo: Repository, base: seq<Call>, plan: seq<Call>, e: Option<StoreError>)
    reads repo
  {
    repo.calls == base + UntilFailure(repo, plan) && e == FirstError(repo, plan)
  }

  /** Call `k` of the chain. */
  method Step(repo: Repository, ghost base: seq<Call>, ghost plan: seq<Call>, ghost k: nat, c: Call)
      returns (e: Option<StoreError>)
    requires k < |plan| && c == plan[k] && Progress(repo, base, plan, k)
    modifies repo
    ensures e == repo.Response(c)
    ensures e.Some? ==> Finished(repo, base, plan, e)
    ensures e.None? ==> Progress(repo, base, plan, k + 1)
  {
    e := repo.Perform(c);
    assert plan[..k + 1] == plan[..k] + [c];
    if e.Some? {
      StopsAt(repo, plan, k);
    }
  }

  lemma Completed(repo: Repository, base: seq<Call>, plan: seq<Call>)
    requires Progress(repo, base, plan, |plan|)
    ensures Finished(repo, base, plan, None)
  {
    RunsThrough(repo, plan);
    assert plan[..|plan|] == plan;
  }
}
