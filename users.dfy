/** `userService` of src/core/users.go: registering a user only when
    neither the email nor the username is taken, and loading a user's
    memberships with the SuperRole of each. */
module UserServices {
  import opened GoValues
  import opened PermissionBits
  import opened Permissions
  import opened CoreTypes
  import opened Storage

  /** `ErrEmailExists` and `ErrNameExists` (users.go:9-12). */
  const EmailExists: string := "Email already registered"
  const NameExists: string := "Username already registered"

  /** The answer of `CheckEmailExists` and `CheckUsernameExists` to the
      store's answer to their lookup: only `ErrNotFound` means the value is
      free; a success or any other error is reported as taken, together
      with the error. */
  function Existence(e: Option<StoreError>): (r: (bool, Option<StoreError>))
    ensures !r.0 <==> e == Some(NotFound)
    ensures r.1.Some? ==> r.0
    ensures r.1.None? <==> e.None? || e == Some(NotFound)
  {
    if e == Some(NotFound) then (false, None) else (true, e)
  }

  /** users.go:72-79. */
  method CheckEmailExists(repo: Repository, email: string) returns (taken: bool, e: Option<StoreError>)
    modifies repo
    ensures repo.calls == old(repo.calls) + [GetUserByEmail(email)]
    ensures (taken, e) == Existence(repo.Response(GetUserByEmail(email)))
  {
    e := repo.Perform(GetUserByEmail(email));
    if e == Some(NotFound) {
      return false, None;
    }
    return true, e;
  }

  /** users.go:81-88. */
  method CheckUsernameExists(repo: Repository, name: string) returns (taken: bool, e: Option<StoreError>)
    modifies repo
    ensures repo.calls == old(repo.calls) + [GetUserByName(name)]
    ensures (taken, e) == Existence(repo.Response(GetUserByName(name)))
  {
    e := repo.Perform(GetUserByName(name));
    if e == Some(NotFound) {
      return false, None;
    }
    return true, e;
  }

  /** users.go:52-70: the email is checked first, so a user whose email and
      username are both taken gets `ErrEmailExists`; `CreateUser` is called
      only when both lookups answered `ErrNotFound`. */
  method CreateUser(repo: Repository, user: User) returns (err: Option<Error>)
    modifies repo
    ensures var byEmail := GetUserByEmail(user.email);
      var byName := GetUserByName(user.username);
      var email := Existence(repo.Response(byEmail));
      var name := Existence(repo.Response(byName));
      if email.1.Some? then
        err == Passed(email.1) && repo.calls == old(repo.calls) + [byEmail]
      else if email.0 then
        err == Some(Message(EmailExists)) && repo.calls == old(repo.calls) + [byEmail]
      else if name.1.Some? then
        err == Passed(name.1) && repo.calls == old(repo.calls) + [byEmail] + [byName]
      else if name.0 then
        err == Some(Message(NameExists)) && repo.calls == old(repo.calls) + [byEmail] + [byName]
      else
        err == Passed(repo.Response(Call.CreateUser(user))) &&
        repo.calls == old(repo.calls) + [byEmail] + [byName] + [Call.CreateUser(user)]
  {
    var taken, e := CheckEmailExists(repo, user.email);
    if e.Some? {
      return Some(Store(e.value));
    } else if taken {
      return Some(Message(EmailExists));
    }
    taken, e := CheckUsernameExists(repo, user.username);
    if e.Some? {
      return Some(Store(e.value));
    } else if taken {
      return Some(Message(NameExists));
    }
    e := repo.Perform(Call.CreateUser(user));
    return Passed(e);
  }

  /** The calls `GetMemberships` makes to load the roles of each
      membership, in order. */
  function RoleLoads(ms: seq<Membership>): (cs: seq<Call>)
    ensures |cs| == |ms|
    ensures forall i :: 0 <= i < |ms| ==> cs[i] == GetMemberRoles(ms[i].user.id, ms[i].groupId)
  {
    seq(|ms|, i requires 0 <= i < |ms| => GetMemberRoles(ms[i].user.id, ms[i].groupId))
  }

  /** A membership once its roles are loaded and ORed into its SuperRole. */
  function Aggregated(repo: Repository, m: Membership): Membership {
    var roles := repo.MemberRoles(m.user.id, m.groupId);
    m.(roles := roles, superRole := m.superRole.(permissions := Or(m.superRole.permissions, OrAll(roles))))
  }

  /** The memberships with the first `k` aggregated and the rest as
      loaded. */
  function AggregatedPrefix(repo: Repository, loaded: seq<Membership>, k: int): (out: seq<Membership>)
    ensures |out| == |loaded|
    ensures forall j :: 0 <= j < |loaded| ==> out[j] == if j < k then Aggregated(repo, loaded[j]) else loaded[j]
  {
    seq(|loaded|, j requires 0 <= j < |loaded| => if j < k then Aggregated(repo, loaded[j]) else loaded[j])
  }

  lemma AggregateOne(repo: Repository, loaded: seq<Membership>, i: nat, out: seq<Membership>, m: Membership)
    requires i < |loaded| && out == AggregatedPrefix(repo, loaded, i) && m == Aggregated(repo, out[i])
    ensures out[i := m] == AggregatedPrefix(repo, loaded, i + 1)
  {
  }

  /** One turn of the loop of `GetMemberships`: load the roles of
      membership `i` and OR them into its SuperRole. */
  method AggregateAt(repo: Repository, ghost base: seq<Call>, ghost loaded: seq<Membership>, i: nat, out: seq<Membership>)
      returns (e: Option<StoreError>, next: seq<Membership>)
    requires i < |loaded| && Progress(repo, base, RoleLoads(loaded), i) && out == AggregatedPrefix(repo, loaded, i)
    modifies repo
    ensures e.Some? ==> Finished(repo, base, RoleLoads(loaded), e) && |UntilFailure(repo, RoleLoads(loaded))| == i + 1 && next == out
    ensures e.None? ==> Progress(repo, base, RoleLoads(loaded), i + 1) && next == AggregatedPrefix(repo, loaded, i + 1)
  {
    ghost var plan := RoleLoads(loaded);
    assert forall j :: 0 <= j < i ==> repo.Response(plan[j]).None?;
    e := Step(repo, base, plan, i, GetMemberRoles(out[i].user.id, out[i].groupId));
    if e.Some? {
      StopsAt(repo, plan, i);
      return e, out;
    }
    var m := out[i].(roles := repo.MemberRoles(out[i].user.id, out[i].groupId));
    var perms := OrInto(m.superRole.permissions, m.roles);
    AggregateOne(repo, loaded, i, out, m.(superRole := m.superRole.(permissions := perms)));
    next := out[i := m.(superRole := m.superRole.(permissions := perms))];
  }

  /** users.go:90-103: `ms` is `user.Memberships` before the call. The
      memberships are loaded, then each one's roles, ORed into its
      SuperRole; the first failing load stops the loop, leaving the
      memberships before it aggregated and the rest as loaded. */
  method GetMemberships(repo: Repository, user: User, ms: seq<Membership>) returns (err: Option<Error>, out: seq<Membership>)
    modifies repo
    ensures var load := GetUserMemberships(user.id);
      if repo.Response(load).Some? then
        err == Passed(repo.Response(load)) && out == ms && repo.calls == old(repo.calls) + [load]
      else
        var loaded := repo.UserMemberships(user.id);
        var plan := RoleLoads(loaded);
        var done := UntilFailure(repo, plan);
        var k := if FirstError(repo, plan).Some? then |done| - 1 else |done|;
        repo.calls == old(repo.calls) + [load] + done &&
        err == Passed(FirstError(repo, plan)) &&
        out == AggregatedPrefix(repo, loaded, k)
  {
    var e := repo.Perform(GetUserMemberships(user.id));
    if e.Some? {
      return Some(Store(e.value)), ms;
    }
    var loaded := repo.UserMemberships(user.id);
    ghost var plan := RoleLoads(loaded);
    ghost var base := repo.calls;
    assert plan[..0] == [];
    out := loaded;
    assert out == AggregatedPrefix(repo, loaded, 0);
    var i := 0;
    while i < |out|
      invariant 0 <= i <= |loaded| == |out|
      invariant Progress(repo, base, plan, i)
      invariant out == AggregatedPrefix(repo, loaded, i)
    {
      e, out := AggregateAt(repo, base, loaded, i, out);
      if e.Some? {
        return Some(Store(e.value)), out;
      }
      i := i + 1;
    }
    Completed(repo, base, plan);
    return None, out;
  }

  /** A membership loaded with a zero SuperRole ends up with exactly the
      bits of its roles. */
  lemma AggregatedCan(repo: Repository, m: Membership, bit: PermBit)
    requires m.superRole.permissions == Zero()
    ensures var roles := repo.MemberRoles(m.user.id, m.groupId);
      Aggregated(repo, m).superRole.Can(bit) <==> exists i :: 0 <= i < |roles| && roles[i].Can(bit)
  {
    var roles := repo.MemberRoles(m.user.id, m.groupId);
    OrZero(OrAll(roles));
    OrAllCan(roles, bit);
  }
}
