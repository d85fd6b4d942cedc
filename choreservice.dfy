/** `choreService` of src/core/chores.go: chore names unique within a
    group, and `Randomize`, which hands a group's chores out afresh and
    replaces the stored assignments only when every chore found a member. */
module ChoreServices {
  import opened GoValues
  import opened CoreTypes
  import opened Storage
  import opened Shuffling
  import opened Threshold
  import opened Rings
  import opened CoreDistribution
  import GroupServices

  /** The scan of chores.go:45-49 for a chore of the same name. */
  method NameTaken(chores: seq<Chore>, name: string) returns (taken: bool)
    ensures taken <==> exists i :: 0 <= i < |chores| && chores[i].name == name
    ensures taken <==> FindChore(chores, name).Some?
  {
    for i := 0 to |chores|
      invariant forall k :: 0 <= k < i ==> chores[k].name != name
    {
      if chores[i].name == name {
        return true;
      }
    }
    return false;
  }

  /** chores.go:41-54: `ch.Group` is the group with ID `ch.groupId`; its
      chores are loaded first, and a chore whose name is taken is refused. */
  method Create(repo: Repository, ch: Chore) returns (err: Option<Error>)
    modifies repo
    ensures var load := GetGroupChores(ch.groupId);
      if repo.Response(load).Some? then
        err == Some(Message(Unexpected)) && repo.calls == old(repo.calls) + [load]
      else if FindChore(repo.GroupChores(ch.groupId), ch.name).Some? then
        err == Some(Message("Chore already exists")) && repo.calls == old(repo.calls) + [load]
      else
        err == Flattened(repo.Response(CreateChore(ch))) && repo.calls == old(repo.calls) + [load] + [CreateChore(ch)]
  {
    var e := repo.Perform(GetGroupChores(ch.groupId));
    if e.Some? {
      return Some(Message(Unexpected));
    }
    var taken := NameTaken(repo.GroupChores(ch.groupId), ch.name);
    if taken {
      return Some(Message("Chore already exists"));
    }
    e := repo.Perform(CreateChore(ch));
    return Flattened(e);
  }

  /** chores.go:63-78: `ch.Group` is `group`. A renamed chore must not take
      the name of a chore of the group as the store has them; a chore that
      keeps its name is not checked. */
  method Update(repo: Repository, ch: Chore, group: Group, changed: Chore) returns (err: Option<Error>)
    modifies repo
    ensures var load := GetGroupChores(group.id);
      var update := UpdateChore(changed);
      if ch.name == changed.name then
        err == Flattened(repo.Response(update)) && repo.calls == old(repo.calls) + [update]
      else if repo.Response(load).Some? then
        err == Some(Message(Unexpected)) && repo.calls == old(repo.calls) + [load]
      else if FindChore(repo.GroupChores(group.id), changed.name).Some? then
        err == Some(Message("Chore name already in use")) && repo.calls == old(repo.calls) + [load]
      else
        err == Flattened(repo.Response(update)) && repo.calls == old(repo.calls) + [load] + [update]
  {
    if ch.name != changed.name {
      var e, g := GroupServices.GetChores(repo, group);
      if e.Some? {
        return Some(Message(Unexpected));
      }
      if FindChore(g.chores, changed.name).Some? {
        return Some(Message("Chore name already in use"));
      }
    }
    var e := repo.Perform(UpdateChore(changed));
    return Flattened(e);
  }

  /** chores.go:80-86. */
  method Delete(repo: Repository, ch: Chore) returns (err: Option<Error>)
    modifies repo
    ensures err == Flattened(repo.Response(DeleteChore(ch)))
    ensures repo.calls == old(repo.calls) + [DeleteChore(ch)]
  {
    var e := repo.Perform(DeleteChore(ch));
    return Flattened(e);
  }

  // Randomize

  /** The assignments the chores held, in chore order, skipping the chores
      that had none (`oldCa`, chores.go:92-95). */
  function Prior(cs: seq<Chore>): (r: seq<Assignment>)
    ensures |r| <= |cs|
  {
    if cs == [] then []
    else Prior(cs[..|cs| - 1]) + (if cs[|cs| - 1].assignment.Some? then [cs[|cs| - 1].assignment.value] else [])
  }

  /** Each chore with a fresh assignment: its own ID, nobody, dated `now`. */
  function Reset(cs: seq<Chore>, now: int): (r: seq<Chore>)
    ensures |r| == |cs| && AllAssigned(r)
    ensures forall i :: 0 <= i < |cs| ==>
      r[i].(assignment := cs[i].assignment) == cs[i] &&
      r[i].assignment.value.choreId == cs[i].id &&
      r[i].assignment.value.user.None? && r[i].assignment.value.dateAssigned == now
  {
    seq(|cs|, i requires 0 <= i < |cs| => cs[i].(assignment := Some(Assignment(cs[i].id, None, now))))
  }

  /** The assignments of chores that all have one (`newCa`). */
  function AssignmentsOf(cs: seq<Chore>): (r: seq<Assignment>)
    requires AllAssigned(cs)
    ensures |r| == |cs|
  {
    seq(|cs|, i requires 0 <= i < |cs| => cs[i].assignment.value)
  }

  /** Some chore was left without a member. */
  predicate Unassigned(cs: seq<Chore>)
    requires AllAssigned(cs)
  {
    exists i :: 0 <= i < |cs| && cs[i].assignment.value.user.None?
  }

  /** What `randomize(g.Chores, g.Memberships)` makes of the chores. */
  function Distributed(cs: seq<Chore>, p: seq<Membership>, js: seq<nat>): (r: seq<Chore>)
    requires |js| == |cs| && FisherYatesChoices(js) && AllAssigned(cs) && U32(|p|) != 0
    ensures |r| == |cs| && AllAssigned(r)
  {
    ShuffledAllAssigned(cs, js);
    var s := Shuffled(cs, js);
    var ws := ChoreWeights(s);
    Applied(s, UsersOf(p), OrPass(ws, Ids(UsersOf(p)), MinScoreOf(ws, |p|), |s|).picks)
  }

  /** The first loop of chores.go:92-101: keep the old assignments, then
      give every chore a fresh one. */
  method ClearAssignments(c: array<Chore>, now: int) returns (oldCa: seq<Assignment>)
    modifies c
    ensures c[..] == Reset(old(c[..]), now)
    ensures oldCa == Prior(old(c[..]))
  {
    ghost var before := c[..];
    oldCa := [];
    for i := 0 to c.Length
      invariant oldCa == Prior(before[..i])
      invariant forall k :: 0 <= k < i ==> c[k] == Reset(before, now)[k]
      invariant forall k :: i <= k < c.Length ==> c[k] == before[k]
    {
      assert before[..i + 1][..i] == before[..i];
      if c[i].assignment.Some? {
        oldCa := oldCa + [c[i].assignment.value];
      }
      c[i] := c[i].(assignment := Some(Assignment(c[i].id, None, now)));
    }
    assert before[..c.Length] == before;
  }

  /** The second loop of chores.go:104-111: collect the new assignments and
      note whether one has no member. */
  method CollectAssignments(c: array<Chore>) returns (newCa: seq<Assignment>, failed: bool)
    requires AllAssigned(c[..])
    ensures newCa == AssignmentsOf(c[..])
    ensures failed <==> Unassigned(c[..])
  {
    newCa := [];
    failed := false;
    for i := 0 to c.Length
      invariant newCa == AssignmentsOf(c[..])[..i]
      invariant failed <==> exists k :: 0 <= k < i && c[k].assignment.value.user.None?
    {
      newCa := newCa + [c[i].assignment.value];
      if newCa[i].user.None? {
        failed := true;
      }
    }
  }

  /** chores.go:88-127 with `g.Chores` as `c` and `g.Memberships` as
      `memberships`; `time.Now()` is `now` and the draws of `rand.Intn` are
      `js`. The chores always end up distributed; the store is written only
      when every chore has a member, first deleting the old assignments and
      then inserting the new ones. */
  method Randomize(repo: Repository, c: array<Chore>, memberships: seq<Membership>, now: int, js: seq<nat>)
      returns (err: Option<Error>)
    requires |js| == c.Length && IntnChoices(js) && U32(|memberships|) != 0
    modifies repo, c
    ensures FisherYatesChoices(js)
    ensures c[..] == Distributed(Reset(old(c[..]), now), memberships, js) && AllAssigned(c[..])
    ensures var remove := DeleteAssignments(Prior(old(c[..])));
      var insert := InsertAssignments(AssignmentsOf(c[..]));
      if Unassigned(c[..]) then
        err == Some(Message("Failed to distribute chores")) && repo.calls == old(repo.calls)
      else if repo.Response(remove).Some? then
        err == Some(Message(Unexpected)) && repo.calls == old(repo.calls) + [remove]
      else
        err == Flattened(repo.Response(insert)) && repo.calls == old(repo.calls) + [remove] + [insert]
  {
    var oldCa := ClearAssignments(c, now);
    IntnIsFisherYates(js);
    RandomizeMembers(c, memberships, js);
    var newCa, failed := CollectAssignments(c);
    if failed {
      return Some(Message("Failed to distribute chores"));
    }
    var e := repo.Perform(DeleteAssignments(oldCa));
    if e.Some? {
      return Some(Message(Unexpected));
    }
    e := repo.Perform(InsertAssignments(newCa));
    return Flattened(e);
  }

  /** `oldCa` holds exactly the assignments some chore had. */
  lemma {:induction false} PriorHolds(cs: seq<Chore>, a: Assignment)
    ensures a in Prior(cs) <==> exists i :: 0 <= i < |cs| && cs[i].assignment == Some(a)
  {
    if cs != [] {
      var init := cs[..|cs| - 1];
      PriorHolds(init, a);
      if exists i :: 0 <= i < |init| && init[i].assignment == Some(a) {
        var i :| 0 <= i < |init| && init[i].assignment == Some(a);
        assert cs[i] == init[i];
      }
    }
  }

  /** When every chore had an assignment, `oldCa` lists them all, in order. */
  lemma {:induction false} PriorOfAssigned(cs: seq<Chore>)
    requires AllAssigned(cs)
    ensures Prior(cs) == AssignmentsOf(cs)
  {
    if cs != [] {
      var init := cs[..|cs| - 1];
      PriorOfAssigned(init);
      assert AssignmentsOf(cs) == AssignmentsOf(init) + [cs[|cs| - 1].assignment.value];
    }
  }

  /** A group whose chores were never assigned deletes nothing. */
  lemma {:induction false} PriorOfUnassigned(cs: seq<Chore>)
    requires forall i :: 0 <= i < |cs| ==> cs[i].assignment.None?
    ensures Prior(cs) == []
  {
    if cs != [] {
      PriorOfUnassigned(cs[..|cs| - 1]);
    }
  }

  /** A shuffle of fresh assignments holds only fresh assignments. */
  lemma ShuffledFresh(cs: seq<Chore>, now: int, js: seq<nat>, i: nat)
    requires |js| == |cs| && FisherYatesChoices(js) && i < |cs|
    ensures var s := Shuffled(Reset(cs, now), js);
      |s| == |cs| && s[i].assignment.Some? && s[i].assignment.value.user.None?
  {
    var r := Reset(cs, now);
    ShuffledPermutes(r, js);
    ShuffledAllAssigned(r, js);
    var s := Shuffled(r, js);
    assert s[i] in multiset(r);
    var k :| 0 <= k < |r| && r[k] == s[i];
  }

  /** With members of distinct IDs, `Randomize` fails exactly when there is
      a chore and the threshold of the distribution is zero: then the first
      pass hands out nothing and the first chore keeps nobody; otherwise
      every chore `i` goes to member `i % len(p)`. */
  lemma DistributionFailsIff(cs: seq<Chore>, p: seq<Membership>, now: int, js: seq<nat>)
    requires |js| == |cs| && FisherYatesChoices(js) && U32(|p|) != 0 && Distinct(Ids(UsersOf(p)))
    ensures var r := Reset(cs, now);
      var d := Distributed(r, p, js);
      Unassigned(d) <==> |cs| >= 1 && MinScoreOf(ChoreWeights(Shuffled(r, js)), |p|) == 0
  {
    var r := Reset(cs, now);
    ShuffledAllAssigned(r, js);
    ShuffledPermutes(r, js);
    var s := Shuffled(r, js);
    var users := UsersOf(p);
    var ws := ChoreWeights(s);
    var minScore := MinScoreOf(ws, |p|);
    var d := Distributed(r, p, js);
    assert |p| >= 1;
    if |cs| >= 1 && minScore == 0 {
      ZeroThresholdSkipsFirstPass(s, users, 0);
      ShuffledFresh(cs, now, js, 0);
      assert d[0] == s[0];
    } else if minScore > 0 {
      forall i | 0 <= i < |d| ensures d[i].assignment.value.user.Some? {
        PositiveThresholdAssignsAll(s, users, minScore, i);
      }
    }
  }
}
