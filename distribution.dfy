/** The chore engine on `core.Chore`, shared by three identical copies in
    the source: `randomize`/`rotate` in src/core/chores.go, and `Randomize`/
    `Rotate` in src/core/dist/distribute.go (both over `[]Membership`) and
    in src/core/chores/chores.go (over `[]User`, whose loop reads
    `p[rIndex].ID` instead of `p[rIndex].User.ID`). The people are given to
    the methods here as the users they stand for.

    `Randomize` shuffles the chores, computes the threshold
    `minScore = sum(Duration / 5) / len(p)` in uint32 arithmetic, and hands
    out the chores round robin: the chore at position `i` goes to the
    person in slot `rIndex` when that person's score is below the threshold
    or every person has been visited once (`allChecked`). */
module CoreDistribution {
  import opened GoValues
  import opened CoreTypes
  import opened Shuffling
  import opened Threshold
  import opened Rings
  import opened RoundRobin

  /** The weight of a chore: `c.Duration / 5`, truncated as Go does. */
  function Weight(ch: Chore): int {
    Div5(ch.duration)
  }

  function ChoreWeights(cs: seq<Chore>): (ws: seq<int>)
    ensures |ws| == |cs| && forall i :: 0 <= i < |cs| ==> ws[i] == Weight(cs[i])
  {
    seq(|cs|, i requires 0 <= i < |cs| => Weight(cs[i]))
  }

  /** The threshold loop and the division by `uint32(len(p))`, which panics
      when that is zero. */
  method MinScore(c: array<Chore>, people: nat) returns (minScore: uint32)
    requires U32(people) != 0
    ensures minScore == MinScoreOf(ChoreWeights(c[..]), people)
  {
    ghost var cs := c[..];
    minScore := 0;
    var i := 0;
    while i < c.Length
      invariant 0 <= i <= c.Length
      invariant minScore == WeightSum(ChoreWeights(cs[..i]))
    {
      SumStep(cs, i);
      assert cs[i] == c[i];
      minScore := U32(minScore + U32(Weight(c[i])));
      i := i + 1;
    }
    assert cs[..c.Length] == cs;
    var total, n := minScore, U32(people);
    DivLe(total, n);
    minScore := total / n;
  }

  /** One iteration of the threshold loop. */
  lemma SumStep(cs: seq<Chore>, i: nat)
    requires i < |cs|
    ensures WeightSum(ChoreWeights(cs[..i + 1])) == U32(WeightSum(ChoreWeights(cs[..i])) + U32(Weight(cs[i])))
  {
    assert ChoreWeights(cs[..i + 1]) == ChoreWeights(cs[..i]) + [Weight(cs[i])];
    WeightSumSnoc(ChoreWeights(cs[..i]), Weight(cs[i]));
  }

  /** `scores[id]` of a Go `map[uint64]int`: a missing key reads as 0. */
  function Score(scores: map<uint64, int>, id: uint64): int {
    if id in scores then scores[id] else 0
  }

  /** What the first `k` iterations of the assignment loop decided: for
      every chore, the slot of the person it went to, or `None`; and the
      score map. */
  datatype Pass = Pass(picks: seq<Option<nat>>, scores: map<uint64, int>)

  /** The assignment loop described without `rIndex` and `allChecked`:
      iteration `i` looks at the slot the ring has reached, and every person
      has been checked once `i >= len(p)`. */
  function OrPass(ws: seq<int>, keys: seq<uint64>, minScore: uint32, k: nat): (r: Pass)
    requires k <= |ws| && |keys| >= 1
    ensures |r.picks| == k
  {
    if k == 0 then Pass([], map[])
    else
      var prev := OrPass(ws, keys, minScore, k - 1);
      var i := k - 1;
      var slot := SlotOf(i, |keys|);
      var key := keys[slot];
      if U32(Score(prev.scores, key)) < minScore || i >= |keys|
      then Pass(prev.picks + [Some(slot)], prev.scores[key := Score(prev.scores, key) + ws[i]])
      else Pass(prev.picks + [None], prev.scores)
  }

  /** `c.Assignment.User = u`, on a chore that has an assignment. */
  function AssignedTo(ch: Chore, u: User): Chore
    requires ch.assignment.Some?
  {
    ch.(assignment := Some(ch.assignment.value.(user := Some(u))))
  }

  /** The chore after the pass decided `pick` for it. */
  function AfterPick(ch: Chore, users: seq<User>, pick: Option<nat>): Chore
    requires ch.assignment.Some?
  {
    if pick.Some? && pick.value < |users| then AssignedTo(ch, users[pick.value]) else ch
  }

  predicate AllAssigned(cs: seq<Chore>) {
    forall i :: 0 <= i < |cs| ==> cs[i].assignment.Some?
  }

  /** The chores after the pass. */
  function Applied(cs: seq<Chore>, users: seq<User>, picks: seq<Option<nat>>): (r: seq<Chore>)
    requires AllAssigned(cs) && |picks| == |cs|
    ensures |r| == |cs|
  {
    seq(|cs|, i requires 0 <= i < |cs| => AfterPick(cs[i], users, picks[i]))
  }

  /** A longer run of the loop only appends to the decisions. */
  lemma {:induction false} OrPassPrefix(ws: seq<int>, keys: seq<uint64>, minScore: uint32, k: nat, k': nat)
    requires k <= k' <= |ws| && |keys| >= 1
    ensures OrPass(ws, keys, minScore, k).picks == OrPass(ws, keys, minScore, k').picks[..k]
    decreases k'
  {
    if k < k' {
      OrPassPrefix(ws, keys, minScore, k, k' - 1);
      assert OrPass(ws, keys, minScore, k').picks[..k' - 1] == OrPass(ws, keys, minScore, k' - 1).picks;
    }
  }

  /** The assignment loop, with `rIndex` and `allChecked` as in the source.
      It returns the local `scores` map so that its meaning can be stated. */
  method AssignPass(c: array<Chore>, users: seq<User>, minScore: uint32) returns (scores: map<uint64, int>)
    requires |users| >= 1 && AllAssigned(c[..])
    modifies c
    ensures var r := OrPass(ChoreWeights(old(c[..])), Ids(users), minScore, c.Length);
      scores == r.scores && c[..] == Applied(old(c[..]), users, r.picks)
  {
    ghost var ws := ChoreWeights(c[..]);
    ghost var keys := Ids(users);
    var n := |users|;
    scores := map[];
    var rIndex := 0;
    var allChecked := false;
    var i := 0;
    while i < c.Length
      invariant 0 <= i <= c.Length
      invariant rIndex == RIndexAt(i, n)
      invariant allChecked <==> i > n
      invariant scores == OrPass(ws, keys, minScore, i).scores
      invariant c[..] == AppliedPrefix(old(c[..]), users, OrPass(ws, keys, minScore, i).picks)
    {
      WrapCheck(i, n);
      if rIndex >= n {
        allChecked := true;
        rIndex := 0;
      }
      ghost var before, scoresBefore := c[..], scores;
      var id := users[rIndex].id;
      ghost var taken := U32(Score(scores, id)) < minScore || allChecked;
      if U32(Score(scores, id)) < minScore || allChecked {
        c[i] := AssignedTo(c[i], users[rIndex]);
        scores := scores[id := Score(scores, id) + Weight(c[i])];
      }
      IterationKeeps(old(c[..]), users, minScore, i, before, scoresBefore, taken, c[..], scores);
      rIndex := rIndex + 1;
      i := i + 1;
    }
    AppliedPrefixFull(old(c[..]), users, OrPass(ws, keys, minScore, i).picks);
  }

  /** The chores once the decisions `picks` for the first `|picks|` of them
      are carried out. */
  ghost function AppliedPrefix(cs: seq<Chore>, users: seq<User>, picks: seq<Option<nat>>): (r: seq<Chore>)
    requires AllAssigned(cs) && |picks| <= |cs|
    ensures |r| == |cs|
  {
    seq(|cs|, k requires 0 <= k < |cs| => if k < |picks| then AfterPick(cs[k], users, picks[k]) else cs[k])
  }

  lemma AppliedPrefixFull(cs: seq<Chore>, users: seq<User>, picks: seq<Option<nat>>)
    requires AllAssigned(cs) && |picks| == |cs|
    ensures AppliedPrefix(cs, users, picks) == Applied(cs, users, picks)
  {
  }

  lemma AppliedPrefixStep(cs: seq<Chore>, users: seq<User>, picks: seq<Option<nat>>, pick: Option<nat>)
    requires AllAssigned(cs) && |picks| < |cs|
    ensures AppliedPrefix(cs, users, picks)[|picks|] == cs[|picks|]
    ensures AppliedPrefix(cs, users, picks)[|picks| := AfterPick(cs[|picks|], users, pick)] == AppliedPrefix(cs, users, picks + [pick])
  {
  }

  /** One iteration of the loop body, with `rIndex` at the slot, carries the
      pass from `i` decisions to `i + 1`. */
  lemma IterationKeeps(cs: seq<Chore>, users: seq<User>, minScore: uint32, i: nat,
                       before: seq<Chore>, scoresBefore: map<uint64, int>, taken: bool,
                       after: seq<Chore>, scoresAfter: map<uint64, int>)
    requires AllAssigned(cs) && |users| >= 1 && i < |cs|
    requires var prev := OrPass(ChoreWeights(cs), Ids(users), minScore, i);
      before == AppliedPrefix(cs, users, prev.picks) && scoresBefore == prev.scores
    requires var id := users[SlotOf(i, |users|)].id;
      taken == (U32(Score(scoresBefore, id)) < minScore || i >= |users|) &&
      after == (if taken then before[i := AssignedTo(before[i], users[SlotOf(i, |users|)])] else before) &&
      scoresAfter == (if taken then scoresBefore[id := Score(scoresBefore, id) + Weight(after[i])] else scoresBefore)
    ensures var next := OrPass(ChoreWeights(cs), Ids(users), minScore, i + 1);
      after == AppliedPrefix(cs, users, next.picks) && scoresAfter == next.scores
  {
    var ws, keys := ChoreWeights(cs), Ids(users);
    var prev := OrPass(ws, keys, minScore, i);
    var slot := SlotOf(i, |users|);
    var pick := if taken then Some(slot) else None;
    AppliedPrefixStep(cs, users, prev.picks, pick);
    assert after == before[i := AfterPick(cs[i], users, pick)];
    assert keys[slot] == users[slot].id && ws[i] == Weight(after[i]);
    assert OrPass(ws, keys, minScore, i + 1).picks == prev.picks + [pick];
    assert OrPass(ws, keys, minScore, i + 1).scores == scoresAfter;
  }

  /** The whole of `randomize`. The draws of `rand.Intn(i)` are the
      parameter `js`; the result is stated through the shuffled chores. */
  method Randomize(c: array<Chore>, users: seq<User>, js: seq<nat>)
    requires |js| == c.Length && IntnChoices(js)
    requires U32(|users|) != 0 && AllAssigned(c[..])
    modifies c
    ensures |users| >= 1 && FisherYatesChoices(js)
    ensures var s := Shuffled(old(c[..]), js);
      var ws := ChoreWeights(s);
      AllAssigned(s) &&
      c[..] == Applied(s, users, OrPass(ws, Ids(users), MinScoreOf(ws, |users|), |s|).picks)
  {
    IntnIsFisherYates(js);
    ShuffledAllAssigned(c[..], js);
    Shuffle(c, js);
    var minScore := MinScore(c, |users|);
    var scores := AssignPass(c, users, minScore);
  }

  /** The shuffle keeps the chores, so every chore still has an assignment. */
  lemma ShuffledAllAssigned(cs: seq<Chore>, js: seq<nat>)
    requires |js| == |cs| && FisherYatesChoices(js) && AllAssigned(cs)
    ensures AllAssigned(Shuffled(cs, js))
  {
    ShuffledPermutes(cs, js);
    var s := Shuffled(cs, js);
    forall i | 0 <= i < |s| ensures s[i].assignment.Some? {
      assert s[i] in multiset(cs);
    }
  }

  /** `randomize` as src/core/chores.go and src/core/dist/distribute.go call
      it, with memberships. */
  method RandomizeMembers(c: array<Chore>, p: seq<Membership>, js: seq<nat>)
    requires |js| == c.Length && IntnChoices(js)
    requires U32(|p|) != 0 && AllAssigned(c[..])
    modifies c
    ensures |p| >= 1 && FisherYatesChoices(js)
    ensures var s := Shuffled(old(c[..]), js);
      var ws := ChoreWeights(s);
      AllAssigned(s) &&
      c[..] == Applied(s, UsersOf(p), OrPass(ws, Ids(UsersOf(p)), MinScoreOf(ws, |p|), |s|).picks)
  {
    Randomize(c, UsersOf(p), js);
  }

  // Properties of the assignment loop.

  /** Every decision names slot `i % len(p)` or nobody. */
  lemma {:induction false} PicksAreSlots(ws: seq<int>, keys: seq<uint64>, minScore: uint32, k: nat, i: nat)
    requires k <= |ws| && |keys| >= 1 && i < k
    ensures var pick := OrPass(ws, keys, minScore, k).picks[i];
      pick.Some? ==> pick.value == i % |keys| < |keys|
    decreases k
  {
    if i < k - 1 {
      PicksAreSlots(ws, keys, minScore, k - 1, i);
      assert OrPass(ws, keys, minScore, k).picks[i] == OrPass(ws, keys, minScore, k - 1).picks[i];
    } else {
      SlotIsMod(i, |keys|);
    }
  }

  /** The weights of the chores among the first `|picks|` that went to a
      person with ID `key`. */
  function AssignedSum(ws: seq<int>, keys: seq<uint64>, picks: seq<Option<nat>>, key: uint64): int
    requires |picks| <= |ws|
  {
    if picks == [] then 0
    else
      var i := |picks| - 1;
      var mine := picks[i].Some? && picks[i].value < |keys| && keys[picks[i].value] == key;
      AssignedSum(ws, keys, picks[..i], key) + (if mine then ws[i] else 0)
  }

  /** `scores[id]` is the sum of the weights of the chores given to `id`. */
  lemma {:induction false} ScoresAreSums(ws: seq<int>, keys: seq<uint64>, minScore: uint32, k: nat, key: uint64)
    requires k <= |ws| && |keys| >= 1
    ensures var r := OrPass(ws, keys, minScore, k);
      Score(r.scores, key) == AssignedSum(ws, keys, r.picks, key)
    decreases k
  {
    if k > 0 {
      ScoresAreSums(ws, keys, minScore, k - 1, key);
      var r := OrPass(ws, keys, minScore, k);
      assert r.picks[..k - 1] == OrPass(ws, keys, minScore, k - 1).picks;
      PicksAreSlots(ws, keys, minScore, k, k - 1);
    }
  }

  /** During the first pass nobody who has not had a turn has a score. */
  lemma {:induction false} FirstPassUntouched(ws: seq<int>, keys: seq<uint64>, minScore: uint32, k: nat, j: nat)
    requires k <= |ws| && Distinct(keys) && k <= j < |keys|
    ensures Score(OrPass(ws, keys, minScore, k).scores, keys[j]) == 0
    decreases k
  {
    if k > 0 {
      FirstPassUntouched(ws, keys, minScore, k - 1, j);
      SlotInFirstLap(k - 1, |keys|);
    }
  }

  /** With distinct IDs, the whole decision in closed form: a chore at
      position `i < len(p)` goes to `p[i]` exactly when the threshold is
      positive, and every later chore goes to `p[i % len(p)]`. The scores
      matter only through the threshold being zero or not. */
  lemma PickClosedForm(ws: seq<int>, keys: seq<uint64>, minScore: uint32, k: nat, i: nat)
    requires k <= |ws| && |keys| >= 1 && Distinct(keys) && i < k
    ensures OrPass(ws, keys, minScore, k).picks[i] ==
      if i >= |keys| then Some(i % |keys|)
      else if minScore > 0 then Some(i) else None
  {
    OrPassPrefix(ws, keys, minScore, i + 1, k);
    assert OrPass(ws, keys, minScore, k).picks[i] == OrPass(ws, keys, minScore, i + 1).picks[i];
    SlotIsMod(i, |keys|);
    if i < |keys| {
      SlotInFirstLap(i, |keys|);
      FirstPassUntouched(ws, keys, minScore, i, i);
    }
  }

  /** With a zero threshold nobody is picked for the first `len(p)` chores,
      which therefore keep their assignment as it was. */
  lemma ZeroThresholdSkipsFirstPass(cs: seq<Chore>, users: seq<User>, i: nat)
    requires |users| >= 1 && Distinct(Ids(users)) && i < |cs| && i < |users|
    ensures OrPass(ChoreWeights(cs), Ids(users), 0, |cs|).picks[i] == None
  {
    PickClosedForm(ChoreWeights(cs), Ids(users), 0, |cs|, i);
  }

  /** Otherwise every chore ends up with the person in slot `i % len(p)`. */
  lemma PositiveThresholdAssignsAll(cs: seq<Chore>, users: seq<User>, minScore: uint32, i: nat)
    requires AllAssigned(cs) && |users| >= 1 && Distinct(Ids(users)) && i < |cs| && minScore > 0
    ensures Applied(cs, users, OrPass(ChoreWeights(cs), Ids(users), minScore, |cs|).picks)[i]
      == AssignedTo(cs[i], users[i % |users|])
  {
    PickClosedForm(ChoreWeights(cs), Ids(users), minScore, |cs|, i);
    if i < |users| {
      ModSmall(i, |users|);
    }
  }

  // Rotation.

  predicate SortedById(us: seq<User>) {
    forall a, b :: 0 <= a < b < |us| ==> us[a].id <= us[b].id
  }

  /** `rmap[id]` of a `map[uint64]*User`: a missing key reads as nil. */
  function Lookup(rmap: map<uint64, User>, id: uint64): Option<User> {
    if id in rmap then Some(rmap[id]) else None
  }

  predicate AllHaveAssignee(cs: seq<Chore>) {
    forall i :: 0 <= i < |cs| ==> cs[i].assignment.Some? && cs[i].assignment.value.user.Some?
  }

  /** `c.Assignment.User = rmap[c.Assignment.User.ID]`. */
  function Rerouted(ch: Chore, rmap: map<uint64, User>): Chore
    requires ch.assignment.Some? && ch.assignment.value.user.Some?
  {
    var a := ch.assignment.value;
    ch.(assignment := Some(a.(user := Lookup(rmap, a.user.value.id))))
  }

  /** Every chore's assignee replaced by its entry in `rmap`. */
  function Rotated(cs: seq<Chore>, rmap: map<uint64, User>): (r: seq<Chore>)
    requires AllHaveAssignee(cs)
    ensures |r| == |cs|
  {
    seq(|cs|, i requires 0 <= i < |cs| => Rerouted(cs[i], rmap))
  }

  /** `rotate`. `sort.Slice` is the parameter `sorted`: any ordering of `u`
      by ascending ID, as the unstable library sort may produce. The
      successor map holds pointers into the sorted slice, modelled as the
      users they point to. Following `c[i].Assignment.User` panics on a
      nil assignment or user, hence the precondition. */
  method Rotate(c: array<Chore>, u: array<User>, sorted: seq<User>)
    requires multiset(sorted) == multiset(u[..]) && SortedById(sorted)
    requires AllHaveAssignee(c[..])
    modifies c, u
    ensures u[..] == sorted
    ensures c[..] == Rotated(old(c[..]), Ring(Ids(sorted), sorted))
  {
    assert |sorted| == |multiset(sorted)| == |multiset(u[..])| == u.Length;
    forall i | 0 <= i < u.Length {
      u[i] := sorted[i];
    }
    assert u[..] == sorted;
    var rmap := BuildRing(Ids(u[..]), u[..]);
    var i := 0;
    while i < c.Length
      invariant 0 <= i <= c.Length
      invariant u[..] == sorted
      invariant forall k :: 0 <= k < i ==> c[k] == Rerouted(old(c[k]), rmap)
      invariant forall k :: i <= k < c.Length ==> c[k] == old(c[k])
    {
      c[i] := Rerouted(c[i], rmap);
      i := i + 1;
    }
  }

  /** On the IDs, the pointer map is the ID successor map: the user a chore
      moves to has the successor ID, and nobody only when the old assignee
      is not among `u`. */
  lemma RotateFollowsIdRing(sorted: seq<User>, id: uint64)
    requires Distinct(Ids(sorted))
    ensures var next := Lookup(Ring(Ids(sorted), sorted), id);
      (next.None? <==> id !in Ids(sorted)) &&
      (next.Some? ==> next.value.id == SuccessorId(Ring(Ids(sorted), Ids(sorted)), id))
  {
    var ids := Ids(sorted);
    RingKeys(ids, sorted);
    RingKeys(ids, ids);
    if id in ids {
      var i :| 0 <= i < |ids| && ids[i] == id;
      RingAt(ids, sorted, i);
      RingAt(ids, ids, i);
    }
  }
}
