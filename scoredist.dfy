/** The chore engine of src/chores/chores.go and its copy in
    webserver/src/chores/chores.go (where `Person` is called `Roommate` and
    `rIndex` is a `uint`). Chores carry their assignee's ID; people carry
    their own uint16 `Score`, which the pass raises in place. The pass has
    two separate `if`s: one for a person below the threshold and one for
    `allChecked`, so after the first lap a person below the threshold is
    credited twice for the same chore. */
module ScoreDistribution {
  import opened GoValues
  import opened Shuffling
  import opened Threshold
  import opened Rings
  import opened RoundRobin

  datatype Chore = Chore(name: string, minutes: uint16, assignee: uint64)

  datatype Person = Person(name: string, score: uint16, id: uint64)

  type Roommate = Person

  /** The weight of a chore: `c.Minutes / 5`, on an unsigned value. */
  function Weight(ch: Chore): nat {
    ch.minutes / 5
  }

  function ChoreWeights(cs: seq<Chore>): (ws: seq<int>)
    ensures |ws| == |cs| && forall i :: 0 <= i < |cs| ==> ws[i] == Weight(cs[i])
  {
    seq(|cs|, i requires 0 <= i < |cs| => Weight(cs[i]))
  }

  /** The threshold loop and the division by `uint32(len(p))`. */
  method MinScore(c: array<Chore>, people: nat) returns (minScore: uint32)
    requires U32(people) != 0
    ensures minScore == MinScoreOf(ChoreWeights(c[..]), people)
  {
    ghost var cs := c[..];
    minScore := 0;
    var i := 0;
    while i < c.Length
      invariant 0 <= i <= c.Length
      invariant minScore == WeightSum(ChoreWeights(cs[..i]))
    {
      SumStep(cs, i);
      assert cs[i] == c[i];
      minScore := U32(minScore + U32(Weight(c[i])));
      i := i + 1;
    }
    assert cs[..c.Length] == cs;
    var total, n := minScore, U32(people);
    DivLe(total, n);
    minScore := total / n;
  }

  /** One iteration of the threshold loop. */
  lemma SumStep(cs: seq<Chore>, i: nat)
    requires i < |cs|
    ensures WeightSum(ChoreWeights(cs[..i + 1])) == U32(WeightSum(ChoreWeights(cs[..i])) + U32(Weight(cs[i])))
  {
    assert ChoreWeights(cs[..i + 1]) == ChoreWeights(cs[..i]) + [Weight(cs[i])];
    WeightSumSnoc(ChoreWeights(cs[..i]), Weight(cs[i]));
  }

  /** `p[slot].Score += w` in uint16 arithmetic. */
  function Credit(ps: seq<Person>, slot: nat, w: int): (r: seq<Person>)
    requires slot < |ps|
    ensures |r| == |ps|
  {
    ps[slot := ps[slot].(score := U16(ps[slot].score + w))]
  }

  /** What the first `k` iterations decided: the ID each chore was given
      (or `None` when neither `if` fired) and the people afterwards. */
  datatype Pass = Pass(assignees: seq<Option<uint64>>, people: seq<Person>)

  /** The assignment loop described without `rIndex` and `allChecked`. */
  function TwoIfPass(ws: seq<int>, people: seq<Person>, minScore: uint32, k: nat): (r: Pass)
    requires k <= |ws| && |people| >= 1
    ensures |r.assignees| == k && |r.people| == |people|
  {
    if k == 0 then Pass([], people)
    else
      var prev := TwoIfPass(ws, people, minScore, k - 1);
      var i := k - 1;
      var slot := SlotOf(i, |people|);
      var below := U32(prev.people[slot].score) < minScore;
      var late := i >= |people|;
      var ps1 := if below then Credit(prev.people, slot, ws[i]) else prev.people;
      var ps2 := if late then Credit(ps1, slot, ws[i]) else ps1;
      Pass(prev.assignees + [if below || late then Some(prev.people[slot].id) else None], ps2)
  }

  /** `c.Assignee = id` when the pass gave the chore to `id`. */
  function AfterPick(ch: Chore, a: Option<uint64>): Chore {
    if a.Some? then ch.(assignee := a.value) else ch
  }

  /** The chores once the first `|picks|` decisions are carried out. */
  function AppliedPrefix(cs: seq<Chore>, picks: seq<Option<uint64>>): (r: seq<Chore>)
    requires |picks| <= |cs|
    ensures |r| == |cs|
  {
    seq(|cs|, k requires 0 <= k < |cs| => if k < |picks| then AfterPick(cs[k], picks[k]) else cs[k])
  }

  lemma AppliedPrefixStep(cs: seq<Chore>, picks: seq<Option<uint64>>, a: Option<uint64>)
    requires |picks| < |cs|
    ensures AppliedPrefix(cs, picks)[|picks|] == cs[|picks|]
    ensures AppliedPrefix(cs, picks)[|picks| := AfterPick(cs[|picks|], a)] == AppliedPrefix(cs, picks + [a])
  {
  }

  /** The body of the assignment loop at chore `i` and slot `slot`, on
      values: the two `if`s in order, the second seeing the first's
      update. */
  function Visit(cs: seq<Chore>, ps: seq<Person>, i: nat, slot: nat, minScore: uint32, allChecked: bool): (r: (seq<Chore>, seq<Person>))
    requires i < |cs| && slot < |ps|
    ensures |r.0| == |cs| && |r.1| == |ps|
  {
    var below := U32(ps[slot].score) < minScore;
    var cs1 := if below then cs[i := cs[i].(assignee := ps[slot].id)] else cs;
    var ps1 := if below then Credit(ps, slot, Weight(cs1[i])) else ps;
    var cs2 := if allChecked then cs1[i := cs1[i].(assignee := ps1[slot].id)] else cs1;
    var ps2 := if allChecked then Credit(ps1, slot, Weight(cs2[i])) else ps1;
    (cs2, ps2)
  }

  /** The loop body on the arrays. */
  method VisitSlot(c: array<Chore>, p: array<Person>, i: nat, rIndex: nat, minScore: uint32, allChecked: bool)
    requires i < c.Length && rIndex < p.Length
    modifies c, p
    ensures (c[..], p[..]) == Visit(old(c[..]), old(p[..]), i, rIndex, minScore, allChecked)
  {
    if U32(p[rIndex].score) < minScore {
      c[i] := c[i].(assignee := p[rIndex].id);
      p[rIndex] := p[rIndex].(score := U16(p[rIndex].score + c[i].minutes / 5));
    }
    if allChecked {
      c[i] := c[i].(assignee := p[rIndex].id);
      p[rIndex] := p[rIndex].(score := U16(p[rIndex].score + c[i].minutes / 5));
    }
  }

  /** The assignment loop of `Randomize`, writing `c[i].Assignee` and
      `p[rIndex].Score` in place. */
  method AssignPass(c: array<Chore>, p: array<Person>, minScore: uint32)
    requires p.Length >= 1
    modifies c, p
    ensures var r := TwoIfPass(ChoreWeights(old(c[..])), old(p[..]), minScore, c.Length);
      c[..] == AppliedPrefix(old(c[..]), r.assignees) && p[..] == r.people
  {
    ghost var c0, p0 := c[..], p[..];
    var n := p.Length;
    var rIndex := 0;
    var allChecked := false;
    var i := 0;
    while i < c.Length
      invariant 0 <= i <= c.Length
      invariant rIndex == RIndexAt(i, n)
      invariant allChecked <==> i > n
      invariant Reached(c0, p0, minScore, i, c[..], p[..])
    {
      WrapCheck(i, n);
      if rIndex >= n {
        allChecked := true;
        rIndex := 0;
      }
      ghost var before, peopleBefore := c[..], p[..];
      VisitSlot(c, p, i, rIndex, minScore, allChecked);
      IterationKeeps(c0, p0, minScore, i, before, peopleBefore, c[..], p[..]);
      rIndex := rIndex + 1;
      i := i + 1;
    }
  }

  /** The chores and people after the first `i` iterations, starting from
      `cs` and `people`. */
  ghost predicate Reached(cs: seq<Chore>, people: seq<Person>, minScore: uint32, i: nat, now: seq<Chore>, peopleNow: seq<Person>) {
    i <= |cs| && |people| >= 1 &&
    var r := TwoIfPass(ChoreWeights(cs), people, minScore, i);
    now == AppliedPrefix(cs, r.assignees) && peopleNow == r.people
  }

  /** One iteration of the loop body carries the pass from `i` decisions to
      `i + 1`. */
  lemma IterationKeeps(cs: seq<Chore>, people: seq<Person>, minScore: uint32, i: nat,
                       before: seq<Chore>, peopleBefore: seq<Person>, after: seq<Chore>, peopleAfter: seq<Person>)
    requires i < |cs| && Reached(cs, people, minScore, i, before, peopleBefore)
    requires (after, peopleAfter) == Visit(before, peopleBefore, i, SlotOf(i, |people|), minScore, i >= |people|)
    ensures Reached(cs, people, minScore, i + 1, after, peopleAfter)
  {
    var prev := TwoIfPass(ChoreWeights(cs), people, minScore, i);
    var slot := SlotOf(i, |people|);
    var below := U32(prev.people[slot].score) < minScore;
    var a := if below || i >= |people| then Some(prev.people[slot].id) else None;
    assert TwoIfPass(ChoreWeights(cs), people, minScore, i + 1).assignees == prev.assignees + [a];
    AppliedPrefixStep(cs, prev.assignees, a);
  }

  /** The whole of `Randomize`, with the draws of `rand.Intn(i)` as `js`. */
  method Randomize(c: array<Chore>, p: array<Person>, js: seq<nat>)
    requires |js| == c.Length && IntnChoices(js) && U32(p.Length) != 0
    modifies c, p
    ensures p.Length >= 1 && FisherYatesChoices(js)
    ensures var s := Shuffled(old(c[..]), js);
      var ws := ChoreWeights(s);
      var r := TwoIfPass(ws, old(p[..]), MinScoreOf(ws, p.Length), |s|);
      c[..] == AppliedPrefix(s, r.assignees) && p[..] == r.people
  {
    IntnIsFisherYates(js);
    Shuffle(c, js);
    var minScore := MinScore(c, p.Length);
    AssignPass(c, p, minScore);
  }

  // Properties of the pass.

  /** The pass only changes scores: every slot keeps its person's ID and name. */
  lemma {:induction false} PeopleKeepIds(ws: seq<int>, people: seq<Person>, minScore: uint32, k: nat, j: nat)
    requires k <= |ws| && |people| >= 1 && j < |people|
    ensures var q := TwoIfPass(ws, people, minScore, k).people[j];
      q.id == people[j].id && q.name == people[j].name
    decreases k
  {
    if k > 0 {
      PeopleKeepIds(ws, people, minScore, k - 1, j);
    }
  }

  /** In the first lap nobody is visited twice: a slot not yet reached still
      holds its starting score. */
  lemma {:induction false} FirstLapUntouched(ws: seq<int>, people: seq<Person>, minScore: uint32, k: nat, j: nat)
    requires k <= |ws| && k <= j < |people|
    ensures TwoIfPass(ws, people, minScore, k).people[j] == people[j]
    decreases k
  {
    if k > 0 {
      FirstLapUntouched(ws, people, minScore, k - 1, j);
      SlotInFirstLap(k - 1, |people|);
    }
  }

  lemma {:induction false} AssigneesPrefix(ws: seq<int>, people: seq<Person>, minScore: uint32, k: nat, k': nat)
    requires k <= k' <= |ws| && |people| >= 1
    ensures TwoIfPass(ws, people, minScore, k).assignees == TwoIfPass(ws, people, minScore, k').assignees[..k]
    decreases k'
  {
    if k < k' {
      AssigneesPrefix(ws, people, minScore, k, k' - 1);
      assert TwoIfPass(ws, people, minScore, k').assignees[..k' - 1] == TwoIfPass(ws, people, minScore, k' - 1).assignees;
    }
  }

  /** Who gets chore `i`: in the first lap `p[i]`, exactly when its starting
      score is below the threshold; after that always `p[i % len(p)]`. */
  lemma PickClosedForm(ws: seq<int>, people: seq<Person>, minScore: uint32, k: nat, i: nat)
    requires k <= |ws| && |people| >= 1 && i < k
    ensures TwoIfPass(ws, people, minScore, k).assignees[i] ==
      if i >= |people| then Some(people[i % |people|].id)
      else if U32(people[i].score) < minScore then Some(people[i].id) else None
  {
    AssigneesPrefix(ws, people, minScore, i + 1, k);
    assert TwoIfPass(ws, people, minScore, k).assignees[i] == TwoIfPass(ws, people, minScore, i + 1).assignees[i];
    SlotIsMod(i, |people|);
    PeopleKeepIds(ws, people, minScore, i, i % |people|);
    if i < |people| {
      SlotInFirstLap(i, |people|);
      FirstLapUntouched(ws, people, minScore, i, i);
    }
  }

  lemma U16Add(x: int, w: int)
    ensures U16(U16(x) + w) == U16(x + w)
  {
    var m := TWO16;
    var q := x / m;
    assert x == q * m + x % m;
    assert x + w == q * m + (x % m + w);
    U16Shift(x % m + w, q);
  }

  lemma U16Shift(x: int, q: int)
    ensures (q * TWO16 + x) % TWO16 == x % TWO16
  {
  }

  /** After the first lap, a person still below the threshold is credited
      twice for the same chore: its score grows by `2 * (Minutes / 5)`,
      modulo 2^16. */
  lemma DoubleCredit(ws: seq<int>, people: seq<Person>, minScore: uint32, i: nat)
    requires i < |ws| && 1 <= |people| <= i
    ensures var slot := i % |people|;
      var prev := TwoIfPass(ws, people, minScore, i).people[slot];
      var next := TwoIfPass(ws, people, minScore, i + 1).people[slot];
      next.score == if U32(prev.score) < minScore then U16(prev.score + 2 * ws[i]) else U16(prev.score + ws[i])
  {
    SlotIsMod(i, |people|);
    var slot := i % |people|;
    var prev := TwoIfPass(ws, people, minScore, i).people[slot];
    U16Add(prev.score + ws[i], ws[i]);
  }

  /** A chore the pass did not pick keeps the assignee it had. */
  lemma UnpickedKeepsAssignee(cs: seq<Chore>, picks: seq<Option<uint64>>, i: nat)
    requires |picks| <= |cs| && i < |cs| && (i < |picks| ==> picks[i].None?)
    ensures AppliedPrefix(cs, picks)[i] == cs[i]
  {
  }

  // Rotation.

  function PersonIds(ps: seq<Person>): (ids: seq<uint64>)
    ensures |ids| == |ps| && forall i :: 0 <= i < |ps| ==> ids[i] == ps[i].id
  {
    seq(|ps|, i requires 0 <= i < |ps| => ps[i].id)
  }

  predicate SortedById(ps: seq<Person>) {
    forall a, b :: 0 <= a < b < |ps| ==> ps[a].id <= ps[b].id
  }

  /** Every chore's assignee replaced by `rmap[c.Assignee]`. */
  function Rotated(cs: seq<Chore>, rmap: map<uint64, uint64>): (r: seq<Chore>)
    ensures |r| == |cs|
  {
    seq(|cs|, i requires 0 <= i < |cs| => cs[i].(assignee := SuccessorId(rmap, cs[i].assignee)))
  }

  /** `Rotate`: `sort.Slice` is the parameter `sorted`, any ordering of `p`
      by ascending ID. */
  method Rotate(c: array<Chore>, p: array<Person>, sorted: seq<Person>)
    requires multiset(sorted) == multiset(p[..]) && SortedById(sorted)
    modifies c, p
    ensures p[..] == sorted
    ensures c[..] == Rotated(old(c[..]), Ring(PersonIds(sorted), PersonIds(sorted)))
  {
    assert |sorted| == |multiset(sorted)| == |multiset(p[..])| == p.Length;
    forall i | 0 <= i < p.Length {
      p[i] := sorted[i];
    }
    assert p[..] == sorted;
    var rmap := BuildRing(PersonIds(p[..]), PersonIds(p[..]));
    var i := 0;
    while i < c.Length
      invariant 0 <= i <= c.Length
      invariant p[..] == sorted
      invariant forall k :: 0 <= k < i ==> c[k] == old(c[k]).(assignee := SuccessorId(rmap, old(c[k]).assignee))
      invariant forall k :: i <= k < c.Length ==> c[k] == old(c[k])
    {
      c[i] := c[i].(assignee := SuccessorId(rmap, c[i].assignee));
      i := i + 1;
    }
  }
}
