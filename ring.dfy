/** The successor map every `Rotate` variant builds after sorting the
    people by ID: `for i := range u { j := i + 1; if j >= len(u) { j = 0 };
    rmap[u[i].ID] = <slot j> }`. The value stored for slot `j` is the
    person's ID in some variants and a pointer to the person in others,
    hence the generic `vals`. */
module Rings {
  import opened GoValues

  /** `rmap` after the first `k` iterations; a later write to the same ID
      overwrites an earlier one, as a Go map assignment does. */
  function RingUpTo<V>(ids: seq<uint64>, vals: seq<V>, k: nat): map<uint64, V>
    requires |vals| == |ids| && k <= |ids|
  {
    if k == 0 then map[] else RingUpTo(ids, vals, k - 1)[ids[k - 1] := vals[Next(k - 1, |ids|)]]
  }

  /** `rmap` once the loop is done. */
  function Ring<V>(ids: seq<uint64>, vals: seq<V>): map<uint64, V>
    requires |vals| == |ids|
  {
    RingUpTo(ids, vals, |ids|)
  }

  method BuildRing<V>(ids: seq<uint64>, vals: seq<V>) returns (rmap: map<uint64, V>)
    requires |vals| == |ids|
    ensures rmap == Ring(ids, vals)
  {
    rmap := map[];
    var i := 0;
    while i < |ids|
      invariant 0 <= i <= |ids|
      invariant rmap == RingUpTo(ids, vals, i)
    {
      var j := i + 1;
      if j >= |ids| {
        j := 0;
      }
      rmap := rmap[ids[i] := vals[j]];
      i := i + 1;
    }
  }

  predicate Distinct(ids: seq<uint64>) {
    forall a, b :: 0 <= a < b < |ids| ==> ids[a] != ids[b]
  }

  /** The ring has an entry for exactly the IDs of the people. */
  lemma {:induction false} RingUpToKeys<V>(ids: seq<uint64>, vals: seq<V>, k: nat)
    requires |vals| == |ids| && k <= |ids|
    ensures forall x :: x in RingUpTo(ids, vals, k) <==> x in ids[..k]
  {
    if k > 0 {
      RingUpToKeys(ids, vals, k - 1);
      assert ids[..k] == ids[..k - 1] + [ids[k - 1]];
    }
  }

  lemma RingKeys<V>(ids: seq<uint64>, vals: seq<V>)
    requires |vals| == |ids|
    ensures forall x :: x in Ring(ids, vals) <==> x in ids
  {
    RingUpToKeys(ids, vals, |ids|);
    assert ids[..|ids|] == ids;
  }

  /** With distinct IDs, the entry for the person in slot `i` is the value
      of slot `i + 1`, wrapping to slot 0 after the last. */
  lemma {:induction false} RingUpToAt<V>(ids: seq<uint64>, vals: seq<V>, k: nat, i: nat)
    requires |vals| == |ids| && Distinct(ids) && i < k <= |ids|
    ensures ids[i] in RingUpTo(ids, vals, k)
    ensures RingUpTo(ids, vals, k)[ids[i]] == vals[Next(i, |ids|)]
  {
    if i < k - 1 {
      RingUpToAt(ids, vals, k - 1, i);
    }
  }

  lemma RingAt<V>(ids: seq<uint64>, vals: seq<V>, i: nat)
    requires |vals| == |ids| && Distinct(ids) && i < |ids|
    ensures ids[i] in Ring(ids, vals)
    ensures Ring(ids, vals)[ids[i]] == vals[Next(i, |ids|)]
  {
    RingUpToAt(ids, vals, |ids|, i);
  }

  /** `rmap[x]` for a map from IDs to IDs: Go returns 0 for a missing key. */
  function SuccessorId(rmap: map<uint64, uint64>, x: uint64): uint64 {
    if x in rmap then rmap[x] else 0
  }

  /** The assignee ID after `k` rotations. */
  function RotatedId(rmap: map<uint64, uint64>, x: uint64, k: nat): uint64
    decreases k
  {
    if k == 0 then x else RotatedId(rmap, SuccessorId(rmap, x), k - 1)
  }

  /** The slot reached from slot `i` after `k` steps around a ring of `n`. */
  function Advance(i: nat, k: nat, n: nat): (j: nat)
    requires i < n
    ensures j < n
    decreases k
  {
    if k == 0 then i else Advance(Next(i, n), k - 1, n)
  }

  /** Within one lap, `k` steps from `i` reach `i + k`, wrapped once. */
  lemma {:induction false} AdvanceWithinLap(i: nat, k: nat, n: nat)
    requires i < n && k <= n
    ensures Advance(i, k, n) == if i + k < n then i + k else i + k - n
    decreases k
  {
    if k > 0 {
      AdvanceWithinLap(Next(i, n), k - 1, n);
    }
  }

  /** Rotating `k` times moves an assignee `k` slots along the ring. */
  lemma {:induction false} RotatedSlots(ids: seq<uint64>, i: nat, k: nat)
    requires Distinct(ids) && i < |ids|
    ensures RotatedId(Ring(ids, ids), ids[i], k) == ids[Advance(i, k, |ids|)]
    decreases k
  {
    if k > 0 {
      RingAt(ids, ids, i);
      RotatedSlots(ids, Next(i, |ids|), k - 1);
    }
  }

  /** With distinct IDs, `len(u)` rotations give every assignee back the
      chores it started with. */
  lemma FullCircle(ids: seq<uint64>, i: nat)
    requires Distinct(ids) && i < |ids|
    ensures RotatedId(Ring(ids, ids), ids[i], |ids|) == ids[i]
  {
    RotatedSlots(ids, i, |ids|);
    AdvanceWithinLap(i, |ids|, |ids|);
  }

  /** With at least two people of distinct IDs, rotation always moves a
      chore to somebody else. */
  lemma RotationMoves(ids: seq<uint64>, i: nat)
    requires Distinct(ids) && 2 <= |ids| && i < |ids|
    ensures SuccessorId(Ring(ids, ids), ids[i]) != ids[i]
  {
    RingAt(ids, ids, i);
  }

  /** A ring of one person maps that person to itself. */
  lemma SingleRingIsIdentity<V>(ids: seq<uint64>, vals: seq<V>)
    requires |ids| == 1 && |vals| == 1
    ensures Ring(ids, vals) == map[ids[0] := vals[0]]
  {
    assert Next(0, 1) == 0;
    assert RingUpTo(ids, vals, 0) == map[];
  }

  /** An assignee whose ID is not among the people gets the zero value. */
  lemma MissingAssignee<V>(ids: seq<uint64>, vals: seq<V>, x: uint64)
    requires |vals| == |ids| && x !in ids
    ensures x !in Ring(ids, vals)
    ensures SuccessorId(Ring(ids, ids), x) == 0
  {
    RingKeys(ids, vals);
    RingKeys(ids, ids);
  }

  /** The IDs of people sorted by `sort.Slice` with `u[i].ID < u[j].ID`. */
  predicate SortedIds(ids: seq<uint64>) {
    forall a, b :: 0 <= a < b < |ids| ==> ids[a] <= ids[b]
  }

  /** On distinct sorted IDs the successor is, by a definition that does not
      mention slots, the next larger ID, or the smallest ID after the
      largest. */
  lemma SuccessorIsNextLarger(ids: seq<uint64>, i: nat)
    requires Distinct(ids) && SortedIds(ids) && i < |ids|
    ensures var s := SuccessorId(Ring(ids, ids), ids[i]);
      s in ids &&
      (if i + 1 < |ids|
       then ids[i] < s && forall y :: y in ids && ids[i] < y ==> s <= y
       else forall y :: y in ids ==> s <= y)
  {
    RingAt(ids, ids, i);
    var s := SuccessorId(Ring(ids, ids), ids[i]);
    if i + 1 < |ids| {
      assert s == ids[i + 1];
      forall y | y in ids && ids[i] < y ensures s <= y {
        var b :| 0 <= b < |ids| && ids[b] == y;
        assert b > i;
      }
    } else {
      assert s == ids[0];
    }
  }

  /** The ring the test of the webserver variant builds: four roommates
      with IDs 12345 to 12348. Each rotation hands every chore to another
      roommate. */
  lemma FourRoommatesExample(k: nat)
    requires k < 4
    ensures SuccessorId(Ring([12345, 12346, 12347, 12348], [12345, 12346, 12347, 12348]), [12345, 12346, 12347, 12348][k]) != [12345, 12346, 12347, 12348][k]
  {
    RotationMoves([12345, 12346, 12347, 12348], k);
  }
}
