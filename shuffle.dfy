/** The in-place shuffle that opens every `Randomize` variant:
    `for i := len(c) - 1; i > 0; i-- { j := rand.Intn(i); c[i], c[j] = c[j], c[i] }`.
    The random draws are a parameter `js`, where `js[i]` is the index drawn
    at step `i` (`js[0]` is never read). */
module Shuffling {

  /** The draws `rand.Intn(i)` can make: `0 <= j < i`. */
  predicate IntnChoices(js: seq<nat>) {
    forall i :: 1 <= i < |js| ==> js[i] < i
  }

  /** The range the comment above the loop documents for Fisher–Yates:
      `0 <= j <= i`. */
  predicate FisherYatesChoices(js: seq<nat>) {
    forall i :: 1 <= i < |js| ==> js[i] <= i
  }

  /** Every draw of `rand.Intn(i)` lies in the Fisher–Yates range. */
  lemma IntnIsFisherYates(js: seq<nat>)
    requires IntnChoices(js)
    ensures FisherYatesChoices(js)
  {
  }

  /** `s` with the elements at `i` and `j` exchanged. */
  function Swap<T>(s: seq<T>, i: nat, j: nat): (r: seq<T>)
    requires i < |s| && j < |s|
    ensures |r| == |s|
  {
    s[i := s[j]][j := s[i]]
  }

  /** The sequence left by the loop iterations `i, i - 1, ..., 1`. */
  function ShuffledFrom<T>(s: seq<T>, js: seq<nat>, i: int): (r: seq<T>)
    requires |js| == |s| && FisherYatesChoices(js) && i < |s|
    ensures |r| == |s|
    decreases i
  {
    if i <= 0 then s else ShuffledFrom(Swap(s, i, js[i]), js, i - 1)
  }

  /** The outcome of the whole loop, which starts at `len(c) - 1`. */
  function Shuffled<T>(s: seq<T>, js: seq<nat>): seq<T>
    requires |js| == |s| && FisherYatesChoices(js)
  {
    ShuffledFrom(s, js, |s| - 1)
  }

  method Shuffle<T>(c: array<T>, js: seq<nat>)
    requires |js| == c.Length && FisherYatesChoices(js)
    modifies c
    ensures c[..] == Shuffled(old(c[..]), js)
  {
    var i: int := c.Length - 1;
    while i > 0
      invariant -1 <= i < c.Length
      invariant ShuffledFrom(c[..], js, i) == Shuffled(old(c[..]), js)
    {
      var j := js[i];
      ghost var before := c[..];
      c[i], c[j] := c[j], c[i];
      assert c[..] == Swap(before, i, j);
      i := i - 1;
    }
  }

  lemma SwapPermutes<T>(s: seq<T>, i: nat, j: nat)
    requires i < |s| && j < |s|
    ensures multiset(Swap(s, i, j)) == multiset(s)
  {
    var t := s[i := s[j]];
    assert multiset(t) == multiset(s) - multiset{s[i]} + multiset{s[j]};
    assert multiset(t[j := s[i]]) == multiset(t) - multiset{t[j]} + multiset{s[i]};
  }

  /** The shuffle only rearranges: the result is a permutation of the input. */
  lemma {:induction false} ShuffledFromPermutes<T>(s: seq<T>, js: seq<nat>, i: int)
    requires |js| == |s| && FisherYatesChoices(js) && i < |s|
    ensures multiset(ShuffledFrom(s, js, i)) == multiset(s)
    decreases i
  {
    if i > 0 {
      SwapPermutes(s, i, js[i]);
      ShuffledFromPermutes(Swap(s, i, js[i]), js, i - 1);
    }
  }

  lemma ShuffledPermutes<T>(s: seq<T>, js: seq<nat>)
    requires |js| == |s| && FisherYatesChoices(js)
    ensures |Shuffled(s, js)| == |s|
    ensures multiset(Shuffled(s, js)) == multiset(s)
  {
    ShuffledFromPermutes(s, js, |s| - 1);
  }

  /** Iterations `i` down to 1 never touch the positions above `i`. */
  lemma {:induction false} ShuffledFromKeepsSuffix<T>(s: seq<T>, js: seq<nat>, i: int, k: nat)
    requires |js| == |s| && FisherYatesChoices(js) && i < k < |s|
    ensures ShuffledFrom(s, js, i)[k] == s[k]
    decreases i
  {
    if i > 0 {
      ShuffledFromKeepsSuffix(Swap(s, i, js[i]), js, i - 1, k);
    }
  }

  /** Iterations `i` down to 1 read only the draws `js[1..i]`. */
  lemma {:induction false} ShuffledFromIgnoresLaterDraws<T>(s: seq<T>, js: seq<nat>, i: int, k: nat, j: nat)
    requires |js| == |s| && FisherYatesChoices(js) && i < k < |s| && j <= k
    ensures FisherYatesChoices(js[k := j])
    ensures ShuffledFrom(s, js[k := j], i) == ShuffledFrom(s, js, i)
    decreases i
  {
    if i > 0 {
      ShuffledFromIgnoresLaterDraws(Swap(s, i, js[i]), js, i - 1, k, j);
    }
  }

  /** As written, with the draws of `rand.Intn(i)`, the last element of a
      list of distinct chores always leaves its place: the loop is
      Sattolo's algorithm, which only produces cyclic permutations. */
  lemma IntnMovesLast<T>(s: seq<T>, js: seq<nat>)
    requires |js| == |s| >= 2 && IntnChoices(js)
    requires forall a, b :: 0 <= a < b < |s| ==> s[a] != s[b]
    ensures FisherYatesChoices(js)
    ensures Shuffled(s, js)[|s| - 1] != s[|s| - 1]
  {
    var n := |s|;
    var j := js[n - 1];
    var s1 := Swap(s, n - 1, j);
    assert s1[n - 1] == s[j];
    ShuffledFromKeepsSuffix(s1, js, n - 2, n - 1);
  }

  /** Consequently no draws of `rand.Intn` leave a list of two or more
      distinct chores in its original order. */
  lemma IntnNeverIdentity<T>(s: seq<T>, js: seq<nat>)
    requires |js| == |s| >= 2 && IntnChoices(js)
    requires forall a, b :: 0 <= a < b < |s| ==> s[a] != s[b]
    ensures FisherYatesChoices(js)
    ensures Shuffled(s, js) != s
  {
    IntnMovesLast(s, js);
  }

  /** With the documented range `0 <= j <= i` the loop is Fisher–Yates:
      every permutation `t` of the input is the outcome of some draws. */
  lemma FisherYatesReachesAll<T>(s: seq<T>, t: seq<T>) returns (js: seq<nat>)
    requires |t| == |s| && multiset(t) == multiset(s)
    ensures |js| == |s| && FisherYatesChoices(js)
    ensures Shuffled(s, js) == t
  {
    if |s| == 0 {
      js := [];
    } else {
      assert s[..|s|] == s && t[..|t|] == t;
      js := ReachFrom(s, t, |s| - 1);
    }
  }

  /** Positions above `i` already hold `t`'s elements, and those at or
      below `i` are a rearrangement of the rest of `t`. */
  ghost predicate Placed<T>(s: seq<T>, t: seq<T>, i: nat) {
    |t| == |s| && i < |s| && multiset(s[..i + 1]) == multiset(t[..i + 1]) &&
    forall k :: i < k < |s| ==> s[k] == t[k]
  }

  lemma {:induction false} ReachFrom<T>(s: seq<T>, t: seq<T>, i: nat) returns (js: seq<nat>)
    requires Placed(s, t, i)
    ensures |js| == |s| && FisherYatesChoices(js)
    ensures ShuffledFrom(s, js, i) == t
    decreases i
  {
    if i == 0 {
      js := NoDraws(s, t);
    } else {
      var j := PlaceStep(s, t, i);
      var js1 := ReachFrom(Swap(s, i, j), t, i - 1);
      js := DrawAt(s, t, js1, i, j);
    }
  }

  /** Drawing `j` at step `i` and then following `js1` below `i`. */
  lemma DrawAt<T>(s: seq<T>, t: seq<T>, js1: seq<nat>, i: nat, j: nat) returns (js: seq<nat>)
    requires |js1| == |s| && FisherYatesChoices(js1) && 0 < i < |s| && j <= i
    requires ShuffledFrom(Swap(s, i, j), js1, i - 1) == t
    ensures |js| == |s| && FisherYatesChoices(js)
    ensures ShuffledFrom(s, js, i) == t
  {
    js := js1[i := j];
    ShuffledFromIgnoresLaterDraws(Swap(s, i, j), js1, i - 1, i, j);
  }

  /** With only position 0 left, the prefix condition pins the first
      element, and no draw is needed. */
  lemma NoDraws<T>(s: seq<T>, t: seq<T>) returns (js: seq<nat>)
    requires Placed(s, t, 0)
    ensures |js| == |s| && FisherYatesChoices(js)
    ensures ShuffledFrom(s, js, 0) == t
  {
    js := seq(|s|, _ => 0);
    assert s[..1] == [s[0]] && t[..1] == [t[0]];
    assert s[0] in multiset(t[..1]);
    assert s[0] == t[0];
  }

  lemma MultisetCancel<T>(a: multiset<T>, b: multiset<T>, x: T)
    requires a + multiset{x} == b + multiset{x}
    ensures a == b
  {
    assert a == (a + multiset{x}) - multiset{x};
    assert b == (b + multiset{x}) - multiset{x};
  }

  /** One step of ReachFrom: the element that belongs at `i` is at some
      `j` of the unplaced prefix, and swapping it into place leaves a
      shorter prefix that is again a rearrangement of `t`'s. */
  lemma PlaceStep<T>(s: seq<T>, t: seq<T>, i: nat) returns (j: nat)
    requires 0 < i && Placed(s, t, i)
    ensures j <= i && Placed(Swap(s, i, j), t, i - 1)
  {
    j := SourceOf(s, t, i);
    SwapPrefix(s, t, i, j);
    SwapSuffix(s, t, i, j);
  }

  /** The element that belongs at `i` is somewhere in the unplaced prefix. */
  lemma SourceOf<T>(s: seq<T>, t: seq<T>, i: nat) returns (j: nat)
    requires Placed(s, t, i)
    ensures j <= i && s[j] == t[i]
  {
    assert t[..i + 1] == t[..i] + [t[i]];
    assert t[i] in multiset(s[..i + 1]);
    var k :| 0 <= k < i + 1 && s[..i + 1][k] == t[i];
    j := k;
  }

  lemma SwapPrefix<T>(s: seq<T>, t: seq<T>, i: nat, j: nat)
    requires |t| == |s| && j <= i < |s| && s[j] == t[i]
    requires multiset(s[..i + 1]) == multiset(t[..i + 1])
    ensures multiset(Swap(s, i, j)[..i]) == multiset(t[..i])
  {
    var s1 := Swap(s, i, j);
    assert s1[..i + 1] == Swap(s[..i + 1], i, j);
    SwapPermutes(s[..i + 1], i, j);
    assert s1[..i + 1] == s1[..i] + [t[i]];
    assert t[..i + 1] == t[..i] + [t[i]];
    MultisetCancel(multiset(s1[..i]), multiset(t[..i]), t[i]);
  }

  lemma SwapSuffix<T>(s: seq<T>, t: seq<T>, i: nat, j: nat)
    requires Placed(s, t, i) && j <= i && s[j] == t[i]
    ensures forall k :: i <= k < |s| ==> Swap(s, i, j)[k] == t[k]
  {
  }

  /** In particular the documented range can leave the order unchanged,
      which the draws of `rand.Intn` never do. */
  lemma FisherYatesCanKeepOrder<T>(s: seq<T>)
    ensures exists js: seq<nat> :: |js| == |s| && FisherYatesChoices(js) && Shuffled(s, js) == s
  {
    var js := FisherYatesReachesAll(s, s);
  }
}
