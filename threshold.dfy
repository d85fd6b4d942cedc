/** The threshold every `Randomize` variant computes after shuffling:
    `minScore += uint32(weight)` over all chores in uint32 arithmetic,
    then `minScore = minScore / uint32(len(p))`. The loops that compute
    it live with each chore type, which also says what the weight of a
    chore is. */
module Threshold {
  import opened GoValues

  /** The mathematical sum of the weights. */
  function Sum(ws: seq<int>): int
  {
    if ws == [] then 0 else Sum(ws[..|ws| - 1]) + ws[|ws| - 1]
  }

  /** The uint32 accumulator after adding `uint32(w)` for every weight. */
  function WeightSum(ws: seq<int>): uint32
  {
    if ws == [] then 0 else U32(WeightSum(ws[..|ws| - 1]) + U32(ws[|ws| - 1]))
  }

  /** `minScore` as the source leaves it. Dividing by `uint32(len(p))`
      panics when that is zero, hence the precondition. */
  function MinScoreOf(ws: seq<int>, people: nat): uint32
    requires U32(people) != 0
  {
    WeightSum(ws) / U32(people)
  }

  /** One more iteration of the accumulating loop. */
  lemma WeightSumSnoc(ws: seq<int>, w: int)
    ensures WeightSum(ws + [w]) == U32(WeightSum(ws) + U32(w))
  {
    assert (ws + [w])[..|ws|] == ws;
  }

  lemma DivLe(x: nat, n: nat)
    requires n >= 1
    ensures 0 <= x / n <= x
  {
  }

  lemma ModAdd(a: int, w: int)
    ensures U32(U32(a) + U32(w)) == U32(a + w)
  {
    var m := TWO32;
    var qa, qw := a / m, w / m;
    assert a == qa * m + a % m;
    assert w == qw * m + w % m;
    assert a + w == (qa + qw) * m + (a % m + w % m);
    ModShift(a % m + w % m, qa + qw);
  }

  lemma ModShift(x: int, q: int)
    ensures (q * TWO32 + x) % TWO32 == x % TWO32
  {
  }

  /** The accumulator holds the true sum modulo 2^32, whatever the signs. */
  lemma {:induction false} WeightSumIsModularSum(ws: seq<int>)
    ensures WeightSum(ws) == Sum(ws) % TWO32
  {
    if ws != [] {
      var front := ws[..|ws| - 1];
      WeightSumIsModularSum(front);
      ModAdd(Sum(front), ws[|ws| - 1]);
    }
  }

  /** When the weights are non-negative and their sum fits in 32 bits,
      `minScore` is the floor of their average over the people:
      `floor(sum / |p|)`. */
  lemma MinScoreIsFloorAverage(ws: seq<int>, people: nat)
    requires 1 <= people < TWO32
    requires 0 <= Sum(ws) < TWO32
    ensures U32(people) != 0
    ensures MinScoreOf(ws, people) == Sum(ws) / people
    ensures people * MinScoreOf(ws, people) <= Sum(ws) < people * MinScoreOf(ws, people) + people
  {
    WeightSumIsModularSum(ws);
    assert WeightSum(ws) == Sum(ws);
    FloorDivBounds(Sum(ws), people);
  }

  lemma FloorDivBounds(x: nat, n: nat)
    requires n >= 1
    ensures n * (x / n) <= x < n * (x / n) + n
  {
    var q, r := x / n, x % n;
    assert x == n * q + r && 0 <= r < n;
  }
}
