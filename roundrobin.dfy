/** The round-robin index every `Randomize` variant walks: `rIndex`
    starts at 0, and at the top of each iteration
    `if rIndex >= len(p) { allChecked = true; rIndex = 0 }`, then
    `rIndex++` at the bottom. */
module RoundRobin {
  import opened GoValues

  /** The slot iteration `i` looks at: slot 0 first, then one step along
      the ring per iteration. SlotIsMod shows it is `i % n`. */
  function SlotOf(i: nat, n: nat): (s: nat)
    requires n >= 1
    ensures s < n
  {
    if i == 0 then 0 else Next(SlotOf(i - 1, n), n)
  }

  lemma {:induction false} SlotIsMod(i: nat, n: nat)
    requires n >= 1
    ensures SlotOf(i, n) == i % n
  {
    if i > 0 {
      SlotIsMod(i - 1, n);
      ModStep(i - 1, n);
    }
  }

  /** In the first lap the slot is the iteration number. */
  lemma {:induction false} SlotInFirstLap(i: nat, n: nat)
    requires i < n
    ensures SlotOf(i, n) == i
  {
    if i > 0 {
      SlotInFirstLap(i - 1, n);
    }
  }

  /** `rIndex` at the top of iteration `i`: one past the slot of the
      previous iteration. */
  function RIndexAt(i: nat, n: nat): nat
    requires n >= 1
  {
    if i == 0 then 0 else SlotOf(i - 1, n) + 1
  }

  /** The wrap check at the top of iteration `i` leaves `rIndex` at the slot
      of iteration `i` and sets `allChecked` from iteration `len(p)` on. */
  lemma WrapCheck(i: nat, n: nat)
    requires n >= 1
    ensures var r := RIndexAt(i, n);
      (if r >= n then 0 else r) == SlotOf(i, n) &&
      (if r >= n then 0 else r) + 1 == RIndexAt(i + 1, n) &&
      ((i > n || r >= n) <==> i >= n)
  {
    if 0 < i <= n {
      SlotInFirstLap(i - 1, n);
    }
  }
}
