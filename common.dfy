/** Go value semantics shared by the whole model: optional values (nil
    pointers and map misses), the unsigned integer widths the source uses,
    and Go's truncating integer division. */
module GoValues {

  datatype Option<+T> = None | Some(value: T)

  const TWO16: int := 0x1_0000
  const TWO32: int := 0x1_0000_0000
  const TWO64: int := 0x1_0000_0000_0000_0000

  type uint16 = x: int | 0 <= x < TWO16
  type uint32 = x: int | 0 <= x < TWO32
  type uint64 = x: int | 0 <= x < TWO64

  /** Go's conversion `uint32(x)` of any integer: keep the low 32 bits. */
  function U32(x: int): (r: uint32)
    ensures 0 <= x < TWO32 ==> r == x
  {
    x % TWO32
  }

  /** Go's uint16 arithmetic: the result wraps modulo 2^16. */
  function U16(x: int): (r: uint16)
    ensures 0 <= x < TWO16 ==> r == x
  {
    x % TWO16
  }

  /** Go's integer division `a / 5`, which truncates toward zero (Dafny's
      `/` is Euclidean and rounds negative dividends down). */
  function Div5(a: int): (q: int)
    ensures a >= 0 ==> 5 * q <= a < 5 * q + 5
    ensures a < 0 ==> 5 * q - 5 < a <= 5 * q
  {
    if a >= 0 then a / 5 else -((-a) / 5)
  }

  /** The slot after `i` in a ring of `n`: Go's `j := i + 1; if j >= n { j = 0 }`. */
  function Next(i: nat, n: nat): (j: nat)
    requires i < n
    ensures j < n
  {
    if i + 1 >= n then 0 else i + 1
  }

  lemma {:induction false} MulAtLeast(n: nat, d: nat)
    requires d >= 1
    ensures n * d >= n
    decreases d
  {
    if d > 1 {
      MulAtLeast(n, d - 1);
      assert n * d == n * (d - 1) + n;
    }
  }

  lemma MulGap(a: nat, b: nat, n: nat)
    requires a > b
    ensures a * n >= b * n + n
  {
    MulAtLeast(n, a - b);
    assert a * n == b * n + (a - b) * n;
  }

  /** Euclidean division is unique: `x == q * n + r` with `0 <= r < n`
      determines `x / n` and `x % n`. */
  lemma ModUnique(x: nat, n: nat, q: nat, r: nat)
    requires n >= 1 && r < n && x == q * n + r
    ensures x % n == r && x / n == q
  {
    var q0, r0 := x / n, x % n;
    assert x == q0 * n + r0 && 0 <= r0 < n;
    if q0 > q {
      MulGap(q0, q, n);
    } else if q > q0 {
      MulGap(q, q0, n);
    }
  }

  /** Counting one further wraps exactly like the ring step. */
  lemma ModStep(i: nat, n: nat)
    requires n >= 1
    ensures (i + 1) % n == Next(i % n, n)
  {
    var q, r := i / n, i % n;
    assert i == q * n + r && 0 <= r < n;
    if r + 1 == n {
      ModUnique(i + 1, n, q + 1, 0);
    } else {
      ModUnique(i + 1, n, q, r + 1);
    }
  }

  lemma ModSmall(i: nat, n: nat)
    requires i < n
    ensures i % n == i
  {
    ModUnique(i, n, 0, i);
  }
}
