/** Integer arithmetic shared by the models: powers of two, rounding up, and cancellation facts about
    division and remainder that the solver does not find unaided. */
module Arith {

  function Pow2(k: nat): (p: nat)
    ensures p >= 1
  {
    if k == 0 then 1 else 2 * Pow2(k - 1)
  }

  ghost predicate IsPow2(n: int) {
    exists k: nat :: n == Pow2(k)
  }

  /** Smallest power of two that is at least n. */
  function Log2Up(n: nat): (k: nat)
    requires n >= 1
    ensures n <= Pow2(k) < 2 * n
  {
    if n == 1 then 0 else 1 + Log2Up((n + 1) / 2)
  }

  function DivUp(x: int, y: int): int
    requires y > 0
  {
    (x + y - 1) / y
  }

  function AlignUp(x: int, a: int): int
    requires a > 0
  {
    DivUp(x, a) * a
  }

  function Min(a: int, b: int): int {
    if a < b then a else b
  }

  function Max(a: int, b: int): int {
    if a < b then b else a
  }

  function Abs(x: int): nat {
    if x < 0 then -x else x
  }

  /** The remainder of a division that rounds toward zero: it has the sign of x. */
  function TruncRem(x: int, d: int): (r: int)
    requires d != 0
    ensures Abs(r) == Abs(x) % Abs(d)
  {
    if x < 0 then -(-x % Abs(d)) else x % Abs(d)
  }

  /** The quotient of that division. */
  function TruncQuot(x: int, d: int): int
    requires d != 0
  {
    if (x < 0) != (d < 0) then -(Abs(x) / Abs(d)) else Abs(x) / Abs(d)
  }

  lemma Distribute(a: int, b: int, c: int)
    ensures (a + b) * c == a * c + b * c
  {
  }

  lemma MulDivMod(q: int, d: int, r: int)
    requires d > 0 && 0 <= r < d
    ensures (q * d + r) / d == q
    ensures (q * d + r) % d == r
  {
    var x := q * d + r;
    assert x == (x / d) * d + x % d;
    DivUnique(x / d, q, d, x % d, r);
  }

  lemma DivUnique(q1: int, q2: int, d: int, r1: int, r2: int)
    requires d > 0 && 0 <= r1 < d && 0 <= r2 < d
    requires q1 * d + r1 == q2 * d + r2
    ensures q1 == q2 && r1 == r2
  {
    Gap(q1, q2, d);
    Gap(q2, q1, d);
  }

  /** Multiples of d that differ are at least d apart. */
  lemma Gap(p: int, q: int, d: int)
    requires d > 0
    ensures p < q ==> p * d + d <= q * d
  {
    if p < q {
      MulMono(p + 1, q, d);
    }
  }

  lemma ModAdd(x: int, k: int, d: int)
    requires d > 0
    ensures (x + k * d) % d == x % d
  {
    MulDivMod(x / d + k, d, x % d);
    assert (x / d + k) * d + x % d == x + k * d;
  }

  lemma DivUpBounds(x: int, y: int)
    requires y > 0
    ensures x <= DivUp(x, y) * y < x + y
  {
    var z := x + y - 1;
    assert z == (z / y) * y + z % y;
  }

  lemma AlignUpProps(x: int, a: int)
    requires a > 0
    ensures x <= AlignUp(x, a) < x + a
    ensures AlignUp(x, a) % a == 0
  {
    DivUpBounds(x, a);
    MulDivMod(DivUp(x, a), a, 0);
  }

  /** The rounded-up value is the least multiple of a that is not below x. */
  lemma AlignUpLeast(x: int, a: int, y: int)
    requires a > 0 && x <= y && y % a == 0
    ensures AlignUp(x, a) <= y
  {
    DivUpBounds(x, a);
    Gap(y / a, DivUp(x, a), a);
    MulMono(DivUp(x, a), y / a, a);
  }

  lemma MulMono(a: int, b: int, c: int)
    requires 0 <= c
    ensures a <= b ==> a * c <= b * c
  {
    if a <= b {
      assert 0 <= (b - a) * c;
    }
  }

  /** What divides two numbers divides the first one plus any multiple of the second. */
  lemma DividesSum(x: int, y: int, q: int, d: int)
    requires d > 0 && x % d == 0 && y % d == 0
    ensures (x + q * y) % d == 0
  {
    var a, b := x / d, y / d;
    assert x == a * d && y == b * d;
    assert x + q * y == (a + q * b) * d;
    MulDivMod(a + q * b, d, 0);
  }

  lemma ModMultiple(x: int, y: int, d: int)
    requires d > 0 && y > 0 && x % y == 0 && y % d == 0
    ensures x % d == 0
  {
    var p, q := x / y, y / d;
    assert x == p * y && y == q * d;
    assert x == (p * q) * d;
    MulDivMod(p * q, d, 0);
  }
}
