/** The quadratic update delta := (delta + round) & (N - 1), N a power of two, visits every residue
    modulo N exactly once in N rounds. */
module QuadraticResidues {
  import opened Arith

  function Triangular(k: nat): (t: nat) {
    if k == 0 then 0 else Triangular(k - 1) + k
  }

  /** Value of groupDelta after k rounds. Masking with N - 1 is remainder modulo the power of two N. */
  function Delta(n: nat, k: nat): (d: nat)
    requires n >= 1
    ensures d < n
  {
    Triangular(k) % n
  }

  /** The update of the round loop. */
  function NextDelta(n: nat, delta: nat, round: nat): (d: nat)
    requires n >= 1
    ensures d < n
  {
    (delta + round) % n
  }

  lemma DeltaStart(n: nat)
    requires n >= 1
    ensures Delta(n, 0) == 0
  {
  }

  /** The update of the round loop leads from one residue to the next. */
  lemma DeltaStep(n: nat, k: nat)
    requires n >= 1
    ensures Delta(n, k + 1) == NextDelta(n, Delta(n, k), k + 1)
  {
    AddResidue(Triangular(k), k + 1, n);
  }

  lemma AddResidue(t: int, k: int, n: int)
    requires n > 0
    ensures (t % n + k) % n == (t + k) % n
  {
    var q, r := t / n, t % n;
    assert t == q * n + r;
    ModAdd(r + k, q, n);
  }

  lemma {:induction false} TriangularDouble(k: nat)
    ensures 2 * Triangular(k) == k * (k + 1)
  {
    if k != 0 {
      TriangularDouble(k - 1);
      assert k * (k + 1) == (k - 1) * k + 2 * k;
    }
  }

  /** The delta of round k is k(k + 1)/2 modulo N. */
  lemma DeltaMeaning(n: nat, k: nat)
    requires n >= 1
    ensures Delta(n, k) == (k * (k + 1) / 2) % n
  {
    TriangularDouble(k);
  }

  /** An odd factor contributes nothing to a power of two: 2^m divides x*y with x odd only if it divides y. */
  lemma {:induction false} OddFactor(m: nat, x: int, y: int, q: int) returns (w: int)
    requires x % 2 == 1
    requires x * y == Pow2(m) * q
    ensures y == Pow2(m) * w
  {
    if m == 0 {
      w := y;
    } else {
      EvenFactor(x, y, Pow2(m - 1) * q);
      var z := y / 2;
      Halve(x, z, Pow2(m - 1), q);
      var v := OddFactor(m - 1, x, z, q);
      w := v;
      assert y == 2 * (Pow2(m - 1) * w);
    }
  }

  lemma Halve(x: int, z: int, p: int, q: int)
    requires x * (2 * z) == (2 * p) * q
    ensures x * z == p * q
  {
    assert x * (2 * z) == 2 * (x * z);
    assert (2 * p) * q == 2 * (p * q);
  }

  lemma EvenFactor(x: int, y: int, h: int)
    requires x % 2 == 1 && x * y == 2 * h
    ensures y % 2 == 0
  {
    OddTimesOdd(x / 2, y / 2);
  }

  lemma OddTimesOdd(a: int, b: int)
    ensures (2 * a + 1) * (2 * b + 1) == 2 * (2 * (a * b) + a + b) + 1
  {
  }

  lemma PositiveMultiple(p: int, w: int, y: int)
    requires p > 0 && y == p * w && y > 0
    ensures y >= p
  {
    MulMono(w, 0, p);
    MulMono(1, w, p);
  }

  /** Two different rounds never produce the same residue. */
  lemma DeltaInjective(m: nat, a: nat, b: nat)
    requires a < b < Pow2(m)
    ensures Delta(Pow2(m), a) != Delta(Pow2(m), b)
  {
    if Delta(Pow2(m), a) == Delta(Pow2(m), b) {
      var q := SameResidueProduct(m, a, b);
      NoCommonMultiple(m, b - a, b + a + 1, q);
    }
  }

  lemma SameResidueProduct(m: nat, a: nat, b: nat) returns (q: int)
    requires Delta(Pow2(m), a) == Delta(Pow2(m), b)
    ensures (b - a) * (b + a + 1) == Pow2(m + 1) * q
  {
    var n := Pow2(m);
    q := EqualResidues(Triangular(a), Triangular(b), n);
    TriangularDouble(a);
    TriangularDouble(b);
    DifferenceOfProducts(a, b);
    Double(n, q, Triangular(b) - Triangular(a));
  }

  lemma EqualResidues(s: int, t: int, n: int) returns (q: int)
    requires n > 0 && s % n == t % n
    ensures t - s == n * q
  {
    q := t / n - s / n;
    assert s == n * (s / n) + s % n;
    assert t == n * (t / n) + t % n;
    assert n * q == n * (t / n) - n * (s / n);
  }

  lemma DifferenceOfProducts(a: int, b: int)
    ensures (b - a) * (b + a + 1) == b * (b + 1) - a * (a + 1)
  {
  }

  lemma Double(n: int, q: int, d: int)
    requires d == n * q
    ensures 2 * d == (2 * n) * q
  {
  }

  lemma NoCommonMultiple(m: nat, x: int, y: int, q: int)
    requires 0 < x < Pow2(m + 1) && 0 < y < Pow2(m + 1)
    requires (x + y) % 2 == 1
    ensures x * y != Pow2(m + 1) * q
  {
    if x % 2 == 1 {
      OddTimesSmall(m + 1, x, y, q);
    } else {
      OddTimesSmall(m + 1, y, x, q);
    }
  }

  lemma OddTimesSmall(k: nat, x: int, y: int, q: int)
    requires x % 2 == 1 && 0 < y < Pow2(k)
    ensures x * y != Pow2(k) * q
  {
    if x * y == Pow2(k) * q {
      var w := OddFactor(k, x, y, q);
      PositiveMultiple(Pow2(k), w, y);
    }
  }
}
