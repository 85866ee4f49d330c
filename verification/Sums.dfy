/** Finite sums and square integer matrices. A matrix is its cell function;
    only the cells below its size n matter. */
module Sums {

  type Matrix = (nat, nat) -> int

  function Sum(f: nat -> int, n: nat): int {
    if n == 0 then 0 else Sum(f, n - 1) + f(n - 1)
  }

  lemma {:induction false} SumSame(f: nat -> int, g: nat -> int, n: nat)
    requires forall k: nat | k < n :: f(k) == g(k)
    ensures Sum(f, n) == Sum(g, n)
  {
    if n > 0 { SumSame(f, g, n - 1); }
  }

  lemma {:induction false} SumPlus(f: nat -> int, g: nat -> int, h: nat -> int, n: nat)
    requires forall k: nat | k < n :: h(k) == f(k) + g(k)
    ensures Sum(h, n) == Sum(f, n) + Sum(g, n)
  {
    if n > 0 { SumPlus(f, g, h, n - 1); }
  }

  lemma {:induction false} SumTimes(x: int, f: nat -> int, g: nat -> int, n: nat)
    requires forall k: nat | k < n :: g(k) == x * f(k)
    ensures Sum(g, n) == x * Sum(f, n)
  {
    if n > 0 {
      SumTimes(x, f, g, n - 1);
      Distribute(x, Sum(f, n - 1), f(n - 1));
    }
  }

  lemma Distribute(x: int, y: int, z: int)
    ensures x * (y + z) == x * y + x * z
  {
  }

  /** Row sums and column sums of one table agree. */
  lemma {:induction false} SumSwap(t: Matrix, rows: nat -> int, columns: nat -> int, m: nat, n: nat)
    requires forall i: nat | i < m :: rows(i) == Sum((j: nat) => t(i, j), n)
    requires forall j: nat | j < n :: columns(j) == Sum((i: nat) => t(i, j), m)
    ensures Sum(rows, m) == Sum(columns, n)
  {
    if m == 0 {
      SumTimes(0, columns, columns, n);
    } else {
      var row := (j: nat) => t(m - 1, j);
      var above := (j: nat) => Sum((i: nat) => t(i, j), m - 1);
      SumSwap(t, rows, above, m - 1, n);
      SumPlus(above, row, columns, n);
    }
  }

  function Product(a: Matrix, b: Matrix, n: nat): Matrix {
    (i: nat, j: nat) => Sum((k: nat) => a(i, k) * b(k, j), n)
  }

  ghost predicate Same(a: Matrix, b: Matrix, n: nat) {
    forall i: nat, j: nat | i < n && j < n :: a(i, j) == b(i, j)
  }

  lemma ProductSame(a: Matrix, b: Matrix, c: Matrix, d: Matrix, n: nat)
    requires Same(a, c, n) && Same(b, d, n)
    ensures Same(Product(a, b, n), Product(c, d, n), n)
  {
    forall i: nat, j: nat | i < n && j < n ensures Product(a, b, n)(i, j) == Product(c, d, n)(i, j) {
      SumSame((k: nat) => a(i, k) * b(k, j), (k: nat) => c(i, k) * d(k, j), n);
    }
  }

  lemma ProductAssoc(a: Matrix, b: Matrix, c: Matrix, n: nat)
    ensures Same(Product(Product(a, b, n), c, n), Product(a, Product(b, c, n), n), n)
  {
    forall i: nat, j: nat | i < n && j < n
      ensures Product(Product(a, b, n), c, n)(i, j) == Product(a, Product(b, c, n), n)(i, j)
    {
      ProductAssocAt(a, b, c, n, i, j);
    }
  }

  lemma ProductAssocAt(a: Matrix, b: Matrix, c: Matrix, n: nat, i: nat, j: nat)
    ensures Product(Product(a, b, n), c, n)(i, j) == Product(a, Product(b, c, n), n)(i, j)
  {
    var t: Matrix := (k: nat, l: nat) => a(i, l) * b(l, k) * c(k, j);
    var rows := (k: nat) => Product(a, b, n)(i, k) * c(k, j);
    var columns := (l: nat) => a(i, l) * Product(b, c, n)(l, j);
    forall k: nat | k < n ensures rows(k) == Sum((l: nat) => t(k, l), n) {
      ScaledLeft(a, b, c, t, n, i, j, k);
    }
    forall l: nat | l < n ensures columns(l) == Sum((k: nat) => t(k, l), n) {
      ScaledRight(a, b, c, t, n, i, j, l);
    }
    SumSwap(t, rows, columns, n, n);
    SumSame(rows, (k: nat) => Product(a, b, n)(i, k) * c(k, j), n);
    SumSame(columns, (l: nat) => a(i, l) * Product(b, c, n)(l, j), n);
  }

  lemma ScaledLeft(a: Matrix, b: Matrix, c: Matrix, t: Matrix, n: nat, i: nat, j: nat, k: nat)
    requires forall l: nat :: t(k, l) == a(i, l) * b(l, k) * c(k, j)
    ensures Product(a, b, n)(i, k) * c(k, j) == Sum((l: nat) => t(k, l), n)
  {
    var x := c(k, j);
    forall l: nat | l < n ensures t(k, l) == x * (a(i, l) * b(l, k)) {
    }
    SumTimes(x, (l: nat) => a(i, l) * b(l, k), (l: nat) => t(k, l), n);
  }

  lemma ScaledRight(a: Matrix, b: Matrix, c: Matrix, t: Matrix, n: nat, i: nat, j: nat, l: nat)
    requires forall k: nat :: t(k, l) == a(i, l) * b(l, k) * c(k, j)
    ensures a(i, l) * Product(b, c, n)(l, j) == Sum((k: nat) => t(k, l), n)
  {
    var x := a(i, l);
    forall k: nat | k < n ensures t(k, l) == x * (b(l, k) * c(k, j)) {
      MulAssoc(x, b(l, k), c(k, j));
    }
    SumTimes(x, (k: nat) => b(l, k) * c(k, j), (k: nat) => t(k, l), n);
  }

  lemma MulAssoc(x: int, y: int, z: int)
    ensures x * y * z == x * (y * z)
  {
  }

  // ---------- powers ----------

  /** a multiplied by itself m times, m at least one. */
  function Power(a: Matrix, n: nat, m: nat): Matrix
    requires m > 0
  {
    if m == 1 then a else Product(Power(a, n, m - 1), a, n)
  }

  lemma {:induction false} PowerSum(a: Matrix, n: nat, p: nat, q: nat)
    requires p > 0 && q > 0
    ensures Same(Product(Power(a, n, p), Power(a, n, q), n), Power(a, n, p + q), n)
    decreases q
  {
    if q > 1 {
      PowerSum(a, n, p, q - 1);
      var ap, aq := Power(a, n, p), Power(a, n, q - 1);
      ProductAssoc(ap, aq, a, n);
      ProductSame(Product(ap, aq, n), a, Power(a, n, p + q - 1), a, n);
    }
  }

  // ---------- congruence ----------

  ghost predicate Congruent(a: Matrix, b: Matrix, n: nat, m: nat)
    requires m > 0
  {
    forall i: nat, j: nat | i < n && j < n :: a(i, j) % m == b(i, j) % m
  }

  lemma ModSum(x: int, y: int, m: nat)
    requires m > 0
    ensures (x + y) % m == (x % m + y % m) % m
  {
    ModShift(x % m + y % m, x / m + y / m, m);
    assert x + y == (x % m + y % m) + m * (x / m + y / m);
  }

  lemma ModShift(x: int, q: int, m: nat)
    requires m > 0
    ensures (x + m * q) % m == x % m
  {
    var y := x + m * q;
    assert y == m * (x / m + q) + x % m;
    ModUnique(y, m, x / m + q, x % m);
  }

  lemma ModUnique(y: int, m: nat, q: int, r: int)
    requires m > 0 && y == m * q + r && 0 <= r < m
    ensures y % m == r && y / m == q
  {
    Remainders(y / m, q, y % m, r, m);
  }

  /** Quotient and remainder are determined. */
  lemma Remainders(p: int, q: int, s: int, r: int, m: nat)
    requires m > 0 && m * p + s == m * q + r && 0 <= s < m && 0 <= r < m
    ensures p == q && s == r
  {
    Distribute(m, q, p - q);
    AtLeast(m, p - q);
    AtLeast(m, q - p);
  }

  lemma AtLeast(m: nat, d: int)
    ensures d >= 1 ==> m * d >= m
    ensures m * d == -(m * -d)
  {
  }

  lemma ModProduct(x: int, y: int, u: int, v: int, m: nat)
    requires m > 0 && x % m == u % m && y % m == v % m
    ensures (x * y) % m == (u * v) % m
  {
    var p, q := x / m - u / m, y / m - v / m;
    assert x == u + m * p && y == v + m * q;
    Expand(u, p, v, q, m);
    ModShift(u * v, p * (v + m * q) + u * q, m);
  }

  lemma Expand(u: int, p: int, v: int, q: int, m: int)
    ensures (u + m * p) * (v + m * q) == u * v + m * (p * (v + m * q) + u * q)
  {
    var y := v + m * q;
    assert (u + m * p) * y == u * y + m * (p * y);
    assert u * y == u * v + m * (u * q);
  }

  lemma {:induction false} SumCongruent(f: nat -> int, g: nat -> int, n: nat, m: nat)
    requires m > 0 && forall k: nat | k < n :: f(k) % m == g(k) % m
    ensures Sum(f, n) % m == Sum(g, n) % m
  {
    if n > 0 {
      SumCongruent(f, g, n - 1, m);
      ModSum(Sum(f, n - 1), f(n - 1), m);
      ModSum(Sum(g, n - 1), g(n - 1), m);
    }
  }

  lemma ProductCongruent(a: Matrix, b: Matrix, c: Matrix, d: Matrix, n: nat, m: nat)
    requires m > 0 && Congruent(a, c, n, m) && Congruent(b, d, n, m)
    ensures Congruent(Product(a, b, n), Product(c, d, n), n, m)
  {
    forall i: nat, j: nat | i < n && j < n
      ensures Product(a, b, n)(i, j) % m == Product(c, d, n)(i, j) % m
    {
      var f, g := (k: nat) => a(i, k) * b(k, j), (k: nat) => c(i, k) * d(k, j);
      forall k: nat | k < n ensures f(k) % m == g(k) % m {
        ModProduct(a(i, k), b(k, j), c(i, k), d(k, j), m);
      }
      SumCongruent(f, g, n, m);
    }
  }
}
