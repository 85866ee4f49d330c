/** Three has order 255 in GF(2^8), so its powers run through every non-zero
    byte exactly once: the fact that makes exp/log tables invert. */
module PowersOfThree {
  import opened NatBits
  import opened GF256

  lemma {:induction false} Square(a: byte, b: byte)
    ensures Mul(XorByte(a, b), XorByte(a, b)) == XorByte(Mul(a, a), Mul(b, b))
  {
    var c := XorByte(a, b);
    MulXorLeft(a, b, c);
    MulXor(a, a, b);
    MulXor(b, a, b);
    MulComm(a, b);
    CrossTermsCancel(Mul(a, a), Mul(a, b), Mul(b, b));
  }

  lemma {:induction false} CrossTermsCancel(p: byte, q: byte, r: byte)
    ensures Xor(Xor(p, q), Xor(q, r)) == Xor(p, r)
  {
    XorAssoc(p, q, Xor(q, r));
    XorCancel(r, q);
  }

  /** With h = 3^17: h^4 = h + 1, so f = h^5 has f^2 = f + 1 and f^3 = 1. */
  lemma {:induction false} FifthPower(h: byte, h2: byte, f: byte)
    requires h2 == Mul(h, h) && Mul(h2, h2) == Xor(h, 1)
    requires f == Xor(h2, h)
    ensures Mul(Xor(h, 1), h) == f
    ensures Mul(f, f) == Xor(f, 1)
    ensures Mul(f, Mul(f, f)) == 1
  {
    MulXorLeft(h, 1, h);
    MulComm(1, h);
    MulByOne(h);
    Square(h2, h);
    XorComm(h, 1);
    XorAssoc(1, h, h2);
    XorComm(h, h2);
    XorComm(1, f);
    assert Mul(f, f) == Xor(f, 1);
    MulXor(f, f, 1);
    MulByOne(f);
    XorComm(f, 1);
    XorCancel(1, f);
  }

  /** The exponents are multiples of a named k so that the solver does not try
      to unfold 255 tripling steps. */
  lemma {:induction false} PowersOfH(k: nat)
    requires k == 17
    ensures Pow3(k) == 0xE1 && Pow3(2 * k) == 0x5C && Pow3(4 * k) == 0xE0
  {
    FirstPowers();
    SquareOf17();
    SquareOf34();
    PowSum(k, k);
    PowSum(2 * k, 2 * k);
  }

  lemma {:induction false} PowersOfF(k: nat, h: byte, h2: byte, f: byte)
    requires k == 17 && h == 0xE1 && h2 == 0x5C && f == 0xBD
    ensures Pow3(15 * k) == 1 && Pow3(5 * k) == f
  {
    PowersOfH(k);
    PowSum(k, k);
    PowSum(2 * k, 2 * k);
    ByteBits.XorValue(0xE1, 1, 0xE0, h, 1, 0xE0);
    ByteBits.XorValue(0x5C, 0xE1, 0xBD, h2, h, f);
    FifthPower(h, h2, f);
    PowSum(4 * k, k);
    PowSum(5 * k, 5 * k);
    PowSum(5 * k, 10 * k);
  }

  lemma {:induction false} Periods(k: nat)
    requires k == 17
    ensures Pow3(15 * k) == 1 && Pow3(5 * k) != 1 && Pow3(3 * k) != 1
  {
    PowersOfF(k, 0xE1, 0x5C, 0xBD);
    PowersOfH(k);
    PowSum(3 * k, k);
    MulComm(1, 0xE1);
    MulByOne(0xE1);
  }

  /** The periods of three are closed under difference, hence under gcd. */
  lemma {:induction false} CommonPeriod(i: nat, j: nat) returns (g: nat, a: nat, b: nat)
    requires i > 0 && j > 0 && Pow3(i) == 1 && Pow3(j) == 1
    ensures 0 < g && Pow3(g) == 1 && i == g * a && j == g * b
    decreases i + j
  {
    if i == j {
      g, a, b := i, 1, 1;
    } else if i > j {
      PowSum(i - j, j);
      MulByOne(Pow3(i - j));
      g, a, b := CommonPeriod(i - j, j);
      assert g * (a + b) == g * a + g * b;
      a := a + b;
    } else {
      PowSum(j - i, i);
      MulByOne(Pow3(j - i));
      g, a, b := CommonPeriod(i, j - i);
      assert g * (a + b) == g * a + g * b;
      b := a + b;
    }
  }

  lemma {:induction false} FactorsOf255(g: nat, b: nat) returns (d: nat, c: nat)
    requires g * b == 255 && b > 1
    ensures b == d * c && (d == 3 || d == 5 || d == 17)
  {
    if b <= 16 {
      Cofactor(g, b);
      d := if b == 5 then 5 else 3;
    } else {
      if g > 15 { SmallerProduct(16, 17, g, b); }
      Cofactor(b, g);
      d := if b == 85 then 5 else if b == 17 then 17 else 3;
    }
    c := b / d;
  }

  lemma {:induction false} SmallerProduct(a: nat, b: nat, c: nat, d: nat)
    requires a <= c && b <= d
    ensures a * b <= c * d
  {
    assert a * b <= c * b;
  }

  lemma {:induction false} Cofactor(x: nat, y: nat)
    requires x * y == 255 && y <= 16
    ensures (y == 1 && x == 255) || (y == 3 && x == 85) || (y == 5 && x == 51) || (y == 15 && x == 17)
  {
    assert y == 0 || y == 1 || y == 2 || y == 3 || y == 4 || y == 5 || y == 6 || y == 7 || y == 8
        || y == 9 || y == 10 || y == 11 || y == 12 || y == 13 || y == 14 || y == 15 || y == 16;
  }

  function Repeated(g: nat, k: nat): (m: nat)
    ensures m == g * k
  {
    if k == 0 then 0 else Repeated(g, k - 1) + g
  }

  lemma {:induction false} MultipleOfPeriod(g: nat, k: nat)
    requires Pow3(g) == 1
    ensures Pow3(Repeated(g, k)) == 1
    decreases k
  {
    if k > 0 {
      MultipleOfPeriod(g, k - 1);
      PowSum(Repeated(g, k - 1), g);
      MulByOne(1);
    }
  }

  /** No smaller positive power of three is one. */
  lemma {:induction false} OrderIs255(e: nat)
    requires 0 < e < 255
    ensures Pow3(e) != 1
  {
    hide Pow3;
    NoShorterPeriod(e, 17);
  }

  lemma {:induction false} NoShorterPeriod(e: nat, k: nat)
    requires 0 < e < 255 && k == 17
    ensures Pow3(e) != 1
  {
    Periods(k);
    if Pow3(e) == 1 {
      var g, a, b := CommonPeriod(e, 15 * k);
      ProperDivisor(e, g, a, b);
      var d, c := FactorsOf255(g, b);
      DividedPeriod(g, b, d, c, if d == 3 then 5 * k else if d == 5 then 3 * k else 15);
      FirstPowers();
      assert false;
    }
  }

  lemma {:induction false} ProperDivisor(e: nat, g: nat, a: nat, b: nat)
    requires 0 < e < 255 && e == g * a && 255 == g * b
    ensures b > 1
  {
    if b == 1 { SmallerProduct(g, 1, g, a); }
  }

  lemma {:induction false} DividedPeriod(g: nat, b: nat, d: nat, c: nat, m: nat)
    requires Pow3(g) == 1 && d > 0 && b == d * c && g * b == d * m
    ensures Pow3(m) == 1
  {
    Cancel(g, b, d, c, m);
    MultipleOfPeriod(g, c);
  }

  lemma {:induction false} Cancel(g: nat, b: nat, d: nat, c: nat, m: nat)
    requires d > 0 && b == d * c && g * b == d * m
    ensures m == g * c
  {
    assert d * (g * c) == g * b;
    assert d * (g * c - m) == 0;
  }

  lemma {:induction false} PowNonZero(i: nat)
    requires i <= 255
    ensures Pow3(i) != 0
  {
    hide Pow3;
    PeriodNonZero(i, 17);
  }

  lemma {:induction false} PeriodNonZero(i: nat, k: nat)
    requires i <= 255 && k == 17
    ensures Pow3(i) != 0
  {
    Periods(k);
    PowSum(15 * k - i, i);
  }

  /** No two of the first 255 powers agree. */
  lemma {:induction false} PowInjective(i: nat, j: nat)
    requires i < 255 && j < 255 && Pow3(i) == Pow3(j)
    ensures i == j
  {
    hide Pow3;
    PowersDiffer(i, j, 17);
  }

  lemma {:induction false} PowersDiffer(i: nat, j: nat, k: nat)
    requires i < 255 && j < 255 && k == 17 && Pow3(i) == Pow3(j)
    ensures i == j
  {
    if i < j {
      Periods(k);
      PowSum(i, 15 * k - j);
      PowSum(j, 15 * k - j);
      NoShorterPeriod(i + (15 * k - j), k);
    } else if j < i {
      Periods(k);
      PowSum(i, 15 * k - i);
      PowSum(j, 15 * k - i);
      NoShorterPeriod(j + (15 * k - i), k);
    }
  }

  /** The exponents below n and their powers. */
  function Powers(n: nat): set<int> {
    set i | 0 <= i < n :: Pow3(i) as int
  }

  lemma {:induction false} PowersCount(n: nat)
    requires n <= 255
    ensures |Powers(n)| == n
  {
    if n > 0 {
      PowersCount(n - 1);
      var p: int := Pow3(n - 1);
      if p in Powers(n - 1) {
        var j :| 0 <= j < n - 1 && Pow3(j) as int == p;
        PowInjective(j, n - 1);
      }
      assert Powers(n) == Powers(n - 1) + {p};
    }
  }

  function UpTo(n: nat): (s: set<int>)
    ensures |s| == n && forall v :: v in s <==> 1 <= v <= n
  {
    if n == 0 then {} else UpTo(n - 1) + {n}
  }

  lemma {:induction false} SubsetOfSameSize(a: set<int>, b: set<int>)
    requires a <= b && |a| == |b|
    ensures a == b
  {
    assert |b - a| == |b| - |a|;
  }

  /** Every non-zero byte is a power of three with exponent below 255. */
  lemma {:induction false} Discrete(v: byte) returns (i: nat)
    requires v != 0
    ensures i < 255 && Pow3(i) == v
  {
    PowersCount(255);
    var all := UpTo(255);
    forall i | 0 <= i < 255 ensures (Pow3(i) as int) in all {
      PowNonZero(i);
    }
    SubsetOfSameSize(Powers(255), all);
    assert (v as int) in Powers(255);
    i :| 0 <= i < 255 && Pow3(i) as int == v;
  }
}
