/** Natural numbers read as bit strings, the way Python's unbounded integers
    behave under `^`, `|`, `>>` and masks. Every byte and word of the project is
    a natural with its width stated, so each wrap-around is written out. */
module NatBits {

  type byte = b: int | 0 <= b < 256

  function Pow2(k: nat): (p: nat)
    ensures p > 0
  {
    if k == 0 then 1 else 2 * Pow2(k - 1)
  }

  predicate Bit(a: nat, k: nat)
    decreases k
  {
    if k == 0 then a % 2 == 1 else Bit(a / 2, k - 1)
  }

  function Xor(a: nat, b: nat): nat
    decreases a + b
  {
    if a == 0 && b == 0 then 0
    else (if a % 2 != b % 2 then 1 else 0) + 2 * Xor(a / 2, b / 2)
  }

  function Or(a: nat, b: nat): nat
    decreases a + b
  {
    if a == 0 && b == 0 then 0
    else (if a % 2 == 1 || b % 2 == 1 then 1 else 0) + 2 * Or(a / 2, b / 2)
  }

  lemma {:induction false} ZeroBit(k: nat)
    ensures !Bit(0, k)
  {
    if k > 0 { ZeroBit(k - 1); }
  }

  /** Xor is the bitwise exclusive or, at every position. */
  lemma {:induction false} XorBit(a: nat, b: nat, k: nat)
    ensures Bit(Xor(a, b), k) == (Bit(a, k) != Bit(b, k))
    decreases k
  {
    if a == 0 && b == 0 {
      ZeroBit(k);
    } else if k > 0 {
      assert Xor(a, b) / 2 == Xor(a / 2, b / 2);
      XorBit(a / 2, b / 2, k - 1);
    }
  }

  lemma XorBits()
    ensures forall a: nat, b: nat, k: nat {:trigger Bit(Xor(a, b), k)} ::
              Bit(Xor(a, b), k) == (Bit(a, k) != Bit(b, k))
  {
    forall a: nat, b: nat, k: nat ensures Bit(Xor(a, b), k) == (Bit(a, k) != Bit(b, k)) {
      XorBit(a, b, k);
    }
  }

  /** A number is determined by its bits. */
  lemma {:induction false} SameBits(a: nat, b: nat)
    requires forall k: nat :: Bit(a, k) == Bit(b, k)
    ensures a == b
    decreases a + b
  {
    if a != 0 || b != 0 {
      assert Bit(a, 0) == Bit(b, 0);
      forall k: nat ensures Bit(a / 2, k) == Bit(b / 2, k) {
        assert Bit(a, k + 1) == Bit(b, k + 1);
      }
      SameBits(a / 2, b / 2);
    }
  }

  lemma XorComm(a: nat, b: nat)
    ensures Xor(a, b) == Xor(b, a)
  {
    XorBits();
    SameBits(Xor(a, b), Xor(b, a));
  }

  lemma XorAssoc(a: nat, b: nat, c: nat)
    ensures Xor(Xor(a, b), c) == Xor(a, Xor(b, c))
  {
    XorBits();
    SameBits(Xor(Xor(a, b), c), Xor(a, Xor(b, c)));
  }

  lemma {:induction false} XorZero(a: nat)
    ensures Xor(a, 0) == a && Xor(0, a) == a
  {
    if a != 0 { XorZero(a / 2); }
  }

  lemma {:induction false} XorSelf(a: nat)
    ensures Xor(a, a) == 0
  {
    if a != 0 { XorSelf(a / 2); }
  }

  /** Masking twice with the same value restores the operand. */
  lemma XorCancel(a: nat, b: nat)
    ensures Xor(Xor(a, b), b) == a && Xor(b, Xor(b, a)) == a
  {
    XorAssoc(a, b, b);
    XorAssoc(b, b, a);
    XorSelf(b);
    XorZero(a);
  }

  lemma XorSwap(a: nat, b: nat, c: nat, d: nat)
    ensures Xor(Xor(a, b), Xor(c, d)) == Xor(Xor(a, c), Xor(b, d))
  {
    XorBits();
    SameBits(Xor(Xor(a, b), Xor(c, d)), Xor(Xor(a, c), Xor(b, d)));
  }

  lemma {:induction false} XorBelow(a: nat, b: nat, n: nat)
    requires a < Pow2(n) && b < Pow2(n)
    ensures Xor(a, b) < Pow2(n)
  {
    if n > 0 && (a != 0 || b != 0) { XorBelow(a / 2, b / 2, n - 1); }
  }

  /** Xor acts on the high and the low part of a number separately. */
  lemma {:induction false} XorSplit(n: nat, p: nat, q: nat, x: nat, y: nat)
    requires x < Pow2(n) && y < Pow2(n)
    ensures Xor(Pow2(n) * p + x, Pow2(n) * q + y) == Pow2(n) * Xor(p, q) + Xor(x, y)
    decreases n
  {
    if n > 0 {
      DoublePow2(n, p);
      DoublePow2(n, q);
      DoublePow2(n, Xor(p, q));
      XorDouble(Pow2(n - 1) * p, Pow2(n - 1) * q, x, y);
      XorSplit(n - 1, p, q, x / 2, y / 2);
    }
  }

  lemma DoublePow2(n: nat, p: nat)
    requires n > 0
    ensures Pow2(n) * p == 2 * (Pow2(n - 1) * p)
  {
  }

  lemma XorDouble(u: nat, v: nat, x: nat, y: nat)
    ensures Xor(2 * u + x, 2 * v + y) - Xor(x, y) == 2 * (Xor(u + x / 2, v + y / 2) - Xor(x / 2, y / 2))
  {
    hide *;
    XorHalf(2 * u + x, 2 * v + y);
    XorHalf(x, y);
    assert (2 * u + x) / 2 == u + x / 2 && (2 * u + x) % 2 == x % 2;
    assert (2 * v + y) / 2 == v + y / 2 && (2 * v + y) % 2 == y % 2;
  }

  lemma XorHalf(a: nat, b: nat)
    ensures Xor(a, b) == (if a % 2 != b % 2 then 1 else 0) + 2 * Xor(a / 2, b / 2)
  {
  }

  lemma XorCons(p: bool, q: bool, x: nat, y: nat)
    ensures Xor((if p then 1 else 0) + 2 * x, (if q then 1 else 0) + 2 * y) == (if p != q then 1 else 0) + 2 * Xor(x, y)
  {
    XorHalf((if p then 1 else 0) + 2 * x, (if q then 1 else 0) + 2 * y);
  }

  /** `a >> s`. */
  function Shr(a: nat, s: nat): nat
    decreases s
  {
    if s == 0 then a else Shr(a / 2, s - 1)
  }

  /** A right shift is the floor of the division by a power of two. */
  lemma {:induction false} ShrFloors(a: nat, s: nat)
    ensures Pow2(s) * Shr(a, s) <= a < Pow2(s) * Shr(a, s) + Pow2(s)
    decreases s
  {
    if s > 0 {
      ShrFloors(a / 2, s - 1);
      FloorDoubles(a, Pow2(s - 1), Shr(a / 2, s - 1));
    }
  }

  lemma FloorDoubles(a: nat, p: nat, q: nat)
    requires p * q <= a / 2 < p * q + p
    ensures 2 * p * q <= a < 2 * p * q + 2 * p
  {
    assert 2 * p * q == 2 * (p * q);
  }

  lemma {:induction false} ShrXor(a: nat, b: nat, s: nat)
    ensures Shr(Xor(a, b), s) == Xor(Shr(a, s), Shr(b, s))
    decreases s
  {
    if s > 0 {
      assert Xor(a, b) / 2 == Xor(a / 2, b / 2);
      ShrXor(a / 2, b / 2, s - 1);
    }
  }

  lemma {:induction false} ShrShr(a: nat, s: nat, t: nat)
    ensures Shr(Shr(a, s), t) == Shr(a, s + t)
    decreases s
  {
    if s > 0 { ShrShr(a / 2, s - 1, t); }
  }

  lemma {:induction false} ShrVanishes(a: nat, n: nat, s: nat)
    requires a < Pow2(n) && n <= s
    ensures Shr(a, s) == 0
    decreases s
  {
    if n > 0 {
      ShrVanishes(a / 2, n - 1, s - 1);
    } else if s > 0 {
      ShrVanishes(0, 0, s - 1);
    }
  }

  lemma {:induction false} ShrBelow(a: nat, s: nat)
    ensures Shr(a, s) <= a
    decreases s
  {
    if s > 0 { ShrBelow(a / 2, s - 1); }
  }

  function XorByte(a: byte, b: byte): byte
  {
    XorBelow(a, b, 8);
    Xor(a, b)
  }
}
