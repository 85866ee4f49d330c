/** The field GF(2^8) of FIPS 197 section 4.2. The payload multiplies only by
    doubling (`xtime`) and by three; here that doubling is extended to the full
    product, and three is shown to generate every non-zero byte. */
module GF256 {
  import opened NatBits
  import ByteBits

  /** scrape.py shifts, then reduces by 0x11B when bit 8 came up. */
  function XTime(value: byte): byte {
    var doubled := 2 * value;
    if doubled / 0x100 % 2 == 1 then Xor(doubled, 0x11B) % 0x100 else doubled
  }

  /** Multiplication modulo x^8 + x^4 + x^3 + x + 1: the sum of the doublings
      of `a` selected by the bits of `b` (FIPS 197 section 4.2.1). */
  function Mul(a: byte, b: nat): byte
    decreases b
  {
    if b == 0 then 0 else XorByte(if b % 2 == 1 then a else 0, Mul(XTime(a), b / 2))
  }

  function Times3(a: byte): byte { XorByte(a, XTime(a)) }

  /** The i-th power of three, the value `build_sbox` writes to exp[i]. */
  function Pow3(i: nat): byte {
    if i == 0 then 1 else Times3(Pow3(i - 1))
  }

  // ---------- doubling is linear ----------

  function Carry(a: byte): nat { if a >= 128 then 0x11B else 0 }

  lemma TopBit(a: byte, b: byte)
    ensures (Xor(a, b) >= 128) == ((a >= 128) != (b >= 128))
  {
    assert Pow2(7) == 128;
    XorSplit(7, a / 128, b / 128, a % 128, b % 128);
    XorBelow(a % 128, b % 128, 7);
  }

  lemma XTimeHigh(v: byte)
    requires v >= 128
    ensures XTime(v) == Xor(2 * v - 256, 0x1B)
  {
    assert Pow2(8) == 256;
    XorSplit(8, 1, 1, 2 * v - 256, 0x1B);
    XorBelow(2 * v - 256, 0x1B, 8);
  }

  lemma XTimeReduces(a: byte)
    ensures XTime(a) == Xor(2 * a, Carry(a))
  {
    if a >= 128 {
      XTimeHigh(a);
      assert Pow2(8) == 256;
      XorSplit(8, 1, 1, 2 * a - 256, 0x1B);
    } else {
      XorZero(2 * a);
    }
  }

  lemma CarryXor(a: byte, b: byte)
    ensures Carry(XorByte(a, b)) == Xor(Carry(a), Carry(b))
  {
    TopBit(a, b);
    XorZero(0x11B);
    XorZero(0);
    XorSelf(0x11B);
    hide Xor;
  }

  lemma DoubleXor(a: nat, b: nat)
    ensures Xor(2 * a, 2 * b) == 2 * Xor(a, b)
  {
    XorHalf(2 * a, 2 * b);
  }

  lemma XTimeXor(a: byte, b: byte)
    ensures XTime(XorByte(a, b)) == XorByte(XTime(a), XTime(b))
  {
    hide Xor, XTime, Carry;
    DoubleXor(a, b);
    XTimeReduces(a);
    XTimeReduces(b);
    XTimeReduces(XorByte(a, b));
    CarryXor(a, b);
    XorSwap(2 * a, 2 * b, Carry(a), Carry(b));
  }

  lemma XTimeValue(x: bv8, y: bv8, v: byte, w: nat)
    requires v == x as int && w == y as int && y == ByteBits.Doubled(x)
    ensures XTime(v) == w
  {
    ByteBits.DoubleValue(x, v);
    if v >= 128 {
      XTimeHigh(v);
      ByteBits.XorValue(x << 1, 0x1B, y, 2 * v - 256, 0x1B, w);
    }
  }

  // ---------- the product is bilinear and compatible with doubling ----------

  lemma {:induction false} MulXor(a: byte, b: nat, c: nat)
    ensures Mul(a, Xor(b, c)) == XorByte(Mul(a, b), Mul(a, c))
    decreases b + c
  {
    if b == 0 || c == 0 {
      XorZero(if b == 0 then c else b);
      XorZero(if b == 0 then Mul(a, c) else Mul(a, b));
    } else {
      var x := Xor(b, c);
      var pb, pc := if b % 2 == 1 then a else 0, if c % 2 == 1 then a else 0;
      assert x / 2 == Xor(b / 2, c / 2) && x % 2 == (if b % 2 != c % 2 then 1 else 0);
      MulXor(XTime(a), b / 2, c / 2);
      XorZero(a);
      XorSelf(a);
      assert (if x % 2 == 1 then a else 0) == Xor(pb, pc);
      var mb, mc := Mul(XTime(a), b / 2), Mul(XTime(a), c / 2);
      XorSwap(pb, pc, mb, mc);
      if x == 0 { assert Xor(mb, mc) == 0; }
    }
  }

  lemma {:induction false} MulXorLeft(a: byte, b: byte, c: nat)
    ensures Mul(XorByte(a, b), c) == XorByte(Mul(a, c), Mul(b, c))
    decreases c
  {
    if c > 0 {
      XTimeXor(a, b);
      MulXorLeft(XTime(a), XTime(b), c / 2);
      XorSwap(if c % 2 == 1 then a else 0, if c % 2 == 1 then b else 0,
              Mul(XTime(a), c / 2), Mul(XTime(b), c / 2));
    }
  }

  lemma {:induction false} MulXTimeLeft(a: byte, c: nat)
    ensures Mul(XTime(a), c) == XTime(Mul(a, c))
    decreases c
  {
    if c > 0 {
      MulXTimeLeft(XTime(a), c / 2);
      XTimeXor(if c % 2 == 1 then a else 0, Mul(XTime(a), c / 2));
    }
  }

  lemma Halves(a: byte)
    ensures a == Xor(XTime(a / 2), a % 2)
  {
    XorZero(a / 2);
    if a != 0 { assert Xor(2 * (a / 2), a % 2) == a % 2 + 2 * Xor(a / 2, 0); }
  }

  lemma {:induction false} MulZeroLeft(c: nat)
    ensures Mul(0, c) == 0
    decreases c
  {
    if c > 0 { MulZeroLeft(c / 2); }
  }

  lemma MulByOne(a: byte)
    ensures Mul(a, 1) == a
  {
    XorZero(a);
  }

  /** 1 * (x^8 + x^4 + x^3 + x + 1), one bit of the polynomial at a time. */
  lemma ModulusAtOne(m: nat)
    requires m == 0x11B
    ensures Mul(1, m) == 0
  {
    MulStep(0x1B, 1, 0x1B, 0x36, 0x00, 0x1B);
    MulStep(0x80, 2, 0x80, 0x1B, 0x1B, 0x1B);
    MulStep(0x40, 4, 0x40, 0x80, 0x1B, 0x1B);
    MulStep(0x20, 8, 0x20, 0x40, 0x1B, 0x1B);
    MulStep(0x10, 0x11, 0x10, 0x20, 0x1B, 0x0B);
    MulStep(0x08, 0x23, 0x08, 0x10, 0x0B, 0x03);
    MulStep(0x04, 0x46, 0x04, 0x08, 0x03, 0x03);
    MulStep(0x02, 0x8D, 0x02, 0x04, 0x03, 0x01);
    MulStep(0x01, m, 0x01, 0x02, 0x01, 0x00);
  }

  lemma MulUnfolds(a: byte, b: nat, next: byte, rest: byte)
    requires b > 0 && XTime(a) == next && Mul(next, b / 2) == rest
    ensures Mul(a, b) == if b % 2 == 1 then Xor(a, rest) else rest
  {
    XorZero(rest);
  }

  lemma MulStep(a: byte, b: nat, x: bv8, next: bv8, rest: bv8, sum: bv8)
    requires b > 0 && a == x as int && next == ByteBits.Doubled(x)
    requires Mul(next as int, b / 2) == rest as int
    requires sum == if b % 2 == 1 then x ^ rest else rest
    ensures Mul(a, b) == sum as int
  {
    hide Mul, Xor, XTime;
    var n, r, s := next as int, rest as int, sum as int;
    XTimeValue(x, next, a, n);
    MulUnfolds(a, b, n, r);
    if b % 2 == 1 { ByteBits.XorValue(x, rest, sum, a, r, s); }
  }

  lemma SumAnnihilated(h: byte, l: byte, m: nat)
    requires Mul(h, m) == 0 && Mul(l, m) == 0
    ensures Mul(XorByte(h, l), m) == 0
  {
    MulXorLeft(h, l, m);
  }

  /** A multiplier that annihilates one annihilates every byte, so the
      reduction polynomial is zero in the field. */
  lemma {:induction false} Annihilates(a: byte, m: nat)
    requires Mul(1, m) == 0
    ensures Mul(a, m) == 0
    decreases a
  {
    hide Mul, Xor;
    if a == 0 {
      MulZeroLeft(m);
    } else if a > 1 {
      var h, l := a / 2, a % 2;
      Annihilates(h, m);
      Annihilates(l, m);
      MulXTimeLeft(h, m);
      SumAnnihilated(XTime(h), l, m);
      Halves(a);
    }
  }

  lemma MulDouble(a: byte, b: nat)
    ensures Mul(a, 2 * b) == Mul(XTime(a), b)
  {
    if b > 0 { XorZero(Mul(XTime(a), b)); }
  }

  lemma MulCarry(a: byte, b: byte)
    ensures Mul(a, Carry(b)) == 0
  {
    if b >= 128 {
      ModulusAtOne(0x11B);
      Annihilates(a, 0x11B);
    }
  }

  lemma MulXTime(a: byte, b: byte)
    ensures Mul(a, XTime(b)) == XTime(Mul(a, b))
  {
    hide *;
    XTimeReduces(b);
    MulXTimeLeft(a, b);
    MulDouble(a, b);
    MulXor(a, 2 * b, Carry(b));
    MulCarry(a, b);
    XorZero(Mul(a, 2 * b));
    assert XorByte(Mul(a, 2 * b), 0) == Xor(Mul(a, 2 * b), 0) by { XorByteIsXor(Mul(a, 2 * b), 0); }
  }

  lemma XorByteIsXor(a: byte, b: byte)
    ensures XorByte(a, b) == Xor(a, b)
  {
  }

  // ---------- the field laws ----------

  lemma {:induction false} MulComm(a: byte, b: byte)
    ensures Mul(a, b) == Mul(b, a)
    decreases b, a
  {
    if b == 0 {
      MulZeroLeft(a);
    } else if b == 1 {
      if a <= 1 {
        MulZeroLeft(1);
      } else {
        MulComm1(a);
        MulByOne(a);
      }
    } else {
      Halves(b);
      MulXor(a, XTime(b / 2), b % 2);
      MulXTime(a, b / 2);
      MulXorLeft(XTime(b / 2), b % 2, a);
      MulXTimeLeft(b / 2, a);
      MulComm(a, b / 2);
      MulComm(a, b % 2);
    }
  }

  lemma {:induction false} MulComm1(a: byte)
    ensures Mul(1, a) == a
    decreases a
  {
    if a > 1 {
      Halves(a);
      MulXor(1, XTime(a / 2), a % 2);
      MulXTime(1, a / 2);
      MulComm1(a / 2);
      MulComm1(a % 2);
    }
  }

  lemma {:induction false} MulAssoc(a: byte, b: byte, c: byte)
    ensures Mul(Mul(a, b), c) == Mul(a, Mul(b, c))
    decreases c
  {
    if c == 1 {
      MulByOne(b);
      MulByOne(Mul(a, b));
    } else if c > 1 {
      Halves(c);
      MulXor(Mul(a, b), XTime(c / 2), c % 2);
      MulXTime(Mul(a, b), c / 2);
      MulXor(b, XTime(c / 2), c % 2);
      MulXTime(b, c / 2);
      MulXor(a, XTime(Mul(b, c / 2)), Mul(b, c % 2));
      MulXTime(a, Mul(b, c / 2));
      MulAssoc(a, b, c / 2);
      MulAssoc(a, b, c % 2);
    }
  }

  // ---------- three generates the multiplicative group ----------

  lemma TimesThree(v: byte, w: byte, r: nat, x: bv8, d: bv8, y: bv8)
    requires v == x as int && w == d as int && r == y as int
    requires d == ByteBits.Doubled(x) && y == x ^ d
    ensures Times3(v) == r
  {
    XTimeValue(x, d, v, w);
    ByteBits.XorValue(x, d, y, v, w, r);
  }

  lemma MulTimes3(a: byte, b: byte)
    ensures Mul(a, Times3(b)) == Times3(Mul(a, b))
  {
    MulXor(a, b, XTime(b));
    MulXTime(a, b);
  }

  lemma {:induction false} PowSum(i: nat, j: nat)
    ensures Pow3(i + j) == Mul(Pow3(i), Pow3(j))
  {
    if j == 0 {
      MulByOne(Pow3(i));
    } else {
      PowSum(i, j - 1);
      MulTimes3(Pow3(i), Pow3(j - 1));
    }
  }

  lemma FirstPowers()
    ensures Pow3(15) == 0x35 && Pow3(17) == 0xE1
  {
    TimesThree(0x01, 0x02, 0x03, 0x01, 0x02, 0x03);
    TimesThree(0x03, 0x06, 0x05, 0x03, 0x06, 0x05);
    TimesThree(0x05, 0x0A, 0x0F, 0x05, 0x0A, 0x0F);
    TimesThree(0x0F, 0x1E, 0x11, 0x0F, 0x1E, 0x11);
    TimesThree(0x11, 0x22, 0x33, 0x11, 0x22, 0x33);
    TimesThree(0x33, 0x66, 0x55, 0x33, 0x66, 0x55);
    TimesThree(0x55, 0xAA, 0xFF, 0x55, 0xAA, 0xFF);
    TimesThree(0xFF, 0xE5, 0x1A, 0xFF, 0xE5, 0x1A);
    TimesThree(0x1A, 0x34, 0x2E, 0x1A, 0x34, 0x2E);
    TimesThree(0x2E, 0x5C, 0x72, 0x2E, 0x5C, 0x72);
    TimesThree(0x72, 0xE4, 0x96, 0x72, 0xE4, 0x96);
    TimesThree(0x96, 0x37, 0xA1, 0x96, 0x37, 0xA1);
    TimesThree(0xA1, 0x59, 0xF8, 0xA1, 0x59, 0xF8);
    TimesThree(0xF8, 0xEB, 0x13, 0xF8, 0xEB, 0x13);
    TimesThree(0x13, 0x26, 0x35, 0x13, 0x26, 0x35);
    TimesThree(0x35, 0x6A, 0x5F, 0x35, 0x6A, 0x5F);
    TimesThree(0x5F, 0xBE, 0xE1, 0x5F, 0xBE, 0xE1);
  }

  lemma SquareOf17()
    ensures Mul(0xE1, 0xE1) == 0x5C
  {
    MulStep(0xFC, 0x01, 0xFC, 0xE3, 0x00, 0xFC);
    MulStep(0x7E, 0x03, 0x7E, 0xFC, 0xFC, 0x82);
    MulStep(0x3F, 0x07, 0x3F, 0x7E, 0x82, 0xBD);
    MulStep(0x92, 0x0E, 0x92, 0x3F, 0xBD, 0xBD);
    MulStep(0x49, 0x1C, 0x49, 0x92, 0xBD, 0xBD);
    MulStep(0xA9, 0x38, 0xA9, 0x49, 0xBD, 0xBD);
    MulStep(0xD9, 0x70, 0xD9, 0xA9, 0xBD, 0xBD);
    MulStep(0xE1, 0xE1, 0xE1, 0xD9, 0xBD, 0x5C);
  }

  lemma SquareOf34()
    ensures Mul(0x5C, 0x5C) == 0xE0
  {
    MulStep(0xEA, 0x01, 0xEA, 0xCF, 0x00, 0xEA);
    MulStep(0x75, 0x02, 0x75, 0xEA, 0xEA, 0xEA);
    MulStep(0xB7, 0x05, 0xB7, 0x75, 0xEA, 0x5D);
    MulStep(0xD6, 0x0B, 0xD6, 0xB7, 0x5D, 0x8B);
    MulStep(0x6B, 0x17, 0x6B, 0xD6, 0x8B, 0xE0);
    MulStep(0xB8, 0x2E, 0xB8, 0x6B, 0xE0, 0xE0);
    MulStep(0x5C, 0x5C, 0x5C, 0xB8, 0xE0, 0xE0);
  }
}
