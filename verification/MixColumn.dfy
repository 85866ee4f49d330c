/** MixColumns and InvMixColumns of FIPS 197 sections 5.1.3 and 5.3.3, one
    output byte at a time: both matrices are circulant, so every output is the
    same combination of a rotated column. */
module MixColumn {
  import opened NatBits
  import opened GF256

  function Sum4(p: byte, q: byte, r: byte, s: byte): byte {
    XorByte(XorByte(p, q), XorByte(r, s))
  }

  /** 02 a + 03 b + 01 c + 01 d. */
  function MixByte(a: byte, b: byte, c: byte, d: byte): byte {
    Sum4(Mul(a, 2), Mul(b, 3), Mul(c, 1), Mul(d, 1))
  }

  /** 0e a + 0b b + 0d c + 09 d. */
  function InvMixByte(a: byte, b: byte, c: byte, d: byte): byte {
    Sum4(Mul(a, 14), Mul(b, 11), Mul(c, 13), Mul(d, 9))
  }

  lemma Sum4Swap(p: byte, q: byte, r: byte, s: byte, t: byte, u: byte, v: byte, w: byte)
    ensures XorByte(Sum4(p, q, r, s), Sum4(t, u, v, w))
         == Sum4(XorByte(p, t), XorByte(q, u), XorByte(r, v), XorByte(s, w))
  {
    XorSwap(Xor(p, q), Xor(r, s), Xor(t, u), Xor(v, w));
    XorSwap(p, q, t, u);
    XorSwap(r, s, v, w);
  }

  /** Adding up a 4x4 table by rows or by columns. */
  lemma Transpose(a0: byte, a1: byte, a2: byte, a3: byte, b0: byte, b1: byte, b2: byte, b3: byte,
                  c0: byte, c1: byte, c2: byte, c3: byte, d0: byte, d1: byte, d2: byte, d3: byte)
    ensures Sum4(Sum4(a0, a1, a2, a3), Sum4(b0, b1, b2, b3), Sum4(c0, c1, c2, c3), Sum4(d0, d1, d2, d3))
         == Sum4(Sum4(a0, b0, c0, d0), Sum4(a1, b1, c1, d1), Sum4(a2, b2, c2, d2), Sum4(a3, b3, c3, d3))
  {
    Sum4Swap(a0, a1, a2, a3, b0, b1, b2, b3);
    Sum4Swap(c0, c1, c2, c3, d0, d1, d2, d3);
    hide Sum4;
    Sum4Swap(XorByte(a0, b0), XorByte(a1, b1), XorByte(a2, b2), XorByte(a3, b3),
             XorByte(c0, d0), XorByte(c1, d1), XorByte(c2, d2), XorByte(c3, d3));
    SumOfPairs(a0, b0, c0, d0);
    SumOfPairs(a1, b1, c1, d1);
    SumOfPairs(a2, b2, c2, d2);
    SumOfPairs(a3, b3, c3, d3);
    SumOfPairs(Sum4(a0, a1, a2, a3), Sum4(b0, b1, b2, b3), Sum4(c0, c1, c2, c3), Sum4(d0, d1, d2, d3));
  }

  lemma SumOfPairs(p: byte, q: byte, r: byte, s: byte)
    ensures Sum4(p, q, r, s) == XorByte(XorByte(p, q), XorByte(r, s))
  {
  }

  lemma MulSum4Left(p: byte, q: byte, r: byte, s: byte, m: nat)
    ensures Mul(Sum4(p, q, r, s), m) == Sum4(Mul(p, m), Mul(q, m), Mul(r, m), Mul(s, m))
  {
    MulXorLeft(XorByte(p, q), XorByte(r, s), m);
    MulXorLeft(p, q, m);
    MulXorLeft(r, s, m);
  }

  lemma MulSum4(a: byte, p: byte, q: byte, r: byte, s: byte)
    ensures Mul(a, Sum4(p, q, r, s)) == Sum4(Mul(a, p), Mul(a, q), Mul(a, r), Mul(a, s))
  {
    MulXor(a, Xor(p, q), Xor(r, s));
    MulXor(a, p, q);
    MulXor(a, r, s);
  }

  /** a m d, the scaling by one entry of each matrix. */
  function Scaled(a: byte, m: byte, d: byte): byte { Mul(Mul(a, m), d) }

  /** An entry of the product of the two matrices. */
  function Entry(m0: byte, m1: byte, m2: byte, m3: byte): byte {
    Sum4(Mul(m0, 14), Mul(m1, 11), Mul(m2, 13), Mul(m3, 9))
  }

  /** One byte scaled by four products of coefficients. */
  lemma Coefficients(a: byte, m0: byte, m1: byte, m2: byte, m3: byte)
    ensures Sum4(Scaled(a, m0, 14), Scaled(a, m1, 11), Scaled(a, m2, 13), Scaled(a, m3, 9))
         == Mul(a, Entry(m0, m1, m2, m3))
  {
    MulAssoc(a, m0, 14);
    MulAssoc(a, m1, 11);
    MulAssoc(a, m2, 13);
    MulAssoc(a, m3, 9);
    hide Sum4, Mul;
    MulSum4(a, Mul(m0, 14), Mul(m1, 11), Mul(m2, 13), Mul(m3, 9));
  }

  lemma SmallDouble(d: byte)
    requires d < 16
    ensures XTime(d) == 2 * d
  {
  }

  lemma SmallMultiples(twice: byte, thrice: byte, d: byte)
    requires d < 16 && twice == 2 * d && thrice == Xor(twice, d)
    ensures Mul(1, d) == d && Mul(2, d) == twice && Mul(3, d) == thrice
  {
    ByteBits.XorValue(2, 1, 3, 2, 1, 3);
    SmallDouble(1);
    SmallDouble(d);
    hide Xor, XTime, Mul;
    MulComm1(d);
    MulXTimeLeft(1, d);
    MulXorLeft(2, 1, d);
  }

  lemma Coefficient0()
    ensures Entry(2, 1, 1, 3) == 1
  {
    SmallMultiples(0x1C, 0x12, 14);
    SmallMultiples(0x16, 0x1D, 11);
    SmallMultiples(0x1A, 0x17, 13);
    SmallMultiples(0x12, 0x1B, 9);
    hide Mul;
    ByteBits.XorValue(0x1C, 0x0B, 0x17, 0x1C, 0x0B, 0x17);
    ByteBits.XorValue(0x0D, 0x1B, 0x16, 0x0D, 0x1B, 0x16);
    ByteBits.XorValue(0x17, 0x16, 0x01, 0x17, 0x16, 0x01);
  }

  lemma Coefficient1()
    ensures Entry(3, 2, 1, 1) == 0
  {
    SmallMultiples(0x1C, 0x12, 14);
    SmallMultiples(0x16, 0x1D, 11);
    SmallMultiples(0x1A, 0x17, 13);
    SmallMultiples(0x12, 0x1B, 9);
    hide Mul;
    ByteBits.XorValue(0x12, 0x16, 0x04, 0x12, 0x16, 0x04);
    ByteBits.XorValue(0x0D, 0x09, 0x04, 0x0D, 0x09, 0x04);
    ByteBits.XorValue(0x04, 0x04, 0x00, 0x04, 0x04, 0x00);
  }

  lemma Coefficient2()
    ensures Entry(1, 3, 2, 1) == 0
  {
    SmallMultiples(0x1C, 0x12, 14);
    SmallMultiples(0x16, 0x1D, 11);
    SmallMultiples(0x1A, 0x17, 13);
    SmallMultiples(0x12, 0x1B, 9);
    hide Mul;
    ByteBits.XorValue(0x0E, 0x1D, 0x13, 0x0E, 0x1D, 0x13);
    ByteBits.XorValue(0x1A, 0x09, 0x13, 0x1A, 0x09, 0x13);
    ByteBits.XorValue(0x13, 0x13, 0x00, 0x13, 0x13, 0x00);
  }

  lemma Coefficient3()
    ensures Entry(1, 1, 3, 2) == 0
  {
    SmallMultiples(0x1C, 0x12, 14);
    SmallMultiples(0x16, 0x1D, 11);
    SmallMultiples(0x1A, 0x17, 13);
    SmallMultiples(0x12, 0x1B, 9);
    hide Mul;
    ByteBits.XorValue(0x0E, 0x0B, 0x05, 0x0E, 0x0B, 0x05);
    ByteBits.XorValue(0x17, 0x12, 0x05, 0x17, 0x12, 0x05);
    ByteBits.XorValue(0x05, 0x05, 0x00, 0x05, 0x05, 0x00);
  }

  lemma Rotate(p: byte, q: byte, r: byte, s: byte)
    ensures Sum4(p, q, r, s) == Sum4(s, p, q, r)
    ensures Sum4(p, q, r, s) == Sum4(r, s, p, q)
    ensures Sum4(p, q, r, s) == Sum4(q, r, s, p)
  {
    XorBits();
    SameBits(Sum4(p, q, r, s), Sum4(s, p, q, r));
    SameBits(Sum4(p, q, r, s), Sum4(r, s, p, q));
    SameBits(Sum4(p, q, r, s), Sum4(q, r, s, p));
  }

  /** One row of the product of the two matrices is a row of the identity. */
  lemma InvMixOfMix(a0: byte, a1: byte, a2: byte, a3: byte)
    ensures InvMixByte(MixByte(a0, a1, a2, a3), MixByte(a1, a2, a3, a0),
                       MixByte(a2, a3, a0, a1), MixByte(a3, a0, a1, a2)) == a0
  {
    var r0 := ScaledRow(a0, a1, a2, a3, 2, 3, 1, 1, 14);
    var r1 := ScaledRow(a0, a1, a2, a3, 1, 2, 3, 1, 11);
    var r2 := ScaledRow(a0, a1, a2, a3, 1, 1, 2, 3, 13);
    var r3 := ScaledRow(a0, a1, a2, a3, 3, 1, 1, 2, 9);
    Rotate(Mul(a1, 2), Mul(a2, 3), Mul(a3, 1), Mul(a0, 1));
    Rotate(Mul(a2, 2), Mul(a3, 3), Mul(a0, 1), Mul(a1, 1));
    Rotate(Mul(a3, 2), Mul(a0, 3), Mul(a1, 1), Mul(a2, 1));
    ByColumns(a0, a1, a2, a3, r0, r1, r2, r3);
  }

  lemma ScaledRow(a0: byte, a1: byte, a2: byte, a3: byte, m0: byte, m1: byte, m2: byte, m3: byte, d: byte)
    returns (r: byte)
    ensures r == Mul(Sum4(Mul(a0, m0), Mul(a1, m1), Mul(a2, m2), Mul(a3, m3)), d)
    ensures r == Sum4(Scaled(a0, m0, d), Scaled(a1, m1, d), Scaled(a2, m2, d), Scaled(a3, m3, d))
  {
    hide Sum4, Mul;
    r := Mul(Sum4(Mul(a0, m0), Mul(a1, m1), Mul(a2, m2), Mul(a3, m3)), d);
    MulSum4Left(Mul(a0, m0), Mul(a1, m1), Mul(a2, m2), Mul(a3, m3), d);
  }

  lemma ByColumns(a0: byte, a1: byte, a2: byte, a3: byte, r0: byte, r1: byte, r2: byte, r3: byte)
    requires r0 == Sum4(Scaled(a0, 2, 14), Scaled(a1, 3, 14), Scaled(a2, 1, 14), Scaled(a3, 1, 14))
    requires r1 == Sum4(Scaled(a0, 1, 11), Scaled(a1, 2, 11), Scaled(a2, 3, 11), Scaled(a3, 1, 11))
    requires r2 == Sum4(Scaled(a0, 1, 13), Scaled(a1, 1, 13), Scaled(a2, 2, 13), Scaled(a3, 3, 13))
    requires r3 == Sum4(Scaled(a0, 3, 9), Scaled(a1, 1, 9), Scaled(a2, 1, 9), Scaled(a3, 2, 9))
    ensures Sum4(r0, r1, r2, r3) == a0
  {
    Coefficient0();
    Coefficient1();
    Coefficient2();
    Coefficient3();
    MulByOne(a0);
    ZeroTerms(a0, a1, a2, a3);
    hide Sum4, Scaled, Mul, Entry;
    Transpose(Scaled(a0, 2, 14), Scaled(a1, 3, 14), Scaled(a2, 1, 14), Scaled(a3, 1, 14),
              Scaled(a0, 1, 11), Scaled(a1, 2, 11), Scaled(a2, 3, 11), Scaled(a3, 1, 11),
              Scaled(a0, 1, 13), Scaled(a1, 1, 13), Scaled(a2, 2, 13), Scaled(a3, 3, 13),
              Scaled(a0, 3, 9), Scaled(a1, 1, 9), Scaled(a2, 1, 9), Scaled(a3, 2, 9));
    Coefficients(a0, 2, 1, 1, 3);
    Coefficients(a1, 3, 2, 1, 1);
    Coefficients(a2, 1, 3, 2, 1);
    Coefficients(a3, 1, 1, 3, 2);
  }

  lemma ZeroTerms(a0: byte, a1: byte, a2: byte, a3: byte)
    ensures Sum4(a0, Mul(a1, 0), Mul(a2, 0), Mul(a3, 0)) == a0
  {
    XorZero(a0);
    XorZero(0);
  }

  // ---------- the product in the other order ----------

  lemma Reorder(p: byte, q: byte, r: byte, s: byte)
    ensures Sum4(p, q, r, s) == Sum4(p, s, r, q)
    ensures Sum4(p, q, r, s) == Sum4(q, p, s, r)
    ensures Sum4(p, q, r, s) == Sum4(r, q, p, s)
    ensures Sum4(p, q, r, s) == Sum4(s, r, q, p)
  {
    XorBits();
    SameBits(Sum4(p, q, r, s), Sum4(p, s, r, q));
    SameBits(Sum4(p, q, r, s), Sum4(q, p, s, r));
    SameBits(Sum4(p, q, r, s), Sum4(r, q, p, s));
    SameBits(Sum4(p, q, r, s), Sum4(s, r, q, p));
  }

  lemma ScaledSwap(a: byte, m: byte, d: byte)
    ensures Scaled(a, m, d) == Scaled(a, d, m)
  {
    hide Mul;
    MulAssoc(a, m, d);
    MulAssoc(a, d, m);
    MulComm(m, d);
  }

  /** A row of the inverse matrix, scaled by an entry of the other. */
  lemma InvRow(a0: byte, a1: byte, a2: byte, a3: byte, d: byte) returns (r: byte)
    ensures r == Mul(InvMixByte(a0, a1, a2, a3), d)
    ensures r == Sum4(Scaled(a0, d, 14), Scaled(a1, d, 11), Scaled(a2, d, 13), Scaled(a3, d, 9))
  {
    hide Sum4, Mul, Scaled;
    r := ScaledRow(a0, a1, a2, a3, 14, 11, 13, 9, d);
    ScaledSwap(a0, 14, d);
    ScaledSwap(a1, 11, d);
    ScaledSwap(a2, 13, d);
    ScaledSwap(a3, 9, d);
  }

  /** Circulant matrices commute, so the product in this order is the identity too. */
  lemma MixOfInvMix(a0: byte, a1: byte, a2: byte, a3: byte)
    ensures MixByte(InvMixByte(a0, a1, a2, a3), InvMixByte(a1, a2, a3, a0),
                    InvMixByte(a2, a3, a0, a1), InvMixByte(a3, a0, a1, a2)) == a0
  {
    hide Sum4, Mul, Scaled, InvMixByte;
    var r0 := InvRow(a0, a1, a2, a3, 2);
    var r1 := InvRow(a1, a2, a3, a0, 3);
    var r2 := InvRow(a2, a3, a0, a1, 1);
    var r3 := InvRow(a3, a0, a1, a2, 1);
    Rotate(Scaled(a1, 3, 14), Scaled(a2, 3, 11), Scaled(a3, 3, 13), Scaled(a0, 3, 9));
    Rotate(Scaled(a2, 1, 14), Scaled(a3, 1, 11), Scaled(a0, 1, 13), Scaled(a1, 1, 9));
    Rotate(Scaled(a3, 1, 14), Scaled(a0, 1, 11), Scaled(a1, 1, 13), Scaled(a2, 1, 9));
    ByColumnsAgain(a0, a1, a2, a3, r0, r1, r2, r3);
  }

  lemma ByColumnsAgain(a0: byte, a1: byte, a2: byte, a3: byte, r0: byte, r1: byte, r2: byte, r3: byte)
    requires r0 == Sum4(Scaled(a0, 2, 14), Scaled(a1, 2, 11), Scaled(a2, 2, 13), Scaled(a3, 2, 9))
    requires r1 == Sum4(Scaled(a0, 3, 9), Scaled(a1, 3, 14), Scaled(a2, 3, 11), Scaled(a3, 3, 13))
    requires r2 == Sum4(Scaled(a0, 1, 13), Scaled(a1, 1, 9), Scaled(a2, 1, 14), Scaled(a3, 1, 11))
    requires r3 == Sum4(Scaled(a0, 1, 11), Scaled(a1, 1, 13), Scaled(a2, 1, 9), Scaled(a3, 1, 14))
    ensures Sum4(r0, r1, r2, r3) == a0
  {
    Coefficient0();
    Coefficient1();
    Coefficient2();
    Coefficient3();
    MulByOne(a0);
    ZeroTerms(a0, a1, a2, a3);
    hide Sum4, Scaled, Mul, Entry;
    Transpose(Scaled(a0, 2, 14), Scaled(a1, 2, 11), Scaled(a2, 2, 13), Scaled(a3, 2, 9),
              Scaled(a0, 3, 9), Scaled(a1, 3, 14), Scaled(a2, 3, 11), Scaled(a3, 3, 13),
              Scaled(a0, 1, 13), Scaled(a1, 1, 9), Scaled(a2, 1, 14), Scaled(a3, 1, 11),
              Scaled(a0, 1, 11), Scaled(a1, 1, 13), Scaled(a2, 1, 9), Scaled(a3, 1, 14));
    Reorder(Scaled(a0, 2, 14), Scaled(a0, 3, 9), Scaled(a0, 1, 13), Scaled(a0, 1, 11));
    Reorder(Scaled(a1, 2, 11), Scaled(a1, 3, 14), Scaled(a1, 1, 9), Scaled(a1, 1, 13));
    Reorder(Scaled(a2, 2, 13), Scaled(a2, 3, 11), Scaled(a2, 1, 14), Scaled(a2, 1, 9));
    Reorder(Scaled(a3, 2, 9), Scaled(a3, 3, 13), Scaled(a3, 1, 11), Scaled(a3, 1, 14));
    Coefficients(a0, 2, 1, 1, 3);
    Coefficients(a1, 3, 2, 1, 1);
    Coefficients(a2, 1, 3, 2, 1);
    Coefficients(a3, 1, 1, 3, 2);
  }
}
