/** Published values: the field of FIPS 197 section 4.2, a column mixed, the first
    expanded word of its appendix A.1, the first output of the SplitMix64 generator
    from zero, and the FNV-1a hash of the letter a. They tie the definitions shared by specifications
    and programs to the standards they name. */
module KnownValues {
  import opened NatBits
  import ByteBits
  import opened GF256
  import opened SBox
  import opened MixColumn
  import opened Aes
  import Sums
  import opened Words

  // ---------- FIPS 197 ----------

  /** Section 4.2.1: multiplying 57 by x four times. */
  lemma FieldDoublings()
    ensures XTime(0x57) == 0xAE && XTime(0xAE) == 0x47 && XTime(0x47) == 0x8E && XTime(0x8E) == 0x07
  {
    hide XTime;
    XTimeValue(0x57, 0xAE, 0x57, 0xAE);
    XTimeValue(0xAE, 0x47, 0xAE, 0x47);
    XTimeValue(0x47, 0x8E, 0x47, 0x8E);
    XTimeValue(0x8E, 0x07, 0x8E, 0x07);
  }

  lemma NoProduct(a: byte)
    ensures Mul(a, 0) == 0
  {
  }

  /** Section 4.2: 57 times 83 is c1. */
  lemma FieldProduct()
    ensures Mul(0x57, 0x83) == 0xC1
  {
    hide Mul, Xor;
    NoProduct(0x70);
    MulStep(0x38, 0x01, 0x38, 0x70, 0x00, 0x38);
    MulStep(0x1C, 0x02, 0x1C, 0x38, 0x38, 0x38);
    MulStep(0x0E, 0x04, 0x0E, 0x1C, 0x38, 0x38);
    MulStep(0x07, 0x08, 0x07, 0x0E, 0x38, 0x38);
    MulStep(0x8E, 0x10, 0x8E, 0x07, 0x38, 0x38);
    MulStep(0x47, 0x20, 0x47, 0x8E, 0x38, 0x38);
    MulStep(0xAE, 0x41, 0xAE, 0x47, 0x38, 0x96);
    MulStep(0x57, 0x83, 0x57, 0xAE, 0x96, 0xC1);
  }

  lemma SmallProducts(a: byte, doubled: byte)
    requires XTime(a) == doubled
    ensures Mul(a, 1) == a && Mul(a, 2) == doubled && Mul(a, 3) == Xor(a, doubled)
  {
    hide XTime, Xor;
    NoProduct(doubled);
    NoProduct(XTime(doubled));
    XorZero(a);
    XorZero(doubled);
  }

  lemma MixSums(a: byte, b: byte, c: byte, d: byte, da: byte, db: byte, tb: byte, left: byte, right: byte, sum: byte)
    requires XTime(a) == da && XTime(b) == db && Xor(b, db) == tb
    requires Xor(da, tb) == left && Xor(c, d) == right && Xor(left, right) == sum
    ensures MixByte(a, b, c, d) == sum
  {
    hide XTime, Xor, Mul;
    SmallProducts(a, da);
    SmallProducts(b, db);
    One(c);
    One(d);
  }

  lemma One(a: byte)
    ensures Mul(a, 1) == a
  {
    hide XTime, Xor;
    NoProduct(XTime(a));
    XorZero(a);
  }

  /** The column db 13 53 45 mixes to 8e 4d a1 bc. */
  lemma MixedColumn()
    ensures MixColumn4([0xDB, 0x13, 0x53, 0x45]) == [0x8E, 0x4D, 0xA1, 0xBC]
  {
    hide MixByte;
    Mixed8E();
    Mixed4D();
    MixedA1();
    MixedBC();
  }

  lemma Mixed8E()
    ensures MixByte(0xDB, 0x13, 0x53, 0x45) == 0x8E
  {
    hide *;
    DoubledDB();
    Doubled13();
    ByteBits.XorValue(0x13, 0x26, 0x35, 0x13, 0x26, 0x35);
    ByteBits.XorValue(0xAD, 0x35, 0x98, 0xAD, 0x35, 0x98);
    ByteBits.XorValue(0x53, 0x45, 0x16, 0x53, 0x45, 0x16);
    ByteBits.XorValue(0x98, 0x16, 0x8E, 0x98, 0x16, 0x8E);
    MixSums(0xDB, 0x13, 0x53, 0x45, 0xAD, 0x26, 0x35, 0x98, 0x16, 0x8E);
  }

  lemma Mixed4D()
    ensures MixByte(0x13, 0x53, 0x45, 0xDB) == 0x4D
  {
    hide *;
    Doubled13();
    Doubled53();
    ByteBits.XorValue(0x53, 0xA6, 0xF5, 0x53, 0xA6, 0xF5);
    ByteBits.XorValue(0x26, 0xF5, 0xD3, 0x26, 0xF5, 0xD3);
    ByteBits.XorValue(0x45, 0xDB, 0x9E, 0x45, 0xDB, 0x9E);
    ByteBits.XorValue(0xD3, 0x9E, 0x4D, 0xD3, 0x9E, 0x4D);
    MixSums(0x13, 0x53, 0x45, 0xDB, 0x26, 0xA6, 0xF5, 0xD3, 0x9E, 0x4D);
  }

  lemma MixedA1()
    ensures MixByte(0x53, 0x45, 0xDB, 0x13) == 0xA1
  {
    hide *;
    Doubled53();
    Doubled45();
    ByteBits.XorValue(0x45, 0x8A, 0xCF, 0x45, 0x8A, 0xCF);
    ByteBits.XorValue(0xA6, 0xCF, 0x69, 0xA6, 0xCF, 0x69);
    ByteBits.XorValue(0xDB, 0x13, 0xC8, 0xDB, 0x13, 0xC8);
    ByteBits.XorValue(0x69, 0xC8, 0xA1, 0x69, 0xC8, 0xA1);
    MixSums(0x53, 0x45, 0xDB, 0x13, 0xA6, 0x8A, 0xCF, 0x69, 0xC8, 0xA1);
  }

  lemma MixedBC()
    ensures MixByte(0x45, 0xDB, 0x13, 0x53) == 0xBC
  {
    hide *;
    Doubled45();
    DoubledDB();
    ByteBits.XorValue(0xDB, 0xAD, 0x76, 0xDB, 0xAD, 0x76);
    ByteBits.XorValue(0x8A, 0x76, 0xFC, 0x8A, 0x76, 0xFC);
    ByteBits.XorValue(0x13, 0x53, 0x40, 0x13, 0x53, 0x40);
    ByteBits.XorValue(0xFC, 0x40, 0xBC, 0xFC, 0x40, 0xBC);
    MixSums(0x45, 0xDB, 0x13, 0x53, 0x8A, 0xAD, 0x76, 0xFC, 0x40, 0xBC);
  }

  lemma DoubledDB()
    ensures XTime(0xDB) == 0xAD
  {
    hide XTime;
    XTimeValue(0xDB, 0xAD, 0xDB, 0xAD);
  }

  lemma Doubled13()
    ensures XTime(0x13) == 0x26
  {
    hide XTime;
    XTimeValue(0x13, 0x26, 0x13, 0x26);
  }

  lemma Doubled53()
    ensures XTime(0x53) == 0xA6
  {
    hide XTime;
    XTimeValue(0x53, 0xA6, 0x53, 0xA6);
  }

  lemma Doubled45()
    ensures XTime(0x45) == 0x8A
  {
    hide XTime;
    XTimeValue(0x45, 0x8A, 0x45, 0x8A);
  }

  lemma SubByteCF()
    ensures SubByte(0xCF) == 0x8A
  {
    hide Mul, Affine, Inverse, Xor;
    NoProduct(0x2C);
    MulStep(0x16, 0x01, 0x16, 0x2C, 0x00, 0x16);
    MulStep(0x0B, 0x03, 0x0B, 0x16, 0x16, 0x1D);
    MulStep(0x88, 0x07, 0x88, 0x0B, 0x1D, 0x95);
    MulStep(0x44, 0x0E, 0x44, 0x88, 0x95, 0x95);
    MulStep(0x22, 0x1C, 0x22, 0x44, 0x95, 0x95);
    MulStep(0x11, 0x39, 0x11, 0x22, 0x95, 0x84);
    MulStep(0x85, 0x73, 0x85, 0x11, 0x84, 0x01);
    MulStep(0xCF, 0xE6, 0xCF, 0x85, 0x01, 0x01);
    InverseUnique(0xCF, 0xE6);
    AffineCF();
  }

  lemma AffineCF()
    ensures Affine(0xE6) == 0x8A
  {
  }

  lemma SubByte4F()
    ensures SubByte(0x4F) == 0x84
  {
    hide Mul, Affine, Inverse, Xor;
    NoProduct(0x9C);
    MulStep(0x4E, 0x01, 0x4E, 0x9C, 0x00, 0x4E);
    MulStep(0x27, 0x02, 0x27, 0x4E, 0x4E, 0x4E);
    MulStep(0x9E, 0x04, 0x9E, 0x27, 0x4E, 0x4E);
    MulStep(0x4F, 0x09, 0x4F, 0x9E, 0x4E, 0x01);
    InverseUnique(0x4F, 0x09);
    Affine4F();
  }

  lemma Affine4F()
    ensures Affine(0x09) == 0x84
  {
  }

  lemma SubByte3C()
    ensures SubByte(0x3C) == 0xEB
  {
    hide Mul, Affine, Inverse, Xor;
    NoProduct(0x29);
    MulStep(0x99, 0x01, 0x99, 0x29, 0x00, 0x99);
    MulStep(0xC1, 0x03, 0xC1, 0x99, 0x99, 0x58);
    MulStep(0xED, 0x07, 0xED, 0xC1, 0x58, 0xB5);
    MulStep(0xFB, 0x0E, 0xFB, 0xED, 0xB5, 0xB5);
    MulStep(0xF0, 0x1D, 0xF0, 0xFB, 0xB5, 0x45);
    MulStep(0x78, 0x3B, 0x78, 0xF0, 0x45, 0x3D);
    MulStep(0x3C, 0x77, 0x3C, 0x78, 0x3D, 0x01);
    InverseUnique(0x3C, 0x77);
    Affine3C();
  }

  lemma Affine3C()
    ensures Affine(0x77) == 0xEB
  {
  }

  lemma SubByte09()
    ensures SubByte(0x09) == 0x01
  {
    hide Mul, Affine, Inverse, Xor;
    NoProduct(0xEC);
    MulStep(0x76, 0x01, 0x76, 0xEC, 0x00, 0x76);
    MulStep(0x3B, 0x02, 0x3B, 0x76, 0x76, 0x76);
    MulStep(0x90, 0x04, 0x90, 0x3B, 0x76, 0x76);
    MulStep(0x48, 0x09, 0x48, 0x90, 0x76, 0x3E);
    MulStep(0x24, 0x13, 0x24, 0x48, 0x3E, 0x1A);
    MulStep(0x12, 0x27, 0x12, 0x24, 0x1A, 0x08);
    MulStep(0x09, 0x4F, 0x09, 0x12, 0x08, 0x01);
    InverseUnique(0x09, 0x4F);
    Affine09();
  }

  lemma Affine09()
    ensures Affine(0x4F) == 0x01
  {
  }

  /** Appendix A.1: the first word the expansion of 2b7e1516 28aed2a6 abf71588 09cf4f3c
      adds is a0fafe17. */
  lemma FirstExpandedWord(key: Block)
    requires key == [0x2B, 0x7E, 0x15, 0x16, 0x28, 0xAE, 0xD2, 0xA6, 0xAB, 0xF7, 0x15, 0x88, 0x09, 0xCF, 0x4F, 0x3C]
    ensures Word(key, 4) == [0xA0, 0xFA, 0xFE, 0x17]
  {
    hide SubByte, Xor, Word, XorWords, SubWord;
    var last: Column := key[12..16];
    assert last == [0x09, 0xCF, 0x4F, 0x3C] && key[0..4] == [0x2B, 0x7E, 0x15, 0x16];
    LastSubstituted(last);
    assert Doublings(0) == 1;
    ExpandOnce(key, key[0..4], last, [1, 0, 0, 0]);
    FirstSum([0x8A, 0x84, 0xEB, 0x01]);
    SecondSum(key[0..4], [0x8B, 0x84, 0xEB, 0x01]);
  }

  lemma LastSubstituted(last: Column)
    requires last == [0x09, 0xCF, 0x4F, 0x3C]
    ensures SubWord(RotWord(last)) == [0x8A, 0x84, 0xEB, 0x01]
  {
    hide SubByte;
    SubByteCF();
    SubByte4F();
    SubByte3C();
    SubByte09();
  }

  lemma FirstSum(a: Column)
    requires a == [0x8A, 0x84, 0xEB, 0x01]
    ensures XorWords(a, [1, 0, 0, 0]) == [0x8B, 0x84, 0xEB, 0x01]
  {
    hide Xor;
    ByteBits.XorValue(0x8A, 0x01, 0x8B, 0x8A, 0x01, 0x8B);
    XorZero(0x84);
    XorZero(0xEB);
    XorZero(0x01);
  }

  lemma SecondSum(a: Column, b: Column)
    requires a == [0x2B, 0x7E, 0x15, 0x16] && b == [0x8B, 0x84, 0xEB, 0x01]
    ensures XorWords(a, b) == [0xA0, 0xFA, 0xFE, 0x17]
  {
    hide Xor;
    ByteBits.XorValue(0x2B, 0x8B, 0xA0, 0x2B, 0x8B, 0xA0);
    ByteBits.XorValue(0x7E, 0x84, 0xFA, 0x7E, 0x84, 0xFA);
    ByteBits.XorValue(0x15, 0xEB, 0xFE, 0x15, 0xEB, 0xFE);
    ByteBits.XorValue(0x16, 0x01, 0x17, 0x16, 0x01, 0x17);
  }

  // ---------- the mixer and the hash ----------

  /** One more byte of a known sum. */
  lemma XorNext(p: nat, q: nat, r: nat, x: bv8, y: bv8, z: bv8, a: nat, b: nat, c: nat)
    requires Xor(p, q) == r && z == x ^ y && a == 256 * p + x as int && b == 256 * q + y as int && c == 256 * r + z as int
    ensures Xor(a, b) == c
  {
    hide Xor, Pow2;
    ByteSize();
    var i, j, k := x as int, y as int, z as int;
    ByteBits.XorValue(x, y, z, i, j, k);
    XorSplit(8, p, q, i, j);
  }

  lemma ByteSize()
    ensures Pow2(8) == 256
  {
  }

  lemma ShrIs(a: nat, s: nat, p: nat, q: nat, rest: nat)
    requires p == Pow2(s) && a == p * q + rest && rest < p
    ensures Shr(a, s) == q
  {
    hide Shr, Pow2;
    ShrFloors(a, s);
    Sums.ModUnique(a, p, q, rest);
    Sums.ModUnique(a, p, Shr(a, s), a - p * Shr(a, s));
  }

  lemma Powers()
    ensures Pow2(27) == 0x800_0000 && Pow2(30) == 0x4000_0000 && Pow2(31) == 0x8000_0000
  {
    assert Pow2(9) == 512;
    var n := 9;
    Pow2Doubles(n, n);
    Pow2Doubles(2 * n, n);
    Pow2Doubles(3 * n, 3);
    Pow2Doubles(3 * n, 4);
    assert Pow2(3) == 8 && Pow2(4) == 16;
  }

  lemma Shift1()
    ensures XorShift(0x9E3779B97F4A7C15, 30) == 0x9E3779BB07979AF0
  {
    hide Xor, Shr, Pow2;
    Powers();
    ShrIs(0x9E3779B97F4A7C15, 30, 0x40000000, 0x278DDE6E5, 0x3F4A7C15);
    XorZero(0);
    XorNext(0x0, 0x0, 0x0, 0x9E, 0x0, 0x9E, 0x9E, 0x0, 0x9E);
    XorNext(0x9E, 0x0, 0x9E, 0x37, 0x0, 0x37, 0x9E37, 0x0, 0x9E37);
    XorNext(0x9E37, 0x0, 0x9E37, 0x79, 0x0, 0x79, 0x9E3779, 0x0, 0x9E3779);
    XorNext(0x9E3779, 0x0, 0x9E3779, 0xB9, 0x2, 0xBB, 0x9E3779B9, 0x2, 0x9E3779BB);
    XorNext(0x9E3779B9, 0x2, 0x9E3779BB, 0x7F, 0x78, 0x7, 0x9E3779B97F, 0x278, 0x9E3779BB07);
    XorNext(0x9E3779B97F, 0x278, 0x9E3779BB07, 0x4A, 0xDD, 0x97, 0x9E3779B97F4A, 0x278DD, 0x9E3779BB0797);
    XorNext(0x9E3779B97F4A, 0x278DD, 0x9E3779BB0797, 0x7C, 0xE6, 0x9A, 0x9E3779B97F4A7C, 0x278DDE6, 0x9E3779BB07979A);
    XorNext(0x9E3779B97F4A7C, 0x278DDE6, 0x9E3779BB07979A, 0x15, 0xE5, 0xF0, 0x9E3779B97F4A7C15, 0x278DDE6E5, 0x9E3779BB07979AF0);
  }

  lemma Shift2()
    ensures XorShift(0x6F68261B57E7A770, 27) == 0x6F682616BAE3641A
  {
    hide Xor, Shr, Pow2;
    Powers();
    ShrIs(0x6F68261B57E7A770, 27, 0x8000000, 0xDED04C36A, 0x7E7A770);
    XorZero(0);
    XorNext(0x0, 0x0, 0x0, 0x6F, 0x0, 0x6F, 0x6F, 0x0, 0x6F);
    XorNext(0x6F, 0x0, 0x6F, 0x68, 0x0, 0x68, 0x6F68, 0x0, 0x6F68);
    XorNext(0x6F68, 0x0, 0x6F68, 0x26, 0x0, 0x26, 0x6F6826, 0x0, 0x6F6826);
    XorNext(0x6F6826, 0x0, 0x6F6826, 0x1B, 0xD, 0x16, 0x6F68261B, 0xD, 0x6F682616);
    XorNext(0x6F68261B, 0xD, 0x6F682616, 0x57, 0xED, 0xBA, 0x6F68261B57, 0xDED, 0x6F682616BA);
    XorNext(0x6F68261B57, 0xDED, 0x6F682616BA, 0xE7, 0x4, 0xE3, 0x6F68261B57E7, 0xDED04, 0x6F682616BAE3);
    XorNext(0x6F68261B57E7, 0xDED04, 0x6F682616BAE3, 0xA7, 0xC3, 0x64, 0x6F68261B57E7A7, 0xDED04C3, 0x6F682616BAE364);
    XorNext(0x6F68261B57E7A7, 0xDED04C3, 0x6F682616BAE364, 0x70, 0x6A, 0x1A, 0x6F68261B57E7A770, 0xDED04C36A, 0x6F682616BAE3641A);
  }

  lemma Shift3()
    ensures XorShift(0xE220A838BF5C9DDE, 31) == 0xE220A8397B1DCDAF
  {
    hide Xor, Shr, Pow2;
    Powers();
    ShrIs(0xE220A838BF5C9DDE, 31, 0x80000000, 0x1C4415071, 0x3F5C9DDE);
    XorZero(0);
    XorNext(0x0, 0x0, 0x0, 0xE2, 0x0, 0xE2, 0xE2, 0x0, 0xE2);
    XorNext(0xE2, 0x0, 0xE2, 0x20, 0x0, 0x20, 0xE220, 0x0, 0xE220);
    XorNext(0xE220, 0x0, 0xE220, 0xA8, 0x0, 0xA8, 0xE220A8, 0x0, 0xE220A8);
    XorNext(0xE220A8, 0x0, 0xE220A8, 0x38, 0x1, 0x39, 0xE220A838, 0x1, 0xE220A839);
    XorNext(0xE220A838, 0x1, 0xE220A839, 0xBF, 0xC4, 0x7B, 0xE220A838BF, 0x1C4, 0xE220A8397B);
    XorNext(0xE220A838BF, 0x1C4, 0xE220A8397B, 0x5C, 0x41, 0x1D, 0xE220A838BF5C, 0x1C441, 0xE220A8397B1D);
    XorNext(0xE220A838BF5C, 0x1C441, 0xE220A8397B1D, 0x9D, 0x50, 0xCD, 0xE220A838BF5C9D, 0x1C44150, 0xE220A8397B1DCD);
    XorNext(0xE220A838BF5C9D, 0x1C44150, 0xE220A8397B1DCD, 0xDE, 0x71, 0xAF, 0xE220A838BF5C9DDE, 0x1C4415071, 0xE220A8397B1DCDAF);
  }

  /** The first output of SplitMix64 from state zero. */
  lemma FirstOutput()
    ensures Mix64(0x9E3779B97F4A7C15) == 0xE220A8397B1DCDAF
  {
    hide XorShift;
    Shift1();
    Shift2();
    Shift3();
  }

  lemma ShiftOfZero(z: word64, s: nat)
    requires z == 0
    ensures XorShift(z, s) == 0
  {
    hide Xor, Shr;
    ShrVanishes(z, 0, s);
    XorZero(z);
  }

  lemma MixOfZero(z: word64)
    requires z == 0
    ensures Mix64(z) == 0
  {
    hide XorShift;
    ShiftOfZero(z, 30);
    ShiftOfZero(z, 27);
    ShiftOfZero(z, 31);
  }

  /** So the generator's constants, the seed's mask and the counting from one are those
      of the challenge: seeding with the mask and the cipher one gives that output, and
      so does the first cell from state zero, truncated. */
  lemma SeedAndFirstCell()
    ensures SeedState(0xA5A5A5A5A5A5A5A5, 1) == 0xE220A8397B1DCDAF
    ensures Element(0, 0) == 0x7B1DCDAF
  {
    hide Xor, Mix64;
    XorSelf(0xA5A5A5A5A5A5A5A5);
    MixOfZero(0);
    FirstOutput();
  }

  /** The FNV-1a hash of the letter a, 64 bits wide. */
  lemma HashOfLetter()
    ensures Fnv(FNV_OFFSET, 0x61, 1) == 0xAF63DC4C8601EC8C
  {
    hide Xor, Shr, Fnv;
    XorZero(0);
    XorNext(0x0, 0x0, 0x0, 0xCB, 0x0, 0xCB, 0xCB, 0x0, 0xCB);
    XorNext(0xCB, 0x0, 0xCB, 0xF2, 0x0, 0xF2, 0xCBF2, 0x0, 0xCBF2);
    XorNext(0xCBF2, 0x0, 0xCBF2, 0x9C, 0x0, 0x9C, 0xCBF29C, 0x0, 0xCBF29C);
    XorNext(0xCBF29C, 0x0, 0xCBF29C, 0xE4, 0x0, 0xE4, 0xCBF29CE4, 0x0, 0xCBF29CE4);
    XorNext(0xCBF29CE4, 0x0, 0xCBF29CE4, 0x84, 0x0, 0x84, 0xCBF29CE484, 0x0, 0xCBF29CE484);
    XorNext(0xCBF29CE484, 0x0, 0xCBF29CE484, 0x22, 0x0, 0x22, 0xCBF29CE48422, 0x0, 0xCBF29CE48422);
    XorNext(0xCBF29CE48422, 0x0, 0xCBF29CE48422, 0x23, 0x0, 0x23, 0xCBF29CE4842223, 0x0, 0xCBF29CE4842223);
    XorNext(0xCBF29CE4842223, 0x0, 0xCBF29CE4842223, 0x25, 0x61, 0x44, 0xCBF29CE484222325, 0x61, 0xCBF29CE484222344);
    FnvOfOneByte();
  }

  lemma FnvOfOneByte()
    ensures Fnv(FNV_OFFSET, 0x61, 1) == XorWord(FNV_OFFSET, 0x61) * FNV_PRIME % M64
  {
    hide XorWord;
  }
}
