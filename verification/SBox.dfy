/** The S-box of FIPS 197 section 5.1.1 and its inverse of section 5.3.2, and
    the log/exp construction by which the payload tabulates it. */
module SBox {
  import opened NatBits
  import opened GF256
  import opened PowersOfThree

  // ---------- the multiplicative inverse ----------

  lemma {:induction false} InverseExists(v: byte) returns (w: byte)
    requires v != 0
    ensures Mul(v, w) == 1
  {
    var i := Discrete(v);
    w := Pow3((255 - i) % 255);
    ExponentInverse(i);
  }

  /** 3^i times 3^(255 - i), the pair `build_sbox` looks up. */
  lemma ExponentInverse(i: nat)
    requires i < 255
    ensures Mul(Pow3(i), Pow3((255 - i) % 255)) == 1
  {
    hide *;
    InverseExponents(i, (255 - i) % 255, 17);
  }

  lemma InverseExponents(i: nat, j: nat, k: nat)
    requires i < 255 && j == (255 - i) % 255 && k == 17
    ensures Mul(Pow3(i), Pow3(j)) == 1
  {
    PowZero();
    hide *;
    if i == 0 {
      MulByOne(1);
    } else {
      OppositeExponents(i, j, k);
    }
  }

  lemma PowZero()
    ensures Pow3(0) == 1
  {
  }

  lemma OppositeExponents(i: nat, j: nat, k: nat)
    requires k == 17 && i + j == 15 * k
    ensures Mul(Pow3(i), Pow3(j)) == 1
  {
    Periods(k);
    PowSum(i, j);
  }

  /** The inverse in the field, with zero mapped to itself. */
  ghost function Inverse(v: byte): (w: byte)
    ensures if v == 0 then w == 0 else Mul(v, w) == 1
  {
    if v == 0 then 0
    else
      assert exists w: byte :: Mul(v, w) == 1 by { var w := InverseExists(v); }
      var w: byte :| Mul(v, w) == 1;
      w
  }

  lemma InverseUnique(v: byte, w: byte)
    requires Mul(v, w) == 1
    ensures w == Inverse(v)
  {
    if v == 0 { MulZeroLeft(w); }
    var u := Inverse(v);
    MulComm(v, w);
    MulAssoc(w, v, u);
    MulComm(1, u);
    MulByOne(u);
    MulByOne(w);
  }

  lemma InverseInvolutive(v: byte)
    ensures Inverse(Inverse(v)) == v
  {
    if v != 0 {
      var w := Inverse(v);
      MulComm(v, w);
      MulZeroLeft(v);
      InverseUnique(w, v);
    }
  }

  // ---------- the affine map, on the bits of a byte ----------

  /** The low n bits of v, least significant first. */
  function Unpack(v: nat, n: nat): (s: seq<bool>)
    ensures |s| == n
    decreases n
  {
    if n == 0 then [] else [v % 2 == 1] + Unpack(v / 2, n - 1)
  }

  function Pack(s: seq<bool>): (v: nat)
    ensures v < Pow2(|s|)
  {
    if s == [] then 0 else (if s[0] then 1 else 0) + 2 * Pack(s[1..])
  }

  lemma {:induction false} PackUnpack(v: nat, n: nat)
    requires v < Pow2(n)
    ensures Pack(Unpack(v, n)) == v
    decreases n
  {
    if n > 0 { PackUnpack(v / 2, n - 1); }
  }

  lemma {:induction false} UnpackPack(s: seq<bool>)
    ensures Unpack(Pack(s), |s|) == s
  {
    if s != [] { UnpackPack(s[1..]); }
  }

  function XorSeq(a: seq<bool>, b: seq<bool>): (c: seq<bool>)
    requires |a| == |b|
    ensures |c| == |a|
  {
    seq(|a|, i requires 0 <= i < |a| => a[i] != b[i])
  }

  lemma {:induction false} XorPack(a: seq<bool>, b: seq<bool>)
    requires |a| == |b|
    ensures Xor(Pack(a), Pack(b)) == Pack(XorSeq(a, b))
  {
    hide Xor, Pow2;
    if a == [] {
      XorZero(0);
    } else {
      XorPack(a[1..], b[1..]);
      XorCons(a[0], b[0], Pack(a[1..]), Pack(b[1..]));
      assert XorSeq(a, b)[1..] == XorSeq(a[1..], b[1..]);
    }
  }

  function Sum3(a: bool, b: bool, c: bool): bool { (a != b) != c }

  function Sum5(a: bool, b: bool, c: bool, d: bool, e: bool): bool { Sum3(Sum3(a, b, c), d, e) }

  /** b'_i = b_i + b_(i+4) + b_(i+5) + b_(i+6) + b_(i+7) + c_i, indices mod 8
      and c = 0x63 (FIPS 197 section 5.1.1). */
  function AffineBits(b: seq<bool>): (r: seq<bool>)
    requires |b| == 8
    ensures |r| == 8
  {
    [ Sum5(b[0], b[4], b[5], b[6], b[7]) != true,
      Sum5(b[1], b[5], b[6], b[7], b[0]) != true,
      Sum5(b[2], b[6], b[7], b[0], b[1]) != false,
      Sum5(b[3], b[7], b[0], b[1], b[2]) != false,
      Sum5(b[4], b[0], b[1], b[2], b[3]) != false,
      Sum5(b[5], b[1], b[2], b[3], b[4]) != true,
      Sum5(b[6], b[2], b[3], b[4], b[5]) != true,
      Sum5(b[7], b[3], b[4], b[5], b[6]) != false ]
  }

  /** b_i = b'_(i+2) + b'_(i+5) + b'_(i+7) + d_i with d = 0x05, the inverse map. */
  function InvAffineBits(b: seq<bool>): (r: seq<bool>)
    requires |b| == 8
    ensures |r| == 8
  {
    [ Sum3(b[2], b[5], b[7]) != true,
      Sum3(b[3], b[6], b[0]) != false,
      Sum3(b[4], b[7], b[1]) != true,
      Sum3(b[5], b[0], b[2]) != false,
      Sum3(b[6], b[1], b[3]) != false,
      Sum3(b[7], b[2], b[4]) != false,
      Sum3(b[0], b[3], b[5]) != false,
      Sum3(b[1], b[4], b[6]) != false ]
  }

  lemma AffineBitsRoundTrip(b: seq<bool>)
    requires |b| == 8
    ensures InvAffineBits(AffineBits(b)) == b
  {
  }

  lemma InvAffineBitsRoundTrip(b: seq<bool>)
    requires |b| == 8
    ensures AffineBits(InvAffineBits(b)) == b
  {
  }

  function Affine(b: byte): byte {
    assert Pow2(8) == 256;
    Pack(AffineBits(Unpack(b, 8)))
  }

  function InvAffine(b: byte): byte {
    assert Pow2(8) == 256;
    Pack(InvAffineBits(Unpack(b, 8)))
  }

  lemma AffineRoundTrip(b: byte)
    ensures InvAffine(Affine(b)) == b && Affine(InvAffine(b)) == b
  {
    assert Pow2(8) == 256;
    var s := Unpack(b, 8);
    UnpackPack(AffineBits(s));
    UnpackPack(InvAffineBits(s));
    AffineBitsRoundTrip(s);
    InvAffineBitsRoundTrip(s);
    PackUnpack(b, 8);
  }

  // ---------- the S-box ----------

  ghost function SubByte(v: byte): byte { Affine(Inverse(v)) }

  ghost function InvSubByte(v: byte): byte { Inverse(InvAffine(v)) }

  lemma SubByteInverts(v: byte)
    ensures InvSubByte(SubByte(v)) == v && SubByte(InvSubByte(v)) == v
  {
    hide Affine, InvAffine, Inverse;
    AffineRoundTrip(Inverse(v));
    InverseInvolutive(v);
    AffineRoundTrip(v);
    InverseInvolutive(InvAffine(v));
  }

  // ---------- the table ----------

  /** One step of `v = ((v << 1) | (v >> 7)) & 0xFF`. */
  function Rotl(v: byte): byte { Or(2 * v, Shr(v, 7)) % 0x100 }

  function RotN(v: byte, k: nat): byte {
    if k == 0 then v else Rotl(RotN(v, k - 1))
  }

  /** v with its first k rotations added. */
  function RotSum(v: byte, k: nat): byte {
    if k == 0 then v else XorByte(RotSum(v, k - 1), RotN(v, k))
  }

  function RotBits(b: seq<bool>): (r: seq<bool>)
    requires |b| == 8
    ensures |r| == 8
  {
    [b[7]] + b[..7]
  }

  lemma {:induction false} OrZero(a: nat)
    ensures Or(a, 0) == a
    decreases a
  {
    if a > 0 { OrZero(a / 2); }
  }

  lemma {:induction false} PackLast(b: seq<bool>, x: bool)
    ensures Pack(b + [x]) == Pack(b) + Pow2(|b|) * (if x then 1 else 0)
  {
    if b == [] {
      assert b + [x] == [x];
    } else {
      PackLast(b[1..], x);
      assert (b + [x])[1..] == b[1..] + [x];
    }
  }

  lemma OrIntoLowBit(a: nat, t: nat)
    requires t < 2
    ensures Or(2 * a, t) == 2 * a + t
  {
    OrZero(a);
  }

  lemma TopBitShifted(v: byte)
    ensures Shr(v, 7) == v / 128
  {
    assert Pow2(7) == 128;
    ShrFloors(v, 7);
  }

  lemma RotlIs(v: byte)
    ensures Rotl(v) == Or(2 * v, Shr(v, 7)) % 0x100
  {
    hide Or, Shr;
  }

  lemma RotlWithTop(v: byte, low: nat, t: nat)
    requires low < 128 && t < 2 && v == low + 128 * t
    ensures Rotl(v) == 2 * low + t
  {
    hide *;
    TopBitShifted(v);
    OrIntoLowBit(v, t);
    RotlIs(v);
  }

  lemma RotlBits(b: seq<bool>)
    requires |b| == 8
    ensures Pack(b) < 256 && Rotl(Pack(b)) == Pack(RotBits(b))
  {
    assert Pow2(7) == 128 && Pow2(8) == 256;
    assert b == b[..7] + [b[7]];
    PackLast(b[..7], b[7]);
    RotlWithTop(Pack(b), Pack(b[..7]), if b[7] then 1 else 0);
    assert RotBits(b)[1..] == b[..7];
  }

  lemma {:induction false} RotNBits(v: byte, k: nat) returns (b: seq<bool>)
    ensures |b| == 8 && Pack(b) == RotN(v, k)
    ensures k == 0 ==> b == Unpack(v, 8)
  {
    assert Pow2(8) == 256;
    b := Unpack(RotN(v, k), 8);
    PackUnpack(RotN(v, k), 8);
  }

  lemma RotNext(v: byte, k: nat, b: seq<bool>)
    requires |b| == 8 && Pack(b) == RotN(v, k)
    ensures RotN(v, k + 1) == Pack(RotBits(b))
  {
    RotlBits(b);
  }

  lemma AddRotation(v: byte, k: nat, s: seq<bool>, r: seq<bool>)
    requires |s| == |r| == 8 && Pack(s) == RotSum(v, k) && Pack(r) == RotN(v, k + 1)
    ensures Pack(XorSeq(s, r)) == RotSum(v, k + 1)
  {
    XorPack(s, r);
  }

  lemma AffineAt(b: seq<bool>, k: seq<bool>, i: nat)
    requires |b| == 8 && i < 8 && k == [true, true, false, false, false, true, true, false]
    ensures AffineBits(b)[i] == (Sum5(b[i], b[(i + 7) % 8], b[(i + 6) % 8], b[(i + 5) % 8], b[(i + 4) % 8]) != k[i])
  {
    assert i == 0 || i == 1 || i == 2 || i == 3 || i == 4 || i == 5 || i == 6 || i == 7;
  }

  ghost predicate RotatedBy(b: seq<bool>, r: seq<bool>, d: nat) {
    |b| == |r| == 8 && forall i | 0 <= i < 8 :: r[i] == b[(i + d) % 8]
  }

  lemma RotAgain(b: seq<bool>, r: seq<bool>, d: nat)
    requires 0 < d <= 8 && RotatedBy(b, r, d)
    ensures RotatedBy(b, RotBits(r), d - 1)
  {
  }

  lemma SumAt(b: seq<bool>, r1: seq<bool>, r2: seq<bool>, r3: seq<bool>, r4: seq<bool>, k: seq<bool>, i: nat)
    requires |b| == |r1| == |r2| == |r3| == |r4| == |k| == 8 && i < 8
    ensures XorSeq(XorSeq(XorSeq(XorSeq(XorSeq(b, r1), r2), r3), r4), k)[i]
         == (Sum5(b[i], r1[i], r2[i], r3[i], r4[i]) != k[i])
  {
  }

  lemma RotationsAt(b: seq<bool>, r1: seq<bool>, r2: seq<bool>, r3: seq<bool>, r4: seq<bool>, k: seq<bool>, i: nat)
    requires RotatedBy(b, r1, 7) && RotatedBy(b, r2, 6) && RotatedBy(b, r3, 5) && RotatedBy(b, r4, 4) && i < 8
    requires k == [true, true, false, false, false, true, true, false]
    ensures XorSeq(XorSeq(XorSeq(XorSeq(XorSeq(b, r1), r2), r3), r4), k)[i] == AffineBits(b)[i]
  {
    SumAt(b, r1, r2, r3, r4, k, i);
    AffineAt(b, k, i);
    hide XorSeq, AffineBits, Sum5;
  }

  lemma RotationsOfBits(b: seq<bool>, r1: seq<bool>, r2: seq<bool>, r3: seq<bool>, r4: seq<bool>, k: seq<bool>)
    requires |b| == 8 && r1 == RotBits(b) && r2 == RotBits(r1) && r3 == RotBits(r2) && r4 == RotBits(r3)
    requires k == [true, true, false, false, false, true, true, false]
    ensures XorSeq(XorSeq(XorSeq(XorSeq(XorSeq(b, r1), r2), r3), r4), k) == AffineBits(b)
  {
    RotatedFully(b);
    hide RotBits, XorSeq, AffineBits, RotatedBy;
    RotAgain(b, b, 8);
    RotAgain(b, r1, 7);
    RotAgain(b, r2, 6);
    RotAgain(b, r3, 5);
    forall i: nat | i < 8
      ensures XorSeq(XorSeq(XorSeq(XorSeq(XorSeq(b, r1), r2), r3), r4), k)[i] == AffineBits(b)[i]
    {
      RotationsAt(b, r1, r2, r3, r4, k, i);
    }
  }

  lemma RotatedFully(b: seq<bool>)
    requires |b| == 8
    ensures RotatedBy(b, b, 8)
  {
  }

  lemma PackedConstant(k: seq<bool>)
    requires k == [true, true, false, false, false, true, true, false]
    ensures Pack(k) == 0x63
  {
    assert Pack(k[7..]) == 0;
    assert k[6..][1..] == k[7..] && Pack(k[6..]) == 1;
    assert k[5..][1..] == k[6..] && Pack(k[5..]) == 3;
    assert k[4..][1..] == k[5..] && Pack(k[4..]) == 6;
    assert k[3..][1..] == k[4..] && Pack(k[3..]) == 12;
    assert k[2..][1..] == k[3..] && Pack(k[2..]) == 24;
    assert k[1..][1..] == k[2..] && Pack(k[1..]) == 49;
  }

  /** Four rotations and the constant 0x63 are the affine map of FIPS 197. */
  lemma RotationsAreAffine(v: byte)
    ensures XorByte(RotSum(v, 4), 0x63) == Affine(v)
  {
    hide XorByte, RotSum, Affine;
    RotationsPlusConstant(v, 0x63);
  }

  lemma RotationsPlusConstant(v: byte, c: byte)
    requires c == 0x63
    ensures XorByte(RotSum(v, 4), c) == Affine(v)
  {
    var k := [true, true, false, false, false, true, true, false];
    var s := SumOfRotations(v, k);
    PackedConstant(k);
    XorPack(s, k);
  }

  lemma SumOfRotations(v: byte, k: seq<bool>) returns (s: seq<bool>)
    requires k == [true, true, false, false, false, true, true, false]
    ensures |s| == 8 && Pack(s) == RotSum(v, 4) && XorSeq(s, k) == AffineBits(Unpack(v, 8))
  {
    var b := RotNBits(v, 0);
    var r1 := RotBits(b);
    var r2 := RotBits(r1);
    var r3 := RotBits(r2);
    var r4 := RotBits(r3);
    RotNext(v, 0, b);
    RotNext(v, 1, r1);
    RotNext(v, 2, r2);
    RotNext(v, 3, r3);
    var s1 := XorSeq(b, r1);
    var s2 := XorSeq(s1, r2);
    var s3 := XorSeq(s2, r3);
    s := XorSeq(s3, r4);
    AddRotation(v, 0, b, r1);
    AddRotation(v, 1, s1, r2);
    AddRotation(v, 2, s2, r3);
    AddRotation(v, 3, s3, r4);
    RotationsOfBits(b, r1, r2, r3, r4, k);
  }

  // ---------- `build_sbox` ----------

  /** exp lists the first n powers of three and log undoes exp on them. */
  ghost predicate TablesUpTo(exp: seq<byte>, log: seq<nat>, n: nat) {
    && |exp| == |log| == 256 && n <= 255
    && forall j | 0 <= j < n :: exp[j] == Pow3(j) && log[Pow3(j)] == j
  }

  lemma ExtendTables(exp: seq<byte>, log: seq<nat>, n: nat, x: byte)
    requires TablesUpTo(exp, log, n) && n < 255 && x == Pow3(n)
    ensures TablesUpTo(exp[n := x], log[x := n], n + 1)
  {
    hide Pow3;
    var e, l := exp[n := x], log[x := n];
    forall j | 0 <= j < n + 1 ensures e[j] == Pow3(j) && l[Pow3(j)] == j {
      if Pow3(j) == x { PowInjective(j, n); }
    }
  }

  /** The first loop: exp[i] = 3^i, and log undoes exp. */
  method PowerTables() returns (exp: array<byte>, log: array<nat>)
    ensures fresh(exp) && fresh(log)
    ensures TablesUpTo(exp[..], log[..], 255)
  {
    hide TablesUpTo;
    exp := new byte[256](_ => 0);
    log := new nat[256](_ => 0);
    NoTables(exp[..], log[..]);
    var x: byte := 1;
    for i := 0 to 255
      invariant x == Pow3(i)
      invariant TablesUpTo(exp[..], log[..], i)
    {
      ExtendTables(exp[..], log[..], i, x);
      exp[i] := x;
      log[x] := i;
      x := XorByte(x, XTime(x));
    }
  }

  lemma NoTables(exp: seq<byte>, log: seq<nat>)
    requires |exp| == |log| == 256
    ensures TablesUpTo(exp, log, 0)
  {
  }

  /** The inverse as `build_sbox` reads it off the tables. */
  method LookUpInverse(exp: array<byte>, log: array<nat>, value: byte) returns (inverse: byte)
    requires TablesUpTo(exp[..], log[..], 255)
    ensures inverse == Inverse(value)
  {
    if value == 0 { return 0; }
    ghost var i := Discrete(value);
    assert log[..][value] == i;
    assert exp[..][(255 - i) % 255] == Pow3((255 - i) % 255);
    inverse := exp[(255 - log[value]) % 255];
    ExponentInverse(i);
    InverseUnique(value, inverse);
  }

  /** `build_sbox`: for each byte its inverse by logarithms, then the affine map
      by four rotations. */
  method BuildSbox() returns (sbox: seq<byte>)
    ensures |sbox| == 256
    ensures forall v: byte :: sbox[v] == SubByte(v)
  {
    hide Or, Xor, Shr, Affine, Pow3;
    var exp, log := PowerTables();
    var table := new byte[256](_ => 0);
    for value := 0 to 256
      invariant TablesUpTo(exp[..], log[..], 255)
      invariant forall v: byte | v < value :: table[v] == SubByte(v)
    {
      var inverse := LookUpInverse(exp, log, value);
      var s, v := inverse, inverse;
      for k := 0 to 4
        invariant v == RotN(inverse, k) && s == RotSum(inverse, k)
      {
        v := Or(2 * v, Shr(v, 7)) % 0x100;
        s := XorByte(s, v);
      }
      RotationsAreAffine(inverse);
      table[value] := XorByte(s, 0x63);
    }
    sbox := table[..];
  }
}
