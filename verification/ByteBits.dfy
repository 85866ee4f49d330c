/** Bytes as 8-bit vectors: the bridge that lets the solver decide facts about
    all 256 bytes, or compute with particular ones, by bit-blasting. */
module ByteBits {
  import opened NatBits

  predicate Test(x: bv8, k: nat)
    decreases k
  {
    if k == 0 then x & 1 == 1 else Test(x >> 1, k - 1)
  }

  /** `xtime` on a vector. */
  function Doubled(x: bv8): bv8 {
    if x & 0x80 != 0 then (x << 1) ^ 0x1B else x << 1
  }

  lemma LowBit(x: bv8)
    ensures (x & 1 == 1) == ((x as int) % 2 == 1)
  {
  }

  lemma HalfValue(x: bv8)
    ensures (x >> 1) as int == (x as int) / 2
  {
  }

  lemma DoubleValue(x: bv8, v: nat)
    requires v == x as int
    ensures (x & 0x80 != 0) == (v >= 128)
    ensures (x << 1) as int == if v >= 128 then 2 * v - 256 else 2 * v
  {
  }

  lemma XorHalves(x: bv8, y: bv8)
    ensures (x ^ y) >> 1 == (x >> 1) ^ (y >> 1)
  {
  }

  lemma {:induction false} TestBit(x: bv8, v: nat, k: nat)
    requires v == x as int
    ensures Bit(v, k) == Test(x, k)
    decreases k
  {
    if k == 0 {
      LowBit(x);
    } else {
      HalfValue(x);
      TestBit(x >> 1, v / 2, k - 1);
    }
  }

  lemma {:induction false} TestXor(x: bv8, y: bv8, z: bv8, k: nat)
    requires z == x ^ y
    ensures Test(z, k) == (Test(x, k) != Test(y, k))
    decreases k
  {
    if k > 0 {
      XorHalves(x, y);
      TestXor(x >> 1, y >> 1, z >> 1, k - 1);
    }
  }

  lemma XorValue(x: bv8, y: bv8, z: bv8, a: nat, b: nat, c: nat)
    requires a == x as int && b == y as int && c == z as int && z == x ^ y
    ensures Xor(a, b) == c
  {
    forall k: nat ensures Bit(Xor(a, b), k) == Bit(c, k) {
      XorBit(a, b, k);
      TestBit(x, a, k);
      TestBit(y, b, k);
      TestBit(z, c, k);
      TestXor(x, y, z, k);
    }
    SameBits(Xor(a, b), c);
  }
}
