/** The 64-bit mixer, the cell generator and the FNV-1a hash of the compiled
    challenge, on naturals with every wrap-around written out. */
module Words {
  import opened NatBits
  import Sums

  const M32 := 0x1_0000_0000
  const M64 := 0x1_0000_0000_0000_0000
  const GOLDEN := 0x9E3779B97F4A7C15
  const FNV_OFFSET := 0xcbf29ce484222325
  const FNV_PRIME := 0x100000001b3
  const MIX_A := 0xBF58476D1CE4E5B9
  const MIX_B := 0x94D049BB133111EB

  type word32 = x: int | 0 <= x < 0x1_0000_0000
  type word64 = x: int | 0 <= x < 0x1_0000_0000_0000_0000

  lemma Pow2Doubles(n: nat, k: nat)
    ensures Pow2(n + k) == Pow2(n) * Pow2(k)
  {
    if k > 0 {
      Pow2Doubles(n, k - 1);
      assert Pow2(n + k) == 2 * (Pow2(n) * Pow2(k - 1));
    }
  }

  lemma WordSize()
    ensures Pow2(64) == M64
  {
    hide Pow2;
    EightBytes(8);
  }

  lemma EightBytes(n: nat)
    requires n == 8
    ensures Pow2(8 * n) == M64
  {
    assert Pow2(n) == 256;
    Pow2Doubles(n, n);
    Pow2Doubles(2 * n, 2 * n);
    Pow2Doubles(4 * n, 4 * n);
  }

  function XorWord(a: word64, b: word64): word64 {
    WordSize();
    XorBelow(a, b, 64);
    Xor(a, b)
  }

  function ShrWord(a: word64, s: nat): word64 {
    ShrBelow(a, s);
    Shr(a, s)
  }

  /** `z ^ (z >> s)`. */
  function XorShift(z: word64, s: nat): word64 { XorWord(z, ShrWord(z, s)) }

  function Mix64(z: word64): word64 {
    XorShift(XorShift(XorShift(z, 30) * MIX_A % M64, 27) * MIX_B % M64, 31)
  }

  // ---------- Mix64 is a bijection ----------

  /** `y ^ (y >> s) ^ (y >> 2s)`, which undoes `z ^ (z >> s)` once 3s >= 64. */
  function UnXorShift(y: word64, s: nat): word64 {
    XorWord(XorWord(y, ShrWord(y, s)), ShrWord(y, 2 * s))
  }

  function Unmix64(y: word64): word64 {
    UnXorShift(UnXorShift(UnXorShift(y, 31) * UNMIX_B % M64, 27) * UNMIX_A % M64, 30)
  }

  /** The inverses of the odd multipliers modulo 2^64. */
  const UNMIX_A := 0x96DE1B173F119089
  const UNMIX_B := 0x319642B2D24D8EC3
  const UNGOLDEN := 0xF1DE83E19937733D

  lemma Telescope(a: nat, b: nat, c: nat)
    ensures Xor(Xor(Xor(a, b), Xor(b, c)), c) == a
  {
    XorBits();
    SameBits(Xor(Xor(Xor(a, b), Xor(b, c)), c), a);
  }

  lemma ShiftOfXorShift(z: word64, s: nat)
    ensures ShrWord(XorShift(z, s), s) == Xor(ShrWord(z, s), ShrWord(z, 2 * s))
    ensures ShrWord(XorShift(z, s), 2 * s) == Xor(ShrWord(z, 2 * s), ShrWord(z, 3 * s))
  {
    ShrXor(z, ShrWord(z, s), s);
    ShrShr(z, s, s);
    ShrXor(z, ShrWord(z, s), 2 * s);
    ShrShr(z, s, 2 * s);
  }

  lemma UnXorShiftLeft(z: word64, s: nat)
    requires 22 <= s
    ensures UnXorShift(XorShift(z, s), s) == z
  {
    hide Xor, Shr;
    ShiftOfXorShift(z, s);
    WordSize();
    ShrVanishes(z, 64, 3 * s);
    XorZero(ShrWord(z, 2 * s));
    Telescope(z, ShrWord(z, s), ShrWord(z, 2 * s));
  }

  lemma UnXorShiftRight(y: word64, s: nat)
    requires 22 <= s
    ensures XorShift(UnXorShift(y, s), s) == y
  {
    hide Xor, Shr;
    var y1, y2 := ShrWord(y, s), ShrWord(y, 2 * s);
    ShrXor(Xor(y, y1), y2, s);
    ShrXor(y, y1, s);
    ShrShr(y, s, s);
    ShrShr(y, 2 * s, s);
    WordSize();
    ShrVanishes(y, 64, 3 * s);
    XorZero(Xor(y1, y2));
    Regroup(y, y1, y2);
  }

  lemma Regroup(a: nat, b: nat, c: nat)
    ensures Xor(Xor(Xor(a, b), c), Xor(b, c)) == a
  {
    XorBits();
    SameBits(Xor(Xor(Xor(a, b), c), Xor(b, c)), a);
  }

  lemma OddMultiplier(z: word64, m: nat, inverse: nat)
    requires m * inverse % M64 == 1
    ensures z * m % M64 * inverse % M64 == z
  {
    var w := z * m;
    Sums.ModProduct(w % M64, inverse, w, inverse, M64);
    assert w * inverse == z * (m * inverse);
    Sums.ModProduct(z, m * inverse, z, 1, M64);
  }

  lemma Multipliers()
    ensures MIX_A * UNMIX_A % M64 == 1 && UNMIX_A * MIX_A % M64 == 1
    ensures MIX_B * UNMIX_B % M64 == 1 && UNMIX_B * MIX_B % M64 == 1
    ensures GOLDEN * UNGOLDEN % M64 == 1
  {
  }

  /** Every word has exactly one preimage under the mixer. */
  lemma MixBijective(z: word64)
    ensures Unmix64(Mix64(z)) == z && Mix64(Unmix64(z)) == z
  {
    hide XorShift, UnXorShift;
    Multipliers();
    var a := XorShift(z, 30) * MIX_A % M64;
    var b := XorShift(a, 27) * MIX_B % M64;
    UnXorShiftLeft(b, 31);
    OddMultiplier(XorShift(a, 27), MIX_B, UNMIX_B);
    UnXorShiftLeft(a, 27);
    OddMultiplier(XorShift(z, 30), MIX_A, UNMIX_A);
    UnXorShiftLeft(z, 30);
    var c := UnXorShift(z, 31) * UNMIX_B % M64;
    var d := UnXorShift(c, 27) * UNMIX_A % M64;
    UnXorShiftRight(d, 30);
    OddMultiplier(UnXorShift(c, 27), UNMIX_A, MIX_A);
    UnXorShiftRight(c, 27);
    OddMultiplier(UnXorShift(z, 31), UNMIX_B, MIX_B);
    UnXorShiftRight(z, 31);
  }

  // ---------- seeding and cells ----------

  const SEED_MASK := 0xA5A5A5A5A5A5A5A5

  function SeedState(seed: word64, cipher: word64): word64 {
    (Mix64(XorWord(seed, SEED_MASK)) + Mix64(cipher * GOLDEN % M64)) % M64
  }

  /** The state depends on all of the cipher, and on all of the seed. */
  lemma SeedStateInjective(seed: word64, cipher: word64, seed2: word64, cipher2: word64)
    requires SeedState(seed, cipher) == SeedState(seed2, cipher2)
    ensures seed == seed2 ==> cipher == cipher2
    ensures cipher == cipher2 ==> seed == seed2
  {
    hide Mix64, Unmix64, Xor;
    var x, y := Mix64(XorWord(seed, SEED_MASK)), Mix64(XorWord(seed2, SEED_MASK));
    var u, v := Mix64(cipher * GOLDEN % M64), Mix64(cipher2 * GOLDEN % M64);
    if seed == seed2 {
      AddInjective(x, u, v);
      MixBijective(cipher * GOLDEN % M64);
      MixBijective(cipher2 * GOLDEN % M64);
      Multipliers();
      OddMultiplier(cipher, GOLDEN, UNGOLDEN);
      OddMultiplier(cipher2, GOLDEN, UNGOLDEN);
    }
    if cipher == cipher2 {
      AddInjective(u, x, y);
      MixBijective(XorWord(seed, SEED_MASK));
      MixBijective(XorWord(seed2, SEED_MASK));
      XorCancel(seed, SEED_MASK);
      XorCancel(seed2, SEED_MASK);
    }
  }

  /** The generator before truncation, wrapping after every operation as C does. */
  function Generator(state: word64, index: word64): word64 {
    Mix64((state + (index + 1) % M64 * GOLDEN % M64) % M64)
  }

  /** `mt_element`. */
  function Element(state: word64, index: word64): word32 { Generator(state, index) % M32 }

  /** scripts/challenge_vector.py masks once, after the whole sum. */
  function ElementLateMask(state: word64, index: nat): word32 {
    Mix64((state + (index + 1) * GOLDEN) % M64) % M32
  }

  /** The numpy form counts from one and wraps the product, then the sum. */
  function ElementVector(state: word64, position: word64): word32 {
    Mix64((state + position * GOLDEN % M64) % M64) % M32
  }

  lemma SumWraps(a: int, b: int, m: nat)
    requires m > 0
    ensures (a + b % m) % m == (a + b) % m
  {
    Sums.ModSum(a, b, m);
    Sums.ModSum(a, b % m, m);
    Sums.ModUnique(b % m, m, 0, b % m);
  }

  lemma ProductWraps(a: int, b: int, m: nat)
    requires m > 0
    ensures a % m * b % m == a * b % m
  {
    Sums.ModUnique(a % m, m, 0, a % m);
    Sums.ModProduct(a % m, b, a, b, m);
  }

  /** Wrapping at each step or once gives the same cell. */
  lemma ElementsAgree(state: word64, index: word64)
    ensures ElementLateMask(state, index) == Element(state, index)
    ensures index + 1 < M64 ==> ElementVector(state, index + 1) == Element(state, index)
  {
    hide Mix64;
    SumWraps(state, (index + 1) * GOLDEN, M64);
    ProductWraps(index + 1, GOLDEN, M64);
  }

  lemma AddInjective(c: word64, x: word64, y: word64)
    requires (c + x) % M64 == (c + y) % M64
    ensures x == y
  {
  }

  /** Before truncation, distinct indices give distinct values. */
  lemma GeneratorInjective(state: word64, i: word64, j: word64)
    requires Generator(state, i) == Generator(state, j)
    ensures i == j
  {
    hide Mix64, Unmix64;
    var p, q := (i + 1) % M64, (j + 1) % M64;
    SameSteps(state, p, q);
    AddInjective(1, i, j);
  }

  lemma SameSteps(state: word64, p: word64, q: word64)
    requires Mix64((state + p * GOLDEN % M64) % M64) == Mix64((state + q * GOLDEN % M64) % M64)
    ensures p == q
  {
    hide Mix64, Unmix64;
    var x, y := p * GOLDEN % M64, q * GOLDEN % M64;
    MixBijective((state + x) % M64);
    MixBijective((state + y) % M64);
    AddInjective(state, x, y);
    Multipliers();
    OddMultiplier(p, GOLDEN, UNGOLDEN);
    OddMultiplier(q, GOLDEN, UNGOLDEN);
  }

  // ---------- FNV-1a ----------

  function FnvByte(h: word64, b: byte): word64 { XorWord(h, b) * FNV_PRIME % M64 }

  /** The hash after the k low bytes of v, least significant first. */
  function Fnv(h: word64, v: nat, k: nat): word64
    decreases k
  {
    if k == 0 then h else FnvByte(Fnv(h, v, k - 1), Shr(v, 8 * (k - 1)) % 256)
  }

  /** `fnv_u32` and `fnv_u64`: the byte loop. */
  method FnvLoop(start: word64, value: nat, bytes: nat) returns (hash: word64)
    ensures hash == Fnv(start, value, bytes)
  {
    hide XorWord, Shr;
    hash := start;
    for i := 0 to bytes
      invariant hash == Fnv(start, value, i)
    {
      hash := XorWord(hash, Shr(value, 8 * i) % 256);
      hash := hash * FNV_PRIME % M64;
    }
  }

  /** The hash of a row of n cells. */
  function RowHash(row: nat -> word32, n: nat): word64 {
    if n == 0 then FNV_OFFSET else Fnv(RowHash(row, n - 1), row(n - 1), 4)
  }

  /** The running digest after the first n row hashes. */
  function FoldRows(rows: nat -> word64, n: nat): word64 {
    if n == 0 then FNV_OFFSET else Fnv(FoldRows(rows, n - 1), rows(n - 1), 8)
  }

  /** `mt_fold_digest`. */
  function FoldDigest(rows: nat -> word64, n: nat, seed: word64, cipher: word64, rounds: nat): word64 {
    Fnv(Fnv(Fnv(Fnv(FoldRows(rows, n), seed, 8), cipher, 8), n, 4), rounds, 4)
  }

  lemma {:induction false} RowHashSame(f: nat -> word32, g: nat -> word32, n: nat)
    requires forall j: nat | j < n :: f(j) == g(j)
    ensures RowHash(f, n) == RowHash(g, n)
  {
    hide Fnv;
    if n > 0 { RowHashSame(f, g, n - 1); }
  }

  lemma {:induction false} FoldRowsSame(f: nat -> word64, g: nat -> word64, n: nat)
    requires forall i: nat | i < n :: f(i) == g(i)
    ensures FoldRows(f, n) == FoldRows(g, n)
  {
    hide Fnv;
    if n > 0 { FoldRowsSame(f, g, n - 1); }
  }

  // ---------- the hash of a byte sequence ----------

  /** The k low bytes of a number, least significant first. */
  function LowFirst(v: nat, k: nat): seq<byte> {
    if k == 0 then [] else [v % 256] + LowFirst(v / 256, k - 1)
  }

  lemma ShrByte(v: nat, s: nat)
    ensures Shr(v, 8 + s) == Shr(v / 256, s)
  {
    hide Shr;
    ShrShr(v, 8, s);
    ShrFloors(v, 8);
    assert Pow2(8) == 256;
  }

  lemma {:induction false} LowFirstLast(v: nat, k: nat)
    requires k > 0
    ensures LowFirst(v, k) == LowFirst(v, k - 1) + [Shr(v, 8 * (k - 1)) % 256]
  {
    if k > 1 {
      LowFirstLast(v / 256, k - 1);
      ShrByte(v, 8 * (k - 2));
    }
  }

  /** FNV-1a of a byte sequence. */
  function HashOf(s: seq<byte>): word64 {
    if s == [] then FNV_OFFSET else FnvByte(HashOf(s[..|s| - 1]), s[|s| - 1])
  }

  lemma HashOfNothing(none: seq<byte>)
    requires none == []
    ensures HashOf(none) == FNV_OFFSET
  {
  }

  lemma {:induction false} FnvIsHash(s: seq<byte>, v: nat, k: nat)
    ensures Fnv(HashOf(s), v, k) == HashOf(s + LowFirst(v, k))
  {
    hide FnvByte, Shr;
    if k == 0 {
      assert s + LowFirst(v, k) == s;
    } else {
      FnvIsHash(s, v, k - 1);
      LowFirstLast(v, k);
      var longer := s + LowFirst(v, k);
      assert longer[..|longer| - 1] == s + LowFirst(v, k - 1);
    }
  }

  /** n cells of four bytes each, one after the other. */
  function CellBytes(row: nat -> word32, n: nat): seq<byte> {
    if n == 0 then [] else CellBytes(row, n - 1) + LowFirst(row(n - 1), 4)
  }

  /** n words of eight bytes each. */
  function WordBytes(rows: nat -> word64, n: nat): seq<byte> {
    if n == 0 then [] else WordBytes(rows, n - 1) + LowFirst(rows(n - 1), 8)
  }

  /** A row's hash is FNV-1a of its cells in memory order. */
  lemma {:induction false} RowHashIsHash(row: nat -> word32, n: nat)
    ensures RowHash(row, n) == HashOf(CellBytes(row, n))
  {
    hide Fnv, LowFirst, HashOf;
    HashOfNothing(CellBytes(row, 0));
    if n > 0 {
      RowHashIsHash(row, n - 1);
      FnvIsHash(CellBytes(row, n - 1), row(n - 1), 4);
    }
  }

  lemma {:induction false} FoldRowsIsHash(rows: nat -> word64, n: nat)
    ensures FoldRows(rows, n) == HashOf(WordBytes(rows, n))
  {
    hide Fnv, LowFirst, HashOf;
    HashOfNothing(WordBytes(rows, 0));
    if n > 0 {
      FoldRowsIsHash(rows, n - 1);
      FnvIsHash(WordBytes(rows, n - 1), rows(n - 1), 8);
    }
  }

  /** The digest is FNV-1a of the row hashes, the seed, the cipher, the size and the
      rounds, in that order and in eight, eight, eight, four and four bytes. */
  lemma DigestIsHash(rows: nat -> word64, n: nat, seed: word64, cipher: word64, rounds: nat)
    ensures FoldDigest(rows, n, seed, cipher, rounds) ==
      HashOf(WordBytes(rows, n) + LowFirst(seed, 8) + LowFirst(cipher, 8) + LowFirst(n, 4) + LowFirst(rounds, 4))
  {
    hide Fnv, LowFirst, HashOf, WordBytes;
    FoldRowsIsHash(rows, n);
    var s := WordBytes(rows, n);
    FnvIsHash(s, seed, 8);
    FnvIsHash(s + LowFirst(seed, 8), cipher, 8);
    FnvIsHash(s + LowFirst(seed, 8) + LowFirst(cipher, 8), n, 4);
    FnvIsHash(s + LowFirst(seed, 8) + LowFirst(cipher, 8) + LowFirst(n, 4), rounds, 4);
  }
}
