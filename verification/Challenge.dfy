/** The challenge digest, five ways. `Digest` is the mathematical statement: the
    seed matrix raised to the power 2^rounds over the integers, reduced modulo
    2^32 once, then hashed row by row. */
module Challenge {
  import opened NatBits
  import opened Sums
  import opened Words

  // ---------- flat buffers as matrices ----------

  lemma IndexBound(n: nat, i: nat, j: nat)
    requires i < n && j < n
    ensures i * n + j < n * n
  {
    assert i * n <= (n - 1) * n;
  }

  lemma CellCount(n: nat)
    requires n <= 4096
    ensures n * n <= 0x1000000
  {
    Distribute(n, n, 4096 - n);
    NonNegative(n, 4096 - n);
  }

  lemma NonNegative(x: nat, y: nat)
    ensures x * y >= 0
  {
  }

  /** Cell (i, j) of a row-major buffer. */
  function At(s: seq<word32>, n: nat, i: nat, j: nat): word32
    requires |s| == n * n && i < n && j < n
  {
    IndexBound(n, i, j);
    s[i * n + j]
  }

  function View(s: seq<word32>, n: nat): Matrix
    requires |s| == n * n
  {
    (i: nat, j: nat) => if i < n && j < n then At(s, n, i, j) else 0
  }

  lemma AtUpdate(s: seq<word32>, n: nat, i: nat, j: nat, v: word32, p: nat, q: nat)
    requires |s| == n * n && i < n && j < n && p < n && q < n
    ensures 0 <= i * n + j < n * n
    ensures At(s[i * n + j := v], n, p, q) == if p == i && q == j then v else At(s, n, p, q)
  {
    IndexBound(n, i, j);
    IndexBound(n, p, q);
    if p * n + q == i * n + j {
      MulComm(p, n);
      MulComm(i, n);
      Remainders(p, i, q, j, n);
    }
  }

  lemma MulComm(x: int, y: int)
    ensures x * y == y * x
  {
  }

  /** The cell of the square, computed over the integers and wrapped once. */
  function SquareCell(a: seq<word32>, n: nat, i: nat, j: nat): word32
    requires |a| == n * n
  {
    Product(View(a, n), View(a, n), n)(i, j) % M32
  }

  ghost predicate IsSquare(a: seq<word32>, c: seq<word32>, n: nat)
    requires |a| == n * n
  {
    |c| == n * n && forall i: nat, j: nat | i < n && j < n :: At(c, n, i, j) == SquareCell(a, n, i, j)
  }

  /** c is correct in every cell before (i, j) in row-major order. */
  ghost predicate SquaredBefore(a: seq<word32>, c: seq<word32>, n: nat, i: nat, j: nat)
    requires |a| == n * n
  {
    && |c| == n * n
    && forall p: nat, q: nat | p < n && q < n && (p < i || (p == i && q < j)) :: At(c, n, p, q) == SquareCell(a, n, p, q)
  }

  lemma SquareNext(a: seq<word32>, c: seq<word32>, n: nat, i: nat, j: nat, v: word32)
    requires |a| == n * n && i < n && j < n && SquaredBefore(a, c, n, i, j) && v == SquareCell(a, n, i, j)
    ensures 0 <= i * n + j < n * n && SquaredBefore(a, c[i * n + j := v], n, i, j + 1)
  {
    hide At, SquareCell;
    IndexBound(n, i, j);
    forall p: nat, q: nat | p < n && q < n && (p < i || (p == i && q < j + 1))
      ensures At(c[i * n + j := v], n, p, q) == SquareCell(a, n, p, q)
    {
      AtUpdate(c, n, i, j, v, p, q);
    }
  }

  lemma SquareRowDone(a: seq<word32>, c: seq<word32>, n: nat, i: nat)
    requires |a| == n * n && SquaredBefore(a, c, n, i, n)
    ensures SquaredBefore(a, c, n, i + 1, 0)
  {
    hide At, SquareCell;
  }

  // ---------- the digest ----------

  /** The seed matrix: cell k of the buffer is generator output k. */
  function Initial(state: word64, n: nat): Matrix {
    (i: nat, j: nat) => ElementLateMask(state, i * n + j)
  }

  /** Cell (i, j) of A^(2^rounds) modulo 2^32. */
  function FinalCell(state: word64, n: nat, rounds: nat, i: nat, j: nat): word32 {
    Power(Initial(state, n), n, Pow2(rounds))(i, j) % M32
  }

  function FinalRow(state: word64, n: nat, rounds: nat, i: nat): nat -> word32 {
    (j: nat) => FinalCell(state, n, rounds, i, j)
  }

  function FinalHashes(state: word64, n: nat, rounds: nat): nat -> word64 {
    (i: nat) => RowHash(FinalRow(state, n, rounds, i), n)
  }

  function Digest(seed: word64, cipher: word64, n: nat, rounds: nat): word64 {
    FoldDigest(FinalHashes(SeedState(seed, cipher), n, rounds), n, seed, cipher, rounds)
  }

  /** A buffer that holds A^(2^r) modulo 2^32. */
  ghost predicate Holds(s: seq<word32>, state: word64, n: nat, r: nat) {
    |s| == n * n && forall i: nat, j: nat | i < n && j < n :: At(s, n, i, j) == FinalCell(state, n, r, i, j)
  }

  /** Squaring a buffer doubles the exponent: wrapping in between changes nothing. */
  lemma SquareHolds(a: seq<word32>, c: seq<word32>, state: word64, n: nat, r: nat)
    requires Holds(a, state, n, r) && IsSquare(a, c, n)
    ensures Holds(c, state, n, r + 1)
  {
    hide Initial;
    var base, exact := Initial(state, n), Power(Initial(state, n), n, Pow2(r));
    assert Congruent(View(a, n), exact, n, M32);
    ProductCongruent(View(a, n), View(a, n), exact, exact, n, M32);
    PowerSum(base, n, Pow2(r), Pow2(r));
    hide At, Product, Power;
    assert Pow2(r + 1) == Pow2(r) + Pow2(r);
    forall i: nat, j: nat | i < n && j < n ensures At(c, n, i, j) == FinalCell(state, n, r + 1, i, j) {
      assert At(c, n, i, j) == SquareCell(a, n, i, j);
    }
  }

  lemma SeededHolds(s: seq<word32>, state: word64, n: nat)
    requires |s| == n * n && forall k: nat | k < n * n :: s[k] == ElementLateMask(state, k)
    ensures Holds(s, state, n, 0)
  {
    hide ElementLateMask;
    forall i: nat, j: nat | i < n && j < n ensures At(s, n, i, j) == FinalCell(state, n, 0, i, j) {
      IndexBound(n, i, j);
      SeedCell(state, n, i, j);
    }
  }

  lemma SeedCell(state: word64, n: nat, i: nat, j: nat)
    ensures FinalCell(state, n, 0, i, j) == ElementLateMask(state, i * n + j)
  {
    hide ElementLateMask;
    var v: int := ElementLateMask(state, i * n + j);
    ModUnique(v, M32, 0, v);
  }

  function BufferRow(s: seq<word32>, n: nat, i: nat): nat -> word32
    requires |s| == n * n
  {
    (j: nat) => if i < n && j < n then At(s, n, i, j) else 0
  }

  lemma SameRow(s: seq<word32>, state: word64, n: nat, rounds: nat, i: nat)
    requires Holds(s, state, n, rounds) && i < n
    ensures RowHash(BufferRow(s, n, i), n) == FinalHashes(state, n, rounds)(i)
  {
    hide FinalCell, RowHash;
    RowHashSame(BufferRow(s, n, i), FinalRow(state, n, rounds, i), n);
  }

  /** Hashing a buffer that holds the final matrix gives the digest. */
  lemma HashedRows(s: seq<word32>, state: word64, rows: nat -> word64, seed: word64, cipher: word64, n: nat, rounds: nat)
    requires state == SeedState(seed, cipher) && Holds(s, state, n, rounds)
    requires forall i: nat | i < n :: rows(i) == RowHash(BufferRow(s, n, i), n)
    ensures FoldDigest(rows, n, seed, cipher, rounds) == Digest(seed, cipher, n, rounds)
  {
    hide Fnv, SeedState, BufferRow, RowHash, FinalHashes, Holds, FoldRows;
    forall i: nat | i < n ensures rows(i) == FinalHashes(state, n, rounds)(i) {
      SameRow(s, state, n, rounds, i);
    }
    FoldRowsSame(rows, FinalHashes(state, n, rounds), n);
  }

  lemma HoldsSize(s: seq<word32>, state: word64, n: nat, r: nat)
    requires Holds(s, state, n, r)
    ensures |s| == n * n
  {
  }

  function RowOf(rows: seq<word64>): nat -> word64 {
    (i: nat) => if i < |rows| then rows[i] else 0
  }
}
