/** The host programs that compute the challenge digest, each in its own order
    of loops and wraps: the C reference, the pure Python loop, and the two numpy
    forms. All of them compute `Challenge.Digest`. */
module ChallengePrograms {
  import opened NatBits
  import opened Sums
  import opened Words
  import opened Challenge

  // ---------- the C reference ----------

  /** One cell: unsigned products and sums, each wrapping at 2^32. */
  method DotC(a: array<word32>, n: nat, i: nat, j: nat) returns (acc: word32)
    requires a.Length == n * n && i < n && j < n
    ensures acc == SquareCell(a[..], n, i, j)
  {
    hide At, Terms, Product;
    acc := 0;
    ghost var f := Terms(a[..], n, i, j);
    for k := 0 to n
      invariant acc == Sum(f, k) % M32
    {
      TermAt(a[..], n, i, j, k);
      var left: int, right: int := a[i * n + k], a[k * n + j];
      WrappedStep(Sum(f, k), left * right);
      acc := (acc + left * right % M32) % M32;
    }
    TermsSum(a[..], n, i, j);
  }

  function Terms(a: seq<word32>, n: nat, i: nat, j: nat): nat -> int
    requires |a| == n * n
  {
    (k: nat) => View(a, n)(i, k) * View(a, n)(k, j)
  }

  lemma TermAt(a: seq<word32>, n: nat, i: nat, j: nat, k: nat)
    requires |a| == n * n && i < n && j < n && k < n
    ensures 0 <= i * n + k < n * n && 0 <= k * n + j < n * n
    ensures Terms(a, n, i, j)(k) == (a[i * n + k] as int) * (a[k * n + j] as int)
  {
    AtIs(a, n, i, k);
    AtIs(a, n, k, j);
    assert View(a, n)(i, k) == At(a, n, i, k) && View(a, n)(k, j) == At(a, n, k, j);
    hide At;
  }

  lemma TermsSum(a: seq<word32>, n: nat, i: nat, j: nat)
    requires |a| == n * n
    ensures Sum(Terms(a, n, i, j), n) % M32 == SquareCell(a, n, i, j)
  {
    SumSame(Terms(a, n, i, j), (k: nat) => View(a, n)(i, k) * View(a, n)(k, j), n);
  }

  lemma AtIs(a: seq<word32>, n: nat, i: nat, j: nat)
    requires |a| == n * n && i < n && j < n
    ensures 0 <= i * n + j < n * n && At(a, n, i, j) == a[i * n + j]
  {
    IndexBound(n, i, j);
  }

  lemma WrappedStep(s: int, p: int)
    ensures (s % M32 + p % M32) % M32 == (s + p) % M32
  {
    ModSum(s, p, M32);
  }

  /** The triple loop: c becomes the square of a; a is left alone. */
  method SquareC(a: array<word32>, c: array<word32>, n: nat)
    requires a != c && a.Length == c.Length == n * n
    modifies c
    ensures IsSquare(a[..], c[..], n)
  {
    hide SquareCell, At, SquaredBefore;
    SquareStart(a[..], c[..], n);
    for i := 0 to n
      invariant SquaredBefore(a[..], c[..], n, i, 0)
    {
      for j := 0 to n
        invariant SquaredBefore(a[..], c[..], n, i, j)
      {
        var acc := DotC(a, n, i, j);
        SquareNext(a[..], c[..], n, i, j, acc);
        c[i * n + j] := acc;
      }
      SquareRowDone(a[..], c[..], n, i);
    }
    SquareEnd(a[..], c[..], n);
  }

  lemma SquareStart(a: seq<word32>, c: seq<word32>, n: nat)
    requires |a| == |c| == n * n
    ensures SquaredBefore(a, c, n, 0, 0)
  {
  }

  lemma SquareEnd(a: seq<word32>, c: seq<word32>, n: nat)
    requires |a| == n * n && SquaredBefore(a, c, n, n, 0)
    ensures IsSquare(a, c, n)
  {
    hide At, SquareCell;
  }

  /** The hash of row i of a buffer. */
  method HashRow(a: seq<word32>, n: nat, i: nat) returns (h: word64)
    requires |a| == n * n && i < n
    ensures h == RowHash(BufferRow(a, n, i), n)
  {
    hide At, Fnv;
    h := FNV_OFFSET;
    for j := 0 to n
      invariant h == RowHash(BufferRow(a, n, i), j)
    {
      AtIs(a, n, i, j);
      h := FnvLoop(h, a[i * n + j], 4);
    }
  }

  /** Every row hashed in turn, as the C reference and the kernel's threads do. */
  method HashRows(a: seq<word32>, n: nat) returns (rows: seq<word64>)
    requires |a| == n * n
    ensures |rows| == n && forall i: nat | i < n :: rows[i] == RowHash(BufferRow(a, n, i), n)
  {
    hide RowHash, BufferRow;
    rows := [];
    for i := 0 to n
      invariant |rows| == i && forall p: nat | p < i :: rows[p] == RowHash(BufferRow(a, n, p), n)
    {
      var h := HashRow(a, n, i);
      rows := rows + [h];
    }
  }

  /** `mt_fold_digest`. */
  method Fold(rows: seq<word64>, n: nat, seed: word64, cipher: word64, rounds: nat) returns (digest: word64)
    requires |rows| == n
    ensures digest == FoldDigest(RowOf(rows), n, seed, cipher, rounds)
  {
    hide Fnv;
    digest := FNV_OFFSET;
    for i := 0 to n
      invariant digest == FoldRows(RowOf(rows), i)
    {
      digest := FnvLoop(digest, rows[i], 8);
    }
    digest := FnvLoop(digest, seed, 8);
    digest := FnvLoop(digest, cipher, 8);
    digest := FnvLoop(digest, n, 4);
    digest := FnvLoop(digest, rounds, 4);
  }

  datatype Outcome = BadArguments | AllocationFailed | Solved(digest: word64)

  /** `mt_challenge_solve` of reference.c; whether the caller gave a place for the
      digest, and whether malloc succeeds, are inputs. */
  method SolveC(seed: word64, cipher: word64, n: nat, rounds: nat, place: bool, memory: bool) returns (r: Outcome)
    ensures r == if !place || n < 8 || n > 4096 || rounds < 1 || rounds > 16 then BadArguments
                 else if !memory then AllocationFailed
                 else Solved(Digest(seed, cipher, n, rounds))
  {
    hide *;
    if !place || n < 8 || n > 4096 || rounds < 1 || rounds > 16 { return BadArguments; }
    if !memory { return AllocationFailed; }
    var a := new word32[n * n](_ => 0);
    var c := new word32[n * n](_ => 0);
    var state := SeedState(seed, cipher);
    CellCount(n);
    for k := 0 to n * n
      invariant forall p: nat | p < k :: a[p] == ElementLateMask(state, p)
    {
      ElementsAgree(state, k);
      a[k] := Element(state, k);
    }
    SeededHolds(a[..], state, n);
    for r := 0 to rounds
      invariant a != c && fresh(a) && fresh(c) && a.Length == c.Length == n * n
      invariant Holds(a[..], state, n, r)
    {
      SquareC(a, c, n);
      SquareHolds(a[..], c[..], state, n, r);
      a, c := c, a;
    }
    var rows := HashRows(a[..], n);
    var digest := Fold(rows, n, seed, cipher, rounds);
    RowsHash(a[..], rows, state, seed, cipher, n, rounds);
    r := Solved(digest);
  }

  lemma RowsHash(s: seq<word32>, rows: seq<word64>, state: word64, seed: word64, cipher: word64, n: nat, rounds: nat)
    requires state == SeedState(seed, cipher) && Holds(s, state, n, rounds) && |rows| == n
    requires forall i: nat | i < n :: rows[i] == RowHash(BufferRow(s, n, i), n)
    ensures FoldDigest(RowOf(rows), n, seed, cipher, rounds) == Digest(seed, cipher, n, rounds)
  {
    hide Digest, FoldDigest, SeedState, Holds, RowHash, BufferRow;
    HashedRows(s, state, RowOf(rows), seed, cipher, n, rounds);
  }

  // ---------- the pure Python loop ----------

  /** One cell on unbounded integers, masked at the end. */
  method DotPython(rows: seq<word32>, n: nat, i: nat, j: nat) returns (cell: word32)
    requires |rows| == n * n && i < n && j < n
    ensures cell == SquareCell(rows, n, i, j)
  {
    hide At, Terms, Product;
    RowSlice(n, i);
    var row := rows[i * n..(i + 1) * n];
    var acc: int := 0;
    ghost var f := Terms(rows, n, i, j);
    for k := 0 to n
      invariant acc == Sum(f, k)
    {
      TermAt(rows, n, i, j, k);
      var left: int, right: int := row[k], rows[k * n + j];
      acc := acc + left * right;
    }
    TermsSum(rows, n, i, j);
    cell := acc % M32;
  }

  lemma RowSlice(n: nat, i: nat)
    requires i < n
    ensures 0 <= i * n <= (i + 1) * n <= n * n && (i + 1) * n - i * n == n
  {
    assert (i + 1) * n <= n * n;
  }

  method SquarePython(rows: seq<word32>, n: nat) returns (result: seq<word32>)
    requires |rows| == n * n
    ensures IsSquare(rows, result, n)
  {
    hide SquareCell, At, SquaredBefore;
    var out := new word32[n * n](_ => 0);
    SquareStart(rows, out[..], n);
    for i := 0 to n
      invariant SquaredBefore(rows, out[..], n, i, 0)
    {
      for j := 0 to n
        invariant SquaredBefore(rows, out[..], n, i, j)
      {
        var cell := DotPython(rows, n, i, j);
        SquareNext(rows, out[..], n, i, j, cell);
        out[i * n + j] := cell;
      }
      SquareRowDone(rows, out[..], n, i);
    }
    SquareEnd(rows, out[..], n);
    result := out[..];
  }

  /** `digest` of scripts/challenge_vector.py without numpy, for every n and
      every number of rounds. */
  method DigestPython(seed: word64, cipher: word64, n: nat, rounds: nat) returns (digest: word64)
    ensures digest == Digest(seed, cipher, n, rounds)
  {
    hide *;
    var state := SeedState(seed, cipher);
    var cells := seq<word32>(n * n, k requires 0 <= k => ElementLateMask(state, k));
    SeededHolds(cells, state, n);
    for r := 0 to rounds
      invariant Holds(cells, state, n, r)
    {
      HoldsSize(cells, state, n, r);
      var out := SquarePython(cells, n);
      SquareHolds(cells, out, state, n, r);
      cells := out;
    }
    HoldsSize(cells, state, n, rounds);
    var rows := HashRows(cells, n);
    digest := Fold(rows, n, seed, cipher, rounds);
    RowsHash(cells, rows, state, seed, cipher, n, rounds);
  }

  // ---------- the numpy forms ----------

  /** A uint64 accumulation, wrapping products and sums at 2^64. */
  function WrappedSum(f: nat -> int, n: nat): word64 {
    if n == 0 then 0 else (WrappedSum(f, n - 1) + f(n - 1) % M64) % M64
  }

  lemma {:induction false} WrappedSumIs(f: nat -> int, n: nat)
    ensures WrappedSum(f, n) == Sum(f, n) % M64
  {
    if n > 0 {
      WrappedSumIs(f, n - 1);
      ModSum(Sum(f, n - 1), f(n - 1), M64);
    }
  }

  /** Truncating a value already wrapped at 2^64 is truncating the value. */
  lemma WrapThenTruncate(x: int)
    ensures x % M64 % M32 == x % M32
  {
    var q := x / M64;
    assert x == x % M64 + M32 * (0x1_0000_0000 * q);
    ModShift(x % M64, 0x1_0000_0000 * q, M32);
  }

  /** `(matrix.astype(uint64) @ matrix.astype(uint64)).astype(uint32)`, flat. */
  function SquareNumpy(a: seq<word32>, n: nat): seq<word32>
    requires |a| == n * n
  {
    seq<word32>(n * n, m requires 0 <= m < n * n => WrappedSum(Terms(a, n, m / n, m % n), n) % M32)
  }

  lemma SquareNumpyIs(a: seq<word32>, n: nat)
    requires |a| == n * n
    ensures IsSquare(a, SquareNumpy(a, n), n)
  {
    hide Terms, SquareCell, WrappedSum;
    var c := SquareNumpy(a, n);
    forall i: nat, j: nat | i < n && j < n ensures At(c, n, i, j) == SquareCell(a, n, i, j) {
      IndexBound(n, i, j);
      MulComm(i, n);
      ModUnique(i * n + j, n, i, j);
      WrappedSumIs(Terms(a, n, i, j), n);
      WrapThenTruncate(Sum(Terms(a, n, i, j), n));
      TermsSum(a, n, i, j);
    }
  }

  /** `digest` of scripts/challenge_vector.py with numpy. */
  method DigestNumpy(seed: word64, cipher: word64, n: nat, rounds: nat) returns (digest: word64)
    ensures digest == Digest(seed, cipher, n, rounds)
  {
    hide *;
    var state := SeedState(seed, cipher);
    var matrix := seq<word32>(n * n, k requires 0 <= k => ElementLateMask(state, k));
    SeededHolds(matrix, state, n);
    matrix := SquareRepeatedly(matrix, state, n, rounds);
    HoldsSize(matrix, state, n, rounds);
    var rows := HashRows(matrix, n);
    digest := Fold(rows, n, seed, cipher, rounds);
    RowsHash(matrix, rows, state, seed, cipher, n, rounds);
  }

  method SquareRepeatedly(start: seq<word32>, ghost state: word64, n: nat, rounds: nat) returns (matrix: seq<word32>)
    requires Holds(start, state, n, 0)
    ensures Holds(matrix, state, n, rounds)
  {
    hide *;
    matrix := start;
    for r := 0 to rounds
      invariant Holds(matrix, state, n, r)
    {
      HoldsSize(matrix, state, n, r);
      var squared := SquareNumpy(matrix, n);
      SquareNumpyIs(matrix, n);
      SquareHolds(matrix, squared, state, n, r);
      matrix := squared;
    }
  }

  /** All row hashes advanced together, one column at a time, in place. */
  method HashColumns(matrix: seq<word32>, n: nat) returns (hashes: seq<word64>)
    requires |matrix| == n * n
    ensures |hashes| == n && forall i: nat | i < n :: hashes[i] == RowHash(BufferRow(matrix, n, i), n)
  {
    hide Fnv, XorWord, BufferRow, RowHash;
    var rows := new word64[n](_ => FNV_OFFSET);
    forall p: nat | p < n ensures RowHash(BufferRow(matrix, n, p), 0) == FNV_OFFSET { EmptyRow(BufferRow(matrix, n, p)); }
    for column := 0 to n
      invariant forall p: nat | p < n :: rows[p] == RowHash(BufferRow(matrix, n, p), column)
    {
      forall p: nat | p < n
        ensures Fnv(rows[p], BufferRow(matrix, n, p)(column), 0) == rows[p]
      {
        EmptyFnv(rows[p], BufferRow(matrix, n, p)(column));
      }
      for i := 0 to 4
        invariant forall p: nat | p < n ::
          rows[p] == Fnv(RowHash(BufferRow(matrix, n, p), column), BufferRow(matrix, n, p)(column), i)
      {
        ghost var before := rows[..];
        forall p | 0 <= p < n {
          rows[p] := XorWord(rows[p], Shr(BufferRow(matrix, n, p)(column), 8 * i) % 256);
        }
        forall p | 0 <= p < n {
          rows[p] := rows[p] * FNV_PRIME % M64;
        }
        forall p: nat | p < n
          ensures rows[p] == Fnv(RowHash(BufferRow(matrix, n, p), column), BufferRow(matrix, n, p)(column), i + 1)
        {
          NextFnv(RowHash(BufferRow(matrix, n, p), column), BufferRow(matrix, n, p)(column), i);
        }
      }
      forall p: nat | p < n
        ensures rows[p] == RowHash(BufferRow(matrix, n, p), column + 1)
      {
        NextRow(BufferRow(matrix, n, p), column);
      }
    }
    hashes := rows[..];
  }

  lemma EmptyRow(row: nat -> word32)
    ensures RowHash(row, 0) == FNV_OFFSET
  {
  }

  lemma NextRow(row: nat -> word32, n: nat)
    ensures RowHash(row, n + 1) == Fnv(RowHash(row, n), row(n), 4)
  {
  }

  lemma EmptyFnv(h: word64, v: nat)
    ensures Fnv(h, v, 0) == h
  {
  }

  lemma NextFnv(h: word64, v: nat, k: nat)
    ensures Fnv(h, v, k + 1) == XorWord(Fnv(h, v, k), Shr(v, 8 * k) % 256) * FNV_PRIME % M64
  {
    hide Shr, XorWord;
  }

  /** The vectorised cells: positions 1 to `cells` as uint64. */
  function VectorCells(state: word64, cells: nat): (s: seq<word32>)
    requires cells < M64
    ensures |s| == cells
  {
    hide ElementVector;
    seq<word32>(cells, k requires 0 <= k < cells => ElementVector(state, k + 1))
  }

  lemma SeededVector(state: word64, n: nat)
    requires n * n < M64
    ensures Holds(VectorCells(state, n * n), state, n, 0)
  {
    hide ElementVector, ElementLateMask, Holds;
    var s := VectorCells(state, n * n);
    forall k: nat | k < n * n ensures s[k] == ElementLateMask(state, k) {
      ElementsAgree(state, k);
    }
    SeededHolds(s, state, n);
  }

  /** `reference_digest` of validator/verify/challenge.py: vectorised cells,
      numpy products and column-wise hashing. */
  method ReferenceDigest(seed: word64, cipher: word64, n: nat, rounds: nat) returns (digest: word64)
    requires n * n < M64
    ensures digest == Digest(seed, cipher, n, rounds)
  {
    hide *;
    var state := SeedState(seed, cipher);
    var matrix := VectorCells(state, n * n);
    SeededVector(state, n);
    matrix := SquareRepeatedly(matrix, state, n, rounds);
    HoldsSize(matrix, state, n, rounds);
    var rows := HashColumns(matrix, n);
    digest := Fold(rows, n, seed, cipher, rounds);
    RowsHash(matrix, rows, state, seed, cipher, n, rounds);
  }
}
