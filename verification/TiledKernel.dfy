/** `matmul_kernel`: one thread block as a state machine in which any enabled
    thread may take the next step. Two barriers per tile separate the phase in
    which every thread fills its own cell of the shared tiles from the phase in
    which all threads read all of them. */
module TiledKernel {
  import opened Sums
  import opened Words
  import opened Challenge

  const TILE: nat := 16

  /** A launch: the input buffer, its size, and the block's position in the grid. */
  datatype Launch = Launch(a: seq<word32>, n: nat, blockX: nat, blockY: nat) {
    ghost predicate Valid() { |a| == n * n }
    function Row(y: nat): nat { blockY * TILE + y }
    function Col(x: nat): nat { blockX * TILE + x }
    /** The value the kernel loads: the cell, or zero outside the matrix. */
    function Padded(row: nat, col: nat): word32
      requires Valid()
    {
      if row < n && col < n then At(a, n, row, col) else 0
    }
    /** The products one thread adds up. */
    function Products(y: nat, x: nat): nat -> int
      requires Valid()
    {
      (k: nat) => Padded(Row(y), k) * Padded(k, Col(x))
    }
  }

  /** Stage 2t loads tile t and stage 2t + 1 multiplies it; `pc` counts the
      statements done within the stage. */
  datatype Thread = Thread(stage: nat, pc: nat, acc: word32)

  type Grid<T> = (nat, nat) -> T

  datatype Block = Block(left: Grid<word32>, right: Grid<word32>, threads: Grid<Thread>, c: map<(nat, nat), word32>)

  function Set<T>(g: Grid<T>, y: nat, x: nat, v: T): Grid<T> {
    (p: nat, q: nat) => if p == y && q == x then v else g(p, q)
  }

  predicate Loading(l: Launch, th: Thread) { th.stage % 2 == 0 && th.stage / 2 * TILE < l.n }

  predicate Multiplying(th: Thread) { th.stage % 2 == 1 }

  /** The loop is over: what is left is the store. */
  predicate Storing(l: Launch, th: Thread) { th.stage % 2 == 0 && th.stage / 2 * TILE >= l.n }

  /** At the barrier that ends its stage. */
  predicate Waiting(l: Launch, th: Thread) {
    (Loading(l, th) && th.pc == 2) || (Multiplying(th) && th.pc == TILE)
  }

  predicate Finished(l: Launch, th: Thread) { Storing(l, th) && th.pc == 1 }

  /** Every thread of the block has reached the barrier that ends stage s. */
  ghost predicate AllArrived(l: Launch, b: Block, s: nat) {
    forall p: nat, q: nat | p < TILE && q < TILE ::
      var th := b.threads(p, q); th.stage > s || (th.stage == s && Waiting(l, th))
  }

  ghost predicate Enabled(l: Launch, b: Block, y: nat, x: nat) {
    var th := b.threads(y, x);
    y < TILE && x < TILE && !Finished(l, th) && (Waiting(l, th) ==> AllArrived(l, b, th.stage))
  }

  function Initial(): Block {
    Block((y, x) => 0, (y, x) => 0, (y, x) => Thread(0, 0, 0), map[])
  }

  /** One statement of thread (y, x). */
  function Next(l: Launch, b: Block, y: nat, x: nat): Block
    requires l.Valid() && y < TILE && x < TILE
  {
    var th := b.threads(y, x);
    var t := th.stage / 2 * TILE;
    if Waiting(l, th) then
      b.(threads := Set(b.threads, y, x, Thread(th.stage + 1, 0, th.acc)))
    else if Loading(l, th) && th.pc == 0 then
      b.(left := Set(b.left, y, x, l.Padded(l.Row(y), t + x)), threads := Set(b.threads, y, x, th.(pc := 1)))
    else if Loading(l, th) then
      b.(right := Set(b.right, y, x, l.Padded(t + y, l.Col(x))), threads := Set(b.threads, y, x, th.(pc := 2)))
    else if Multiplying(th) then
      var product: int := b.left(y, th.pc) * b.right(th.pc, x);
      b.(threads := Set(b.threads, y, x, th.(pc := th.pc + 1, acc := (th.acc + product % M32) % M32)))
    else
      b.(threads := Set(b.threads, y, x, th.(pc := 1)),
         c := if l.Row(y) < l.n && l.Col(x) < l.n then b.c[(l.Row(y), l.Col(x)) := th.acc] else b.c)
  }

  // ---------- invariants ----------

  ghost predicate InRange(l: Launch, th: Thread) {
    && (Loading(l, th) ==> th.pc <= 2)
    && (Multiplying(th) ==> th.pc <= TILE && th.stage / 2 * TILE < l.n)
    && (Storing(l, th) ==> th.pc <= 1 && (th.stage > 0 ==> (th.stage / 2 - 1) * TILE < l.n))
  }

  /** No thread is a stage ahead of one that has not arrived. */
  ghost predicate Together(l: Launch, b: Block) {
    forall p: nat, q: nat, y: nat, x: nat | p < TILE && q < TILE && y < TILE && x < TILE ::
      Behind(l, b.threads(p, q), b.threads(y, x))
  }

  ghost predicate Behind(l: Launch, u: Thread, v: Thread) {
    u.stage < v.stage ==> v.stage == u.stage + 1 && Waiting(l, u)
  }

  /** A thread that has loaded its cells for a tile, and not yet started on the
      next, finds the padded values there. */
  ghost predicate OwnCells(l: Launch, b: Block, y: nat, x: nat)
    requires l.Valid()
  {
    var th := b.threads(y, x);
    var t := th.stage / 2 * TILE;
    && (Multiplying(th) || (Loading(l, th) && th.pc >= 1) ==> b.left(y, x) == l.Padded(l.Row(y), t + x))
    && (Multiplying(th) || (Loading(l, th) && th.pc >= 2) ==> b.right(y, x) == l.Padded(t + y, l.Col(x)))
  }

  /** How many products the accumulator holds. */
  function Added(th: Thread): nat { th.stage / 2 * TILE + if Multiplying(th) then th.pc else 0 }

  ghost predicate Accumulated(l: Launch, b: Block, y: nat, x: nat)
    requires l.Valid()
  {
    var th := b.threads(y, x);
    th.acc == Sum(l.Products(y, x), Added(th)) % M32
  }

  /** The output holds exactly the cells of finished threads. */
  ghost predicate Stored(l: Launch, b: Block, y: nat, x: nat) {
    var key := (l.Row(y), l.Col(x));
    if Finished(l, b.threads(y, x)) && l.Row(y) < l.n && l.Col(x) < l.n
    then key in b.c && b.c[key] == b.threads(y, x).acc
    else key !in b.c
  }

  ghost predicate Inv(l: Launch, b: Block)
    requires l.Valid()
  {
    && Together(l, b)
    && forall y: nat, x: nat | y < TILE && x < TILE ::
         InRange(l, b.threads(y, x)) && OwnCells(l, b, y, x) && Accumulated(l, b, y, x) && Stored(l, b, y, x)
  }

  lemma InitialInv(l: Launch)
    requires l.Valid()
    ensures Inv(l, Initial())
  {
  }

  /** The statement a thread is about to execute writes a shared cell: its own. */
  predicate WritesShared(l: Launch, th: Thread) { Loading(l, th) && th.pc < 2 }

  /** The statement a thread is about to execute reads shared cells. */
  predicate ReadsShared(th: Thread) { Multiplying(th) && th.pc < TILE }

  /** While some thread still has a cell to write, none is reading. */
  lemma RaceFree(l: Launch, b: Block, y: nat, x: nat, p: nat, q: nat)
    requires l.Valid() && Inv(l, b) && y < TILE && x < TILE && p < TILE && q < TILE
    ensures !(WritesShared(l, b.threads(y, x)) && ReadsShared(b.threads(p, q)))
  {
    hide OwnCells, Accumulated, Stored;
    assert Behind(l, b.threads(y, x), b.threads(p, q));
    assert Behind(l, b.threads(p, q), b.threads(y, x));
  }

  lemma NextTogether(l: Launch, b: Block, y: nat, x: nat)
    requires l.Valid() && Inv(l, b) && Enabled(l, b, y, x)
    ensures Together(l, Next(l, b, y, x))
  {
    hide OwnCells, Accumulated, Stored;
    var m := Next(l, b, y, x);
    var th := b.threads(y, x);
    forall p: nat, q: nat, v: nat, w: nat | p < TILE && q < TILE && v < TILE && w < TILE
      ensures Behind(l, m.threads(p, q), m.threads(v, w))
    {
      assert Behind(l, b.threads(p, q), b.threads(v, w));
      assert Behind(l, th, b.threads(v, w));
      assert Behind(l, b.threads(p, q), th);
    }
  }

  lemma NextOwnCells(l: Launch, b: Block, y: nat, x: nat, p: nat, q: nat)
    requires l.Valid() && Inv(l, b) && Enabled(l, b, y, x) && p < TILE && q < TILE
    ensures OwnCells(l, Next(l, b, y, x), p, q) && InRange(l, Next(l, b, y, x).threads(p, q))
  {
    hide Together, Accumulated, Stored, Launch.Padded, AllArrived;
    assert OwnCells(l, b, p, q) && InRange(l, b.threads(p, q));
  }

  /** A multiplying thread finds the tile complete: the owner of every cell has
      loaded it and cannot have moved on. */
  lemma TileComplete(l: Launch, b: Block, y: nat, x: nat, p: nat, q: nat)
    requires l.Valid() && Inv(l, b) && y < TILE && x < TILE && p < TILE && q < TILE
    requires ReadsShared(b.threads(y, x))
    ensures var t := b.threads(y, x).stage / 2 * TILE;
      b.left(p, q) == l.Padded(l.Row(p), t + q) && b.right(p, q) == l.Padded(t + p, l.Col(q))
  {
    hide Accumulated, Stored, Launch.Padded;
    assert Behind(l, b.threads(y, x), b.threads(p, q));
    assert Behind(l, b.threads(p, q), b.threads(y, x));
    assert OwnCells(l, b, p, q) && InRange(l, b.threads(p, q));
  }

  lemma AddProduct(f: nat -> int, k: nat, acc: word32, product: int)
    requires acc == Sum(f, k) % M32 && product == f(k)
    ensures (acc + product % M32) % M32 == Sum(f, k + 1) % M32
  {
    ModSum(Sum(f, k), f(k), M32);
  }

  lemma NextAccumulated(l: Launch, b: Block, y: nat, x: nat, p: nat, q: nat)
    requires l.Valid() && Inv(l, b) && Enabled(l, b, y, x) && p < TILE && q < TILE
    ensures Accumulated(l, Next(l, b, y, x), p, q)
  {
    hide Together, OwnCells, Stored, AllArrived, Launch.Padded;
    assert Accumulated(l, b, p, q) && InRange(l, b.threads(p, q));
    var th := b.threads(y, x);
    if p == y && q == x && ReadsShared(th) {
      TileComplete(l, b, y, x, y, th.pc);
      TileComplete(l, b, y, x, th.pc, x);
      AddProduct(l.Products(y, x), Added(th), th.acc, b.left(y, th.pc) * b.right(th.pc, x));
    }
  }

  lemma NextStored(l: Launch, b: Block, y: nat, x: nat, p: nat, q: nat)
    requires l.Valid() && Inv(l, b) && Enabled(l, b, y, x) && p < TILE && q < TILE
    ensures Stored(l, Next(l, b, y, x), p, q)
  {
    hide Together, OwnCells, Accumulated, AllArrived, Launch.Padded;
    assert Stored(l, b, p, q) && InRange(l, b.threads(p, q));
    assert Stored(l, b, y, x) && InRange(l, b.threads(y, x));
  }

  lemma NextInv(l: Launch, b: Block, y: nat, x: nat)
    requires l.Valid() && Inv(l, b) && Enabled(l, b, y, x)
    ensures Inv(l, Next(l, b, y, x))
  {
    hide Enabled, Next, Together, OwnCells, Accumulated, Stored, InRange;
    EnabledInGrid(l, b, y, x);
    NextTogether(l, b, y, x);
    forall p: nat, q: nat | p < TILE && q < TILE
      ensures InRange(l, Next(l, b, y, x).threads(p, q)) && OwnCells(l, Next(l, b, y, x), p, q)
           && Accumulated(l, Next(l, b, y, x), p, q) && Stored(l, Next(l, b, y, x), p, q)
    {
      NextOwnCells(l, b, y, x, p, q);
      NextAccumulated(l, b, y, x, p, q);
      NextStored(l, b, y, x, p, q);
    }
  }

  lemma EnabledInGrid(l: Launch, b: Block, y: nat, x: nat)
    requires Enabled(l, b, y, x)
    ensures y < TILE && x < TILE
  {
  }

  // ---------- every schedule ----------

  /** The state after a schedule, whose last step comes last. */
  function After(l: Launch, schedule: seq<(nat, nat)>): Block
    requires l.Valid() && forall i | 0 <= i < |schedule| :: schedule[i].0 < TILE && schedule[i].1 < TILE
  {
    if schedule == [] then Initial()
    else
      var last := schedule[|schedule| - 1];
      Next(l, After(l, schedule[..|schedule| - 1]), last.0, last.1)
  }

  /** Every step of the schedule was enabled when it was taken. */
  ghost predicate Legal(l: Launch, schedule: seq<(nat, nat)>)
    requires l.Valid()
  {
    && (forall i | 0 <= i < |schedule| :: schedule[i].0 < TILE && schedule[i].1 < TILE)
    && (schedule != [] ==>
          var last := schedule[|schedule| - 1];
          Legal(l, schedule[..|schedule| - 1]) && Enabled(l, After(l, schedule[..|schedule| - 1]), last.0, last.1))
  }

  lemma {:induction false} InvAlways(l: Launch, schedule: seq<(nat, nat)>)
    requires l.Valid() && Legal(l, schedule)
    ensures Inv(l, After(l, schedule))
  {
    hide Inv, Enabled, Next, Initial;
    if schedule == [] {
      InitialInv(l);
    } else {
      var front, last := schedule[..|schedule| - 1], schedule[|schedule| - 1];
      InvAlways(l, front);
      NextInv(l, After(l, front), last.0, last.1);
    }
  }

  /** A block never deadlocks: when no thread can move, all have finished. */
  lemma NoDeadlock(l: Launch, b: Block, y: nat, x: nat)
    requires l.Valid() && Inv(l, b) && y < TILE && x < TILE
    requires forall p: nat, q: nat | p < TILE && q < TILE :: !Enabled(l, b, p, q)
    ensures Finished(l, b.threads(y, x))
  {
    hide OwnCells, Accumulated, Stored;
    var th := b.threads(y, x);
    if !Finished(l, th) {
      assert !Enabled(l, b, y, x);
      var p: nat, q: nat := NotArrived(l, b, th.stage);
      var u := b.threads(p, q);
      assert Behind(l, u, th) && !Enabled(l, b, p, q);
      var v: nat, w: nat := NotArrived(l, b, u.stage);
      assert false;
    }
  }

  lemma NotArrived(l: Launch, b: Block, s: nat) returns (p: nat, q: nat)
    requires !AllArrived(l, b, s)
    ensures p < TILE && q < TILE
    ensures b.threads(p, q).stage <= s && !(b.threads(p, q).stage == s && Waiting(l, b.threads(p, q)))
  {
    p, q :| p < TILE && q < TILE && var th := b.threads(p, q); !(th.stage > s || (th.stage == s && Waiting(l, th)));
  }

  // ---------- every schedule can be completed ----------

  function Tiles(n: nat): nat { (n + TILE - 1) / TILE }

  /** Statements a thread has executed: three to load a tile and seventeen to
      multiply it, barriers included, and one to store. */
  function Done(th: Thread): nat { th.stage / 2 * 20 + (if Multiplying(th) then 3 else 0) + th.pc }

  /** A thread takes at most twenty steps a tile and one to store. */
  function StepBound(n: nat): nat { 20 * Tiles(n) + 1 }

  lemma DoneBounded(l: Launch, th: Thread)
    requires InRange(l, th)
    ensures Done(th) <= StepBound(l.n)
  {
    var t := th.stage / 2;
    if t * TILE < l.n {
      assert t < Tiles(l.n);
    } else {
      assert t <= Tiles(l.n);
    }
  }

  lemma StepDone(l: Launch, b: Block, y: nat, x: nat, p: nat, q: nat)
    requires l.Valid() && Inv(l, b) && Enabled(l, b, y, x) && p < TILE && q < TILE
    ensures Done(Next(l, b, y, x).threads(p, q)) == Done(b.threads(p, q)) + if p == y && q == x then 1 else 0
  {
    hide Together, OwnCells, Accumulated, Stored, AllArrived, Launch.Padded;
    assert InRange(l, b.threads(y, x));
  }

  /** The work of thread i of the block, and of the first m threads. */
  function DoneBy(b: Block): nat -> int {
    (i: nat) => Done(b.threads(i / TILE, i % TILE))
  }

  lemma {:induction false} SumPlusOne(f: nat -> int, g: nat -> int, k: nat, n: nat)
    requires forall i: nat | i < n :: g(i) == f(i) + if i == k then 1 else 0
    ensures Sum(g, n) == Sum(f, n) + if k < n then 1 else 0
  {
    if n > 0 { SumPlusOne(f, g, k, n - 1); }
  }

  lemma {:induction false} SumBounded(f: nat -> int, bound: nat, n: nat)
    requires forall i: nat | i < n :: f(i) <= bound
    ensures Sum(f, n) <= n * bound
  {
    if n > 0 {
      SumBounded(f, bound, n - 1);
      assert n * bound == (n - 1) * bound + bound;
    }
  }

  lemma {:induction false} InitialSum(f: nat -> int, n: nat)
    requires forall i: nat | i < n :: f(i) == 0
    ensures Sum(f, n) == 0
  {
    if n > 0 { InitialSum(f, n - 1); }
  }

  const THREADS: nat := 256

  /** A schedule is as long as the work its threads have done. */
  lemma {:induction false} LengthIsWork(l: Launch, schedule: seq<(nat, nat)>)
    requires l.Valid() && Legal(l, schedule)
    ensures |schedule| == Sum(DoneBy(After(l, schedule)), THREADS)
  {
    hide Inv, Enabled, Next, Done, Sum;
    if schedule == [] {
      InitialWork();
    } else {
      var front, last := schedule[..|schedule| - 1], schedule[|schedule| - 1];
      var b, k := After(l, front), last.0 * TILE + last.1;
      LengthIsWork(l, front);
      InvAlways(l, front);
      forall i: nat | i < THREADS
        ensures DoneBy(After(l, schedule))(i) == DoneBy(b)(i) + if i == k then 1 else 0
      {
        StepDone(l, b, last.0, last.1, i / TILE, i % TILE);
      }
      SumPlusOne(DoneBy(b), DoneBy(After(l, schedule)), k, THREADS);
    }
  }

  lemma InitialWork()
    ensures Sum(DoneBy(Initial()), THREADS) == 0
  {
    hide Sum;
    forall i: nat | i < THREADS ensures DoneBy(Initial())(i) == 0 {
      assert Initial().threads(i / TILE, i % TILE) == Thread(0, 0, 0);
    }
    InitialSum(DoneBy(Initial()), THREADS);
  }

  /** No schedule of a block goes on for ever. */
  lemma ScheduleBounded(l: Launch, schedule: seq<(nat, nat)>)
    requires l.Valid() && Legal(l, schedule)
    ensures |schedule| <= THREADS * StepBound(l.n)
  {
    hide Done, Sum, Together, OwnCells, Accumulated, Stored, InRange, StepBound;
    LengthIsWork(l, schedule);
    InvAlways(l, schedule);
    var b := After(l, schedule);
    forall i: nat | i < THREADS ensures DoneBy(b)(i) <= StepBound(l.n) {
      assert InRange(l, b.threads(i / TILE, i % TILE));
      DoneBounded(l, b.threads(i / TILE, i % TILE));
    }
    SumBounded(DoneBy(b), StepBound(l.n), THREADS);
  }

  ghost predicate AllFinished(l: Launch, b: Block) {
    forall p: nat, q: nat | p < TILE && q < TILE :: Finished(l, b.threads(p, q))
  }

  /** Every schedule extends to one in which all threads have finished. */
  lemma {:induction false} Completes(l: Launch, schedule: seq<(nat, nat)>) returns (full: seq<(nat, nat)>)
    requires l.Valid() && Legal(l, schedule)
    ensures schedule <= full && Legal(l, full) && AllFinished(l, After(l, full))
    decreases THREADS * StepBound(l.n) - |schedule|
  {
    hide Inv, Next, StepBound, Finished;
    var b := After(l, schedule);
    InvAlways(l, schedule);
    if y: nat, x: nat :| Enabled(l, b, y, x) {
      EnabledInGrid(l, b, y, x);
      var longer := schedule + [(y, x)];
      assert longer[..|longer| - 1] == schedule;
      ScheduleBounded(l, longer);
      full := Completes(l, longer);
    } else {
      full := schedule;
      forall p: nat, q: nat | p < TILE && q < TILE ensures Finished(l, b.threads(p, q)) {
        NoDeadlock(l, b, p, q);
      }
    }
  }

  // ---------- the result ----------

  lemma {:induction false} ZeroTail(f: nat -> int, n: nat, m: nat)
    requires n <= m && forall k: nat | n <= k < m :: f(k) == 0
    ensures Sum(f, m) == Sum(f, n)
  {
    if n < m { ZeroTail(f, n, m - 1); }
  }

  /** The zero padding adds nothing: the padded dot product is the cell of the
      square. */
  lemma PaddingAddsNothing(l: Launch, y: nat, x: nat, m: nat)
    requires l.Valid() && l.n <= m && l.Row(y) < l.n && l.Col(x) < l.n
    ensures Sum(l.Products(y, x), m) % M32 == SquareCell(l.a, l.n, l.Row(y), l.Col(x))
  {
    var f := l.Products(y, x);
    forall k: nat | l.n <= k < m ensures f(k) == 0 {
    }
    ZeroTail(f, l.n, m);
    var v := View(l.a, l.n);
    SumSame(f, (k: nat) => v(l.Row(y), k) * v(k, l.Col(x)), l.n);
  }

  /** When every thread of a block has finished, each of its cells inside the
      matrix is in the output, once, with the cell of the square. */
  lemma BlockResult(l: Launch, schedule: seq<(nat, nat)>, y: nat, x: nat)
    requires l.Valid() && Legal(l, schedule) && y < TILE && x < TILE
    requires AllFinished(l, After(l, schedule))
    requires l.Row(y) < l.n && l.Col(x) < l.n
    ensures var c := After(l, schedule).c; var key := (l.Row(y), l.Col(x));
      key in c && c[key] == SquareCell(l.a, l.n, l.Row(y), l.Col(x))
  {
    hide Together, OwnCells, Launch.Products, SquareCell;
    InvAlways(l, schedule);
    var b := After(l, schedule);
    assert Stored(l, b, y, x) && Accumulated(l, b, y, x);
    PaddingAddsNothing(l, y, x, Added(b.threads(y, x)));
  }

  /** Storing a cell never overwrites one: it is written exactly once. */
  lemma WrittenOnce(l: Launch, b: Block, y: nat, x: nat)
    requires l.Valid() && Inv(l, b) && Enabled(l, b, y, x) && Storing(l, b.threads(y, x))
    ensures (l.Row(y), l.Col(x)) !in b.c
  {
    hide Together, OwnCells, Accumulated, AllArrived;
    assert Stored(l, b, y, x) && InRange(l, b.threads(y, x));
  }

  /** The grid of (n + TILE - 1) / TILE blocks a side covers every cell by
      exactly one thread of exactly one block. */
  lemma GridCovers(n: nat, row: nat, block: nat, y: nat)
    requires row < n && y < TILE
    ensures row / TILE < (n + TILE - 1) / TILE && row % TILE < TILE
    ensures block * TILE + y == row <==> block == row / TILE && y == row % TILE
  {
  }

  /** A buffer assembled from completed blocks, one for each grid position. */
  ghost predicate KernelOutput(a: seq<word32>, c: seq<word32>, n: nat)
    requires |a| == n * n
  {
    && |c| == n * n
    && forall i: nat, j: nat | i < n && j < n :: Produces(Launch(a, n, j / TILE, i / TILE), i, j, At(c, n, i, j))
  }

  ghost predicate Produces(l: Launch, i: nat, j: nat, v: word32)
    requires l.Valid()
  {
    exists schedule :: Legal(l, schedule) && CompletedWith(l, schedule, i, j, v)
  }

  ghost predicate CompletedWith(l: Launch, schedule: seq<(nat, nat)>, i: nat, j: nat, v: word32)
    requires l.Valid() && Legal(l, schedule)
  {
    var b := After(l, schedule);
    && AllFinished(l, b) && (i, j) in b.c && b.c[(i, j)] == v
  }

  /** Whatever the schedules of its blocks, the launch computes the same square
      as the triple loop of the C reference. */
  lemma KernelSquares(a: seq<word32>, c: seq<word32>, n: nat)
    requires |a| == n * n && KernelOutput(a, c, n)
    ensures IsSquare(a, c, n)
  {
    hide Legal, SquareCell, At;
    forall i: nat, j: nat | i < n && j < n ensures At(c, n, i, j) == SquareCell(a, n, i, j) {
      var l := Launch(a, n, j / TILE, i / TILE);
      var schedule :| Legal(l, schedule) && CompletedWith(l, schedule, i, j, At(c, n, i, j));
      BlockResult(l, schedule, i % TILE, j % TILE);
    }
  }

  /** A launch can produce a buffer exactly when that is the square: some schedule
      of every block completes, and all that complete agree. */
  lemma KernelOutputExact(a: seq<word32>, c: seq<word32>, n: nat)
    requires |a| == n * n && |c| == n * n
    ensures KernelOutput(a, c, n) <==> IsSquare(a, c, n)
  {
    hide Produces, SquareCell, At;
    if KernelOutput(a, c, n) {
      KernelSquares(a, c, n);
    }
    if IsSquare(a, c, n) {
      forall i: nat, j: nat | i < n && j < n
        ensures Produces(Launch(a, n, j / TILE, i / TILE), i, j, At(c, n, i, j))
      {
        assert At(c, n, i, j) == SquareCell(a, n, i, j);
        CompletedBlock(Launch(a, n, j / TILE, i / TILE), i, j);
      }
    }
  }

  lemma CompletedBlock(l: Launch, i: nat, j: nat)
    requires l.Valid() && i < l.n && j < l.n && l.blockX == j / TILE && l.blockY == i / TILE
    ensures Produces(l, i, j, SquareCell(l.a, l.n, i, j))
  {
    hide SquareCell, Finished;
    var schedule := Completes(l, []);
    BlockResult(l, schedule, i % TILE, j % TILE);
    assert Legal(l, schedule) && CompletedWith(l, schedule, i, j, SquareCell(l.a, l.n, i, j));
  }

  // ---------- the kernels with one thread an element ----------

  /** `fill_kernel` and `row_hash_kernel`: the threads of the grid run in the given
      order, and thread k writes element k if the buffer has one. */
  function Elementwise<T>(out: seq<T>, order: seq<nat>, value: nat -> T): (r: seq<T>)
    ensures |r| == |out|
  {
    if order == [] then out
    else
      var k := order[|order| - 1];
      var before := Elementwise(out, order[..|order| - 1], value);
      if k < |out| then before[k := value(k)] else before
  }

  /** Every thread of the blocks is in the order. */
  ghost predicate Covers(order: seq<nat>, blocks: nat, width: nat) {
    forall k: nat | k < blocks * width :: k in order
  }

  lemma {:induction false} ElementWritten<T>(out: seq<T>, order: seq<nat>, value: nat -> T, k: nat)
    requires k < |out| && k in order
    ensures Elementwise(out, order, value)[k] == value(k)
  {
    var front, last := order[..|order| - 1], order[|order| - 1];
    if k != last { ElementWritten(out, front, value, k); }
  }

  /** With `(size + width - 1) / width` blocks every element is written, whatever the
      order of the threads. */
  lemma AllWritten<T>(out: seq<T>, order: seq<nat>, value: nat -> T, width: nat)
    requires width > 0 && Covers(order, (|out| + width - 1) / width, width)
    ensures forall k: nat | k < |out| :: Elementwise(out, order, value)[k] == value(k)
  {
    EnoughBlocks(|out|, width);
    forall k: nat | k < |out| ensures Elementwise(out, order, value)[k] == value(k) {
      ElementWritten(out, order, value, k);
    }
  }

  lemma EnoughBlocks(size: nat, width: nat)
    requires width > 0
    ensures (size + width - 1) / width * width >= size
  {
  }

  function Cell(state: word64): nat -> word32 {
    (k: nat) => if k < M64 then Element(state, k) else 0
  }

  function HashOf(s: seq<word32>, n: nat): nat -> word64
    requires |s| == n * n
  {
    (i: nat) => RowHash(BufferRow(s, n, i), n)
  }

  lemma FillHolds(out: seq<word32>, order: seq<nat>, state: word64, n: nat)
    requires n <= 4096 && |out| == n * n && Covers(order, (n * n + 255) / 256, 256)
    ensures Holds(Elementwise(out, order, Cell(state)), state, n, 0)
  {
    hide Holds, Element, ElementLateMask, Elementwise;
    CellCount(n);
    AllWritten(out, order, Cell(state), 256);
    var s := Elementwise(out, order, Cell(state));
    forall k: nat | k < n * n ensures s[k] == ElementLateMask(state, k) {
      ElementsAgree(state, k);
    }
    SeededHolds(s, state, n);
  }

  /** A run of `mt_challenge_solve` on the device: the initial contents of the
      buffers, the orders in which the threads of the fill and of the row-hash
      kernel ran, and what each launch left in the other buffer. */
  datatype DeviceRun = DeviceRun(fill0: seq<word32>, fillOrder: seq<nat>, outputs: seq<seq<word32>>,
                                 rows0: seq<word64>, rowOrder: seq<nat>)
  {
    /** Buffer `a` after r rounds. */
    function Buffer(state: word64, r: nat): seq<word32>
      requires r <= |outputs|
    {
      if r == 0 then Elementwise(fill0, fillOrder, Cell(state)) else outputs[r - 1]
    }

    ghost predicate Valid(state: word64, n: nat) {
      && |fill0| == n * n && Covers(fillOrder, (n * n + 255) / 256, 256)
      && |rows0| == n && Covers(rowOrder, (n + 127) / 128, 128)
      && forall r: nat | r < |outputs| :: |Buffer(state, r)| == n * n && KernelOutput(Buffer(state, r), outputs[r], n)
    }
  }

  lemma {:induction false} RoundsHold(run: DeviceRun, state: word64, n: nat, r: nat)
    requires n <= 4096 && run.Valid(state, n) && r <= |run.outputs|
    ensures Holds(run.Buffer(state, r), state, n, r)
  {
    hide KernelOutput, Holds, Covers, Elementwise;
    if r == 0 {
      FillHolds(run.fill0, run.fillOrder, state, n);
    } else {
      RoundsHold(run, state, n, r - 1);
      KernelSquares(run.Buffer(state, r - 1), run.outputs[r - 1], n);
      SquareHolds(run.Buffer(state, r - 1), run.outputs[r - 1], state, n, r - 1);
    }
  }

  /** Fill, one launch a round into the other buffer, row hashes, fold: for every
      order of the threads of every launch it is the digest of the reference. */
  lemma DeviceDigest(run: DeviceRun, seed: word64, cipher: word64, n: nat, rounds: nat)
    requires 8 <= n <= 4096 && |run.outputs| == rounds && run.Valid(SeedState(seed, cipher), n)
    ensures var buffer := run.Buffer(SeedState(seed, cipher), rounds);
      && |buffer| == n * n
      && FoldDigest(RowOf(Elementwise(run.rows0, run.rowOrder, HashOf(buffer, n))), n, seed, cipher, rounds)
         == Digest(seed, cipher, n, rounds)
  {
    hide KernelOutput, Holds, SeedState, RowHash, FoldDigest, Digest, BufferRow, Elementwise, Cell;
    var state := SeedState(seed, cipher);
    RoundsHold(run, state, n, rounds);
    var buffer := run.Buffer(state, rounds);
    HoldsSize(buffer, state, n, rounds);
    AllWritten(run.rows0, run.rowOrder, HashOf(buffer, n), 128);
    HashedRows(buffer, state, RowOf(Elementwise(run.rows0, run.rowOrder, HashOf(buffer, n))), seed, cipher, n, rounds);
  }

  /** Such a run exists, so the launches do come to an end. */
  lemma DeviceRuns(state: word64, n: nat, rounds: nat) returns (run: DeviceRun)
    ensures |run.outputs| == rounds && run.Valid(state, n)
  {
    hide KernelOutput, Cell, Elementwise, Upto;
    run := DeviceRun(seq(n * n, _ => 0), Upto((n * n + 255) / 256 * 256), [], seq(n, _ => 0), Upto((n + 127) / 128 * 128));
    UptoCovers((n * n + 255) / 256, 256);
    UptoCovers((n + 127) / 128, 128);
    for r := 0 to rounds
      invariant |run.outputs| == r && run.Valid(state, n) && |run.Buffer(state, r)| == n * n
    {
      var next := Squared(run.Buffer(state, r), n);
      KernelOutputExact(run.Buffer(state, r), next, n);
      ghost var before := run;
      run := run.(outputs := run.outputs + [next]);
      assert forall q: nat | q <= r :: run.Buffer(state, q) == before.Buffer(state, q);
    }
  }

  function Upto(n: nat): (s: seq<nat>)
    ensures |s| == n && forall k: nat :: k < n ==> s[k] == k
  {
    seq(n, k => k)
  }

  lemma UptoCovers(blocks: nat, width: nat)
    ensures Covers(Upto(blocks * width), blocks, width)
  {
    var order := Upto(blocks * width);
    forall k: nat | k < blocks * width ensures k in order {
      assert order[k] == k;
    }
  }

  lemma Squared(a: seq<word32>, n: nat) returns (c: seq<word32>)
    requires |a| == n * n
    ensures |c| == n * n && IsSquare(a, c, n)
  {
    hide SquareCell;
    c := seq<word32>(n * n, m requires 0 <= m < n * n => SquareCell(a, n, m / n, m % n));
    forall i: nat, j: nat | i < n && j < n ensures At(c, n, i, j) == SquareCell(a, n, i, j) {
      IndexBound(n, i, j);
      MulComm(i, n);
      ModUnique(i * n + j, n, i, j);
    }
  }
}
