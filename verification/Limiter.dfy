/** The two-level limiter of the express pass: a task takes its owner's permit,
    then a global one. `tasks` is the history the safety argument is about; each
    method is one step of one task, taken in any order. */
module Limiter {

  /** Waiting for the owner's permit, holding it and waiting for a global one,
      inside the slot, or gone. */
  datatype Stage = Waiting | Holding | Inside | Gone

  datatype Task = Task(owner: string, stage: Stage)

  /** `owner or "-"`. */
  function Key(owner: string): string { if owner == "" then "-" else owner }

  predicate IsInside(t: Task) { t.stage.Inside? }

  /** Has the permit of `key`. */
  predicate Holds(t: Task, key: string) { (t.stage.Holding? || t.stage.Inside?) && Key(t.owner) == key }

  function CountInside(tasks: seq<Task>): nat {
    if tasks == [] then 0 else CountInside(tasks[1..]) + if IsInside(tasks[0]) then 1 else 0
  }

  function CountHolding(tasks: seq<Task>, key: string): nat {
    if tasks == [] then 0 else CountHolding(tasks[1..], key) + if Holds(tasks[0], key) then 1 else 0
  }

  /** Statements still to be executed by all tasks. */
  function Work(tasks: seq<Task>): nat {
    if tasks == [] then 0 else Work(tasks[1..]) + Remaining(tasks[0].stage)
  }

  function Remaining(s: Stage): nat {
    match s case Waiting => 3 case Holding => 2 case Inside => 1 case Gone => 0
  }

  lemma {:induction false} CountsUpdate(tasks: seq<Task>, i: nat, t: Task, key: string)
    requires i < |tasks|
    ensures CountInside(tasks[i := t]) + (if IsInside(tasks[i]) then 1 else 0) == CountInside(tasks) + (if IsInside(t) then 1 else 0)
    ensures CountHolding(tasks[i := t], key) + (if Holds(tasks[i], key) then 1 else 0)
         == CountHolding(tasks, key) + (if Holds(t, key) then 1 else 0)
    ensures Work(tasks[i := t]) + Remaining(tasks[i].stage) == Work(tasks) + Remaining(t.stage)
  {
    if i > 0 {
      CountsUpdate(tasks[1..], i - 1, t, key);
      assert tasks[i := t][1..] == tasks[1..][i - 1 := t];
    } else {
      assert tasks[i := t][1..] == tasks[1..];
    }
  }

  lemma {:induction false} CountsAppend(tasks: seq<Task>, t: Task, key: string)
    ensures CountInside(tasks + [t]) == CountInside(tasks) + if IsInside(t) then 1 else 0
    ensures CountHolding(tasks + [t], key) == CountHolding(tasks, key) + if Holds(t, key) then 1 else 0
  {
    if tasks == [] {
      assert tasks + [t] == [t];
    } else {
      CountsAppend(tasks[1..], t, key);
      assert (tasks + [t])[1..] == tasks[1..] + [t];
    }
  }

  lemma {:induction false} FindInside(tasks: seq<Task>) returns (i: nat)
    requires CountInside(tasks) > 0
    ensures i < |tasks| && IsInside(tasks[i])
  {
    if IsInside(tasks[0]) {
      i := 0;
    } else {
      i := FindInside(tasks[1..]);
      i := i + 1;
    }
  }

  lemma {:induction false} FindHolder(tasks: seq<Task>, key: string) returns (i: nat)
    requires CountHolding(tasks, key) > 0
    ensures i < |tasks| && Holds(tasks[i], key)
  {
    if Holds(tasks[0], key) {
      i := 0;
    } else {
      i := FindHolder(tasks[1..], key);
      i := i + 1;
    }
  }

  class Limiter {
    const maxInflight: nat
    const perMiner: nat
    /** Free permits of the global semaphore and of each owner's, created on first
        use. */
    var free: nat
    var miners: map<string, nat>
    ghost var tasks: seq<Task>

    ghost predicate Valid()
      reads this
    {
      && maxInflight >= 1 && perMiner >= 1
      && free + CountInside(tasks) == maxInflight
      && forall key :: Balanced(key)
    }

    ghost predicate Balanced(key: string)
      reads this
    {
      Permits(key) + CountHolding(tasks, key) == perMiner
    }

    /** Free permits of an owner, counting a semaphore not yet created. */
    ghost function Permits(key: string): int
      reads this
    {
      if key in miners then miners[key] else perMiner
    }

    constructor (maxInflight: int, perMiner: int)
      ensures Valid() && tasks == []
      ensures this.maxInflight == (if maxInflight < 1 then 1 else maxInflight)
      ensures this.perMiner == (if perMiner < 1 then 1 else perMiner)
    {
      this.maxInflight := if maxInflight < 1 then 1 else maxInflight;
      this.perMiner := if perMiner < 1 then 1 else perMiner;
      free := if maxInflight < 1 then 1 else maxInflight;
      miners, tasks := map[], [];
    }

    /** At most `maxInflight` tasks are in the slot, at most `perMiner` of one owner. */
    lemma Safe(key: string)
      requires Valid()
      ensures CountInside(tasks) <= maxInflight && CountHolding(tasks, key) <= perMiner
    {
      assert Balanced(key);
    }

    /** A task enters `slot`. */
    method Arrive(owner: string)
      requires Valid()
      modifies this`miners, this`tasks
      ensures Valid() && tasks == old(tasks) + [Task(owner, Waiting)]
      ensures forall key :: Permits(key) == old(Permits(key))
    {
      CountsAppend(tasks, Task(owner, Waiting), Key(owner));
      if Key(owner) !in miners { miners := miners[Key(owner) := perMiner]; }
      tasks := tasks + [Task(owner, Waiting)];
      forall key ensures Balanced(key) {
        assert old(Balanced(key));
        CountsAppend(old(tasks), Task(owner, Waiting), key);
      }
    }

    /** The owner's permit is free: take it. */
    method TakeOwner(ghost i: nat, owner: string)
      requires Valid() && i < |tasks| && tasks[i] == Task(owner, Waiting) && Permits(Key(owner)) > 0
      modifies this`miners, this`tasks
      ensures Valid() && tasks == old(tasks)[i := Task(owner, Holding)] && Work(tasks) < Work(old(tasks))
    {
      CountsUpdate(tasks, i, Task(owner, Holding), Key(owner));
      var key := Key(owner);
      var count := if key in miners then miners[key] else perMiner;
      miners := miners[key := count - 1];
      tasks := tasks[i := Task(owner, Holding)];
      forall key ensures Balanced(key) {
        assert old(Balanced(key));
        CountsUpdate(old(tasks), i, Task(owner, Holding), key);
      }
    }

    /** A global permit is free: enter the slot. */
    method TakeGlobal(ghost i: nat, ghost owner: string)
      requires Valid() && i < |tasks| && tasks[i] == Task(owner, Holding) && free > 0
      modifies this`free, this`tasks
      ensures Valid() && tasks == old(tasks)[i := Task(owner, Inside)] && Work(tasks) < Work(old(tasks))
    {
      CountsUpdate(tasks, i, Task(owner, Inside), Key(owner));
      free := free - 1;
      tasks := tasks[i := Task(owner, Inside)];
      forall key ensures Balanced(key) {
        assert old(Balanced(key));
        CountsUpdate(old(tasks), i, Task(owner, Inside), key);
      }
    }

    /** Leaving the slot, normally or by an exception: both permits go back. */
    method Leave(ghost i: nat, owner: string)
      requires Valid() && i < |tasks| && tasks[i] == Task(owner, Inside)
      modifies this`free, this`miners, this`tasks
      ensures Valid() && tasks == old(tasks)[i := Task(owner, Gone)] && Work(tasks) < Work(old(tasks))
    {
      CountsUpdate(tasks, i, Task(owner, Gone), Key(owner));
      var key := Key(owner);
      HeldCreated(i, owner);
      free := free + 1;
      miners := miners[key := miners[key] + 1];
      tasks := tasks[i := Task(owner, Gone)];
      forall key ensures Balanced(key) {
        assert old(Balanced(key));
        CountsUpdate(old(tasks), i, Task(owner, Gone), key);
      }
    }

    /** Cancelled while waiting for a global permit: the owner's goes back. */
    method Abandon(ghost i: nat, owner: string, holding: bool)
      requires Valid() && i < |tasks| && tasks[i] == Task(owner, if holding then Holding else Waiting)
      modifies this`miners, this`tasks
      ensures Valid() && tasks == old(tasks)[i := Task(owner, Gone)] && Work(tasks) < Work(old(tasks))
    {
      CountsUpdate(tasks, i, Task(owner, Gone), Key(owner));
      if holding {
        HeldCreated(i, owner);
        miners := miners[Key(owner) := miners[Key(owner)] + 1];
      }
      tasks := tasks[i := Task(owner, Gone)];
      forall key ensures Balanced(key) {
        assert old(Balanced(key));
        CountsUpdate(old(tasks), i, Task(owner, Gone), key);
      }
    }

    /** A held permit came from a semaphore that exists. */
    lemma HeldCreated(i: nat, owner: string)
      requires Valid() && i < |tasks| && tasks[i].owner == owner && Holds(tasks[i], Key(owner))
      ensures Key(owner) in miners
    {
      CountsUpdate(tasks, i, Task(owner, Gone), Key(owner));
      assert Balanced(Key(owner));
    }

    /** Some task can take its next step. */
    ghost predicate CanStep(i: nat)
      reads this
      requires i < |tasks|
    {
      match tasks[i].stage
      case Waiting => Permits(Key(tasks[i].owner)) > 0
      case Holding => free > 0
      case Inside => true
      case Gone => false
    }

    /** The object's permits are those the step relation speaks of, so its reachable
        states are within the caps and its methods are the relation's steps. */
    lemma PermitsAreSteps(i: nat)
      requires Valid() && i < |tasks|
      ensures CanStep(i) <==> CanAdvance(maxInflight, perMiner, tasks, i)
      ensures Within(maxInflight, perMiner, tasks)
    {
      hide CountInside, CountHolding;
      assert Balanced(Key(tasks[i].owner));
      forall key ensures CountHolding(tasks, key) <= perMiner {
        Safe(key);
      }
    }

    /** No reachable state deadlocks: while a task remains, some task can move. */
    lemma NoDeadlock(i: nat) returns (j: nat)
      requires Valid() && i < |tasks| && !tasks[i].stage.Gone?
      ensures j < |tasks| && CanStep(j)
    {
      j := i;
      if !CanStep(i) {
        if tasks[i].stage.Waiting? {
          var key := Key(tasks[i].owner);
          assert Balanced(key);
          j := FindHolder(tasks, key);
        }
        if !CanStep(j) { j := FindInside(tasks); }
      }
    }
  }

  // ---------- owners ----------

  /** Different owners have different permits; only the nameless owner and the one called
      "-" share theirs. */
  lemma OwnersApart(a: string, b: string)
    requires a != b
    ensures Key(a) == Key(b) <==> (a == "" && b == "-") || (a == "-" && b == "")
  {
  }

  lemma {:induction false} NobodyHolds(tasks: seq<Task>, key: string)
    requires forall t :: t in tasks && Key(t.owner) == key ==> t.stage.Waiting? || t.stage.Gone?
    ensures CountHolding(tasks, key) == 0
  {
    if tasks != [] {
      assert tasks[0] in tasks;
      NobodyHolds(tasks[1..], key);
    }
  }

  /** A task never waits for an owner's permit because of other owners' tasks. */
  lemma OthersDoNotBlock(maxInflight: nat, perMiner: nat, tasks: seq<Task>, i: nat)
    requires perMiner >= 1 && i < |tasks| && tasks[i].stage.Waiting?
    requires forall t :: t in tasks && Key(t.owner) == Key(tasks[i].owner) ==> t.stage.Waiting? || t.stage.Gone?
    ensures CanAdvance(maxInflight, perMiner, tasks, i)
  {
    NobodyHolds(tasks, Key(tasks[i].owner));
  }

  // ---------- whole runs ----------

  /** Task i can take its next step, by the permits that the tasks leave free. */
  predicate CanAdvance(maxInflight: nat, perMiner: nat, tasks: seq<Task>, i: nat)
    requires i < |tasks|
  {
    match tasks[i].stage
    case Waiting => CountHolding(tasks, Key(tasks[i].owner)) < perMiner
    case Holding => CountInside(tasks) < maxInflight
    case Inside => true
    case Gone => false
  }

  function Onward(t: Task): Task {
    t.(stage := match t.stage case Waiting => Holding case Holding => Inside case _ => Gone)
  }

  /** No cap is exceeded. */
  ghost predicate Within(maxInflight: nat, perMiner: nat, tasks: seq<Task>) {
    && maxInflight >= 1 && perMiner >= 1 && CountInside(tasks) <= maxInflight
    && forall key :: CountHolding(tasks, key) <= perMiner
  }

  predicate Advances(maxInflight: nat, perMiner: nat, tasks: seq<Task>, i: nat, next: seq<Task>) {
    i < |tasks| && CanAdvance(maxInflight, perMiner, tasks, i) && next == tasks[i := Onward(tasks[i])]
  }

  /** A task gives up while it waits for either permit. */
  predicate GivesUp(tasks: seq<Task>, i: nat, next: seq<Task>) {
    && i < |tasks| && (tasks[i].stage.Waiting? || tasks[i].stage.Holding?)
    && next == tasks[i := tasks[i].(stage := Gone)]
  }

  ghost predicate Next(maxInflight: nat, perMiner: nat, tasks: seq<Task>, next: seq<Task>) {
    exists i: nat :: Advances(maxInflight, perMiner, tasks, i, next) || GivesUp(tasks, i, next)
  }

  /** A run of a finite set of tasks: each steps or gives up, in any order. */
  ghost predicate IsRun(maxInflight: nat, perMiner: nat, states: seq<seq<Task>>) {
    |states| > 0 && forall k | 0 <= k < |states| - 1 :: Next(maxInflight, perMiner, states[k], states[k + 1])
  }

  lemma NextFacts(maxInflight: nat, perMiner: nat, tasks: seq<Task>, next: seq<Task>)
    requires Within(maxInflight, perMiner, tasks) && Next(maxInflight, perMiner, tasks, next)
    ensures Within(maxInflight, perMiner, next) && Work(next) < Work(tasks) && |next| == |tasks|
  {
    hide CountInside, CountHolding, Work;
    var i: nat :| Advances(maxInflight, perMiner, tasks, i, next) || GivesUp(tasks, i, next);
    CountsUpdate(tasks, i, next[i], Key(tasks[i].owner));
    forall key ensures CountHolding(next, key) <= perMiner {
      CountsUpdate(tasks, i, next[i], key);
    }
  }

  /** A run takes no more steps than its tasks have statements: three for each. */
  lemma {:induction false} RunBounded(maxInflight: nat, perMiner: nat, states: seq<seq<Task>>, k: nat)
    requires IsRun(maxInflight, perMiner, states) && Within(maxInflight, perMiner, states[0]) && k < |states|
    ensures Within(maxInflight, perMiner, states[k]) && Work(states[k]) + k <= Work(states[0])
    ensures |states[k]| == |states[0]| && k <= 3 * |states[0]|
  {
    hide Within, Next, Work;
    WorkBounded(states[0]);
    if k > 0 {
      RunBounded(maxInflight, perMiner, states, k - 1);
      assert Next(maxInflight, perMiner, states[k - 1], states[k - 1 + 1]);
      NextFacts(maxInflight, perMiner, states[k - 1], states[k]);
    }
  }

  lemma {:induction false} WorkBounded(tasks: seq<Task>)
    ensures Work(tasks) <= 3 * |tasks|
  {
    if tasks != [] { WorkBounded(tasks[1..]); }
  }

  /** While a task remains, some task can step. */
  lemma SomeCanAdvance(maxInflight: nat, perMiner: nat, tasks: seq<Task>, i: nat) returns (j: nat)
    requires Within(maxInflight, perMiner, tasks) && i < |tasks| && !tasks[i].stage.Gone?
    ensures j < |tasks| && CanAdvance(maxInflight, perMiner, tasks, j)
  {
    j := i;
    if !CanAdvance(maxInflight, perMiner, tasks, i) {
      if tasks[i].stage.Waiting? { j := FindHolder(tasks, Key(tasks[i].owner)); }
      if !CanAdvance(maxInflight, perMiner, tasks, j) { j := FindInside(tasks); }
    }
  }

  /** Every run extends, without anyone giving up, to one in which all tasks are gone. */
  lemma {:induction false} RunCompletes(maxInflight: nat, perMiner: nat, states: seq<seq<Task>>) returns (full: seq<seq<Task>>)
    requires IsRun(maxInflight, perMiner, states) && Within(maxInflight, perMiner, states[0])
    ensures IsRun(maxInflight, perMiner, full) && states <= full
    ensures forall t | t in full[|full| - 1] :: t.stage.Gone?
    decreases Work(states[|states| - 1])
  {
    hide Within, Next, CanAdvance, Work;
    var last := states[|states| - 1];
    RunBounded(maxInflight, perMiner, states, |states| - 1);
    if i: nat :| i < |last| && !last[i].stage.Gone? {
      var j := SomeCanAdvance(maxInflight, perMiner, last, i);
      var next := last[j := Onward(last[j])];
      AdvanceIsNext(maxInflight, perMiner, last, j, next);
      NextFacts(maxInflight, perMiner, last, next);
      full := RunCompletes(maxInflight, perMiner, states + [next]);
    } else {
      full := states;
    }
  }

  lemma AdvanceIsNext(maxInflight: nat, perMiner: nat, tasks: seq<Task>, i: nat, next: seq<Task>)
    requires Advances(maxInflight, perMiner, tasks, i, next)
    ensures Next(maxInflight, perMiner, tasks, next)
  {
  }
}
