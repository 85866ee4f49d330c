/** `apply_caps` and `restore_job` running concurrently, command by command: each
    await is a point where another job's step, or a crash that loses every task
    but not the saved records, may come in between. */
module PowerInterleaving {
  import opened Rounding
  import opened PowerCaps

  /** What a task is in the middle of, on one card. */
  datatype Activity =
    | Idle
    | HasRead(job: string, cap: Cap, limit: real)
    | Capping(job: string, cap: Cap)
    | Restoring(job: string, uuid: string, original: real)
    | Restored(job: string, uuid: string, original: real)
  {
    function Card(): string
      requires !Idle?
    {
      if HasRead? || Capping? then cap.uuid else uuid
    }
  }

  datatype State = State(limits: map<string, real>, records: Records, base: map<string, real>, tasks: seq<Activity>)

  datatype Action =
    | Read(i: nat, job: string, cap: Cap)
    | Save(i: nat)
    | CapEffect(i: nat)
    | CapEnd(i: nat)
    | LookUp(i: nat, job: string, uuid: string)
    | RestoreEffect(i: nat)
    | GiveUp(i: nat)
    | Finish(i: nat)
    | Crash

  predicate CanDo(s: State, a: Action) {
    match a
    case Read(i, job, cap) => i < |s.tasks| && s.tasks[i].Idle? && cap.uuid in s.limits
    case Save(i) => i < |s.tasks| && s.tasks[i].HasRead? && s.tasks[i].cap.uuid in s.limits
    case CapEffect(i) => i < |s.tasks| && s.tasks[i].Capping?
    case CapEnd(i) => i < |s.tasks| && s.tasks[i].Capping?
    case LookUp(i, job, uuid) => i < |s.tasks| && s.tasks[i].Idle? && uuid in s.limits
    case RestoreEffect(i) => i < |s.tasks| && s.tasks[i].Restoring?
    case GiveUp(i) => i < |s.tasks| && (s.tasks[i].Restoring? || s.tasks[i].Restored?)
    case Finish(i) => i < |s.tasks| && s.tasks[i].Restored?
    case Crash => true
  }

  /** Between two awaits. `base` follows the truth: the limit in force when a card
      without a record gets one. */
  function Do(s: State, a: Action): State
    requires CanDo(s, a)
  {
    match a
    case Read(i, job, cap) => s.(tasks := s.tasks[i := HasRead(job, cap, s.limits[cap.uuid])])
    case Save(i) =>
      var t := s.tasks[i];
      var u := t.cap.uuid;
      s.(records := Remember(s.records, u, t.limit, t.job),
         base := if u in s.records.gpus then s.base else s.base[u := s.limits[u]],
         tasks := s.tasks[i := Capping(t.job, t.cap)])
    case CapEffect(i) => s.(limits := s.limits[s.tasks[i].cap.uuid := s.tasks[i].cap.Target()])
    case CapEnd(i) => s.(tasks := s.tasks[i := Idle])
    case LookUp(i, job, u) =>
      if u in s.records.gpus then s.(tasks := s.tasks[i := Restoring(job, u, s.records.gpus[u])])
      else s.(records := Forget(s.records, u, job))
    case RestoreEffect(i) =>
      var t := s.tasks[i];
      s.(limits := s.limits[t.uuid := Round(t.original) as real], tasks := s.tasks[i := Restored(t.job, t.uuid, t.original)])
    case GiveUp(i) => s.(tasks := s.tasks[i := Idle])
    case Finish(i) =>
      s.(records := Forget(s.records, s.tasks[i].uuid, s.tasks[i].job), tasks := s.tasks[i := Idle])
    case Crash => s.(tasks := seq(|s.tasks|, _ => Idle))
  }

  ghost predicate Good(s: State) { Consistent(s.limits, s.records, s.base) }

  /** No two tasks work on one card at the same time. */
  ghost predicate Exclusive(s: State) {
    forall i, j | 0 <= i < j < |s.tasks| && !s.tasks[i].Idle? && !s.tasks[j].Idle? ::
      s.tasks[i].Card() != s.tasks[j].Card()
  }

  /** What a task knows is still true. */
  ghost predicate Fresh(s: State, t: Activity) {
    match t
    case Idle => true
    case HasRead(_, cap, limit) => cap.uuid in s.limits && limit == s.limits[cap.uuid]
    case Capping(_, cap) => cap.uuid in s.records.gpus
    case Restoring(_, u, original) => u in s.records.gpus && original == s.records.gpus[u]
    case Restored(_, u, original) =>
      u in s.records.gpus && original == s.records.gpus[u] && u in s.limits && s.limits[u] == Round(original) as real
  }

  ghost predicate Inv(s: State) {
    Good(s) && forall i | 0 <= i < |s.tasks| :: Fresh(s, s.tasks[i])
  }

  /** A step on a card nobody else is working on keeps every other task right. */
  lemma OthersStayFresh(s: State, a: Action, j: nat)
    requires CanDo(s, a) && Inv(s) && Exclusive(s) && Exclusive(Do(s, a)) && j < |s.tasks|
    requires a.Crash? || j != a.i
    ensures Fresh(Do(s, a), Do(s, a).tasks[j])
  {
    hide Good, Round, Forget, Remember;
    assert Fresh(s, s.tasks[j]);
    if !a.Crash? && !s.tasks[j].Idle? {
      var u := s.tasks[j].Card();
      match a
      case Save(i) => RememberLists(s.records, s.tasks[i].cap.uuid, s.tasks[i].limit, s.tasks[i].job, u);
      case LookUp(i, job, uuid) => if u != uuid { ForgetLists(s.records, uuid, job, u); }
      case Finish(i) => ForgetLists(s.records, s.tasks[i].uuid, s.tasks[i].job, u);
      case _ =>
    }
  }

  // ---------- exactly which steps keep the state good ----------

  /** The guard of a step, whatever the other tasks are doing. A save is safe when
      the card is recorded or still shows what was read; setting a limit, when the
      card is recorded or the limit is its own; forgetting a recorded card, when
      it is back at its recorded limit. Everything else is safe. */
  predicate SafeStep(s: State, a: Action)
    requires CanDo(s, a) && OnKnownCard(s, a) && s.limits.Keys <= s.base.Keys
  {
    match a
    case Save(i) =>
      var t := s.tasks[i];
      t.cap.uuid in s.records.gpus || s.limits[t.cap.uuid] == t.limit
    case CapEffect(i) =>
      var cap := s.tasks[i].cap;
      cap.uuid in s.records.gpus || Abs(cap.Target() - s.base[cap.uuid]) <= 0.5
    case RestoreEffect(i) =>
      var t := s.tasks[i];
      t.uuid in s.records.gpus || Abs(Round(t.original) as real - s.base[t.uuid]) <= 0.5
    case Finish(i) =>
      var u := s.tasks[i].uuid;
      u !in s.records.gpus || Abs(s.limits[u] - s.records.gpus[u]) <= 0.5
    case _ => true
  }

  /** The acting task's card is one of the rig's. */
  predicate OnKnownCard(s: State, a: Action) {
    a.Crash? || a.i >= |s.tasks| || s.tasks[a.i].Idle? || s.tasks[a.i].Card() in s.limits
  }

  lemma SaveExact(s: State, u: string, job: string, read: real)
    requires Good(s) && u in s.limits && u !in s.records.gpus
    ensures Consistent(s.limits, Remember(s.records, u, read, job), s.base[u := s.limits[u]]) <==> read == s.limits[u]
  {
    var r := Remember(s.records, u, read, job);
    assert u in r.gpus && r.gpus[u] == read;
    if read == s.limits[u] { RememberConsistent(s.limits, s.records, s.base, u, job); }
  }

  lemma SetExact(limits: map<string, real>, r: Records, base: map<string, real>, u: string, watts: real)
    requires Consistent(limits, r, base) && u in limits
    ensures Consistent(limits[u := watts], r, base) <==> u in r.gpus || Abs(watts - base[u]) <= 0.5
  {
    hide Owned, Abs;
  }

  lemma ForgetExact(limits: map<string, real>, r: Records, base: map<string, real>, u: string, job: string)
    requires Consistent(limits, r, base) && u in limits
    ensures Consistent(limits, Forget(r, u, job), base) <==> u !in r.gpus || Abs(limits[u] - r.gpus[u]) <= 0.5
  {
    var s := Forget(r, u, job);
    ForgetOwned(r, u, job);
    hide Abs, Owned;
  }

  lemma ForgetOwned(r: Records, u: string, job: string)
    requires Owned(r)
    ensures Owned(Forget(r, u, job))
  {
    var s := Forget(r, u, job);
    forall v | v in s.gpus ensures HasOwner(s, v) {
      assert HasOwner(r, v);
      var owner :| owner in r.jobs && v in r.jobs[owner];
      assert v in Listed(r, owner);
      assert owner in s.jobs && v in s.jobs[owner];
    }
  }

  /** Under any interleaving, a step leads from a good state to a good one exactly
      when it is safe. */
  lemma StepExact(s: State, a: Action)
    requires Good(s) && CanDo(s, a) && OnKnownCard(s, a)
    ensures Good(Do(s, a)) <==> SafeStep(s, a)
  {
    GoodFacts(s);
    hide Round, Forget, Remember, Consistent, Abs;
    match a
    case Save(i) =>
      var t := s.tasks[i];
      if t.cap.uuid in s.records.gpus {
        RememberAgain(s, t.cap.uuid, t.limit, t.job);
      } else {
        SaveExact(s, t.cap.uuid, t.job, t.limit);
      }
    case CapEffect(i) => SetExact(s.limits, s.records, s.base, s.tasks[i].cap.uuid, s.tasks[i].cap.Target());
    case LookUp(i, job, u) => ForgetExact(s.limits, s.records, s.base, u, job);
    case RestoreEffect(i) => SetExact(s.limits, s.records, s.base, s.tasks[i].uuid, Round(s.tasks[i].original) as real);
    case Finish(i) => ForgetExact(s.limits, s.records, s.base, s.tasks[i].uuid, s.tasks[i].job);
    case _ =>
  }

  /** What was read does not matter for a card that is recorded. */
  lemma RememberAgain(s: State, u: string, read: real, job: string)
    requires Good(s) && u in s.limits && u in s.records.gpus
    ensures Consistent(s.limits, Remember(s.records, u, read, job), s.base)
  {
    RememberConsistent(s.limits, s.records, s.base, u, job);
  }

  lemma StepKeepsGood(s: State, a: Action)
    requires CanDo(s, a) && Inv(s)
    ensures Good(Do(s, a))
  {
    FreshIsSafe(s, a);
    StepExact(s, a);
  }

  /** A task whose knowledge is still true takes a safe step. */
  lemma FreshIsSafe(s: State, a: Action)
    requires CanDo(s, a) && Inv(s)
    ensures OnKnownCard(s, a) && s.limits.Keys <= s.base.Keys && SafeStep(s, a)
  {
    hide Round, Abs;
    GoodFacts(s);
    if !a.Crash? && a.i < |s.tasks| {
      assert Fresh(s, s.tasks[a.i]);
      if a.Finish? { RoundClose(s.tasks[a.i].original); }
    }
  }

  lemma GoodFacts(s: State)
    requires Good(s)
    ensures s.base.Keys == s.limits.Keys && s.records.gpus.Keys <= s.limits.Keys
    ensures forall u :: u in s.records.gpus ==> s.records.gpus[u] == s.base[u]
  {
  }

  lemma StepKeepsInv(s: State, a: Action)
    requires CanDo(s, a) && Inv(s) && Exclusive(s) && Exclusive(Do(s, a))
    ensures Inv(Do(s, a))
  {
    StepKeepsGood(s, a);
    var n := Do(s, a);
    forall j: nat | j < |n.tasks| ensures Fresh(n, n.tasks[j]) {
      if a.Crash? || j != a.i {
        OthersStayFresh(s, a, j);
      } else {
        OwnStaysFresh(s, a);
      }
    }
    hide Good, Exclusive, Fresh, Do;
  }

  lemma OwnStaysFresh(s: State, a: Action)
    requires CanDo(s, a) && Inv(s) && !a.Crash?
    ensures a.i < |Do(s, a).tasks| && Fresh(Do(s, a), Do(s, a).tasks[a.i])
  {
    hide Round, Forget, Consistent, Remember;
    assert Fresh(s, s.tasks[a.i]);
    GoodFacts(s);
    if a.Save? {
      var t := s.tasks[a.i];
      RememberLists(s.records, t.cap.uuid, t.limit, t.job, t.cap.uuid);
    }
  }

  // ---------- runs ----------

  /** The state after a sequence of actions, None when one was not possible. */
  datatype Reached = Nowhere | At(state: State)

  function Run(s: State, actions: seq<Action>): Reached
    decreases |actions|
  {
    if actions == [] then At(s)
    else if CanDo(s, actions[0]) then Run(Do(s, actions[0]), actions[1..]) else Nowhere
  }

  /** Every busy task works on a card of the rig. */
  predicate Known(s: State) {
    forall i | 0 <= i < |s.tasks| :: !s.tasks[i].Idle? ==> s.tasks[i].Card() in s.limits
  }

  lemma KnownStays(s: State, a: Action)
    requires Known(s) && CanDo(s, a)
    ensures OnKnownCard(s, a) && Known(Do(s, a))
  {
    hide Round, Forget, Remember;
    if !a.Crash? && a.i < |s.tasks| { assert s.tasks[a.i].Idle? || s.tasks[a.i].Card() in s.limits; }
    var n := Do(s, a);
    forall j | 0 <= j < |n.tasks| ensures n.tasks[j].Idle? || n.tasks[j].Card() in n.limits {
      assert j < |s.tasks|;
    }
  }

  /** Every state of the run is good. */
  ghost predicate AllGood(s: State, actions: seq<Action>)
    decreases |actions|
  {
    Good(s) && (actions != [] ==> CanDo(s, actions[0]) && AllGood(Do(s, actions[0]), actions[1..]))
  }

  /** Every step of the run is safe. */
  ghost predicate AllSafe(s: State, actions: seq<Action>)
    decreases |actions|
  {
    actions != [] ==>
      CanDo(s, actions[0]) && OnKnownCard(s, actions[0]) && s.limits.Keys <= s.base.Keys
      && SafeStep(s, actions[0]) && AllSafe(Do(s, actions[0]), actions[1..])
  }

  /** Over every interleaving of any number of jobs, with failures and crashes
      anywhere, all states are good exactly when all steps are safe. */
  lemma {:induction false} RunExact(s: State, actions: seq<Action>)
    requires Good(s) && Known(s) && Run(s, actions).At?
    ensures AllGood(s, actions) <==> AllSafe(s, actions)
    decreases |actions|
  {
    hide Good, Known, Do, CanDo, SafeStep, OnKnownCard;
    if actions != [] {
      var n := Do(s, actions[0]);
      GoodFacts(s);
      KnownStays(s, actions[0]);
      StepExact(s, actions[0]);
      if Good(n) {
        RunExact(n, actions[1..]);
      } else {
        assert !AllGood(n, actions[1..]);
      }
    }
  }

  /** A run in which tasks never meet on a card. */
  ghost predicate Serial(s: State, actions: seq<Action>)
    decreases |actions|
  {
    Exclusive(s) && (actions != [] ==> CanDo(s, actions[0]) && Serial(Do(s, actions[0]), actions[1..]))
  }

  /** Over every serial run, with failures and crashes anywhere, every step is safe,
      so an unrecorded card keeps its pre-cap limit and a record is that limit,
      findable by job. */
  lemma {:induction false} SerialRunsStayGood(s: State, actions: seq<Action>)
    requires Inv(s) && Serial(s, actions)
    ensures Run(s, actions).At? && Inv(Run(s, actions).state) && Good(Run(s, actions).state)
    ensures AllSafe(s, actions) && AllGood(s, actions)
    decreases |actions|
  {
    hide Inv, Exclusive, Do, CanDo, SafeStep, OnKnownCard;
    InvIsGood(s);
    if actions != [] {
      NextExclusive(s, actions);
      FreshIsSafe(s, actions[0]);
      StepKeepsInv(s, actions[0]);
      SerialRunsStayGood(Do(s, actions[0]), actions[1..]);
    }
  }

  lemma NextExclusive(s: State, actions: seq<Action>)
    requires Serial(s, actions) && actions != []
    ensures CanDo(s, actions[0]) && Exclusive(s) && Exclusive(Do(s, actions[0]))
  {
    hide Exclusive;
  }

  lemma InvIsGood(s: State)
    requires Inv(s)
    ensures Good(s)
  {
  }

  /** A restart begins good: with no task under way, consistent records suffice. */
  lemma CrashIsSafe(s: State)
    requires Inv(s)
    ensures Inv(Do(s, Crash)) && Exclusive(Do(s, Crash))
  {
  }

  // ---------- what overlap costs ----------

  /** Job `leaving` restores a card while job `coming` caps it. */
  function RestoreAroundCap(i: nat, j: nat, leaving: string, coming: string, cap: Cap): seq<Action> {
    [LookUp(i, leaving, cap.uuid), RestoreEffect(i), Read(j, coming, cap), Save(j), CapEffect(j), Finish(i)]
  }

  lemma RunStep(s: State, actions: seq<Action>, a: Action, rest: seq<Action>)
    requires actions == [a] + rest && CanDo(s, a)
    ensures Run(s, actions) == Run(Do(s, a), rest)
  {
    assert actions[1..] == rest;
  }

  /** When a cap lands between another job's restore and its `forget`, the record
      is gone with the cap still in force: the outcome is good exactly when the
      cap happens to be the card's own limit. */
  lemma RestoreAroundCapLosesRecord(s: State, i: nat, j: nat, leaving: string, coming: string, cap: Cap)
    requires Inv(s) && i < |s.tasks| && j < |s.tasks| && i != j && s.tasks[i].Idle? && s.tasks[j].Idle?
    requires cap.uuid in s.records.gpus
    ensures var r := Run(s, RestoreAroundCap(i, j, leaving, coming, cap));
      && r.At? && cap.uuid in r.state.limits && cap.uuid !in r.state.records.gpus
      && r.state.limits[cap.uuid] == cap.Target() && r.state.base == s.base
      && (Good(r.state) <==> Abs(cap.Target() - s.base[cap.uuid]) <= 0.5)
  {
    hide *;
    InvIsGood(s);
    GoodFacts(s);
    var u := cap.uuid;
    var rest := RestoreAroundCap(i, j, leaving, coming, cap);
    RestoreAroundCapIs(i, j, leaving, coming, cap);
    var s2 := RestoreHalf(s, i, leaving, u, rest);
    var s5 := CapOver(s2, j, coming, cap, rest[2..]);
    assert rest[2..][3..] == rest[5..];
    var s6 := FinishLast(s5, i, rest[5..]);
    LostRecord(s, s5, i, u, s.records.gpus[u], coming, leaving, cap.Target());
  }

  lemma RestoreAroundCapIs(i: nat, j: nat, leaving: string, coming: string, cap: Cap)
    ensures RestoreAroundCap(i, j, leaving, coming, cap) ==
      [LookUp(i, leaving, cap.uuid), RestoreEffect(i), Read(j, coming, cap), Save(j), CapEffect(j), Finish(i)]
  {
  }

  lemma FinishLast(s: State, i: nat, actions: seq<Action>) returns (n: State)
    requires i < |s.tasks| && s.tasks[i].Restored? && actions == [Finish(i)]
    ensures Run(s, actions) == At(n) && n == Do(s, Finish(i))
    ensures n == s.(records := Forget(s.records, s.tasks[i].uuid, s.tasks[i].job), tasks := s.tasks[i := Idle])
  {
    hide Forget;
    n := Do(s, Finish(i));
  }

  lemma RestoreHalf(s: State, i: nat, leaving: string, u: string, actions: seq<Action>) returns (n: State)
    requires Inv(s) && i < |s.tasks| && s.tasks[i].Idle? && u in s.records.gpus
    requires |actions| >= 2 && actions[0] == LookUp(i, leaving, u) && actions[1] == RestoreEffect(i)
    ensures Run(s, actions) == Run(n, actions[2..])
    ensures var o := s.records.gpus[u];
      n == s.(limits := s.limits[u := Round(o) as real], tasks := s.tasks[i := Restored(leaving, u, o)])
  {
    GoodFacts(s);
    hide Good, Round;
    var s1 := Do(s, actions[0]);
    n := Do(s1, actions[1]);
    RunStep(s, actions, actions[0], actions[1..]);
    RunStep(s1, actions[1..], actions[1], actions[2..]);
    assert n.tasks == s.tasks[i := Restored(leaving, u, s.records.gpus[u])];
  }

  lemma CapOver(s: State, j: nat, coming: string, cap: Cap, actions: seq<Action>) returns (n: State)
    requires j < |s.tasks| && s.tasks[j].Idle? && cap.uuid in s.limits && cap.uuid in s.records.gpus
    requires |actions| >= 3 && actions[0] == Read(j, coming, cap) && actions[1] == Save(j) && actions[2] == CapEffect(j)
    ensures Run(s, actions) == Run(n, actions[3..])
    ensures n == s.(limits := s.limits[cap.uuid := cap.Target()],
                    records := Remember(s.records, cap.uuid, s.limits[cap.uuid], coming),
                    tasks := s.tasks[j := Capping(coming, cap)])
  {
    hide Round, Remember;
    var s1 := Do(s, actions[0]);
    var s2 := Do(s1, actions[1]);
    n := Do(s2, actions[2]);
    RunStep(s, actions, actions[0], actions[1..]);
    RunStep(s1, actions[1..], actions[1], actions[2..]);
    RunStep(s2, actions[2..], actions[2], actions[3..]);
    assert n.tasks == s.tasks[j := Capping(coming, cap)];
  }

  /** With the card back at its cap, the pending forget is safe exactly when the
      cap is the card's own limit. */
  lemma LostRecord(s: State, t: State, i: nat, u: string, o: real, coming: string, leaving: string, target: real)
    requires Good(s) && u in s.records.gpus && o == s.records.gpus[u]
    requires i < |t.tasks| && t.tasks[i] == Restored(leaving, u, o)
    requires t.records == Remember(s.records, u, Round(o) as real, coming)
    requires t.base == s.base && t.limits == s.limits[u := Round(o) as real][u := target]
    ensures Good(Do(t, Finish(i))) <==> Abs(target - s.base[u]) <= 0.5
    ensures u !in Do(t, Finish(i)).records.gpus
  {
    hide Round, Abs, Remember, Forget, Owned;
    GoodFacts(s);
    var limits := s.limits[u := Round(o) as real];
    SetConsistent(s.limits, s.records, s.base, u, Round(o) as real);
    RememberConsistent(limits, s.records, s.base, u, coming);
    RememberLists(s.records, u, Round(o) as real, coming, u);
    SetConsistent(limits, t.records, s.base, u, target);
    ForgetLists(t.records, u, leaving, u);
    StepExact(t, Finish(i));
  }

  /** A capped card read by one job and restored by another before the first has
      saved what it read. */
  function SaveAfterRestore(i: nat, j: nat, leaving: string, coming: string, cap: Cap): seq<Action> {
    [Read(j, coming, cap), LookUp(i, leaving, cap.uuid), RestoreEffect(i), Finish(i), Save(j)]
  }

  /** The stale reading becomes the recorded original: from then on the card can
      only be restored to another job's cap. */
  lemma SaveAfterRestoreRecordsTheCap(s: State, i: nat, j: nat, leaving: string, coming: string, cap: Cap)
    requires Inv(s) && i < |s.tasks| && j < |s.tasks| && i != j && s.tasks[i].Idle? && s.tasks[j].Idle?
    requires cap.uuid in s.records.gpus
    ensures var r := Run(s, SaveAfterRestore(i, j, leaving, coming, cap)); var u := cap.uuid;
      && r.At? && u in r.state.records.gpus && u in r.state.base && r.state.records.gpus[u] == s.limits[u]
      && r.state.base[u] == Round(s.base[u]) as real
      && (Good(r.state) <==> s.limits[u] == Round(s.base[u]) as real)
  {
    hide *;
    InvIsGood(s);
    GoodFacts(s);
    var u := cap.uuid;
    var rest := SaveAfterRestore(i, j, leaving, coming, cap);
    SaveAfterRestoreIs(i, j, leaving, coming, cap);
    var s1 := ReadFirst(s, j, coming, cap, rest);
    ReadIsFresh(s, s1, j);
    var s3 := RestoreHalf(s1, i, leaving, u, rest[1..]);
    assert rest[1..][2..] == [Finish(i)] + [Save(j)];
    StaleSave(s, s3, i, j, leaving, coming, cap, rest[1..][2..]);
  }

  lemma SaveAfterRestoreIs(i: nat, j: nat, leaving: string, coming: string, cap: Cap)
    ensures SaveAfterRestore(i, j, leaving, coming, cap) ==
      [Read(j, coming, cap), LookUp(i, leaving, cap.uuid), RestoreEffect(i), Finish(i), Save(j)]
  {
  }

  lemma ReadFirst(s: State, j: nat, coming: string, cap: Cap, actions: seq<Action>) returns (n: State)
    requires j < |s.tasks| && s.tasks[j].Idle? && cap.uuid in s.limits
    requires actions != [] && actions[0] == Read(j, coming, cap)
    ensures Run(s, actions) == Run(n, actions[1..])
    ensures n == s.(tasks := s.tasks[j := HasRead(coming, cap, s.limits[cap.uuid])])
  {
    n := Do(s, actions[0]);
    RunStep(s, actions, actions[0], actions[1..]);
  }

  lemma ReadIsFresh(s: State, n: State, j: nat)
    requires Inv(s) && j < |s.tasks| && n == s.(tasks := n.tasks) && |n.tasks| == |s.tasks|
    requires n.tasks[j].HasRead? && n.tasks == s.tasks[j := n.tasks[j]]
    requires n.tasks[j].cap.uuid in s.limits && n.tasks[j].limit == s.limits[n.tasks[j].cap.uuid]
    ensures Inv(n)
  {
    hide Good;
    assert Good(n) by { SameGood(s, n); }
    forall i | 0 <= i < |n.tasks| ensures Fresh(n, n.tasks[i]) {
      assert Fresh(s, s.tasks[i]);
    }
  }

  lemma SameGood(s: State, n: State)
    requires Good(s) && n.limits == s.limits && n.records == s.records && n.base == s.base
    ensures Good(n)
  {
  }

  lemma StaleSave(s: State, t: State, i: nat, j: nat, leaving: string, coming: string, cap: Cap, actions: seq<Action>)
    requires Good(s) && cap.uuid in s.records.gpus && cap.uuid in s.limits
    requires i < |t.tasks| && j < |t.tasks| && i != j && actions == [Finish(i)] + [Save(j)]
    requires t.tasks[i] == Restored(leaving, cap.uuid, s.records.gpus[cap.uuid])
    requires t.tasks[j] == HasRead(coming, cap, s.limits[cap.uuid])
    requires t.records == s.records && t.base == s.base
    requires t.limits == s.limits[cap.uuid := Round(s.records.gpus[cap.uuid]) as real]
    ensures var r := Run(t, actions); var u := cap.uuid;
      && r.At? && u in r.state.records.gpus && u in r.state.base && r.state.records.gpus[u] == s.limits[u]
      && r.state.base[u] == Round(s.base[u]) as real
      && (Good(r.state) <==> s.limits[u] == Round(s.base[u]) as real)
  {
    hide Round;
    var u := cap.uuid;
    GoodFacts(s);
    RunStep(t, actions, Finish(i), [Save(j)]);
    var f := Do(t, Finish(i));
    ForgetLists(t.records, u, leaving, u);
    hide Forget, Good;
    var n := Do(f, Save(j));
    RunStep(f, [Save(j)], Save(j), []);
    assert Run(n, []) == At(n);
    StaleExact(s, t, i, j, leaving, coming, cap);
  }

  /** Once the restore is forgotten, saving what was read before it is safe exactly
      when the old cap was the restored limit. */
  lemma StaleExact(s: State, t: State, i: nat, j: nat, leaving: string, coming: string, cap: Cap)
    requires Good(s) && cap.uuid in s.records.gpus && cap.uuid in s.limits
    requires i < |t.tasks| && j < |t.tasks| && i != j
    requires t.tasks[i] == Restored(leaving, cap.uuid, s.records.gpus[cap.uuid])
    requires t.tasks[j] == HasRead(coming, cap, s.limits[cap.uuid])
    requires t.records == s.records && t.base == s.base
    requires t.limits == s.limits[cap.uuid := Round(s.records.gpus[cap.uuid]) as real]
    ensures CanDo(t, Finish(i)) && CanDo(Do(t, Finish(i)), Save(j))
    ensures Good(Do(Do(t, Finish(i)), Save(j))) <==> s.limits[cap.uuid] == Round(s.base[cap.uuid]) as real
  {
    hide Round, Forget, Remember, Abs, Consistent;
    var u := cap.uuid;
    GoodFacts(s);
    SetConsistent(s.limits, s.records, s.base, u, Round(s.records.gpus[u]) as real);
    RoundClose(s.records.gpus[u]);
    StepExact(t, Finish(i));
    ForgetLists(t.records, u, leaving, u);
    StepExact(Do(t, Finish(i)), Save(j));
  }

  // ---------- restoring after a crash ----------

  predicate Restores(a: Action) { a.LookUp? || a.RestoreEffect? || a.Finish? }

  /** Every card of s is back where it was, within half a watt, and unrecorded. */
  ghost predicate PutBack(s: State, r: Reached) {
    && r.At? && r.state.records.gpus == map[] && r.state.base == s.base && r.state.limits.Keys == s.limits.Keys
    && forall u :: u in s.limits ==> u in s.base && Abs(r.state.limits[u] - s.base[u]) <= 0.5
  }

  function RestoreOne(job: string, u: string): seq<Action> { [LookUp(0, job, u), RestoreEffect(0), Finish(0)] }

  /** One recorded card put back by task 0. */
  lemma OneRestored(s: State, u: string, job: string) returns (n: State)
    requires Good(s) && |s.tasks| > 0 && s.tasks[0].Idle? && u in s.records.gpus && u in Listed(s.records, job)
    ensures forall rest :: Run(s, RestoreOne(job, u) + rest) == Run(n, rest)
    ensures Good(n) && n.base == s.base && n.tasks == s.tasks && n.limits.Keys == s.limits.Keys
    ensures n.records.gpus == s.records.gpus - {u}
  {
    hide Consistent, Round, Abs, Run, RestoreOne;
    GoodFacts(s);
    var s1 := Do(s, LookUp(0, job, u));
    StepExact(s, LookUp(0, job, u));
    var s2 := Do(s1, RestoreEffect(0));
    StepExact(s1, RestoreEffect(0));
    n := Do(s2, Finish(0));
    RoundClose(s.records.gpus[u]);
    StepExact(s2, Finish(0));
    assert n.tasks == s.tasks;
    forall rest ensures Run(s, RestoreOne(job, u) + rest) == Run(n, rest) {
      RestoreOneIs(job, u, rest);
      RunStep(s, RestoreOne(job, u) + rest, LookUp(0, job, u), [RestoreEffect(0), Finish(0)] + rest);
      RunStep(s1, [RestoreEffect(0), Finish(0)] + rest, RestoreEffect(0), [Finish(0)] + rest);
      RunStep(s2, [Finish(0)] + rest, Finish(0), rest);
    }
  }

  lemma RestoreOneIs(job: string, u: string, rest: seq<Action>)
    ensures RestoreOne(job, u) + rest == [LookUp(0, job, u)] + ([RestoreEffect(0), Finish(0)] + rest)
    ensures [RestoreEffect(0), Finish(0)] + rest == [RestoreEffect(0)] + ([Finish(0)] + rest)
    ensures forall a | a in RestoreOne(job, u) :: Restores(a)
  {
  }

  lemma OwnerOf(r: Records, u: string) returns (job: string)
    requires Owned(r) && u in r.gpus
    ensures u in Listed(r, job)
  {
    assert HasOwner(r, u);
    job :| job in r.jobs && u in r.jobs[job];
  }

  /** With its task idle, every good state can be restored: looking up records by
      their jobs reaches one without records, each limit within half a watt of
      what it was before the first cap. */
  lemma {:induction false} Restorable(s: State) returns (actions: seq<Action>)
    requires Good(s) && |s.tasks| > 0 && s.tasks[0].Idle?
    ensures forall a | a in actions :: Restores(a)
    ensures PutBack(s, Run(s, actions))
    decreases |s.records.gpus|
  {
    hide Run, Owned, RestoreOne, Restores, HasOwner, Listed, Abs;
    if s.records.gpus == map[] {
      NothingToRestore(s);
      return [];
    }
    var u: string :| u in s.records.gpus;
    var job := OwnerOf(s.records, u);
    var n := OneRestored(s, u, job);
    assert n.records.gpus.Keys == s.records.gpus.Keys - {u};
    var rest := Restorable(n);
    RestoreOneIs(job, u, rest);
    actions := RestoreOne(job, u) + rest;
  }

  lemma NothingToRestore(s: State)
    requires Good(s) && s.records.gpus == map[]
    ensures PutBack(s, Run(s, []))
  {
  }

  /** A crash at any point loses nothing: from every good state it is followed by a
      run of restores that puts every card back. */
  lemma CrashIsRestorable(s: State) returns (actions: seq<Action>)
    requires Good(s) && |s.tasks| > 0
    ensures forall a | a in actions :: Restores(a)
    ensures PutBack(s, Run(s, [Crash] + actions))
  {
    hide Consistent, Abs, Round;
    var n := Do(s, Crash);
    StepExact(s, Crash);
    actions := Restorable(n);
    RunStep(s, [Crash] + actions, Crash, actions);
  }
}
