/** Whole runs of the placement scheduler: jobs are placed, displaced and finish,
    and what runs beside what on a card stays right. */
module PlacementRuns {
  import opened Wrappers
  import opened Placement

  /** Running jobs by rig id. */
  type Running = map<string, seq<Job>>

  datatype Step = Place(q: Request, id: string) | Finish(id: string)

  /** Rigs have distinct ids, and no card has an empty one. */
  ghost predicate Sound(roster: seq<Rig>) {
    && (forall r, s | 0 <= r < s < |roster| :: roster[r].id != roster[s].id)
    && (forall r | 0 <= r < |roster| :: "" !in roster[r].cards)
  }

  function Without(jobs: seq<Job>, ids: set<string>): (kept: seq<Job>)
    ensures |kept| <= |jobs|
    ensures forall j :: j in kept <==> j in jobs && j.id !in ids
  {
    if jobs == [] then []
    else
      var last := jobs[|jobs| - 1];
      Without(jobs[..|jobs| - 1], ids) + if last.id in ids then [] else [last]
  }

  /** One record for each card of the placement. */
  function Records(cards: seq<string>, id: string, kind: WorkKind): (s: seq<Job>)
    ensures forall j :: j in s <==> j.id == id && j.kind == Some(kind) && j.gpu in cards
  {
    if cards == [] then []
    else Records(cards[..|cards| - 1], id, kind) + [Job(id, Some(kind), cards[|cards| - 1])]
  }

  function Ids(s: seq<string>): set<string> {
    set x | x in s
  }

  /** The placed job runs on the cards of the offer; displaced ids run nowhere. */
  function Placed(rig: Rig, running: Running, q: Request, id: string): Running {
    var o := OfferFor(rig, JobsOf(running, rig.id), q.kind, q.needed);
    map r | r in running.Keys + {rig.id} ::
      Without(JobsOf(running, r), Ids(o.ids)) + if r == rig.id then Records(o.cards, id, q.kind) else []
  }

  ghost predicate Next(roster: seq<Rig>, before: Running, step: Step, after: Running) {
    match step
    case Finish(id) => after == map r | r in before :: Without(before[r], {id})
    case Place(q, id) =>
      && q.needed > 0 && Unused(before, id)
      && if forall r: nat | r < |roster| :: !Fits(roster[r], before, q) then after == before
         else exists r: nat :: Wins(roster, before, q, r) && after == Placed(roster[r], before, q, id)
  }

  ghost predicate Unused(running: Running, id: string) {
    forall r, j :: r in running && j in running[r] ==> j.id != id
  }

  /** A card with a rental runs nothing else; one with several jobs runs inference. */
  predicate GoodCard(jobs: seq<Job>) {
    && (|jobs| >= 2 ==> forall j :: j in jobs ==> j.kind == Some(Inference))
    && ((exists j :: j in jobs && j.kind == Some(Rental)) ==> |jobs| == 1)
  }

  /** The records of one job agree on its kind. */
  ghost predicate OneKind(running: Running) {
    forall r, s, i, j :: r in running && s in running && i in running[r] && j in running[s] && i.id == j.id ==> i.kind == j.kind
  }

  ghost predicate GoodRig(rig: Rig, jobs: seq<Job>) {
    forall u :: u in rig.cards ==> GoodCard(JobsOn(rig.cards, jobs, u))
  }

  ghost predicate Good(roster: seq<Rig>, running: Running) {
    && OneKind(running)
    && forall r | 0 <= r < |roster| :: GoodRig(roster[r], JobsOf(running, roster[r].id))
  }

  // ---------- lists of jobs ----------

  lemma WithoutConcat(a: seq<Job>, b: seq<Job>, ids: set<string>)
    ensures Without(a + b, ids) == Without(a, ids) + Without(b, ids)
  {
    if b == [] {
      assert a + b == a;
    } else {
      assert (a + b)[..|a + b| - 1] == a + b[..|b| - 1];
      WithoutConcat(a, b[..|b| - 1], ids);
    }
  }

  lemma {:induction false} WithoutRepeat(job: Job, targets: seq<string>, u: string, ids: set<string>)
    ensures Without(Repeat(job, targets, u), ids) == if job.id in ids then [] else Repeat(job, targets, u)
  {
    if targets != [] {
      var front := targets[..|targets| - 1];
      WithoutRepeat(job, front, u, ids);
      WithoutConcat(Repeat(job, front, u), if targets[|targets| - 1] == u then [job] else [], ids);
      assert Without([job], ids) == if job.id in ids then [] else [job];
    }
  }

  lemma JobsOnSnoc(cards: seq<string>, jobs: seq<Job>, job: Job, u: string)
    ensures JobsOn(cards, jobs + [job], u) == JobsOn(cards, jobs, u) + Repeat(job, Targets(cards, job), u)
  {
    hide Repeat, Targets;
    assert (jobs + [job])[..|jobs|] == jobs;
  }

  lemma WithoutSnoc(jobs: seq<Job>, last: Job, ids: set<string>)
    ensures Without(jobs + [last], ids) == if last.id in ids then Without(jobs, ids) else Without(jobs, ids) + [last]
  {
    assert (jobs + [last])[..|jobs|] == jobs;
  }

  lemma NoJobs(cards: seq<string>, none: seq<Job>, u: string, ids: set<string>)
    requires none == []
    ensures JobsOn(cards, none, u) == [] && Without(none, ids) == []
  {
  }

  lemma {:induction false} JobsOnWithout(cards: seq<string>, jobs: seq<Job>, u: string, ids: set<string>)
    ensures JobsOn(cards, Without(jobs, ids), u) == Without(JobsOn(cards, jobs, u), ids)
  {
    hide *;
    if jobs != [] {
      var front, last := jobs[..|jobs| - 1], jobs[|jobs| - 1];
      assert jobs == front + [last];
      var own := Repeat(last, Targets(cards, last), u);
      WithoutSnoc(front, last, ids);
      JobsOnWithout(cards, front, u, ids);
      JobsOnSnoc(cards, front, last, u);
      WithoutConcat(JobsOn(cards, front, u), own, ids);
      WithoutRepeat(last, Targets(cards, last), u, ids);
      if last.id !in ids {
        JobsOnSnoc(cards, Without(front, ids), last, u);
      } else {
        assert Without(JobsOn(cards, front, u), ids) + [] == Without(JobsOn(cards, front, u), ids);
      }
    } else {
      NoJobs(cards, jobs, u, ids);
    }
  }

  lemma {:induction false} JobsOnRecords(cards: seq<string>, jobs: seq<Job>, chosen: seq<string>, id: string, kind: WorkKind, u: string)
    requires forall i, j | 0 <= i < j < |chosen| :: chosen[i] != chosen[j]
    requires forall c | c in chosen :: c in cards && c != ""
    ensures JobsOn(cards, jobs + Records(chosen, id, kind), u)
         == JobsOn(cards, jobs, u) + if u in chosen then [Job(id, Some(kind), u)] else []
  {
    hide JobsOn;
    if chosen == [] {
      assert jobs + Records(chosen, id, kind) == jobs;
    } else {
      var front, c := chosen[..|chosen| - 1], chosen[|chosen| - 1];
      var job := Job(id, Some(kind), c);
      var all := jobs + Records(front, id, kind);
      assert jobs + Records(chosen, id, kind) == all + [job];
      assert u in chosen <==> u in front || u == c;
      assert c !in front;
      assert forall x | x in front :: x in chosen;
      hide *;
      JobsOnRecords(cards, jobs, front, id, kind, u);
      JobsOnAppend(cards, all, job, u);
    }
  }

  lemma JobsOnAppend(cards: seq<string>, jobs: seq<Job>, job: Job, u: string)
    requires job.gpu in cards && job.gpu != ""
    ensures JobsOn(cards, jobs + [job], u) == JobsOn(cards, jobs, u) + if job.gpu == u then [job] else []
  {
    JobsOnSnoc(cards, jobs, job, u);
    assert [job.gpu][..0] == [];
    assert Repeat(job, [job.gpu][..0], u) == [];
  }

  lemma {:induction false} IdsOfCards(table: Table, cards: seq<string>)
    requires forall u :: u in cards ==> u in table
    ensures forall x :: x in JobIds(table, cards) <==> exists u, j :: u in cards && j in table[u] && j.id == x
  {
    if cards != [] {
      var front, last := cards[..|cards| - 1], cards[|cards| - 1];
      IdsOfCards(table, front);
      forall x ensures x in JobIds(table, cards) <==> exists u, j :: u in cards && j in table[u] && j.id == x {
        var own := seq(|table[last]|, i requires 0 <= i < |table[last]| => table[last][i].id);
        assert JobIds(table, cards) == JobIds(table, front) + own;
        if x in own {
          var i :| 0 <= i < |own| && own[i] == x;
          assert table[last][i] in table[last] && last in cards;
        }
        if u, j :| u in cards && j in table[u] && j.id == x {
          if u !in front {
            var i :| 0 <= i < |table[last]| && table[last][i] == j;
            assert own[i] == x;
          }
        }
      }
    }
  }

  // ---------- one placement ----------

  /** Everything the offer displaces has strictly lower priority than the new job
      and is neither a rental nor inference. */
  lemma DisplacedAreLower(rig: Rig, jobs: seq<Job>, kind: WorkKind, needed: nat, x: string)
    requires x in OfferFor(rig, jobs, kind, needed).ids
    ensures exists j :: (j in jobs && j.id == x && j.kind.Some?
      && Rank(kind) < Rank(j.kind.value) && !j.kind.value.Rental? && !j.kind.value.Inference?)
  {
    hide Keys, CanShare, Repeat, Targets, JobsOn;
    var table := TableOf(rig.cards, jobs);
    var f, s, d := Free(rig.cards, table), Shareable(rig.cards, table, kind), Displaceable(rig.cards, table, kind);
    var displaced := Displaced(f, s, d, needed);
    DisplaceableInTable(rig.cards, table, kind, f, s, needed);
    IdsOfCards(table, displaced);
    var u: string, j: Job :| u in displaced && j in table[u] && j.id == x;
    assert u in d;
    assert CanDisplace(table[u], kind);
    JobsOnAreJobs(rig.cards, jobs, u, j);
  }

  lemma {:induction false} JobsOnAreJobs(cards: seq<string>, jobs: seq<Job>, u: string, j: Job)
    requires u in cards
    ensures j in TableOf(cards, jobs)[u] ==> j in jobs
  {
    JobsOnMember(cards, jobs, u, j);
  }

  lemma {:induction false} JobsOnMember(cards: seq<string>, jobs: seq<Job>, u: string, j: Job)
    ensures j in JobsOn(cards, jobs, u) ==> j in jobs
  {
    hide Targets;
    if jobs != [] {
      JobsOnMember(cards, jobs[..|jobs| - 1], u, j);
      RepeatMember(jobs[|jobs| - 1], Targets(cards, jobs[|jobs| - 1]), u, j);
    }
  }

  lemma {:induction false} RepeatMember(job: Job, targets: seq<string>, u: string, j: Job)
    ensures j in Repeat(job, targets, u) ==> j == job
  {
    if targets != [] { RepeatMember(job, targets[..|targets| - 1], u, j); }
  }

  /** What is left on a chosen card once displaced ids are gone takes the new job. */
  lemma ChosenCard(rig: Rig, jobs: seq<Job>, q: Request, u: string)
    requires Suits(rig, jobs, q.kind, q.needed, q.wholeNode)
    requires u in OfferFor(rig, jobs, q.kind, q.needed).cards
    requires GoodCard(JobsOn(rig.cards, jobs, u))
    ensures var left := Without(JobsOn(rig.cards, jobs, u), Ids(OfferFor(rig, jobs, q.kind, q.needed).ids));
      left == [] || (q.kind.Inference? && forall j | j in left :: j.kind == Some(Inference))
  {
    hide Keys, JobsOn, Suits;
    var table := TableOf(rig.cards, jobs);
    var f, s, d := Free(rig.cards, table), Shareable(rig.cards, table, q.kind), Displaceable(rig.cards, table, q.kind);
    var displaced := Displaced(f, s, d, q.needed);
    DisplaceableInTable(rig.cards, table, q.kind, f, s, q.needed);
    IdsOfCards(table, displaced);
    ChosenKinds(f, s, d, q.needed, u);
    if u in displaced {
      assert forall j: Job | j in table[u] :: j.id in JobIds(table, displaced);
      assert Without(table[u], Ids(JobIds(table, displaced))) == [];
    } else if u in f {
      assert table[u] == [];
    } else {
      assert CanShare(table[u], q.kind) && table[u] != [];
    }
  }

  lemma ChosenKinds(f: seq<string>, s: seq<string>, d: seq<string>, needed: nat, u: string)
    requires u in Chosen(f, s, d, needed)
    ensures u in f || u in s || u in Displaced(f, s, d, needed)
  {
    var all := f + s + d;
    var i :| 0 <= i < |Chosen(f, s, d, needed)| && Chosen(f, s, d, needed)[i] == u;
    assert all[i] == u;
    if i >= |f| + |s| {
      assert d[i - |f| - |s|] == u;
      assert Displaced(f, s, d, needed)[i - |f| - |s|] == u;
    }
  }

  lemma WithoutKeepsGood(jobs: seq<Job>, ids: set<string>)
    requires GoodCard(jobs)
    ensures GoodCard(Without(jobs, ids))
  {
    var kept := Without(jobs, ids);
    if j :| j in kept && j.kind == Some(Rental) {
      assert j in jobs && |kept| >= 1;
    }
  }

  /** Placing keeps the rig good. */
  lemma PlacedRigGood(rig: Rig, jobs: seq<Job>, q: Request, id: string)
    requires Suits(rig, jobs, q.kind, q.needed, q.wholeNode) && GoodRig(rig, jobs) && "" !in rig.cards
    ensures var o := OfferFor(rig, jobs, q.kind, q.needed);
      GoodRig(rig, Without(jobs, Ids(o.ids)) + Records(o.cards, id, q.kind))
  {
    hide JobsOn, OfferFor, Suits, Keys;
    var o := OfferFor(rig, jobs, q.kind, q.needed);
    OfferIsExact(rig, jobs, q.kind, q.needed, q.wholeNode);
    var kept := Without(jobs, Ids(o.ids));
    forall u | u in rig.cards ensures GoodCard(JobsOn(rig.cards, kept + Records(o.cards, id, q.kind), u)) {
      JobsOnRecords(rig.cards, kept, o.cards, id, q.kind, u);
      JobsOnWithout(rig.cards, jobs, u, Ids(o.ids));
      var left := Without(JobsOn(rig.cards, jobs, u), Ids(o.ids));
      WithoutKeepsGood(JobsOn(rig.cards, jobs, u), Ids(o.ids));
      if u in o.cards {
        ChosenCard(rig, jobs, q, u);
        OneMore(left, Job(id, Some(q.kind), u), q.kind);
      } else {
        assert left + [] == left;
      }
    }
  }

  lemma OneMore(left: seq<Job>, job: Job, kind: WorkKind)
    requires left == [] || (kind.Inference? && forall j | j in left :: j.kind == Some(Inference))
    requires job.kind == Some(kind)
    ensures GoodCard(left + [job])
  {
  }

  lemma FewerRigGood(rig: Rig, jobs: seq<Job>, ids: set<string>)
    requires GoodRig(rig, jobs)
    ensures GoodRig(rig, Without(jobs, ids))
  {
    hide JobsOn, GoodCard;
    forall u | u in rig.cards ensures GoodCard(JobsOn(rig.cards, Without(jobs, ids), u)) {
      JobsOnWithout(rig.cards, jobs, u, ids);
      WithoutKeepsGood(JobsOn(rig.cards, jobs, u), ids);
    }
  }

  // ---------- runs ----------

  lemma StepKeepsGood(roster: seq<Rig>, before: Running, step: Step, after: Running)
    requires Sound(roster) && Good(roster, before) && Next(roster, before, step, after)
    ensures Good(roster, after)
  {
    hide GoodRig, OfferFor, Fits;
    match step
    case Finish(id) => {
      forall r | 0 <= r < |roster| ensures GoodRig(roster[r], JobsOf(after, roster[r].id)) {
        FewerRigGood(roster[r], JobsOf(before, roster[r].id), {id});
        assert Without([], {id}) == [];
      }
    }
    case Place(q, id) => {
      if exists r: nat :: r < |roster| && Fits(roster[r], before, q) {
        var w: nat :| Wins(roster, before, q, w) && after == Placed(roster[w], before, q, id);
        PlacedGood(roster, before, q, id, w);
      }
    }
  }

  lemma PlacedGood(roster: seq<Rig>, before: Running, q: Request, id: string, w: nat)
    requires Sound(roster) && Good(roster, before) && Unused(before, id)
    requires w < |roster| && Fits(roster[w], before, q)
    ensures Good(roster, Placed(roster[w], before, q, id))
  {
    hide GoodRig, OfferFor, Suits, OneKind;
    var rig := roster[w];
    var o := OfferFor(rig, JobsOf(before, rig.id), q.kind, q.needed);
    PlacedOneKind(rig, before, q, id);
    var after := Placed(rig, before, q, id);
    forall r | 0 <= r < |roster| ensures GoodRig(roster[r], JobsOf(after, roster[r].id)) {
      var jobs := JobsOf(before, roster[r].id);
      if r == w {
        PlacedRigGood(rig, jobs, q, id);
      } else {
        FewerRigGood(roster[r], jobs, Ids(o.ids));
        OtherRig(rig, before, q, id, roster[r].id);
      }
    }
  }

  lemma OtherRig(rig: Rig, before: Running, q: Request, id: string, other: string)
    requires other != rig.id
    ensures JobsOf(Placed(rig, before, q, id), other)
         == Without(JobsOf(before, other), Ids(OfferFor(rig, JobsOf(before, rig.id), q.kind, q.needed).ids))
  {
    hide OfferFor;
  }

  /** Where a record after the placement comes from. */
  lemma PlacedOrigin(rig: Rig, before: Running, q: Request, id: string, r: string, j: Job)
    requires var after := Placed(rig, before, q, id); r in after && j in after[r]
    ensures (r in before && j in before[r]) || (j.id == id && j.kind == Some(q.kind))
  {
    hide OfferFor;
  }

  lemma PlacedOneKind(rig: Rig, before: Running, q: Request, id: string)
    requires OneKind(before) && Unused(before, id)
    ensures OneKind(Placed(rig, before, q, id))
  {
    hide Placed;
    var after := Placed(rig, before, q, id);
    forall r, s, i: Job, j: Job | r in after && s in after && i in after[r] && j in after[s] && i.id == j.id ensures i.kind == j.kind {
      PlacedOrigin(rig, before, q, id, r, i);
      PlacedOrigin(rig, before, q, id, s, j);
    }
  }

  ghost predicate IsRun(roster: seq<Rig>, states: seq<Running>, steps: seq<Step>) {
    && |states| == |steps| + 1
    && forall k | 0 <= k < |steps| :: Next(roster, states[k], steps[k], states[k + 1])
  }

  /** Every state of every run from a good state is good. */
  lemma {:induction false} RunStaysGood(roster: seq<Rig>, states: seq<Running>, steps: seq<Step>, k: nat)
    requires Sound(roster) && IsRun(roster, states, steps) && k < |states| && Good(roster, states[0])
    ensures Good(roster, states[k])
  {
    hide Good, Next, Sound;
    if k > 0 {
      RunStaysGood(roster, states, steps, k - 1);
      assert Next(roster, states[k - 1], steps[k - 1], states[k]);
      StepKeepsGood(roster, states[k - 1], steps[k - 1], states[k]);
    }
  }

  /** A record ends only by its own Finish, or by a placement of strictly higher
      priority when it is shaping or mining. */
  lemma OnlyLowerIsDisplaced(roster: seq<Rig>, before: Running, step: Step, after: Running, r: string, j: Job)
    requires Good(roster, before) && Next(roster, before, step, after)
    requires r in before && j in before[r] && (r !in after || j !in after[r])
    ensures step.Finish? ==> step.id == j.id
    ensures step.Place? ==> j.kind.Some? && Rank(step.q.kind) < Rank(j.kind.value) && j.kind.value in {Shaping, Mining}
  {
    hide *;
    if step.Finish? {
      FinishedOnly(roster, before, step, after, r, j);
    } else {
      var q := step.q;
      var w := PlacedWhere(roster, before, step, after);
      var jobs := JobsOf(before, roster[w].id);
      Gone(roster[w], before, q, step.id, r, j);
      DisplacedAreLower(roster[w], jobs, q.kind, q.needed, j.id);
      var i :| i in jobs && i.id == j.id && i.kind.Some?
        && Rank(q.kind) < Rank(i.kind.value) && !i.kind.value.Rental? && !i.kind.value.Inference?;
      SameKind(roster, before, roster[w].id, i, r, j);
    }
  }

  lemma FinishedOnly(roster: seq<Rig>, before: Running, step: Step, after: Running, r: string, j: Job)
    requires step.Finish? && Next(roster, before, step, after)
    requires r in before && j in before[r] && (r !in after || j !in after[r])
    ensures step.id == j.id
  {
  }

  lemma PlacedWhere(roster: seq<Rig>, before: Running, step: Step, after: Running) returns (w: nat)
    requires step.Place? && Next(roster, before, step, after) && before != after
    ensures w < |roster| && Fits(roster[w], before, step.q) && after == Placed(roster[w], before, step.q, step.id)
  {
    hide Placed, Fits, Best, Less;
    w :| Wins(roster, before, step.q, w) && after == Placed(roster[w], before, step.q, step.id);
  }

  lemma SameKind(roster: seq<Rig>, running: Running, s: string, i: Job, r: string, j: Job)
    requires Good(roster, running) && i in JobsOf(running, s) && r in running && j in running[r] && i.id == j.id
    ensures i.kind == j.kind
  {
    hide GoodRig;
  }

  /** What is gone after a placement was displaced by it. */
  lemma Gone(rig: Rig, before: Running, q: Request, id: string, r: string, j: Job)
    requires r in before && j in before[r]
    requires var after := Placed(rig, before, q, id); r !in after || j !in after[r]
    ensures j.id in OfferFor(rig, JobsOf(before, rig.id), q.kind, q.needed).ids
  {
    hide OfferFor;
  }

  /** A rental or inference job runs until it is finished, whatever is placed. */
  lemma {:induction false} CustomersRunToTheEnd(roster: seq<Rig>, states: seq<Running>, steps: seq<Step>, r: string, j: Job)
    requires Sound(roster) && IsRun(roster, states, steps) && Good(roster, states[0])
    requires r in states[0] && j in states[0][r] && (j.kind == Some(Rental) || j.kind == Some(Inference))
    requires forall k | 0 <= k < |steps| :: steps[k].Finish? ==> steps[k].id != j.id
    ensures r in states[|steps|] && j in states[|steps|][r]
    decreases |steps|
  {
    hide Good, Next;
    if |steps| > 0 {
      var last := |steps| - 1;
      assert states[..|states| - 1][0] == states[0];
      assert forall k | 0 <= k < last :: steps[..last][k] == steps[k];
      CustomersRunToTheEnd(roster, states[..|states| - 1], steps[..last], r, j);
      RunStaysGood(roster, states, steps, last);
      assert Next(roster, states[last], steps[last], states[last + 1]);
      if r !in states[last + 1] || j !in states[last + 1][r] {
        OnlyLowerIsDisplaced(roster, states[last], steps[last], states[last + 1], r, j);
      }
    }
  }
}
