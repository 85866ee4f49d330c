/** The placement scheduler: which cards of which rig a job gets, whom it shares
    with and whom it displaces. */
module Placement {
  import opened Wrappers

  datatype WorkKind = Rental | Inference | Shaping | Mining

  /** Position in the priority ladder; lower goes first. */
  function Rank(k: WorkKind): nat {
    match k case Rental => 0 case Inference => 1 case Shaping => 2 case Mining => 3
  }

  /** A running job: its kind is None when the text is not a known kind. */
  datatype Job = Job(id: string, kind: Option<WorkKind>, gpu: string)

  /** A rig: its card ids in inventory order, and what `rank_rig` reads. `eligible`
      holds the kinds for which `ineligible_reason` is empty. */
  datatype Rig = Rig(id: string, cards: seq<string>, eligible: set<WorkKind>, reliability: real, uptimeDays: real)

  // ---------- occupancy ----------

  /** The keys of a dict filled from a list: first occurrences, in order. */
  function Keys(cards: seq<string>): (k: seq<string>)
    ensures forall u :: u in k <==> u in cards
    ensures forall i, j | 0 <= i < j < |k| :: k[i] != k[j]
  {
    if cards == [] then []
    else
      var front := Keys(cards[..|cards| - 1]);
      if cards[|cards| - 1] in front then front else front + [cards[|cards| - 1]]
  }

  /** The job once for every time its targets name the card. */
  function Repeat(job: Job, targets: seq<string>, u: string): seq<Job> {
    if targets == [] then []
    else Repeat(job, targets[..|targets| - 1], u) + if targets[|targets| - 1] == u then [job] else []
  }

  /** A job that names a card of the rig runs there; any other runs on all. */
  function Targets(cards: seq<string>, job: Job): seq<string> {
    if job.gpu != "" && job.gpu in cards then [job.gpu] else cards
  }

  function JobsOn(cards: seq<string>, jobs: seq<Job>, u: string): seq<Job> {
    if jobs == [] then []
    else
      var job := jobs[|jobs| - 1];
      JobsOn(cards, jobs[..|jobs| - 1], u) + Repeat(job, Targets(cards, job), u)
  }

  type Table = map<string, seq<Job>>

  /** `for uuid in targets: table[uuid].append(job)`. */
  method AddJob(start: Table, job: Job, targets: seq<string>) returns (table: Table)
    requires forall u :: u in targets ==> u in start
    ensures table.Keys == start.Keys
    ensures forall u :: u in table ==> table[u] == start[u] + Repeat(job, targets, u)
  {
    table := start;
    for t := 0 to |targets|
      invariant table.Keys == start.Keys
      invariant forall u :: u in table ==> table[u] == start[u] + Repeat(job, targets[..t], u)
    {
      assert targets[..t + 1][..t] == targets[..t];
      assert targets[t] in targets;
      table := table[targets[t] := table[targets[t]] + [job]];
    }
    assert targets[..|targets|] == targets;
  }

  method Occupancy(cards: seq<string>, jobs: seq<Job>) returns (table: Table)
    ensures forall u :: u in table <==> u in cards
    ensures forall u :: u in table ==> table[u] == JobsOn(cards, jobs, u)
  {
    hide Repeat, Targets;
    table := map u | u in cards :: [];
    for k := 0 to |jobs|
      invariant forall u :: u in table <==> u in cards
      invariant forall u :: u in table ==> table[u] == JobsOn(cards, jobs[..k], u)
    {
      TargetsAreCards(cards, jobs[k]);
      table := AddJob(table, jobs[k], Targets(cards, jobs[k]));
      assert jobs[..k + 1][..k] == jobs[..k];
    }
    assert jobs[..|jobs|] == jobs;
  }

  lemma TargetsAreCards(cards: seq<string>, job: Job)
    ensures forall u :: u in Targets(cards, job) ==> u in cards
  {
  }

  lemma {:induction false} RepeatExactly(job: Job, targets: seq<string>, u: string)
    ensures forall j :: j in Repeat(job, targets, u) <==> j == job && u in targets
  {
    if targets != [] { RepeatExactly(job, targets[..|targets| - 1], u); }
  }

  /** A card runs exactly the jobs that name it, name no card, or name one the rig does
      not have. */
  lemma {:induction false} JobsOnExactly(cards: seq<string>, jobs: seq<Job>, u: string)
    requires u in cards
    ensures forall j :: j in JobsOn(cards, jobs, u) <==> j in jobs && (j.gpu == u || j.gpu == "" || j.gpu !in cards)
  {
    hide Repeat;
    if jobs != [] {
      var front, last := jobs[..|jobs| - 1], jobs[|jobs| - 1];
      JobsOnExactly(cards, front, u);
      RepeatExactly(last, Targets(cards, last), u);
      assert jobs == front + [last];
    }
  }

  // ---------- sharing and displacing ----------

  predicate CanShare(existing: seq<Job>, kind: WorkKind) {
    if existing == [] then true
    else if kind.Rental? || exists j :: j in existing && j.kind == Some(Rental) then false
    else if kind.Inference? then forall j :: j in existing ==> j.kind == Some(Inference)
    else false
  }

  predicate CanDisplace(existing: seq<Job>, kind: WorkKind) {
    existing != [] && forall j :: j in existing ==>
      j.kind.Some? && Rank(j.kind.value) > Rank(kind) && !j.kind.value.Rental? && !j.kind.value.Inference?
  }

  /** The priority order, highest first. */
  lemma PriorityOrder()
    ensures Rank(Rental) < Rank(Inference) < Rank(Shaping) < Rank(Mining)
  {
  }

  /** A card with jobs is shared exactly by inference with inference. */
  lemma SharesExactly(existing: seq<Job>, kind: WorkKind)
    ensures existing == [] ==> CanShare(existing, kind)
    ensures existing != [] ==> (CanShare(existing, kind) <==> kind == Inference && forall j | j in existing :: j.kind == Some(Inference))
  {
    if existing != [] { assert existing[0] in existing; }
  }

  /** A card's jobs give way exactly when there are some and each is mining, for
      anything but mining, or shaping, for rentals and inference. */
  lemma DisplacesExactly(existing: seq<Job>, kind: WorkKind)
    ensures CanDisplace(existing, kind) <==>
      existing != [] && forall j | j in existing ::
        (j.kind == Some(Mining) && kind != Mining) || (j.kind == Some(Shaping) && (kind == Rental || kind == Inference))
  {
  }

  /** The cards of a table, in order, that satisfy a predicate. */
  function Select(keys: seq<string>, p: string -> bool): (s: seq<string>)
    ensures forall u :: u in s <==> u in keys && p(u)
    ensures (forall i, j | 0 <= i < j < |keys| :: keys[i] != keys[j]) ==> forall i, j | 0 <= i < j < |s| :: s[i] != s[j]
  {
    if keys == [] then []
    else Select(keys[..|keys| - 1], p) + if p(keys[|keys| - 1]) then [keys[|keys| - 1]] else []
  }

  /** What is selected keeps its order. */
  lemma {:induction false} SelectInOrder(keys: seq<string>, p: string -> bool, a: nat, b: nat) returns (i: nat, j: nat)
    requires a < b < |Select(keys, p)|
    ensures i < j < |keys| && keys[i] == Select(keys, p)[a] && keys[j] == Select(keys, p)[b]
  {
    var n := |keys| - 1;
    var front := Select(keys[..n], p);
    if b < |front| {
      i, j := SelectInOrder(keys[..n], p, a, b);
    } else {
      assert front[a] in front;
      i :| 0 <= i < n && keys[..n][i] == front[a];
      j := n;
    }
  }

  lemma {:induction false} KeysOfDistinct(cards: seq<string>)
    requires forall i, j | 0 <= i < j < |cards| :: cards[i] != cards[j]
    ensures Keys(cards) == cards
  {
    if cards != [] {
      KeysOfDistinct(cards[..|cards| - 1]);
    }
  }

  function Free(cards: seq<string>, table: Table): seq<string>
    requires forall u :: u in table <==> u in cards
  {
    Select(Keys(cards), u => u in table && table[u] == [])
  }

  function Shareable(cards: seq<string>, table: Table, kind: WorkKind): seq<string>
    requires forall u :: u in table <==> u in cards
  {
    Select(Keys(cards), u => u in table && table[u] != [] && CanShare(table[u], kind))
  }

  function Displaceable(cards: seq<string>, table: Table, kind: WorkKind): seq<string>
    requires forall u :: u in table <==> u in cards
  {
    Select(Keys(cards), u => u in table && table[u] != [] && CanDisplace(table[u], kind))
  }

  /** A card is never both shareable and displaceable. */
  lemma ShareNotDisplace(existing: seq<Job>, kind: WorkKind)
    requires existing != [] && CanShare(existing, kind)
    ensures !CanDisplace(existing, kind)
  {
    assert existing[0] in existing;
  }

  function Take(s: seq<string>, k: int): seq<string> {
    if k <= 0 then [] else if k >= |s| then s else s[..k]
  }

  /** Free cards first, then shared, then displaced ones. */
  function Chosen(free: seq<string>, shareable: seq<string>, displaceable: seq<string>, needed: nat): seq<string> {
    Take(free + shareable + displaceable, needed)
  }

  function Displaced(free: seq<string>, shareable: seq<string>, displaceable: seq<string>, needed: nat): seq<string> {
    Take(displaceable, needed - |free| - |shareable|)
  }

  function JobIds(table: Table, cards: seq<string>): seq<string>
    requires forall u :: u in cards ==> u in table
  {
    if cards == [] then []
    else
      var last := cards[|cards| - 1];
      JobIds(table, cards[..|cards| - 1]) + seq(|table[last]|, i requires 0 <= i < |table[last]| => table[last][i].id)
  }

  /** What one rig offers. `free` counts the free cards left after choosing, and
      may be negative; `ids` lists displaced job ids with repetitions. */
  datatype Offer = Offer(rig: Rig, cards: seq<string>, displaced: seq<string>, ids: seq<string>, free: int)

  /** The body of the roster loop for one rig. */
  method OfferOf(rig: Rig, jobs: seq<Job>, kind: WorkKind, needed: nat, wholeNode: bool) returns (offer: Option<Offer>)
    requires needed > 0
    ensures offer == if Suits(rig, jobs, kind, needed, wholeNode) then Some(OfferFor(rig, jobs, kind, needed)) else None
  {
    hide *;
    if kind !in rig.eligible {
      NotSuited(rig, jobs, kind, needed, wholeNode);
      return None;
    }
    var table := Occupancy(rig.cards, jobs);
    TableIs(table, rig.cards, jobs);
    if wholeNode && |Keys(rig.cards)| != needed {
      NotSuited(rig, jobs, kind, needed, wholeNode);
      return None;
    }
    var free := Free(rig.cards, table);
    var shareable := Shareable(rig.cards, table, kind);
    var displaceable := Displaceable(rig.cards, table, kind);
    var chosen, displaced := PickCards(free, shareable, displaceable, needed);
    SuitsIs(rig, jobs, kind, needed, wholeNode);
    if |chosen| < needed { return None; }
    DisplaceableInTable(rig.cards, table, kind, free, shareable, needed);
    var o := Offer(rig, chosen, displaced, JobIds(table, displaced), |free| - |chosen|);
    OfferIs(o, rig, jobs, kind, needed);
    offer := Some(o);
  }

  /** The three slices of the roster loop. */
  method PickCards(free: seq<string>, shareable: seq<string>, displaceable: seq<string>, needed: nat)
    returns (chosen: seq<string>, displaced: seq<string>)
    ensures |chosen| == if |free| + |shareable| + |displaceable| < needed
                        then |free| + |shareable| + |displaceable| else needed
    ensures chosen == Chosen(free, shareable, displaceable, needed)
    ensures displaced == Displaced(free, shareable, displaceable, needed)
  {
    chosen := Take(free, needed);
    if |chosen| < needed { chosen := chosen + Take(shareable, needed - |chosen|); }
    displaced := [];
    if |chosen| < needed {
      displaced := Take(displaceable, needed - |chosen|);
      chosen := chosen + displaced;
    }
  }

  lemma NotSuited(rig: Rig, jobs: seq<Job>, kind: WorkKind, needed: nat, wholeNode: bool)
    requires kind !in rig.eligible || (wholeNode && |Keys(rig.cards)| != needed)
    ensures !Suits(rig, jobs, kind, needed, wholeNode)
  {
  }

  lemma SuitsIs(rig: Rig, jobs: seq<Job>, kind: WorkKind, needed: nat, wholeNode: bool)
    requires kind in rig.eligible && (wholeNode ==> |Keys(rig.cards)| == needed)
    ensures var table := TableOf(rig.cards, jobs);
      Suits(rig, jobs, kind, needed, wholeNode) <==>
      |Free(rig.cards, table)| + |Shareable(rig.cards, table, kind)| + |Displaceable(rig.cards, table, kind)| >= needed
  {
    hide TableOf, Free, Shareable, Displaceable, Keys;
  }

  lemma DisplaceableInTable(cards: seq<string>, table: Table, kind: WorkKind, free: seq<string>, shareable: seq<string>, needed: nat)
    requires forall u :: u in table <==> u in cards
    ensures forall u | u in Displaced(free, shareable, Displaceable(cards, table, kind), needed) :: u in table
  {
  }

  lemma OfferIs(o: Offer, rig: Rig, jobs: seq<Job>, kind: WorkKind, needed: nat)
    requires var table := TableOf(rig.cards, jobs);
      var free, shareable := Free(rig.cards, table), Shareable(rig.cards, table, kind);
      && o.rig == rig && o.free == |free| - needed
      && o.cards == Chosen(free, shareable, Displaceable(rig.cards, table, kind), needed)
      && o.displaced == Displaced(free, shareable, Displaceable(rig.cards, table, kind), needed)
      && (forall u | u in o.displaced :: u in table) && o.ids == JobIds(table, o.displaced)
    ensures o == OfferFor(rig, jobs, kind, needed)
  {
  }

  function TableOf(cards: seq<string>, jobs: seq<Job>): (t: Table)
    ensures forall u :: u in t <==> u in cards
  {
    map u | u in cards :: JobsOn(cards, jobs, u)
  }

  lemma TableIs(table: Table, cards: seq<string>, jobs: seq<Job>)
    requires forall u :: u in table <==> u in cards
    requires forall u :: u in table ==> table[u] == JobsOn(cards, jobs, u)
    ensures table == TableOf(cards, jobs)
  {
  }

  /** How many cards of the rig the job could use at all. */
  function Usable(rig: Rig, jobs: seq<Job>, kind: WorkKind): nat {
    var table := TableOf(rig.cards, jobs);
    |Free(rig.cards, table)| + |Shareable(rig.cards, table, kind)| + |Displaceable(rig.cards, table, kind)|
  }

  /** An eligible rig, of the right size for a whole-node job, is refused exactly
      when its usable cards are too few. */
  predicate Suits(rig: Rig, jobs: seq<Job>, kind: WorkKind, needed: nat, wholeNode: bool) {
    && kind in rig.eligible
    && (wholeNode ==> |Keys(rig.cards)| == needed)
    && Usable(rig, jobs, kind) >= needed
  }

  /** What the rig offers, in one piece. */
  function OfferFor(rig: Rig, jobs: seq<Job>, kind: WorkKind, needed: nat): Offer {
    var table := TableOf(rig.cards, jobs);
    var free, shareable := Free(rig.cards, table), Shareable(rig.cards, table, kind);
    var displaceable := Displaceable(rig.cards, table, kind);
    DisplaceableInTable(rig.cards, table, kind, free, shareable, needed);
    var displaced := Displaced(free, shareable, displaceable, needed);
    Offer(rig, Chosen(free, shareable, displaceable, needed), displaced, JobIds(table, displaced), |free| - needed)
  }

  // ---------- what an offer is ----------

  /** The cards of an offer are distinct cards of its rig, exactly as many as
      needed; and exactly as many are displaced as free and shareable ones fall
      short. */
  lemma OfferIsExact(rig: Rig, jobs: seq<Job>, kind: WorkKind, needed: nat, wholeNode: bool)
    requires Suits(rig, jobs, kind, needed, wholeNode)
    ensures var o := OfferFor(rig, jobs, kind, needed); var table := TableOf(rig.cards, jobs);
      var kept := |Free(rig.cards, table)| + |Shareable(rig.cards, table, kind)|;
      && |o.cards| == needed && (forall i, j | 0 <= i < j < needed :: o.cards[i] != o.cards[j])
      && (forall u | u in o.cards :: u in rig.cards)
      && o.free == |Free(rig.cards, table)| - needed
      && |o.displaced| == (if needed <= kept then 0 else needed - kept)
      && (forall u | u in o.displaced :: u in o.cards)
  {
    hide Keys, CanShare, CanDisplace, JobIds, TableOf;
    var table := TableOf(rig.cards, jobs);
    var f, s, d := Free(rig.cards, table), Shareable(rig.cards, table, kind), Displaceable(rig.cards, table, kind);
    DistinctUnion(rig.cards, table, kind);
    hide Free, Shareable, Displaceable, Select;
    PrefixOfUnion(f, s, d, needed);
    forall u | u in f + s + d ensures u in rig.cards {
      UsableAreCards(rig.cards, table, kind, u);
    }
  }

  lemma UsableAreCards(cards: seq<string>, table: Table, kind: WorkKind, u: string)
    requires forall v :: v in table <==> v in cards
    requires u in Free(cards, table) + Shareable(cards, table, kind) + Displaceable(cards, table, kind)
    ensures u in cards
  {
  }

  lemma PrefixOfUnion(f: seq<string>, s: seq<string>, d: seq<string>, needed: nat)
    requires |f| + |s| + |d| >= needed
    ensures Chosen(f, s, d, needed) == (f + s + d)[..needed]
    ensures |Displaced(f, s, d, needed)| == if needed <= |f| + |s| then 0 else needed - |f| - |s|
    ensures forall u | u in Displaced(f, s, d, needed) :: u in Chosen(f, s, d, needed)
  {
    var n := needed - |f| - |s|;
    if n > 0 {
      forall i | 0 <= i < n ensures (f + s + d)[|f| + |s| + i] == d[i] {
      }
    }
  }

  /** No card is in two of the three lists, or twice in one. */
  lemma DistinctUnion(cards: seq<string>, table: Table, kind: WorkKind)
    requires forall u :: u in table <==> u in cards
    ensures var all := Free(cards, table) + Shareable(cards, table, kind) + Displaceable(cards, table, kind);
      forall i, j | 0 <= i < j < |all| :: all[i] != all[j]
  {
    var f, s, d := Free(cards, table), Shareable(cards, table, kind), Displaceable(cards, table, kind);
    forall u | u in s ensures u !in d && u !in f {
      ShareNotDisplace(table[u], kind);
    }
    forall u | u in d ensures u !in f {
    }
    hide *;
    DistinctConcat(f, s);
    DistinctConcat(f + s, d);
  }

  lemma DistinctConcat(a: seq<string>, b: seq<string>)
    requires forall i, j | 0 <= i < j < |a| :: a[i] != a[j]
    requires forall i, j | 0 <= i < j < |b| :: b[i] != b[j]
    requires forall u | u in b :: u !in a
    ensures forall i, j | 0 <= i < j < |a + b| :: (a + b)[i] != (a + b)[j]
  {
    forall i, j | 0 <= i < j < |a + b| ensures (a + b)[i] != (a + b)[j] {
      if i < |a| && j >= |a| { assert b[j - |a|] in b && a[i] in a; }
    }
  }

  lemma {:induction false} DistinctCount(s: seq<string>)
    requires forall i, j | 0 <= i < j < |s| :: s[i] != s[j]
    ensures |(set u | u in s)| == |s|
  {
    if s != [] {
      var n := |s| - 1;
      DistinctCount(s[..n]);
      assert s == s[..n] + [s[n]];
      assert (set u | u in s) == (set u | u in s[..n]) + {s[n]};
    }
  }

  /** A card the job could use: it runs nothing, or may be shared, or its jobs give way. */
  predicate CouldUse(existing: seq<Job>, kind: WorkKind) {
    existing == [] || CanShare(existing, kind) || CanDisplace(existing, kind)
  }

  lemma InOneOfThree(cards: seq<string>, table: Table, kind: WorkKind, u: string)
    requires forall v :: v in table <==> v in cards
    ensures u in Free(cards, table) + Shareable(cards, table, kind) + Displaceable(cards, table, kind) <==>
      u in cards && CouldUse(table[u], kind)
  {
    hide Keys, CanShare, CanDisplace;
    var f, s, d := Free(cards, table), Shareable(cards, table, kind), Displaceable(cards, table, kind);
    assert u in f + s + d <==> u in f || u in s || u in d;
  }

  function UsableCards(rig: Rig, jobs: seq<Job>, kind: WorkKind): set<string> {
    set u | u in rig.cards && CouldUse(JobsOn(rig.cards, jobs, u), kind)
  }

  /** The cards counted as usable are these, each once. */
  lemma UsableExactly(rig: Rig, jobs: seq<Job>, kind: WorkKind)
    ensures Usable(rig, jobs, kind) == |UsableCards(rig, jobs, kind)|
  {
    hide Keys, JobsOn, CouldUse, Free, Shareable, Displaceable;
    var cards := rig.cards;
    var table := TableOf(cards, jobs);
    var f, s, d := Free(cards, table), Shareable(cards, table, kind), Displaceable(cards, table, kind);
    DistinctUnion(cards, table, kind);
    DistinctCount(f + s + d);
    forall u ensures u in f + s + d <==> u in UsableCards(rig, jobs, kind) {
      InOneOfThree(cards, table, kind, u);
    }
    SameMembers(f + s + d, UsableCards(rig, jobs, kind));
    assert |f + s + d| == |f| + |s| + |d|;
  }

  lemma SameMembers(s: seq<string>, cards: set<string>)
    requires forall u :: u in s <==> u in cards
    ensures (set u | u in s) == cards
  {
  }

  /** A whole node has as many cards as there are different ids. */
  lemma NodeSize(cards: seq<string>)
    ensures |Keys(cards)| == |(set u | u in cards)|
  {
    hide Keys;
    DistinctCount(Keys(cards));
    assert (set u | u in Keys(cards)) == set u | u in cards;
  }

  /** No card that runs something is chosen while a free one is not, and none is
      displaced while a free or shareable one is not chosen. */
  lemma OfferPrefers(rig: Rig, jobs: seq<Job>, kind: WorkKind, needed: nat, wholeNode: bool, u: string, v: string)
    requires Suits(rig, jobs, kind, needed, wholeNode) && u in rig.cards && v in rig.cards
    requires v in OfferFor(rig, jobs, kind, needed).cards
    ensures JobsOn(rig.cards, jobs, u) == [] && JobsOn(rig.cards, jobs, v) != [] ==> u in OfferFor(rig, jobs, kind, needed).cards
    ensures v in OfferFor(rig, jobs, kind, needed).displaced && CanShare(JobsOn(rig.cards, jobs, u), kind) ==>
      u in OfferFor(rig, jobs, kind, needed).cards
  {
    hide Keys, CanShare, CanDisplace, JobIds, JobsOn, Suits;
    SuitsEnough(rig, jobs, kind, needed, wholeNode);
    var table := TableOf(rig.cards, jobs);
    var f, s, d := Free(rig.cards, table), Shareable(rig.cards, table, kind), Displaceable(rig.cards, table, kind);
    var o := OfferFor(rig, jobs, kind, needed);
    PrefixOfUnion(f, s, d, needed);
    InPrefix(f, s, d, needed, u, v);
  }

  lemma SuitsEnough(rig: Rig, jobs: seq<Job>, kind: WorkKind, needed: nat, wholeNode: bool)
    requires Suits(rig, jobs, kind, needed, wholeNode)
    ensures var table := TableOf(rig.cards, jobs);
      |Free(rig.cards, table)| + |Shareable(rig.cards, table, kind)| + |Displaceable(rig.cards, table, kind)| >= needed
  {
    hide TableOf, Free, Shareable, Displaceable, Keys;
  }

  /** Taking the front of the three lists one after the other. */
  lemma InPrefix(f: seq<string>, s: seq<string>, d: seq<string>, needed: nat, u: string, v: string)
    requires |f| + |s| + |d| >= needed && v in (f + s + d)[..needed]
    ensures u in f && v !in f ==> u in (f + s + d)[..needed]
    ensures u in f + s && v in Displaced(f, s, d, needed) ==> u in (f + s + d)[..needed]
  {
    var all := f + s + d;
    if u in f && v !in f {
      var i :| 0 <= i < |f| && f[i] == u;
      var j :| 0 <= j < needed && all[..needed][j] == v;
      assert forall k | 0 <= k < |f| :: f[k] in f && all[k] == f[k];
      assert all[..needed][i] == u;
    }
    if u in f + s && v in Displaced(f, s, d, needed) {
      var i :| 0 <= i < |f + s| && (f + s)[i] == u;
      assert needed > |f| + |s|;
      assert all[..needed][i] == u;
    }
  }

  /** A job that names no card of the rig runs on all of them, so a rental that does
      keeps every other job off the rig. */
  lemma NamelessRentalBlocks(rig: Rig, jobs: seq<Job>, kind: WorkKind, needed: nat, wholeNode: bool, j: Job)
    requires j in jobs && j.kind == Some(Rental) && (j.gpu == "" || j.gpu !in rig.cards) && needed > 0
    ensures !Suits(rig, jobs, kind, needed, wholeNode)
  {
    hide Keys, JobsOn, CanShare, CanDisplace;
    var table := TableOf(rig.cards, jobs);
    forall u | u in rig.cards ensures table[u] != [] && !CanShare(table[u], kind) && !CanDisplace(table[u], kind) {
      JobsOnExactly(rig.cards, jobs, u);
      assert j in table[u];
      SharesExactly(table[u], kind);
      DisplacesExactly(table[u], kind);
    }
    var f, s, d := Free(rig.cards, table), Shareable(rig.cards, table, kind), Displaceable(rig.cards, table, kind);
    NoneIn(f);
    NoneIn(s);
    NoneIn(d);
  }

  lemma NoneIn(s: seq<string>)
    requires forall u :: u !in s
    ensures s == []
  {
    if |s| > 0 { FirstIn(s); }
  }

  lemma FirstIn(s: seq<string>)
    requires |s| > 0
    ensures exists u :: u in s
  {
    assert s[0] in s;
  }

  /** Each displaced card adds all its jobs to the count the ranking goes by. */
  lemma JobIdsCount(table: Table, cards: seq<string>, c: string)
    requires c in table && forall u :: u in cards ==> u in table
    ensures |JobIds(table, cards + [c])| == |JobIds(table, cards)| + |table[c]|
  {
    assert (cards + [c])[..|cards|] == cards;
  }

  // ---------- choosing among rigs ----------

  /** `rank_rig`: fewer displaced jobs, then higher reliability, longer uptime and
      more free cards left; smaller is better. */
  datatype RankTuple = RankTuple(displaced: int, reliability: real, uptimeDays: real, free: int)

  function RankOf(o: Offer): RankTuple {
    RankTuple(|o.ids|, -o.rig.reliability, -o.rig.uptimeDays, -o.free)
  }

  /** Tuple comparison. */
  predicate Less(a: RankTuple, b: RankTuple) {
    if a.displaced != b.displaced then a.displaced < b.displaced
    else if a.reliability != b.reliability then a.reliability < b.reliability
    else if a.uptimeDays != b.uptimeDays then a.uptimeDays < b.uptimeDays
    else a.free < b.free
  }

  /** Fewer displaced jobs come first; then the more reliable rig, the one up longer, and
      the one with more free cards left. */
  lemma RankPrefers(a: Offer, b: Offer)
    ensures |a.ids| < |b.ids| ==> Less(RankOf(a), RankOf(b))
    ensures |a.ids| == |b.ids| && a.rig.reliability > b.rig.reliability ==> Less(RankOf(a), RankOf(b))
    ensures |a.ids| == |b.ids| && a.rig.reliability == b.rig.reliability && a.rig.uptimeDays > b.rig.uptimeDays ==>
      Less(RankOf(a), RankOf(b))
    ensures |a.ids| == |b.ids| && a.rig.reliability == b.rig.reliability && a.rig.uptimeDays == b.rig.uptimeDays && a.free > b.free ==>
      Less(RankOf(a), RankOf(b))
  {
  }

  function JobsOf(jobsByRig: map<string, seq<Job>>, id: string): seq<Job> {
    if id in jobsByRig then jobsByRig[id] else []
  }

  datatype Request = Request(kind: WorkKind, needed: nat, wholeNode: bool)

  predicate Fits(rig: Rig, jobsByRig: map<string, seq<Job>>, q: Request) {
    Suits(rig, JobsOf(jobsByRig, rig.id), q.kind, q.needed, q.wholeNode)
  }

  function Best(rig: Rig, jobsByRig: map<string, seq<Job>>, q: Request): RankTuple {
    RankOf(OfferFor(rig, JobsOf(jobsByRig, rig.id), q.kind, q.needed))
  }

  /** Rig r of the roster is the first with the least rank among those that fit. */
  ghost predicate Wins(roster: seq<Rig>, jobsByRig: map<string, seq<Job>>, q: Request, r: nat) {
    && r < |roster| && Fits(roster[r], jobsByRig, q)
    && forall s: nat | s < |roster| && Fits(roster[s], jobsByRig, q) ::
         && !Less(Best(roster[s], jobsByRig, q), Best(roster[r], jobsByRig, q))
         && (s < r ==> Less(Best(roster[r], jobsByRig, q), Best(roster[s], jobsByRig, q)))
  }

  lemma LessTransitive(a: RankTuple, b: RankTuple, c: RankTuple)
    ensures !Less(b, a) && Less(c, a) ==> Less(c, a) && !Less(a, c)
    ensures Less(c, a) && !Less(b, a) ==> Less(c, b)
    ensures !Less(c, a) && Less(a, b) ==> Less(a, b) && !Less(c, a)
  {
  }

  /** `choose`: the offers of the rigs that fit, in roster order, then the first
      with the least rank, as a stable sort leaves it in front. */
  method Choose(kind: Option<WorkKind>, gpuCount: int, roster: seq<Rig>, jobsByRig: map<string, seq<Job>>, wholeNode: bool)
    returns (placement: Option<Offer>, ghost winner: nat)
    ensures kind.None? ==> placement.None?
    ensures kind.Some? ==> var q := Request(kind.value, if gpuCount < 1 then 1 else gpuCount, wholeNode);
      && (placement.None? <==> forall r: nat | r < |roster| :: !Fits(roster[r], jobsByRig, q))
      && (placement.Some? ==> (Wins(roster, jobsByRig, q, winner)
            && placement.value == OfferFor(roster[winner], JobsOf(jobsByRig, roster[winner].id), q.kind, q.needed)))
  {
    hide Suits, OfferFor, Less, RankOf;
    placement, winner := None, 0;
    if kind.None? { return; }
    var q := Request(kind.value, if gpuCount < 1 then 1 else gpuCount, wholeNode);
    for r := 0 to |roster|
      invariant placement.None? <==> forall s: nat | s < r :: !Fits(roster[s], jobsByRig, q)
      invariant placement.Some? ==> Wins(roster[..r], jobsByRig, q, winner)
      invariant placement.Some? ==>
        placement.value == OfferFor(roster[winner], JobsOf(jobsByRig, roster[winner].id), q.kind, q.needed)
    {
      var offer := OfferOf(roster[r], JobsOf(jobsByRig, roster[r].id), q.kind, q.needed, wholeNode);
      ghost var front := roster[..r];
      assert roster[..r + 1] == front + [roster[r]];
      if offer.Some? && (placement.None? || Less(RankOf(offer.value), RankOf(placement.value))) {
        if placement.Some? {
          NewWinner(front, roster[r], jobsByRig, q, winner);
        } else {
          FirstWinner(front, roster[r], jobsByRig, q);
        }
        placement, winner := offer, r;
      } else if placement.Some? {
        OldWinner(front, roster[r], jobsByRig, q, winner);
      }
    }
    assert roster[..|roster|] == roster;
  }

  lemma NewWinner(front: seq<Rig>, rig: Rig, jobsByRig: map<string, seq<Job>>, q: Request, w: nat)
    requires Wins(front, jobsByRig, q, w) && Fits(rig, jobsByRig, q)
    requires Less(Best(rig, jobsByRig, q), Best(front[w], jobsByRig, q))
    ensures Wins(front + [rig], jobsByRig, q, |front|)
  {
    hide Fits, Best, Less;
    forall s: nat | s < |front| && Fits(front[s], jobsByRig, q)
      ensures Less(Best(rig, jobsByRig, q), Best(front[s], jobsByRig, q))
           && !Less(Best(front[s], jobsByRig, q), Best(rig, jobsByRig, q))
    {
      LessTransitive(Best(front[w], jobsByRig, q), Best(front[s], jobsByRig, q), Best(rig, jobsByRig, q));
      LessAsymmetric(Best(rig, jobsByRig, q), Best(front[s], jobsByRig, q));
    }
    LessAsymmetric(Best(rig, jobsByRig, q), Best(rig, jobsByRig, q));
  }

  lemma FirstWinner(front: seq<Rig>, rig: Rig, jobsByRig: map<string, seq<Job>>, q: Request)
    requires forall s: nat | s < |front| :: !Fits(front[s], jobsByRig, q)
    requires Fits(rig, jobsByRig, q)
    ensures Wins(front + [rig], jobsByRig, q, |front|)
  {
    hide Fits, Best, Less;
    LessAsymmetric(Best(rig, jobsByRig, q), Best(rig, jobsByRig, q));
  }

  lemma LessAsymmetric(a: RankTuple, b: RankTuple)
    ensures !(Less(a, b) && Less(b, a))
  {
  }

  lemma OldWinner(front: seq<Rig>, rig: Rig, jobsByRig: map<string, seq<Job>>, q: Request, w: nat)
    requires Wins(front, jobsByRig, q, w)
    requires !Fits(rig, jobsByRig, q) || !Less(Best(rig, jobsByRig, q), Best(front[w], jobsByRig, q))
    ensures Wins(front + [rig], jobsByRig, q, w)
  {
    hide Fits, Best, Less;
  }
}
