/** One creation as a plan: what each of its commands answers and does, the stages it
    goes through until one does not pass, and what it then owes to its rollback. */
module CreationPlan {
  import opened CreationWorld

  datatype Outcome = Ok | Failed | Raised

  datatype VolumeSpec = VolumeSpec(name: string, create: bool, encrypted: bool)

  datatype Spec = Spec(job: string, container: string, volumes: seq<VolumeSpec>, hasCaps: bool,
                       valid: bool, secretAvailable: bool)

  // ---------- replies ----------

  /** The awaits of one creation. */
  datatype Point =
    | FindPorts | Pull | OldContainer | StaleVolumes | NewVolume(k: nat) | FindDevices | SetCaps | Probes | Run
    | WaitRunning | Mount(k: nat) | SaveRecord | DropContainer | DropCaps | DropVolume(k: nat) | Sweep

  /** What a command reports; whether it took effect all the same (or, for a removal,
      at all); and what happens before and after its effect. The volumes that
      `remove_stale_volumes` removes are among what its reply takes. */
  datatype Reply = Reply(outcome: Outcome, effect: bool, before: seq<Event>, after: seq<Event>)

  type Replies = Point -> Reply

  function TookEffect(r: Reply): bool { r.outcome.Ok? || r.effect }

  function Around(r: Reply, own: seq<Event>): seq<Event> { r.before + own + r.after }

  /** An item made and reported, and one made without being reported. */
  function IfReported(item: Item, r: Reply): seq<Item> { if r.outcome.Ok? then [item] else [] }

  function IfUnreported(item: Item, r: Reply): seq<Item> { if !r.outcome.Ok? && r.effect then [item] else [] }

  function IfEffect(item: Item, r: Reply): seq<Event> { if TookEffect(r) then [Puts(item)] else [] }

  function IfGone(item: Item, r: Reply): seq<Event> { if r.effect then [Takes(item)] else [] }

  // ---------- a successful creation ----------

  /** The ports and the image. */
  function Segment1(r: Replies): seq<Event> { Around(r(FindPorts), []) + Around(r(Pull), []) }

  function VolumeEvents(specs: seq<VolumeSpec>, k: nat, r: Replies): seq<Event>
    requires k <= |specs|
  {
    if k == 0 then []
    else
      var made := Around(r(NewVolume(k - 1)), IfEffect(Volume(specs[k - 1].name), r(NewVolume(k - 1))));
      VolumeEvents(specs, k - 1, r) + if specs[k - 1].create then made else []
  }

  /** Cleanup and volumes. */
  function Cleared(spec: Spec, r: Replies): seq<Event> {
    Around(r(OldContainer), IfGone(Container(spec.container), r(OldContainer))) + Around(r(StaleVolumes), [])
    + VolumeEvents(spec.volumes, |spec.volumes|, r)
  }

  function CapEvents(spec: Spec, r: Replies): seq<Event> {
    if TookEffect(r(SetCaps)) then [Puts(Caps(spec.job))] else [Takes(Caps(spec.job))]
  }

  /** Devices, caps and probes. */
  function Powered(spec: Spec, r: Replies): seq<Event> {
    Around(r(FindDevices), []) + (if spec.hasCaps then Around(r(SetCaps), CapEvents(spec, r)) else [])
    + Around(r(Probes), [])
  }

  function MountEvents(specs: seq<VolumeSpec>, k: nat, r: Replies): seq<Event>
    requires k <= |specs|
  {
    if k == 0 then []
    else MountEvents(specs, k - 1, r) + if specs[k - 1].encrypted then Around(r(Mount(k - 1)), []) else []
  }

  /** The container and its mounts. */
  function Segment3(spec: Spec, r: Replies): seq<Event> {
    Around(r(Run), IfEffect(Container(spec.container), r(Run))) + Around(r(WaitRunning), [])
    + MountEvents(spec.volumes, |spec.volumes|, r)
  }

  /** All that happens from the start of a successful creation to its end. */
  function Timeline(spec: Spec, hasStore: bool, r: Replies): seq<Event> {
    [Starts(spec.job)] + Segment1(r) + (Cleared(spec, r) + Powered(spec, r)) + Segment3(spec, r)
    + SavesRecord(spec, hasStore) + [Finishes(spec.job)]
  }

  predicate SmoothStart(spec: Spec, r: Replies) {
    && spec.valid && ((forall v | v in spec.volumes :: !v.encrypted) || spec.secretAvailable)
    && r(FindPorts).outcome.Ok? && r(Pull).outcome.Ok? && !r(OldContainer).outcome.Raised? && !r(StaleVolumes).outcome.Raised?
    && VolumesMade(spec.volumes, |spec.volumes|, r)
  }

  predicate VolumesMade(specs: seq<VolumeSpec>, k: nat, r: Replies)
    requires k <= |specs|
  {
    forall i: nat | i < k && specs[i].create :: r(NewVolume(i)).outcome.Ok?
  }

  predicate SmoothPower(spec: Spec, hasRecords: bool, r: Replies) {
    && r(FindDevices).outcome.Ok? && (spec.hasCaps ==> hasRecords && r(SetCaps).outcome.Ok?)
    && !r(Probes).outcome.Raised?
  }

  predicate AllMounted(specs: seq<VolumeSpec>, k: nat, r: Replies)
    requires k <= |specs|
  {
    forall i: nat | i < k && specs[i].encrypted :: r(Mount(i)).outcome.Ok?
  }

  predicate SmoothLaunch(spec: Spec, hasStore: bool, r: Replies) {
    && r(Run).outcome.Ok? && r(WaitRunning).outcome.Ok? && AllMounted(spec.volumes, |spec.volumes|, r)
    && (hasStore ==> !r(SaveRecord).outcome.Raised?)
  }

  /** Every command that has to report success does. */
  predicate Smooth(spec: Spec, hasRecords: bool, hasStore: bool, r: Replies) {
    SmoothStart(spec, r) && SmoothPower(spec, hasRecords, r) && SmoothLaunch(spec, hasStore, r)
  }

  /** The world at each of the three checkpoints that follow an await, from the world
      in which the creation has just started. */
  function AtFirst(w: World, r: Replies): World { Play(w, Segment1(r)) }

  function AtSecond(w: World, spec: Spec, r: Replies): World { Play(AtFirst(w, r), Cleared(spec, r) + Powered(spec, r)) }

  function AtThird(w: World, spec: Spec, r: Replies): World { Play(AtSecond(w, spec, r), Segment3(spec, r)) }

  /** No checkpoint sees a cancel. */
  predicate Uncancelled(w: World, spec: Spec, r: Replies) {
    && spec.job !in AtFirst(w, r).cancelled && spec.job !in AtSecond(w, spec, r).cancelled
    && spec.job !in AtThird(w, spec, r).cancelled
  }

  function SavesRecord(spec: Spec, hasStore: bool): seq<Event> {
    if hasStore then [Puts(Record(spec.job))] else []
  }

  /** The creation goes uncancelled exactly when no accepted cancel reaches the next
      checkpoint. */
  lemma UncancelledExactly(w: World, spec: Spec, r: Replies)
    requires spec.job !in w.cancelled
    ensures Uncancelled(w, spec, r) <==>
      && !Reaches(w, Segment1(r), spec.job)
      && !Reaches(AtFirst(w, r), Cleared(spec, r) + Powered(spec, r), spec.job)
      && !Reaches(AtSecond(w, spec, r), Segment3(spec, r), spec.job)
  {
    hide Segment1, Cleared, Powered, Segment3, Play, Reaches;
    var job := spec.job;
    SeenExactly(w, Segment1(r), job);
    if job !in AtFirst(w, r).cancelled {
      SeenExactly(AtFirst(w, r), Cleared(spec, r) + Powered(spec, r), job);
      if job !in AtSecond(w, spec, r).cancelled {
        SeenExactly(AtSecond(w, spec, r), Segment3(spec, r), job);
      }
    }
  }

  /** When creations of a job never overlap, as a caller can see to by asking
      `Inflight.active` first, every cancel during the creation is seen. */
  lemma WithoutOverlap(w: World, spec: Spec, r: Replies)
    requires spec.job in w.active && spec.job !in w.cancelled
    requires Undisturbed(Segment1(r), 0, spec.job) && Undisturbed(Cleared(spec, r) + Powered(spec, r), 0, spec.job)
    requires Undisturbed(Segment3(spec, r), 0, spec.job)
    ensures Uncancelled(w, spec, r) <==>
      && Cancels(spec.job) !in Segment1(r) && Cancels(spec.job) !in Cleared(spec, r) + Powered(spec, r)
      && Cancels(spec.job) !in Segment3(spec, r)
  {
    hide Segment1, Cleared, Powered, Segment3, Play;
    var job := spec.job;
    AloneSeen(w, Segment1(r), job);
    if job !in AtFirst(w, r).cancelled {
      AloneSeen(AtFirst(w, r), Cleared(spec, r) + Powered(spec, r), job);
      if job !in AtSecond(w, spec, r).cancelled {
        AloneSeen(AtSecond(w, spec, r), Segment3(spec, r), job);
      }
    }
  }

  /** The world once a successful creation has only its finish to do. */
  function Completed(w: World, spec: Spec, hasStore: bool, r: Replies): World {
    Play(AtThird(w, spec, r), SavesRecord(spec, hasStore))
  }

  lemma TimelineEnds(w: World, spec: Spec, hasStore: bool, r: Replies)
    ensures Play(w, Timeline(spec, hasStore, r)) == Do(Completed(Do(w, Starts(spec.job)), spec, hasStore, r), Finishes(spec.job))
  {
    hide Segment1, Cleared, Powered, Segment3, Play, SavesRecord;
    var job := spec.job;
    var a, b, c, d := [Starts(job)], Segment1(r), Cleared(spec, r) + Powered(spec, r), Segment3(spec, r);
    var e := SavesRecord(spec, hasStore);
    PlayOne(w, Starts(job));
    PlayConcat(w, a, b);
    PlayConcat(w, a + b, c);
    PlayConcat(w, a + b + c, d);
    PlayConcat(w, a + b + c + d, e);
    PlayConcat(w, a + b + c + d + e, [Finishes(job)]);
    PlayOne(Play(w, a + b + c + d + e), Finishes(job));
  }

  // ---------- the reference: stages until one does not pass ----------

  /** One stage of the `try` block: a check on the spot, a checkpoint, a command with
      what it does, what it makes, and whether the block goes on, or saving a record. */
  datatype Stage =
    | Local(passes: bool)
    | Checkpoint
    | Command(reply: Reply, own: seq<Event>, makes: seq<Item>, passes: bool)
    | Store(item: Item)

  /** The world so far; what was made and reported, and what was not reported; and
      whether the block still goes on. */
  datatype Trace = Trace(world: World, made: seq<Item>, late: seq<Item>, goes: bool)

  function Step(t: Trace, s: Stage, job: string): Trace {
    if !t.goes then t
    else
      match s
      case Local(passes) => t.(goes := passes)
      case Checkpoint => t.(goes := job !in t.world.cancelled)
      case Command(reply, own, makes, passes) =>
        Trace(Play(t.world, Around(reply, own)), t.made + (if reply.outcome.Ok? then makes else []),
              t.late + (if !reply.outcome.Ok? && reply.effect then makes else []), passes)
      case Store(item) => t.(world := Do(t.world, Puts(item)))
  }

  function Fold(t: Trace, stages: seq<Stage>, job: string): Trace
    decreases |stages|
  {
    if stages == [] then t else Fold(Step(t, stages[0], job), stages[1..], job)
  }

  lemma {:induction false} FoldConcat(t: Trace, a: seq<Stage>, b: seq<Stage>, job: string)
    ensures Fold(t, a + b, job) == Fold(Fold(t, a, job), b, job)
    decreases |a|
  {
    if a == [] {
      assert a + b == b;
    } else {
      assert (a + b)[1..] == a[1..] + b;
      FoldConcat(Step(t, a[0], job), a[1..], b, job);
    }
  }

  lemma {:induction false} FoldStops(t: Trace, stages: seq<Stage>, job: string)
    requires !t.goes
    ensures Fold(t, stages, job) == t
    decreases |stages|
  {
    if stages != [] { FoldStops(t, stages[1..], job); }
  }

  function Plain(r: Reply, passes: bool): Stage { Command(r, [], [], passes) }

  function VolumeStage(v: VolumeSpec, r: Reply): seq<Stage> {
    if v.create then [Command(r, IfEffect(Volume(v.name), r), [Volume(v.name)], r.outcome.Ok?)] else []
  }

  function VolumeStages(specs: seq<VolumeSpec>, k: nat, r: Replies): seq<Stage>
    requires k <= |specs|
  {
    if k == 0 then [] else VolumeStages(specs, k - 1, r) + VolumeStage(specs[k - 1], r(NewVolume(k - 1)))
  }

  lemma {:induction false} VolumesStop(t: Trace, specs: seq<VolumeSpec>, k: nat, n: nat, r: Replies, job: string)
    requires k <= n <= |specs| && !Fold(t, VolumeStages(specs, k, r), job).goes
    ensures Fold(t, VolumeStages(specs, n, r), job) == Fold(t, VolumeStages(specs, k, r), job)
    decreases n
  {
    hide Fold, VolumeStage;
    if k < n {
      VolumesStop(t, specs, k, n - 1, r, job);
      FoldConcat(t, VolumeStages(specs, n - 1, r), VolumeStage(specs[n - 1], r(NewVolume(n - 1))), job);
      FoldStops(Fold(t, VolumeStages(specs, n - 1, r), job), VolumeStage(specs[n - 1], r(NewVolume(n - 1))), job);
    }
  }

  function PrepareStages(spec: Spec, r: Replies): seq<Stage> {
    [ Local(spec.valid), Local((forall v | v in spec.volumes :: !v.encrypted) || spec.secretAvailable), Checkpoint,
      Plain(r(FindPorts), r(FindPorts).outcome.Ok?), Plain(r(Pull), r(Pull).outcome.Ok?), Checkpoint,
      Command(r(OldContainer), IfGone(Container(spec.container), r(OldContainer)), [], !r(OldContainer).outcome.Raised?),
      Plain(r(StaleVolumes), !r(StaleVolumes).outcome.Raised?) ]
    + VolumeStages(spec.volumes, |spec.volumes|, r)
  }

  function CapStages(spec: Spec, hasRecords: bool, r: Replies): seq<Stage> {
    if !spec.hasCaps then []
    else [Local(hasRecords), Command(r(SetCaps), CapEvents(spec, r), [Caps(spec.job)], r(SetCaps).outcome.Ok?)]
  }

  function PowerStages(spec: Spec, hasRecords: bool, r: Replies): seq<Stage> {
    [Plain(r(FindDevices), r(FindDevices).outcome.Ok?)] + CapStages(spec, hasRecords, r)
    + [Plain(r(Probes), !r(Probes).outcome.Raised?)]
  }

  function MountStage(v: VolumeSpec, r: Reply): seq<Stage> {
    if v.encrypted then [Plain(r, r.outcome.Ok?)] else []
  }

  function MountStages(specs: seq<VolumeSpec>, k: nat, r: Replies): seq<Stage>
    requires k <= |specs|
  {
    if k == 0 then [] else MountStages(specs, k - 1, r) + MountStage(specs[k - 1], r(Mount(k - 1)))
  }

  lemma {:induction false} MountsStop(t: Trace, specs: seq<VolumeSpec>, k: nat, n: nat, r: Replies, job: string)
    requires k <= n <= |specs| && !Fold(t, MountStages(specs, k, r), job).goes
    ensures Fold(t, MountStages(specs, n, r), job) == Fold(t, MountStages(specs, k, r), job)
    decreases n
  {
    hide Fold, MountStage;
    if k < n {
      MountsStop(t, specs, k, n - 1, r, job);
      FoldConcat(t, MountStages(specs, n - 1, r), MountStage(specs[n - 1], r(Mount(n - 1))), job);
      FoldStops(Fold(t, MountStages(specs, n - 1, r), job), MountStage(specs[n - 1], r(Mount(n - 1))), job);
    }
  }

  function StoreStages(spec: Spec, hasStore: bool, r: Replies): seq<Stage> {
    if hasStore then [Local(!r(SaveRecord).outcome.Raised?), Store(Record(spec.job))] else []
  }

  function LaunchStages(spec: Spec, hasStore: bool, r: Replies): seq<Stage> {
    var item := Container(spec.container);
    [ Checkpoint, Command(r(Run), IfEffect(item, r(Run)), [item], r(Run).outcome.Ok?),
      Plain(r(WaitRunning), r(WaitRunning).outcome.Ok?) ]
    + MountStages(spec.volumes, |spec.volumes|, r) + ([Checkpoint] + StoreStages(spec, hasStore, r))
  }

  function Stages(spec: Spec, hasRecords: bool, hasStore: bool, r: Replies): seq<Stage> {
    PrepareStages(spec, r) + PowerStages(spec, hasRecords, r) + LaunchStages(spec, hasStore, r)
  }

  /** How far a creation that has just started gets. */
  function Tried(w: World, spec: Spec, hasRecords: bool, hasStore: bool, r: Replies): Trace {
    Fold(Trace(w, [], [], true), Stages(spec, hasRecords, hasStore, r), spec.job)
  }

  function DestroyEvents(names: seq<string>, k: nat, r: Replies): seq<Event>
    requires k <= |names|
  {
    if k == 0 then []
    else
      var gone := Around(r(DropVolume(k - 1)), IfGone(Volume(names[k - 1]), r(DropVolume(k - 1))));
      DestroyEvents(names, k - 1, r) + gone
  }

  /** The rollback raises while it puts the caps back. */
  predicate RollbackRaises(p: Progress, r: Replies) { p.capped && r(DropCaps).outcome.Raised? }

  /** What `_rollback` does, and what happens around it. */
  function RollbackEvents(spec: Spec, p: Progress, r: Replies): seq<Event> {
    (if p.launched then Around(r(DropContainer), IfGone(Container(spec.container), r(DropContainer))) else [])
    + (if p.capped then Around(r(DropCaps), IfGone(Caps(spec.job), r(DropCaps))) else [])
    + (if RollbackRaises(p, r) then [] else DestroyEvents(p.created, |p.created|, r) + Around(r(Sweep), []))
  }

  predicate MadeNothing(p: Progress) { !p.launched && !p.capped && p.created == [] }

  /** A rolled-back creation forgets the record when the job was cancelled by the time
      the `try` block ended. */
  predicate Forgets(t: Trace, spec: Spec, hasStore: bool, p: Progress, r: Replies) {
    !t.goes && !MadeNothing(p) && !RollbackRaises(p, r) && hasStore && spec.job in t.world.cancelled
  }

  /** The world when `create` is over, from how far the block got. */
  function Ended(t: Trace, spec: Spec, hasStore: bool, p: Progress, r: Replies): World {
    if t.goes || MadeNothing(p) then Do(t.world, Finishes(spec.job))
    else
      var undone := Play(t.world, RollbackEvents(spec, p, r));
      if RollbackRaises(p, r) then undone
      else Do(if Forgets(t, spec, hasStore, p, r) then Do(undone, Takes(Record(spec.job))) else undone, Finishes(spec.job))
  }

  /** What was made names the progress: nothing else is in a trace. */
  lemma MadeDetermines(spec: Spec, p: Progress, q: Progress)
    requires Made(spec, p.launched, p.capped, p.created) == Made(spec, q.launched, q.capped, q.created)
    ensures p.launched == q.launched && p.capped == q.capped && p.created == q.created
  {
    var a, b := Made(spec, p.launched, p.capped, p.created), Made(spec, q.launched, q.capped, q.created);
    assert p.launched <==> Container(spec.container) in a by { MadeMembers(spec, p); }
    assert p.capped <==> Caps(spec.job) in a by { MadeMembers(spec, p); }
    MadeMembers(spec, q);
    assert |p.created| == |q.created|;
    forall i | 0 <= i < |p.created| ensures p.created[i] == q.created[i] {
      assert a[i] == Volume(p.created[i]) && b[i] == Volume(q.created[i]);
    }
  }

  lemma MadeMembers(spec: Spec, p: Progress)
    ensures var a := Made(spec, p.launched, p.capped, p.created);
      && (p.launched <==> Container(spec.container) in a) && (p.capped <==> Caps(spec.job) in a)
      && forall v :: v in p.created <==> Volume(v) in a
  {
    var a := Made(spec, p.launched, p.capped, p.created);
    if p.launched { assert a[|a| - 1] == Container(spec.container); }
    if p.capped { assert a[|p.created|] == Caps(spec.job); }
    forall v | v in p.created ensures Volume(v) in a {
      var i :| 0 <= i < |p.created| && p.created[i] == v;
      assert a[i] == Volume(v);
    }
  }

  // ---------- accounts ----------

  function VolumeItems(names: seq<string>): seq<Item> {
    seq(|names|, i requires 0 <= i < |names| => Volume(names[i]))
  }

  /** Everything a creation that got this far owes to rollback, in its order. */
  function Owed(spec: Spec, launched: bool, capped: bool, created: seq<string>): seq<Item> {
    (if launched then [Container(spec.container)] else [])
    + (if capped then [Caps(spec.job)] else [])
    + VolumeItems(created)
  }

  /** What a creation that got this far has made, in the order it made it. */
  function Made(spec: Spec, launched: bool, capped: bool, created: seq<string>): seq<Item> {
    VolumeItems(created) + (if capped then [Caps(spec.job)] else [])
    + (if launched then [Container(spec.container)] else [])
  }

  /** What is owed is what was made, each thing once. */
  lemma OwedIsMade(spec: Spec, launched: bool, capped: bool, created: seq<string>)
    ensures multiset(Owed(spec, launched, capped, created)) == multiset(Made(spec, launched, capped, created))
    ensures Owed(spec, launched, capped, created) == [] <==> !launched && !capped && created == []
  {
  }

  /** What was made since is what was handed over since, each thing once. */
  ghost predicate EachOnce(handedBefore: seq<Item>, handed: seq<Item>, madeBefore: seq<Item>, made: seq<Item>) {
    && handedBefore <= handed && madeBefore <= made
    && multiset(handed[|handedBefore|..]) == multiset(made[|madeBefore|..])
  }

  /** With e unreported items beside what was made, what is handed over is all that
      took effect exactly when there are none, and the volumes were not left. */
  lemma HandedOver(handed: seq<Item>, before: seq<Item>, after: seq<Item>, unreported: multiset<Item>,
                   spec: Spec, launched: bool, capped: bool, created: seq<string>, raised: bool)
    requires before <= after
    requires multiset(after[|before|..]) == multiset(Made(spec, launched, capped, created)) + unreported
    ensures EachOnce(handed, handed + Owed(spec, launched, capped, if raised then [] else created), before, after) <==>
      unreported == multiset{} && (raised ==> created == [])
  {
    hide Owed, Made;
    var owed := Owed(spec, launched, capped, if raised then [] else created);
    assert (handed + owed)[|handed|..] == owed;
    OwedIsMade(spec, launched, capped, created);
    if raised { OwedVolumes(spec, launched, capped, created); }
    assert |multiset(owed)| + (if raised then |created| else 0) + |unreported| == |multiset(after[|before|..])|;
  }

  lemma OwedVolumes(spec: Spec, launched: bool, capped: bool, created: seq<string>)
    ensures |Owed(spec, launched, capped, created)| == |Owed(spec, launched, capped, [])| + |created|
    ensures created == [] ==> Owed(spec, launched, capped, created) == Owed(spec, launched, capped, [])
  {
  }

  /** The names of the volumes to create among the first k of a spec. */
  function ToCreate(volumes: seq<VolumeSpec>, k: nat): seq<string>
    requires k <= |volumes|
  {
    if k == 0 then []
    else ToCreate(volumes, k - 1) + if volumes[k - 1].create then [volumes[k - 1].name] else []
  }

  /** A mark a creation leaves in the store or in `Inflight`. */
  datatype Mark = Saved(job: string) | Forgotten(job: string) | Finished(job: string)

  /** Every volume, cap and container that commands made, those whose command
      reported it, the others, every item handed to rollback, and every mark. */
  datatype History = History(effects: seq<Item>, made: seq<Item>, unreported: seq<Item>, handed: seq<Item>, marks: seq<Mark>)

  function Grown(h: History, made: seq<Item>, late: seq<Item>): History {
    h.(effects := h.effects + made + late, made := h.made + made, unreported := h.unreported + late)
  }

  lemma GrownTwice(h: History, a: seq<Item>, b: seq<Item>, late: seq<Item>)
    ensures Grown(Grown(h, a, []), b, late) == Grown(h, a + b, late)
  {
    assert h.effects + a + [] + b + late == h.effects + (a + b) + late;
    assert h.made + a + b == h.made + (a + b);
    assert h.unreported + [] + late == h.unreported + late;
  }

  lemma GrownNot(h: History)
    ensures Grown(h, [], []) == h
  {
  }

  datatype Progress = Progress(launched: bool, capped: bool, created: seq<string>, succeeded: bool)

  /** What a failed creation handed over, in the order of `_rollback`: everything
      reported made, or all but the volumes when the rollback itself raised. */
  ghost predicate HandsOver(spec: Spec, p: Progress, raised: bool, h: History, now: History) {
    && now.handed == h.handed + Owed(spec, p.launched, p.capped, if raised then [] else p.created)
    && (!raised ==> EachOnce(h.handed, now.handed, h.made, now.made))
  }

  /** What took effect is what was handed over exactly when every command that took
      effect reported it, and no rollback that raised left volumes behind. */
  ghost predicate EffectsHandedOver(p: Progress, late: seq<Item>, raised: bool, h: History, now: History) {
    EachOnce(h.handed, now.handed, h.effects, now.effects) <==> late == [] && (raised ==> p.created == [])
  }

  /** The record is saved by a success only; it is forgotten by a rollback that is
      done and finds the job cancelled, so a cancel before anything is made leaves
      an older one; and only a rollback that raised leaves the job unfinished. */
  function MarksOf(spec: Spec, hasStore: bool, p: Progress, atEnd: bool, raised: bool): seq<Mark> {
    (if p.succeeded && hasStore then [Saved(spec.job)] else []) + EndMarks(spec, hasStore, p, atEnd, raised)
  }

  function EndMarks(spec: Spec, hasStore: bool, p: Progress, atEnd: bool, raised: bool): seq<Mark> {
    (if !p.succeeded && atEnd && hasStore && !raised && (p.launched || p.capped || p.created != []) then [Forgotten(spec.job)] else [])
    + (if raised then [] else [Finished(spec.job)])
  }

  /** Nothing else happens, and every command but setting the caps reports success. */
  ghost predicate Quiet(r: Replies) {
    forall p :: r(p).before == r(p).after == [] && (p.SetCaps? || r(p).outcome.Ok?)
  }

  /** The creation gets as far as its caps, which do not report success. */
  ghost predicate FailsAtCaps(spec: Spec, hasRecords: bool, r: Replies) {
    Quiet(r) && spec.valid && spec.secretAvailable && spec.hasCaps && hasRecords && !r(SetCaps).outcome.Ok?
  }
}
