/** Job creation on an abstract rig. A creation awaits its commands one by one;
    around each command's effect any number of other things may happen: creations
    of any job start and finish, cancels arrive, and containers, caps, volumes and
    records come and go. Everything is proved for all of it. */
module JobCreation {
  import opened CreationWorld
  import opened CreationPlan
  import opened CreationStages
  import opened CreationOutcomes

  class Host {
    var active: set<string>
    var cancelled: set<string>
    var present: set<Item>
    ghost var history: History

    constructor ()
      ensures View() == World({}, {}, {}) && history == History([], [], [], [], [])
    {
      active, cancelled, present := {}, {}, {};
      history := History([], [], [], [], []);
    }

    function View(): World
      reads this
    {
      World(active, cancelled, present)
    }

    // ---------- Inflight ----------

    method Start(job: string)
      modifies this`active, this`cancelled
      ensures View() == Do(old(View()), Starts(job))
    {
      cancelled := cancelled - {job};
      active := active + {job};
    }

    method Finish(job: string)
      modifies this`active, this`cancelled
      ensures View() == Do(old(View()), Finishes(job))
    {
      active := active - {job};
      cancelled := cancelled - {job};
    }

    /** True exactly when the job is being created; then it counts as cancelled. */
    method Cancel(job: string) returns (accepted: bool)
      modifies this`cancelled
      ensures accepted == (job in active) && View() == Do(old(View()), Cancels(job))
    {
      accepted := job in active;
      if accepted { cancelled := cancelled + {job}; }
    }

    // ---------- commands ----------

    method Happen(e: Event)
      modifies this`active, this`cancelled, this`present
      ensures View() == Do(old(View()), e)
    {
      match e
      case Starts(job) => Start(job);
      case Finishes(job) => Finish(job);
      case Cancels(job) => var _ := Cancel(job);
      case Puts(item) => present := present + {item};
      case Takes(item) => present := present - {item};
    }

    /** A command that itself does `own`. */
    method Await(r: Reply, own: seq<Event>)
      modifies this`active, this`cancelled, this`present
      ensures View() == Play(old(View()), Around(r, own))
    {
      hide Do;
      ghost var start := View();
      var es := r.before + own + r.after;
      for i := 0 to |es|
        invariant View() == Play(start, es[..i])
      {
        assert es[..i + 1][..i] == es[..i];
        Happen(es[i]);
      }
      assert es[..|es|] == es;
    }

    // ---------- rollback ----------

    method Undo(item: Item, r: Reply)
      modifies this`active, this`cancelled, this`present, this`history
      ensures View() == Play(old(View()), Around(r, IfGone(item, r)))
      ensures history == old(history).(handed := old(history).handed + [item])
    {
      Await(r, IfGone(item, r));
      history := history.(handed := history.handed + [item]);
    }

    method DestroyVolumes(names: seq<string>, r: Replies)
      modifies this`active, this`cancelled, this`present, this`history
      ensures View() == Play(old(View()), DestroyEvents(names, |names|, r))
      ensures history == old(history).(handed := old(history).handed + VolumeItems(names))
    {
      hide Play;
      ghost var start, w := history, View();
      PlayNothing(w);
      for i := 0 to |names|
        invariant View() == Play(w, DestroyEvents(names, i, r))
        invariant history == start.(handed := start.handed + VolumeItems(names[..i]))
      {
        Undo(Volume(names[i]), r(DropVolume(i)));
        PlayConcat(w, DestroyEvents(names, i, r), Around(r(DropVolume(i)), IfGone(Volume(names[i]), r(DropVolume(i)))));
        assert VolumeItems(names[..i + 1]) == VolumeItems(names[..i]) + [Volume(names[i])];
      }
      assert names[..|names|] == names;
    }

    /** `_rollback`: hands over the container, the caps, then each volume. When
        putting the caps back raises, the rollback ends there. */
    method Rollback(spec: Spec, launched: bool, wasCapped: bool, created: seq<string>, r: Replies) returns (raised: bool)
      modifies this`active, this`cancelled, this`present, this`history
      ensures raised <==> wasCapped && r(DropCaps).outcome.Raised?
      ensures View() == Play(old(View()), RollbackEvents(spec, Progress(launched, wasCapped, created, false), r))
      ensures history == old(history).(handed :=
        old(history).handed + Owed(spec, launched, wasCapped, if raised then [] else created))
    {
      hide Play, Around, DestroyEvents, IfGone;
      ghost var w := View();
      raised := false;
      ghost var a := if launched then Around(r(DropContainer), IfGone(Container(spec.container), r(DropContainer))) else [];
      ghost var b := if wasCapped then Around(r(DropCaps), IfGone(Caps(spec.job), r(DropCaps))) else [];
      PlayNothing(w);
      if launched { Undo(Container(spec.container), r(DropContainer)); }
      PlayConcat(w, a, b);
      PlayNothing(View());
      if wasCapped {
        Undo(Caps(spec.job), r(DropCaps));
        if r(DropCaps).outcome.Raised? {
          assert a + b + [] == a + b;
          return true;
        }
      }
      DestroyVolumes(created, r);
      Await(r(Sweep), []);
      PlayConcat(w, a + b, DestroyEvents(created, |created|, r) + Around(r(Sweep), []));
      PlayConcat(Play(w, a + b), DestroyEvents(created, |created|, r), Around(r(Sweep), []));
    }

    // ---------- `create` ----------

    /** The volume loop; it stops at the first volume that is not created. */
    method CreateVolumes(specs: seq<VolumeSpec>, r: Replies, ghost t: Trace, ghost job: string)
      returns (all: bool, created: seq<string>, ghost late: seq<Item>, ghost now: Trace)
      requires t.goes && t.world == View()
      modifies this`active, this`cancelled, this`present, this`history
      ensures now == Fold(t, VolumeStages(specs, |specs|, r), job)
      ensures now == Trace(View(), t.made + VolumeItems(created), t.late + late, all)
      ensures all <==> VolumesMade(specs, |specs|, r)
      ensures all ==> View() == Play(old(View()), VolumeEvents(specs, |specs|, r))
      ensures all ==> created == ToCreate(specs, |specs|) && late == []
      ensures exists k | 0 <= k <= |specs| :: created == ToCreate(specs, k)
      ensures history == Grown(old(history), VolumeItems(created), late)
    {
      hide Around, Grown, IfEffect, Play, VolumeEvents, Fold, VolumeStages, VolumesMade;
      created, late, now := [], [], t;
      ghost var h := history;
      NoStages(t, specs, r, job);
      GrownNot(h);
      assert VolumeItems([]) == [] && t.made + [] == t.made && t.late + [] == t.late;
      for k := 0 to |specs|
        invariant now == Fold(t, VolumeStages(specs, k, r), job)
        invariant now == Trace(View(), t.made + VolumeItems(created), t.late, true) && late == []
        invariant created == ToCreate(specs, k)
        invariant history == Grown(h, VolumeItems(created), [])
      {
        if specs[k].create {
          var reply, item := r(NewVolume(k)), Volume(specs[k].name);
          Await(reply, IfEffect(item, reply));
          VolumeStep(t, specs, k, r, job);
          now := Fold(t, VolumeStages(specs, k + 1, r), job);
          if !reply.outcome.Ok? {
            late := IfUnreported(item, reply);
            assert t.made + VolumeItems(created) + [] == t.made + VolumeItems(created) && VolumeItems(created) + [] == VolumeItems(created);
            history := Grown(history, [], late);
            GrownTwice(h, VolumeItems(created), [], late);
            VolumesStop(t, specs, k + 1, |specs|, r, job);
            VolumesFold(t, specs, |specs|, r, job);
            return false, created, late, now;
          }
          history := Grown(history, [item], []);
          GrownTwice(h, VolumeItems(created), [item], []);
          OneMoreVolume(t.made, created, specs[k].name);
          created := created + [specs[k].name];
        } else {
          VolumeSkipped(specs, k, r);
        }
      }
      VolumesFold(t, specs, |specs|, r, job);
      all := true;
    }

    /** Mounting each encrypted volume inside the running container. */
    method MountEncrypted(specs: seq<VolumeSpec>, r: Replies, ghost t: Trace, ghost job: string)
      returns (all: bool, ghost now: Trace)
      requires t.goes && t.world == View()
      modifies this`active, this`cancelled, this`present
      ensures now == Fold(t, MountStages(specs, |specs|, r), job) && now == t.(world := View(), goes := all)
      ensures all <==> AllMounted(specs, |specs|, r)
      ensures all ==> View() == Play(old(View()), MountEvents(specs, |specs|, r))
    {
      hide Around, Play, MountEvents, Fold, MountStages, AllMounted;
      now := t;
      NoStages(t, specs, r, job);
      for k := 0 to |specs|
        invariant now == Fold(t, MountStages(specs, k, r), job) && now == t.(world := View())
      {
        if specs[k].encrypted {
          Await(r(Mount(k)), []);
          MountStep(t, specs, k, r, job);
          now := Fold(t, MountStages(specs, k + 1, r), job);
          assert t.made + [] == t.made && t.late + [] == t.late;
          if !r(Mount(k)).outcome.Ok? {
            MountsStop(t, specs, k + 1, |specs|, r, job);
            MountsFold(t, specs, |specs|, r, job);
            return false, now;
          }
        } else {
          MountSkipped(specs, k, r);
        }
      }
      MountsFold(t, specs, |specs|, r, job);
      all := true;
    }

    /** The `try` block up to the volumes: checks, ports, image, cleanup. */
    method Prepare(spec: Spec, r: Replies, ghost t: Trace)
      returns (go: bool, created: seq<string>, ghost late: seq<Item>, ghost now: Trace)
      requires t.goes && t.world == View()
      modifies this`active, this`cancelled, this`present, this`history
      ensures now == Fold(t, PrepareStages(spec, r), spec.job)
      ensures now == Trace(View(), t.made + VolumeItems(created), t.late + late, go)
      ensures go <==> (SmoothStart(spec, r) && spec.job !in old(cancelled)
                       && spec.job !in Play(old(View()), Segment1(r)).cancelled)
      ensures go ==> View() == Play(Play(old(View()), Segment1(r)), Cleared(spec, r))
      ensures go ==> created == ToCreate(spec.volumes, |spec.volumes|) && late == []
      ensures exists k | 0 <= k <= |spec.volumes| :: created == ToCreate(spec.volumes, k)
      ensures history == Grown(old(history), VolumeItems(created), late)
    {
      hide Around, Grown, Play, IfGone, VolumesMade, VolumeEvents, VolumeStages, Fold, PrepareStages;
      go, created, late := false, [], [];
      assert created == ToCreate(spec.volumes, 0) && VolumeItems(created) == [];
      assert t.made + [] == t.made && t.late + [] == t.late;
      GrownNot(history);
      PrepareFold(t, spec, r);
      now := t.(goes := false);
      if !spec.valid { return; }
      if (exists v | v in spec.volumes :: v.encrypted) && !spec.secretAvailable { return; }
      if spec.job in cancelled { return; }
      ghost var w := View();
      Await(r(FindPorts), []);
      now := Trace(View(), t.made, t.late, false);
      if !r(FindPorts).outcome.Ok? { return; }
      Await(r(Pull), []);
      now := Trace(View(), t.made, t.late, false);
      if !r(Pull).outcome.Ok? { return; }
      PlayConcat(w, Around(r(FindPorts), []), Around(r(Pull), []));
      if spec.job in cancelled { return; }
      w := View();
      Await(r(OldContainer), IfGone(Container(spec.container), r(OldContainer)));
      now := Trace(View(), t.made, t.late, false);
      if r(OldContainer).outcome.Raised? { return; }
      Await(r(StaleVolumes), []);
      now := Trace(View(), t.made, t.late, false);
      if r(StaleVolumes).outcome.Raised? { return; }
      now := Trace(View(), t.made, t.late, true);
      go, created, late, now := CreateVolumes(spec.volumes, r, now, spec.job);
      var a, b := Around(r(OldContainer), IfGone(Container(spec.container), r(OldContainer))), Around(r(StaleVolumes), []);
      PlayConcat(w, a, b);
      PlayConcat(w, a + b, VolumeEvents(spec.volumes, |spec.volumes|, r));
    }

    /** Its devices and power steps. */
    method Power(spec: Spec, hasRecords: bool, r: Replies, ghost t: Trace)
      returns (go: bool, isCapped: bool, ghost late: seq<Item>, ghost now: Trace)
      requires t.goes && t.world == View()
      modifies this`active, this`cancelled, this`present, this`history
      ensures now == Fold(t, PowerStages(spec, hasRecords, r), spec.job)
      ensures now == Trace(View(), t.made + (if isCapped then [Caps(spec.job)] else []), t.late + late, go)
      ensures isCapped <==> spec.hasCaps && hasRecords && r(FindDevices).outcome.Ok? && r(SetCaps).outcome.Ok?
      ensures go <==> SmoothPower(spec, hasRecords, r)
      ensures go ==> View() == Play(old(View()), Powered(spec, r)) && isCapped == spec.hasCaps && late == []
      ensures isCapped ==> late == []
      ensures history == Grown(old(history), if isCapped then [Caps(spec.job)] else [], late)
      ensures FailsAtCaps(spec, hasRecords, r) ==>
        !isCapped && late == IfUnreported(Caps(spec.job), r(SetCaps)) && (Caps(spec.job) in present <==> r(SetCaps).effect)
    {
      hide Around, Grown, Play, Quiet, Fold, PowerStages;
      go, isCapped, late := false, false, [];
      GrownNot(history);
      assert t.made + [] == t.made && t.late + [] == t.late;
      PowerFold(t, spec, hasRecords, r);
      ghost var w := View();
      Await(r(FindDevices), []);
      now := Trace(View(), t.made, t.late, false);
      if !r(FindDevices).outcome.Ok? {
        if FailsAtCaps(spec, hasRecords, r) { QuietOk(r, FindDevices); }
        return;
      }
      ghost var es := Around(r(FindDevices), []);
      if spec.hasCaps {
        if !hasRecords { return; }
        ghost var before := View();
        Await(r(SetCaps), CapEvents(spec, r));
        if !r(SetCaps).outcome.Ok? {
          late := IfUnreported(Caps(spec.job), r(SetCaps));
          history := Grown(history, [], late);
          now := Trace(View(), t.made, t.late + late, false);
          if Quiet(r) { QuietCaps(before, spec, r); }
          return;
        }
        isCapped := true;
        history := Grown(history, [Caps(spec.job)], []);
        PlayConcat(w, es, Around(r(SetCaps), CapEvents(spec, r)));
        es := es + Around(r(SetCaps), CapEvents(spec, r));
      } else {
        assert es + [] == es;
        es := es + [];
      }
      Await(r(Probes), []);
      PlayConcat(w, es, Around(r(Probes), []));
      go := !r(Probes).outcome.Raised?;
      now := Trace(View(), t.made + (if isCapped then [Caps(spec.job)] else []), t.late, go);
    }

    /** Its run, mount and record steps. */
    method Launch(spec: Spec, hasStore: bool, r: Replies, ghost t: Trace)
      returns (launched: bool, succeeded: bool, ghost late: seq<Item>, ghost now: Trace)
      requires t.goes && t.world == View()
      modifies this`active, this`cancelled, this`present, this`history
      ensures now == Fold(t, LaunchStages(spec, hasStore, r), spec.job)
      ensures now == Trace(View(), t.made + (if launched then [Container(spec.container)] else []), t.late + late, succeeded)
      ensures succeeded <==> (SmoothLaunch(spec, hasStore, r) && spec.job !in old(cancelled)
                              && spec.job !in Play(old(View()), Segment3(spec, r)).cancelled)
      ensures succeeded ==> View() == Play(Play(old(View()), Segment3(spec, r)), SavesRecord(spec, hasStore))
      ensures succeeded ==> launched && spec.job !in cancelled
      ensures launched ==> late == []
      ensures history == Grown(old(history), if launched then [Container(spec.container)] else [], late).(marks :=
        old(history).marks + if succeeded && hasStore then [Saved(spec.job)] else [])
    {
      hide Around, Play, AllMounted, MountEvents, MountStages, Fold, LaunchStages;
      launched, succeeded, late := false, false, [];
      GrownNot(history);
      assert t.made + [] == t.made && t.late + [] == t.late;
      LaunchFold(t, spec, hasStore, r);
      now := t.(goes := false);
      if spec.job in cancelled { return; }
      ghost var w := View();
      var item := Container(spec.container);
      Await(r(Run), IfEffect(item, r(Run)));
      if !r(Run).outcome.Ok? {
        late := IfUnreported(item, r(Run));
        history := Grown(history, [], late);
        now := Trace(View(), t.made, t.late + late, false);
        return;
      }
      launched := true;
      history := Grown(history, [item], []);
      Await(r(WaitRunning), []);
      now := Trace(View(), t.made + [item], t.late, false);
      if !r(WaitRunning).outcome.Ok? { return; }
      now := Trace(View(), t.made + [item], t.late, true);
      var mounted;
      mounted, now := MountEncrypted(spec.volumes, r, now, spec.job);
      LaunchEnds(now, spec, hasStore, r);
      if !mounted { return; }
      var a, b := Around(r(Run), IfEffect(item, r(Run))), Around(r(WaitRunning), []);
      PlayConcat(w, a, b);
      PlayConcat(w, a + b, MountEvents(spec.volumes, |spec.volumes|, r));
      now := now.(goes := false);
      if spec.job in cancelled { return; }
      w := View();
      PlayNothing(w);
      PlayOne(w, Puts(Record(spec.job)));
      if hasStore {
        if r(SaveRecord).outcome.Raised? { return; }
        Happen(Puts(Record(spec.job)));
        history := history.(marks := history.marks + [Saved(spec.job)]);
      }
      succeeded := true;
      now := now.(world := View(), goes := true);
    }

    /** The `try` block: whether by return, by `_checkpoint` or by an exception, it
        ends with what it did so far. `hasRecords` and `hasStore` say whether the
        caller passed a records file and a store. */
    method Attempt(spec: Spec, hasRecords: bool, hasStore: bool, r: Replies)
      returns (p: Progress, ghost late: seq<Item>, ghost now: Trace)
      modifies this`active, this`cancelled, this`present, this`history
      ensures now == Tried(old(View()), spec, hasRecords, hasStore, r)
      ensures now == Trace(View(), Made(spec, p.launched, p.capped, p.created), late, p.succeeded)
      ensures p.succeeded <==> (Smooth(spec, hasRecords, hasStore, r) && spec.job !in old(cancelled)
                                && Uncancelled(old(View()), spec, r))
      ensures p.succeeded ==> View() == Completed(old(View()), spec, hasStore, r)
      ensures p.succeeded ==> p.launched && p.capped == spec.hasCaps && p.created == ToCreate(spec.volumes, |spec.volumes|)
      ensures p.succeeded ==> spec.job !in cancelled && late == []
      ensures exists k | 0 <= k <= |spec.volumes| :: p.created == ToCreate(spec.volumes, k)
      ensures history == Grown(old(history), Made(spec, p.launched, p.capped, p.created), late).(marks :=
        old(history).marks + if p.succeeded && hasStore then [Saved(spec.job)] else [])
      ensures FailsAtCaps(spec, hasRecords, r) && spec.job !in old(cancelled) ==>
        && !p.succeeded && !p.capped && !p.launched && late == IfUnreported(Caps(spec.job), r(SetCaps))
        && (Caps(spec.job) in present <==> r(SetCaps).effect)
    {
      hide VolumeItems, ToCreate, Quiet, IfUnreported, Play, Segment1, Segment3, Cleared, Powered;
      hide SmoothStart, SmoothPower, SmoothLaunch, Grown, Fold, PrepareStages, PowerStages, LaunchStages;
      ghost var w, h, job := View(), history, spec.job;
      if FailsAtCaps(spec, hasRecords, r) { QuietStart(w, spec, r); }
      ghost var first, second, third := PrepareStages(spec, r), PowerStages(spec, hasRecords, r), LaunchStages(spec, hasStore, r);
      now := Trace(w, [], [], true);
      FoldConcat(now, first + second, third, job);
      FoldConcat(now, first, second, job);
      var go, created;
      go, created, late, now := Prepare(spec, r, now);
      p := Progress(false, false, created, false);
      MadeSoFar(spec, h, created, late);
      GrownMarks(h);
      assert [] + late == late && [] + VolumeItems(created) == VolumeItems(created);
      if !go {
        FoldStops(now, second, job);
        FoldStops(now, third, job);
        return;
      }
      var isCapped;
      PlayConcat(Play(w, Segment1(r)), Cleared(spec, r), Powered(spec, r));
      go, isCapped, late, now := Power(spec, hasRecords, r, now);
      p := p.(capped := isCapped);
      MadeMore(spec, h, created, isCapped, late);
      assert [] + late == late;
      if !go {
        FoldStops(now, third, job);
        return;
      }
      var launched, succeeded;
      launched, succeeded, late, now := Launch(spec, hasStore, r, now);
      p := Progress(launched, isCapped, created, succeeded);
      MadeAll(spec, h, created, isCapped, launched, late);
      assert [] + late == late;
    }

    /** The `finally` block. When the rollback raises it ends there. */
    method Finally(spec: Spec, hasStore: bool, r: Replies, p: Progress, ghost t: Trace) returns (raised: bool)
      requires t.world == View() && t.goes == p.succeeded && (p.succeeded ==> spec.job !in cancelled)
      modifies this`active, this`cancelled, this`present, this`history
      ensures View() == Ended(t, spec, hasStore, p, r)
      ensures raised <==> !p.succeeded && RollbackRaises(p, r)
      ensures history == old(history).(
        handed := old(history).handed
          + (if p.succeeded then [] else Owed(spec, p.launched, p.capped, if raised then [] else p.created)),
        marks := old(history).marks + EndMarks(spec, hasStore, p, spec.job in old(cancelled), raised))
    {
      hide Owed, Play, RollbackEvents;
      raised := false;
      var isCancelled := spec.job in cancelled;
      ghost var h := history;
      assert h.handed + [] == h.handed && h.marks + [] == h.marks;
      if (!p.succeeded || isCancelled) && (p.launched || p.capped || p.created != []) {
        raised := Rollback(spec, p.launched, p.capped, p.created, r);
        RollbackIgnores(spec, Progress(p.launched, p.capped, p.created, false), p, r);
        if raised { return; }
        if hasStore && isCancelled {
          Happen(Takes(Record(spec.job)));
          history := history.(marks := history.marks + [Forgotten(spec.job)]);
        }
      } else if !p.succeeded {
        NothingOwed(spec, p);
      }
      Finish(spec.job);
      history := history.(marks := history.marks + [Finished(spec.job)]);
    }

    /** `create` with its `finally`: `atEnd` is the cancellation flag read there and
        `raised` says that the rollback itself raised. `late` is what took effect
        without being reported. */
    method Create(spec: Spec, hasRecords: bool, hasStore: bool, r: Replies)
      returns (ok: bool, ghost p: Progress, ghost atEnd: bool, raised: bool, ghost late: seq<Item>)
      modifies this
      // How far it got, and the whole world when it is over, whether it succeeds or not.
      ensures var t := Tried(Do(old(View()), Starts(spec.job)), spec, hasRecords, hasStore, r);
        && t.made == Made(spec, p.launched, p.capped, p.created) && t.late == late && t.goes == ok
        && (atEnd <==> spec.job in t.world.cancelled)
        && View() == Ended(t, spec, hasStore, p, r)
      ensures raised <==> !ok && RollbackRaises(p, r)
      // It succeeds exactly when its commands do and no checkpoint sees a cancel.
      ensures ok <==> Smooth(spec, hasRecords, hasStore, r) && Uncancelled(Do(old(View()), Starts(spec.job)), spec, r)
      ensures ok == p.succeeded
      ensures ok ==> View() == Play(old(View()), Timeline(spec, hasStore, r)) && !raised && late == []
      ensures ok ==> p == Progress(true, spec.hasCaps, ToCreate(spec.volumes, |spec.volumes|), true)
      ensures exists k | 0 <= k <= |spec.volumes| :: p.created == ToCreate(spec.volumes, k)
      // What was made, handed over and marked.
      ensures Grown(old(history), Made(spec, p.launched, p.capped, p.created), late) ==
        history.(handed := old(history).handed, marks := old(history).marks)
      ensures ok ==> history.handed == old(history).handed
      ensures !ok ==> HandsOver(spec, p, raised, old(history), history)
      ensures !ok ==> EffectsHandedOver(p, late, raised, old(history), history)
      ensures raised ==> p.capped
      ensures history.marks == old(history).marks + MarksOf(spec, hasStore, p, atEnd, raised)
      ensures !raised ==> spec.job !in active
      // Caps that took effect while failing stay in force and are not handed over.
      ensures FailsAtCaps(spec, hasRecords, r) && r(SetCaps).effect ==>
        !ok && !p.capped && !p.launched && late == [Caps(spec.job)] && Caps(spec.job) in present
    {
      hide Owed, Made, EachOnce, Quiet, Play, HandsOver, EffectsHandedOver, Ended, Segment1, Segment3, Cleared, Powered, Smooth, Timeline, ToCreate, Tried;
      hide RollbackEvents;
      ghost var h, w := history, View();
      Start(spec.job);
      ghost var begun := View();
      var q;
      ghost var now;
      q, late, now := Attempt(spec, hasRecords, hasStore, r);
      p := q;
      ok := q.succeeded;
      atEnd := spec.job in cancelled;
      raised := Finally(spec, hasStore, r, q, now);
      EndedFinishes(now, spec, hasStore, q, r);
      if ok {
        TimelineEnds(w, spec, hasStore, r);
        assert h.handed + [] == h.handed;
      } else {
        HandedOverHere(h, history, spec, q, late, raised);
        if FailsAtCaps(spec, hasRecords, r) { CapsStay(now, spec, hasStore, q, r); }
      }
    }
  }

  // ---------- runs ----------

  /** A run in which a cancel arrives while the ports are being found, before anything is
      made: the record an earlier creation of the job left stays. */
  method EarlyCancelKeepsRecord(job: string, container: string) returns (host: Host, ok: bool)
    ensures fresh(host) && !ok && Record(job) in host.present && job !in host.active
  {
    hide Tried, Ended, Play, Made, HandsOver, EffectsHandedOver, MarksOf, Smooth, Uncancelled, Timeline, Grown, ToCreate, Quiet;
    host := new Host();
    host.Happen(Puts(Record(job)));
    ghost var w := host.View();
    var spec := Spec(job, container, [], false, true, true);
    var replies := (p: Point) => Reply(Ok, false, [], if p.FindPorts? then [Cancels(job)] else []);
    EarlyCancel(w, spec, replies);
    ghost var p, atEnd, late;
    var raised;
    ok, p, atEnd, raised, late := host.Create(spec, false, true, replies);
    MadeDetermines(spec, p, Progress(false, false, [], false));
    NothingToUndo(Tried(Do(w, Starts(job)), spec, false, true, replies), spec, true, p, replies);
  }

  lemma NothingToUndo(t: Trace, spec: Spec, hasStore: bool, p: Progress, r: Replies)
    requires MadeNothing(p)
    ensures Ended(t, spec, hasStore, p, r) == Do(t.world, Finishes(spec.job))
  {
  }

  lemma EarlyCancel(w: World, spec: Spec, r: Replies)
    requires spec == Spec(spec.job, spec.container, [], false, true, true)
    requires forall p :: r(p) == Reply(Ok, false, [], if p.FindPorts? then [Cancels(spec.job)] else [])
    ensures var t := Tried(Do(w, Starts(spec.job)), spec, false, true, r);
      && t.made == [] == Made(spec, false, false, []) && !t.goes && t.world.present == w.present
      && spec.job in t.world.cancelled
  {
    hide Fold, PrepareStages, PowerStages, LaunchStages, Play;
    var job := spec.job;
    var begun := Do(w, Starts(job));
    var t := Trace(begun, [], [], true);
    var a, b, c := PrepareStages(spec, r), PowerStages(spec, false, r), LaunchStages(spec, true, r);
    assert r(FindPorts).after == [Cancels(job)] && r(Pull).after == [];
    assert Around(r(FindPorts), []) == [Cancels(job)] && Around(r(Pull), []) == [];
    PlayOne(begun, Cancels(job));
    PlayNothing(Do(begun, Cancels(job)));
    PrepareFold(t, spec, r);
    FoldConcat(t, a + b, c, job);
    FoldConcat(t, a, b, job);
    FoldStops(Fold(t, a, job), b, job);
    FoldStops(Fold(t, a, job), c, job);
    assert VolumeItems([]) == [];
  }

  /** A run in which something raises inside `apply_caps` once a cap is in force:
      the creation fails, and nothing is handed to rollback. */
  method CapsLeftInForce(job: string, container: string) returns (host: Host)
    ensures fresh(host) && Caps(job) in host.present && job !in host.active
    ensures host.history.effects == [Caps(job)] && host.history.handed == []
  {
    hide Quiet, Owed, Made, EachOnce, ToCreate;
    host := new Host();
    var spec := Spec(job, container, [], true, true, true);
    var replies := (p: Point) => Reply(if p.SetCaps? then Raised else Ok, true, [], []);
    OnlyCapsRaise(replies);
    ghost var p, atEnd, late;
    var ok, raised;
    ok, p, atEnd, raised, late := host.Create(spec, true, true, replies);
    NothingMade(spec, p.created);
  }

  lemma OnlyCapsRaise(r: Replies)
    requires forall p :: r(p) == Reply(if p.SetCaps? then Raised else Ok, true, [], [])
    ensures Quiet(r)
  {
  }

  lemma NothingMade(spec: Spec, created: seq<string>)
    requires spec.volumes == [] && exists k | 0 <= k <= |spec.volumes| :: created == ToCreate(spec.volumes, k)
    ensures Made(spec, false, false, created) == [] && Owed(spec, false, false, created) == []
  {
  }

  /** A run in which a cancel returns True during the pull and a second creation of the
      job starts before it ends: the first creation succeeds, the job runs and is
      stored, and the table no longer has the second creation. */
  method CancelLost(job: string, container: string) returns (host: Host, ok: bool)
    ensures fresh(host) && ok && Container(container) in host.present && Record(job) in host.present
    ensures job !in host.active && job !in host.cancelled
  {
    hide Smooth, Uncancelled, Timeline, Play;
    host := new Host();
    var spec := Spec(job, container, [], false, true, true);
    var replies := (p: Point) => Reply(Ok, false, [], if p.Pull? then [Cancels(job), Starts(job)] else []);
    ghost var w := Do(host.View(), Starts(job));
    OverlapSucceeds(spec, replies, host.View());
    ghost var p, atEnd, late;
    var raised;
    ok, p, atEnd, raised, late := host.Create(spec, false, true, replies);
  }

  lemma OverlapSucceeds(spec: Spec, r: Replies, w: World)
    requires spec == Spec(spec.job, spec.container, [], false, true, true)
    requires forall p :: r(p) == Reply(Ok, false, [], if p.Pull? then [Cancels(spec.job), Starts(spec.job)] else [])
    ensures AcceptedAt(Do(w, Starts(spec.job)), Segment1(r), 0, spec.job)
    ensures Smooth(spec, false, true, r) && Uncancelled(Do(w, Starts(spec.job)), spec, r)
    ensures var v := Play(w, Timeline(spec, true, r));
      Container(spec.container) in v.present && Record(spec.job) in v.present && spec.job !in v.active && spec.job !in v.cancelled
  {
    hide Play, Smooth, Around, Segment1, Cleared, Powered, Segment3, Timeline;
    var job := spec.job;
    var begun := Do(w, Starts(job));
    OverlapSegments(spec, r);
    PlayNothing(begun);
    PlayTwo(begun, Cancels(job), Starts(job));
    var first := AtFirst(begun, r);
    PlayNothing(first);
    assert AtSecond(begun, spec, r) == first;
    PlayOne(first, Puts(Container(spec.container)));
    PlayOne(AtThird(begun, spec, r), Puts(Record(job)));
    TimelineEnds(w, spec, true, r);
  }

  lemma PlayTwo(w: World, e: Event, f: Event)
    ensures Play(w, [e, f]) == Do(Do(w, e), f)
    ensures [e, f][..0] == []
  {
    PlayOne(w, e);
    assert [e, f][..1] == [e];
  }

  lemma OverlapSegments(spec: Spec, r: Replies)
    requires spec == Spec(spec.job, spec.container, [], false, true, true)
    requires forall p :: r(p) == Reply(Ok, false, [], if p.Pull? then [Cancels(spec.job), Starts(spec.job)] else [])
    ensures Smooth(spec, false, true, r) && Segment1(r) == [Cancels(spec.job), Starts(spec.job)]
    ensures Cleared(spec, r) + Powered(spec, r) == [] && Segment3(spec, r) == [Puts(Container(spec.container))]
  {
    assert Around(r(FindPorts), []) == [] && Around(r(Pull), []) == [Cancels(spec.job), Starts(spec.job)];
    assert Around(r(OldContainer), []) == [] && Around(r(StaleVolumes), []) == [] && Around(r(FindDevices), []) == [];
    assert Around(r(Probes), []) == [] && Around(r(WaitRunning), []) == [];
    assert Around(r(Run), [Puts(Container(spec.container))]) == [Puts(Container(spec.container))];
    hide Around;
    assert VolumeEvents(spec.volumes, 0, r) == [] && MountEvents(spec.volumes, 0, r) == [];
  }
}
