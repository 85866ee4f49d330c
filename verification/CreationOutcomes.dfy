/** What a creation leaves behind when it succeeds and when it fails. */
module CreationOutcomes {
  import opened CreationWorld
  import opened CreationPlan
  import opened CreationStages

  // ---------- what success keeps ----------

  /** What a successful creation puts there. */
  ghost predicate Promised(item: Item, spec: Spec, hasStore: bool) {
    || item == Container(spec.container) || (spec.hasCaps && item == Caps(spec.job))
    || (exists v | v in spec.volumes && v.create :: item == Volume(v.name))
    || (hasStore && item == Record(spec.job))
  }

  lemma {:induction false} VolumePut(specs: seq<VolumeSpec>, k: nat, r: Replies, i: nat)
    requires i < k <= |specs| && specs[i].create && VolumesMade(specs, k, r)
    ensures Puts(Volume(specs[i].name)) in VolumeEvents(specs, k, r)
  {
    hide Around, IfEffect;
    if i < k - 1 {
      VolumePut(specs, k - 1, r, i);
    } else {
      OwnEvent(r(NewVolume(i)), Volume(specs[i].name));
    }
  }

  lemma OwnEvent(r: Reply, item: Item)
    requires r.outcome.Ok?
    ensures Puts(item) in Around(r, IfEffect(item, r))
  {
    assert IfEffect(item, r)[0] == Puts(item);
  }

  /** Everything promised is there when a creation has succeeded, exactly unless it
      was taken after it was last put. */
  lemma SuccessKeeps(w: World, spec: Spec, hasRecords: bool, hasStore: bool, r: Replies, item: Item)
    requires Smooth(spec, hasRecords, hasStore, r) && Promised(item, spec, hasStore)
    ensures var es := Timeline(spec, hasStore, r);
      item in Play(w, es).present <==> exists i: nat :: PutAt(es, i, item) && Untaken(es, i + 1, item)
  {
    hide Play, Around, VolumeEvents, MountEvents;
    var es := Timeline(spec, hasStore, r);
    PromisedIsPut(spec, hasRecords, hasStore, r, item);
    StaysExactly(w, es, item);
  }

  lemma PromisedIsPut(spec: Spec, hasRecords: bool, hasStore: bool, r: Replies, item: Item)
    requires Smooth(spec, hasRecords, hasStore, r) && Promised(item, spec, hasStore)
    ensures Puts(item) in Timeline(spec, hasStore, r)
  {
    hide Play, Around, VolumeEvents, MountEvents, IfEffect, VolumesMade;
    if item == Container(spec.container) {
      OwnEvent(r(Run), item);
      assert Puts(item) in Segment3(spec, r);
    } else if item == Caps(spec.job) {
      CapPut(spec, r);
      assert Puts(item) in Powered(spec, r);
    } else if item != Record(spec.job) {
      var v :| v in spec.volumes && v.create && item == Volume(v.name);
      var i :| 0 <= i < |spec.volumes| && spec.volumes[i] == v;
      VolumePut(spec.volumes, |spec.volumes|, r, i);
      assert Puts(item) in Cleared(spec, r);
    } else {
      assert SavesRecord(spec, hasStore)[0] == Puts(item);
    }
  }

  lemma CapPut(spec: Spec, r: Replies)
    requires r(SetCaps).outcome.Ok?
    ensures Puts(Caps(spec.job)) in Around(r(SetCaps), CapEvents(spec, r))
  {
    assert CapEvents(spec, r)[0] == Puts(Caps(spec.job));
  }

  // ---------- what failure leaves ----------

  /** Nothing happens beside the creation. */
  ghost predicate Alone(r: Replies) {
    forall p :: r(p).before == r(p).after == []
  }

  lemma AloneAround(r: Replies, p: Point, own: seq<Event>)
    requires Alone(r)
    ensures Around(r(p), own) == own
  {
    assert r(p).before == r(p).after == [];
  }

  function SetOf(items: seq<Item>): set<Item> { set x | x in items }

  function Effects(t: Trace): set<Item> { SetOf(t.made + t.late) }

  /** What took effect is there; and nothing else is that was not there before, least
      of all a record. */
  ghost predicate Leaves(start: set<Item>, t: Trace) {
    && Effects(t) <= t.world.present <= start + Effects(t)
    && (forall job :: Record(job) in t.world.present <==> Record(job) in start)
    && forall job :: Record(job) !in Effects(t)
  }

  predicate OnlyVolumes(t: Trace) { forall x | x in Effects(t) :: x.Volume? }

  /** One command that makes an item. */
  lemma MakeLeaves(start: set<Item>, t: Trace, item: Item, r: Reply, job: string)
    requires t.goes && Leaves(start, t) && r.before == r.after == [] && !item.Record?
    ensures var n := Step(t, Command(r, IfEffect(item, r), [item], r.outcome.Ok?), job);
      && Leaves(start, n) && Effects(n) == Effects(t) + (if TookEffect(r) then {item} else {})
      && n.world.cancelled == t.world.cancelled
  {
    var n := Step(t, Command(r, IfEffect(item, r), [item], r.outcome.Ok?), job);
    assert Around(r, IfEffect(item, r)) == IfEffect(item, r);
    PlayNothing(t.world);
    PlayOne(t.world, Puts(item));
    assert forall x :: x in n.made + n.late <==> x in t.made + t.late || (x == item && TookEffect(r));
  }

  lemma {:induction false} VolumesLeave(start: set<Item>, t: Trace, specs: seq<VolumeSpec>, k: nat, r: Replies, job: string)
    requires k <= |specs| && Alone(r) && t.goes && Leaves(start, t) && OnlyVolumes(t)
    ensures var n := Fold(t, VolumeStages(specs, k, r), job); Leaves(start, n) && OnlyVolumes(n)
  {
    hide Step, Leaves, Alone, Effects, Fold;
    if k == 0 {
      FoldEmpty(t, VolumeStages(specs, k, r), job);
    } else {
      VolumesLeave(start, t, specs, k - 1, r, job);
      var before := Fold(t, VolumeStages(specs, k - 1, r), job);
      if specs[k - 1].create {
        VolumeStep(t, specs, k - 1, r, job);
        if before.goes {
          AloneAround(r, NewVolume(k - 1), []);
          AloneReply(r, NewVolume(k - 1));
          MakeLeaves(start, before, Volume(specs[k - 1].name), r(NewVolume(k - 1)), job);
        } else {
          VolumesStop(t, specs, k - 1, k, r, job);
        }
      } else {
        VolumeSkipped(specs, k - 1, r);
      }
    }
  }

  lemma AloneReply(r: Replies, p: Point)
    requires Alone(r)
    ensures r(p).before == r(p).after == []
  {
  }

  lemma PrepareLeaves(w: World, spec: Spec, r: Replies)
    requires Alone(r)
    ensures var n := Fold(Trace(w, [], [], true), PrepareStages(spec, r), spec.job); Leaves(w.present, n) && OnlyVolumes(n)
  {
    hide Alone, Fold, PrepareStages, VolumeStages;
    var t, item := Trace(w, [], [], true), Container(spec.container);
    PrepareFold(t, spec, r);
    AloneAround(r, FindPorts, []);
    AloneAround(r, Pull, []);
    AloneAround(r, StaleVolumes, []);
    AloneAround(r, OldContainer, IfGone(item, r(OldContainer)));
    PlayNothing(w);
    PlayOne(w, Takes(item));
    var cleared := Play(w, IfGone(item, r(OldContainer)));
    PlayNothing(cleared);
    VolumesLeave(w.present, Trace(cleared, [], [], true), spec.volumes, |spec.volumes|, r, spec.job);
  }

  /** A cap that is set takes effect or not; one that is not is lifted. */
  lemma CapLeaves(start: set<Item>, t: Trace, spec: Spec, r: Reply)
    requires t.goes && Leaves(start, t) && OnlyVolumes(t)
    ensures var world, item := Play(t.world, if TookEffect(r) then [Puts(Caps(spec.job))] else [Takes(Caps(spec.job))]), Caps(spec.job);
      && Leaves(start, Trace(world, t.made + IfReported(item, r), t.late + IfUnreported(item, r), r.outcome.Ok?))
  {
    var item := Caps(spec.job);
    PlayOne(t.world, Puts(item));
    PlayOne(t.world, Takes(item));
    assert item !in Effects(t);
    var n := Trace(Play(t.world, if TookEffect(r) then [Puts(item)] else [Takes(item)]),
                   t.made + IfReported(item, r), t.late + IfUnreported(item, r), r.outcome.Ok?);
    assert forall x :: x in n.made + n.late <==> x in t.made + t.late || (x == item && TookEffect(r));
  }

  lemma PowerLeaves(start: set<Item>, t: Trace, spec: Spec, hasRecords: bool, r: Replies)
    requires Alone(r) && t.goes && Leaves(start, t) && OnlyVolumes(t)
    ensures Leaves(start, Fold(t, PowerStages(spec, hasRecords, r), spec.job))
  {
    hide Alone, Fold, PowerStages, Leaves, Play, Around, OnlyVolumes;
    PowerFold(t, spec, hasRecords, r);
    AloneAround(r, FindDevices, []);
    AloneAround(r, SetCaps, CapEvents(spec, r));
    AloneAround(r, Probes, []);
    PlayNothing(t.world);
    CapLeaves(start, t, spec, r(SetCaps));
    var capped := Play(t.world, CapEvents(spec, r));
    PlayNothing(capped);
    assert t.made + [] == t.made && t.late + [] == t.late;
    SameLeaves(start, t, t.(goes := false));
    SameLeaves(start, t, t.(goes := true));
    var n := Trace(capped, t.made + [Caps(spec.job)], t.late, true);
    if r(SetCaps).outcome.Ok? { SameLeaves(start, n, n.(goes := false)); }
  }

  lemma {:induction false} MountsLeave(t: Trace, specs: seq<VolumeSpec>, k: nat, r: Replies, job: string)
    requires k <= |specs| && Alone(r)
    ensures Fold(t, MountStages(specs, k, r), job) == t.(goes := Fold(t, MountStages(specs, k, r), job).goes)
  {
    hide Alone, Around, Play, Fold;
    if k == 0 {
      FoldEmpty(t, MountStages(specs, k, r), job);
    } else {
      MountsLeave(t, specs, k - 1, r, job);
      if specs[k - 1].encrypted {
        MountStep(t, specs, k - 1, r, job);
        AloneAround(r, Mount(k - 1), []);
        PlayNothing(t.world);
        assert t.made + [] == t.made && t.late + [] == t.late;
      } else {
        MountSkipped(specs, k - 1, r);
      }
    }
  }

  lemma LaunchLeaves(start: set<Item>, t: Trace, spec: Spec, hasStore: bool, r: Replies)
    requires Alone(r) && t.goes && Leaves(start, t)
    ensures var n := Fold(t, LaunchStages(spec, hasStore, r), spec.job); n.goes || Leaves(start, n)
  {
    hide Alone, Fold, LaunchStages, MountStages, StoreStages, Leaves, Around, Play;
    var job, item := spec.job, Container(spec.container);
    LaunchFold(t, spec, hasStore, r);
    SameLeaves(start, t, t.(goes := false));
    if job !in t.world.cancelled {
      AloneReply(r, Run);
      MakeLeaves(start, t, item, r(Run), job);
      AloneAround(r, WaitRunning, []);
      var t1 := Step(t, Command(r(Run), IfEffect(item, r(Run)), [item], r(Run).outcome.Ok?), job);
      PlayNothing(t1.world);
      assert t.made + [] == t.made && t.late + [] == t.late;
      SameLeaves(start, t1, t1.(goes := false));
      SameLeaves(start, t1, t1.(goes := true));
      if r(Run).outcome.Ok? && r(WaitRunning).outcome.Ok? {
        var t2 := t1.(goes := true);
        MountsLeave(t2, spec.volumes, |spec.volumes|, r, job);
        var t3 := Fold(t2, MountStages(spec.volumes, |spec.volumes|, r), job);
        SameLeaves(start, t2, t3);
        SameLeaves(start, t3, t3.(goes := false));
        LaunchEnds(t3, spec, hasStore, r);
      }
    }
  }

  lemma SameLeaves(start: set<Item>, t: Trace, n: Trace)
    requires Leaves(start, t) && n == t.(goes := n.goes)
    ensures Leaves(start, n)
  {
  }

  /** A block that fails alone leaves what took effect and nothing else that is new. */
  lemma TriedLeaves(w: World, spec: Spec, hasRecords: bool, hasStore: bool, r: Replies)
    requires Alone(r)
    ensures var t := Tried(w, spec, hasRecords, hasStore, r); t.goes || Leaves(w.present, t)
  {
    hide Alone, Fold, PrepareStages, PowerStages, LaunchStages, Leaves, OnlyVolumes;
    var t, job := Trace(w, [], [], true), spec.job;
    var a, b, c := PrepareStages(spec, r), PowerStages(spec, hasRecords, r), LaunchStages(spec, hasStore, r);
    FoldConcat(t, a + b, c, job);
    FoldConcat(t, a, b, job);
    PrepareLeaves(w, spec, r);
    var t1 := Fold(t, a, job);
    if t1.goes {
      PowerLeaves(w.present, t1, spec, hasRecords, r);
      var t2 := Fold(t1, b, job);
      if t2.goes { LaunchLeaves(w.present, t2, spec, hasStore, r); } else { FoldStops(t2, c, job); }
    } else {
      FoldStops(t1, b, job);
      FoldStops(t1, c, job);
    }
  }

  /** When every command reports success, only a cancel seen at a checkpoint stops the
      block, and it is still in force at the end. */
  lemma SmoothFailsCancelled(w: World, spec: Spec, hasRecords: bool, hasStore: bool, r: Replies)
    requires Smooth(spec, hasRecords, hasStore, r) && !Tried(w, spec, hasRecords, hasStore, r).goes
    ensures spec.job in Tried(w, spec, hasRecords, hasStore, r).world.cancelled
  {
    hide Fold, PrepareStages, PowerStages, LaunchStages, VolumeStages, MountStages, StoreStages, Play, Around, VolumesMade, AllMounted;
    var t, job := Trace(w, [], [], true), spec.job;
    var a, b, c := PrepareStages(spec, r), PowerStages(spec, hasRecords, r), LaunchStages(spec, hasStore, r);
    FoldConcat(t, a + b, c, job);
    FoldConcat(t, a, b, job);
    PrepareFold(t, spec, r);
    var w1 := Play(w, Around(r(FindPorts), []));
    var w2 := Play(w1, Around(r(Pull), []));
    var w3 := Play(w2, Around(r(OldContainer), IfGone(Container(spec.container), r(OldContainer))));
    VolumesFold(Trace(Play(w3, Around(r(StaleVolumes), [])), [], [], true), spec.volumes, |spec.volumes|, r, job);
    var t1 := Fold(t, a, job);
    if t1.goes {
      PowerFold(t1, spec, hasRecords, r);
      var t2 := Fold(t1, b, job);
      LaunchFold(t2, spec, hasStore, r);
      var item := Container(spec.container);
      var v1 := Play(t2.world, Around(r(Run), IfEffect(item, r(Run))));
      var t3 := Trace(Play(v1, Around(r(WaitRunning), [])), t2.made + [item], t2.late, true);
      MountsFold(t3, spec.volumes, |spec.volumes|, r, job);
      LaunchEnds(Fold(t3, MountStages(spec.volumes, |spec.volumes|, r), job), spec, hasStore, r);
    } else {
      FoldStops(t1, b, job);
      FoldStops(t1, c, job);
    }
  }

  // ---------- the order of what is made ----------

  lemma {:induction false} VolumesInOrder(t: Trace, specs: seq<VolumeSpec>, k: nat, r: Replies, job: string)
    requires k <= |specs| && t.goes && t.made == t.late == []
    ensures var n := Fold(t, VolumeStages(specs, k, r), job);
      && (forall x | x in n.made + n.late :: x.Volume?)
      && (n.goes ==> n.made == VolumeItems(ToCreate(specs, k)) && n.late == [])
  {
    hide Fold, Play, Around;
    if k == 0 {
      FoldEmpty(t, VolumeStages(specs, k, r), job);
    } else {
      VolumesInOrder(t, specs, k - 1, r, job);
      if specs[k - 1].create {
        VolumeStep(t, specs, k - 1, r, job);
        OneMoreVolume([], ToCreate(specs, k - 1), specs[k - 1].name);
      } else {
        VolumeSkipped(specs, k - 1, r);
      }
    }
  }

  lemma {:induction false} MountsMakeNothing(t: Trace, specs: seq<VolumeSpec>, k: nat, r: Replies, job: string)
    requires k <= |specs|
    ensures var n := Fold(t, MountStages(specs, k, r), job); n.made == t.made && n.late == t.late
  {
    hide Fold, Play, Around;
    if k == 0 {
      FoldEmpty(t, MountStages(specs, k, r), job);
    } else {
      MountsMakeNothing(t, specs, k - 1, r, job);
      if specs[k - 1].encrypted { MountStep(t, specs, k - 1, r, job); } else { MountSkipped(specs, k - 1, r); }
    }
  }

  lemma PrepareInOrder(w: World, spec: Spec, r: Replies)
    ensures var n := Fold(Trace(w, [], [], true), PrepareStages(spec, r), spec.job);
      && (forall x | x in n.made + n.late :: x.Volume?)
      && (n.goes ==> n.made == VolumeItems(ToCreate(spec.volumes, |spec.volumes|)) && n.late == [])
  {
    hide Fold, PrepareStages, VolumeStages, Play, Around, VolumeItems, ToCreate;
    PrepareFold(Trace(w, [], [], true), spec, r);
    forall w4 { VolumesInOrder(Trace(w4, [], [], true), spec.volumes, |spec.volumes|, r, spec.job); }
  }

  lemma PowerInOrder(t: Trace, spec: Spec, hasRecords: bool, r: Replies)
    requires t.goes && t.late == []
    ensures var n := Fold(t, PowerStages(spec, hasRecords, r), spec.job);
      && t.made <= n.made && (forall x | x in n.made + n.late :: x in t.made || x.Caps?)
      && (n.goes ==> n.made == t.made + (if spec.hasCaps then [Caps(spec.job)] else []) && n.late == [])
  {
    hide Fold, PowerStages, Play, Around;
    PowerFold(t, spec, hasRecords, r);
  }

  lemma LaunchInOrder(t: Trace, spec: Spec, hasStore: bool, r: Replies)
    requires t.goes && t.late == []
    ensures t.made <= Fold(t, LaunchStages(spec, hasStore, r), spec.job).made
  {
    hide Fold, LaunchStages, MountStages, StoreStages, Play, Around;
    LaunchFold(t, spec, hasStore, r);
    var item := Container(spec.container);
    var w1 := Play(t.world, Around(r(Run), IfEffect(item, r(Run))));
    var ran := Trace(Play(w1, Around(r(WaitRunning), [])), t.made + [item], t.late, true);
    MountsMakeNothing(ran, spec.volumes, |spec.volumes|, r, spec.job);
    LaunchEnds(Fold(ran, MountStages(spec.volumes, |spec.volumes|, r), spec.job), spec, hasStore, r);
  }

  /** Whatever the commands answer: no cap is set before every volume to create is there,
      and no container is run before the volumes and the caps are. */
  lemma MadeInOrder(w: World, spec: Spec, hasRecords: bool, hasStore: bool, r: Replies)
    ensures var t := Tried(w, spec, hasRecords, hasStore, r);
      var volumes := VolumeItems(ToCreate(spec.volumes, |spec.volumes|));
      && (Caps(spec.job) in t.made + t.late ==> volumes <= t.made)
      && (Container(spec.container) in t.made + t.late ==> volumes + (if spec.hasCaps then [Caps(spec.job)] else []) <= t.made)
  {
    hide Fold, PrepareStages, PowerStages, LaunchStages, VolumeItems, ToCreate;
    var t, job := Trace(w, [], [], true), spec.job;
    var a, b, c := PrepareStages(spec, r), PowerStages(spec, hasRecords, r), LaunchStages(spec, hasStore, r);
    FoldConcat(t, a + b, c, job);
    FoldConcat(t, a, b, job);
    PrepareInOrder(w, spec, r);
    var t1 := Fold(t, a, job);
    if t1.goes {
      PowerInOrder(t1, spec, hasRecords, r);
      var t2 := Fold(t1, b, job);
      if t2.goes {
        LaunchInOrder(t2, spec, hasStore, r);
        assert t1.made <= t2.made <= Fold(t2, c, job).made;
      } else {
        FoldStops(t2, c, job);
        assert forall x | x in t1.made :: x in t1.made + t1.late;
        assert Container(spec.container) !in t2.made + t2.late;
      }
    } else {
      FoldStops(t1, b, job);
      FoldStops(t1, c, job);
    }
  }

  function DroppedVolumes(names: seq<string>, k: nat, r: Replies): set<Item>
    requires k <= |names|
  {
    if k == 0 then {}
    else DroppedVolumes(names, k - 1, r) + if r(DropVolume(k - 1)).effect then {Volume(names[k - 1])} else {}
  }

  /** The items whose removal by the rollback takes effect. */
  function Dropped(spec: Spec, p: Progress, r: Replies): set<Item> {
    (if p.launched && r(DropContainer).effect then {Container(spec.container)} else {})
    + (if p.capped && r(DropCaps).effect then {Caps(spec.job)} else {})
    + (if RollbackRaises(p, r) then {} else DroppedVolumes(p.created, |p.created|, r))
  }

  lemma {:induction false} DestroyDrops(w: World, names: seq<string>, k: nat, r: Replies)
    requires k <= |names| && Alone(r)
    ensures Play(w, DestroyEvents(names, k, r)) == w.(present := w.present - DroppedVolumes(names, k, r))
  {
    hide Alone, Around, Play;
    PlayNothing(w);
    if k > 0 {
      DestroyDrops(w, names, k - 1, r);
      var item, reply := Volume(names[k - 1]), r(DropVolume(k - 1));
      AloneAround(r, DropVolume(k - 1), IfGone(item, reply));
      PlayConcat(w, DestroyEvents(names, k - 1, r), Around(reply, IfGone(item, reply)));
      GoneDrops(Play(w, DestroyEvents(names, k - 1, r)), item, reply);
    }
  }

  lemma GoneDrops(w: World, item: Item, r: Reply)
    ensures Play(w, IfGone(item, r)) == w.(present := w.present - if r.effect then {item} else {})
  {
    PlayNothing(w);
    PlayOne(w, Takes(item));
  }

  lemma RollbackDrops(w: World, spec: Spec, p: Progress, r: Replies)
    requires Alone(r)
    ensures Play(w, RollbackEvents(spec, p, r)) == w.(present := w.present - Dropped(spec, p, r))
  {
    hide Alone, Around, Play, DestroyEvents, DroppedVolumes;
    var x, y := Container(spec.container), Caps(spec.job);
    AloneAround(r, DropContainer, IfGone(x, r(DropContainer)));
    AloneAround(r, DropCaps, IfGone(y, r(DropCaps)));
    AloneAround(r, Sweep, []);
    var a := if p.launched then IfGone(x, r(DropContainer)) else [];
    var b := if p.capped then IfGone(y, r(DropCaps)) else [];
    var c := if RollbackRaises(p, r) then [] else DestroyEvents(p.created, |p.created|, r) + [];
    assert DestroyEvents(p.created, |p.created|, r) + [] == DestroyEvents(p.created, |p.created|, r);
    PlayNothing(w);
    GoneDrops(w, x, r(DropContainer));
    var w1 := Play(w, a);
    PlayNothing(w1);
    GoneDrops(w1, y, r(DropCaps));
    PlayConcat(w, a, b);
    var w2 := Play(w, a + b);
    PlayNothing(w2);
    DestroyDrops(w2, p.created, |p.created|, r);
    PlayConcat(w, a + b, c);
  }

  lemma NothingDropped(spec: Spec, p: Progress, r: Replies)
    requires MadeNothing(p)
    ensures Dropped(spec, p, r) == {}
  {
  }

  /** After a creation that failed with nothing beside it, the new things on the rig are
      exactly those that took effect and whose removal by the rollback did not; and
      the job's record is there exactly if it was before and is not forgotten. */
  lemma FailureLeaves(w: World, spec: Spec, hasRecords: bool, hasStore: bool, r: Replies, p: Progress)
    requires Alone(r) && p.succeeded == Tried(Do(w, Starts(spec.job)), spec, hasRecords, hasStore, r).goes
    requires !p.succeeded
    requires Tried(Do(w, Starts(spec.job)), spec, hasRecords, hasStore, r).made == Made(spec, p.launched, p.capped, p.created)
    ensures var t := Tried(Do(w, Starts(spec.job)), spec, hasRecords, hasStore, r);
      var end := Ended(t, spec, hasStore, p, r).present;
      && end - w.present == Effects(t) - Dropped(spec, p, r) - w.present
      && (Record(spec.job) in end <==> Record(spec.job) in w.present && !Forgets(t, spec, hasStore, p, r))
  {
    hide Alone, Tried, Dropped, RollbackEvents, Effects, Play, Made;
    var begun := Do(w, Starts(spec.job));
    var t := Tried(begun, spec, hasRecords, hasStore, r);
    TriedLeaves(begun, spec, hasRecords, hasStore, r);
    RollbackDrops(t.world, spec, p, r);
    DroppedNoRecord(spec, p, r, spec.job);
    if MadeNothing(p) { NothingDropped(spec, p, r); }
  }

  /** A failure that nobody cancelled keeps the job's record, whether or not there was
      something to roll back. */
  lemma UncancelledKeepsRecord(t: Trace, spec: Spec, hasStore: bool, p: Progress, r: Replies)
    requires Alone(r) && !t.goes && spec.job !in t.world.cancelled
    ensures Record(spec.job) in Ended(t, spec, hasStore, p, r).present <==> Record(spec.job) in t.world.present
  {
    hide Alone, Dropped, RollbackEvents, Play;
    RollbackDrops(t.world, spec, p, r);
    DroppedNoRecord(spec, p, r, spec.job);
  }

  /** A cancelled creation that made something and could roll it back leaves no record,
      whatever happened beside it. */
  lemma CancelledLosesRecord(t: Trace, spec: Spec, p: Progress, r: Replies)
    requires !t.goes && spec.job in t.world.cancelled && (p.launched || p.capped || p.created != [])
    requires !(p.capped && r(DropCaps).outcome.Raised?)
    ensures Record(spec.job) !in Ended(t, spec, true, p, r).present
  {
    hide RollbackEvents, Play;
  }

  /** The rollback removes the container before it lifts the caps, and both before it
      removes a volume. */
  lemma RollbackOrder(spec: Spec, p: Progress, r: Replies, i: nat, j: nat)
    requires Alone(r) && i < |RollbackEvents(spec, p, r)| && j < |RollbackEvents(spec, p, r)|
    requires var es := RollbackEvents(spec, p, r);
      && es[i].Takes? && es[j].Takes? && (es[i].item.Container? || (es[i].item.Caps? && !es[j].item.Container?))
      && es[i].item != es[j].item
    ensures i < j
  {
    hide Alone, Around, DestroyEvents;
    var x, y := Container(spec.container), Caps(spec.job);
    AloneAround(r, DropContainer, IfGone(x, r(DropContainer)));
    AloneAround(r, DropCaps, IfGone(y, r(DropCaps)));
    AloneAround(r, Sweep, []);
    OnlyVolumesDestroyed(p.created, |p.created|, r);
    var a := if p.launched then IfGone(x, r(DropContainer)) else [];
    var b := if p.capped then IfGone(y, r(DropCaps)) else [];
    var c := if RollbackRaises(p, r) then [] else DestroyEvents(p.created, |p.created|, r) + [];
    var es := RollbackEvents(spec, p, r);
    assert es == a + b + c;
    assert forall k | 0 <= k < |es| :: k < |a| ==> es[k] == Takes(x);
    assert forall k | 0 <= k < |es| :: |a| <= k < |a| + |b| ==> es[k] == Takes(y);
    forall k | |a| + |b| <= k < |es| ensures es[k].Takes? && es[k].item.Volume? {
      assert es[k] == c[k - |a| - |b|];
    }
  }

  lemma {:induction false} OnlyVolumesDestroyed(names: seq<string>, k: nat, r: Replies)
    requires k <= |names| && Alone(r)
    ensures forall i | 0 <= i < |DestroyEvents(names, k, r)| :: DestroyEvents(names, k, r)[i].Takes? && DestroyEvents(names, k, r)[i].item.Volume?
  {
    hide Alone, Around;
    if k > 0 {
      OnlyVolumesDestroyed(names, k - 1, r);
      AloneAround(r, DropVolume(k - 1), IfGone(Volume(names[k - 1]), r(DropVolume(k - 1))));
    }
  }

  lemma DroppedNoRecord(spec: Spec, p: Progress, r: Replies, job: string)
    ensures Record(job) !in Dropped(spec, p, r)
  {
    VolumesNoRecord(p.created, |p.created|, r, job);
  }

  lemma {:induction false} VolumesNoRecord(names: seq<string>, k: nat, r: Replies, job: string)
    requires k <= |names|
    ensures Record(job) !in DroppedVolumes(names, k, r)
  {
    if k > 0 { VolumesNoRecord(names, k - 1, r, job); }
  }

  /** Every removal by the rollback takes effect. */
  ghost predicate Undone(r: Replies) {
    forall p: Point :: (p.DropContainer? || p.DropCaps? || p.DropVolume?) ==> r(p).effect
  }

  lemma {:induction false} VolumesDropped(names: seq<string>, k: nat, r: Replies)
    requires k <= |names| && Undone(r)
    ensures DroppedVolumes(names, k, r) == set v | v in names[..k] :: Volume(v)
  {
    if k > 0 {
      VolumesDropped(names, k - 1, r);
      assert r(DropVolume(k - 1)).effect;
      assert names[..k] == names[..k - 1] + [names[k - 1]];
    }
  }

  /** So a failure leaves nothing new when its rollback does all it set out to, and
      every command that took effect reported it. */
  lemma FailureIsClean(w: World, spec: Spec, hasRecords: bool, hasStore: bool, r: Replies, p: Progress)
    requires Alone(r) && Undone(r) && !RollbackRaises(p, r)
    requires var t := Tried(Do(w, Starts(spec.job)), spec, hasRecords, hasStore, r);
      !p.succeeded && !t.goes && t.late == [] && t.made == Made(spec, p.launched, p.capped, p.created)
    ensures Ended(Tried(Do(w, Starts(spec.job)), spec, hasRecords, hasStore, r), spec, hasStore, p, r).present <= w.present
  {
    hide Alone, Tried, Ended;
    var t := Tried(Do(w, Starts(spec.job)), spec, hasRecords, hasStore, r);
    FailureLeaves(w, spec, hasRecords, hasStore, r, p);
    VolumesDropped(p.created, |p.created|, r);
    assert p.created[..|p.created|] == p.created;
    AllDropped(spec, p, r);
    assert t.made + t.late == t.made;
    assert Effects(t) <= Dropped(spec, p, r);
    var end := Ended(t, spec, hasStore, p, r).present;
    forall x | x in end ensures x in w.present {
      assert x !in Effects(t) - Dropped(spec, p, r) - w.present;
      assert x !in end - w.present;
    }
  }

  lemma AllDropped(spec: Spec, p: Progress, r: Replies)
    requires Undone(r) && !RollbackRaises(p, r)
    ensures SetOf(Made(spec, p.launched, p.capped, p.created)) <= Dropped(spec, p, r)
  {
    hide Made;
    VolumesDropped(p.created, |p.created|, r);
    assert p.created[..|p.created|] == p.created;
    assert r(DropContainer).effect && r(DropCaps).effect;
    forall x | x in Made(spec, p.launched, p.capped, p.created) ensures x in Dropped(spec, p, r) {
      MadeMembersOnly(spec, p, x);
    }
  }

  lemma MadeMembersOnly(spec: Spec, p: Progress, x: Item)
    requires x in Made(spec, p.launched, p.capped, p.created)
    ensures (x == Container(spec.container) && p.launched) || (x == Caps(spec.job) && p.capped) || (x.Volume? && x.name in p.created)
  {
  }

  lemma EndedFinishes(t: Trace, spec: Spec, hasStore: bool, p: Progress, r: Replies)
    ensures t.goes ==> Ended(t, spec, hasStore, p, r) == Do(t.world, Finishes(spec.job))
    ensures t.goes || !RollbackRaises(p, r) ==> spec.job !in Ended(t, spec, hasStore, p, r).active
  {
    hide Play;
  }

  /** A quiet rollback of volumes leaves the caps alone. */
  lemma CapsStay(t: Trace, spec: Spec, hasStore: bool, p: Progress, r: Replies)
    requires Quiet(r) && !t.goes && !p.launched && !p.capped
    ensures Caps(spec.job) in Ended(t, spec, hasStore, p, r).present <==> Caps(spec.job) in t.world.present
  {
    hide Play, Dropped, Around;
    if !MadeNothing(p) {
      QuietAlone(r);
      RollbackDrops(t.world, spec, p, r);
      VolumesOnly(spec, p, r);
    }
  }

  lemma QuietAlone(r: Replies)
    requires Quiet(r)
    ensures Alone(r)
  {
  }

  lemma VolumesOnly(spec: Spec, p: Progress, r: Replies)
    requires !p.launched && !p.capped
    ensures Caps(spec.job) !in Dropped(spec, p, r)
  {
    VolumesNoCaps(p.created, |p.created|, r, spec.job);
  }

  lemma {:induction false} VolumesNoCaps(names: seq<string>, k: nat, r: Replies, job: string)
    requires k <= |names|
    ensures Caps(job) !in DroppedVolumes(names, k, r)
  {
    if k > 0 { VolumesNoCaps(names, k - 1, r, job); }
  }
}
