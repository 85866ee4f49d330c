/** The stages of a plan one after the other, as the code meets them. */
module CreationStages {
  import opened CreationWorld
  import opened CreationPlan

  lemma RollbackIgnores(spec: Spec, p: Progress, q: Progress, r: Replies)
    requires p == q.(succeeded := p.succeeded)
    ensures RollbackEvents(spec, p, r) == RollbackEvents(spec, q, r)
  {
  }

  lemma VolumeStep(t: Trace, specs: seq<VolumeSpec>, k: nat, r: Replies, job: string)
    requires k < |specs| && specs[k].create
    ensures var reply, item := r(NewVolume(k)), Volume(specs[k].name);
      Fold(t, VolumeStages(specs, k + 1, r), job)
        == Step(Fold(t, VolumeStages(specs, k, r), job), Command(reply, IfEffect(item, reply), [item], reply.outcome.Ok?), job)
  {
    hide Step;
    var reply, item := r(NewVolume(k)), Volume(specs[k].name);
    FoldConcat(t, VolumeStages(specs, k, r), [Command(reply, IfEffect(item, reply), [item], reply.outcome.Ok?)], job);
  }

  lemma OneMoreVolume(made: seq<Item>, created: seq<string>, name: string)
    ensures VolumeItems(created + [name]) == VolumeItems(created) + [Volume(name)]
    ensures made + VolumeItems(created) + [Volume(name)] == made + VolumeItems(created + [name])
  {
    assert VolumeItems(created + [name]) == VolumeItems(created) + [Volume(name)];
  }

  lemma VolumeSkipped(specs: seq<VolumeSpec>, k: nat, r: Replies)
    requires k < |specs| && !specs[k].create
    ensures VolumeStages(specs, k + 1, r) == VolumeStages(specs, k, r)
    ensures VolumeEvents(specs, k + 1, r) == VolumeEvents(specs, k, r)
  {
  }

  lemma NoStages(t: Trace, specs: seq<VolumeSpec>, r: Replies, job: string)
    ensures Fold(t, VolumeStages(specs, 0, r), job) == t && Fold(t, MountStages(specs, 0, r), job) == t
  {
  }

  lemma MountSkipped(specs: seq<VolumeSpec>, k: nat, r: Replies)
    requires k < |specs| && !specs[k].encrypted
    ensures MountStages(specs, k + 1, r) == MountStages(specs, k, r)
    ensures MountEvents(specs, k + 1, r) == MountEvents(specs, k, r)
  {
  }

  /** The volume stages pass exactly when every volume is made, and then do just that. */
  lemma {:induction false} VolumesFold(t: Trace, specs: seq<VolumeSpec>, k: nat, r: Replies, job: string)
    requires k <= |specs| && t.goes
    ensures var n := Fold(t, VolumeStages(specs, k, r), job);
      (n.goes <==> VolumesMade(specs, k, r)) && (n.goes ==> n.world == Play(t.world, VolumeEvents(specs, k, r)))
  {
    hide Fold, Play, Around, IfEffect;
    if k == 0 {
      FoldEmpty(t, VolumeStages(specs, k, r), job);
      PlayNothing(t.world);
    } else {
      VolumesFold(t, specs, k - 1, r, job);
      assert VolumesMade(specs, k, r) <==>
        VolumesMade(specs, k - 1, r) && (specs[k - 1].create ==> r(NewVolume(k - 1)).outcome.Ok?);
      if specs[k - 1].create {
        VolumeStep(t, specs, k - 1, r, job);
        var item, reply := Volume(specs[k - 1].name), r(NewVolume(k - 1));
        PlayConcat(t.world, VolumeEvents(specs, k - 1, r), Around(reply, IfEffect(item, reply)));
      } else {
        VolumeSkipped(specs, k - 1, r);
      }
    }
  }

  lemma {:induction false} MountsFold(t: Trace, specs: seq<VolumeSpec>, k: nat, r: Replies, job: string)
    requires k <= |specs| && t.goes
    ensures var n := Fold(t, MountStages(specs, k, r), job);
      (n.goes <==> AllMounted(specs, k, r)) && (n.goes ==> n.world == Play(t.world, MountEvents(specs, k, r)))
  {
    hide Fold, Play, Around;
    if k == 0 {
      FoldEmpty(t, MountStages(specs, k, r), job);
      PlayNothing(t.world);
    } else {
      MountsFold(t, specs, k - 1, r, job);
      assert AllMounted(specs, k, r) <==>
        AllMounted(specs, k - 1, r) && (specs[k - 1].encrypted ==> r(Mount(k - 1)).outcome.Ok?);
      if specs[k - 1].encrypted {
        MountStep(t, specs, k - 1, r, job);
        PlayConcat(t.world, MountEvents(specs, k - 1, r), Around(r(Mount(k - 1)), []));
      } else {
        MountSkipped(specs, k - 1, r);
      }
    }
  }

  lemma MountStep(t: Trace, specs: seq<VolumeSpec>, k: nat, r: Replies, job: string)
    requires k < |specs| && specs[k].encrypted
    ensures Fold(t, MountStages(specs, k + 1, r), job)
         == Step(Fold(t, MountStages(specs, k, r), job), Plain(r(Mount(k)), r(Mount(k)).outcome.Ok?), job)
  {
    hide Step;
    FoldConcat(t, MountStages(specs, k, r), [Plain(r(Mount(k)), r(Mount(k)).outcome.Ok?)], job);
  }

  /** One stage off the front. */
  lemma FoldCons(t: Trace, s: Stage, rest: seq<Stage>, job: string)
    ensures Fold(t, [s] + rest, job) == Fold(Step(t, s, job), rest, job)
    ensures !Step(t, s, job).goes ==> Fold(t, [s] + rest, job) == Step(t, s, job)
  {
    assert ([s] + rest)[1..] == rest;
    if !Step(t, s, job).goes { FoldStops(Step(t, s, job), rest, job); }
  }

  lemma PlainStep(t: Trace, r: Reply, own: seq<Event>, passes: bool, job: string)
    requires t.goes
    ensures Step(t, Command(r, own, [], passes), job) == Trace(Play(t.world, Around(r, own)), t.made, t.late, passes)
  {
    assert t.made + [] == t.made && t.late + [] == t.late;
  }

  /** The stages up to the volumes, one after the other. */
  lemma PrepareFold(t: Trace, spec: Spec, r: Replies)
    requires t.goes
    ensures var result, job := Fold(t, PrepareStages(spec, r), spec.job), spec.job;
      var item := Container(spec.container);
      var w1 := Play(t.world, Around(r(FindPorts), []));
      var w2 := Play(w1, Around(r(Pull), []));
      var w3 := Play(w2, Around(r(OldContainer), IfGone(item, r(OldContainer))));
      var w4 := Play(w3, Around(r(StaleVolumes), []));
      result ==
        if !spec.valid || !((forall v | v in spec.volumes :: !v.encrypted) || spec.secretAvailable) || job in t.world.cancelled
        then t.(goes := false)
        else if !r(FindPorts).outcome.Ok? then Trace(w1, t.made, t.late, false)
        else if !r(Pull).outcome.Ok? || job in w2.cancelled then Trace(w2, t.made, t.late, false)
        else if r(OldContainer).outcome.Raised? then Trace(w3, t.made, t.late, false)
        else if r(StaleVolumes).outcome.Raised? then Trace(w4, t.made, t.late, false)
        else Fold(Trace(w4, t.made, t.late, true), VolumeStages(spec.volumes, |spec.volumes|, r), job)
  {
    hide Fold, Play, VolumeStages, Around;
    var job, item := spec.job, Container(spec.container);
    var secrets := (forall v | v in spec.volumes :: !v.encrypted) || spec.secretAvailable;
    var r8 := VolumeStages(spec.volumes, |spec.volumes|, r);
    var s7 := Plain(r(StaleVolumes), !r(StaleVolumes).outcome.Raised?);
    var s6 := Command(r(OldContainer), IfGone(item, r(OldContainer)), [], !r(OldContainer).outcome.Raised?);
    var s4, s3 := Plain(r(Pull), r(Pull).outcome.Ok?), Plain(r(FindPorts), r(FindPorts).outcome.Ok?);
    var r7 := [s7] + r8;
    var r6 := [s6] + r7;
    var r5 := [Checkpoint] + r6;
    var r4 := [s4] + r5;
    var r3 := [s3] + r4;
    var r2 := [Checkpoint] + r3;
    var r1 := [Local(secrets)] + r2;
    assert PrepareStages(spec, r) == [Local(spec.valid)] + r1;
    FoldCons(t, Local(spec.valid), r1, job);
    if spec.valid {
      FoldCons(t, Local(secrets), r2, job);
      if secrets {
        FoldCons(t, Checkpoint, r3, job);
        if job !in t.world.cancelled {
          PlainStep(t, r(FindPorts), [], r(FindPorts).outcome.Ok?, job);
          FoldCons(t, s3, r4, job);
          if r(FindPorts).outcome.Ok? {
            var t1 := Step(t, s3, job);
            PlainStep(t1, r(Pull), [], r(Pull).outcome.Ok?, job);
            FoldCons(t1, s4, r5, job);
            if r(Pull).outcome.Ok? {
              var t2 := Step(t1, s4, job);
              FoldCons(t2, Checkpoint, r6, job);
              if job !in t2.world.cancelled {
                PlainStep(t2, r(OldContainer), IfGone(item, r(OldContainer)), !r(OldContainer).outcome.Raised?, job);
                FoldCons(t2, s6, r7, job);
                if !r(OldContainer).outcome.Raised? {
                  var t3 := Step(t2, s6, job);
                  PlainStep(t3, r(StaleVolumes), [], !r(StaleVolumes).outcome.Raised?, job);
                  FoldCons(t3, s7, r8, job);
                }
              }
            }
          }
        }
      }
    }
  }

  /** The device, cap and probe stages. */
  lemma PowerFold(t: Trace, spec: Spec, hasRecords: bool, r: Replies)
    requires t.goes
    ensures var result, job := Fold(t, PowerStages(spec, hasRecords, r), spec.job), spec.job;
      var w1 := Play(t.world, Around(r(FindDevices), []));
      var w2 := Play(w1, Around(r(SetCaps), CapEvents(spec, r)));
      result ==
        if !r(FindDevices).outcome.Ok? then Trace(w1, t.made, t.late, false)
        else if spec.hasCaps && !hasRecords then Trace(w1, t.made, t.late, false)
        else if spec.hasCaps && !r(SetCaps).outcome.Ok?
        then Trace(w2, t.made, t.late + IfUnreported(Caps(job), r(SetCaps)), false)
        else Trace(Play(if spec.hasCaps then w2 else w1, Around(r(Probes), [])),
                   t.made + (if spec.hasCaps then [Caps(job)] else []), t.late, !r(Probes).outcome.Raised?)
  {
    hide Fold, Play, Around;
    var job := spec.job;
    assert t.made + [] == t.made && t.late + [] == t.late;
    var s1, s4 := Plain(r(FindDevices), r(FindDevices).outcome.Ok?), Plain(r(Probes), !r(Probes).outcome.Raised?);
    var s3 := Command(r(SetCaps), CapEvents(spec, r), [Caps(job)], r(SetCaps).outcome.Ok?);
    var r4 := [s4] + [];
    var r2 := CapStages(spec, hasRecords, r) + r4;
    assert PowerStages(spec, hasRecords, r) == [s1] + r2;
    PlainStep(t, r(FindDevices), [], r(FindDevices).outcome.Ok?, job);
    FoldCons(t, s1, r2, job);
    if r(FindDevices).outcome.Ok? {
      var t1 := Step(t, s1, job);
      var t3 := t1;
      if spec.hasCaps {
        assert r2 == [Local(hasRecords)] + ([s3] + r4);
        FoldCons(t1, Local(hasRecords), [s3] + r4, job);
        if hasRecords {
          FoldCons(t1, s3, r4, job);
          t3 := Step(t1, s3, job);
        }
      } else {
        assert r2 == r4;
      }
      if !spec.hasCaps || (hasRecords && r(SetCaps).outcome.Ok?) {
        PlainStep(t3, r(Probes), [], !r(Probes).outcome.Raised?, job);
        FoldCons(t3, s4, [], job);
        FoldEmpty(Step(t3, s4, job), [], job);
      }
    }
  }

  lemma FoldEmpty(t: Trace, none: seq<Stage>, job: string)
    requires none == []
    ensures Fold(t, none, job) == t
  {
  }

  /** The run stages, up to the mounts. */
  lemma LaunchFold(t: Trace, spec: Spec, hasStore: bool, r: Replies)
    requires t.goes
    ensures var result, job, item := Fold(t, LaunchStages(spec, hasStore, r), spec.job), spec.job, Container(spec.container);
      var w1 := Play(t.world, Around(r(Run), IfEffect(item, r(Run))));
      var w2 := Play(w1, Around(r(WaitRunning), []));
      result ==
        if job in t.world.cancelled then t.(goes := false)
        else if !r(Run).outcome.Ok? then Trace(w1, t.made, t.late + IfUnreported(item, r(Run)), false)
        else if !r(WaitRunning).outcome.Ok? then Trace(w2, t.made + [item], t.late, false)
        else Fold(Fold(Trace(w2, t.made + [item], t.late, true), MountStages(spec.volumes, |spec.volumes|, r), job),
                  [Checkpoint] + StoreStages(spec, hasStore, r), job)
  {
    hide Fold, Play, Around, MountStages, StoreStages;
    var job, item := spec.job, Container(spec.container);
    assert t.made + [] == t.made && t.late + [] == t.late;
    var mounts, ends := MountStages(spec.volumes, |spec.volumes|, r), [Checkpoint] + StoreStages(spec, hasStore, r);
    var s1 := Command(r(Run), IfEffect(item, r(Run)), [item], r(Run).outcome.Ok?);
    var s2 := Plain(r(WaitRunning), r(WaitRunning).outcome.Ok?);
    var r2 := [s2] + (mounts + ends);
    assert LaunchStages(spec, hasStore, r) == [Checkpoint] + ([s1] + r2);
    FoldCons(t, Checkpoint, [s1] + r2, job);
    if job !in t.world.cancelled {
      FoldCons(t, s1, r2, job);
      if r(Run).outcome.Ok? {
        var t1 := Step(t, s1, job);
        PlainStep(t1, r(WaitRunning), [], r(WaitRunning).outcome.Ok?, job);
        FoldCons(t1, s2, mounts + ends, job);
        FoldConcat(Step(t1, s2, job), mounts, ends, job);
      }
    }
  }

  /** The last checkpoint and the record. */
  lemma LaunchEnds(t: Trace, spec: Spec, hasStore: bool, r: Replies)
    ensures var result := Fold(t, [Checkpoint] + StoreStages(spec, hasStore, r), spec.job);
      result ==
        if !t.goes then t
        else if spec.job in t.world.cancelled || (hasStore && r(SaveRecord).outcome.Raised?) then t.(goes := false)
        else if hasStore then t.(world := Do(t.world, Puts(Record(spec.job)))) else t
  {
    hide Fold, Do;
    var job, stores := spec.job, StoreStages(spec, hasStore, r);
    FoldCons(t, Checkpoint, stores, job);
    if t.goes && job !in t.world.cancelled {
      if hasStore {
        var s := Local(!r(SaveRecord).outcome.Raised?);
        assert stores == [s] + ([Store(Record(job))] + []);
        FoldCons(t, s, [Store(Record(job))] + [], job);
        if !r(SaveRecord).outcome.Raised? {
          FoldCons(t, Store(Record(job)), [], job);
          FoldEmpty(Step(t, Store(Record(job)), job), [], job);
        }
      } else {
        FoldEmpty(t, stores, job);
      }
    } else {
      FoldStops(Step(t, Checkpoint, job), stores, job);
    }
  }

  lemma QuietOk(r: Replies, p: Point)
    requires Quiet(r) && !p.SetCaps?
    ensures r(p).outcome.Ok?
  {
    assert r(p).before == [];
  }

  lemma QuietCaps(w: World, spec: Spec, r: Replies)
    requires Quiet(r)
    ensures Caps(spec.job) in Play(w, Around(r(SetCaps), CapEvents(spec, r))).present <==> TookEffect(r(SetCaps))
  {
    assert r(SetCaps).before == r(SetCaps).after == [];
    assert Around(r(SetCaps), CapEvents(spec, r)) == CapEvents(spec, r);
    PlayOne(w, CapEvents(spec, r)[0]);
  }

  lemma QuietStart(w: World, spec: Spec, r: Replies)
    requires Quiet(r) && spec.valid && spec.secretAvailable
    ensures SmoothStart(spec, r) && Play(w, Segment1(r)) == w
  {
    forall p: Point | !p.SetCaps? ensures r(p).outcome.Ok? { QuietOk(r, p); }
    assert r(FindPorts).before == r(FindPorts).after == [] && r(Pull).before == r(Pull).after == [];
    assert Segment1(r) == [];
  }

  lemma MadeSoFar(spec: Spec, h: History, created: seq<string>, late: seq<Item>)
    ensures Grown(h, VolumeItems(created), late) == Grown(h, Made(spec, false, false, created), late)
    ensures Made(spec, false, false, created) == VolumeItems(created)
  {
  }

  lemma GrownMarks(h: History)
    ensures forall made, late :: Grown(h, made, late).(marks := h.marks + []) == Grown(h, made, late)
  {
    assert h.marks + [] == h.marks;
  }

  lemma MadeMore(spec: Spec, h: History, created: seq<string>, isCapped: bool, late: seq<Item>)
    ensures Grown(Grown(h, VolumeItems(created), []), if isCapped then [Caps(spec.job)] else [], late)
         == Grown(h, Made(spec, false, isCapped, created), late)
    ensures VolumeItems(created) + (if isCapped then [Caps(spec.job)] else []) == Made(spec, false, isCapped, created)
  {
    GrownTwice(h, VolumeItems(created), if isCapped then [Caps(spec.job)] else [], late);
    assert Made(spec, false, isCapped, created) == VolumeItems(created) + if isCapped then [Caps(spec.job)] else [];
  }

  lemma MadeAll(spec: Spec, h: History, created: seq<string>, isCapped: bool, launched: bool, late: seq<Item>)
    ensures Grown(Grown(h, Made(spec, false, isCapped, created), []), if launched then [Container(spec.container)] else [], late)
         == Grown(h, Made(spec, launched, isCapped, created), late)
    ensures Made(spec, false, isCapped, created) + (if launched then [Container(spec.container)] else [])
         == Made(spec, launched, isCapped, created)
  {
    GrownTwice(h, Made(spec, false, isCapped, created), if launched then [Container(spec.container)] else [], late);
    assert Made(spec, launched, isCapped, created)
        == Made(spec, false, isCapped, created) + if launched then [Container(spec.container)] else [];
  }

  lemma NothingOwed(spec: Spec, p: Progress)
    requires !p.launched && !p.capped && p.created == []
    ensures Owed(spec, p.launched, p.capped, p.created) == []
  {
  }

  lemma HandedOverHere(h: History, now: History, spec: Spec, p: Progress, late: seq<Item>, raised: bool)
    requires var more := Made(spec, p.launched, p.capped, p.created);
      && now.handed == h.handed + Owed(spec, p.launched, p.capped, if raised then [] else p.created)
      && now.made == h.made + more && now.effects == h.effects + more + late
    ensures HandsOver(spec, p, raised, h, now) && EffectsHandedOver(p, late, raised, h, now)
  {
    hide Owed, Made, EachOnce;
    var more := Made(spec, p.launched, p.capped, p.created);
    assert now.made[|h.made|..] == more;
    assert now.effects[|h.effects|..] == more + late;
    assert h.effects <= now.effects;
    HandedOver(h.handed, h.made, now.made, multiset{}, spec, p.launched, p.capped, p.created, raised);
    HandedOver(h.handed, h.effects, now.effects, multiset(late), spec, p.launched, p.capped, p.created, raised);
    assert |multiset(late)| == |late|;
  }
}
