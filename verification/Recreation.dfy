/** `recreate`: the old container is removed, then a creation without new volumes
    cleans up before it runs, and the cleanup removes unmounted volumes. */
module Recreation {

  /** The volumes each container mounts, and the volumes there are. */
  datatype Rig = Rig(mounts: map<string, set<string>>, volumes: set<string>)

  /** Some container, running or not, mounts the volume. */
  predicate Mounted(rig: Rig, v: string) {
    exists c | c in rig.mounts :: v in rig.mounts[c]
  }

  /** What the commands answer: removing the old container; the two listings of the
      cleanup, of which volumes carry the platform's prefix and what is mounted; and
      the volumes whose removal fails. `arrives` says that the creation's own checks,
      its ports and its pull let it get to the cleanup at all. */
  datatype Answers = Answers(removed: bool, arrives: bool, listed: bool, mountsRead: bool, ours: set<string>, stuck: set<string>)

  function WithoutContainer(rig: Rig, name: string): Rig {
    rig.(mounts := rig.mounts - {name})
  }

  /** The volumes `remove_stale_volumes` removes. */
  function Stale(rig: Rig, a: Answers): set<string> {
    if a.listed && a.mountsRead then set v | v in rig.volumes && v in a.ours && v !in a.stuck && !Mounted(rig, v) else {}
  }

  /** The loop over the listed volumes. */
  method RemoveStaleVolumes(rig: Rig, a: Answers) returns (after: Rig, removed: set<string>)
    ensures removed == Stale(rig, a)
    ensures after == rig.(volumes := rig.volumes - Stale(rig, a))
  {
    after, removed := rig, {};
    if !a.listed || !a.mountsRead { return; }
    var todo := rig.volumes * a.ours;
    while todo != {}
      invariant todo <= rig.volumes * a.ours
      invariant removed == set v | v in rig.volumes * a.ours - todo && v !in a.stuck && !Mounted(rig, v)
      invariant after == rig.(volumes := rig.volumes - removed)
    {
      var v :| v in todo;
      todo := todo - {v};
      if !Mounted(rig, v) && v !in a.stuck {
        removed := removed + {v};
        after := rig.(volumes := rig.volumes - removed);
      }
    }
  }

  /** `recreate` up to the point where the new container is run. */
  method Recreate(rig: Rig, name: string, a: Answers) returns (after: Rig)
    ensures after.mounts == if a.removed then rig.mounts - {name} else rig.mounts
    ensures forall v :: v in after.volumes <==> v in rig.volumes && !Lost(rig, name, a, v)
  {
    after := rig;
    if !a.removed { return; }
    after := WithoutContainer(rig, name);
    if !a.arrives { return; }
    forall v { MountedElsewhere(rig, name, v); }
    var removed;
    after, removed := RemoveStaleVolumes(after, a);
  }

  /** A volume is deleted exactly when the cleanup is reached with its listings read,
      it carries the prefix, its removal does not fail, and no other container
      mounts it. */
  predicate Lost(rig: Rig, name: string, a: Answers, v: string) {
    && a.removed && a.arrives && a.listed && a.mountsRead && v in rig.volumes && v in a.ours && v !in a.stuck
    && !Elsewhere(rig, name, v)
  }

  /** Another container mounts the volume. */
  predicate Elsewhere(rig: Rig, name: string, v: string) {
    exists c | c in rig.mounts && c != name :: v in rig.mounts[c]
  }

  lemma MountedElsewhere(rig: Rig, name: string, v: string)
    ensures Mounted(WithoutContainer(rig, name), v) <==> Elsewhere(rig, name, v)
  {
    var less := WithoutContainer(rig, name);
    if Elsewhere(rig, name, v) {
      var c :| c in rig.mounts && c != name && v in rig.mounts[c];
      assert c in less.mounts && v in less.mounts[c];
    }
  }

  /** When every command succeeds, a job loses each volume that only its container
      mounts, while that container's mount is all that kept it before. */
  method VolumeDeleted(name: string, v: string) returns (before: Rig, after: Rig)
    ensures name in before.mounts && v in before.mounts[name] && v in before.volumes && Mounted(before, v)
    ensures v !in after.volumes
  {
    before := Rig(map[name := {v}], {v});
    after := Recreate(before, name, Answers(true, true, true, true, {v}, {}));
  }
}
