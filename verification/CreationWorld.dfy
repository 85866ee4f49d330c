/** What job creations share: the in-flight table, what is on the rig and in the
    store, and everything that happens to them; when a cancel is lost, and when an
    item stays. */
module CreationWorld {

  /** What is on the rig or in the store. The first three are what `_rollback` is
      given to undo. */
  datatype Item = Container(name: string) | Caps(job: string) | Volume(name: string) | Record(job: string)

  // ---------- the world and what happens in it ----------

  /** `Inflight` (jobs being created, and those cancelled) and what there is. */
  datatype World = World(active: set<string>, cancelled: set<string>, present: set<Item>)

  datatype Event =
    | Starts(job: string)
    | Finishes(job: string)
    | Cancels(job: string)
    | Puts(item: Item)
    | Takes(item: Item)

  function Do(w: World, e: Event): World {
    match e
    case Starts(job) => w.(active := w.active + {job}, cancelled := w.cancelled - {job})
    case Finishes(job) => w.(active := w.active - {job}, cancelled := w.cancelled - {job})
    case Cancels(job) => if job in w.active then w.(cancelled := w.cancelled + {job}) else w
    case Puts(item) => w.(present := w.present + {item})
    case Takes(item) => w.(present := w.present - {item})
  }

  function Play(w: World, es: seq<Event>): World {
    if es == [] then w else Do(Play(w, es[..|es| - 1]), es[|es| - 1])
  }

  lemma {:induction false} PlayConcat(w: World, a: seq<Event>, b: seq<Event>)
    ensures Play(w, a + b) == Play(Play(w, a), b)
  {
    if b == [] {
      assert a + b == a;
    } else {
      var front := b[..|b| - 1];
      assert (a + b)[..|a + b| - 1] == a + front;
      PlayConcat(w, a, front);
    }
  }

  lemma PlayNothing(w: World)
    ensures Play(w, []) == w
  {
  }

  lemma PlayOne(w: World, e: Event)
    ensures Play(w, [e]) == Do(w, e)
  {
    assert [e][..0] == [];
  }

  // ---------- when a cancel is lost, and when an item stays ----------

  /** Nothing from index `from` on starts or finishes a creation of the job. */
  predicate Undisturbed(es: seq<Event>, from: nat, job: string) {
    forall j | from <= j < |es| :: es[j] != Starts(job) && es[j] != Finishes(job)
  }

  /** Event i is a cancel of the job that returned True. */
  predicate AcceptedAt(w: World, es: seq<Event>, i: nat, job: string) {
    i < |es| && es[i] == Cancels(job) && job in Play(w, es[..i]).active
  }

  /** Event i is an accepted cancel with no start or finish of a creation of the same
      job after it. */
  predicate ReachesFrom(w: World, es: seq<Event>, i: nat, job: string) {
    AcceptedAt(w, es, i, job) && Undisturbed(es, i + 1, job)
  }

  ghost predicate Reaches(w: World, es: seq<Event>, job: string) {
    exists i: nat :: ReachesFrom(w, es, i, job)
  }

  lemma ReachesNext(w: World, front: seq<Event>, e: Event, job: string)
    ensures Reaches(w, front + [e], job) <==>
      (e == Cancels(job) && job in Play(w, front).active) || (Reaches(w, front, job) && e != Starts(job) && e != Finishes(job))
  {
    hide Play, Do;
    var es, n := front + [e], |front|;
    assert es[..n] == front;
    forall i: nat | i < n
      ensures ReachesFrom(w, es, i, job) <==> ReachesFrom(w, front, i, job) && e != Starts(job) && e != Finishes(job)
    {
      assert es[..i] == front[..i];
      UndisturbedNext(front, e, i + 1, job);
    }
    assert ReachesFrom(w, es, n, job) <==> e == Cancels(job) && job in Play(w, front).active;
  }

  lemma UndisturbedNext(front: seq<Event>, e: Event, from: nat, job: string)
    requires from <= |front|
    ensures Undisturbed(front + [e], from, job) <==> Undisturbed(front, from, job) && e != Starts(job) && e != Finishes(job)
  {
    var es, n := front + [e], |front|;
    assert forall j | 0 <= j < n :: es[j] == front[j];
    assert es[n] == e;
  }

  /** Between two checkpoints: the second one sees a cancel exactly when an accepted one
      reaches it; so an accepted cancel is lost exactly to a start or a finish. */
  lemma {:induction false} SeenExactly(w: World, es: seq<Event>, job: string)
    requires job !in w.cancelled
    ensures job in Play(w, es).cancelled <==> Reaches(w, es, job)
  {
    hide Reaches;
    if es == [] {
      NothingReaches(w, es, job);
    } else {
      var front, e := es[..|es| - 1], es[|es| - 1];
      assert es == front + [e];
      SeenExactly(w, front, job);
      ReachesNext(w, front, e, job);
    }
  }

  lemma NothingReaches(w: World, none: seq<Event>, job: string)
    requires none == []
    ensures !Reaches(w, none, job)
  {
  }

  /** Nothing from index `from` on takes the item. */
  predicate Untaken(es: seq<Event>, from: nat, item: Item) {
    forall j | from <= j < |es| :: es[j] != Takes(item)
  }

  predicate PutAt(es: seq<Event>, i: nat, item: Item) { i < |es| && es[i] == Puts(item) }

  /** An item that was put at all is there at the end exactly when some put of it is
      followed by no taking. */
  lemma {:induction false} StaysExactly(w: World, es: seq<Event>, item: Item)
    requires Puts(item) in es
    ensures item in Play(w, es).present <==> exists i: nat :: PutAt(es, i, item) && Untaken(es, i + 1, item)
  {
    var n := |es| - 1;
    var front, e := es[..n], es[n];
    assert es == front + [e];
    if e == Puts(item) {
      assert PutAt(es, n, item) && Untaken(es, n + 1, item);
    } else {
      StaysExactly(w, front, item);
      if i: nat :| PutAt(front, i, item) && Untaken(front, i + 1, item) {
        if e != Takes(item) { assert PutAt(es, i, item) && Untaken(es, i + 1, item); }
      }
      if i: nat :| PutAt(es, i, item) && Untaken(es, i + 1, item) {
        assert i < n && es[n] != Takes(item);
        assert forall j | i + 1 <= j < n :: front[j] == es[j];
        assert PutAt(front, i, item) && Untaken(front, i + 1, item);
      }
    }
  }

  /** Where no other creation of the job starts or finishes, every cancel of it is
      accepted, and seen at the next checkpoint. */
  lemma {:induction false} AloneSeen(w: World, es: seq<Event>, job: string)
    requires job in w.active && job !in w.cancelled && Undisturbed(es, 0, job)
    ensures job in Play(w, es).active && (job in Play(w, es).cancelled <==> Cancels(job) in es)
  {
    if es != [] {
      var n := |es| - 1;
      assert es == es[..n] + [es[n]];
      assert forall j | 0 <= j < n :: es[..n][j] == es[j];
      AloneSeen(w, es[..n], job);
    }
  }
}
