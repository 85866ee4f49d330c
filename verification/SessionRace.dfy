/** An open and a sweep running beside each other. An open first installs its key
    and only then enters the table; a sweep takes the table's sessions first, then
    revokes what expired, then reads the file, then revokes what it does not know. */
module SessionRace {
  import opened SshKeys
  import opened SessionGrants

  /** Where the sweep is: its known and expired ids, and the ids it still revokes. */
  datatype Sweeper =
    | Idle
    | Expiring(known: set<string>, expired: set<string>)
    | Reading(known: set<string>)
    | Revoking(known: set<string>, orphans: set<string>)

  datatype World = World(lines: seq<string>, open: Table, sweeper: Sweeper)

  /** One step; a grant and its registration, a close's revocation and removal, and
      the sweep's revocations are steps of their own. */
  datatype Step =
    | Grant(key: string, id: string)
    | Register(id: string, session: Session)
    | Revoke(id: string)
    | Remove(id: string)
    | Snapshot(now: real)
    | RevokeExpired(id: string)
    | ExpiredDone
    | ReadFile
    | RevokeOrphan(id: string)
    | SweepDone

  predicate Enabled(w: World, step: Step) {
    match step
    case Grant(key, id) => ProperKey(key) && ProperId(id)
    case Snapshot(_) => w.sweeper.Idle?
    case RevokeExpired(id) => w.sweeper.Expiring? && id in w.sweeper.expired
    case ExpiredDone => w.sweeper.Expiring? && w.sweeper.expired == {}
    case ReadFile => w.sweeper.Reading?
    case RevokeOrphan(id) => w.sweeper.Revoking? && id in w.sweeper.orphans
    case SweepDone => w.sweeper.Revoking? && w.sweeper.orphans == {}
    case _ => true
  }

  function Next(w: World, step: Step): World
    requires Enabled(w, step)
  {
    match step
    case Grant(key, id) => w.(lines := Granted(w.lines, key, id))
    case Register(id, session) => w.(open := w.open[id := session])
    case Revoke(id) => w.(lines := Drop(w.lines, {id}))
    case Remove(id) => w.(open := w.open - {id})
    case Snapshot(now) =>
      var expired := Expired(w.open, now);
      World(w.lines, w.open - expired, Expiring(w.open.Keys - expired, expired))
    case RevokeExpired(id) =>
      w.(lines := Drop(w.lines, {id}), sweeper := Expiring(w.sweeper.known, w.sweeper.expired - {id}))
    case ExpiredDone => w.(sweeper := Reading(w.sweeper.known))
    case ReadFile => w.(sweeper := Revoking(w.sweeper.known, Orphans(w.lines, w.sweeper.known)))
    case RevokeOrphan(id) =>
      w.(lines := Drop(w.lines, {id}), sweeper := Revoking(w.sweeper.known, w.sweeper.orphans - {id}))
    case SweepDone => w.(sweeper := Idle)
  }

  ghost predicate IsRun(worlds: seq<World>, steps: seq<Step>) {
    && |worlds| == |steps| + 1
    && forall k | 0 <= k < |steps| :: Enabled(worlds[k], steps[k]) && worlds[k + 1] == Next(worlds[k], steps[k])
  }

  /** What the sweep will still revoke is nothing it knows. */
  predicate Apart(sweeper: Sweeper) {
    match sweeper
    case Expiring(known, expired) => known !! expired
    case Revoking(known, orphans) => known !! orphans
    case _ => true
  }

  lemma StepKeepsTidy(w: World, step: Step)
    requires Enabled(w, step) && Tidy(w.lines) && Apart(w.sweeper)
    ensures Tidy(Next(w, step).lines) && Apart(Next(w, step).sweeper)
  {
    hide Tidy, Drop, Shown, Granted, Ids, Unmarked;
    match step
    case Grant(key, id) => GrantTidy(w.lines, key, id);
    case Revoke(id) => DropTidy(w.lines, {id});
    case RevokeExpired(id) => DropTidy(w.lines, {id});
    case RevokeOrphan(id) => DropTidy(w.lines, {id});
    case _ =>
  }

  /** A sweep's own steps never take a known session's key; nobody takes it but a
      revocation of that very id. */
  lemma StepKeepsKey(w: World, step: Step, id: string)
    requires Enabled(w, step) && Tidy(w.lines) && Apart(w.sweeper) && id in Ids(w.lines)
    requires w.sweeper.Idle? || id in w.sweeper.known
    requires step != Revoke(id)
    ensures id in Ids(Next(w, step).lines)
  {
    hide Tidy, Drop, Shown, Granted, Ids, Unmarked;
    match step
    case Grant(key, other) => GrantTidy(w.lines, key, other);
    case Revoke(other) => DropTidy(w.lines, {other});
    case RevokeExpired(other) => DropTidy(w.lines, {other});
    case RevokeOrphan(other) => DropTidy(w.lines, {other});
    case _ =>
  }

  lemma KnownStays(w: World, step: Step)
    requires Enabled(w, step) && !step.Snapshot? && !step.SweepDone?
    ensures w.sweeper.Idle? <==> Next(w, step).sweeper.Idle?
    ensures !w.sweeper.Idle? ==> Next(w, step).sweeper.known == w.sweeper.known
  {
  }

  /** In any interleaving of any opens, closes and one sweep, a session that was in
      the table and unexpired when the sweep took its snapshot, with its key in the
      file, still has the key at every later point of the sweep, unless its own id
      is revoked by a close. */
  lemma {:induction false} RegisteredKeepsKey(worlds: seq<World>, steps: seq<Step>, id: string, k: nat)
    requires IsRun(worlds, steps) && |steps| > 0 && 1 <= k < |worlds|
    requires Tidy(worlds[0].lines) && Apart(worlds[0].sweeper) && id in Ids(worlds[0].lines)
    requires steps[0].Snapshot? && id in worlds[0].open && worlds[0].open[id].expiresAt > steps[0].now
    requires forall j | 1 <= j < |steps| :: !steps[j].Snapshot? && !steps[j].SweepDone? && steps[j] != Revoke(id)
    ensures id in Ids(worlds[k].lines) && Tidy(worlds[k].lines) && Apart(worlds[k].sweeper)
    ensures !worlds[k].sweeper.Idle? && id in worlds[k].sweeper.known
    decreases k
  {
    hide Tidy, Ids, Apart, Next, Enabled;
    var w, step := worlds[k - 1], steps[k - 1];
    assert Enabled(w, step) && worlds[k] == Next(w, step);
    if k == 1 {
      Snapped(w, step, id);
    } else {
      RegisteredKeepsKey(worlds, steps, id, k - 1);
      KnownStays(w, step);
      StepKeepsKey(w, step, id);
      StepKeepsTidy(w, step);
    }
  }

  lemma Snapped(w: World, step: Step, id: string)
    requires Enabled(w, step) && step.Snapshot? && id in w.open && w.open[id].expiresAt > step.now
    ensures var v := Next(w, step);
      v.lines == w.lines && Apart(v.sweeper) && !v.sweeper.Idle? && id in v.sweeper.known
  {
  }

  // ---------- exactly when an open loses its key ----------

  /** What one step does to the ids a tidy file shows. */
  function ShownAfter(ids: set<string>, step: Step): set<string> {
    match step
    case Grant(_, id) => ids + {id}
    case Revoke(id) => ids - {id}
    case RevokeExpired(id) => ids - {id}
    case RevokeOrphan(id) => ids - {id}
    case _ => ids
  }

  lemma StepIds(w: World, step: Step)
    requires Enabled(w, step) && Tidy(w.lines)
    ensures Tidy(Next(w, step).lines) && Ids(Next(w, step).lines) == ShownAfter(Ids(w.lines), step)
    ensures step.ReadFile? ==> Orphans(w.lines, w.sweeper.known) == Ids(w.lines) - w.sweeper.known
  {
    hide Tidy, Drop, Shown, Granted, Ids, Unmarked;
    match step
    case Grant(key, id) => GrantTidy(w.lines, key, id);
    case Revoke(id) => DropTidy(w.lines, {id});
    case RevokeExpired(id) => DropTidy(w.lines, {id});
    case RevokeOrphan(id) => DropTidy(w.lines, {id});
    case ReadFile => ShownAreIds(w.lines);
    case _ =>
  }

  /** An open of `id` and one whole sweep: the indices of the grant, of the
      registration, of the snapshot and of the reading of the file. */
  datatype Race = Race(key: string, id: string, session: Session, now: real,
                       grant: nat, register: nat, snapshot: nat, read: nat) {
    /** The steps are those of the race, in any order that keeps each side's own. */
    predicate Of(steps: seq<Step>) {
      && grant < register < |steps| && snapshot < read < |steps|
      && steps[grant] == Grant(key, id) && steps[register] == Register(id, session)
      && steps[snapshot] == Snapshot(now) && steps[read] == ReadFile && session.expiresAt > now
      && forall j | 0 <= j < |steps| && j != grant && j != register && j != snapshot && j != read ::
           steps[j].RevokeExpired? || steps[j].ExpiredDone? || steps[j].RevokeOrphan? || steps[j].SweepDone?
    }

    /** The session is in the table when the sweep takes its snapshot. */
    predicate Early() { register < snapshot }

    /** What the sweep finds expired, and what it takes for known, when `open` is the
        table at the start. */
    function Gone(open: Table): set<string> { Expired(open, now) - if Early() then {id} else {} }

    function Kept(open: Table): set<string> {
      (open.Keys - Expired(open, now)) + if Early() then {id} else {}
    }
  }

  /** The table after k steps. */
  ghost predicate TableAt(race: Race, start: Table, w: World, k: nat) {
    var registered := if k > race.register then {race.id} else {};
    if k <= race.snapshot
    then w.open == if k > race.register then start[race.id := race.session] else start
    else w.open.Keys == race.Kept(start) + registered
  }

  /** The sweep's progress after k steps. */
  ghost predicate SweepAt(race: Race, start: Table, w: World, k: nat) {
    match w.sweeper
    case Idle => k <= race.snapshot || k > race.read
    case Expiring(known, expired) => race.snapshot < k <= race.read && known == race.Kept(start) && expired <= race.Gone(start)
    case Reading(known) => race.snapshot < k <= race.read && known == race.Kept(start)
    case Revoking(known, orphans) =>
      && k > race.read && known == race.Kept(start) && orphans <= {race.id} - known
      && (race.grant > race.read ==> orphans == {})
  }

  /** The ids, other than the race's, that the file still shows. */
  function Left(race: Race, start: Table, w: World, k: nat): set<string> {
    if k <= race.snapshot then start.Keys
    else race.Kept(start) + if w.sweeper.Expiring? then w.sweeper.expired else {}
  }

  /** The race's own id in the file after k steps. */
  ghost predicate OwnAt(race: Race, start: Table, w: World, k: nat) {
    var shown := race.id in Ids(w.lines);
    if k <= race.snapshot then shown <==> race.id in start || k > race.grant
    else if race.id in race.Kept(start) then shown
    else if k <= race.read then shown ==> race.id in Left(race, start, w, k) || k > race.grant
    else if race.grant < race.read then shown ==> w.sweeper.Revoking? && race.id in w.sweeper.orphans
    else shown <==> k > race.grant
  }

  ghost predicate RaceInv(race: Race, start: Table, w: World, k: nat) {
    && Tidy(w.lines) && TableAt(race, start, w, k) && SweepAt(race, start, w, k) && OwnAt(race, start, w, k)
    && Ids(w.lines) - {race.id} == Left(race, start, w, k) - {race.id}
  }

  ghost predicate Stands(race: Race, start: Table, w: World, steps: seq<Step>, k: nat) {
    race.Of(steps) && k < |steps| && Enabled(w, steps[k]) && RaceInv(race, start, w, k)
  }

  predicate Unexpired(open: Table, id: string, now: real) {
    id in open && open[id].expiresAt > now
  }

  lemma SnapshotTable(race: Race, start: Table)
    requires race.session.expiresAt > race.now
    ensures var open := if race.Early() then start[race.id := race.session] else start;
      Expired(open, race.now) == race.Gone(start) && open.Keys - Expired(open, race.now) == race.Kept(start)
    ensures race.Kept(start) !! race.Gone(start)
    ensures (race.Kept(start) + race.Gone(start)) - {race.id} == start.Keys - {race.id}
    ensures race.id in race.Kept(start) <==> race.Early() || Unexpired(start, race.id, race.now)
  {
  }

  lemma NextTable(race: Race, start: Table, w: World, steps: seq<Step>, k: nat)
    requires Stands(race, start, w, steps, k)
    ensures TableAt(race, start, Next(w, steps[k]), k + 1)
  {
    hide Tidy, Ids, Drop, Shown, Granted, Orphans, OwnAt, Left;
    SnapshotTable(race, start);
  }

  lemma NextSweep(race: Race, start: Table, w: World, steps: seq<Step>, k: nat)
    requires Stands(race, start, w, steps, k)
    ensures SweepAt(race, start, Next(w, steps[k]), k + 1)
  {
    hide Tidy, Ids, Drop, Shown, Granted, Orphans, Race.Kept, Race.Gone;
    StepIds(w, steps[k]);
    SnapshotTable(race, start);
    if k == race.read {
      var orphans := Next(w, steps[k]).sweeper.orphans;
      assert orphans == Ids(w.lines) - race.Kept(start);
      forall x | x in orphans ensures x == race.id && race.grant < race.read {
        assert x in Ids(w.lines) - {race.id} <==> x in race.Kept(start) - {race.id};
      }
      assert orphans <= {race.id} - race.Kept(start);
    }
  }

  lemma NextOwn(race: Race, start: Table, w: World, steps: seq<Step>, k: nat)
    requires Stands(race, start, w, steps, k)
    ensures OwnAt(race, start, Next(w, steps[k]), k + 1)
  {
    hide Tidy, Ids, Drop, Shown, Granted, Orphans;
    StepIds(w, steps[k]);
    SnapshotTable(race, start);
  }

  lemma NextLeft(race: Race, start: Table, w: World, steps: seq<Step>, k: nat)
    requires Stands(race, start, w, steps, k)
    ensures var n := Next(w, steps[k]); Ids(n.lines) - {race.id} == Left(race, start, n, k + 1) - {race.id}
  {
    hide Tidy, Ids, Drop, Shown, Granted, Orphans, OwnAt, Race.Kept, Race.Gone;
    var n, step := Next(w, steps[k]), steps[k];
    StepIds(w, step);
    SnapshotTable(race, start);
    forall x | x != race.id ensures x in Ids(n.lines) <==> x in Left(race, start, n, k + 1) {
      assert x in Ids(w.lines) - {race.id} <==> x in Left(race, start, w, k) - {race.id};
      if k == race.snapshot {
        assert x in (race.Kept(start) + race.Gone(start)) - {race.id} <==> x in start.Keys - {race.id};
      }
    }
  }

  lemma StepKeepsRace(race: Race, start: Table, w: World, steps: seq<Step>, k: nat)
    requires Stands(race, start, w, steps, k)
    ensures RaceInv(race, start, Next(w, steps[k]), k + 1)
  {
    hide Tidy, Ids, Next, TableAt, SweepAt, OwnAt, Left, Enabled;
    StepIds(w, steps[k]);
    NextTable(race, start, w, steps, k);
    NextSweep(race, start, w, steps, k);
    NextOwn(race, start, w, steps, k);
    NextLeft(race, start, w, steps, k);
  }

  lemma RaceStarts(race: Race, w: World)
    requires w.sweeper.Idle? && Tidy(w.lines) && Ids(w.lines) == w.open.Keys
    ensures RaceInv(race, w.open, w, 0)
  {
  }

  lemma {:induction false} RaceAlways(race: Race, worlds: seq<World>, steps: seq<Step>, k: nat)
    requires race.Of(steps) && IsRun(worlds, steps) && k < |worlds|
    requires worlds[0].sweeper.Idle? && Tidy(worlds[0].lines) && Ids(worlds[0].lines) == worlds[0].open.Keys
    ensures RaceInv(race, worlds[0].open, worlds[k], k)
  {
    hide Next, Enabled, Tidy, Ids, OwnAt, Left;
    if k == 0 {
      RaceStarts(race, worlds[0]);
    } else {
      RaceAlways(race, worlds, steps, k - 1);
      StepKeepsRace(race, worlds[0].open, worlds[k - 1], steps, k - 1);
    }
  }

  /** One open beside one sweep, step by step and in every interleaving: the new
      session is in the table at the end, and its key is lost exactly when it was
      granted before the sweep read the file, registered after the snapshot, and
      the sweep did not know the id from an unexpired session. All other unexpired
      sessions, and none of the expired ones, are left in table and file. */
  lemma RaceExact(race: Race, worlds: seq<World>, steps: seq<Step>)
    requires race.Of(steps) && IsRun(worlds, steps)
    requires worlds[0].sweeper.Idle? && Tidy(worlds[0].lines) && Ids(worlds[0].lines) == worlds[0].open.Keys
    requires worlds[|steps|].sweeper.Idle?
    ensures var w, open := worlds[|steps|], worlds[0].open;
      var lost := race.grant < race.read && race.snapshot < race.register && !Unexpired(open, race.id, race.now);
      && Tidy(w.lines) && w.open.Keys == open.Keys - Expired(open, race.now) + {race.id}
      && Ids(w.lines) == (if lost then w.open.Keys - {race.id} else w.open.Keys)
  {
    hide Tidy, Ids, Race.Kept, Race.Gone;
    var w, open := worlds[|steps|], worlds[0].open;
    RaceAlways(race, worlds, steps, |steps|);
    SnapshotTable(race, open);
    assert race.Kept(open) + {race.id} == open.Keys - Expired(open, race.now) + {race.id} by {
      KeptIs(race, open);
    }
    var left := race.Kept(open) - {race.id};
    assert Ids(w.lines) - {race.id} == left;
    assert Ids(w.lines) == if race.id in Ids(w.lines) then left + {race.id} else left;
  }

  lemma KeptIs(race: Race, open: Table)
    ensures race.Kept(open) + {race.id} == open.Keys - Expired(open, race.now) + {race.id}
  {
  }

  /** Such a run exists whenever nothing has expired and the id is new: the sweep
      falls between the grant and the registration. */
  lemma KeyLost(w: World, race: Race) returns (worlds: seq<World>, steps: seq<Step>)
    requires w.sweeper.Idle? && Tidy(w.lines) && Ids(w.lines) == w.open.Keys
    requires ProperKey(race.key) && ProperId(race.id) && race.session.expiresAt > race.now
    requires Expired(w.open, race.now) == {} && race.id !in w.open
    requires race.grant == 0 && race.snapshot == 1 && race.read == 3 && race.register == 5
    ensures race.Of(steps) && IsRun(worlds, steps) && worlds[0] == w && worlds[|steps|].sweeper.Idle?
    ensures race.id in worlds[|steps|].open && race.id !in Ids(worlds[|steps|].lines)
  {
    hide Tidy, Ids, Drop, Shown, Granted, Orphans, ProperKey, ProperId;
    var id := race.id;
    steps := [Grant(race.key, id), Snapshot(race.now), ExpiredDone, ReadFile, RevokeOrphan(id), Register(id, race.session), SweepDone];
    StepIds(w, steps[0]);
    var w1 := Next(w, steps[0]);
    StepIds(w1, steps[1]);
    var w2 := Next(w1, steps[1]);
    assert w2.sweeper == Expiring(w.open.Keys, {});
    StepIds(w2, steps[2]);
    var w3 := Next(w2, steps[2]);
    StepIds(w3, steps[3]);
    var w4 := Next(w3, steps[3]);
    assert w4.sweeper.orphans == {id};
    StepIds(w4, steps[4]);
    var w5 := Next(w4, steps[4]);
    assert w5.sweeper.orphans == {};
    StepIds(w5, steps[5]);
    var w6 := Next(w5, steps[5]);
    var w7 := Next(w6, steps[6]);
    worlds := [w, w1, w2, w3, w4, w5, w6, w7];
    StepIds(w6, steps[6]);
  }

  // ---------- any number of opens, closes and sweeps ----------

  predicate TakesAway(step: Step, id: string) {
    step == Revoke(id) || step == RevokeExpired(id) || step == RevokeOrphan(id)
  }

  /** Step i grants the id its key, and no step after it takes that away. */
  predicate GrantedFrom(steps: seq<Step>, i: nat, n: nat, id: string) {
    && i < n <= |steps| && steps[i].Grant? && steps[i].id == id
    && forall j | i < j < n :: !TakesAway(steps[j], id)
  }

  predicate NeverTaken(steps: seq<Step>, n: nat, id: string)
    requires n <= |steps|
  {
    forall j | 0 <= j < n :: !TakesAway(steps[j], id)
  }

  /** In any run at all, the file shows an id exactly when it was granted and not taken
      away since, or was there and never taken away. */
  lemma {:induction false} ShownExactly(worlds: seq<World>, steps: seq<Step>, n: nat, id: string)
    requires IsRun(worlds, steps) && n < |worlds| && Tidy(worlds[0].lines)
    ensures Tidy(worlds[n].lines)
    ensures id in Ids(worlds[n].lines) <==>
      (exists i: nat :: GrantedFrom(steps, i, n, id)) || (id in Ids(worlds[0].lines) && NeverTaken(steps, n, id))
  {
    hide Tidy, Ids, Next, Enabled;
    if n > 0 {
      var m := n - 1;
      ShownExactly(worlds, steps, m, id);
      assert Enabled(worlds[m], steps[m]) && worlds[m + 1] == Next(worlds[m], steps[m]);
      StepIds(worlds[m], steps[m]);
      if steps[m].Grant? && steps[m].id == id { assert GrantedFrom(steps, m, n, id); }
      forall i: nat | i < m ensures GrantedFrom(steps, i, n, id) <==> GrantedFrom(steps, i, m, id) && !TakesAway(steps[m], id) {
        if GrantedFrom(steps, i, n, id) { assert !TakesAway(steps[m], id); }
      }
      assert NeverTaken(steps, n, id) <==> NeverTaken(steps, m, id) && !TakesAway(steps[m], id);
    }
  }

  /** The sweep that took its snapshot at s has revoked the id before step k. */
  predicate RevokedBy(steps: seq<Step>, s: nat, k: nat, id: string)
    requires k <= |steps|
  {
    exists j | s < j < k :: Revokes(steps[j], id)
  }

  predicate Revokes(step: Step, id: string) { step == RevokeExpired(id) || step == RevokeOrphan(id) }

  lemma RevokedNext(steps: seq<Step>, s: nat, k: nat, id: string)
    requires s < k < |steps|
    ensures RevokedBy(steps, s, k + 1, id) <==> RevokedBy(steps, s, k, id) || Revokes(steps[k], id)
  {
  }

  /** One whole sweep in a run: its snapshot, its reading of the file, and its end. */
  ghost predicate IsSweep(steps: seq<Step>, s: nat, f: nat, d: nat, now: real) {
    && s < f < d < |steps| && steps[s] == Snapshot(now) && steps[f] == ReadFile && steps[d] == SweepDone
    && (forall k | s < k < d :: steps[k] != SweepDone) && (forall k | s < k < f :: steps[k] != ReadFile)
  }

  /** The sweep's progress before step k, for one id. */
  ghost predicate SweepInv(start: Table, shown: bool, now: real, w: World, revoked: bool, read: bool, id: string) {
    var expired := Expired(start, now);
    var known := start.Keys - expired;
    match w.sweeper
    case Idle => false
    case Expiring(k, ex) => !read && k == known && (id in ex ==> id in expired) && (revoked <==> id in expired && id !in ex)
    case Reading(k) => !read && k == known && (revoked <==> id in expired)
    case Revoking(k, orphans) =>
      && read && (id in orphans ==> shown && id !in known)
      && (revoked <==> id in expired || (shown && id !in known && id !in orphans))
  }

  lemma {:induction false} SweepAlways(worlds: seq<World>, steps: seq<Step>, s: nat, f: nat, d: nat, now: real, id: string, k: nat)
    requires IsRun(worlds, steps) && Tidy(worlds[0].lines) && IsSweep(steps, s, f, d, now) && s < k <= d
    ensures SweepInv(worlds[s].open, id in Ids(worlds[f].lines), now, worlds[k], RevokedBy(steps, s, k, id), k > f, id)
  {
    hide Tidy, Ids, Drop, Shown, Granted, Orphans;
    var j := k - 1;
    assert Enabled(worlds[j], steps[j]) && worlds[j + 1] == Next(worlds[j], steps[j]);
    if j > s {
      SweepAlways(worlds, steps, s, f, d, now, id, j);
      RevokedNext(steps, s, j, id);
      ShownExactly(worlds, steps, j, id);
      StepIds(worlds[j], steps[j]);
      if j > f { NoSecondRead(worlds, steps, s, f, d, now, id, j); }
    }
  }

  lemma NoSecondRead(worlds: seq<World>, steps: seq<Step>, s: nat, f: nat, d: nat, now: real, id: string, j: nat)
    requires f < j < d <= |steps| && j < |worlds| && Enabled(worlds[j], steps[j])
    requires s < f && SweepInv(worlds[s].open, id in Ids(worlds[f].lines), now, worlds[j], RevokedBy(steps, s, j, id), true, id)
    ensures steps[j] != ReadFile && !steps[j].Snapshot?
  {
    hide Ids;
  }

  /** Whatever opens, closes and registrations run beside it, a whole sweep revokes an
      id exactly when it was in the table and expired at the snapshot, or the file
      showed it when it was read and the table had no unexpired session of it at the
      snapshot. */
  lemma SweepRevokesExactly(worlds: seq<World>, steps: seq<Step>, s: nat, f: nat, d: nat, now: real, id: string)
    requires IsRun(worlds, steps) && Tidy(worlds[0].lines) && IsSweep(steps, s, f, d, now)
    ensures RevokedBy(steps, s, d, id) <==>
      id in Expired(worlds[s].open, now) || (id in Ids(worlds[f].lines) && !Unexpired(worlds[s].open, id, now))
  {
    hide Tidy, Ids;
    SweepAlways(worlds, steps, s, f, d, now, id, d);
    assert Enabled(worlds[d], steps[d]);
  }
}
