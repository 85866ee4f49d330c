/** Power caps with a record saved before each change. What the commands answer is a
    parameter: a limit command may fail before or after taking effect, and a reading
    may fail. */
module PowerCaps {
  import opened Rounding

  /** The saved file: each card's limit before its first outstanding cap, and the
      cards each job has asked to cap. */
  datatype Records = Records(gpus: map<string, real>, jobs: map<string, seq<string>>)

  function Listed(r: Records, job: string): seq<string> {
    if job in r.jobs then r.jobs[job] else []
  }

  function Remember(r: Records, uuid: string, original: real, job: string): Records {
    var cards := Listed(r, job);
    Records(if uuid in r.gpus then r.gpus else r.gpus[uuid := original],
            r.jobs[job := if uuid in cards then cards else cards + [uuid]])
  }

  function Without(cards: seq<string>, uuid: string): (s: seq<string>)
    ensures forall c :: c in s <==> c in cards && c != uuid
  {
    if cards == [] then []
    else (if cards[0] == uuid then [] else [cards[0]]) + Without(cards[1..], uuid)
  }

  function Forget(r: Records, uuid: string, job: string): Records {
    var remaining := Without(Listed(r, job), uuid);
    Records(r.gpus - {uuid}, if remaining == [] then r.jobs - {job} else r.jobs[job := remaining])
  }

  ghost predicate HasOwner(r: Records, uuid: string) {
    exists job :: job in r.jobs && uuid in r.jobs[job]
  }

  /** Every record can be found again through some job. */
  ghost predicate Owned(r: Records) {
    forall uuid :: uuid in r.gpus ==> HasOwner(r, uuid)
  }

  /** `base` is the limit each card had before its first outstanding cap: a card
      with a record has it recorded, a card without has it set, up to the
      rounding of the limit command. */
  ghost predicate Consistent(limits: map<string, real>, r: Records, base: map<string, real>) {
    && base.Keys == limits.Keys && r.gpus.Keys <= limits.Keys && Owned(r)
    && (forall u :: u in r.gpus ==> r.gpus[u] == base[u])
    && (forall u :: u in limits && u !in r.gpus ==> Abs(limits[u] - base[u]) <= 0.5)
  }

  lemma RememberOwned(r: Records, uuid: string, original: real, job: string)
    requires Owned(r)
    ensures Owned(Remember(r, uuid, original, job))
  {
    var s := Remember(r, uuid, original, job);
    forall u | u in s.gpus ensures HasOwner(s, u) {
      if u == uuid {
        assert u in s.jobs[job];
      } else {
        assert HasOwner(r, u);
        var owner :| owner in r.jobs && u in r.jobs[owner];
        assert owner in s.jobs && u in s.jobs[owner];
      }
    }
  }

  /** Recording what a card shows keeps the file consistent, and names its base. */
  lemma RememberConsistent(limits: map<string, real>, r: Records, base: map<string, real>, uuid: string, job: string)
    requires Consistent(limits, r, base) && uuid in limits
    ensures Consistent(limits, Remember(r, uuid, limits[uuid], job),
                       if uuid in r.gpus then base else base[uuid := limits[uuid]])
  {
    hide Owned, Abs, Listed;
    RememberOwned(r, uuid, limits[uuid], job);
  }

  /** A recorded card may be set to anything. */
  lemma SetConsistent(limits: map<string, real>, r: Records, base: map<string, real>, uuid: string, watts: real)
    requires Consistent(limits, r, base) && uuid in r.gpus
    ensures Consistent(limits[uuid := watts], r, base)
  {
  }

  /** A card back at its recorded limit may be forgotten, whichever job asks. */
  lemma ForgetConsistent(limits: map<string, real>, r: Records, base: map<string, real>, uuid: string, job: string)
    requires Consistent(limits, r, base) && uuid in limits
    requires uuid in r.gpus ==> limits[uuid] == Round(base[uuid]) as real
    ensures Consistent(limits, Forget(r, uuid, job), base)
  {
    var s := Forget(r, uuid, job);
    RoundClose(base[uuid]);
    forall u | u in s.gpus ensures HasOwner(s, u) {
      assert HasOwner(r, u);
      var owner :| owner in r.jobs && u in r.jobs[owner];
      assert u in Listed(r, owner);
      assert owner in s.jobs && u in s.jobs[owner];
    }
  }

  lemma RememberLists(r: Records, uuid: string, original: real, job: string, u: string)
    ensures var s := Remember(r, uuid, original, job);
      && (u in s.gpus <==> u in r.gpus || u == uuid) && (u in r.gpus ==> s.gpus[u] == r.gpus[u])
      && (u in Listed(s, job) <==> u in Listed(r, job) || u == uuid)
  {
  }

  lemma ForgetLists(r: Records, uuid: string, job: string, u: string)
    ensures var s := Forget(r, uuid, job);
      && (u in s.gpus <==> u in r.gpus && u != uuid) && (u in s.gpus ==> s.gpus[u] == r.gpus[u])
      && (u in Listed(s, job) <==> u in Listed(r, job) && u != uuid)
  {
  }

  /** No job is kept with an empty list of cards. */
  predicate NoneEmpty(r: Records) { forall job :: job in r.jobs ==> r.jobs[job] != [] }

  lemma ListsStayNonEmpty(r: Records, uuid: string, original: real, job: string)
    requires NoneEmpty(r)
    ensures NoneEmpty(Remember(r, uuid, original, job)) && NoneEmpty(Forget(r, uuid, job))
  {
  }

  predicate Once(cards: seq<string>) { forall i, j | 0 <= i < j < |cards| :: cards[i] != cards[j] }

  /** No job lists a card twice. */
  predicate EachOnce(r: Records) { forall job :: job in r.jobs ==> Once(r.jobs[job]) }

  lemma {:induction false} WithoutOnce(cards: seq<string>, uuid: string)
    requires Once(cards)
    ensures Once(Without(cards, uuid))
  {
    if cards != [] {
      WithoutOnce(cards[1..], uuid);
      var rest := Without(cards[1..], uuid);
      forall i | 0 <= i < |rest| ensures rest[i] != cards[0] { assert rest[i] in rest; }
    }
  }

  lemma ListsStayDistinct(r: Records, uuid: string, original: real, job: string)
    requires EachOnce(r)
    ensures EachOnce(Remember(r, uuid, original, job)) && EachOnce(Forget(r, uuid, job))
  {
    hide Without;
    assert Once(Listed(r, job));
    WithoutOnce(Listed(r, job), uuid);
  }

  function Clamp(requested: real, low: real, high: real): real {
    var raised := if requested < low then low else requested;
    if raised > high then high else raised
  }

  /** A request is kept within the card's range, and beyond it the nearer bound. */
  lemma ClampInRange(requested: real, low: real, high: real)
    requires low <= high
    ensures low <= Clamp(requested, low, high) <= high
    ensures low <= requested <= high ==> Clamp(requested, low, high) == requested
    ensures requested < low ==> Clamp(requested, low, high) == low
    ensures requested > high ==> Clamp(requested, low, high) == high
  {
  }

  /** So the card never shows more than its rounded range. */
  lemma TargetInRange(cap: Cap)
    requires cap.low <= cap.high
    ensures Round(cap.low) as real <= cap.Target() <= Round(cap.high) as real
    ensures cap.low <= cap.requested <= cap.high ==> Abs(cap.Target() - cap.requested) <= 0.5
  {
    hide Round, Abs;
    ClampInRange(cap.requested, cap.low, cap.high);
    RoundMonotone(cap.low, Clamp(cap.requested, cap.low, cap.high));
    RoundMonotone(Clamp(cap.requested, cap.low, cap.high), cap.high);
    RoundClose(Clamp(cap.requested, cap.low, cap.high));
  }

  datatype Cap = Cap(uuid: string, requested: real, low: real, high: real) {
    /** What the card shows once the cap is set. */
    function Target(): real { Round(Clamp(requested, low, high)) as real }
  }

  /** The card shows its cap and is recorded under the job. */
  ghost predicate Capped(limits: map<string, real>, r: Records, cap: Cap, job: string) {
    cap.uuid in limits && limits[cap.uuid] == cap.Target() && cap.uuid in r.gpus && cap.uuid in Listed(r, job)
  }

  lemma CappedShows(limits: map<string, real>, r: Records, cap: Cap, job: string)
    requires Capped(limits, r, cap, job)
    ensures cap.uuid in limits && limits[cap.uuid] == cap.Target()
  {
  }

  lemma CapKeepsOthers(limits: map<string, real>, r: Records, cap: Cap, job: string, original: real, other: Cap)
    requires Capped(limits, r, other, job) && other.uuid != cap.uuid
    ensures Capped(limits[cap.uuid := cap.Target()], Remember(r, cap.uuid, original, job), other, job)
  {
    RememberLists(r, cap.uuid, original, job, other.uuid);
    hide Remember, Listed;
  }

  lemma CapTakes(limits: map<string, real>, r: Records, cap: Cap, job: string, original: real)
    ensures Capped(limits[cap.uuid := cap.Target()], Remember(r, cap.uuid, original, job), cap, job)
  {
    RememberLists(r, cap.uuid, original, job, cap.uuid);
    hide Remember, Listed;
  }

  predicate Wanted(caps: seq<Cap>, u: string) {
    exists i | 0 <= i < |caps| :: caps[i].uuid == u
  }

  /** A rig, as its commands see it, and the record file. */
  class Host {
    var limits: map<string, real>
    var records: Records
    ghost var base: map<string, real>

    ghost predicate Valid()
      reads this
    {
      Consistent(limits, records, base)
    }

    constructor (initial: map<string, real>)
      ensures Valid() && limits == base == initial && records == Records(map[], map[])
    {
      limits, base, records := initial, initial, Records(map[], map[]);
    }

    /** `read_state`: None when the query fails. */
    method ReadLimit(uuid: string, readable: bool) returns (limit: real, ok: bool)
      requires uuid in limits
      ensures ok == readable && limit == limits[uuid]
    {
      limit, ok := limits[uuid], readable;
    }

    /** `set_limit`: the card may come to show anything; success is reported exactly when
        the command succeeds and what it shows reads back within one watt. */
    method SetLimit(uuid: string, watts: real, r: LimitReply, shown: real) returns (ok: bool)
      requires uuid in limits
      modifies this`limits
      ensures limits == if r.commandOk || r.effect then old(limits)[uuid := shown] else old(limits)
      ensures ok <==> Succeeds(r) && -1.0 <= shown - watts <= 1.0
    {
      if r.commandOk || r.effect { limits := limits[uuid := shown]; }
      if !r.commandOk { return false; }
      var limit, read := ReadLimit(uuid, r.readBack);
      ok := read && Abs(limit - watts) <= 1.0;
    }

    /** `set_limit` on a card that shows the rounded value it is given. */
    method SetExactly(uuid: string, watts: real, r: LimitReply) returns (ok: bool)
      requires uuid in limits
      modifies this`limits
      ensures limits == if r.commandOk || r.effect then old(limits)[uuid := Round(watts) as real] else old(limits)
      ensures ok <==> Succeeds(r)
    {
      RoundClose(watts);
      hide Round;
      ok := SetLimit(uuid, watts, r, Round(watts) as real);
    }

    /** One turn of the loop of `restore_job`. */
    method RestoreCard(uuid: string, job: string, r: LimitReply) returns (ok: bool)
      requires Valid() && uuid in limits
      modifies this`limits, this`records
      ensures Valid()
      ensures records == if uuid in old(records.gpus) && !Succeeds(r) then old(records) else Forget(old(records), uuid, job)
      ensures ok <==> uuid in old(records.gpus) && Succeeds(r)
      ensures ok ==> limits[uuid] == Round(base[uuid]) as real
      ensures limits == if uuid in old(records.gpus) && (r.commandOk || r.effect)
                        then old(limits)[uuid := Round(old(records.gpus)[uuid]) as real] else old(limits)
    {
      hide Round, Abs;
      ForgetLists(records, uuid, job, uuid);
      ok := false;
      if uuid !in records.gpus {
        ForgetConsistent(limits, records, base, uuid, job);
        records := Forget(records, uuid, job);
      } else {
        ghost var before := limits;
        ok := SetExactly(uuid, records.gpus[uuid], r);
        SetConsistent(before, records, base, uuid, limits[uuid]);
        assert limits == before[uuid := limits[uuid]];
        if ok {
          ForgetConsistent(limits, records, base, uuid, job);
          records := Forget(records, uuid, job);
        }
      }
    }

    /** `restore_job`: every card the job lists whose limit command succeeds is put
        back and forgotten, every other stays recorded under the job, and no other
        card is touched. */
    method RestoreJob(job: string, replies: nat -> LimitReply) returns (restored: seq<string>)
      requires Valid()
      requires forall u :: u in Listed(records, job) ==> u in limits
      modifies this`limits, this`records
      ensures Valid() && limits.Keys == old(limits).Keys
      ensures forall u :: u in restored ==> u in old(Listed(records, job)) && u !in records.gpus
      ensures forall u :: u in old(Listed(records, job)) && u in records.gpus ==> u in Listed(records, job)
      ensures forall i: nat | i < |old(Listed(records, job))| && Succeeds(replies(i)) ::
        old(Listed(records, job))[i] !in records.gpus && old(Listed(records, job))[i] !in Listed(records, job)
      ensures forall u :: u in Listed(records, job) ==> u in old(Listed(records, job))
      ensures forall u :: u in records.gpus ==> u in old(records.gpus)
      ensures forall u :: u in limits && limits[u] != old(limits)[u] ==> u in old(records.gpus)
      ensures forall u :: u in limits && u !in old(Listed(records, job)) ==>
        limits[u] == old(limits)[u] && (u in records.gpus <==> u in old(records.gpus))
    {
      hide *;
      restored := [];
      var cards := Listed(records, job);
      for i := 0 to |cards|
        invariant Valid() && limits.Keys == old(limits).Keys
        invariant forall u :: u in cards ==> u in limits
        invariant forall u :: u in restored ==> u in cards && u !in records.gpus
        invariant forall u :: u in cards && u in records.gpus ==> u in Listed(records, job)
        invariant forall j: nat | j < i && Succeeds(replies(j)) :: cards[j] !in records.gpus && cards[j] !in Listed(records, job)
        invariant forall u :: u in Listed(records, job) ==> u in cards
        invariant forall u :: u in records.gpus ==> u in old(records.gpus)
        invariant forall u :: u in limits && limits[u] != old(limits)[u] ==> u in old(records.gpus)
        invariant forall u :: u in limits && u !in cards ==>
          limits[u] == old(limits)[u] && (u in records.gpus <==> u in old(records.gpus))
      {
        var uuid := cards[i];
        forall u { ForgetLists(records, uuid, job, u); }
        var ok := RestoreCard(uuid, job, replies(i));
        if ok { restored := restored + [uuid]; }
      }
    }

    /** One turn of the loop of `apply_caps`: the record is saved before the
        limit is changed, and only a first cap records what it read. */
    method CapCard(cap: Cap, job: string, readable: bool, r: LimitReply) returns (ok: bool)
      requires Valid() && cap.uuid in limits
      modifies this
      ensures Valid()
      ensures records == if readable then Remember(old(records), cap.uuid, old(limits)[cap.uuid], job) else old(records)
      ensures base == if !readable || cap.uuid in old(records.gpus) then old(base)
                      else old(base)[cap.uuid := old(limits)[cap.uuid]]
      ensures limits == if readable && (r.commandOk || r.effect) then old(limits)[cap.uuid := cap.Target()] else old(limits)
      ensures limits != old(limits) ==> records == Remember(old(records), cap.uuid, old(limits)[cap.uuid], job)
      ensures ok <==> readable && Succeeds(r)
      ensures ok ==> limits == old(limits)[cap.uuid := cap.Target()]
    {
      hide Consistent, Round, Abs;
      var uuid := cap.uuid;
      var limit, read := ReadLimit(uuid, readable);
      if !read { return false; }
      RememberConsistent(limits, records, base, uuid, job);
      RememberLists(records, uuid, limit, job, uuid);
      if uuid !in records.gpus { base := base[uuid := limit]; }
      records := Remember(records, uuid, if uuid in records.gpus then records.gpus[uuid] else limit, job);
      SetConsistent(limits, records, base, uuid, cap.Target());
      ok := SetExactly(uuid, Clamp(cap.requested, cap.low, cap.high), r);
    }

    /** `apply_caps`: it succeeds exactly when every reading and every limit command
        does, and then every requested card holds its clamped cap and is recorded
        under the job. Otherwise the whole job is restored: a card that could not be
        put back stays recorded under the job, and when every restoring command
        succeeds none is, so that each card this call changed is within half a watt
        of what it showed before. */
    method ApplyCaps(job: string, caps: seq<Cap>, readable: nat -> bool, sets: nat -> LimitReply, undo: nat -> LimitReply)
      returns (ok: bool)
      requires Valid()
      requires forall i | 0 <= i < |caps| :: caps[i].uuid in limits
      requires forall i, j | 0 <= i < j < |caps| :: caps[i].uuid != caps[j].uuid
      requires forall u :: u in Listed(records, job) ==> u in limits
      modifies this
      ensures Valid() && limits.Keys == old(limits).Keys
      ensures ok <==> AllTaken(readable, sets, |caps|)
      ensures ok ==> forall i | 0 <= i < |caps| :: Capped(limits, records, caps[i], job)
      ensures ok ==> forall i | 0 <= i < |caps| && caps[i].low <= caps[i].high ::
        Round(caps[i].low) as real <= limits[caps[i].uuid] <= Round(caps[i].high) as real
      ensures !ok ==> forall u :: u in old(Listed(records, job)) && u in records.gpus ==> u in Listed(records, job)
      ensures AfterCaps(limits, old(limits), records, old(records), base, caps, job)
      ensures !ok && (forall i: nat :: Succeeds(undo(i))) ==> Undone(limits, old(limits), records, old(records), base, job)
    {
      hide *;
      NoneTaken(readable, sets);
      ValidIs();
      NothingCapped(limits, records, base, caps, job);
      for i := 0 to |caps|
        invariant Valid() && AllTaken(readable, sets, i)
        invariant Underway(limits, old(limits), records, old(records), base, caps, i, job)
        invariant forall j | 0 <= j < i :: Capped(limits, records, caps[j], job)
      {
        var uuid := caps[i].uuid;
        ghost var l, r, b := limits, records, base;
        UnderwayKeys(l, old(limits), r, old(records), b, caps, i, job);
        AllTakenNext(readable, sets, i);
        forall j | 0 <= j < i { CapKeepsOthers(limits, records, caps[i], job, limits[uuid], caps[j]); }
        CapTakes(limits, records, caps[i], job, limits[uuid]);
        var done := CapCard(caps[i], job, readable(i), sets(i));
        CapStep(l, old(limits), r, old(records), b, caps, i, job, limits, records, base);
        if !done {
          AllTakenLess(readable, sets, i + 1, |caps|);
          l, r, b := limits, records, base;
          UnderwayKeys(l, old(limits), r, old(records), b, caps, i + 1, job);
          var _ := RestoreJob(job, undo);
          ValidIs();
          GivenUp(l, old(limits), limits, r, old(records), records, base, caps, i + 1, job, undo);
          return false;
        }
      }
      CapsDone(limits, old(limits), records, old(records), base, caps, job);
      forall i | 0 <= i < |caps| && caps[i].low <= caps[i].high
        ensures caps[i].uuid in limits && Round(caps[i].low) as real <= limits[caps[i].uuid] <= Round(caps[i].high) as real
      {
        CappedShows(limits, records, caps[i], job);
        TargetInRange(caps[i]);
      }
      ok := true;
    }

    lemma ValidIs()
      requires Valid()
      ensures Consistent(limits, records, base)
    {
    }
  }

  /** What holds of limits l, records r and bases b while caps are being applied, whose
      values before were l0 and r0: only cards wanted so far differ; a card newly
      recorded has its limit from before as its base; what differs is recorded and
      listed. */
  ghost predicate Underway(l: map<string, real>, l0: map<string, real>, r: Records, r0: Records, b: map<string, real>,
                           caps: seq<Cap>, i: nat, job: string)
  {
    && i <= |caps| && l.Keys == l0.Keys == b.Keys && ListedSoFar(l, r, r0, caps[..i], job)
    && (forall u :: u in l && !Wanted(caps[..i], u) ==> l[u] == l0[u] && (u in r.gpus <==> u in r0.gpus))
    && (forall u :: u in l && l[u] != l0[u] ==> u in Listed(r, job) && u in r.gpus)
    && (forall u :: u in l && u in r.gpus && u !in r0.gpus ==> b[u] == l0[u])
    && (forall u :: u in r0.gpus ==> u in r.gpus)
  }

  ghost predicate ListedSoFar(l: map<string, real>, r: Records, r0: Records, done: seq<Cap>, job: string) {
    && (forall u :: u in Listed(r, job) ==> u in l)
    && (forall u :: u in Listed(r0, job) ==> u in Listed(r, job))
    && (forall u :: u in Listed(r, job) ==> u in Listed(r0, job) || Wanted(done, u))
  }

  lemma NextListed(l: map<string, real>, r: Records, r0: Records, caps: seq<Cap>, i: nat, job: string, l': map<string, real>, r': Records)
    requires i < |caps| && ListedSoFar(l, r, r0, caps[..i], job) && caps[i].uuid in l && l'.Keys == l.Keys
    requires r' == r || r' == Remember(r, caps[i].uuid, l[caps[i].uuid], job)
    ensures ListedSoFar(l', r', r0, caps[..i + 1], job)
  {
    hide Remember, Listed, Wanted;
    var uuid := caps[i].uuid;
    var more := caps[..i + 1];
    forall u ensures (u in Listed(r', job) ==> u in l') && (u in Listed(r0, job) ==> u in Listed(r', job))
      && (u in Listed(r', job) ==> u in Listed(r0, job) || Wanted(more, u))
    {
      WantedNext(caps, i, u);
      RememberLists(r, uuid, l[uuid], job, u);
      assert u in l.Keys <==> u in l'.Keys;
    }
  }

  lemma NothingCapped(l: map<string, real>, r: Records, b: map<string, real>, caps: seq<Cap>, job: string)
    requires Consistent(l, r, b) && forall u :: u in Listed(r, job) ==> u in l
    ensures Underway(l, l, r, r, b, caps, 0, job)
  {
  }

  lemma UnderwayKeys(l: map<string, real>, l0: map<string, real>, r: Records, r0: Records, b: map<string, real>,
                     caps: seq<Cap>, i: nat, job: string)
    requires Underway(l, l0, r, r0, b, caps, i, job)
    ensures l.Keys == l0.Keys && forall u :: u in Listed(r, job) ==> u in l
  {
  }

  /** One turn of the loop keeps it, whatever its commands answered: either nothing
      was done, or the card was recorded, and its limit perhaps set. */
  lemma CapStep(l: map<string, real>, l0: map<string, real>, r: Records, r0: Records, b: map<string, real>,
                caps: seq<Cap>, i: nat, job: string, l': map<string, real>, r': Records, b': map<string, real>)
    requires Underway(l, l0, r, r0, b, caps, i, job) && i < |caps| && caps[i].uuid in l
    requires forall j, k | 0 <= j < k < |caps| :: caps[j].uuid != caps[k].uuid
    requires var u := caps[i].uuid;
      || (l' == l && r' == r && b' == b)
      || (r' == Remember(r, u, l[u], job) && b' == (if u in r.gpus then b else b[u := l[u]])
          && (l' == l || l' == l[u := caps[i].Target()]))
    ensures Underway(l', l0, r', r0, b', caps, i + 1, job)
  {
    hide Remember, Listed, Wanted, Cap.Target, ListedSoFar;
    var uuid := caps[i].uuid;
    NextListed(l, r, r0, caps, i, job, l', r');
    forall u { WantedNext(caps, i, u); }
    NotYetWanted(caps, i);
    if !(l' == l && r' == r && b' == b) {
      forall u { RememberLists(r, uuid, l[uuid], job, u); }
    }
  }

  lemma CapsDone(l: map<string, real>, l0: map<string, real>, r: Records, r0: Records, b: map<string, real>, caps: seq<Cap>, job: string)
    requires Underway(l, l0, r, r0, b, caps, |caps|, job)
    ensures l.Keys == l0.Keys && AfterCaps(l, l0, r, r0, b, caps, job)
  {
    hide Listed, Wanted;
    assert caps[..|caps|] == caps;
  }

  /** The clauses about every card, on success and on failure. */
  ghost predicate AfterCaps(l: map<string, real>, l0: map<string, real>, r: Records, r0: Records, b: map<string, real>, caps: seq<Cap>, job: string)
    requires l.Keys == l0.Keys
  {
    && (forall u :: u in l && l[u] != l0[u] && u in r.gpus ==> u in Listed(r, job))
    && (forall u :: u in l && u !in Listed(r0, job) && !Wanted(caps, u) ==> l[u] == l0[u])
    && (forall u :: u in l && l[u] != l0[u] && u !in r0.gpus ==> u in b && b[u] == l0[u])
  }

  /** After the restoring that follows a failure. */
  lemma GivenUp(l: map<string, real>, l0: map<string, real>, l': map<string, real>, r: Records, r0: Records, r': Records,
                b: map<string, real>, caps: seq<Cap>, i: nat, job: string, undo: nat -> LimitReply)
    requires Underway(l, l0, r, r0, b, caps, i, job) && Consistent(l', r', b) && l'.Keys == l.Keys
    requires forall u :: u in Listed(r, job) && u in r'.gpus ==> u in Listed(r', job)
    requires forall n: nat | n < |Listed(r, job)| && Succeeds(undo(n)) :: Listed(r, job)[n] !in r'.gpus && Listed(r, job)[n] !in Listed(r', job)
    requires forall u :: u in Listed(r', job) ==> u in Listed(r, job)
    requires forall u :: u in r'.gpus ==> u in r.gpus
    requires forall u :: u in l' && l'[u] != l[u] ==> u in r.gpus
    requires forall u :: u in l' && u !in Listed(r, job) ==> l'[u] == l[u] && (u in r'.gpus <==> u in r.gpus)
    ensures AfterCaps(l', l0, r', r0, b, caps, job)
    ensures forall u :: u in Listed(r0, job) && u in r'.gpus ==> u in Listed(r', job)
    ensures (forall n: nat :: Succeeds(undo(n))) ==> Undone(l', l0, r', r0, b, job)
  {
    hide Listed, Wanted, Abs, Owned, Succeeds;
    WantedOfPrefix(caps, i);
    if forall n: nat :: Succeeds(undo(n)) {
      forall u | u in Listed(r, job) ensures u !in r'.gpus && u !in Listed(r', job) {
        var n: nat :| n < |Listed(r, job)| && Listed(r, job)[n] == u;
        assert Succeeds(undo(n));
      }
      NoneListed(r', job);
    }
  }

  lemma NoneListed(r: Records, job: string)
    requires forall u :: u !in Listed(r, job)
    ensures Listed(r, job) == []
  {
    if |Listed(r, job)| > 0 { FirstIn(Listed(r, job)); }
  }

  lemma FirstIn(s: seq<string>)
    requires |s| > 0
    ensures exists u :: u in s
  {
    assert s[0] in s;
  }

  /** The reply of a limit command: whether it reports success, whether it takes effect
      all the same, and whether the limit can be read back. */
  datatype LimitReply = LimitReply(commandOk: bool, effect: bool, readBack: bool)

  predicate Succeeds(r: LimitReply) { r.commandOk && r.readBack }

  /** The first n caps are read and taken. */
  predicate AllTaken(readable: nat -> bool, sets: nat -> LimitReply, n: nat) {
    forall i: nat | i < n :: readable(i) && Succeeds(sets(i))
  }

  lemma NoneTaken(readable: nat -> bool, sets: nat -> LimitReply)
    ensures AllTaken(readable, sets, 0)
  {
  }

  lemma AllTakenNext(readable: nat -> bool, sets: nat -> LimitReply, n: nat)
    ensures AllTaken(readable, sets, n + 1) <==> AllTaken(readable, sets, n) && readable(n) && Succeeds(sets(n))
  {
  }

  lemma AllTakenLess(readable: nat -> bool, sets: nat -> LimitReply, n: nat, m: nat)
    requires n <= m
    ensures AllTaken(readable, sets, m) ==> AllTaken(readable, sets, n)
  {
  }

  /** Nothing of the job is recorded any more, and every card whose limit differs from
      before is unrecorded and within half a watt of its base. */
  ghost predicate Undone(limits: map<string, real>, limits0: map<string, real>, r: Records, r0: Records,
                         base: map<string, real>, job: string) {
    && Listed(r, job) == []
    && (forall u :: u in Listed(r0, job) ==> u !in r.gpus)
    && forall u :: u in limits && u in limits0 && limits[u] != limits0[u] ==>
         u !in r.gpus && u in base && Abs(limits[u] - base[u]) <= 0.5
  }

  lemma WantedNext(caps: seq<Cap>, i: nat, u: string)
    requires i < |caps|
    ensures Wanted(caps[..i + 1], u) <==> Wanted(caps[..i], u) || u == caps[i].uuid
  {
    var more := caps[..i + 1];
    assert more[..i] == caps[..i] && more[i] == caps[i];
    if Wanted(caps[..i], u) {
      var j :| 0 <= j < i && caps[..i][j].uuid == u;
      assert more[j].uuid == u;
    }
    if Wanted(more, u) {
      var j :| 0 <= j < i + 1 && more[j].uuid == u;
      assert j < i ==> caps[..i][j].uuid == u;
    }
  }

  lemma WantedOfPrefix(caps: seq<Cap>, i: nat)
    requires i <= |caps|
    ensures forall u :: Wanted(caps[..i], u) ==> Wanted(caps, u)
  {
    forall u | Wanted(caps[..i], u) ensures Wanted(caps, u) {
      var j :| 0 <= j < i && caps[..i][j].uuid == u;
      assert caps[j].uuid == u;
    }
  }

  lemma NotYetWanted(caps: seq<Cap>, i: nat)
    requires i < |caps| && forall j, k | 0 <= j < k < |caps| :: caps[j].uuid != caps[k].uuid
    ensures !Wanted(caps[..i], caps[i].uuid)
  {
  }
}
