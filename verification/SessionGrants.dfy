/** Session grants: the open-session table and the key file, which must show the
    same sessions across open, close, sweep and revoke_all. */
module SessionGrants {
  import opened Wrappers
  import opened Text
  import opened SshKeys
  import opened PublicKeys
  import opened Nonces

  datatype Session = Session(publicKey: string, validator: string, expiresAt: real)

  type Table = map<string, Session>

  /** The lines of the key file, the open-session table, and the nonce book. */
  datatype State = State(lines: seq<string>, open: Table, seen: Seen)

  /** An open request with what the agent finds out on the way: the nonce's time and
      the session's, whether the key could be installed and whether gathering the
      evidence raised. */
  datatype Request = Request(publicKey: string, nonce: string, problems: bool, validator: string,
                             acceptAt: real, now: real, installs: bool, raises: bool)

  datatype Outcome = Opened(id: string) | Refused(status: nat) | Crashed

  function Lower(s: string): string {
    seq(|s|, i requires 0 <= i < |s| => if 'A' <= s[i] <= 'Z' then (s[i] as int + 32) as char else s[i])
  }

  /** `attestation.build` returns evidence at all. */
  predicate Attestable(nonce: string) { WellFormed(Lower(Strip(nonce))) }

  function SessionId(nonce: string): string {
    if |nonce| < 16 then nonce else nonce[..16]
  }

  function Open(s: State, q: Request, ttl: real): (State, Outcome) {
    var key := Canonical(q.publicKey);
    var id := SessionId(q.nonce);
    var (seen, accepted) := Accepted(s.seen, q.nonce, q.acceptAt, ttl);
    if q.problems || key.None? then (s, Refused(422))
    else if q.validator == "" then (s, Refused(403))
    else if !accepted then (s.(seen := seen), Refused(403))
    else if !q.installs then (s.(seen := seen), Refused(500))
    else
      var lines := Granted(s.lines, key.value, id);
      if q.raises then (State(lines, s.open, seen), Crashed)
      else if !Attestable(q.nonce) then (State(Drop(lines, {id}), s.open, seen), Refused(422))
      else (State(lines, s.open[id := Session(key.value, q.validator, q.now + ttl)], seen), Opened(id))
  }

  /** The sessions a close names: by id, even one that is not open, or by key. */
  function Matching(open: Table, id: string, publicKey: string): set<string> {
    var key := if publicKey == "" then None else Canonical(publicKey);
    (set s | s in open && ((id != "" && s == id) || key == Some(open[s].publicKey)))
    + (if id == "" then {} else {id})
  }

  function Close(s: State, id: string, publicKey: string): State {
    var ids := Matching(s.open, id, publicKey);
    s.(lines := Drop(s.lines, ids), open := s.open - ids)
  }

  function Expired(open: Table, now: real): set<string> {
    set s | s in open && open[s].expiresAt <= now
  }

  /** The ids a file shows that are not known. */
  function Orphans(lines: seq<string>, known: set<string>): set<string> {
    set id | id in Shown(lines) && id !in known
  }

  function Sweep(s: State, now: real): State {
    var open := s.open - Expired(s.open, now);
    var lines := Drop(s.lines, Expired(s.open, now));
    State(Drop(lines, Orphans(lines, open.Keys)), open, Live(s.seen, now))
  }

  function RevokeAll(s: State): State {
    s.(lines := Unmarked(s.lines), open := map[])
  }

  // ---------- the object ----------

  class Grants {
    const ttl: real
    const file: KeyFile
    const nonces: NonceBook
    var open: Table

    constructor (file: KeyFile, ttl: real)
      ensures this.file == file && this.ttl == ttl && open == map[] && fresh(nonces)
      ensures nonces.ttl == ttl && nonces.seen == map[]
    {
      this.file := file;
      this.ttl := ttl;
      nonces := new NonceBook(ttl);
      open := map[];
    }

    ghost predicate Valid()
      reads this
    {
      nonces.ttl == ttl
    }

    ghost function View(): State
      reads this, file, nonces
    {
      State(file.lines, open, nonces.seen)
    }

    method OpenSession(q: Request) returns (outcome: Outcome)
      requires Valid()
      modifies this, file, nonces
      ensures Valid() && (View(), outcome) == Open(old(View()), q, ttl)
    {
      hide Canonical, Drop, WellFormed, Attestable, Live;
      if q.problems { return Refused(422); }
      var key := Canonical(q.publicKey);
      if key.None? { return Refused(422); }
      if q.validator == "" { return Refused(403); }
      var accepted := nonces.Accept(q.nonce, q.acceptAt);
      if !accepted { return Refused(403); }
      var id := SessionId(q.nonce);
      if !q.installs { return Refused(500); }
      file.Grant(key.value, id);
      if q.raises { return Crashed; }
      if !Attestable(q.nonce) {
        var _ := file.Revoke(id);
        return Refused(422);
      }
      open := open[id := Session(key.value, q.validator, q.now + ttl)];
      outcome := Opened(id);
    }

    /** Revokes the ids one by one; on a tidy file it counts those it shows. */
    method RevokeEach(ids: set<string>) returns (revoked: nat)
      modifies file
      ensures file.lines == Drop(old(file.lines), ids)
      ensures Tidy(old(file.lines)) ==> revoked == |Ids(old(file.lines)) * ids|
    {
      hide *;
      revoked := 0;
      var todo := ids;
      ghost var start := file.lines;
      DropNone(start, ids - todo);
      while todo != {}
        invariant todo <= ids
        invariant file.lines == Drop(start, ids - todo)
        invariant Tidy(start) ==> revoked == |Ids(start) * (ids - todo)|
      {
        var id :| id in todo;
        ghost var done := ids - todo;
        var found := file.Revoke(id);
        RevokedOne(start, done, id, found);
        todo := todo - {id};
        assert done + {id} == ids - todo;
        if found { revoked := revoked + 1; }
      }
      assert ids - todo == ids;
    }

    method CloseSession(id: string, publicKey: string) returns (revoked: nat)
      requires Valid()
      modifies this, file
      ensures Valid() && View() == Close(old(View()), id, publicKey)
      ensures Tidy(old(file.lines)) ==> revoked == |Ids(old(file.lines)) * Matching(old(open), id, publicKey)|
    {
      var ids := Matching(open, id, publicKey);
      revoked := RevokeEach(ids);
      open := open - ids;
    }

    method SweepSessions(now: real) returns (revoked: nat)
      requires Valid()
      modifies this, file, nonces
      ensures Valid() && View() == Sweep(old(View()), now)
      ensures Tidy(old(file.lines)) ==> revoked == |Ids(old(file.lines)) - open.Keys|
    {
      hide Drop, Tidy, Shown, Live;
      ghost var start := file.lines;
      var expired := Expired(open, now);
      open := open - expired;
      var known := open.Keys;
      var n := RevokeEach(expired);
      ghost var kept := file.lines;
      var ids := file.ActiveSessions();
      var orphans := set id | id in ids && id !in known;
      assert orphans == Orphans(kept, known);
      var m := RevokeEach(orphans);
      revoked := n + m;
      var _ := nonces.Expire(now);
      if Tidy(start) { SweptCount(start, expired, known); }
    }

    method RevokeAllSessions() returns (removed: nat)
      requires Valid()
      modifies this, file
      ensures Valid() && View() == RevokeAll(old(View()))
      ensures removed == |old(file.lines)| - |file.lines|
    {
      open := map[];
      removed := file.RevokeAll();
    }
  }

  lemma DropNone(lines: seq<string>, none: set<string>)
    requires none == {}
    ensures Drop(lines, none) == lines && Ids(lines) * none == {}
  {
    if lines != [] { DropNone(lines[..|lines| - 1], none); }
  }

  lemma RevokedOne(start: seq<string>, done: set<string>, id: string, found: bool)
    requires id !in done
    requires found <==> exists l :: l in Drop(start, done) && EndsWith(l, Mark(id))
    ensures Drop(Drop(start, done), {id}) == Drop(start, done + {id})
    ensures Tidy(start) ==> |Ids(start) * (done + {id})| == |Ids(start) * done| + if found then 1 else 0
  {
    hide Drop, Tidy, EndsWith, Mark;
    DropTwice(start, done, {id});
    if Tidy(start) {
      DropTidy(start, done);
      FoundIsShown(Drop(start, done), id);
      assert found <==> id in Ids(start);
      assert Ids(start) * (done + {id}) == if found then Ids(start) * done + {id} else Ids(start) * done;
    }
  }

  lemma FoundIsShown(lines: seq<string>, id: string)
    requires Tidy(lines)
    ensures (exists l :: l in lines && EndsWith(l, Mark(id))) <==> id in Ids(lines)
  {
    hide Tidy, EndsWith, Mark, Marked, IdOf;
    forall l | l in lines ensures EndsWith(l, Mark(id)) <==> Marked(l) && IdOf(l) == id {
      if Marked(l) {
        TidyLine(lines, l);
        GrantEnds(l, id);
      } else if EndsWith(l, Mark(id)) {
        UnmarkedEnds(l, id);
      }
    }
  }

  lemma SweptCount(start: seq<string>, expired: set<string>, known: set<string>)
    requires Tidy(start) && expired !! known
    ensures var kept := Drop(start, expired);
      |Ids(start) * expired| + |Ids(kept) * Orphans(kept, known)| == |Ids(start) - known|
    ensures Tidy(Drop(start, expired))
  {
    hide Tidy, Drop, Shown, Ids;
    var kept := Drop(start, expired);
    DropTidy(start, expired);
    ShownAreIds(kept);
    assert Ids(start) * expired + Ids(kept) * Orphans(kept, known) == Ids(start) - known;
  }

  // ---------- agreement ----------

  /** The file shows exactly the open sessions, one line each, with their keys. */
  predicate Agree(s: State) {
    Tidy(s.lines) && Ids(s.lines) == s.open.Keys && Faithful(s.lines, s.open)
  }

  predicate Faithful(lines: seq<string>, open: Table) {
    forall l :: l in lines && Marked(l) && IdOf(l) in open ==> l == LineOf(open[IdOf(l)].publicKey, IdOf(l))
  }

  lemma AcceptedId(nonce: string)
    requires WellFormed(nonce)
    ensures ProperId(SessionId(nonce)) && Attestable(nonce) && SessionId(nonce) <= nonce
  {
    var n := nonce[..64];
    assert |nonce| == 64 ==> nonce == n;
    assert forall i | 0 <= i < 64 :: nonce[i] == n[i] && n[i] in n;
    StripHex(n);
    if |nonce| == 65 {
      assert nonce == n + ['\n'];
      StripNewline(n);
    }
    assert Lower(n) == n;
  }

  lemma StripNewline(n: string)
    requires n != "" && IsHex(n)
    ensures Strip(n + ['\n']) == n
  {
    var s := n + ['\n'];
    assert n[0] in n && s[0] == n[0];
    assert StripLeft(s) == s;
    assert s[..|s| - 1] == n && Space(s[|s| - 1]);
    assert n[|n| - 1] in n;
    assert StripRight(s) == StripRight(n) == n;
  }

  /** From any file at all, revoke_all leaves table and file in agreement. */
  lemma RevokeAllAgrees(s: State)
    ensures Agree(RevokeAll(s)) && Unmarked(RevokeAll(s).lines) == Unmarked(s.lines)
  {
    UnmarkedTidy(s.lines);
  }

  /** One open keeps agreement unless gathering the evidence raised after the key
      was installed; then the file may show one session more. */
  lemma OpenAgrees(s: State, q: Request, ttl: real)
    requires Agree(s)
    ensures Unmarked(Open(s, q, ttl).0.lines) == Unmarked(s.lines)
    ensures !Open(s, q, ttl).1.Crashed? ==> Agree(Open(s, q, ttl).0)
    ensures Open(s, q, ttl).1.Crashed? ==>
      (Agree(Open(s, q, ttl).0) <==>
        (SessionId(q.nonce) in s.open && Canonical(q.publicKey) == Some(s.open[SessionId(q.nonce)].publicKey)))
  {
    hide Tidy, Ids, Faithful, Unmarked, Marked, IdOf, Drop, Canonical, WellFormed, Attestable, SessionId, Live, ProperId, ProperKey, LineOf;
    var key := Canonical(q.publicKey);
    var id := SessionId(q.nonce);
    if key.Some? && Accepted(s.seen, q.nonce, q.acceptAt, ttl).1 {
      CanonicalIdempotent(q.publicKey);
      AcceptedId(q.nonce);
      GrantTidy(s.lines, key.value, id);
      GrantFaithful(s.lines, s.open, key.value, id, Session(key.value, q.validator, q.now + ttl));
    }
  }

  lemma GrantFaithful(lines: seq<string>, open: Table, key: string, id: string, session: Session)
    requires ProperKey(key) && ProperId(id) && session.publicKey == key && Tidy(lines) && Faithful(lines, open)
    ensures Faithful(Granted(lines, key, id), open[id := session])
    ensures Faithful(Granted(lines, key, id), open) <==> id !in open || open[id].publicKey == key
  {
    hide Marked, IdOf, Drop, EndsWith, LineOf, Mark, Claimed, Tidy, ProperKey, ProperId;
    var kept, line := Drop(lines, {id}), LineOf(key, id);
    LineIsGrant(key, id);
    DropTidy(lines, {id});
    assert forall l | l in kept && Marked(l) :: IdOf(l) in Ids(kept);
    DropFaithful(lines, open, {id});
    assert line in Granted(lines, key, id);
    if id in open { LineOfInjective(key, open[id].publicKey, id); }
  }

  lemma DropFaithful(lines: seq<string>, open: Table, ids: set<string>)
    requires Faithful(lines, open)
    ensures Faithful(Drop(lines, ids), open)
  {
    hide Marked, IdOf, Drop, LineOf;
    forall l | l in Drop(lines, ids) ensures l in lines {
      DropMember(lines, ids, l);
    }
  }

  lemma LineOfInjective(a: string, b: string, id: string)
    ensures LineOf(a, id) == LineOf(b, id) <==> a == b
  {
    if LineOf(a, id) == LineOf(b, id) {
      assert LineOf(a, id)[..|a|] == a && LineOf(b, id)[..|b|] == b;
    }
  }

  lemma CloseAgrees(s: State, id: string, publicKey: string)
    requires Agree(s)
    ensures Agree(Close(s, id, publicKey)) && Unmarked(Close(s, id, publicKey).lines) == Unmarked(s.lines)
  {
    hide Tidy, Ids, Unmarked, Drop, Matching, Faithful;
    var ids := Matching(s.open, id, publicKey);
    DropTidy(s.lines, ids);
    DropKeepsUnmarked(s.lines, ids);
    DropFaithful(s.lines, s.open, ids);
    FewerFaithful(Drop(s.lines, ids), s.open, s.open - ids);
  }

  lemma FewerFaithful(lines: seq<string>, open: Table, fewer: Table)
    requires Faithful(lines, open) && fewer.Keys <= open.Keys && forall id :: id in fewer ==> fewer[id] == open[id]
    ensures Faithful(lines, fewer)
  {
  }

  /** A sweep brings a covered state into agreement again: exactly the unexpired
      sessions are left, in the table and in the file. */
  lemma SweepRestores(s: State, now: real)
    requires Tidy(s.lines) && Ids(s.lines) >= s.open.Keys
    ensures var t := Sweep(s, now);
      && Tidy(t.lines) && Ids(t.lines) == t.open.Keys == s.open.Keys - Expired(s.open, now)
      && (forall id :: id in t.open <==> id in s.open && s.open[id].expiresAt > now)
      && Unmarked(t.lines) == Unmarked(s.lines)
      && (Faithful(s.lines, s.open) ==> Faithful(t.lines, t.open))
  {
    hide Tidy, Ids, Unmarked, Drop, Faithful, Shown;
    var expired := Expired(s.open, now);
    var open, kept := s.open - expired, Drop(s.lines, expired);
    DropTidy(s.lines, expired);
    DropKeepsUnmarked(s.lines, expired);
    ShownAreIds(kept);
    var orphans := Orphans(kept, open.Keys);
    DropTidy(kept, orphans);
    DropKeepsUnmarked(kept, orphans);
    if Faithful(s.lines, s.open) {
      DropFaithful(s.lines, s.open, expired);
      DropFaithful(kept, s.open, orphans);
      FewerFaithful(Drop(kept, orphans), s.open, open);
    }
  }

  // ---------- who gets in, and who stays ----------

  /** What a session in the table says of the open it came from. */
  predicate GrantedBy(id: string, session: Session, q: Request, ttl: real) {
    && !q.problems && q.validator != "" && WellFormed(q.nonce) && q.installs && !q.raises
    && Canonical(q.publicKey) == Some(session.publicKey) && session.validator == q.validator
    && session.expiresAt == q.now + ttl && id <= q.nonce && ProperId(id)
  }

  /** An open adds a session only for a signed request with an accepted nonce and a
      canonical key, which is then what the session says; otherwise the table stays. */
  lemma OpenAddsGranted(s: State, q: Request, ttl: real)
    ensures var (t, outcome) := Open(s, q, ttl);
      if outcome.Opened?
      then && q.nonce !in Live(s.seen, q.acceptAt) && outcome.id in t.open
           && GrantedBy(outcome.id, t.open[outcome.id], q, ttl) && t.open == s.open[outcome.id := t.open[outcome.id]]
      else t.open == s.open
  {
    hide Canonical, WellFormed, Attestable, SessionId, Live, Drop, Granted;
    if WellFormed(q.nonce) { AcceptedId(q.nonce); }
  }

  /** A close takes exactly the session of the id asked for and all sessions of the key. */
  lemma CloseTakes(s: State, id: string, publicKey: string, x: string)
    ensures x in Close(s, id, publicKey).open <==>
      x in s.open && !(id != "" && x == id) && !(publicKey != "" && Canonical(publicKey) == Some(s.open[x].publicKey))
    ensures x in Close(s, id, publicKey).open ==> Close(s, id, publicKey).open[x] == s.open[x]
  {
    hide Canonical, Drop;
  }

  /** A step adds or changes a session only by opening it. */
  lemma StepOrigin(s: State, step: Step, ttl: real, id: string)
    requires id in After(s, step, ttl).open
    ensures (id in s.open && After(s, step, ttl).open[id] == s.open[id])
         || (step.DoOpen? && GrantedBy(id, After(s, step, ttl).open[id], step.q, ttl))
  {
    hide Open, GrantedBy, Drop, Shown, Unmarked, Matching;
    if step.DoOpen? { OpenAddsGranted(s, step.q, ttl); }
  }

  /** Over every run from revoke_all, each session in the table came from a signed open
      with an accepted nonce, with that key and validator, and expires the time to
      live after it. */
  lemma {:induction false} RunOrigin(s: State, steps: seq<Step>, ttl: real, id: string) returns (k: nat)
    requires id in Run(RevokeAll(s), steps, ttl).open
    ensures k < |steps| && steps[k].DoOpen? && GrantedBy(id, Run(RevokeAll(s), steps, ttl).open[id], steps[k].q, ttl)
  {
    hide GrantedBy, After;
    var front, step := steps[..|steps| - 1], steps[|steps| - 1];
    var before := Run(RevokeAll(s), front, ttl);
    StepOrigin(before, step, ttl, id);
    if id in before.open && After(before, step, ttl).open[id] == before.open[id] {
      k := RunOrigin(s, front, ttl, id);
    } else {
      k := |steps| - 1;
    }
  }

  // ---------- runs ----------

  datatype Step =
    | DoOpen(q: Request)
    | DoClose(id: string, publicKey: string)
    | DoSweep(now: real)
    | DoRevokeAll

  function After(s: State, step: Step, ttl: real): State {
    match step
    case DoOpen(q) => Open(s, q, ttl).0
    case DoClose(id, publicKey) => Close(s, id, publicKey)
    case DoSweep(now) => Sweep(s, now)
    case DoRevokeAll => RevokeAll(s)
  }

  function Run(s: State, steps: seq<Step>, ttl: real): State {
    if steps == [] then s else After(Run(s, steps[..|steps| - 1], ttl), steps[|steps| - 1], ttl)
  }

  predicate Raises(step: Step) { step.DoOpen? && step.q.raises }

  /** From any file at all, after revoke_all every sequence of open, close, sweep and
      revoke_all keeps table and file in agreement and the unmarked lines as they
      were, as long as no open raises half way. */
  lemma {:induction false} RunAgrees(s: State, steps: seq<Step>, ttl: real)
    requires forall k | 0 <= k < |steps| :: !Raises(steps[k])
    ensures Agree(Run(RevokeAll(s), steps, ttl))
    ensures Unmarked(Run(RevokeAll(s), steps, ttl).lines) == Unmarked(s.lines)
  {
    hide Agree, Open, Close, Sweep, RevokeAll, Unmarked;
    if steps == [] {
      RevokeAllAgrees(s);
    } else {
      var front, step := steps[..|steps| - 1], steps[|steps| - 1];
      RunAgrees(s, front, ttl);
      StepAgrees(Run(RevokeAll(s), front, ttl), step, ttl);
    }
  }

  lemma StepAgrees(s: State, step: Step, ttl: real)
    requires Agree(s) && !Raises(step)
    ensures Agree(After(s, step, ttl)) && Unmarked(After(s, step, ttl).lines) == Unmarked(s.lines)
  {
    hide Open, Close, Sweep, RevokeAll, Unmarked, Tidy, Ids, Faithful;
    match step
    case DoOpen(q) => OpenNotCrashed(s, q, ttl); OpenAgrees(s, q, ttl);
    case DoClose(id, publicKey) => CloseAgrees(s, id, publicKey);
    case DoSweep(now) => SweepRestores(s, now);
    case DoRevokeAll => RevokeAllAgrees(s);
  }

  lemma OpenNotCrashed(s: State, q: Request, ttl: real)
    requires !q.raises
    ensures !Open(s, q, ttl).1.Crashed?
  {
    hide Canonical, Accepted, Granted, Drop;
  }

  /** The weaker invariant every step keeps, opens that raise included. */
  predicate Shows(s: State) {
    Tidy(s.lines) && Ids(s.lines) >= s.open.Keys
  }

  lemma StepShows(s: State, step: Step, ttl: real)
    requires Shows(s)
    ensures Shows(After(s, step, ttl)) && Unmarked(After(s, step, ttl).lines) == Unmarked(s.lines)
    ensures step.DoSweep? ==> Ids(After(s, step, ttl).lines) == After(s, step, ttl).open.Keys
  {
    hide Open, Sweep, Unmarked, Tidy, Ids, Drop;
    match step
    case DoOpen(q) => OpenShows(s, q, ttl);
    case DoClose(id, publicKey) =>
      DropTidy(s.lines, Matching(s.open, id, publicKey));
      DropKeepsUnmarked(s.lines, Matching(s.open, id, publicKey));
    case DoSweep(now) => SweepRestores(s, now);
    case DoRevokeAll => UnmarkedTidy(s.lines);
  }

  lemma OpenShows(s: State, q: Request, ttl: real)
    requires Shows(s)
    ensures Shows(Open(s, q, ttl).0) && Unmarked(Open(s, q, ttl).0.lines) == Unmarked(s.lines)
  {
    hide Tidy, Ids, Unmarked, Drop, Canonical, WellFormed, Attestable, SessionId, Live, ProperId, ProperKey, Granted;
    var key, id := Canonical(q.publicKey), SessionId(q.nonce);
    if key.Some? && Accepted(s.seen, q.nonce, q.acceptAt, ttl).1 {
      CanonicalIdempotent(q.publicKey);
      AcceptedId(q.nonce);
      GrantTidy(s.lines, key.value, id);
    }
  }

  /** Whatever raises, after revoke_all the file always shows every open session,
      and after each sweep it shows those only. */
  lemma {:induction false} RunShows(s: State, steps: seq<Step>, ttl: real)
    ensures var t := Run(RevokeAll(s), steps, ttl);
      && Shows(t) && Unmarked(t.lines) == Unmarked(s.lines)
      && (steps != [] && steps[|steps| - 1].DoSweep? ==> Ids(t.lines) == t.open.Keys)
  {
    hide Shows, Open, Close, Sweep, RevokeAll, Unmarked, Ids;
    if steps == [] {
      RevokeAllShows(s);
    } else {
      RunShows(s, steps[..|steps| - 1], ttl);
      StepShows(Run(RevokeAll(s), steps[..|steps| - 1], ttl), steps[|steps| - 1], ttl);
    }
  }

  lemma RevokeAllShows(s: State)
    ensures Shows(RevokeAll(s)) && Unmarked(RevokeAll(s).lines) == Unmarked(s.lines)
  {
    RevokeAllAgrees(s);
  }

  /** An open that raises half way, from empty table and file: the file shows a session
      the table does not have. */
  lemma RaisingOpenDisagrees(q: Request, ttl: real)
    requires q == Request("ssh-rsa A", seq(64, _ => 'a'), false, "validator", 0.0, 0.0, true, true)
    ensures Agree(State([], map[], map[])) && !Agree(Open(State([], map[], map[]), q, ttl).0)
    ensures Open(State([], map[], map[]), q, ttl).1.Crashed?
  {
    hide Tidy, Faithful, Ids, WellFormed, Attestable, SessionId, Granted, Live, Unmarked;
    var s := State([], map[], map[]);
    EmptyAgrees(s);
    ShortKey(q.publicKey);
    assert IsHex(q.nonce);
    FreshNonce(s.seen, q.nonce, q.acceptAt, ttl);
    OpenAgrees(s, q, ttl);
  }

  lemma EmptyAgrees(s: State)
    requires s == State([], map[], map[])
    ensures Agree(s)
  {
  }

  lemma FreshNonce(seen: Seen, nonce: string, now: real, ttl: real)
    requires seen == map[] && |nonce| == 64 && IsHex(nonce)
    ensures Accepted(seen, nonce, now, ttl).1
  {
  }

  lemma ShortKey(text: string)
    requires text == "ssh-rsa A"
    ensures Canonical(text) == Some(text)
  {
    var a, b := "ssh-rsa", "A";
    assert text == a + " " + b;
    WordsOfTwo(a, b);
    assert Base64(b[0]) && Padding(b[1..]);
  }
}
