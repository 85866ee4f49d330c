/** The key file: one line per key, a session's line ending in a marker and the
    session id. The file is the list of its lines. */
module SshKeys {
  import opened Text

  const MARKER := "mt-session:"

  function Mark(id: string): string { MARKER + id }

  predicate EndsWith(line: string, suffix: string) {
    |suffix| <= |line| && line[|line| - |suffix|..] == suffix
  }

  predicate MarkerAt(line: string, i: int) {
    0 <= i <= |line| - |MARKER| && line[i..i + |MARKER|] == MARKER
  }

  /** `MARKER in line`. */
  predicate Marked(line: string) {
    exists i | 0 <= i <= |line| - |MARKER| :: MarkerAt(line, i)
  }

  // ---------- lines ----------

  /** The lines no revoked id claims. */
  function Drop(lines: seq<string>, ids: set<string>): (kept: seq<string>)
    ensures |kept| <= |lines|
  {
    if lines == [] then []
    else
      var last := lines[|lines| - 1];
      Drop(lines[..|lines| - 1], ids) + if Claimed(last, ids) then [] else [last]
  }

  predicate Claimed(line: string, ids: set<string>) {
    exists id | id in ids :: EndsWith(line, Mark(id))
  }

  /** The lines without a marker, in order. */
  function Unmarked(lines: seq<string>): (plain: seq<string>)
    ensures |plain| <= |lines|
  {
    if lines == [] then []
    else
      var last := lines[|lines| - 1];
      Unmarked(lines[..|lines| - 1]) + if Marked(last) then [] else [last]
  }

  predicate ProperId(id: string) { |id| == 16 && IsHex(id) }

  predicate ProperKey(key: string) { ':' !in key }

  function LineOf(key: string, id: string): string { key + " " + Mark(id) }

  /** A line `grant` wrote for an id of sixteen hexadecimal digits. */
  predicate IsGrant(line: string) {
    && |line| >= 28 && ':' !in line[..|line| - 28] && line[|line| - 28] == ' '
    && line[|line| - 27..|line| - 16] == MARKER && IsHex(line[|line| - 16..])
  }

  function IdOf(line: string): string {
    if |line| < 16 then line else line[|line| - 16..]
  }

  lemma LineIsGrant(key: string, id: string)
    requires ProperKey(key) && ProperId(id)
    ensures IsGrant(LineOf(key, id)) && IdOf(LineOf(key, id)) == id && Marked(LineOf(key, id))
    ensures EndsWith(LineOf(key, id), Mark(id))
  {
    var l := LineOf(key, id);
    assert |l| == |key| + 28;
    assert l[..|key|] == key;
    assert l[|key| + 1..|key| + 12] == MARKER;
    assert l[|key| + 12..] == id;
    assert l[|key| + 1..] == Mark(id);
    assert MarkerAt(l, |key| + 1);
  }

  /** A granted line has one colon, the marker's last character. */
  lemma OneColon(line: string, i: nat)
    requires IsGrant(line) && i < |line|
    ensures line[i] == ':' <==> i == |line| - 17
  {
    var n := |line|;
    if i < n - 28 {
      assert line[..n - 28][i] == line[i];
    } else if i >= n - 16 {
      assert line[n - 16..][i - (n - 16)] == line[i];
      assert line[i] in line[n - 16..];
    } else if i > n - 28 {
      assert line[n - 27..n - 16][i - (n - 27)] == line[i];
    }
  }

  /** Whatever id is asked for, a granted line ends in its mark only if it is that
      line's own id. */
  lemma GrantEnds(line: string, id: string)
    requires IsGrant(line)
    ensures EndsWith(line, Mark(id)) <==> id == IdOf(line)
  {
    var n := |line|;
    if EndsWith(line, Mark(id)) {
      var at := n - |Mark(id)|;
      assert line[at..][10] == Mark(id)[10] == ':';
      OneColon(line, at + 10);
      assert |id| == 16;
      assert line[at..][11..] == Mark(id)[11..] == id;
      assert line[at..][11..] == line[n - 16..];
    }
    assert line[n - 27..] == line[n - 27..n - 16] + line[n - 16..];
  }

  /** An unmarked line ends in no mark. */
  lemma UnmarkedEnds(line: string, id: string)
    requires EndsWith(line, Mark(id))
    ensures Marked(line)
  {
    var at := |line| - |Mark(id)|;
    assert line[at..][..11] == Mark(id)[..11] == MARKER;
    assert line[at..at + 11] == line[at..][..11];
    assert MarkerAt(line, at);
  }

  // ---------- the ids a file shows ----------

  /** The last marker's position, or -1. */
  function RFind(line: string, from: int): (at: int)
    requires from <= |line| - |MARKER|
    ensures at == -1 || (0 <= at <= from && MarkerAt(line, at))
    ensures forall i | at < i <= from :: !MarkerAt(line, i)
    decreases from + 1
  {
    if from < 0 then -1 else if MarkerAt(line, from) then from else RFind(line, from - 1)
  }

  /** The id `active_sessions` reads off a marked line. */
  function ShownId(line: string): string
    requires Marked(line)
  {
    var at := RFind(line, |line| - |MARKER|);
    Strip(line[at + |MARKER|..])
  }

  lemma ShownIsId(line: string)
    requires IsGrant(line)
    ensures Marked(line) && ShownId(line) == IdOf(line)
  {
    var n := |line|;
    assert MarkerAt(line, n - 27);
    var at := RFind(line, n - 11);
    assert at >= n - 27 && MarkerAt(line, at);
    assert line[at..at + |MARKER|][10] == MARKER[10];
    OneColon(line, at + 10);
    StripHex(IdOf(line));
  }

  /** The ids of the marked lines, in order. */
  function Shown(lines: seq<string>): (ids: seq<string>)
    ensures forall id :: id in ids <==> exists l :: l in lines && Marked(l) && ShownId(l) == id
  {
    if lines == [] then []
    else
      var last := lines[|lines| - 1];
      Shown(lines[..|lines| - 1]) + if Marked(last) then [ShownId(last)] else []
  }

  /** Every marked line is a granted one, and no two have the same id. */
  predicate Tidy(lines: seq<string>) {
    lines == [] ||
    (var front, last := lines[..|lines| - 1], lines[|lines| - 1];
     Tidy(front) && (Marked(last) ==> IsGrant(last) && forall l | l in front && Marked(l) :: IdOf(l) != IdOf(last)))
  }

  function Ids(lines: seq<string>): set<string> {
    set l | l in lines && Marked(l) :: IdOf(l)
  }

  lemma {:induction false} TidyLine(lines: seq<string>, l: string)
    requires Tidy(lines) && l in lines && Marked(l)
    ensures IsGrant(l) && ShownId(l) == IdOf(l)
  {
    var front, last := lines[..|lines| - 1], lines[|lines| - 1];
    if l == last {
      ShownIsId(l);
    } else {
      assert lines == front + [last];
      TidyLine(front, l);
    }
  }

  /** One line for each id. */
  lemma {:induction false} TidyDistinct(lines: seq<string>, i: nat, j: nat)
    requires Tidy(lines) && i < j < |lines| && Marked(lines[i]) && Marked(lines[j])
    ensures IdOf(lines[i]) != IdOf(lines[j])
  {
    var front := lines[..|lines| - 1];
    assert forall k | 0 <= k < |front| :: front[k] == lines[k] && front[k] in front;
    if j < |lines| - 1 { TidyDistinct(front, i, j); }
  }

  lemma ShownAreIds(lines: seq<string>)
    requires Tidy(lines)
    ensures forall id :: id in Shown(lines) <==> id in Ids(lines)
  {
    forall l | l in lines && Marked(l) ensures ShownId(l) == IdOf(l) {
      TidyLine(lines, l);
    }
  }

  // ---------- what dropping and granting do ----------

  lemma DropSnoc(front: seq<string>, last: string, ids: set<string>)
    ensures Drop(front + [last], ids) == if Claimed(last, ids) then Drop(front, ids) else Drop(front, ids) + [last]
  {
    hide Claimed;
    assert (front + [last])[..|front|] == front;
  }

  lemma UnmarkedSnoc(front: seq<string>, last: string)
    ensures Unmarked(front + [last]) == if Marked(last) then Unmarked(front) else Unmarked(front) + [last]
  {
    hide Marked;
    assert (front + [last])[..|front|] == front;
  }

  lemma TidySnoc(front: seq<string>, last: string)
    ensures Tidy(front + [last]) <==>
      Tidy(front) && (Marked(last) ==> IsGrant(last) && IdOf(last) !in Ids(front))
  {
    hide Marked, IsGrant, IdOf;
    assert (front + [last])[..|front|] == front;
  }

  lemma IdsSnoc(front: seq<string>, last: string)
    ensures Ids(front + [last]) == if Marked(last) then Ids(front) + {IdOf(last)} else Ids(front)
  {
    hide Marked, IdOf;
    assert forall l :: l in front + [last] <==> l in front || l == last;
  }

  lemma Nothing(none: seq<string>, ids: set<string>)
    requires none == []
    ensures Drop(none, ids) == [] && Unmarked(none) == [] && Tidy(none) && Ids(none) == {}
  {
  }

  lemma {:induction false} DropMember(lines: seq<string>, ids: set<string>, l: string)
    ensures l in Drop(lines, ids) <==> l in lines && !Claimed(l, ids)
  {
    hide Claimed;
    if lines != [] { DropMember(lines[..|lines| - 1], ids, l); }
  }

  /** Unmarked lines stay, in order, whatever is dropped. */
  lemma {:induction false} DropKeepsUnmarked(lines: seq<string>, ids: set<string>)
    ensures Unmarked(Drop(lines, ids)) == Unmarked(lines)
  {
    hide *;
    if lines == [] {
      Nothing(lines, ids);
    } else {
      var front, last := lines[..|lines| - 1], lines[|lines| - 1];
      assert lines == front + [last];
      DropKeepsUnmarked(front, ids);
      DropSnoc(front, last, ids);
      UnmarkedSnoc(front, last);
      if Claimed(last, ids) {
        ClaimedMarked(last, ids);
      } else {
        UnmarkedSnoc(Drop(front, ids), last);
      }
    }
  }

  lemma ClaimedMarked(line: string, ids: set<string>)
    requires Claimed(line, ids)
    ensures Marked(line)
  {
    var id :| id in ids && EndsWith(line, Mark(id));
    UnmarkedEnds(line, id);
  }

  lemma {:induction false} DropTidy(lines: seq<string>, ids: set<string>)
    requires Tidy(lines)
    ensures Tidy(Drop(lines, ids)) && Ids(Drop(lines, ids)) == Ids(lines) - ids
  {
    hide *;
    if lines == [] {
      Nothing(lines, ids);
    } else {
      var front, last := lines[..|lines| - 1], lines[|lines| - 1];
      assert lines == front + [last];
      TidySnoc(front, last);
      DropTidy(front, ids);
      DropSnoc(front, last, ids);
      IdsSnoc(front, last);
      IdsSnoc(Drop(front, ids), last);
      TidySnoc(Drop(front, ids), last);
      if Marked(last) {
        ClaimedIsId(lines, last, ids);
      } else if Claimed(last, ids) {
        ClaimedMarked(last, ids);
      }
    }
  }

  lemma ClaimedIsId(lines: seq<string>, l: string, ids: set<string>)
    requires Tidy(lines) && l in lines && Marked(l)
    ensures Claimed(l, ids) <==> IdOf(l) in ids
  {
    TidyLine(lines, l);
    forall id | id in ids ensures EndsWith(l, Mark(id)) <==> id == IdOf(l) {
      GrantEnds(l, id);
    }
  }

  lemma {:induction false} DropTwice(lines: seq<string>, a: set<string>, b: set<string>)
    ensures Drop(Drop(lines, a), b) == Drop(lines, a + b)
  {
    hide *;
    if lines == [] {
      Nothing(lines, a);
      Nothing(lines, b);
      Nothing(lines, a + b);
    } else {
      var front, last := lines[..|lines| - 1], lines[|lines| - 1];
      assert lines == front + [last];
      DropTwice(front, a, b);
      ClaimedUnion(last, a, b);
      DropSnoc(front, last, a);
      DropSnoc(front, last, a + b);
      DropSnoc(Drop(front, a), last, b);
    }
  }

  lemma ClaimedUnion(l: string, a: set<string>, b: set<string>)
    ensures Claimed(l, a + b) <==> Claimed(l, a) || Claimed(l, b)
  {
  }

  function Granted(lines: seq<string>, key: string, id: string): seq<string> {
    Drop(lines, {id}) + [LineOf(key, id)]
  }

  /** A grant adds its id, keeps one line for it, and leaves unmarked lines alone. */
  lemma GrantTidy(lines: seq<string>, key: string, id: string)
    requires Tidy(lines) && ProperKey(key) && ProperId(id)
    ensures Tidy(Granted(lines, key, id)) && Ids(Granted(lines, key, id)) == Ids(lines) + {id}
    ensures Unmarked(Granted(lines, key, id)) == Unmarked(lines)
  {
    hide *;
    var kept, line := Drop(lines, {id}), LineOf(key, id);
    DropTidy(lines, {id});
    LineIsGrant(key, id);
    TidySnoc(kept, line);
    IdsSnoc(kept, line);
    GrantedIs(lines, key, id);
    GrantUnmarked(lines, key, id);
  }

  lemma GrantedIs(lines: seq<string>, key: string, id: string)
    ensures Granted(lines, key, id) == Drop(lines, {id}) + [LineOf(key, id)]
  {
  }

  lemma GrantUnmarked(lines: seq<string>, key: string, id: string)
    requires ProperKey(key) && ProperId(id)
    ensures Unmarked(Granted(lines, key, id)) == Unmarked(lines)
  {
    var kept, line := Drop(lines, {id}), LineOf(key, id);
    DropKeepsUnmarked(lines, {id});
    LineIsGrant(key, id);
    UnmarkedSnoc(kept, line);
  }

  /** Without its marked lines, any file at all is tidy and shows no id. */
  lemma {:induction false} UnmarkedTidy(lines: seq<string>)
    ensures Tidy(Unmarked(lines)) && Ids(Unmarked(lines)) == {} && Unmarked(Unmarked(lines)) == Unmarked(lines)
  {
    hide *;
    if lines == [] {
      Nothing(lines, {});
    } else {
      var front, last := lines[..|lines| - 1], lines[|lines| - 1];
      assert lines == front + [last];
      UnmarkedTidy(front);
      UnmarkedSnoc(front, last);
      UnmarkedSnoc(Unmarked(front), last);
      TidySnoc(Unmarked(front), last);
      IdsSnoc(Unmarked(front), last);
    }
  }

  // ---------- the file ----------

  class KeyFile {
    var lines: seq<string>

    constructor (start: seq<string>)
      ensures lines == start
    {
      lines := start;
    }

    /** `grant` with a canonical key. */
    method Grant(key: string, id: string)
      modifies this
      ensures lines == Granted(old(lines), key, id)
    {
      lines := Drop(lines, {id});
      lines := lines + [LineOf(key, id)];
    }

    /** True exactly when some line ended in the id's mark; all such lines go. */
    method Revoke(id: string) returns (found: bool)
      modifies this
      ensures lines == Drop(old(lines), {id})
      ensures found <==> exists l :: l in old(lines) && EndsWith(l, Mark(id))
    {
      var kept := Drop(lines, {id});
      if |kept| == |lines| {
        DropNothing(lines, {id});
        return false;
      }
      DropSomething(lines, {id});
      lines := kept;
      found := true;
    }

    method RevokeAll() returns (removed: nat)
      modifies this
      ensures lines == Unmarked(old(lines)) && removed == |old(lines)| - |lines|
    {
      var kept := Unmarked(lines);
      removed := |lines| - |kept|;
      if removed > 0 { lines := kept; } else { UnmarkedNothing(lines); }
    }

    method ActiveSessions() returns (ids: seq<string>)
      ensures ids == Shown(lines)
    {
      ids := [];
      for k := 0 to |lines|
        invariant ids == Shown(lines[..k])
      {
        assert lines[..k + 1][..k] == lines[..k];
        var line := lines[k];
        var at := if |line| < |MARKER| then -1 else RFind(line, |line| - |MARKER|);
        if at >= 0 {
          assert Marked(line);
          ids := ids + [Strip(line[at + |MARKER|..])];
        } else {
          assert !Marked(line);
        }
      }
      assert lines[..|lines|] == lines;
    }
  }

  lemma {:induction false} DropNothing(lines: seq<string>, ids: set<string>)
    requires |Drop(lines, ids)| == |lines|
    ensures Drop(lines, ids) == lines && forall l | l in lines :: !Claimed(l, ids)
  {
    if lines != [] { DropNothing(lines[..|lines| - 1], ids); }
  }

  lemma {:induction false} DropSomething(lines: seq<string>, ids: set<string>)
    requires |Drop(lines, ids)| < |lines|
    ensures exists l :: l in lines && Claimed(l, ids)
  {
    var front, last := lines[..|lines| - 1], lines[|lines| - 1];
    if Claimed(last, ids) {
      assert last in lines;
    } else {
      DropSomething(front, ids);
      var l :| l in front && Claimed(l, ids);
      assert l in lines;
    }
  }

  lemma {:induction false} UnmarkedNothing(lines: seq<string>)
    requires |Unmarked(lines)| == |lines|
    ensures Unmarked(lines) == lines
  {
    if lines != [] { UnmarkedNothing(lines[..|lines| - 1]); }
  }
}
