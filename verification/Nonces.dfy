/** The nonce book: a nonce is accepted once within its time to live. */
module Nonces {
  import opened Text

  type Seen = map<string, real>

  /** `^[0-9a-f]{64}$`, whose end also matches before a final newline. */
  predicate WellFormed(nonce: string) {
    || (|nonce| == 64 && IsHex(nonce))
    || (|nonce| == 65 && IsHex(nonce[..64]) && nonce[64] == '\n')
  }

  /** Every nonce of 64 lower-case hexadecimal digits is well formed, and nothing of another
      length but one with a newline at its end. */
  lemma HexIsWellFormed(nonce: string)
    requires IsHex(nonce)
    ensures |nonce| == 64 ==> WellFormed(nonce) && WellFormed(nonce + "\n")
    ensures |nonce| != 64 ==> !WellFormed(nonce)
  {
    var longer := nonce + "\n";
    assert |nonce| == 64 ==> longer[..64] == nonce;
    assert |nonce| == 65 ==> nonce[64] in nonce;
  }

  /** The entries still running. */
  function Live(seen: Seen, now: real): Seen {
    map n | n in seen && seen[n] > now :: seen[n]
  }

  /** The book after an accept, and whether it accepted. */
  function Accepted(seen: Seen, nonce: string, now: real, ttl: real): (Seen, bool) {
    if !WellFormed(nonce) then (seen, false)
    else if nonce in Live(seen, now) then (Live(seen, now), false)
    else (Live(seen, now)[nonce := now + ttl], true)
  }

  class NonceBook {
    const ttl: real
    var seen: Seen

    constructor (ttl: real)
      ensures this.ttl == ttl && seen == map[]
    {
      this.ttl := ttl;
      seen := map[];
    }

    method Accept(nonce: string, now: real) returns (ok: bool)
      modifies this
      ensures (seen, ok) == Accepted(old(seen), nonce, now, ttl)
    {
      if !WellFormed(nonce) { return false; }
      var _ := Expire(now);
      if nonce in seen { return false; }
      seen := seen[nonce := now + ttl];
      ok := true;
    }

    method Expire(now: real) returns (count: nat)
      modifies this
      ensures seen == Live(old(seen), now) && count == |old(seen)| - |seen|
    {
      var stale := set n | n in seen && seen[n] <= now;
      var todo := stale;
      ghost var start := seen;
      while todo != {}
        invariant todo <= stale
        invariant seen == start - (stale - todo)
      {
        var n :| n in todo;
        assert start - (stale - todo) - {n} == start - (stale - (todo - {n}));
        todo := todo - {n};
        seen := seen - {n};
      }
      count := |stale|;
      assert seen.Keys == start.Keys - stale && stale <= start.Keys;
    }
  }

  // ---------- runs ----------

  datatype Call = Try(nonce: string, at: real) | Tidying(at: real)

  function After(seen: Seen, call: Call, ttl: real): Seen {
    match call
    case Try(nonce, at) => Accepted(seen, nonce, at, ttl).0
    case Tidying(at) => Live(seen, at)
  }

  ghost predicate IsRun(books: seq<Seen>, calls: seq<Call>, ttl: real) {
    && |books| == |calls| + 1
    && (forall k | 0 <= k < |calls| :: books[k + 1] == After(books[k], calls[k], ttl))
    && forall i, j | 0 <= i < j < |calls| :: calls[i].at <= calls[j].at
  }

  predicate AcceptedAt(books: seq<Seen>, calls: seq<Call>, ttl: real, k: nat, nonce: string)
    requires k < |calls| && k < |books|
  {
    calls[k].Try? && calls[k].nonce == nonce && Accepted(books[k], nonce, calls[k].at, ttl).1
  }

  /** Until its time is up an accepted nonce stays in the book. */
  lemma {:induction false} StaysSeen(books: seq<Seen>, calls: seq<Call>, ttl: real, i: nat, j: nat, nonce: string)
    requires IsRun(books, calls, ttl) && i < j < |calls| && AcceptedAt(books, calls, ttl, i, nonce)
    requires calls[j].at < calls[i].at + ttl
    ensures nonce in books[j] && books[j][nonce] == calls[i].at + ttl
    decreases j
  {
    assert books[j] == After(books[j - 1], calls[j - 1], ttl);
    if j > i + 1 {
      StaysSeen(books, calls, ttl, i, j - 1, nonce);
    }
  }

  /** Two accepts of one nonce are at least the time to live apart. */
  lemma AcceptsApart(books: seq<Seen>, calls: seq<Call>, ttl: real, i: nat, j: nat, nonce: string)
    requires IsRun(books, calls, ttl) && i < j < |calls|
    requires AcceptedAt(books, calls, ttl, i, nonce) && AcceptedAt(books, calls, ttl, j, nonce)
    ensures calls[j].at - calls[i].at >= ttl
  {
    if calls[j].at - calls[i].at < ttl {
      StaysSeen(books, calls, ttl, i, j, nonce);
      assert false;
    }
  }

  /** An entry comes from an accept. */
  lemma {:induction false} Origin(books: seq<Seen>, calls: seq<Call>, ttl: real, j: nat, nonce: string) returns (i: nat)
    requires IsRun(books, calls, ttl) && books[0] == map[] && j < |books| && nonce in books[j]
    ensures i < j && AcceptedAt(books, calls, ttl, i, nonce) && books[j][nonce] == calls[i].at + ttl
    decreases j
  {
    assert books[j] == After(books[j - 1], calls[j - 1], ttl);
    if AcceptedAt(books, calls, ttl, j - 1, nonce) {
      i := j - 1;
    } else {
      i := Origin(books, calls, ttl, j - 1, nonce);
    }
  }

  /** From an empty book, a well-formed nonce is refused exactly when it was accepted
      less than the time to live before. */
  lemma RefusedExactly(books: seq<Seen>, calls: seq<Call>, ttl: real, j: nat)
    requires IsRun(books, calls, ttl) && books[0] == map[] && j < |calls| && calls[j].Try? && WellFormed(calls[j].nonce)
    ensures !AcceptedAt(books, calls, ttl, j, calls[j].nonce) <==>
      exists i: nat :: i < j && AcceptedAt(books, calls, ttl, i, calls[j].nonce) && calls[j].at < calls[i].at + ttl
  {
    var nonce := calls[j].nonce;
    if !AcceptedAt(books, calls, ttl, j, nonce) {
      var i := Origin(books, calls, ttl, j, nonce);
    }
    forall i: nat | i < j && AcceptedAt(books, calls, ttl, i, nonce) && calls[j].at < calls[i].at + ttl
      ensures !AcceptedAt(books, calls, ttl, j, nonce)
    {
      StaysSeen(books, calls, ttl, i, j, nonce);
    }
  }
}
