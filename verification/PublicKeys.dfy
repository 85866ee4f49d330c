/** The accepted form of a public key: type, one space, base64 body. */
module PublicKeys {
  import opened Wrappers
  import opened Text
  import opened SshKeys

  /** A known key type. */
  predicate KeyType(t: string) {
    t == "ssh-ed25519" || t == "ecdsa-sha2-nistp256" || t == "ecdsa-sha2-nistp384" || t == "ssh-rsa"
  }

  predicate Base64(c: char) {
    'A' <= c <= 'Z' || 'a' <= c <= 'z' || '0' <= c <= '9' || c == '+' || c == '/'
  }

  /** `=*$`. */
  predicate Padding(s: string) {
    forall c | c in s :: c == '='
  }

  /** `[A-Za-z0-9+/]+=*`. */
  predicate Body(s: string) {
    exists n | 0 < n <= |s| :: (forall i | 0 <= i < n :: Base64(s[i])) && Padding(s[n..])
  }

  /** Where the word at the front ends. */
  function WordEnd(s: string): (n: nat)
    ensures n <= |s| && (forall i | 0 <= i < n :: !Space(s[i])) && (n < |s| ==> Space(s[n]))
  {
    if s == "" || Space(s[0]) then 0 else 1 + WordEnd(s[1..])
  }

  function SkipSpaces(s: string): (t: string)
    ensures |t| <= |s| && (t != "" ==> !Space(t[0]))
  {
    if s != "" && Space(s[0]) then SkipSpaces(s[1..]) else s
  }

  /** `str.split` without a separator. */
  function Words(s: string): (words: seq<string>)
    ensures forall w | w in words :: w != "" && forall c | c in w :: !Space(c)
    decreases |s|
  {
    var t := SkipSpaces(s);
    if t == "" then []
    else
      var n := WordEnd(t);
      assert n > 0;
      [t[..n]] + Words(t[n..])
  }

  function Canonical(text: string): Option<string> {
    var words := Words(Strip(text));
    if |words| < 2 || !KeyType(words[0]) || !Body(words[1]) then None else Some(words[0] + " " + words[1])
  }

  lemma Blank()
    ensures Space(' ')
  {
  }

  lemma StripKeeps(s: string)
    requires s != "" && !Space(s[0]) && !Space(s[|s| - 1])
    ensures Strip(s) == s
  {
    hide Space;
  }

  /** A word at the front, and what is after it. */
  lemma FirstWord(a: string, rest: string)
    requires a != "" && (forall c | c in a :: !Space(c)) && (rest == "" || Space(rest[0]))
    ensures Words(a + rest) == [a] + Words(rest)
  {
    hide Space;
    var s := a + rest;
    assert forall i | 0 <= i < |a| :: s[i] == a[i] && a[i] in a;
    EndOfWord(s, |a|);
    assert s[..|a|] == a && s[|a|..] == rest;
    assert s[0] == a[0];
  }

  lemma BlankFirst(rest: string)
    ensures Words(" " + rest) == Words(rest)
  {
    hide Space;
    Blank();
    assert (" " + rest)[1..] == rest;
  }

  lemma WordsOfTwo(a: string, b: string)
    requires a != "" && b != "" && (forall c | c in a :: !Space(c)) && (forall c | c in b :: !Space(c))
    ensures Words(a + " " + b) == [a, b] && Strip(a + " " + b) == a + " " + b
  {
    hide Space, Words, Strip;
    Blank();
    var s := a + " " + b;
    assert s == a + (" " + b) && b == b + "";
    FirstWord(a, " " + b);
    BlankFirst(b);
    FirstWord(b, "");
    NoWords("");
    assert s[0] == a[0] && a[0] in a && s[|s| - 1] == b[|b| - 1] && b[|b| - 1] in b;
    StripKeeps(s);
  }

  lemma NoWords(none: string)
    requires none == ""
    ensures Words(none) == []
  {
  }

  lemma {:induction false} EndOfWord(s: string, n: nat)
    requires n <= |s| && (forall i | 0 <= i < n :: !Space(s[i])) && (n < |s| ==> Space(s[n]))
    ensures WordEnd(s) == n
  {
    if n > 0 { EndOfWord(s[1..], n - 1); }
  }

  /** Table 1 of RFC 4648: the character of each of the 64 digits. */
  function Digit(v: nat): char
    requires v < 64
  {
    if v < 26 then ('A' as int + v) as char
    else if v < 52 then ('a' as int + (v - 26)) as char
    else if v < 62 then ('0' as int + (v - 52)) as char
    else if v == 62 then '+' else '/'
  }

  predicate IsDigit(c: char) { exists v: nat | v < 64 :: Digit(v) == c }

  lemma DigitExactly(c: char)
    ensures Base64(c) <==> IsDigit(c)
  {
    if Base64(c) {
      var v: nat :=
        if 'A' <= c <= 'Z' then c as int - 'A' as int
        else if 'a' <= c <= 'z' then 26 + (c as int - 'a' as int)
        else if '0' <= c <= '9' then 52 + (c as int - '0' as int)
        else if c == '+' then 62 else 63;
      assert Digit(v) == c;
    }
  }

  /** n base64 digits and then equals signs. */
  predicate DigitsThenPadding(s: string, n: nat)
    requires n <= |s|
  {
    (forall i | 0 <= i < n :: IsDigit(s[i])) && (forall i | n <= i < |s| :: s[i] == '=')
  }

  lemma BodyExactly(s: string)
    ensures Body(s) <==> exists n | 0 < n <= |s| :: DigitsThenPadding(s, n)
  {
    hide IsDigit, Base64;
    forall c ensures Base64(c) <==> IsDigit(c) { DigitExactly(c); }
    forall n | 0 < n <= |s|
      ensures DigitsThenPadding(s, n) <==> (forall i | 0 <= i < n :: Base64(s[i])) && Padding(s[n..])
    {
      forall i | n <= i < |s| ensures s[i] == s[n..][i - n] && s[i] in s[n..] {}
    }
  }

  /** A key of any accepted type with a base64 body is accepted, and a comment after it is
      dropped. */
  lemma CanonicalAccepts(t: string, b: string, comment: string)
    requires t == "ssh-ed25519" || t == "ecdsa-sha2-nistp256" || t == "ecdsa-sha2-nistp384" || t == "ssh-rsa"
    requires Body(b)
    ensures Canonical(t + " " + b) == Some(t + " " + b)
    ensures comment != "" && !Space(comment[0]) && !Space(comment[|comment| - 1]) ==>
      Canonical(t + " " + b + " " + comment) == Some(t + " " + b)
  {
    hide Space, Words, Strip, Body;
    BodyHasNoSpace(b);
    TypeHasNoSpace(t);
    WordsOfTwo(t, b);
    if comment != "" && !Space(comment[0]) && !Space(comment[|comment| - 1]) {
      WordsBefore(t, b, comment);
    }
  }

  /** Two words make a key exactly when they are one of the four types and a base64 body. */
  lemma CanonicalExactly(t: string, b: string)
    requires t != "" && b != "" && (forall c | c in t + b :: !Space(c))
    ensures Canonical(t + " " + b) ==
      if t in {"ssh-ed25519", "ecdsa-sha2-nistp256", "ecdsa-sha2-nistp384", "ssh-rsa"}
         && (exists n | 0 < n <= |b| :: DigitsThenPadding(b, n))
      then Some(t + " " + b) else None
  {
    hide DigitsThenPadding, Body, Words, Strip;
    assert forall c | c in t :: c in t + b;
    assert forall c | c in b :: c in t + b;
    WordsOfTwo(t, b);
    BodyExactly(b);
  }

  lemma TypeHasNoSpace(t: string)
    requires KeyType(t)
    ensures t != "" && forall c | c in t :: !Space(c)
  {
  }

  lemma BodyHasNoSpace(b: string)
    requires Body(b)
    ensures b != "" && forall c | c in b :: !Space(c)
  {
    var n :| 0 < n <= |b| && (forall i | 0 <= i < n :: Base64(b[i])) && Padding(b[n..]);
    forall i | 0 <= i < |b| ensures !Space(b[i]) {
      if i >= n {
        assert b[n..][i - n] == b[i];
        assert b[i] in b[n..];
      } else {
        assert Base64(b[i]);
      }
    }
  }

  lemma Ends(a: string, more: string, last: char)
    requires a != "" && more != "" && more[|more| - 1] == last
    ensures (a + more)[0] == a[0] && a[0] in a && (a + more)[|a + more| - 1] == last
  {
  }

  lemma Regroup(a: string, b: string, rest: string)
    ensures a + " " + b + " " + rest == a + (" " + (b + (" " + rest)))
  {
  }

  lemma Grouped(a: string, b: string, tail: string, mid: string, more: string, rest: string)
    requires a != "" && b != "" && (forall c | c in a :: !Space(c)) && (forall c | c in b :: !Space(c))
    requires tail == " " + rest && mid == b + tail && more == " " + mid
    ensures Words(a + more) == [a] + ([b] + Words(rest))
  {
    hide Space, Words;
    Blank();
    FirstWord(a, more);
    BlankFirst(mid);
    FirstWord(b, tail);
    BlankFirst(rest);
  }

  /** The words of a line that starts with two. */
  lemma WordsBefore(a: string, b: string, rest: string)
    requires a != "" && b != "" && (forall c | c in a :: !Space(c)) && (forall c | c in b :: !Space(c))
    requires rest != "" && !Space(rest[|rest| - 1])
    ensures var s := a + " " + b + " " + rest; Strip(s) == s && Words(s) == [a] + ([b] + Words(rest))
  {
    hide Space, Words, Strip;
    var more := " " + (b + (" " + rest));
    Regroup(a, b, rest);
    Grouped(a, b, " " + rest, b + (" " + rest), more, rest);
    Ends(a, more, rest[|rest| - 1]);
    StripKeeps(a + more);
  }

  /** A canonical key is already canonical, and holds no colon, so that a line
      written for it has the marker's colon only. */
  lemma CanonicalIdempotent(text: string)
    requires Canonical(text).Some?
    ensures Canonical(Canonical(text).value) == Canonical(text)
    ensures ProperKey(Canonical(text).value)
  {
    var words := Words(Strip(text));
    var a, b := words[0], words[1];
    assert a in words && b in words;
    WordsOfTwo(a, b);
    NoColon(a, b);
  }

  lemma NoColon(a: string, b: string)
    requires KeyType(a) && Body(b)
    ensures ProperKey(a + " " + b)
  {
    assert ':' !in a;
    var n :| 0 < n <= |b| && (forall i | 0 <= i < n :: Base64(b[i])) && Padding(b[n..]);
    forall i | 0 <= i < |b| ensures b[i] != ':' {
      if i >= n {
        assert b[n..][i - n] == b[i];
        assert b[i] in b[n..];
      } else {
        assert Base64(b[i]);
      }
    }
    forall c | c in a + " " + b ensures c != ':' {
    }
  }
}
