/** White space and hexadecimal text. */
module Text {

  /** What `str.strip` and `str.split` take for white space. */
  predicate Space(c: char) {
    || 9 <= c as int <= 13 || 28 <= c as int <= 32 || c as int == 0x85 || c as int == 0xA0 || c as int == 0x1680
    || 0x2000 <= c as int <= 0x200A || 0x2028 <= c as int <= 0x2029 || c as int == 0x202F || c as int == 0x205F
    || c as int == 0x3000
  }

  function StripLeft(s: string): string {
    if s != "" && Space(s[0]) then StripLeft(s[1..]) else s
  }

  function StripRight(s: string): string {
    if s != "" && Space(s[|s| - 1]) then StripRight(s[..|s| - 1]) else s
  }

  function Strip(s: string): string { StripRight(StripLeft(s)) }

  predicate IsHex(s: string) {
    forall c | c in s :: '0' <= c <= '9' || 'a' <= c <= 'f'
  }

  lemma StripHex(s: string)
    requires IsHex(s)
    ensures Strip(s) == s
  {
    assert s != "" ==> s[0] in s && s[|s| - 1] in s;
  }
}
