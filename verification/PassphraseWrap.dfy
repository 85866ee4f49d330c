/** The one-time pad around a volume passphrase: Python wraps it with `^`, and an
    awk program, which has no bitwise operators, unwraps it with arithmetic. */
module PassphraseWrap {
  import opened NatBits

  /** The awk inner loop: r gathers the bits in which a and b differ, and the pad
      of each turn is the next power of two. */
  method AwkXor(x: nat, y: nat) returns (r: nat)
    ensures r == Xor(x, y)
  {
    var a, b, p := x, y, 1;
    r := 0;
    ghost var turns: nat := 0;
    while a > 0 || b > 0
      invariant p == Pow2(turns)
      invariant r + p * Xor(a, b) == Xor(x, y)
      decreases a + b
    {
      ghost var rest := Xor(a / 2, b / 2);
      assert p * Xor(a, b) == p * (if a % 2 != b % 2 then 1 else 0) + 2 * p * rest by {
        XorHalf(a, b);
        Split(p, if a % 2 != b % 2 then 1 else 0, rest);
      }
      if a % 2 != b % 2 { r := r + p; }
      a, b := a / 2, b / 2;
      p := p * 2;
      turns := turns + 1;
    }
  }

  lemma Split(p: nat, bit: nat, rest: nat)
    ensures p * (bit + 2 * rest) == p * bit + 2 * p * rest
  {
  }

  const DIGITS := "0123456789abcdef"

  /** The digits are those of hexadecimal notation, in order. */
  lemma DigitIs(v: nat)
    requires v < 16
    ensures DIGITS[v] as int == if v < 10 then '0' as int + v else 'a' as int + v - 10
  {
  }

  /** `bytes.hex()`: two lower-case digits a byte. */
  function ToHex(bytes: seq<byte>): (s: string)
    ensures |s| == 2 * |bytes|
  {
    if bytes == [] then [] else ToHex(bytes[..|bytes| - 1]) + HexByte(bytes[|bytes| - 1])
  }

  function HexByte(b: byte): (s: string)
    ensures |s| == 2
  {
    [DIGITS[b / 16], DIGITS[b % 16]]
  }

  /** awk's `index(h, c)`: the one-based position of a character, zero if absent. */
  method Index(c: char) returns (i: nat)
    ensures i == IndexOf(c)
  {
    i := 1;
    while i <= 16
      invariant 1 <= i <= 17
      invariant forall j | 0 <= j < i - 1 :: DIGITS[j] != c
    {
      if DIGITS[i - 1] == c { IndexUnique(c, i - 1); return i; }
      i := i + 1;
    }
    IndexAbsent(c);
    return 0;
  }

  function IndexFrom(c: char, k: nat): nat
    requires k <= 16
    decreases 16 - k
  {
    if k == 16 then 0 else if DIGITS[k] == c then k + 1 else IndexFrom(c, k + 1)
  }

  function IndexOf(c: char): nat { IndexFrom(c, 0) }

  lemma {:induction false} SkipTo(c: char, k: nat, i: nat)
    requires k <= i <= 16 && forall j | k <= j < i :: DIGITS[j] != c
    ensures IndexFrom(c, k) == IndexFrom(c, i)
    decreases i - k
  {
    if k < i { SkipTo(c, k + 1, i); }
  }

  lemma IndexUnique(c: char, i: nat)
    requires i < 16 && DIGITS[i] == c && forall j | 0 <= j < i :: DIGITS[j] != c
    ensures IndexOf(c) == i + 1
  {
    SkipTo(c, 0, i);
  }

  lemma IndexAbsent(c: char)
    requires forall j | 0 <= j < 16 :: DIGITS[j] != c
    ensures IndexOf(c) == 0
  {
    SkipTo(c, 0, 16);
  }

  lemma DigitsDistinct(i: nat, j: nat)
    requires i < j < 16
    ensures DIGITS[i] != DIGITS[j]
  {
  }

  lemma IndexOfDigit(v: nat)
    requires v < 16
    ensures IndexOf(DIGITS[v]) == v + 1
  {
    forall j | 0 <= j < v ensures DIGITS[j] != DIGITS[v] { DigitsDistinct(j, v); }
    IndexUnique(DIGITS[v], v);
  }

  lemma {:induction false} HexAt(bytes: seq<byte>, i: nat)
    requires i < |bytes|
    ensures ToHex(bytes)[2 * i] == DIGITS[bytes[i] / 16] && ToHex(bytes)[2 * i + 1] == DIGITS[bytes[i] % 16]
  {
    if i < |bytes| - 1 { HexAt(bytes[..|bytes| - 1], i); }
  }

  /** The wrapped value Python sends: each byte of the passphrase under its pad. */
  function Wrap(raw: seq<byte>, pad: seq<byte>): seq<byte>
    requires |raw| == |pad|
  {
    seq<byte>(|raw|, i requires 0 <= i < |raw| => XorByte(raw[i], pad[i]))
  }

  /** One byte decoded by the awk program at position i of a hex string. */
  method DecodeByte(h: string, ghost bytes: seq<byte>, i: nat) returns (v: nat)
    requires h == ToHex(bytes) && i < |bytes|
    ensures v == bytes[i]
  {
    HexAt(bytes, i);
    IndexOfDigit(bytes[i] / 16);
    IndexOfDigit(bytes[i] % 16);
    var high := Index(h[2 * i]);
    var low := Index(h[2 * i + 1]);
    v := (high - 1) * 16 + low - 1;
  }

  /** The emitted program, given the hex of the wrapped value and of the pad,
      prints the passphrase: at every length, for every pad. */
  method AwkUnwrap(w: string, k: string, ghost raw: seq<byte>, ghost pad: seq<byte>) returns (printed: seq<nat>)
    requires |raw| == |pad| && w == ToHex(Wrap(raw, pad)) && k == ToHex(pad)
    ensures printed == raw
  {
    var n := |w| / 2;
    printed := [];
    for i := 0 to n
      invariant |printed| == i && forall j | 0 <= j < i :: printed[j] == raw[j]
    {
      var a := DecodeByte(w, Wrap(raw, pad), i);
      var b := DecodeByte(k, pad, i);
      var r := AwkXor(a, b);
      XorCancel(raw[i], pad[i]);
      printed := printed + [r];
    }
  }
}
