/** The token the payload seals its report in: PKCS#7 padding (RFC 5652 section
    6.3), CBC (NIST SP 800-38A section 6.2) and the Fernet token format, with
    the decoder a receiver runs. HMAC-SHA256 is a parameter. */
module Fernet {
  import opened Wrappers
  import opened NatBits
  import opened Aes
  import Cbc
  import Sums

  datatype Opened = Opened(time: nat, message: seq<byte>)

  const HEADER := 25
  const TAG := 32

  // ---------- padding ----------

  function Pad(data: seq<byte>): (p: seq<byte>)
    ensures |p| % 16 == 0 && |data| < |p| <= |data| + 16
  {
    var pad := 16 - |data| % 16;
    data + seq(pad, _ => pad)
  }

  predicate PaddedBy(p: seq<byte>, n: nat) {
    1 <= n <= 16 && n <= |p| && forall i | |p| - n <= i < |p| :: p[i] == n
  }

  function Unpad(p: seq<byte>): Result<seq<byte>> {
    if p == [] then Err("padding")
    else
      var n := p[|p| - 1];
      if PaddedBy(p, n) then Ok(p[..|p| - n]) else Err("padding")
  }

  lemma UnpadPad(data: seq<byte>)
    ensures Unpad(Pad(data)) == Ok(data)
  {
    assert Pad(data)[..|data|] == data;
  }

  /** Only padded data is accepted: among whole blocks, stripping is the exact
      inverse of padding. */
  lemma PadUnpad(p: seq<byte>)
    requires |p| % 16 == 0 && Unpad(p).Ok?
    ensures Pad(Unpad(p).value) == p
  {
    var n := p[|p| - 1];
    var data := p[..|p| - n];
    PaddingLength(|p|, n);
    assert p == data + seq(n, _ => n);
  }

  lemma PaddingLength(whole: nat, n: nat)
    requires whole % 16 == 0 && 1 <= n <= 16 && n <= whole
    ensures 16 - (whole - n) % 16 == n
  {
  }

  // ---------- the token ----------

  /** n bytes, most significant first, as `struct.pack(">Q", ...)` does for 8. */
  function BigEndian(v: nat, n: nat): (s: seq<byte>)
    ensures |s| == n
  {
    if n == 0 then [] else BigEndian(v / 256, n - 1) + [v % 256]
  }

  /** Byte i has weight 256^(n - 1 - i). */
  lemma {:induction false} BigEndianAt(v: nat, n: nat, i: nat)
    requires i < n
    ensures BigEndian(v, n)[i] == v / Pow256(n - 1 - i) % 256
  {
    if i < n - 1 {
      BigEndianAt(v / 256, n - 1, i);
      DivideTwice(v, Pow256(n - 2 - i));
    }
  }

  lemma DivideTwice(v: nat, p: nat)
    requires p > 0
    ensures v / 256 / p == v / (256 * p)
  {
    var q, r := v / (256 * p), v % (256 * p);
    assert v == 256 * p * q + r;
    var s, u := r / 256, r % 256;
    assert r == 256 * s + u && s < p;
    assert v == 256 * (p * q + s) + u;
    Quotients(v, p * q + s, u, p, q, s);
  }

  lemma Quotients(v: nat, m: nat, u: nat, p: nat, q: nat, s: nat)
    requires v == 256 * m + u && u < 256 && p > 0 && m == p * q + s && s < p
    ensures v / 256 == m && m / p == q
  {
    assert v / 256 == m;
    Sums.ModUnique(m, p, q, s);
  }

  function FromBigEndian(s: seq<byte>): nat {
    if s == [] then 0 else 256 * FromBigEndian(s[..|s| - 1]) + s[|s| - 1]
  }

  function Pow256(n: nat): (p: nat)
    ensures p > 0
  {
    if n == 0 then 1 else 256 * Pow256(n - 1)
  }

  lemma {:induction false} BigEndianRoundTrip(v: nat, n: nat)
    requires v < Pow256(n)
    ensures FromBigEndian(BigEndian(v, n)) == v
  {
    if n > 0 {
      var s := BigEndian(v, n);
      assert s[..|s| - 1] == BigEndian(v / 256, n - 1);
      BigEndianRoundTrip(v / 256, n - 1);
    }
  }

  lemma {:induction false} BigEndianOfRead(s: seq<byte>)
    ensures FromBigEndian(s) < Pow256(|s|) && BigEndian(FromBigEndian(s), |s|) == s
  {
    if s != [] {
      var front, last := s[..|s| - 1], s[|s| - 1];
      BigEndianOfRead(front);
      assert s == front + [last];
      QuotientOf256(FromBigEndian(front), last);
    }
  }

  lemma QuotientOf256(q: nat, r: byte)
    ensures (256 * q + r) / 256 == q && (256 * q + r) % 256 == r
  {
  }

  type Hmac = (seq<byte>, seq<byte>) -> seq<byte>

  /** CIPH(P + C) and CIPH^-1(B) + C under a schedule. */
  ghost function Link(w: KeySchedule): Cbc.Linking { (p: Block, c: Block) => Cipher(w, XorBlocks(p, c)) }

  ghost function Unlink(w: KeySchedule): Cbc.Linking { (b: Block, c: Block) => XorBlocks(InvCipher(w, b), c) }

  lemma UnlinkInverts(w: KeySchedule)
    ensures forall b, c :: Link(w)(Unlink(w)(b, c), c) == b
  {
    hide Cipher, InvCipher, XorBlocks;
    forall b: Block, c: Block ensures Link(w)(Unlink(w)(b, c), c) == b {
      InvCipherInverts(w, b);
      XorBlocksCancel(InvCipher(w, b), c);
    }
  }

  lemma LinkInverts(w: KeySchedule)
    ensures forall p, c :: Unlink(w)(Link(w)(p, c), c) == p
  {
    hide Cipher, InvCipher, XorBlocks;
    forall p: Block, c: Block ensures Unlink(w)(Link(w)(p, c), c) == p {
      CipherInverts(w, XorBlocks(p, c));
      XorBlocksCancel(p, c);
    }
  }

  /** Decoding by the Fernet specification: version, authentication, then
      decryption under the encryption half of the key. */
  ghost function Open(hmac: Hmac, key: seq<byte>, token: seq<byte>): Result<Opened>
    requires |key| >= 32
  {
    if |token| < HEADER + TAG || token[0] != 0x80 then Err("format")
    else if hmac(key[..16], token[..|token| - TAG]) != token[|token| - TAG..] then Err("signature")
    else OpenBasic(Unlink(Schedule(key[16..32])), token[..|token| - TAG])
  }

  function OpenBasic(unlink: Cbc.Linking, basic: seq<byte>): Result<Opened>
    requires |basic| >= HEADER
  {
    if |basic[HEADER..]| % 16 != 0 then Err("format")
    else
      match Unpad(Cbc.Flatten(Cbc.Decrypt(unlink, basic[9..HEADER], Cbc.Split(basic[HEADER..]))))
      case Err(reason) => Err(reason)
      case Ok(message) => Ok(Opened(FromBigEndian(basic[1..9]), message))
  }

  ghost predicate IsCbc(link: Cbc.Linking, iv: Block, p: seq<byte>, c: seq<byte>) {
    |p| % 16 == 0 && |c| == |p| && Cbc.Chained(link, iv, Cbc.Split(p), Cbc.Split(c))
  }

  /** What `fernet_encrypt` signs: version, time, IV and ciphertext. */
  ghost predicate IsBasic(link: Cbc.Linking, iv: Block, time: nat, data: seq<byte>, basic: seq<byte>) {
    && |basic| >= HEADER && basic[0] == 0x80 && basic[1..9] == BigEndian(time, 8) && basic[9..HEADER] == iv
    && IsCbc(link, iv, Pad(data), basic[HEADER..])
  }

  lemma OpenBasicSealed(link: Cbc.Linking, unlink: Cbc.Linking, iv: Block, time: nat, data: seq<byte>, basic: seq<byte>)
    requires forall p, c :: unlink(link(p, c), c) == p
    requires time < Pow256(8) && IsBasic(link, iv, time, data, basic)
    ensures OpenBasic(unlink, basic) == Ok(Opened(time, data))
  {
    hide Cbc.Chained, BigEndian, FromBigEndian, Pad, Unpad;
    var p := Pad(data);
    Cbc.RoundTrip(link, unlink, iv, Cbc.Split(p), Cbc.Split(basic[HEADER..]));
    Cbc.FlattenSplit(p);
    UnpadPad(data);
    BigEndianRoundTrip(time, 8);
  }

  /** Opening a sealed token returns the time and exactly the message, for every
      key, IV, time and message. */
  lemma OpenSealed(hmac: Hmac, key: seq<byte>, iv: Block, time: nat, data: seq<byte>, basic: seq<byte>, token: seq<byte>)
    requires |key| >= 32 && time < Pow256(8) && IsBasic(Link(Schedule(key[16..32])), iv, time, data, basic)
    requires |hmac(key[..16], basic)| == TAG && token == basic + hmac(key[..16], basic)
    ensures Open(hmac, key, token) == Ok(Opened(time, data))
  {
    hide Link, Unlink, OpenBasic, Schedule;
    var w := Schedule(key[16..32]);
    LinkInverts(w);
    OpenBasicSealed(Link(w), Unlink(w), iv, time, data, basic);
    assert token[..|token| - TAG] == basic && token[|token| - TAG..] == hmac(key[..16], basic);
  }

  /** What a sealed token of a time and a message looks like. */
  ghost predicate IsToken(hmac: Hmac, key: seq<byte>, time: nat, data: seq<byte>, token: seq<byte>)
    requires |key| >= 32
  {
    && |token| >= HEADER + TAG && time < Pow256(8)
    && token[|token| - TAG..] == hmac(key[..16], token[..|token| - TAG])
    && IsBasic(Link(Schedule(key[16..32])), token[9..HEADER], time, data, token[..|token| - TAG])
  }

  lemma OpenBasicExactly(link: Cbc.Linking, unlink: Cbc.Linking, time: nat, data: seq<byte>, basic: seq<byte>)
    requires forall p, c :: unlink(link(p, c), c) == p
    requires forall b, c :: link(unlink(b, c), c) == b
    requires |basic| >= HEADER && basic[0] == 0x80
    ensures OpenBasic(unlink, basic) == Ok(Opened(time, data)) <==>
      time < Pow256(8) && IsBasic(link, basic[9..HEADER], time, data, basic)
  {
    hide Cbc.Chained, BigEndian, FromBigEndian, Pow256, Pad, Unpad, Cbc.Decrypt, Cbc.Flatten;
    if time < Pow256(8) && IsBasic(link, basic[9..HEADER], time, data, basic) {
      OpenBasicSealed(link, unlink, basic[9..HEADER], time, data, basic);
    }
    if OpenBasic(unlink, basic) == Ok(Opened(time, data)) {
      var iv, c := basic[9..HEADER], basic[HEADER..];
      var p := Cbc.Decrypt(unlink, iv, Cbc.Split(c));
      BigEndianOfRead(basic[1..9]);
      Cbc.DecryptChained(link, unlink, iv, Cbc.Split(c));
      Cbc.SplitFlatten(p);
      PadUnpad(Cbc.Flatten(p));
    }
  }

  /** A token is accepted, and read as a time and a message, exactly when it is a
      sealing of them: opening and sealing are inverse both ways. */
  lemma OpenExactly(hmac: Hmac, key: seq<byte>, time: nat, data: seq<byte>, token: seq<byte>)
    requires |key| >= 32
    ensures Open(hmac, key, token) == Ok(Opened(time, data)) <==> IsToken(hmac, key, time, data, token)
  {
    hide Link, Unlink, OpenBasic, Schedule, IsCbc;
    if |token| >= HEADER + TAG && token[0] == 0x80 {
      var w, basic := Schedule(key[16..32]), token[..|token| - TAG];
      LinkInverts(w);
      UnlinkInverts(w);
      OpenBasicExactly(Link(w), Unlink(w), time, data, basic);
      assert basic[9..HEADER] == token[9..HEADER] && basic[0] == token[0];
    }
  }

  // ---------- `fernet_encrypt` ----------

  /** The padding lines. */
  method PadMessage(data: seq<byte>) returns (padded: seq<byte>)
    ensures padded == Pad(data) && |padded| == 16 * (|data| / 16 + 1)
  {
    var pad := 16 - |data| % 16;
    padded := data + seq(pad, _ => pad);
  }

  /** The block loop, carrying `previous`. */
  method Chain(sbox: seq<byte>, w: KeySchedule, iv: Block, padded: seq<byte>) returns (out: seq<byte>)
    requires IsSBox(sbox) && |padded| % 16 == 0
    ensures IsCbc(Link(w), iv, padded, out)
  {
    hide IsSBox, Cipher, XorBlocks, Cbc.Chained, Cbc.Flatten;
    ghost var p, c: seq<Block> := Cbc.Split(padded), [];
    NoBlocks(Link(w), iv, p);
    var previous := iv;
    var offset := 0;
    out := [];
    while offset < |padded|
      invariant 0 <= offset <= |padded| && offset % 16 == 0 && |out| == offset
      invariant out == Cbc.Flatten(c) && Cbc.Chained(Link(w), iv, p, c)
      invariant |c| == offset / 16 && previous == Cbc.Previous(iv, c, |c|)
    {
      var block := XorBlocks(padded[offset..offset + 16], previous);
      assert padded[offset..offset + 16] == p[|c|];
      previous := EncryptBlock(sbox, w, block);
      Cbc.Extend(Link(w), iv, p, c, previous);
      AppendBlock(c, previous);
      out := out + previous;
      c := c + [previous];
      offset := offset + 16;
    }
    Cbc.SplitFlatten(c);
  }

  lemma NoBlocks(link: Cbc.Linking, iv: Block, p: seq<Block>)
    ensures Cbc.Chained(link, iv, p, []) && Cbc.Flatten([]) == []
  {
  }

  lemma AppendBlock(c: seq<Block>, last: Block)
    ensures Cbc.Flatten(c + [last]) == Cbc.Flatten(c) + last
  {
    assert (c + [last])[..|c|] == c;
  }

  /** `fernet_encrypt` with its random IV and its clock reading as parameters,
      before the base64 layer. */
  method Encrypt(sbox: seq<byte>, hmac: Hmac, key: seq<byte>, iv: Block, time: nat, data: seq<byte>)
    returns (token: seq<byte>)
    requires IsSBox(sbox) && |key| >= 32 && time < Pow256(8)
    requires forall k, m :: |hmac(k, m)| == TAG
    ensures |token| == HEADER + TAG + 16 * (|data| / 16 + 1)
    ensures IsBasic(Link(Schedule(key[16..32])), iv, time, data, token[..|token| - TAG])
    ensures Open(hmac, key, token) == Ok(Opened(time, data))
  {
    hide *;
    var signingKey, encryptionKey := key[..16], key[16..32];
    var roundKeys := ExpandKey(sbox, encryptionKey);
    var padded := PadMessage(data);
    var out := Chain(sbox, roundKeys, iv, padded);
    var basic: seq<byte> := [0x80] + BigEndian(time, 8) + iv + out;
    Framed(Link(roundKeys), iv, time, data, out, basic);
    var tag := hmac(signingKey, basic);
    token := basic + tag;
    assert token[..|token| - TAG] == basic;
    OpenSealed(hmac, key, iv, time, data, basic, token);
  }

  lemma Framed(link: Cbc.Linking, iv: Block, time: nat, data: seq<byte>, out: seq<byte>, basic: seq<byte>)
    requires IsCbc(link, iv, Pad(data), out) && basic == [0x80] + BigEndian(time, 8) + iv + out
    ensures IsBasic(link, iv, time, data, basic) && |basic| == HEADER + |out| && |out| == |Pad(data)|
  {
    hide Cbc.Chained, BigEndian, Pad;
    assert basic[HEADER..] == out && basic[9..HEADER] == iv && basic[1..9] == BigEndian(time, 8);
  }
}
