/** Cipher block chaining (NIST SP 800-38A section 6.2) over any way of linking a
    block to its predecessor: `link(p, c)` stands for CIPH(p + c) under one key
    and `unlink(b, c)` for CIPH^-1(b) + c. */
module Cbc {
  import opened NatBits
  import opened Aes

  type Linking = (Block, Block) -> Block

  /** C_(j-1), with the IV for C_(-1). */
  function Previous(iv: Block, c: seq<Block>, j: nat): Block
    requires j <= |c|
  {
    if j == 0 then iv else c[j - 1]
  }

  /** Every ciphertext block is its plaintext block linked to its predecessor. */
  ghost predicate Chained(link: Linking, iv: Block, p: seq<Block>, c: seq<Block>) {
    && |c| <= |p|
    && forall j: nat | j < |c| :: c[j] == link(p[j], Previous(iv, c, j))
  }

  function Decrypt(unlink: Linking, iv: Block, c: seq<Block>): (p: seq<Block>)
    ensures |p| == |c|
  {
    seq<Block>(|c|, j requires 0 <= j < |c| => unlink(c[j], Previous(iv, c, j)))
  }

  /** Decrypting a chain gives back the plaintext. */
  lemma RoundTrip(link: Linking, unlink: Linking, iv: Block, p: seq<Block>, c: seq<Block>)
    requires forall x, y :: unlink(link(x, y), y) == x
    requires Chained(link, iv, p, c) && |c| == |p|
    ensures Decrypt(unlink, iv, c) == p
  {
    forall j: nat | j < |p| ensures Decrypt(unlink, iv, c)[j] == p[j] {
      assert c[j] == link(p[j], Previous(iv, c, j));
    }
  }

  /** Every ciphertext is the chain of what it decrypts to. */
  lemma DecryptChained(link: Linking, unlink: Linking, iv: Block, c: seq<Block>)
    requires forall x, y :: link(unlink(x, y), y) == x
    ensures Chained(link, iv, Decrypt(unlink, iv, c), c)
  {
  }

  /** The chaining equations determine the ciphertext. */
  lemma {:induction false} Unique(link: Linking, iv: Block, p: seq<Block>, c: seq<Block>, d: seq<Block>, j: nat)
    requires Chained(link, iv, p, c) && Chained(link, iv, p, d) && j < |c| && j < |d|
    ensures c[j] == d[j]
  {
    if j > 0 { Unique(link, iv, p, c, d, j - 1); }
  }

  lemma Extend(link: Linking, iv: Block, p: seq<Block>, c: seq<Block>, last: Block)
    requires Chained(link, iv, p, c) && |c| < |p| && last == link(p[|c|], Previous(iv, c, |c|))
    ensures Chained(link, iv, p, c + [last])
  {
    var d := c + [last];
    forall j: nat | j < |d| ensures d[j] == link(p[j], Previous(iv, d, j)) {
      assert Previous(iv, d, j) == Previous(iv, c, j);
    }
  }

  // ---------- bytes as blocks ----------

  function Split(s: seq<byte>): (b: seq<Block>)
    requires |s| % 16 == 0
    ensures |b| == |s| / 16
  {
    seq(|s| / 16, j requires 0 <= j < |s| / 16 => s[16 * j..16 * j + 16])
  }

  function Flatten(b: seq<Block>): (s: seq<byte>)
    ensures |s| == 16 * |b|
  {
    if b == [] then [] else Flatten(b[..|b| - 1]) + b[|b| - 1]
  }

  lemma {:induction false} SplitFlatten(b: seq<Block>)
    ensures Split(Flatten(b)) == b
  {
    if b != [] {
      var front, last := b[..|b| - 1], b[|b| - 1];
      SplitFlatten(front);
      SplitAppend(Flatten(front), last);
    }
  }

  lemma SplitAppend(s: seq<byte>, last: Block)
    requires |s| % 16 == 0
    ensures Split(s + last) == Split(s) + [last]
  {
    var t := s + last;
    var k := |s| / 16;
    assert |t| / 16 == k + 1 && t[16 * k..16 * k + 16] == last;
    forall j: nat | j < k ensures t[16 * j..16 * j + 16] == s[16 * j..16 * j + 16] {
    }
    assert Split(t) == Split(s) + [last];
  }

  lemma {:induction false} FlattenSplit(s: seq<byte>)
    requires |s| % 16 == 0
    ensures Flatten(Split(s)) == s
    decreases |s|
  {
    if s != [] {
      var front := s[..|s| - 16];
      var last: Block := s[|s| - 16..];
      FlattenSplit(front);
      assert s == front + last;
      SplitAppend(front, last);
      var blocks: seq<Block> := Split(front) + [last];
      assert blocks[..|blocks| - 1] == Split(front);
    }
  }
}
