/** AES-128: the Cipher and Inverse Cipher of FIPS 197 sections 5.1 and 5.3, the
    key expansion of section 5.2, and the payload's code that computes them. */
module Aes {
  import opened NatBits
  import opened GF256
  import opened SBox
  import opened MixColumn

  type Block = s: seq<byte> | |s| == 16 witness seq(16, _ => 0)

  const ZERO: Block := seq(16, _ => 0)

  /** Eleven round keys. */
  type KeySchedule = w: seq<Block> | |w| == 11 witness [ZERO, ZERO, ZERO, ZERO, ZERO, ZERO, ZERO, ZERO, ZERO, ZERO, ZERO]

  /** A column of the state, which is filled column by column. */
  type Column = c: seq<byte> | |c| == 4 witness [0, 0, 0, 0]

  ghost function SubBytes(s: Block): Block {
    seq(16, i requires 0 <= i < 16 => SubByte(s[i]))
  }

  ghost function InvSubBytes(s: Block): Block {
    seq(16, i requires 0 <= i < 16 => InvSubByte(s[i]))
  }

  /** Row r of the state, the bytes at r, r + 4, r + 8 and r + 12, rotates left
      by r places. */
  function ShiftRows(s: Block): Block {
    [ s[0], s[5], s[10], s[15],
      s[4], s[9], s[14], s[3],
      s[8], s[13], s[2], s[7],
      s[12], s[1], s[6], s[11] ]
  }

  /** Equation 5.5: what ends up in row r and column c was in row r and column c + r. */
  lemma ShiftRowsRotates(s: Block, r: nat, c: nat)
    requires r < 4 && c < 4
    ensures ShiftRows(s)[r + 4 * c] == s[r + 4 * ((c + r) % 4)]
  {
    assert c == 0 || c == 1 || c == 2 || c == 3;
    assert r == 0 || r == 1 || r == 2 || r == 3;
  }

  function InvShiftRows(s: Block): Block {
    [ s[0], s[13], s[10], s[7],
      s[4], s[1], s[14], s[11],
      s[8], s[5], s[2], s[15],
      s[12], s[9], s[6], s[3] ]
  }

  function MixColumn4(c: Column): Column {
    hide MixByte;
    [ MixByte(c[0], c[1], c[2], c[3]), MixByte(c[1], c[2], c[3], c[0]),
      MixByte(c[2], c[3], c[0], c[1]), MixByte(c[3], c[0], c[1], c[2]) ]
  }

  function InvMixColumn4(c: Column): Column {
    hide InvMixByte;
    [ InvMixByte(c[0], c[1], c[2], c[3]), InvMixByte(c[1], c[2], c[3], c[0]),
      InvMixByte(c[2], c[3], c[0], c[1]), InvMixByte(c[3], c[0], c[1], c[2]) ]
  }

  function MixColumns(s: Block): Block {
    hide MixColumn4;
    MixColumn4(s[..4]) + MixColumn4(s[4..8]) + MixColumn4(s[8..12]) + MixColumn4(s[12..])
  }

  function InvMixColumns(s: Block): Block {
    hide InvMixColumn4;
    InvMixColumn4(s[..4]) + InvMixColumn4(s[4..8]) + InvMixColumn4(s[8..12]) + InvMixColumn4(s[12..])
  }

  function XorBlocks(a: Block, b: Block): Block {
    seq(16, i requires 0 <= i < 16 => XorByte(a[i], b[i]))
  }

  /** The state after r full rounds. */
  ghost function Rounds(w: KeySchedule, input: Block, r: nat): Block
    requires r <= 9
  {
    if r == 0 then XorBlocks(input, w[0])
    else XorBlocks(MixColumns(ShiftRows(SubBytes(Rounds(w, input, r - 1)))), w[r])
  }

  ghost function Cipher(w: KeySchedule, input: Block): Block {
    XorBlocks(ShiftRows(SubBytes(Rounds(w, input, 9))), w[10])
  }

  /** The state of the inverse cipher entering its step for round r. */
  ghost function InvRounds(w: KeySchedule, input: Block, r: nat): Block
    requires 1 <= r <= 10
    decreases 10 - r
  {
    if r == 10 then XorBlocks(input, w[10])
    else InvMixColumns(XorBlocks(InvSubBytes(InvShiftRows(InvRounds(w, input, r + 1))), w[r]))
  }

  ghost function InvCipher(w: KeySchedule, input: Block): Block {
    XorBlocks(InvSubBytes(InvShiftRows(InvRounds(w, input, 1))), w[0])
  }

  // ---------- every transformation is undone by its inverse ----------

  lemma XorBlocksCancel(a: Block, k: Block)
    ensures XorBlocks(XorBlocks(a, k), k) == a
  {
    forall i | 0 <= i < 16 ensures XorBlocks(XorBlocks(a, k), k)[i] == a[i] {
      XorCancel(a[i], k[i]);
    }
  }

  lemma SubBytesInverts(s: Block)
    ensures InvSubBytes(SubBytes(s)) == s && SubBytes(InvSubBytes(s)) == s
  {
    hide SubByte, InvSubByte;
    forall i | 0 <= i < 16 ensures InvSubBytes(SubBytes(s))[i] == s[i] && SubBytes(InvSubBytes(s))[i] == s[i] {
      SubByteInverts(s[i]);
    }
  }

  lemma ShiftRowsInverts(s: Block)
    ensures InvShiftRows(ShiftRows(s)) == s && ShiftRows(InvShiftRows(s)) == s
  {
  }

  lemma MixColumn4Inverts(c: Column)
    ensures InvMixColumn4(MixColumn4(c)) == c
  {
    hide MixByte, InvMixByte;
    InvMixOfMix(c[0], c[1], c[2], c[3]);
    InvMixOfMix(c[1], c[2], c[3], c[0]);
    InvMixOfMix(c[2], c[3], c[0], c[1]);
    InvMixOfMix(c[3], c[0], c[1], c[2]);
  }

  lemma InvMixColumn4Inverts(c: Column)
    ensures MixColumn4(InvMixColumn4(c)) == c
  {
    hide MixByte, InvMixByte;
    MixOfInvMix(c[0], c[1], c[2], c[3]);
    MixOfInvMix(c[1], c[2], c[3], c[0]);
    MixOfInvMix(c[2], c[3], c[0], c[1]);
    MixOfInvMix(c[3], c[0], c[1], c[2]);
  }

  lemma InvMixColumnsInverts(s: Block)
    ensures MixColumns(InvMixColumns(s)) == s
  {
    hide MixColumn4, InvMixColumn4;
    var a, b, c, d := InvMixColumn4(s[..4]), InvMixColumn4(s[4..8]), InvMixColumn4(s[8..12]), InvMixColumn4(s[12..]);
    var m := InvMixColumns(s);
    assert m[..4] == a && m[4..8] == b && m[8..12] == c && m[12..] == d;
    InvMixColumn4Inverts(s[..4]);
    InvMixColumn4Inverts(s[4..8]);
    InvMixColumn4Inverts(s[8..12]);
    InvMixColumn4Inverts(s[12..]);
  }

  lemma MixColumnsInverts(s: Block)
    ensures InvMixColumns(MixColumns(s)) == s
  {
    hide MixColumn4, InvMixColumn4;
    var a, b, c, d := MixColumn4(s[..4]), MixColumn4(s[4..8]), MixColumn4(s[8..12]), MixColumn4(s[12..]);
    var m := MixColumns(s);
    assert m[..4] == a && m[4..8] == b && m[8..12] == c && m[12..] == d;
    MixColumn4Inverts(s[..4]);
    MixColumn4Inverts(s[4..8]);
    MixColumn4Inverts(s[8..12]);
    MixColumn4Inverts(s[12..]);
  }

  /** Coming back to round r, the inverse cipher holds what the cipher had after
      the substitution and shift of that round. */
  ghost predicate Undone(w: KeySchedule, b: Block, r: nat)
    requires 1 <= r <= 10
  {
    hide *;
    InvRounds(w, Cipher(w, b), r) == ShiftRows(SubBytes(Rounds(w, b, r - 1)))
  }

  lemma {:induction false} InvRoundsUndo(w: KeySchedule, b: Block, r: nat)
    requires 1 <= r <= 10
    ensures Undone(w, b, r)
    decreases 10 - r
  {
    hide SubBytes, ShiftRows, MixColumns, InvSubBytes, InvShiftRows, InvMixColumns, XorBlocks;
    if r == 10 {
      XorBlocksCancel(ShiftRows(SubBytes(Rounds(w, b, 9))), w[10]);
    } else {
      InvRoundsUndo(w, b, r + 1);
      var before := ShiftRows(SubBytes(Rounds(w, b, r - 1)));
      ShiftRowsInverts(SubBytes(Rounds(w, b, r)));
      SubBytesInverts(Rounds(w, b, r));
      XorBlocksCancel(MixColumns(before), w[r]);
      MixColumnsInverts(before);
    }
  }

  /** Decryption recovers every block under every key schedule. */
  lemma CipherInverts(w: KeySchedule, b: Block)
    ensures InvCipher(w, Cipher(w, b)) == b
  {
    hide SubBytes, ShiftRows, MixColumns, InvSubBytes, InvShiftRows, InvMixColumns, XorBlocks, Cipher;
    InvRoundsUndo(w, b, 1);
    ShiftRowsInverts(SubBytes(Rounds(w, b, 0)));
    SubBytesInverts(Rounds(w, b, 0));
    XorBlocksCancel(b, w[0]);
  }

  /** Going forward again, the cipher meets the inverse cipher's state at round r. */
  ghost predicate Redone(w: KeySchedule, b: Block, r: nat)
    requires 1 <= r <= 10
  {
    hide *;
    ShiftRows(SubBytes(Rounds(w, InvCipher(w, b), r - 1))) == InvRounds(w, b, r)
  }

  lemma {:induction false} RoundsRedo(w: KeySchedule, b: Block, r: nat)
    requires 1 <= r <= 10
    ensures Redone(w, b, r)
    decreases r
  {
    hide SubBytes, ShiftRows, MixColumns, InvSubBytes, InvShiftRows, InvMixColumns, XorBlocks;
    var back := InvSubBytes(InvShiftRows(InvRounds(w, b, r)));
    SubBytesInverts(InvShiftRows(InvRounds(w, b, r)));
    ShiftRowsInverts(InvRounds(w, b, r));
    XorBlocksCancel(back, w[r - 1]);
    if r > 1 {
      RoundsRedo(w, b, r - 1);
      InvMixColumnsInverts(XorBlocks(back, w[r - 1]));
    }
  }

  /** Every block is the cipher of what it decrypts to. */
  lemma InvCipherInverts(w: KeySchedule, b: Block)
    ensures Cipher(w, InvCipher(w, b)) == b
  {
    hide SubBytes, ShiftRows, MixColumns, InvSubBytes, InvShiftRows, InvMixColumns, XorBlocks, InvCipher;
    RoundsRedo(w, b, 10);
    XorBlocksCancel(b, w[10]);
  }

  // ---------- `encrypt_block` ----------

  function Xor5(a: byte, b: byte, c: byte, d: byte, e: byte): byte {
    XorByte(XorByte(XorByte(XorByte(a, b), c), d), e)
  }

  lemma SmallProducts(a: byte)
    ensures Mul(a, 1) == a && Mul(a, 2) == XTime(a) && Mul(a, 3) == XorByte(a, XTime(a))
  {
    var x := XTime(a);
    MulByOne(a);
    MulByOne(x);
    MulUnfolds(a, 2, x, x);
    MulUnfolds(a, 3, x, x);
  }

  /** The four orders in which the payload adds the terms of a mixed column. */
  lemma TermOrder(x: byte, y: byte, b: byte, c: byte, d: byte)
    ensures Sum4(x, XorByte(b, y), c, d) == Xor5(x, y, b, c, d)
    ensures Sum4(x, XorByte(b, y), c, d) == Xor5(d, x, y, b, c)
    ensures Sum4(x, XorByte(b, y), c, d) == Xor5(c, d, x, y, b)
    ensures Sum4(x, XorByte(b, y), c, d) == Xor5(y, b, c, d, x)
  {
    XorBits();
    var s := Sum4(x, XorByte(b, y), c, d);
    SameBits(s, Xor5(x, y, b, c, d));
    SameBits(s, Xor5(d, x, y, b, c));
    SameBits(s, Xor5(c, d, x, y, b));
    SameBits(s, Xor5(y, b, c, d, x));
  }

  lemma MixedTerms(a: byte, b: byte, c: byte, d: byte)
    ensures MixByte(a, b, c, d) == Xor5(XTime(a), XTime(b), b, c, d)
    ensures MixByte(a, b, c, d) == Xor5(d, XTime(a), XTime(b), b, c)
    ensures MixByte(a, b, c, d) == Xor5(c, d, XTime(a), XTime(b), b)
    ensures MixByte(a, b, c, d) == Xor5(XTime(b), b, c, d, XTime(a))
  {
    SmallProducts(a);
    SmallProducts(b);
    SmallProducts(c);
    SmallProducts(d);
    hide Sum4, Mul, XTime, Xor5;
    TermOrder(XTime(a), XTime(b), b, c, d);
  }

  ghost predicate IsSBox(sbox: seq<byte>) {
    |sbox| == 256 && forall v: byte :: sbox[v] == SubByte(v)
  }

  method Substitute(sbox: seq<byte>, s: Block) returns (t: Block)
    requires IsSBox(sbox)
    ensures t == SubBytes(s)
  {
    hide SubByte;
    t := seq(16, i requires 0 <= i < 16 => sbox[s[i]]);
  }

  /** SHIFT[i] = ((i // 4 + i % 4) % 4) * 4 + i % 4. */
  function Shift(i: nat): nat { (i / 4 + i % 4) % 4 * 4 + i % 4 }

  lemma ShiftTable(i: nat)
    requires i < 16
    ensures Shift(i) == [0, 5, 10, 15, 4, 9, 14, 3, 8, 13, 2, 7, 12, 1, 6, 11][i]
  {
    assert i == 0 || i == 1 || i == 2 || i == 3 || i == 4 || i == 5 || i == 6 || i == 7
        || i == 8 || i == 9 || i == 10 || i == 11 || i == 12 || i == 13 || i == 14 || i == 15;
  }

  method Permute(s: Block) returns (t: Block)
    ensures t == ShiftRows(s)
  {
    forall i: nat | i < 16 ensures Shift(i) < 16 && s[Shift(i)] == ShiftRows(s)[i] {
      ShiftTable(i);
      hide Shift;
    }
    hide Shift, ShiftRows;
    t := seq(16, i requires 0 <= i < 16 => s[Shift(i)]);
  }

  lemma CodedColumn(a0: byte, a1: byte, a2: byte, a3: byte)
    ensures MixColumn4([a0, a1, a2, a3]) ==
      [ Xor5(XTime(a0), XTime(a1), a1, a2, a3), Xor5(a0, XTime(a1), XTime(a2), a2, a3),
        Xor5(a0, a1, XTime(a2), XTime(a3), a3), Xor5(XTime(a0), a0, a1, a2, XTime(a3)) ]
  {
    hide XTime, MixByte, Xor5;
    MixedTerms(a0, a1, a2, a3);
    MixedTerms(a1, a2, a3, a0);
    MixedTerms(a2, a3, a0, a1);
    MixedTerms(a3, a0, a1, a2);
  }

  lemma AppendColumn(s: Block, c: nat, column: Column)
    requires c in {0, 4, 8, 12} && column == MixColumn4(s[c..c + 4])
    ensures MixColumns(s)[..c] + column == MixColumns(s)[..c + 4]
  {
    hide MixColumn4;
    var x: seq<byte> := MixColumn4(s[..4]);
    var y: seq<byte> := MixColumn4(s[4..8]);
    var z: seq<byte> := MixColumn4(s[8..12]);
    var w: seq<byte> := MixColumn4(s[12..]);
    var m := MixColumns(s);
    assert m == x + y + z + w;
    hide MixColumns;
    assert m[..4] == x && m[..8] == x + y && m[..12] == x + y + z && m[..16] == x + y + z + w;
    assert s[0..4] == s[..4] && s[12..16] == s[12..];
  }

  method Mix(s: Block) returns (mixed: Block)
    ensures mixed == MixColumns(s)
  {
    hide XTime, MixColumn4, MixColumns, Xor5;
    var m: seq<byte> := [];
    var c := 0;
    while c < 16
      invariant c in {0, 4, 8, 12, 16} && m == MixColumns(s)[..c]
    {
      var a0, a1, a2, a3 := s[c], s[c + 1], s[c + 2], s[c + 3];
      var column := [
        Xor5(XTime(a0), XTime(a1), a1, a2, a3),
        Xor5(a0, XTime(a1), XTime(a2), a2, a3),
        Xor5(a0, a1, XTime(a2), XTime(a3), a3),
        Xor5(XTime(a0), a0, a1, a2, XTime(a3))];
      CodedColumn(a0, a1, a2, a3);
      assert s[c..c + 4] == [a0, a1, a2, a3];
      AppendColumn(s, c, column);
      m := m + column;
      c := c + 4;
    }
    mixed := m;
  }

  /** `encrypt_block` computes the Cipher of FIPS 197. */
  method EncryptBlock(sbox: seq<byte>, roundKeys: KeySchedule, block: Block) returns (out: Block)
    requires IsSBox(sbox)
    ensures out == Cipher(roundKeys, block)
  {
    hide SubBytes, ShiftRows, MixColumns, XorBlocks, IsSBox;
    var state := XorBlocks(block, roundKeys[0]);
    for rnd := 1 to 11
      invariant rnd <= 10 ==> state == Rounds(roundKeys, block, rnd - 1)
      invariant rnd == 11 ==> state == Cipher(roundKeys, block)
    {
      state := Substitute(sbox, state);
      state := Permute(state);
      if rnd != 10 { state := Mix(state); }
      state := XorBlocks(state, roundKeys[rnd]);
    }
    out := state;
  }

  // ---------- key expansion ----------

  /** x^i in the field: the round constants (FIPS 197 section 5.2). */
  function Doublings(i: nat): byte {
    if i == 0 then 1 else XTime(Doublings(i - 1))
  }

  ghost function SubWord(w: Column): Column {
    hide SubByte;
    [ SubByte(w[0]), SubByte(w[1]), SubByte(w[2]), SubByte(w[3]) ]
  }

  function RotWord(w: Column): Column { [ w[1], w[2], w[3], w[0] ] }

  function XorWords(a: Column, b: Column): Column {
    [ XorByte(a[0], b[0]), XorByte(a[1], b[1]), XorByte(a[2], b[2]), XorByte(a[3], b[3]) ]
  }

  /** w[i] of the key expansion with Nk = 4. */
  ghost function Word(key: Block, i: nat): Column {
    hide XorWords, SubWord, RotWord, Doublings;
    if i < 4 then key[4 * i..4 * i + 4]
    else
      var temp := Word(key, i - 1);
      XorWords(Word(key, i - 4),
               if i % 4 == 0 then XorWords(SubWord(RotWord(temp)), [Doublings(i / 4 - 1), 0, 0, 0]) else temp)
  }

  function Join(a: Column, b: Column, c: Column, d: Column): Block {
    var bytes: seq<byte> := a;
    bytes + b + c + d
  }

  ghost function RoundKey(key: Block, r: nat): Block {
    hide Word;
    Join(Word(key, 4 * r), Word(key, 4 * r + 1), Word(key, 4 * r + 2), Word(key, 4 * r + 3))
  }

  /** The key expansion of FIPS 197 section 5.2: eleven round keys of four words. */
  ghost function Schedule(key: Block): KeySchedule {
    hide RoundKey;
    seq(11, r requires 0 <= r < 11 => RoundKey(key, r))
  }

  /** Round key r is words 4r to 4r + 3, in order. */
  lemma ScheduleWords(key: Block, r: nat, j: nat)
    requires r < 11 && j < 4
    ensures Schedule(key)[r][4 * j..4 * j + 4] == Word(key, 4 * r + j)
  {
    hide Word;
    assert RoundKey(key, r)[4 * j..4 * j + 4] == Word(key, 4 * r + j);
  }

  /** The first round key is the key. */
  lemma FirstRoundKey(key: Block)
    ensures Schedule(key)[0] == key
  {
    hide Schedule, Word;
    var w := Schedule(key)[0];
    OwnWords(key);
    ScheduleWords(key, 0, 0);
    ScheduleWords(key, 0, 1);
    ScheduleWords(key, 0, 2);
    ScheduleWords(key, 0, 3);
    forall i | 0 <= i < 16 ensures w[i] == key[i] {
      var j := i / 4;
      assert j == 0 || j == 1 || j == 2 || j == 3;
      assert w[4 * j..4 * j + 4] == key[4 * j..4 * j + 4];
      assert w[4 * j..4 * j + 4][i - 4 * j] == w[i] && key[4 * j..4 * j + 4][i - 4 * j] == key[i];
    }
  }

  lemma OwnWords(key: Block)
    ensures Word(key, 0) == key[0..4] && Word(key, 1) == key[4..8] && Word(key, 2) == key[8..12] && Word(key, 3) == key[12..16]
  {
  }

  /** Adding a round key differs, byte by byte and bit by bit, exactly where the key has
      a one. */
  lemma XorBlocksBits(a: Block, b: Block, i: nat, k: nat)
    requires i < 16
    ensures Bit(XorBlocks(a, b)[i], k) <==> Bit(a[i], k) != Bit(b[i], k)
  {
    XorBit(a[i], b[i], k);
  }

  lemma XorWordsBits(a: Column, b: Column, i: nat, k: nat)
    requires i < 4
    ensures Bit(XorWords(a, b)[i], k) <==> Bit(a[i], k) != Bit(b[i], k)
  {
    hide Xor;
    XorBit(a[i], b[i], k);
    assert XorWords(a, b)[i] == XorByte(a[i], b[i]);
  }

  const RCON: seq<byte> := [0x01, 0x02, 0x04, 0x08, 0x10, 0x20, 0x40, 0x80, 0x1B, 0x36]

  lemma NextDoubling(i: nat, v: byte, w: byte)
    requires i > 0 && Doublings(i - 1) == v && ((v < 128 && w == 2 * v) || (v == 0x80 && w == 0x1B))
    ensures Doublings(i) == w
  {
    hide Xor;
    if v == 0x80 {
      XTimeHigh(v);
      XorZero(0x1B);
    }
  }

  /** The tabulated round constants are the powers of x in the field. */
  lemma {:induction false} RoundConstants(i: nat)
    requires i < 10
    ensures RCON[i] == Doublings(i)
  {
    if i > 0 {
      RoundConstants(i - 1);
      assert i == 1 || i == 2 || i == 3 || i == 4 || i == 5 || i == 6 || i == 7 || i == 8 || i == 9;
      NextDoubling(i, RCON[i - 1], RCON[i]);
    }
  }

  /** The rotated, substituted word with its round constant added. */
  method CoreWord(sbox: seq<byte>, i: nat, previous: Column) returns (temp: Column)
    requires IsSBox(sbox) && 4 <= i < 44 && i % 4 == 0
    ensures temp == XorWords(SubWord(RotWord(previous)), [Doublings(i / 4 - 1), 0, 0, 0])
  {
    hide SubByte, Doublings, Xor;
    var rotated: seq<byte> := previous[1..] + previous[..1];
    assert rotated == RotWord(previous);
    temp := [sbox[rotated[0]], sbox[rotated[1]], sbox[rotated[2]], sbox[rotated[3]]];
    RoundConstants(i / 4 - 1);
    XorZero(temp[1]);
    XorZero(temp[2]);
    XorZero(temp[3]);
    temp := temp[0 := XorByte(temp[0], RCON[i / 4 - 1])];
  }

  /** One turn of the word loop. */
  method NextWord(sbox: seq<byte>, ghost key: Block, i: nat, previous: Column, back: Column) returns (w: Column)
    requires IsSBox(sbox) && 4 <= i < 44 && previous == Word(key, i - 1) && back == Word(key, i - 4)
    ensures w == Word(key, i)
  {
    hide IsSBox, XorWords, SubWord, RotWord, Doublings;
    var temp := previous;
    if i % 4 == 0 { temp := CoreWord(sbox, i, temp); }
    w := XorWords(back, temp);
  }

  /** The first word the expansion adds. */
  lemma ExpandOnce(key: Block, first: Column, last: Column, constant: Column)
    requires first == key[0..4] && last == key[12..16] && constant == [Doublings(0), 0, 0, 0]
    ensures Word(key, 4) == XorWords(first, XorWords(SubWord(RotWord(last)), constant))
  {
    hide XorWords, SubWord, RotWord, Doublings;
    assert Word(key, 0) == first && Word(key, 3) == last;
  }

  /** The word loop of `expand_key`. */
  method ExpandWords(sbox: seq<byte>, key: Block) returns (words: seq<Column>)
    requires IsSBox(sbox)
    ensures |words| == 44 && forall j: nat | j < 44 :: words[j] == Word(key, j)
  {
    hide IsSBox, Word;
    words := [key[0..4], key[4..8], key[8..12], key[12..16]];
    FirstWords(key, words);
    for i := 4 to 44
      invariant |words| == i
      invariant forall j: nat | j < i :: words[j] == Word(key, j)
    {
      var w := NextWord(sbox, key, i, words[i - 1], words[i - 4]);
      words := words + [w];
    }
  }

  lemma FirstWords(key: Block, words: seq<Column>)
    requires words == [key[0..4], key[4..8], key[8..12], key[12..16]]
    ensures forall j: nat | j < 4 :: words[j] == Word(key, j)
  {
  }

  /** `expand_key` computes the key expansion of FIPS 197. */
  method ExpandKey(sbox: seq<byte>, key: Block) returns (roundKeys: KeySchedule)
    requires IsSBox(sbox)
    ensures roundKeys == Schedule(key)
  {
    hide Word, Join;
    var words := ExpandWords(sbox, key);
    var keys: seq<Block> := [];
    for r := 0 to 11
      invariant |keys| == r && forall q: nat | q < r :: keys[q] == RoundKey(key, q)
    {
      keys := keys + [Join(words[4 * r], words[4 * r + 1], words[4 * r + 2], words[4 * r + 3])];
    }
    roundKeys := keys;
  }
}
