/** The cipher worked out: the S-box of FIPS 197 (figure 7) and its example vectors (appendix C), for the three key
    sizes. */
module AesVectors {
  import opened AesSpec

  /** Rows 0 and 1 of figure 7. */
  ghost predicate Rows0(sbox: SBox) {
    && sbox[0x00] == 0x63 && sbox[0x01] == 0x7C && sbox[0x02] == 0x77 && sbox[0x03] == 0x7B
    && sbox[0x04] == 0xF2 && sbox[0x05] == 0x6B && sbox[0x06] == 0x6F && sbox[0x07] == 0xC5
    && sbox[0x08] == 0x30 && sbox[0x09] == 0x01 && sbox[0x0A] == 0x67 && sbox[0x0B] == 0x2B
    && sbox[0x0C] == 0xFE && sbox[0x0D] == 0xD7 && sbox[0x0E] == 0xAB && sbox[0x0F] == 0x76
    && sbox[0x10] == 0xCA && sbox[0x11] == 0x82 && sbox[0x12] == 0xC9 && sbox[0x13] == 0x7D
    && sbox[0x14] == 0xFA && sbox[0x15] == 0x59 && sbox[0x16] == 0x47 && sbox[0x17] == 0xF0
    && sbox[0x18] == 0xAD && sbox[0x19] == 0xD4 && sbox[0x1A] == 0xA2 && sbox[0x1B] == 0xAF
    && sbox[0x1C] == 0x9C && sbox[0x1D] == 0xA4 && sbox[0x1E] == 0x72 && sbox[0x1F] == 0xC0
  }

  /** Rows 2 and 3 of figure 7. */
  ghost predicate Rows1(sbox: SBox) {
    && sbox[0x20] == 0xB7 && sbox[0x21] == 0xFD && sbox[0x22] == 0x93 && sbox[0x23] == 0x26
    && sbox[0x24] == 0x36 && sbox[0x25] == 0x3F && sbox[0x26] == 0xF7 && sbox[0x27] == 0xCC
    && sbox[0x28] == 0x34 && sbox[0x29] == 0xA5 && sbox[0x2A] == 0xE5 && sbox[0x2B] == 0xF1
    && sbox[0x2C] == 0x71 && sbox[0x2D] == 0xD8 && sbox[0x2E] == 0x31 && sbox[0x2F] == 0x15
    && sbox[0x30] == 0x04 && sbox[0x31] == 0xC7 && sbox[0x32] == 0x23 && sbox[0x33] == 0xC3
    && sbox[0x34] == 0x18 && sbox[0x35] == 0x96 && sbox[0x36] == 0x05 && sbox[0x37] == 0x9A
    && sbox[0x38] == 0x07 && sbox[0x39] == 0x12 && sbox[0x3A] == 0x80 && sbox[0x3B] == 0xE2
    && sbox[0x3C] == 0xEB && sbox[0x3D] == 0x27 && sbox[0x3E] == 0xB2 && sbox[0x3F] == 0x75
  }

  /** Rows 4 and 5 of figure 7. */
  ghost predicate Rows2(sbox: SBox) {
    && sbox[0x40] == 0x09 && sbox[0x41] == 0x83 && sbox[0x42] == 0x2C && sbox[0x43] == 0x1A
    && sbox[0x44] == 0x1B && sbox[0x45] == 0x6E && sbox[0x46] == 0x5A && sbox[0x47] == 0xA0
    && sbox[0x48] == 0x52 && sbox[0x49] == 0x3B && sbox[0x4A] == 0xD6 && sbox[0x4B] == 0xB3
    && sbox[0x4C] == 0x29 && sbox[0x4D] == 0xE3 && sbox[0x4E] == 0x2F && sbox[0x4F] == 0x84
    && sbox[0x50] == 0x53 && sbox[0x51] == 0xD1 && sbox[0x52] == 0x00 && sbox[0x53] == 0xED
    && sbox[0x54] == 0x20 && sbox[0x55] == 0xFC && sbox[0x56] == 0xB1 && sbox[0x57] == 0x5B
    && sbox[0x58] == 0x6A && sbox[0x59] == 0xCB && sbox[0x5A] == 0xBE && sbox[0x5B] == 0x39
    && sbox[0x5C] == 0x4A && sbox[0x5D] == 0x4C && sbox[0x5E] == 0x58 && sbox[0x5F] == 0xCF
  }

  /** Rows 6 and 7 of figure 7. */
  ghost predicate Rows3(sbox: SBox) {
    && sbox[0x60] == 0xD0 && sbox[0x61] == 0xEF && sbox[0x62] == 0xAA && sbox[0x63] == 0xFB
    && sbox[0x64] == 0x43 && sbox[0x65] == 0x4D && sbox[0x66] == 0x33 && sbox[0x67] == 0x85
    && sbox[0x68] == 0x45 && sbox[0x69] == 0xF9 && sbox[0x6A] == 0x02 && sbox[0x6B] == 0x7F
    && sbox[0x6C] == 0x50 && sbox[0x6D] == 0x3C && sbox[0x6E] == 0x9F && sbox[0x6F] == 0xA8
    && sbox[0x70] == 0x51 && sbox[0x71] == 0xA3 && sbox[0x72] == 0x40 && sbox[0x73] == 0x8F
    && sbox[0x74] == 0x92 && sbox[0x75] == 0x9D && sbox[0x76] == 0x38 && sbox[0x77] == 0xF5
    && sbox[0x78] == 0xBC && sbox[0x79] == 0xB6 && sbox[0x7A] == 0xDA && sbox[0x7B] == 0x21
    && sbox[0x7C] == 0x10 && sbox[0x7D] == 0xFF && sbox[0x7E] == 0xF3 && sbox[0x7F] == 0xD2
  }

  /** Rows 8 and 9 of figure 7. */
  ghost predicate Rows4(sbox: SBox) {
    && sbox[0x80] == 0xCD && sbox[0x81] == 0x0C && sbox[0x82] == 0x13 && sbox[0x83] == 0xEC
    && sbox[0x84] == 0x5F && sbox[0x85] == 0x97 && sbox[0x86] == 0x44 && sbox[0x87] == 0x17
    && sbox[0x88] == 0xC4 && sbox[0x89] == 0xA7 && sbox[0x8A] == 0x7E && sbox[0x8B] == 0x3D
    && sbox[0x8C] == 0x64 && sbox[0x8D] == 0x5D && sbox[0x8E] == 0x19 && sbox[0x8F] == 0x73
    && sbox[0x90] == 0x60 && sbox[0x91] == 0x81 && sbox[0x92] == 0x4F && sbox[0x93] == 0xDC
    && sbox[0x94] == 0x22 && sbox[0x95] == 0x2A && sbox[0x96] == 0x90 && sbox[0x97] == 0x88
    && sbox[0x98] == 0x46 && sbox[0x99] == 0xEE && sbox[0x9A] == 0xB8 && sbox[0x9B] == 0x14
    && sbox[0x9C] == 0xDE && sbox[0x9D] == 0x5E && sbox[0x9E] == 0x0B && sbox[0x9F] == 0xDB
  }

  /** Rows a and b of figure 7. */
  ghost predicate Rows5(sbox: SBox) {
    && sbox[0xA0] == 0xE0 && sbox[0xA1] == 0x32 && sbox[0xA2] == 0x3A && sbox[0xA3] == 0x0A
    && sbox[0xA4] == 0x49 && sbox[0xA5] == 0x06 && sbox[0xA6] == 0x24 && sbox[0xA7] == 0x5C
    && sbox[0xA8] == 0xC2 && sbox[0xA9] == 0xD3 && sbox[0xAA] == 0xAC && sbox[0xAB] == 0x62
    && sbox[0xAC] == 0x91 && sbox[0xAD] == 0x95 && sbox[0xAE] == 0xE4 && sbox[0xAF] == 0x79
    && sbox[0xB0] == 0xE7 && sbox[0xB1] == 0xC8 && sbox[0xB2] == 0x37 && sbox[0xB3] == 0x6D
    && sbox[0xB4] == 0x8D && sbox[0xB5] == 0xD5 && sbox[0xB6] == 0x4E && sbox[0xB7] == 0xA9
    && sbox[0xB8] == 0x6C && sbox[0xB9] == 0x56 && sbox[0xBA] == 0xF4 && sbox[0xBB] == 0xEA
    && sbox[0xBC] == 0x65 && sbox[0xBD] == 0x7A && sbox[0xBE] == 0xAE && sbox[0xBF] == 0x08
  }

  /** Rows c and d of figure 7. */
  ghost predicate Rows6(sbox: SBox) {
    && sbox[0xC0] == 0xBA && sbox[0xC1] == 0x78 && sbox[0xC2] == 0x25 && sbox[0xC3] == 0x2E
    && sbox[0xC4] == 0x1C && sbox[0xC5] == 0xA6 && sbox[0xC6] == 0xB4 && sbox[0xC7] == 0xC6
    && sbox[0xC8] == 0xE8 && sbox[0xC9] == 0xDD && sbox[0xCA] == 0x74 && sbox[0xCB] == 0x1F
    && sbox[0xCC] == 0x4B && sbox[0xCD] == 0xBD && sbox[0xCE] == 0x8B && sbox[0xCF] == 0x8A
    && sbox[0xD0] == 0x70 && sbox[0xD1] == 0x3E && sbox[0xD2] == 0xB5 && sbox[0xD3] == 0x66
    && sbox[0xD4] == 0x48 && sbox[0xD5] == 0x03 && sbox[0xD6] == 0xF6 && sbox[0xD7] == 0x0E
    && sbox[0xD8] == 0x61 && sbox[0xD9] == 0x35 && sbox[0xDA] == 0x57 && sbox[0xDB] == 0xB9
    && sbox[0xDC] == 0x86 && sbox[0xDD] == 0xC1 && sbox[0xDE] == 0x1D && sbox[0xDF] == 0x9E
  }

  /** Rows e and f of figure 7. */
  ghost predicate Rows7(sbox: SBox) {
    && sbox[0xE0] == 0xE1 && sbox[0xE1] == 0xF8 && sbox[0xE2] == 0x98 && sbox[0xE3] == 0x11
    && sbox[0xE4] == 0x69 && sbox[0xE5] == 0xD9 && sbox[0xE6] == 0x8E && sbox[0xE7] == 0x94
    && sbox[0xE8] == 0x9B && sbox[0xE9] == 0x1E && sbox[0xEA] == 0x87 && sbox[0xEB] == 0xE9
    && sbox[0xEC] == 0xCE && sbox[0xED] == 0x55 && sbox[0xEE] == 0x28 && sbox[0xEF] == 0xDF
    && sbox[0xF0] == 0x8C && sbox[0xF1] == 0xA1 && sbox[0xF2] == 0x89 && sbox[0xF3] == 0x0D
    && sbox[0xF4] == 0xBF && sbox[0xF5] == 0xE6 && sbox[0xF6] == 0x42 && sbox[0xF7] == 0x68
    && sbox[0xF8] == 0x41 && sbox[0xF9] == 0x99 && sbox[0xFA] == 0x2D && sbox[0xFB] == 0x0F
    && sbox[0xFC] == 0xB0 && sbox[0xFD] == 0x54 && sbox[0xFE] == 0xBB && sbox[0xFF] == 0x16
  }

  ghost predicate Fips(sbox: SBox) {
    && Rows0(sbox) && Rows1(sbox) && Rows2(sbox) && Rows3(sbox)
    && Rows4(sbox) && Rows5(sbox) && Rows6(sbox) && Rows7(sbox)
  }

  /** Four bytes as they are written. */
  function Word(w: bv32): Column {
    Column((w >> 24) as bv8, ((w >> 16) & 0xFF) as bv8, ((w >> 8) & 0xFF) as bv8, (w & 0xFF) as bv8)
  }

  /** Sixteen bytes as they are written, four to a column. */
  function Hex(w0: bv32, w1: bv32, w2: bv32, w3: bv32): Block {
    Block(Word(w0), Word(w1), Word(w2), Word(w3))
  }

  const INPUT := Hex(0x00112233, 0x44556677, 0x8899AABB, 0xCCDDEEFF)

  // ---------- The recurrences ----------

  lemma Rcons()
    ensures Rcon(1) == 0x01 && Rcon(2) == 0x02 && Rcon(3) == 0x04 && Rcon(4) == 0x08 && Rcon(5) == 0x10
    ensures Rcon(6) == 0x20 && Rcon(7) == 0x40 && Rcon(8) == 0x80 && Rcon(9) == 0x1B && Rcon(10) == 0x36
  {
    assert Rcon(1) == 0x01 && Rcon(2) == 0x02 && Rcon(3) == 0x04 && Rcon(4) == 0x08;
    assert Rcon(5) == 0x10 && Rcon(6) == 0x20 && Rcon(7) == 0x40;
    assert Rcon(8) == 0x80 && Rcon(9) == 0x1B;
  }

  /** The words of the schedule, as many at a time as the key has. */
  ghost predicate Line(sbox: SBox, key: seq<Column>, k: nat, p: seq<Column>)
    requires |key| in {4, 6, 8}
  {
    |p| == |key| && forall j: nat :: j < |p| ==> W(sbox, key, |key| * k + j) == p[j]
  }

  /** Line n follows line p. */
  ghost predicate Follows(sbox: SBox, p: seq<Column>, n: seq<Column>, rcon: bv8) {
    && |p| == |n| && |p| in {4, 6, 8}
    && n[0] == Xor(p[0], Xor(SubWord(sbox, RotWord(p[|p| - 1])), Column(rcon, 0, 0, 0)))
    && n[1] == Xor(p[1], n[0]) && n[2] == Xor(p[2], n[1]) && n[3] == Xor(p[3], n[2])
    && (|p| > 4 ==> n[4] == Xor(p[4], if |p| == 8 then SubWord(sbox, n[3]) else n[3]) && n[5] == Xor(p[5], n[4]))
    && (|p| > 6 ==> n[6] == Xor(p[6], n[5]) && n[7] == Xor(p[7], n[6]))
  }

  lemma PlaceAfter(nk: nat, k: nat, j: nat)
    requires nk in {4, 6, 8} && j < nk
    ensures var i := nk * (k + 1) + j; i == nk * k + j + nk && i % nk == j && i / nk == k + 1
  {
    if nk == 4 {
    } else if nk == 6 {
    }
  }

  /** The word of the schedule that has place j of a line. */
  lemma WordAt(sbox: SBox, key: seq<Column>, i: nat, k: nat, j: nat)
    requires |key| in {4, 6, 8} && |key| <= i && i % |key| == j && i / |key| == k
    ensures W(sbox, key, i)
      == Xor(W(sbox, key, i - |key|),
             if j == 0 then Xor(SubWord(sbox, RotWord(W(sbox, key, i - 1))), Column(Rcon(k), 0, 0, 0))
             else if |key| == 8 && j == 4 then SubWord(sbox, W(sbox, key, i - 1))
             else W(sbox, key, i - 1))
  {
    hide Xor, SubWord, RotWord, Rcon;
  }

  lemma FirstLine(sbox: SBox, key: seq<Column>)
    requires |key| in {4, 6, 8}
    ensures Line(sbox, key, 0, key)
  {
    hide Xor, SubWord, RotWord, Rcon;
    assert |key| * 0 == 0;
  }

  lemma NextLine(sbox: SBox, key: seq<Column>, k: nat, p: seq<Column>, rcon: bv8, n: seq<Column>)
    requires |key| in {4, 6, 8} && Line(sbox, key, k, p) && Rcon(k + 1) == rcon && Follows(sbox, p, n, rcon)
    ensures Line(sbox, key, k + 1, n)
  {
    hide W, Rcon, Follows;
    assert |n| == |key| by { assert Follows(sbox, p, n, rcon); SameLength(sbox, p, n, rcon); }
    forall j: nat | j < |key| ensures W(sbox, key, |key| * (k + 1) + j) == n[j] {
      WordOfLine(sbox, key, k, p, rcon, n, j);
    }
  }

  lemma SameLength(sbox: SBox, p: seq<Column>, n: seq<Column>, rcon: bv8)
    requires Follows(sbox, p, n, rcon)
    ensures |n| == |p|
  {
  }

  lemma {:induction false} WordOfLine(sbox: SBox, key: seq<Column>, k: nat, p: seq<Column>, rcon: bv8, n: seq<Column>,
                                      j: nat)
    requires |key| in {4, 6, 8} && Line(sbox, key, k, p) && Rcon(k + 1) == rcon && Follows(sbox, p, n, rcon)
    requires j < |key|
    ensures |n| == |key| && W(sbox, key, |key| * (k + 1) + j) == n[j]
    decreases j
  {
    hide Xor, SubWord, RotWord, Rcon, W;
    var nk := |key|;
    PlaceAfter(nk, k, j);
    WordAt(sbox, key, nk * (k + 1) + j, k + 1, j);
    if j != 0 {
      WordOfLine(sbox, key, k, p, rcon, n, j - 1);
      assert nk * (k + 1) + (j - 1) == nk * (k + 1) + j - 1;
    }
  }

  // ---------- The states ----------

  lemma FirstState(sbox: SBox, key: seq<Column>, k: Block, out: Block)
    requires |key| in {4, 6, 8} && RoundKey(sbox, key, 0) == k && AddRoundKey(INPUT, k) == out
    ensures After(sbox, key, INPUT, 0) == out
  {
    hide AddRoundKey, RoundKey;
  }

  lemma NextState(sbox: SBox, key: seq<Column>, r: nat, prev: Block, k: Block, out: Block)
    requires |key| in {4, 6, 8} && After(sbox, key, INPUT, r) == prev
    requires RoundKey(sbox, key, r + 1) == k && Round(sbox, prev, k) == out
    ensures After(sbox, key, INPUT, r + 1) == out
  {
    hide Round, RoundKey;
  }

  lemma LastState(sbox: SBox, key: seq<Column>, prev: Block, k: Block, out: Block)
    requires |key| in {4, 6, 8} && After(sbox, key, INPUT, |key| + 5) == prev
    requires RoundKey(sbox, key, |key| + 6) == k && FinalRound(sbox, prev, k) == out
    ensures Cipher(sbox, key, INPUT) == out
  {
    hide FinalRound, RoundKey, After;
  }

  lemma WordInLines(sbox: SBox, key: seq<Column>, r: nat, k: nat, p: seq<Column>, q: seq<Column>, off: nat, j: nat)
    requires |key| in {4, 6, 8} && Line(sbox, key, k, p) && off < |p| && 4 * r == |key| * k + off && j < 4
    requires off + 4 <= |p| || Line(sbox, key, k + 1, q)
    ensures off + j < |p + q| && W(sbox, key, 4 * r + j) == (p + q)[off + j]
  {
    hide W;
    var nk := |key|;
    if off + j < nk {
      assert W(sbox, key, nk * k + (off + j)) == p[off + j];
    } else {
      assert nk * (k + 1) == nk * k + nk;
      assert W(sbox, key, nk * (k + 1) + (off + j - nk)) == q[off + j - nk];
    }
  }

  /** A round key out of one or two lines. */
  lemma KeyOfLines(sbox: SBox, key: seq<Column>, r: nat, k: nat, p: seq<Column>, q: seq<Column>, off: nat)
    requires |key| in {4, 6, 8} && Line(sbox, key, k, p) && off < |p| && 4 * r == |key| * k + off
    requires off + 4 <= |p| || Line(sbox, key, k + 1, q)
    ensures var w := p + q; off + 4 <= |w| && RoundKey(sbox, key, r) == Block(w[off], w[off + 1], w[off + 2], w[off
      + 3])
  {
    hide W, Line;
    WordInLines(sbox, key, r, k, p, q, off, 0);
    WordInLines(sbox, key, r, k, p, q, off, 1);
    WordInLines(sbox, key, r, k, p, q, off, 2);
    WordInLines(sbox, key, r, k, p, q, off, 3);
  }

  // ---------- 128-bit keys ----------

  const KEY128 := [Word(0x00010203), Word(0x04050607), Word(0x08090A0B), Word(0x0C0D0E0F)]

  lemma Line1281(sbox: SBox)
    requires Fips(sbox)
    ensures Line(sbox, KEY128, 1, [Word(0xD6AA74FD), Word(0xD2AF72FA), Word(0xDAA678F1), Word(0xD6AB76FE)])
  {
    hide Line, Rcon;
    FirstLine(sbox, KEY128);
    Rcons();
    NextLine(sbox, KEY128, 0, KEY128, 0x01, [Word(0xD6AA74FD), Word(0xD2AF72FA), Word(0xDAA678F1), Word(0xD6AB76FE)]);
  }

  lemma Line1282(sbox: SBox)
    requires Fips(sbox)
    ensures Line(sbox, KEY128, 2, [Word(0xB692CF0B), Word(0x643DBDF1), Word(0xBE9BC500), Word(0x6830B3FE)])
  {
    hide Line, Rcon;
    Line1281(sbox);
    Rcons();
    NextLine(sbox, KEY128, 1, [Word(0xD6AA74FD), Word(0xD2AF72FA), Word(0xDAA678F1), Word(0xD6AB76FE)], 0x02,
      [Word(0xB692CF0B), Word(0x643DBDF1), Word(0xBE9BC500), Word(0x6830B3FE)]);
  }

  lemma Line1283(sbox: SBox)
    requires Fips(sbox)
    ensures Line(sbox, KEY128, 3, [Word(0xB6FF744E), Word(0xD2C2C9BF), Word(0x6C590CBF), Word(0x0469BF41)])
  {
    hide Line, Rcon;
    Line1282(sbox);
    Rcons();
    NextLine(sbox, KEY128, 2, [Word(0xB692CF0B), Word(0x643DBDF1), Word(0xBE9BC500), Word(0x6830B3FE)], 0x04,
      [Word(0xB6FF744E), Word(0xD2C2C9BF), Word(0x6C590CBF), Word(0x0469BF41)]);
  }

  lemma Line1284(sbox: SBox)
    requires Fips(sbox)
    ensures Line(sbox, KEY128, 4, [Word(0x47F7F7BC), Word(0x95353E03), Word(0xF96C32BC), Word(0xFD058DFD)])
  {
    hide Line, Rcon;
    Line1283(sbox);
    Rcons();
    NextLine(sbox, KEY128, 3, [Word(0xB6FF744E), Word(0xD2C2C9BF), Word(0x6C590CBF), Word(0x0469BF41)], 0x08,
      [Word(0x47F7F7BC), Word(0x95353E03), Word(0xF96C32BC), Word(0xFD058DFD)]);
  }

  lemma Line1285(sbox: SBox)
    requires Fips(sbox)
    ensures Line(sbox, KEY128, 5, [Word(0x3CAAA3E8), Word(0xA99F9DEB), Word(0x50F3AF57), Word(0xADF622AA)])
  {
    hide Line, Rcon;
    Line1284(sbox);
    Rcons();
    NextLine(sbox, KEY128, 4, [Word(0x47F7F7BC), Word(0x95353E03), Word(0xF96C32BC), Word(0xFD058DFD)], 0x10,
      [Word(0x3CAAA3E8), Word(0xA99F9DEB), Word(0x50F3AF57), Word(0xADF622AA)]);
  }

  lemma Line1286(sbox: SBox)
    requires Fips(sbox)
    ensures Line(sbox, KEY128, 6, [Word(0x5E390F7D), Word(0xF7A69296), Word(0xA7553DC1), Word(0x0AA31F6B)])
  {
    hide Line, Rcon;
    Line1285(sbox);
    Rcons();
    NextLine(sbox, KEY128, 5, [Word(0x3CAAA3E8), Word(0xA99F9DEB), Word(0x50F3AF57), Word(0xADF622AA)], 0x20,
      [Word(0x5E390F7D), Word(0xF7A69296), Word(0xA7553DC1), Word(0x0AA31F6B)]);
  }

  lemma Line1287(sbox: SBox)
    requires Fips(sbox)
    ensures Line(sbox, KEY128, 7, [Word(0x14F9701A), Word(0xE35FE28C), Word(0x440ADF4D), Word(0x4EA9C026)])
  {
    hide Line, Rcon;
    Line1286(sbox);
    Rcons();
    NextLine(sbox, KEY128, 6, [Word(0x5E390F7D), Word(0xF7A69296), Word(0xA7553DC1), Word(0x0AA31F6B)], 0x40,
      [Word(0x14F9701A), Word(0xE35FE28C), Word(0x440ADF4D), Word(0x4EA9C026)]);
  }

  lemma Line1288(sbox: SBox)
    requires Fips(sbox)
    ensures Line(sbox, KEY128, 8, [Word(0x47438735), Word(0xA41C65B9), Word(0xE016BAF4), Word(0xAEBF7AD2)])
  {
    hide Line, Rcon;
    Line1287(sbox);
    Rcons();
    NextLine(sbox, KEY128, 7, [Word(0x14F9701A), Word(0xE35FE28C), Word(0x440ADF4D), Word(0x4EA9C026)], 0x80,
      [Word(0x47438735), Word(0xA41C65B9), Word(0xE016BAF4), Word(0xAEBF7AD2)]);
  }

  lemma Line1289(sbox: SBox)
    requires Fips(sbox)
    ensures Line(sbox, KEY128, 9, [Word(0x549932D1), Word(0xF0855768), Word(0x1093ED9C), Word(0xBE2C974E)])
  {
    hide Line, Rcon;
    Line1288(sbox);
    Rcons();
    NextLine(sbox, KEY128, 8, [Word(0x47438735), Word(0xA41C65B9), Word(0xE016BAF4), Word(0xAEBF7AD2)], 0x1B,
      [Word(0x549932D1), Word(0xF0855768), Word(0x1093ED9C), Word(0xBE2C974E)]);
  }

  lemma Line128A(sbox: SBox)
    requires Fips(sbox)
    ensures Line(sbox, KEY128, 10, [Word(0x13111D7F), Word(0xE3944A17), Word(0xF307A78B), Word(0x4D2B30C5)])
  {
    hide Line, Rcon;
    Line1289(sbox);
    Rcons();
    NextLine(sbox, KEY128, 9, [Word(0x549932D1), Word(0xF0855768), Word(0x1093ED9C), Word(0xBE2C974E)], 0x36,
      [Word(0x13111D7F), Word(0xE3944A17), Word(0xF307A78B), Word(0x4D2B30C5)]);
  }

  lemma State1280(sbox: SBox)
    requires Fips(sbox)
    ensures After(sbox, KEY128, INPUT, 0) == Hex(0x00102030, 0x40506070, 0x8090A0B0, 0xC0D0E0F0)
  {
    hide Line, W, After, RoundKey, Cipher;
    FirstLine(sbox, KEY128);
    KeyOfLines(sbox, KEY128, 0, 0, KEY128, [], 0);
    FirstState(sbox, KEY128, Hex(0x00010203, 0x04050607, 0x08090A0B, 0x0C0D0E0F), Hex(0x00102030, 0x40506070,
      0x8090A0B0, 0xC0D0E0F0));
  }

  lemma State1281(sbox: SBox)
    requires Fips(sbox)
    ensures After(sbox, KEY128, INPUT, 1) == Hex(0x89D810E8, 0x855ACE68, 0x2D1843D8, 0xCB128FE4)
  {
    hide Line, W, After, RoundKey, Cipher;
    State1280(sbox);
    Line1281(sbox);
    KeyOfLines(sbox, KEY128, 1, 1, [Word(0xD6AA74FD), Word(0xD2AF72FA), Word(0xDAA678F1), Word(0xD6AB76FE)], [], 0);
    NextState(sbox, KEY128, 0, Hex(0x00102030, 0x40506070, 0x8090A0B0, 0xC0D0E0F0), Hex(0xD6AA74FD, 0xD2AF72FA,
      0xDAA678F1, 0xD6AB76FE), Hex(0x89D810E8, 0x855ACE68, 0x2D1843D8, 0xCB128FE4));
  }

  lemma State1282(sbox: SBox)
    requires Fips(sbox)
    ensures After(sbox, KEY128, INPUT, 2) == Hex(0x4915598F, 0x55E5D7A0, 0xDACA94FA, 0x1F0A63F7)
  {
    hide Line, W, After, RoundKey, Cipher;
    State1281(sbox);
    Line1282(sbox);
    KeyOfLines(sbox, KEY128, 2, 2, [Word(0xB692CF0B), Word(0x643DBDF1), Word(0xBE9BC500), Word(0x6830B3FE)], [], 0);
    NextState(sbox, KEY128, 1, Hex(0x89D810E8, 0x855ACE68, 0x2D1843D8, 0xCB128FE4), Hex(0xB692CF0B, 0x643DBDF1,
      0xBE9BC500, 0x6830B3FE), Hex(0x4915598F, 0x55E5D7A0, 0xDACA94FA, 0x1F0A63F7));
  }

  lemma State1283(sbox: SBox)
    requires Fips(sbox)
    ensures After(sbox, KEY128, INPUT, 3) == Hex(0xFA636A28, 0x25B339C9, 0x40668A31, 0x57244D17)
  {
    hide Line, W, After, RoundKey, Cipher;
    State1282(sbox);
    Line1283(sbox);
    KeyOfLines(sbox, KEY128, 3, 3, [Word(0xB6FF744E), Word(0xD2C2C9BF), Word(0x6C590CBF), Word(0x0469BF41)], [], 0);
    NextState(sbox, KEY128, 2, Hex(0x4915598F, 0x55E5D7A0, 0xDACA94FA, 0x1F0A63F7), Hex(0xB6FF744E, 0xD2C2C9BF,
      0x6C590CBF, 0x0469BF41), Hex(0xFA636A28, 0x25B339C9, 0x40668A31, 0x57244D17));
  }

  lemma State1284(sbox: SBox)
    requires Fips(sbox)
    ensures After(sbox, KEY128, INPUT, 4) == Hex(0x24724023, 0x6966B3FA, 0x6ED27532, 0x88425B6C)
  {
    hide Line, W, After, RoundKey, Cipher;
    State1283(sbox);
    Line1284(sbox);
    KeyOfLines(sbox, KEY128, 4, 4, [Word(0x47F7F7BC), Word(0x95353E03), Word(0xF96C32BC), Word(0xFD058DFD)], [], 0);
    NextState(sbox, KEY128, 3, Hex(0xFA636A28, 0x25B339C9, 0x40668A31, 0x57244D17), Hex(0x47F7F7BC, 0x95353E03,
      0xF96C32BC, 0xFD058DFD), Hex(0x24724023, 0x6966B3FA, 0x6ED27532, 0x88425B6C));
  }

  lemma State1285(sbox: SBox)
    requires Fips(sbox)
    ensures After(sbox, KEY128, INPUT, 5) == Hex(0xC81677BC, 0x9B7AC93B, 0x25027992, 0xB0261996)
  {
    hide Line, W, After, RoundKey, Cipher;
    State1284(sbox);
    Line1285(sbox);
    KeyOfLines(sbox, KEY128, 5, 5, [Word(0x3CAAA3E8), Word(0xA99F9DEB), Word(0x50F3AF57), Word(0xADF622AA)], [], 0);
    NextState(sbox, KEY128, 4, Hex(0x24724023, 0x6966B3FA, 0x6ED27532, 0x88425B6C), Hex(0x3CAAA3E8, 0xA99F9DEB,
      0x50F3AF57, 0xADF622AA), Hex(0xC81677BC, 0x9B7AC93B, 0x25027992, 0xB0261996));
  }

  lemma State1286(sbox: SBox)
    requires Fips(sbox)
    ensures After(sbox, KEY128, INPUT, 6) == Hex(0xC62FE109, 0xF75EEDC3, 0xCC79395D, 0x84F9CF5D)
  {
    hide Line, W, After, RoundKey, Cipher;
    State1285(sbox);
    Line1286(sbox);
    KeyOfLines(sbox, KEY128, 6, 6, [Word(0x5E390F7D), Word(0xF7A69296), Word(0xA7553DC1), Word(0x0AA31F6B)], [], 0);
    NextState(sbox, KEY128, 5, Hex(0xC81677BC, 0x9B7AC93B, 0x25027992, 0xB0261996), Hex(0x5E390F7D, 0xF7A69296,
      0xA7553DC1, 0x0AA31F6B), Hex(0xC62FE109, 0xF75EEDC3, 0xCC79395D, 0x84F9CF5D));
  }

  lemma State1287(sbox: SBox)
    requires Fips(sbox)
    ensures After(sbox, KEY128, INPUT, 7) == Hex(0xD1876C0F, 0x79C4300A, 0xB45594AD, 0xD66FF41F)
  {
    hide Line, W, After, RoundKey, Cipher;
    State1286(sbox);
    Line1287(sbox);
    KeyOfLines(sbox, KEY128, 7, 7, [Word(0x14F9701A), Word(0xE35FE28C), Word(0x440ADF4D), Word(0x4EA9C026)], [], 0);
    NextState(sbox, KEY128, 6, Hex(0xC62FE109, 0xF75EEDC3, 0xCC79395D, 0x84F9CF5D), Hex(0x14F9701A, 0xE35FE28C,
      0x440ADF4D, 0x4EA9C026), Hex(0xD1876C0F, 0x79C4300A, 0xB45594AD, 0xD66FF41F));
  }

  lemma State1288(sbox: SBox)
    requires Fips(sbox)
    ensures After(sbox, KEY128, INPUT, 8) == Hex(0xFDE3BAD2, 0x05E5D0D7, 0x3547964E, 0xF1FE37F1)
  {
    hide Line, W, After, RoundKey, Cipher;
    State1287(sbox);
    Line1288(sbox);
    KeyOfLines(sbox, KEY128, 8, 8, [Word(0x47438735), Word(0xA41C65B9), Word(0xE016BAF4), Word(0xAEBF7AD2)], [], 0);
    NextState(sbox, KEY128, 7, Hex(0xD1876C0F, 0x79C4300A, 0xB45594AD, 0xD66FF41F), Hex(0x47438735, 0xA41C65B9,
      0xE016BAF4, 0xAEBF7AD2), Hex(0xFDE3BAD2, 0x05E5D0D7, 0x3547964E, 0xF1FE37F1));
  }

  lemma State1289(sbox: SBox)
    requires Fips(sbox)
    ensures After(sbox, KEY128, INPUT, 9) == Hex(0xBD6E7C3D, 0xF2B5779E, 0x0B61216E, 0x8B10B689)
  {
    hide Line, W, After, RoundKey, Cipher;
    State1288(sbox);
    Line1289(sbox);
    KeyOfLines(sbox, KEY128, 9, 9, [Word(0x549932D1), Word(0xF0855768), Word(0x1093ED9C), Word(0xBE2C974E)], [], 0);
    NextState(sbox, KEY128, 8, Hex(0xFDE3BAD2, 0x05E5D0D7, 0x3547964E, 0xF1FE37F1), Hex(0x549932D1, 0xF0855768,
      0x1093ED9C, 0xBE2C974E), Hex(0xBD6E7C3D, 0xF2B5779E, 0x0B61216E, 0x8B10B689));
  }

  /** The example of appendix C.1. */
  lemma Vector128(sbox: SBox)
    requires Fips(sbox)
    ensures Cipher(sbox, KEY128, INPUT) == Hex(0x69C4E0D8, 0x6A7B0430, 0xD8CDB780, 0x70B4C55A)
  {
    hide Line, W, After, RoundKey, Cipher;
    State1289(sbox);
    Line128A(sbox);
    KeyOfLines(sbox, KEY128, 10, 10, [Word(0x13111D7F), Word(0xE3944A17), Word(0xF307A78B), Word(0x4D2B30C5)], [], 0);
    LastState(sbox, KEY128, Hex(0xBD6E7C3D, 0xF2B5779E, 0x0B61216E, 0x8B10B689), Hex(0x13111D7F, 0xE3944A17,
      0xF307A78B, 0x4D2B30C5), Hex(0x69C4E0D8, 0x6A7B0430, 0xD8CDB780, 0x70B4C55A));
  }

  // ---------- 192-bit keys ----------

  const KEY192 := [Word(0x00010203), Word(0x04050607), Word(0x08090A0B), Word(0x0C0D0E0F), Word(0x10111213),
    Word(0x14151617)]

  lemma Line1921(sbox: SBox)
    requires Fips(sbox)
    ensures Line(sbox, KEY192, 1, [Word(0x5846F2F9), Word(0x5C43F4FE), Word(0x544AFEF5), Word(0x5847F0FA),
      Word(0x4856E2E9), Word(0x5C43F4FE)])
  {
    hide Line, Rcon;
    FirstLine(sbox, KEY192);
    Rcons();
    NextLine(sbox, KEY192, 0, KEY192, 0x01, [Word(0x5846F2F9), Word(0x5C43F4FE), Word(0x544AFEF5), Word(0x5847F0FA),
      Word(0x4856E2E9), Word(0x5C43F4FE)]);
  }

  lemma Line1922(sbox: SBox)
    requires Fips(sbox)
    ensures Line(sbox, KEY192, 2, [Word(0x40F949B3), Word(0x1CBABD4D), Word(0x48F043B8), Word(0x10B7B342),
      Word(0x58E151AB), Word(0x04A2A555)])
  {
    hide Line, Rcon;
    Line1921(sbox);
    Rcons();
    NextLine(sbox, KEY192, 1, [Word(0x5846F2F9), Word(0x5C43F4FE), Word(0x544AFEF5), Word(0x5847F0FA),
      Word(0x4856E2E9), Word(0x5C43F4FE)], 0x02, [Word(0x40F949B3), Word(0x1CBABD4D), Word(0x48F043B8),
      Word(0x10B7B342), Word(0x58E151AB), Word(0x04A2A555)]);
  }

  lemma Line1923(sbox: SBox)
    requires Fips(sbox)
    ensures Line(sbox, KEY192, 3, [Word(0x7EFFB541), Word(0x6245080C), Word(0x2AB54BB4), Word(0x3A02F8F6),
      Word(0x62E3A95D), Word(0x66410C08)])
  {
    hide Line, Rcon;
    Line1922(sbox);
    Rcons();
    NextLine(sbox, KEY192, 2, [Word(0x40F949B3), Word(0x1CBABD4D), Word(0x48F043B8), Word(0x10B7B342),
      Word(0x58E151AB), Word(0x04A2A555)], 0x04, [Word(0x7EFFB541), Word(0x6245080C), Word(0x2AB54BB4),
      Word(0x3A02F8F6), Word(0x62E3A95D), Word(0x66410C08)]);
  }

  lemma Line1924(sbox: SBox)
    requires Fips(sbox)
    ensures Line(sbox, KEY192, 4, [Word(0xF5018572), Word(0x97448D7E), Word(0xBDF1C6CA), Word(0x87F33E3C),
      Word(0xE5109761), Word(0x83519B69)])
  {
    hide Line, Rcon;
    Line1923(sbox);
    Rcons();
    NextLine(sbox, KEY192, 3, [Word(0x7EFFB541), Word(0x6245080C), Word(0x2AB54BB4), Word(0x3A02F8F6),
      Word(0x62E3A95D), Word(0x66410C08)], 0x08, [Word(0xF5018572), Word(0x97448D7E), Word(0xBDF1C6CA),
      Word(0x87F33E3C), Word(0xE5109761), Word(0x83519B69)]);
  }

  lemma Line1925(sbox: SBox)
    requires Fips(sbox)
    ensures Line(sbox, KEY192, 5, [Word(0x34157C9E), Word(0xA351F1E0), Word(0x1EA0372A), Word(0x99530916),
      Word(0x7C439E77), Word(0xFF12051E)])
  {
    hide Line, Rcon;
    Line1924(sbox);
    Rcons();
    NextLine(sbox, KEY192, 4, [Word(0xF5018572), Word(0x97448D7E), Word(0xBDF1C6CA), Word(0x87F33E3C),
      Word(0xE5109761), Word(0x83519B69)], 0x10, [Word(0x34157C9E), Word(0xA351F1E0), Word(0x1EA0372A),
      Word(0x99530916), Word(0x7C439E77), Word(0xFF12051E)]);
  }

  lemma Line1926(sbox: SBox)
    requires Fips(sbox)
    ensures Line(sbox, KEY192, 6, [Word(0xDD7E0E88), Word(0x7E2FFF68), Word(0x608FC842), Word(0xF9DCC154),
      Word(0x859F5F23), Word(0x7A8D5A3D)])
  {
    hide Line, Rcon;
    Line1925(sbox);
    Rcons();
    NextLine(sbox, KEY192, 5, [Word(0x34157C9E), Word(0xA351F1E0), Word(0x1EA0372A), Word(0x99530916),
      Word(0x7C439E77), Word(0xFF12051E)], 0x20, [Word(0xDD7E0E88), Word(0x7E2FFF68), Word(0x608FC842),
      Word(0xF9DCC154), Word(0x859F5F23), Word(0x7A8D5A3D)]);
  }

  lemma Line1927(sbox: SBox)
    requires Fips(sbox)
    ensures Line(sbox, KEY192, 7, [Word(0xC0C02952), Word(0xBEEFD63A), Word(0xDE601E78), Word(0x27BCDF2C),
      Word(0xA223800F), Word(0xD8AEDA32)])
  {
    hide Line, Rcon;
    Line1926(sbox);
    Rcons();
    NextLine(sbox, KEY192, 6, [Word(0xDD7E0E88), Word(0x7E2FFF68), Word(0x608FC842), Word(0xF9DCC154),
      Word(0x859F5F23), Word(0x7A8D5A3D)], 0x40, [Word(0xC0C02952), Word(0xBEEFD63A), Word(0xDE601E78),
      Word(0x27BCDF2C), Word(0xA223800F), Word(0xD8AEDA32)]);
  }

  lemma Line1928(sbox: SBox)
    requires Fips(sbox)
    ensures Line(sbox, KEY192, 8, [Word(0xA4970A33), Word(0x1A78DC09), Word(0xC418C271), Word(0xE3A41D5D),
      Word(0x41879D52), Word(0x99294760)])
  {
    hide Line, Rcon;
    Line1927(sbox);
    Rcons();
    NextLine(sbox, KEY192, 7, [Word(0xC0C02952), Word(0xBEEFD63A), Word(0xDE601E78), Word(0x27BCDF2C),
      Word(0xA223800F), Word(0xD8AEDA32)], 0x80, [Word(0xA4970A33), Word(0x1A78DC09), Word(0xC418C271),
      Word(0xE3A41D5D), Word(0x41879D52), Word(0x99294760)]);
  }

  lemma State1920(sbox: SBox)
    requires Fips(sbox)
    ensures After(sbox, KEY192, INPUT, 0) == Hex(0x00102030, 0x40506070, 0x8090A0B0, 0xC0D0E0F0)
  {
    hide Line, W, After, RoundKey, Cipher;
    FirstLine(sbox, KEY192);
    KeyOfLines(sbox, KEY192, 0, 0, KEY192, [], 0);
    FirstState(sbox, KEY192, Hex(0x00010203, 0x04050607, 0x08090A0B, 0x0C0D0E0F), Hex(0x00102030, 0x40506070,
      0x8090A0B0, 0xC0D0E0F0));
  }

  lemma State1921(sbox: SBox)
    requires Fips(sbox)
    ensures After(sbox, KEY192, INPUT, 1) == Hex(0x4F637606, 0x43E0AA85, 0xAFF8C9D0, 0x41FA0DE4)
  {
    hide Line, W, After, RoundKey, Cipher;
    State1920(sbox);
    FirstLine(sbox, KEY192);
    Line1921(sbox);
    KeyOfLines(sbox, KEY192, 1, 0, KEY192, [Word(0x5846F2F9), Word(0x5C43F4FE), Word(0x544AFEF5), Word(0x5847F0FA),
      Word(0x4856E2E9), Word(0x5C43F4FE)], 4);
    NextState(sbox, KEY192, 0, Hex(0x00102030, 0x40506070, 0x8090A0B0, 0xC0D0E0F0), Hex(0x10111213, 0x14151617,
      0x5846F2F9, 0x5C43F4FE), Hex(0x4F637606, 0x43E0AA85, 0xAFF8C9D0, 0x41FA0DE4));
  }

  lemma State1922(sbox: SBox)
    requires Fips(sbox)
    ensures After(sbox, KEY192, INPUT, 2) == Hex(0xCB02818C, 0x17D2AF9C, 0x62AA6442, 0x8BB25FD7)
  {
    hide Line, W, After, RoundKey, Cipher;
    State1921(sbox);
    Line1921(sbox);
    KeyOfLines(sbox, KEY192, 2, 1, [Word(0x5846F2F9), Word(0x5C43F4FE), Word(0x544AFEF5), Word(0x5847F0FA),
      Word(0x4856E2E9), Word(0x5C43F4FE)], [], 2);
    NextState(sbox, KEY192, 1, Hex(0x4F637606, 0x43E0AA85, 0xAFF8C9D0, 0x41FA0DE4), Hex(0x544AFEF5, 0x5847F0FA,
      0x4856E2E9, 0x5C43F4FE), Hex(0xCB02818C, 0x17D2AF9C, 0x62AA6442, 0x8BB25FD7));
  }

  lemma State1923(sbox: SBox)
    requires Fips(sbox)
    ensures After(sbox, KEY192, INPUT, 3) == Hex(0xF75C7778, 0xA327C8ED, 0x8CFEBFC1, 0xA6C37F53)
  {
    hide Line, W, After, RoundKey, Cipher;
    State1922(sbox);
    Line1922(sbox);
    KeyOfLines(sbox, KEY192, 3, 2, [Word(0x40F949B3), Word(0x1CBABD4D), Word(0x48F043B8), Word(0x10B7B342),
      Word(0x58E151AB), Word(0x04A2A555)], [], 0);
    NextState(sbox, KEY192, 2, Hex(0xCB02818C, 0x17D2AF9C, 0x62AA6442, 0x8BB25FD7), Hex(0x40F949B3, 0x1CBABD4D,
      0x48F043B8, 0x10B7B342), Hex(0xF75C7778, 0xA327C8ED, 0x8CFEBFC1, 0xA6C37F53));
  }

  lemma State1924(sbox: SBox)
    requires Fips(sbox)
    ensures After(sbox, KEY192, INPUT, 4) == Hex(0x22FFC916, 0xA8147441, 0x6496F19C, 0x64AE2532)
  {
    hide Line, W, After, RoundKey, Cipher;
    State1923(sbox);
    Line1922(sbox);
    Line1923(sbox);
    KeyOfLines(sbox, KEY192, 4, 2, [Word(0x40F949B3), Word(0x1CBABD4D), Word(0x48F043B8), Word(0x10B7B342),
      Word(0x58E151AB), Word(0x04A2A555)], [Word(0x7EFFB541), Word(0x6245080C), Word(0x2AB54BB4), Word(0x3A02F8F6),
      Word(0x62E3A95D), Word(0x66410C08)], 4);
    NextState(sbox, KEY192, 3, Hex(0xF75C7778, 0xA327C8ED, 0x8CFEBFC1, 0xA6C37F53), Hex(0x58E151AB, 0x04A2A555,
      0x7EFFB541, 0x6245080C), Hex(0x22FFC916, 0xA8147441, 0x6496F19C, 0x64AE2532));
  }

  lemma State1925(sbox: SBox)
    requires Fips(sbox)
    ensures After(sbox, KEY192, INPUT, 5) == Hex(0x80121E07, 0x76FD1D8A, 0x8D8C31BC, 0x965D1FEE)
  {
    hide Line, W, After, RoundKey, Cipher;
    State1924(sbox);
    Line1923(sbox);
    KeyOfLines(sbox, KEY192, 5, 3, [Word(0x7EFFB541), Word(0x6245080C), Word(0x2AB54BB4), Word(0x3A02F8F6),
      Word(0x62E3A95D), Word(0x66410C08)], [], 2);
    NextState(sbox, KEY192, 4, Hex(0x22FFC916, 0xA8147441, 0x6496F19C, 0x64AE2532), Hex(0x2AB54BB4, 0x3A02F8F6,
      0x62E3A95D, 0x66410C08), Hex(0x80121E07, 0x76FD1D8A, 0x8D8C31BC, 0x965D1FEE));
  }

  lemma State1926(sbox: SBox)
    requires Fips(sbox)
    ensures After(sbox, KEY192, INPUT, 6) == Hex(0x671EF1FD, 0x4E2A1E03, 0xDFDCB1EF, 0x3D789B30)
  {
    hide Line, W, After, RoundKey, Cipher;
    State1925(sbox);
    Line1924(sbox);
    KeyOfLines(sbox, KEY192, 6, 4, [Word(0xF5018572), Word(0x97448D7E), Word(0xBDF1C6CA), Word(0x87F33E3C),
      Word(0xE5109761), Word(0x83519B69)], [], 0);
    NextState(sbox, KEY192, 5, Hex(0x80121E07, 0x76FD1D8A, 0x8D8C31BC, 0x965D1FEE), Hex(0xF5018572, 0x97448D7E,
      0xBDF1C6CA, 0x87F33E3C), Hex(0x671EF1FD, 0x4E2A1E03, 0xDFDCB1EF, 0x3D789B30));
  }

  lemma State1927(sbox: SBox)
    requires Fips(sbox)
    ensures After(sbox, KEY192, INPUT, 7) == Hex(0x0C0370D0, 0x0C01E622, 0x166B8ACC, 0xD6DB3A2C)
  {
    hide Line, W, After, RoundKey, Cipher;
    State1926(sbox);
    Line1924(sbox);
    Line1925(sbox);
    KeyOfLines(sbox, KEY192, 7, 4, [Word(0xF5018572), Word(0x97448D7E), Word(0xBDF1C6CA), Word(0x87F33E3C),
      Word(0xE5109761), Word(0x83519B69)], [Word(0x34157C9E), Word(0xA351F1E0), Word(0x1EA0372A), Word(0x99530916),
      Word(0x7C439E77), Word(0xFF12051E)], 4);
    NextState(sbox, KEY192, 6, Hex(0x671EF1FD, 0x4E2A1E03, 0xDFDCB1EF, 0x3D789B30), Hex(0xE5109761, 0x83519B69,
      0x34157C9E, 0xA351F1E0), Hex(0x0C0370D0, 0x0C01E622, 0x166B8ACC, 0xD6DB3A2C));
  }

  lemma State1928(sbox: SBox)
    requires Fips(sbox)
    ensures After(sbox, KEY192, INPUT, 8) == Hex(0x7255DAD3, 0x0FB80310, 0xE00D6C6B, 0x40D0527C)
  {
    hide Line, W, After, RoundKey, Cipher;
    State1927(sbox);
    Line1925(sbox);
    KeyOfLines(sbox, KEY192, 8, 5, [Word(0x34157C9E), Word(0xA351F1E0), Word(0x1EA0372A), Word(0x99530916),
      Word(0x7C439E77), Word(0xFF12051E)], [], 2);
    NextState(sbox, KEY192, 7, Hex(0x0C0370D0, 0x0C01E622, 0x166B8ACC, 0xD6DB3A2C), Hex(0x1EA0372A, 0x99530916,
      0x7C439E77, 0xFF12051E), Hex(0x7255DAD3, 0x0FB80310, 0xE00D6C6B, 0x40D0527C));
  }

  lemma State1929(sbox: SBox)
    requires Fips(sbox)
    ensures After(sbox, KEY192, INPUT, 9) == Hex(0xA906B254, 0x968AF4E9, 0xB4BDB2D2, 0xF0C44336)
  {
    hide Line, W, After, RoundKey, Cipher;
    State1928(sbox);
    Line1926(sbox);
    KeyOfLines(sbox, KEY192, 9, 6, [Word(0xDD7E0E88), Word(0x7E2FFF68), Word(0x608FC842), Word(0xF9DCC154),
      Word(0x859F5F23), Word(0x7A8D5A3D)], [], 0);
    NextState(sbox, KEY192, 8, Hex(0x7255DAD3, 0x0FB80310, 0xE00D6C6B, 0x40D0527C), Hex(0xDD7E0E88, 0x7E2FFF68,
      0x608FC842, 0xF9DCC154), Hex(0xA906B254, 0x968AF4E9, 0xB4BDB2D2, 0xF0C44336));
  }

  lemma State192A(sbox: SBox)
    requires Fips(sbox)
    ensures After(sbox, KEY192, INPUT, 10) == Hex(0x88EC930E, 0xF5E7E4B6, 0xCC32F4C9, 0x06D29414)
  {
    hide Line, W, After, RoundKey, Cipher;
    State1929(sbox);
    Line1926(sbox);
    Line1927(sbox);
    KeyOfLines(sbox, KEY192, 10, 6, [Word(0xDD7E0E88), Word(0x7E2FFF68), Word(0x608FC842), Word(0xF9DCC154),
      Word(0x859F5F23), Word(0x7A8D5A3D)], [Word(0xC0C02952), Word(0xBEEFD63A), Word(0xDE601E78), Word(0x27BCDF2C),
      Word(0xA223800F), Word(0xD8AEDA32)], 4);
    NextState(sbox, KEY192, 9, Hex(0xA906B254, 0x968AF4E9, 0xB4BDB2D2, 0xF0C44336), Hex(0x859F5F23, 0x7A8D5A3D,
      0xC0C02952, 0xBEEFD63A), Hex(0x88EC930E, 0xF5E7E4B6, 0xCC32F4C9, 0x06D29414));
  }

  lemma State192B(sbox: SBox)
    requires Fips(sbox)
    ensures After(sbox, KEY192, INPUT, 11) == Hex(0xAFB73EEB, 0x1CD1B851, 0x62280F27, 0xFB20D585)
  {
    hide Line, W, After, RoundKey, Cipher;
    State192A(sbox);
    Line1927(sbox);
    KeyOfLines(sbox, KEY192, 11, 7, [Word(0xC0C02952), Word(0xBEEFD63A), Word(0xDE601E78), Word(0x27BCDF2C),
      Word(0xA223800F), Word(0xD8AEDA32)], [], 2);
    NextState(sbox, KEY192, 10, Hex(0x88EC930E, 0xF5E7E4B6, 0xCC32F4C9, 0x06D29414), Hex(0xDE601E78, 0x27BCDF2C,
      0xA223800F, 0xD8AEDA32), Hex(0xAFB73EEB, 0x1CD1B851, 0x62280F27, 0xFB20D585));
  }

  /** The example of appendix C.2. */
  lemma Vector192(sbox: SBox)
    requires Fips(sbox)
    ensures Cipher(sbox, KEY192, INPUT) == Hex(0xDDA97CA4, 0x864CDFE0, 0x6EAF70A0, 0xEC0D7191)
  {
    hide Line, W, After, RoundKey, Cipher;
    State192B(sbox);
    Line1928(sbox);
    KeyOfLines(sbox, KEY192, 12, 8, [Word(0xA4970A33), Word(0x1A78DC09), Word(0xC418C271), Word(0xE3A41D5D),
      Word(0x41879D52), Word(0x99294760)], [], 0);
    LastState(sbox, KEY192, Hex(0xAFB73EEB, 0x1CD1B851, 0x62280F27, 0xFB20D585), Hex(0xA4970A33, 0x1A78DC09,
      0xC418C271, 0xE3A41D5D), Hex(0xDDA97CA4, 0x864CDFE0, 0x6EAF70A0, 0xEC0D7191));
  }

  // ---------- 256-bit keys ----------

  const KEY256 := [Word(0x00010203), Word(0x04050607), Word(0x08090A0B), Word(0x0C0D0E0F), Word(0x10111213),
    Word(0x14151617), Word(0x18191A1B), Word(0x1C1D1E1F)]

  lemma Line2561(sbox: SBox)
    requires Fips(sbox)
    ensures Line(sbox, KEY256, 1, [Word(0xA573C29F), Word(0xA176C498), Word(0xA97FCE93), Word(0xA572C09C),
      Word(0x1651A8CD), Word(0x0244BEDA), Word(0x1A5DA4C1), Word(0x0640BADE)])
  {
    hide Line, Rcon;
    FirstLine(sbox, KEY256);
    Rcons();
    NextLine(sbox, KEY256, 0, KEY256, 0x01, [Word(0xA573C29F), Word(0xA176C498), Word(0xA97FCE93), Word(0xA572C09C),
      Word(0x1651A8CD), Word(0x0244BEDA), Word(0x1A5DA4C1), Word(0x0640BADE)]);
  }

  lemma Line2562(sbox: SBox)
    requires Fips(sbox)
    ensures Line(sbox, KEY256, 2, [Word(0xAE87DFF0), Word(0x0FF11B68), Word(0xA68ED5FB), Word(0x03FC1567),
      Word(0x6DE1F148), Word(0x6FA54F92), Word(0x75F8EB53), Word(0x73B8518D)])
  {
    hide Line, Rcon;
    Line2561(sbox);
    Rcons();
    NextLine(sbox, KEY256, 1, [Word(0xA573C29F), Word(0xA176C498), Word(0xA97FCE93), Word(0xA572C09C),
      Word(0x1651A8CD), Word(0x0244BEDA), Word(0x1A5DA4C1), Word(0x0640BADE)], 0x02, [Word(0xAE87DFF0),
      Word(0x0FF11B68), Word(0xA68ED5FB), Word(0x03FC1567), Word(0x6DE1F148), Word(0x6FA54F92), Word(0x75F8EB53),
      Word(0x73B8518D)]);
  }

  lemma Line2563(sbox: SBox)
    requires Fips(sbox)
    ensures Line(sbox, KEY256, 3, [Word(0xC656827F), Word(0xC9A79917), Word(0x6F294CEC), Word(0x6CD5598B),
      Word(0x3DE23A75), Word(0x524775E7), Word(0x27BF9EB4), Word(0x5407CF39)])
  {
    hide Line, Rcon;
    Line2562(sbox);
    Rcons();
    NextLine(sbox, KEY256, 2, [Word(0xAE87DFF0), Word(0x0FF11B68), Word(0xA68ED5FB), Word(0x03FC1567),
      Word(0x6DE1F148), Word(0x6FA54F92), Word(0x75F8EB53), Word(0x73B8518D)], 0x04, [Word(0xC656827F),
      Word(0xC9A79917), Word(0x6F294CEC), Word(0x6CD5598B), Word(0x3DE23A75), Word(0x524775E7), Word(0x27BF9EB4),
      Word(0x5407CF39)]);
  }

  lemma Line2564(sbox: SBox)
    requires Fips(sbox)
    ensures Line(sbox, KEY256, 4, [Word(0x0BDC905F), Word(0xC27B0948), Word(0xAD5245A4), Word(0xC1871C2F),
      Word(0x45F5A660), Word(0x17B2D387), Word(0x300D4D33), Word(0x640A820A)])
  {
    hide Line, Rcon;
    Line2563(sbox);
    Rcons();
    NextLine(sbox, KEY256, 3, [Word(0xC656827F), Word(0xC9A79917), Word(0x6F294CEC), Word(0x6CD5598B),
      Word(0x3DE23A75), Word(0x524775E7), Word(0x27BF9EB4), Word(0x5407CF39)], 0x08, [Word(0x0BDC905F),
      Word(0xC27B0948), Word(0xAD5245A4), Word(0xC1871C2F), Word(0x45F5A660), Word(0x17B2D387), Word(0x300D4D33),
      Word(0x640A820A)]);
  }

  lemma Line2565(sbox: SBox)
    requires Fips(sbox)
    ensures Line(sbox, KEY256, 5, [Word(0x7CCFF71C), Word(0xBEB4FE54), Word(0x13E6BBF0), Word(0xD261A7DF),
      Word(0xF01AFAFE), Word(0xE7A82979), Word(0xD7A5644A), Word(0xB3AFE640)])
  {
    hide Line, Rcon;
    Line2564(sbox);
    Rcons();
    NextLine(sbox, KEY256, 4, [Word(0x0BDC905F), Word(0xC27B0948), Word(0xAD5245A4), Word(0xC1871C2F),
      Word(0x45F5A660), Word(0x17B2D387), Word(0x300D4D33), Word(0x640A820A)], 0x10, [Word(0x7CCFF71C),
      Word(0xBEB4FE54), Word(0x13E6BBF0), Word(0xD261A7DF), Word(0xF01AFAFE), Word(0xE7A82979), Word(0xD7A5644A),
      Word(0xB3AFE640)]);
  }

  lemma Line2566(sbox: SBox)
    requires Fips(sbox)
    ensures Line(sbox, KEY256, 6, [Word(0x2541FE71), Word(0x9BF50025), Word(0x8813BBD5), Word(0x5A721C0A),
      Word(0x4E5A6699), Word(0xA9F24FE0), Word(0x7E572BAA), Word(0xCDF8CDEA)])
  {
    hide Line, Rcon;
    Line2565(sbox);
    Rcons();
    NextLine(sbox, KEY256, 5, [Word(0x7CCFF71C), Word(0xBEB4FE54), Word(0x13E6BBF0), Word(0xD261A7DF),
      Word(0xF01AFAFE), Word(0xE7A82979), Word(0xD7A5644A), Word(0xB3AFE640)], 0x20, [Word(0x2541FE71),
      Word(0x9BF50025), Word(0x8813BBD5), Word(0x5A721C0A), Word(0x4E5A6699), Word(0xA9F24FE0), Word(0x7E572BAA),
      Word(0xCDF8CDEA)]);
  }

  lemma Line2567(sbox: SBox)
    requires Fips(sbox)
    ensures Line(sbox, KEY256, 7, [Word(0x24FC79CC), Word(0xBF0979E9), Word(0x371AC23C), Word(0x6D68DE36),
      Word(0x721F7B9C), Word(0xDBED347C), Word(0xA5BA1FD6), Word(0x6842D23C)])
  {
    hide Line, Rcon;
    Line2566(sbox);
    Rcons();
    NextLine(sbox, KEY256, 6, [Word(0x2541FE71), Word(0x9BF50025), Word(0x8813BBD5), Word(0x5A721C0A),
      Word(0x4E5A6699), Word(0xA9F24FE0), Word(0x7E572BAA), Word(0xCDF8CDEA)], 0x40, [Word(0x24FC79CC),
      Word(0xBF0979E9), Word(0x371AC23C), Word(0x6D68DE36), Word(0x721F7B9C), Word(0xDBED347C), Word(0xA5BA1FD6),
      Word(0x6842D23C)]);
  }

  lemma State2560(sbox: SBox)
    requires Fips(sbox)
    ensures After(sbox, KEY256, INPUT, 0) == Hex(0x00102030, 0x40506070, 0x8090A0B0, 0xC0D0E0F0)
  {
    hide Line, W, After, RoundKey, Cipher;
    FirstLine(sbox, KEY256);
    KeyOfLines(sbox, KEY256, 0, 0, KEY256, [], 0);
    FirstState(sbox, KEY256, Hex(0x00010203, 0x04050607, 0x08090A0B, 0x0C0D0E0F), Hex(0x00102030, 0x40506070,
      0x8090A0B0, 0xC0D0E0F0));
  }

  lemma State2561(sbox: SBox)
    requires Fips(sbox)
    ensures After(sbox, KEY256, INPUT, 1) == Hex(0x4F637606, 0x43E0AA85, 0xEFA72132, 0x01A4E705)
  {
    hide Line, W, After, RoundKey, Cipher;
    State2560(sbox);
    FirstLine(sbox, KEY256);
    KeyOfLines(sbox, KEY256, 1, 0, KEY256, [], 4);
    NextState(sbox, KEY256, 0, Hex(0x00102030, 0x40506070, 0x8090A0B0, 0xC0D0E0F0), Hex(0x10111213, 0x14151617,
      0x18191A1B, 0x1C1D1E1F), Hex(0x4F637606, 0x43E0AA85, 0xEFA72132, 0x01A4E705));
  }

  lemma State2562(sbox: SBox)
    requires Fips(sbox)
    ensures After(sbox, KEY256, INPUT, 2) == Hex(0x1859FBC2, 0x8A1C00A0, 0x78ED8AAD, 0xC42F6109)
  {
    hide Line, W, After, RoundKey, Cipher;
    State2561(sbox);
    Line2561(sbox);
    KeyOfLines(sbox, KEY256, 2, 1, [Word(0xA573C29F), Word(0xA176C498), Word(0xA97FCE93), Word(0xA572C09C),
      Word(0x1651A8CD), Word(0x0244BEDA), Word(0x1A5DA4C1), Word(0x0640BADE)], [], 0);
    NextState(sbox, KEY256, 1, Hex(0x4F637606, 0x43E0AA85, 0xEFA72132, 0x01A4E705), Hex(0xA573C29F, 0xA176C498,
      0xA97FCE93, 0xA572C09C), Hex(0x1859FBC2, 0x8A1C00A0, 0x78ED8AAD, 0xC42F6109));
  }

  lemma State2563(sbox: SBox)
    requires Fips(sbox)
    ensures After(sbox, KEY256, INPUT, 3) == Hex(0x975C66C1, 0xCB9F3FA8, 0xA93A28DF, 0x8EE10F63)
  {
    hide Line, W, After, RoundKey, Cipher;
    State2562(sbox);
    Line2561(sbox);
    KeyOfLines(sbox, KEY256, 3, 1, [Word(0xA573C29F), Word(0xA176C498), Word(0xA97FCE93), Word(0xA572C09C),
      Word(0x1651A8CD), Word(0x0244BEDA), Word(0x1A5DA4C1), Word(0x0640BADE)], [], 4);
    NextState(sbox, KEY256, 2, Hex(0x1859FBC2, 0x8A1C00A0, 0x78ED8AAD, 0xC42F6109), Hex(0x1651A8CD, 0x0244BEDA,
      0x1A5DA4C1, 0x0640BADE), Hex(0x975C66C1, 0xCB9F3FA8, 0xA93A28DF, 0x8EE10F63));
  }

  lemma State2564(sbox: SBox)
    requires Fips(sbox)
    ensures After(sbox, KEY256, INPUT, 4) == Hex(0x1C05F271, 0xA417E04F, 0xF921C5C1, 0x04701554)
  {
    hide Line, W, After, RoundKey, Cipher;
    State2563(sbox);
    Line2562(sbox);
    KeyOfLines(sbox, KEY256, 4, 2, [Word(0xAE87DFF0), Word(0x0FF11B68), Word(0xA68ED5FB), Word(0x03FC1567),
      Word(0x6DE1F148), Word(0x6FA54F92), Word(0x75F8EB53), Word(0x73B8518D)], [], 0);
    NextState(sbox, KEY256, 3, Hex(0x975C66C1, 0xCB9F3FA8, 0xA93A28DF, 0x8EE10F63), Hex(0xAE87DFF0, 0x0FF11B68,
      0xA68ED5FB, 0x03FC1567), Hex(0x1C05F271, 0xA417E04F, 0xF921C5C1, 0x04701554));
  }

  lemma State2565(sbox: SBox)
    requires Fips(sbox)
    ensures After(sbox, KEY256, INPUT, 5) == Hex(0xC357AAE1, 0x1B45B7B0, 0xA2C7BD28, 0xA8DC99FA)
  {
    hide Line, W, After, RoundKey, Cipher;
    State2564(sbox);
    Line2562(sbox);
    KeyOfLines(sbox, KEY256, 5, 2, [Word(0xAE87DFF0), Word(0x0FF11B68), Word(0xA68ED5FB), Word(0x03FC1567),
      Word(0x6DE1F148), Word(0x6FA54F92), Word(0x75F8EB53), Word(0x73B8518D)], [], 4);
    NextState(sbox, KEY256, 4, Hex(0x1C05F271, 0xA417E04F, 0xF921C5C1, 0x04701554), Hex(0x6DE1F148, 0x6FA54F92,
      0x75F8EB53, 0x73B8518D), Hex(0xC357AAE1, 0x1B45B7B0, 0xA2C7BD28, 0xA8DC99FA));
  }

  lemma State2566(sbox: SBox)
    requires Fips(sbox)
    ensures After(sbox, KEY256, INPUT, 6) == Hex(0x7F074143, 0xCB4E243E, 0xC10C815D, 0x8375D54C)
  {
    hide Line, W, After, RoundKey, Cipher;
    State2565(sbox);
    Line2563(sbox);
    KeyOfLines(sbox, KEY256, 6, 3, [Word(0xC656827F), Word(0xC9A79917), Word(0x6F294CEC), Word(0x6CD5598B),
      Word(0x3DE23A75), Word(0x524775E7), Word(0x27BF9EB4), Word(0x5407CF39)], [], 0);
    NextState(sbox, KEY256, 5, Hex(0xC357AAE1, 0x1B45B7B0, 0xA2C7BD28, 0xA8DC99FA), Hex(0xC656827F, 0xC9A79917,
      0x6F294CEC, 0x6CD5598B), Hex(0x7F074143, 0xCB4E243E, 0xC10C815D, 0x8375D54C));
  }

  lemma State2567(sbox: SBox)
    requires Fips(sbox)
    ensures After(sbox, KEY256, INPUT, 7) == Hex(0xD653A469, 0x6CA0BC0F, 0x5ACAAB5D, 0xB96C5E7D)
  {
    hide Line, W, After, RoundKey, Cipher;
    State2566(sbox);
    Line2563(sbox);
    KeyOfLines(sbox, KEY256, 7, 3, [Word(0xC656827F), Word(0xC9A79917), Word(0x6F294CEC), Word(0x6CD5598B),
      Word(0x3DE23A75), Word(0x524775E7), Word(0x27BF9EB4), Word(0x5407CF39)], [], 4);
    NextState(sbox, KEY256, 6, Hex(0x7F074143, 0xCB4E243E, 0xC10C815D, 0x8375D54C), Hex(0x3DE23A75, 0x524775E7,
      0x27BF9EB4, 0x5407CF39), Hex(0xD653A469, 0x6CA0BC0F, 0x5ACAAB5D, 0xB96C5E7D));
  }

  lemma State2568(sbox: SBox)
    requires Fips(sbox)
    ensures After(sbox, KEY256, INPUT, 8) == Hex(0x5AA85839, 0x5FD28D7D, 0x05E1A388, 0x68F3B9C5)
  {
    hide Line, W, After, RoundKey, Cipher;
    State2567(sbox);
    Line2564(sbox);
    KeyOfLines(sbox, KEY256, 8, 4, [Word(0x0BDC905F), Word(0xC27B0948), Word(0xAD5245A4), Word(0xC1871C2F),
      Word(0x45F5A660), Word(0x17B2D387), Word(0x300D4D33), Word(0x640A820A)], [], 0);
    NextState(sbox, KEY256, 7, Hex(0xD653A469, 0x6CA0BC0F, 0x5ACAAB5D, 0xB96C5E7D), Hex(0x0BDC905F, 0xC27B0948,
      0xAD5245A4, 0xC1871C2F), Hex(0x5AA85839, 0x5FD28D7D, 0x05E1A388, 0x68F3B9C5));
  }

  lemma State2569(sbox: SBox)
    requires Fips(sbox)
    ensures After(sbox, KEY256, INPUT, 9) == Hex(0x4A824851, 0xC57E7E47, 0x643DE50C, 0x2AF3E8C9)
  {
    hide Line, W, After, RoundKey, Cipher;
    State2568(sbox);
    Line2564(sbox);
    KeyOfLines(sbox, KEY256, 9, 4, [Word(0x0BDC905F), Word(0xC27B0948), Word(0xAD5245A4), Word(0xC1871C2F),
      Word(0x45F5A660), Word(0x17B2D387), Word(0x300D4D33), Word(0x640A820A)], [], 4);
    NextState(sbox, KEY256, 8, Hex(0x5AA85839, 0x5FD28D7D, 0x05E1A388, 0x68F3B9C5), Hex(0x45F5A660, 0x17B2D387,
      0x300D4D33, 0x640A820A), Hex(0x4A824851, 0xC57E7E47, 0x643DE50C, 0x2AF3E8C9));
  }

  lemma State256A(sbox: SBox)
    requires Fips(sbox)
    ensures After(sbox, KEY256, INPUT, 10) == Hex(0xC14907F6, 0xCA3B3AA0, 0x70E9AA31, 0x3B52B5EC)
  {
    hide Line, W, After, RoundKey, Cipher;
    State2569(sbox);
    Line2565(sbox);
    KeyOfLines(sbox, KEY256, 10, 5, [Word(0x7CCFF71C), Word(0xBEB4FE54), Word(0x13E6BBF0), Word(0xD261A7DF),
      Word(0xF01AFAFE), Word(0xE7A82979), Word(0xD7A5644A), Word(0xB3AFE640)], [], 0);
    NextState(sbox, KEY256, 9, Hex(0x4A824851, 0xC57E7E47, 0x643DE50C, 0x2AF3E8C9), Hex(0x7CCFF71C, 0xBEB4FE54,
      0x13E6BBF0, 0xD261A7DF), Hex(0xC14907F6, 0xCA3B3AA0, 0x70E9AA31, 0x3B52B5EC));
  }

  lemma State256B(sbox: SBox)
    requires Fips(sbox)
    ensures After(sbox, KEY256, INPUT, 11) == Hex(0x5F9C6ABF, 0xBAC634AA, 0x50409FA7, 0x66677653)
  {
    hide Line, W, After, RoundKey, Cipher;
    State256A(sbox);
    Line2565(sbox);
    KeyOfLines(sbox, KEY256, 11, 5, [Word(0x7CCFF71C), Word(0xBEB4FE54), Word(0x13E6BBF0), Word(0xD261A7DF),
      Word(0xF01AFAFE), Word(0xE7A82979), Word(0xD7A5644A), Word(0xB3AFE640)], [], 4);
    NextState(sbox, KEY256, 10, Hex(0xC14907F6, 0xCA3B3AA0, 0x70E9AA31, 0x3B52B5EC), Hex(0xF01AFAFE, 0xE7A82979,
      0xD7A5644A, 0xB3AFE640), Hex(0x5F9C6ABF, 0xBAC634AA, 0x50409FA7, 0x66677653));
  }

  lemma State256C(sbox: SBox)
    requires Fips(sbox)
    ensures After(sbox, KEY256, INPUT, 12) == Hex(0x51660495, 0x43539503, 0x14FB86E4, 0x01922521)
  {
    hide Line, W, After, RoundKey, Cipher;
    State256B(sbox);
    Line2566(sbox);
    KeyOfLines(sbox, KEY256, 12, 6, [Word(0x2541FE71), Word(0x9BF50025), Word(0x8813BBD5), Word(0x5A721C0A),
      Word(0x4E5A6699), Word(0xA9F24FE0), Word(0x7E572BAA), Word(0xCDF8CDEA)], [], 0);
    NextState(sbox, KEY256, 11, Hex(0x5F9C6ABF, 0xBAC634AA, 0x50409FA7, 0x66677653), Hex(0x2541FE71, 0x9BF50025,
      0x8813BBD5, 0x5A721C0A), Hex(0x51660495, 0x43539503, 0x14FB86E4, 0x01922521));
  }

  lemma State256D(sbox: SBox)
    requires Fips(sbox)
    ensures After(sbox, KEY256, INPUT, 13) == Hex(0x627BCEB9, 0x999D5AAA, 0xC945ECF4, 0x23F56DA5)
  {
    hide Line, W, After, RoundKey, Cipher;
    State256C(sbox);
    Line2566(sbox);
    KeyOfLines(sbox, KEY256, 13, 6, [Word(0x2541FE71), Word(0x9BF50025), Word(0x8813BBD5), Word(0x5A721C0A),
      Word(0x4E5A6699), Word(0xA9F24FE0), Word(0x7E572BAA), Word(0xCDF8CDEA)], [], 4);
    NextState(sbox, KEY256, 12, Hex(0x51660495, 0x43539503, 0x14FB86E4, 0x01922521), Hex(0x4E5A6699, 0xA9F24FE0,
      0x7E572BAA, 0xCDF8CDEA), Hex(0x627BCEB9, 0x999D5AAA, 0xC945ECF4, 0x23F56DA5));
  }

  /** The example of appendix C.3. */
  lemma Vector256(sbox: SBox)
    requires Fips(sbox)
    ensures Cipher(sbox, KEY256, INPUT) == Hex(0x8EA2B7CA, 0x516745BF, 0xEAFC4990, 0x4B496089)
  {
    hide Line, W, After, RoundKey, Cipher;
    State256D(sbox);
    Line2567(sbox);
    KeyOfLines(sbox, KEY256, 14, 7, [Word(0x24FC79CC), Word(0xBF0979E9), Word(0x371AC23C), Word(0x6D68DE36),
      Word(0x721F7B9C), Word(0xDBED347C), Word(0xA5BA1FD6), Word(0x6842D23C)], [], 0);
    LastState(sbox, KEY256, Hex(0x627BCEB9, 0x999D5AAA, 0xC945ECF4, 0x23F56DA5), Hex(0x24FC79CC, 0xBF0979E9,
      0x371AC23C, 0x6D68DE36), Hex(0x8EA2B7CA, 0x516745BF, 0xEAFC4990, 0x4B496089));
  }
}
