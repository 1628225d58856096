/** The AES cipher of FIPS 197, over an S-box given by its 256 entries. */
module AesSpec {
  /** Four bytes: a word of the key schedule, or a column of the state. */
  datatype Column = Column(b0: bv8, b1: bv8, b2: bv8, b3: bv8)

  datatype Block = Block(c0: Column, c1: Column, c2: Column, c3: Column)

  type SBox = s: seq<bv8> | |s| == 256 witness seq(256, _ => 0)

  /** Addition in the field (section 4.1). */
  function Add(a: bv8, b: bv8): bv8 {
    a ^ b
  }

  /** Multiplication by {02} (section 4.2.1). */
  function Xtime(b: bv8): bv8 {
    if b & 0x80 != 0 then (b << 1) ^ 0x1B else b << 1
  }

  /** Multiplication by {03}. */
  function Mul3(b: bv8): bv8 {
    Add(Xtime(b), b)
  }

  function Xor(a: Column, b: Column): Column {
    Column(Add(a.b0, b.b0), Add(a.b1, b.b1), Add(a.b2, b.b2), Add(a.b3, b.b3))
  }

  function Sub(sbox: SBox, b: bv8): bv8 {
    sbox[b as int]
  }

  function SubWord(sbox: SBox, c: Column): Column {
    Column(Sub(sbox, c.b0), Sub(sbox, c.b1), Sub(sbox, c.b2), Sub(sbox, c.b3))
  }

  function RotWord(c: Column): Column {
    Column(c.b1, c.b2, c.b3, c.b0)
  }

  // ---------- The cipher (section 5.1) ----------

  function SubBytes(sbox: SBox, s: Block): Block {
    Block(SubWord(sbox, s.c0), SubWord(sbox, s.c1), SubWord(sbox, s.c2), SubWord(sbox, s.c3))
  }

  /** Row r is rotated left by r columns. */
  function ShiftRows(s: Block): Block {
    Block(Column(s.c0.b0, s.c1.b1, s.c2.b2, s.c3.b3), Column(s.c1.b0, s.c2.b1, s.c3.b2, s.c0.b3),
          Column(s.c2.b0, s.c3.b1, s.c0.b2, s.c1.b3), Column(s.c3.b0, s.c0.b1, s.c1.b2, s.c2.b3))
  }

  function Sum(a: bv8, b: bv8, c: bv8, d: bv8): bv8 {
    Add(Add(Add(a, b), c), d)
  }

  function MixColumn(c: Column): Column {
    Column(Sum(Xtime(c.b0), Mul3(c.b1), c.b2, c.b3), Sum(c.b0, Xtime(c.b1), Mul3(c.b2), c.b3),
           Sum(c.b0, c.b1, Xtime(c.b2), Mul3(c.b3)), Sum(Mul3(c.b0), c.b1, c.b2, Xtime(c.b3)))
  }

  function MixColumns(s: Block): Block {
    Block(MixColumn(s.c0), MixColumn(s.c1), MixColumn(s.c2), MixColumn(s.c3))
  }

  function AddRoundKey(s: Block, k: Block): Block {
    Block(Xor(s.c0, k.c0), Xor(s.c1, k.c1), Xor(s.c2, k.c2), Xor(s.c3, k.c3))
  }

  function Round(sbox: SBox, s: Block, k: Block): Block {
    AddRoundKey(MixColumns(ShiftRows(SubBytes(sbox, s))), k)
  }

  function FinalRound(sbox: SBox, s: Block, k: Block): Block {
    AddRoundKey(ShiftRows(SubBytes(sbox, s)), k)
  }

  // ---------- The key expansion (section 5.2) ----------

  /** Powers of {02}: the first byte of the round constant, counted from 1. */
  function Rcon(i: nat): bv8
    requires i > 0
  {
    if i == 1 then 1 else Xtime(Rcon(i - 1))
  }

  /** Word i of the key schedule of a key of 4, 6 or 8 words. */
  function W(sbox: SBox, key: seq<Column>, i: nat): Column
    requires |key| in {4, 6, 8}
  {
    var nk := |key|;
    if i < nk then key[i]
    else
      var temp := W(sbox, key, i - 1);
      var temp' :=
        if i % nk == 0 then Xor(SubWord(sbox, RotWord(temp)), Column(Rcon(i / nk), 0, 0, 0))
        else if nk > 6 && i % nk == 4 then SubWord(sbox, temp)
        else temp;
      Xor(W(sbox, key, i - nk), temp')
  }

  function RoundKey(sbox: SBox, key: seq<Column>, r: nat): Block
    requires |key| in {4, 6, 8}
  {
    Block(W(sbox, key, 4 * r), W(sbox, key, 4 * r + 1), W(sbox, key, 4 * r + 2), W(sbox, key, 4 * r + 3))
  }

  /** The state after the first key addition and r rounds. */
  function After(sbox: SBox, key: seq<Column>, input: Block, r: nat): Block
    requires |key| in {4, 6, 8}
  {
    if r == 0 then AddRoundKey(input, RoundKey(sbox, key, 0))
    else Round(sbox, After(sbox, key, input, r - 1), RoundKey(sbox, key, r))
  }

  /** Nr is 10, 12 or 14 for keys of 4, 6 or 8 words; the last round has no MixColumns. */
  function Cipher(sbox: SBox, key: seq<Column>, input: Block): Block
    requires |key| in {4, 6, 8}
  {
    var nr := |key| + 6;
    FinalRound(sbox, After(sbox, key, input, nr - 1), RoundKey(sbox, key, nr))
  }
}
