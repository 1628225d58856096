/** What the steps of the cipher do to a byte of the state, as FIPS 197 states it (sections 4 and 5), and the first
    round of its worked example (appendix B). */
module AesLaws {
  import opened AesSpec
  import AesVectors

  /** Row r of a column. */
  function Row(c: Column, r: nat): bv8
    requires r < 4
  {
    if r == 0 then c.b0 else if r == 1 then c.b1 else if r == 2 then c.b2 else c.b3
  }

  /** Column c of the state. */
  function ColumnOf(s: Block, c: nat): Column
    requires c < 4
  {
    if c == 0 then s.c0 else if c == 1 then s.c1 else if c == 2 then s.c2 else s.c3
  }

  /** The byte of the state in row r and column c. */
  function Byte(s: Block, r: nat, c: nat): bv8
    requires r < 4 && c < 4
  {
    Row(ColumnOf(s, c), r)
  }

  // ---------- The field (section 4.2) ----------

  /** One term of a product of polynomials over GF(2): bit i of b times x^i times a. */
  function Term(a: bv8, b: bv8, i: bv4): bv16 {
    if ((b as bv16) >> i) & 1 == 1 then (a as bv16) << i else 0
  }

  /** The product of two polynomials over GF(2). */
  function Product(a: bv8, b: bv8): bv16 {
    Term(a, b, 0) ^ Term(a, b, 1) ^ Term(a, b, 2) ^ Term(a, b, 3)
      ^ Term(a, b, 4) ^ Term(a, b, 5) ^ Term(a, b, 6) ^ Term(a, b, 7)
  }

  /** Without the term x^(8 + k), by a multiple of x^8 + x^4 + x^3 + x + 1. */
  function Without(p: bv16, k: bv4): bv16 {
    if (p >> (8 + k)) & 1 == 1 then p ^ (0x11B << k) else p
  }

  /** The remainder modulo x^8 + x^4 + x^3 + x + 1. */
  function Remainder(p: bv16): bv16 {
    Without(Without(Without(Without(Without(Without(Without(p, 6), 5), 4), 3), 2), 1), 0)
  }

  function Mul(a: bv8, b: bv8): bv8 {
    (Remainder(Product(a, b)) & 0xFF) as bv8
  }

  /** Xtime multiplies by x and Mul3 by x + 1. */
  lemma XtimeLaw(b: bv8)
    ensures Mul(b, 0x01) == b && Mul(b, 0x02) == Xtime(b) && Mul(b, 0x03) == Mul3(b)
  {
    hide Mul, Xtime, Mul3;
    TimesOne(b);
    TimesTwo(b);
    TimesThree(b);
  }

  lemma LowRemainder(p: bv16)
    requires p < 0x200
    ensures Remainder(p) == Without(p, 0)
  {
  }

  lemma TimesOne(b: bv8)
    ensures Mul(b, 0x01) == b
  {
    assert Product(b, 0x01) == b as bv16;
  }

  lemma TimesTwo(b: bv8)
    ensures Mul(b, 0x02) == Xtime(b)
  {
    hide Remainder;
    assert Product(b, 0x02) == (b as bv16) << 1;
    LowRemainder(Product(b, 0x02));
  }

  lemma TimesThree(b: bv8)
    ensures Mul(b, 0x03) == Mul3(b)
  {
    hide Remainder;
    assert Product(b, 0x03) == (b as bv16) ^ ((b as bv16) << 1);
    LowRemainder(Product(b, 0x03));
  }

  /** The product worked out in section 4.2. */
  lemma ProductExample()
    ensures Product(0x57, 0x83) == 0x2B79 && Mul(0x57, 0x83) == 0xC1
  {
    assert Product(0x57, 0x83) == 0x2B79;
  }

  // ---------- The steps (section 5.1) ----------

  lemma SubBytesLaw(sbox: SBox, s: Block, r: nat, c: nat)
    requires r < 4 && c < 4
    ensures Byte(SubBytes(sbox, s), r, c) == sbox[Byte(s, r, c) as int]
  {
  }

  lemma ShiftRowsLaw(s: Block, r: nat, c: nat)
    requires r < 4 && c < 4
    ensures Byte(ShiftRows(s), r, c) == Byte(s, r, (c + r) % 4)
  {
  }

  lemma SumLaw(a: bv8, b: bv8, c: bv8, d: bv8)
    ensures Sum(a, b, c, d) == a ^ b ^ c ^ d
  {
  }

  /** The coefficients of {03}x^3 + {01}x^2 + {01}x + {02}. */
  const MIX: seq<bv8> := [0x02, 0x01, 0x01, 0x03]

  /** The coefficient of x^i in the product of two polynomials over the field, modulo x^4 + 1. */
  function Coefficient(a: seq<bv8>, c: Column, i: nat): bv8
    requires |a| == 4 && i < 4
  {
    Sum(Mul(c.b0, a[i]), Mul(c.b1, a[(i + 3) % 4]), Mul(c.b2, a[(i + 2) % 4]), Mul(c.b3, a[(i + 1) % 4]))
  }

  lemma MixColumnLaw(col: Column, r: nat)
    requires r < 4
    ensures Row(MixColumn(col), r) == Coefficient(MIX, col, r)
  {
    hide Mul, Xtime, Mul3, Sum, Coefficient;
    CoefficientOfMix(col, r);
    XtimeLaw(col.b0);
    XtimeLaw(col.b1);
    XtimeLaw(col.b2);
    XtimeLaw(col.b3);
  }

  /** The rows of the matrix of section 5.1.3. */
  lemma CoefficientOfMix(c: Column, r: nat)
    requires r < 4
    ensures Coefficient(MIX, c, r)
      == if r == 0 then Sum(Mul(c.b0, 2), Mul(c.b1, 3), Mul(c.b2, 1), Mul(c.b3, 1))
         else if r == 1 then Sum(Mul(c.b0, 1), Mul(c.b1, 2), Mul(c.b2, 3), Mul(c.b3, 1))
         else if r == 2 then Sum(Mul(c.b0, 1), Mul(c.b1, 1), Mul(c.b2, 2), Mul(c.b3, 3))
         else Sum(Mul(c.b0, 3), Mul(c.b1, 1), Mul(c.b2, 1), Mul(c.b3, 2))
  {
    hide Mul, Sum;
  }

  lemma MixColumnsLaw(s: Block, r: nat, c: nat)
    requires r < 4 && c < 4
    ensures Byte(MixColumns(s), r, c) == Coefficient(MIX, ColumnOf(s, c), r)
  {
    hide MixColumn, Coefficient, Row;
    MixColumnLaw(ColumnOf(s, c), r);
  }

  lemma AddRoundKeyLaw(s: Block, k: Block, r: nat, c: nat)
    requires r < 4 && c < 4
    ensures Byte(AddRoundKey(s, k), r, c) == Byte(s, r, c) ^ Byte(k, r, c)
  {
    hide Xor, Row;
    XorLaw(ColumnOf(s, c), ColumnOf(k, c), r);
  }

  lemma XorLaw(a: Column, b: Column, r: nat)
    requires r < 4
    ensures Row(Xor(a, b), r) == Row(a, r) ^ Row(b, r)
  {
    hide Add;
    assert Row(Xor(a, b), r) == Add(Row(a, r), Row(b, r));
    AddLaw(Row(a, r), Row(b, r));
  }

  lemma AddLaw(a: bv8, b: bv8)
    ensures Add(a, b) == a ^ b
  {
  }

  /** A whole round, byte by byte. */
  lemma RoundLaw(sbox: SBox, s: Block, k: Block, r: nat, c: nat)
    requires r < 4 && c < 4
    ensures var col := Column(sbox[Byte(s, 0, c) as int], sbox[Byte(s, 1, (c + 1) % 4) as int],
                              sbox[Byte(s, 2, (c + 2) % 4) as int], sbox[Byte(s, 3, (c + 3) % 4) as int]);
      Byte(Round(sbox, s, k), r, c) == Coefficient(MIX, col, r) ^ Byte(k, r, c)
  {
    hide Byte, Coefficient, SubBytes, ShiftRows, MixColumns, AddRoundKey;
    var t := SubBytes(sbox, s);
    var u := ShiftRows(t);
    AddRoundKeyLaw(MixColumns(u), k, r, c);
    MixColumnsLaw(u, r, c);
    BytesOf(u, c);
    ShiftRowsLaw(t, 0, c);
    ShiftRowsLaw(t, 1, c);
    ShiftRowsLaw(t, 2, c);
    ShiftRowsLaw(t, 3, c);
    SubBytesLaw(sbox, s, 0, c);
    SubBytesLaw(sbox, s, 1, (c + 1) % 4);
    SubBytesLaw(sbox, s, 2, (c + 2) % 4);
    SubBytesLaw(sbox, s, 3, (c + 3) % 4);
  }

  lemma BytesOf(s: Block, c: nat)
    requires c < 4
    ensures ColumnOf(s, c) == Column(Byte(s, 0, c), Byte(s, 1, c), Byte(s, 2, c), Byte(s, 3, c))
  {
  }

  // ---------- The key expansion (section 5.2) ----------

  lemma RotWordLaw(w: Column, r: nat)
    requires r < 4
    ensures Row(RotWord(w), r) == Row(w, (r + 1) % 4)
  {
  }

  /** The round constants are the powers of x. */
  lemma RconLaw(i: nat)
    requires i > 0
    ensures Rcon(1) == 0x01 && Rcon(i + 1) == Mul(Rcon(i), 0x02)
  {
    hide Mul, Xtime;
    XtimeLaw(Rcon(i));
  }

  // ---------- The worked example (appendix B) ----------

  /** Round 1, step by step. */
  lemma RoundExample(sbox: SBox)
    requires AesVectors.Fips(sbox)
    ensures SubBytes(sbox, AesVectors.Hex(0x193DE3BE, 0xA0F4E22B, 0x9AC68D2A, 0xE9F84808))
      == AesVectors.Hex(0xD42711AE, 0xE0BF98F1, 0xB8B45DE5, 0x1E415230)
    ensures ShiftRows(AesVectors.Hex(0xD42711AE, 0xE0BF98F1, 0xB8B45DE5, 0x1E415230))
      == AesVectors.Hex(0xD4BF5D30, 0xE0B452AE, 0xB84111F1, 0x1E2798E5)
    ensures MixColumns(AesVectors.Hex(0xD4BF5D30, 0xE0B452AE, 0xB84111F1, 0x1E2798E5))
      == AesVectors.Hex(0x046681E5, 0xE0CB199A, 0x48F8D37A, 0x2806264C)
    ensures AddRoundKey(AesVectors.Hex(0x046681E5, 0xE0CB199A, 0x48F8D37A, 0x2806264C),
                        AesVectors.Hex(0xA0FAFE17, 0x88542CB1, 0x23A33939, 0x2A6C7605))
      == AesVectors.Hex(0xA49C7FF2, 0x689F352B, 0x6B5BEA43, 0x026A5049)
  {
  }
}
