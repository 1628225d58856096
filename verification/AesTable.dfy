/** Rounds of the table-driven encryption routines: SubBytes, ShiftRows and MixColumns fused into one table whose
    entries are rotated. */
module AesTable {
  import opened AesSpec
  import opened AesWords

  type Table = t: seq<bv8> | |t| == 1024 witness seq(1024, _ => 0)

  /** Row b of the table. */
  function Row(t: Table, b: bv8): Column {
    var i := 4 * (b as int);
    Column(t[i], t[i + 1], t[i + 2], t[i + 3])
  }

  /** Every row is S, S, {03} S, {02} S. */
  ghost predicate RowsOf(t: Table, sbox: SBox) {
    forall b: bv8 :: Row(t, b) == var s := Sub(sbox, b); Column(s, s, Mul3(s), Xtime(s))
  }

  // ---------- What a byte of the state contributes to a column ----------

  function Mix0(s: bv8, last: bool): Column { if last then Column(s, 0, 0, 0) else Column(Xtime(s), s, s, Mul3(s)) }
  function Mix1(s: bv8, last: bool): Column { if last then Column(0, s, 0, 0) else Column(Mul3(s), Xtime(s), s, s) }
  function Mix2(s: bv8, last: bool): Column { if last then Column(0, 0, s, 0) else Column(s, Mul3(s), Xtime(s), s) }
  function Mix3(s: bv8, last: bool): Column { if last then Column(0, 0, 0, s) else Column(s, s, Mul3(s), Xtime(s)) }

  /** The last round leaves MixColumns out. */
  ghost function Mixed(c: Column, last: bool): Column {
    if last then c else MixColumn(c)
  }

  lemma MixedIsSum(c: Column, last: bool)
    ensures Mixed(c, last) ==
      Xor(Xor(Xor(Mix0(c.b0, last), Mix1(c.b1, last)), Mix2(c.b2, last)), Mix3(c.b3, last))
  {
    hide Xtime, Mul3, Add;
    AddZero(c.b0);
    AddZero(c.b1);
    AddZero(c.b2);
    AddZero(c.b3);
    AddZero(0);
  }

  lemma AddZero(b: bv8)
    ensures Add(b, 0) == b && Add(0, b) == b
  {
  }

  lemma XorLast(k: bv8, a: bv8, b: bv8, c: bv8, d: bv8)
    ensures Add(Add(Add(Add(k, a), b), c), d) == Add(Add(Add(Add(a, b), c), d), k)
  {
  }

  lemma XorKeyLast(k: Column, a: Column, b: Column, c: Column, d: Column)
    ensures Xor(Xor(Xor(Xor(k, a), b), c), d) == Xor(Xor(Xor(Xor(a, b), c), d), k)
  {
    hide Add;
    XorLast(k.b0, a.b0, b.b0, c.b0, d.b0);
    XorLast(k.b1, a.b1, b.b1, c.b1, d.b1);
    XorLast(k.b2, a.b2, b.b2, c.b2, d.b2);
    XorLast(k.b3, a.b3, b.b3, c.b3, d.b3);
  }

  function XorWords(k: Word, a: Word, b: Word, c: Word, d: Word): Word {
    XorWord(XorWord(XorWord(XorWord(k, a), b), c), d)
  }

  /** Four words combined with a key word, in whatever order the code adds them. */
  lemma BytesSum(k: Word, a: Word, b: Word, c: Word, d: Word)
    ensures Bytes(XorWords(k, a, b, c, d)) == Xor(Xor(Xor(Xor(Bytes(a), Bytes(b)), Bytes(c)), Bytes(d)), Bytes(k))
  {
    hide Bytes, Xor, XorWord;
    XorKeyLast(Bytes(k), Bytes(a), Bytes(b), Bytes(c), Bytes(d));
    BytesXor(k, a);
    BytesXor(XorWord(k, a), b);
    BytesXor(XorWord(XorWord(k, a), b), c);
    BytesXor(XorWord(XorWord(XorWord(k, a), b), c), d);
  }

  lemma MixedColumn(sbox: SBox, c: Column, last: bool, k: Word, p0: Word, p1: Word, p2: Word, p3: Word)
    requires Bytes(p0) == Mix0(Sub(sbox, c.b0), last) && Bytes(p1) == Mix1(Sub(sbox, c.b1), last)
    requires Bytes(p2) == Mix2(Sub(sbox, c.b2), last) && Bytes(p3) == Mix3(Sub(sbox, c.b3), last)
    ensures Bytes(XorWords(k, p0, p1, p2, p3)) == Xor(Mixed(SubWord(sbox, c), last), Bytes(k))
  {
    hide XorWords, Bytes, Sub, Mix0, Mix1, Mix2, Mix3, Mixed, Xor;
    BytesSum(k, p0, p1, p2, p3);
    MixedIsSum(SubWord(sbox, c), last);
  }

  lemma XorSwap(x: Word, a: Word, b: Word)
    ensures XorWord(XorWord(x, a), b) == XorWord(XorWord(x, b), a)
  {
    hide Bytes, Join, XorWord, Add;
    BytesXor(x, a);
    BytesXor(x, b);
    BytesXor(XorWord(x, a), b);
    BytesXor(XorWord(x, b), a);
    ColumnSwap(Bytes(x), Bytes(a), Bytes(b));
    JoinBytes(XorWord(XorWord(x, a), b));
    JoinBytes(XorWord(XorWord(x, b), a));
  }

  lemma ColumnSwap(x: Column, a: Column, b: Column)
    ensures Xor(Xor(x, a), b) == Xor(Xor(x, b), a)
  {
  }

  lemma XorRotate(k: Word, a: Word, b: Word, c: Word, d: Word)
    ensures XorWords(k, d, a, b, c) == XorWords(k, a, b, c, d)
  {
    hide XorWord;
    XorSwap(k, d, a);
    XorSwap(XorWord(k, a), d, b);
    XorSwap(XorWord(XorWord(k, a), b), d, c);
  }

  /** The code adds the four words to each column in a different order. */
  lemma XorOrder(k: Word, a: Word, b: Word, c: Word, d: Word)
    ensures XorWords(k, d, a, b, c) == XorWords(k, a, b, c, d)
    ensures XorWords(k, c, d, a, b) == XorWords(k, a, b, c, d)
    ensures XorWords(k, b, c, d, a) == XorWords(k, a, b, c, d)
  {
    hide XorWords;
    XorRotate(k, a, b, c, d);
    XorRotate(k, d, a, b, c);
    XorRotate(k, c, d, a, b);
  }

  /** The state the four words stand for. */
  function BlockOf(s0: Word, s1: Word, s2: Word, s3: Word): Block {
    Block(Bytes(s0), Bytes(s1), Bytes(s2), Bytes(s3))
  }

  function StateOf(state: array<Word>): Block
    requires state.Length == 4
    reads state
  {
    BlockOf(state[0], state[1], state[2], state[3])
  }

  ghost function RoundOrLast(sbox: SBox, s: Block, k: Block, last: bool): Block {
    if last then FinalRound(sbox, s, k) else Round(sbox, s, k)
  }

  /** One lookup per byte of a column. */
  method Lookup(t: Table, y: Word) returns (p0: Word, p1: Word, p2: Word, p3: Word)
    ensures var c := Bytes(y);
      Bytes(p0) == Row(t, c.b0) && Bytes(p1) == Row(t, c.b1) && Bytes(p2) == Row(t, c.b2) && Bytes(p3) == Row(t, c.b3)
  {
    hide Bytes, Join, Row;
    var b := Bytes(y);
    p0, p1, p2, p3 := Join(Row(t, b.b0)), Join(Row(t, b.b1)), Join(Row(t, b.b2)), Join(Row(t, b.b3));
    BytesJoin(Row(t, b.b0));
    BytesJoin(Row(t, b.b1));
    BytesJoin(Row(t, b.b2));
    BytesJoin(Row(t, b.b3));
  }

  /** The lookups of a column, rotated to where MixColumns wants them, or in the last round masked down to
      one byte each. */
  method LookupMasked(t: Table, y: Word, last: bool, ghost sbox: SBox)
    returns (p0: Word, p1: Word, p2: Word, p3: Word)
    requires RowsOf(t, sbox)
    ensures var c := Bytes(y);
      Bytes(p0) == Mix0(Sub(sbox, c.b0), last) && Bytes(p1) == Mix1(Sub(sbox, c.b1), last) &&
      Bytes(p2) == Mix2(Sub(sbox, c.b2), last) && Bytes(p3) == Mix3(Sub(sbox, c.b3), last)
  {
    hide Bytes, Row, Sub, Xtime, Mul3, RotUp8, Rot16, RotDown8;
    p0, p1, p2, p3 := Lookup(t, y);
    if last {
      BytesMask(p0);
      BytesMask(p1);
      BytesRot16(p2);
      BytesMask(Rot16(p2));
      BytesRotDown8(p3);
      BytesMask(RotDown8(p3));
      p0, p1, p2, p3 := p0 & 0xFF, p1 & 0xFF00, Rot16(p2) & 0xFF0000, RotDown8(p3) & 0xFF000000;
    } else {
      BytesRotUp8(p0);
      BytesRot16(p1);
      BytesRotDown8(p2);
      p0, p1, p2 := RotUp8(p0), Rot16(p1), RotDown8(p2);
    }
  }

  /** A round with the round key in k0 to k3. */
  method TableRound(t: Table, state: array<Word>, k0: Word, k1: Word, k2: Word, k3: Word, last: bool, ghost sbox: SBox)
    requires RowsOf(t, sbox) && state.Length == 4
    modifies state
    ensures StateOf(state) ==
      RoundOrLast(sbox, old(StateOf(state)), BlockOf(k0, k1, k2, k3), last)
  {
    hide XorWord, Bytes, Sub, RowsOf, Mix0, Mix1, Mix2, Mix3, Xor;
    var z0, z1, z2, z3 := k0, k1, k2, k3;
    var p0, p1, p2, p3 := LookupMasked(t, state[0], last, sbox);
    ghost var a0, a1, a2, a3 := p0, p1, p2, p3;
    z0, z3, z2, z1 := XorWord(z0, p0), XorWord(z3, p1), XorWord(z2, p2), XorWord(z1, p3);
    p0, p1, p2, p3 := LookupMasked(t, state[1], last, sbox);
    ghost var b0, b1, b2, b3 := p0, p1, p2, p3;
    z1, z0, z3, z2 := XorWord(z1, p0), XorWord(z0, p1), XorWord(z3, p2), XorWord(z2, p3);
    p0, p1, p2, p3 := LookupMasked(t, state[2], last, sbox);
    ghost var c0, c1, c2, c3 := p0, p1, p2, p3;
    z2, z1, z0, z3 := XorWord(z2, p0), XorWord(z1, p1), XorWord(z0, p2), XorWord(z3, p3);
    p0, p1, p2, p3 := LookupMasked(t, state[3], last, sbox);
    ghost var s := ShiftRows(StateOf(state));
    state[0], state[1], state[2], state[3] := XorWord(z0, p3), XorWord(z1, p2), XorWord(z2, p1), XorWord(z3, p0);
    XorOrder(k1, b0, c1, p2, a3);
    XorOrder(k2, c0, p1, a2, b3);
    XorOrder(k3, p0, a1, b2, c3);
    MixedColumn(sbox, s.c0, last, k0, a0, b1, c2, p3);
    MixedColumn(sbox, s.c1, last, k1, b0, c1, p2, a3);
    MixedColumn(sbox, s.c2, last, k2, c0, p1, a2, b3);
    MixedColumn(sbox, s.c3, last, k3, p0, a1, b2, c3);
  }

  /** sub_byte: every byte replaced by the first byte of its row. */
  method SubBytesOf(t: Table, w: Word, ghost sbox: SBox) returns (r: Word)
    requires RowsOf(t, sbox)
    ensures Bytes(r) == SubWord(sbox, Bytes(w))
  {
    hide Bytes, Join, Sub, Mul3, Xtime;
    var b := Bytes(w);
    var c := Column(t[4 * (b.b0 as int)], t[4 * (b.b1 as int)], t[4 * (b.b2 as int)], t[4 * (b.b3 as int)]);
    BytesJoin(c);
    assert Row(t, b.b0).b0 == c.b0 && Row(t, b.b1).b0 == c.b1 && Row(t, b.b2).b0 == c.b2 && Row(t, b.b3).b0 == c.b3;
    r := Join(c);
  }

  /** The state seen as 16 bytes. */
  function BytesOf(state: array<Word>): (a: seq<bv8>)
    requires state.Length == 4
    reads state
    ensures |a| == 16
  {
    var c0, c1, c2, c3 := Bytes(state[0]), Bytes(state[1]), Bytes(state[2]), Bytes(state[3]);
    [c0.b0, c0.b1, c0.b2, c0.b3, c1.b0, c1.b1, c1.b2, c1.b3, c2.b0, c2.b1, c2.b2, c2.b3, c3.b0, c3.b1, c3.b2, c3.b3]
  }

  /** The last round: the S-box alone, then the key. */
  method LastRound(t: Table, state: array<Word>, k0: Word, k1: Word, k2: Word, k3: Word, ghost sbox: SBox)
    requires RowsOf(t, sbox) && state.Length == 4
    modifies state
    ensures StateOf(state) ==
      FinalRound(sbox, old(StateOf(state)), BlockOf(k0, k1, k2, k3))
  {
    hide Bytes, Join, RowsOf, Sub;
    var a := BytesOf(state);
    var w0 := KeyedColumn(t, Column(a[0], a[5], a[10], a[15]), k0, sbox);
    var w1 := KeyedColumn(t, Column(a[4], a[9], a[14], a[3]), k1, sbox);
    var w2 := KeyedColumn(t, Column(a[8], a[13], a[2], a[7]), k2, sbox);
    var w3 := KeyedColumn(t, Column(a[12], a[1], a[6], a[11]), k3, sbox);
    state[0], state[1], state[2], state[3] := w0, w1, w2, w3;
  }

  /** Bytes of the key word, each combined with a looked-up byte. */
  method KeyedColumn(t: Table, a: Column, k: Word, ghost sbox: SBox) returns (r: Word)
    requires RowsOf(t, sbox)
    ensures Bytes(r) == Xor(SubWord(sbox, a), Bytes(k))
  {
    hide Bytes, Join, Sub, Mul3, Xtime, Add;
    var b := Bytes(k);
    assert Row(t, a.b0).b0 == t[4 * (a.b0 as int)] && Row(t, a.b1).b0 == t[4 * (a.b1 as int)];
    assert Row(t, a.b2).b0 == t[4 * (a.b2 as int)] && Row(t, a.b3).b0 == t[4 * (a.b3 as int)];
    AddCommutes(b, SubWord(sbox, a));
    b := Column(Add(b.b0, t[4 * (a.b0 as int)]), Add(b.b1, t[4 * (a.b1 as int)]),
                Add(b.b2, t[4 * (a.b2 as int)]), Add(b.b3, t[4 * (a.b3 as int)]));
    BytesJoin(b);
    r := Join(b);
  }

  lemma AddCommutes(a: Column, b: Column)
    ensures Xor(a, b) == Xor(b, a)
  {
  }
}
