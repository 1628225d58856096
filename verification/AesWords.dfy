/** Words as the program holds them: 32 bits, least significant byte first in memory. */
module AesWords {
  import opened AesSpec

  type Word = bv32

  /** The bytes of a word in memory order. */
  function Bytes(w: Word): Column {
    Column((w & 0xFF) as bv8, ((w >> 8) & 0xFF) as bv8, ((w >> 16) & 0xFF) as bv8, (w >> 24) as bv8)
  }

  function Join(c: Column): Word {
    (c.b0 as Word) | (c.b1 as Word << 8) | (c.b2 as Word << 16) | (c.b3 as Word << 24)
  }

  function XorWord(a: Word, b: Word): Word {
    a ^ b
  }

  function RotUp8(x: Word): Word {
    (x << 8) | (x >> 24)
  }

  function Rot16(x: Word): Word {
    (x << 16) | (x >> 16)
  }

  function RotDown8(x: Word): Word {
    (x >> 8) | (x << 24)
  }

  lemma BytesJoin(c: Column)
    ensures Bytes(Join(c)) == c
  {
  }

  lemma JoinBytes(w: Word)
    ensures Join(Bytes(w)) == w
  {
  }

  lemma BytesOfByte(b: bv8)
    ensures Bytes(b as Word) == Column(b, 0, 0, 0)
  {
  }

  lemma BytesXor(a: Word, b: Word)
    ensures Bytes(XorWord(a, b)) == Xor(Bytes(a), Bytes(b))
  {
  }

  lemma BytesRotUp8(x: Word)
    ensures var c := Bytes(x); Bytes(RotUp8(x)) == Column(c.b3, c.b0, c.b1, c.b2)
  {
  }

  lemma BytesRot16(x: Word)
    ensures var c := Bytes(x); Bytes(Rot16(x)) == Column(c.b2, c.b3, c.b0, c.b1)
  {
  }

  lemma BytesRotDown8(x: Word)
    ensures Bytes(RotDown8(x)) == RotWord(Bytes(x))
  {
  }

  lemma BytesMask(x: Word)
    ensures var c := Bytes(x);
      Bytes(x & 0xFF) == Column(c.b0, 0, 0, 0) && Bytes(x & 0xFF00) == Column(0, c.b1, 0, 0) &&
      Bytes(x & 0xFF0000) == Column(0, 0, c.b2, 0) && Bytes(x & 0xFF000000) == Column(0, 0, 0, c.b3)
  {
  }

  /** The byte as a signed char, shifted left and folded back. */
  function NextRcon(r: bv8): bv8 {
    var j: Word := if r & 0x80 != 0 then 0xFFFFFF00 | (r as Word) else r as Word;
    var j' := j << 1;
    var high := (j' >> 8) | (if j' & 0x80000000 != 0 then 0xFF000000 else 0);
    ((j' ^ (high & 0x1B)) & 0xFF) as bv8
  }

  lemma NextRconIsXtime(r: bv8)
    ensures NextRcon(r) == Xtime(r)
  {
  }
}
