/** The CRC32C checksum (RFC 3720, section 12.1 and appendix B.4): polynomial 0x1EDC6F41, bits reflected. */
module Crc32c {
  /** One bit of division by the reflected polynomial. */
  function CrcBit(crc: bv32): bv32 {
    if Odd(crc) then Reduce(Half(crc)) else Half(crc)
  }

  predicate Odd(x: bv32) {
    x & 1 != 0
  }

  function Half(x: bv32): bv32 {
    x >> 1
  }

  function Reduce(x: bv32): bv32 {
    x ^ 0x82F63B78
  }

  function CrcBits(crc: bv32, n: nat): bv32
    decreases n
  {
    if n == 0 then crc else CrcBits(CrcBit(crc), n - 1)
  }

  function CrcByte(crc: bv32, b: bv8): bv32 {
    CrcBits(AddByte(crc, b), 8)
  }

  function AddByte(crc: bv32, b: bv8): bv32 {
    crc ^ (b as bv32)
  }

  /** The checksum register after some bytes. */
  function Crc(crc: bv32, data: seq<bv8>): bv32 {
    if data == [] then crc else CrcByte(Crc(crc, data[..|data| - 1]), data[|data| - 1])
  }

  lemma CrcNone(crc: bv32, data: seq<bv8>)
    ensures Crc(crc, data[..0]) == crc
  {
  }

  /** The checksum of bytes in two pieces. */
  lemma {:induction false} CrcConcat(crc: bv32, a: seq<bv8>, b: seq<bv8>)
    ensures Crc(crc, a + b) == Crc(Crc(crc, a), b)
  {
    hide CrcByte;
    if b == [] {
      assert a + b == a;
    } else {
      var b' := b[..|b| - 1];
      assert (a + b)[..|a + b| - 1] == a + b';
      CrcConcat(crc, a, b');
    }
  }

  // ---------- What the checksum detects ----------

  /** Undoes one bit of division: the polynomial has its top bit set. */
  function UndoBit(crc: bv32): bv32 {
    if High(crc) then Double(Reduce(crc)) | 1 else Double(crc)
  }

  predicate High(x: bv32) {
    x & 0x8000_0000 != 0
  }

  function Double(x: bv32): bv32 {
    x << 1
  }

  lemma UndoCrcBit(crc: bv32)
    ensures UndoBit(CrcBit(crc)) == crc
  {
    hide Odd, Half, Reduce, High, Double;
    HalfFacts(crc);
    ReduceFacts(Half(crc));
  }

  lemma HalfFacts(x: bv32)
    ensures !High(Half(x)) && if Odd(x) then Double(Half(x)) | 1 == x else Double(Half(x)) == x
  {
  }

  lemma ReduceFacts(x: bv32)
    requires !High(x)
    ensures High(Reduce(x)) && Reduce(Reduce(x)) == x
  {
  }

  lemma {:induction false} CrcBitsInjective(x: bv32, y: bv32, n: nat)
    requires CrcBits(x, n) == CrcBits(y, n)
    ensures x == y
    decreases n
  {
    hide CrcBit, UndoBit;
    if n > 0 {
      CrcBitsInjective(CrcBit(x), CrcBit(y), n - 1);
      UndoCrcBit(x);
      UndoCrcBit(y);
    }
  }

  lemma UndoAddByte(crc: bv32, b: bv8)
    ensures AddByte(AddByte(crc, b), b) == crc
  {
  }

  /** Equal checksums of the same bytes come from equal registers. */
  lemma {:induction false} CrcInjective(x: bv32, y: bv32, data: seq<bv8>)
    requires Crc(x, data) == Crc(y, data)
    ensures x == y
  {
    hide CrcBits, AddByte;
    if data != [] {
      var rest, b := data[..|data| - 1], data[|data| - 1];
      CrcBitsInjective(AddByte(Crc(x, rest), b), AddByte(Crc(y, rest), b), 8);
      UndoAddByte(Crc(x, rest), b);
      UndoAddByte(Crc(y, rest), b);
      CrcInjective(x, y, rest);
    }
  }

  // ---------- Several bytes at once ----------

  function AddWord(crc: bv32, w: bv32): bv32 {
    crc ^ w
  }

  /** b below the bytes of w. */
  function Push(b: bv8, w: bv32): bv32 {
    (b as bv32) | (w << 8)
  }

  /** The word with the given low bytes. */
  function WordOf(b: seq<bv8>): (w: bv32)
    requires |b| <= 4
    ensures |b| <= 3 ==> w & 0xFF00_0000 == 0
    ensures |b| <= 2 ==> w & 0xFFFF_0000 == 0
    ensures |b| <= 1 ==> w & 0xFFFF_FF00 == 0
  {
    if b == [] then 0 else Push(b[0], WordOf(b[1..]))
  }

  lemma PushInjective(a: bv8, v: bv32, b: bv8, w: bv32)
    requires v & 0xFF00_0000 == 0 && w & 0xFF00_0000 == 0 && Push(a, v) == Push(b, w)
    ensures a == b && v == w
  {
  }

  lemma {:induction false} WordOfInjective(a: seq<bv8>, b: seq<bv8>)
    requires |a| == |b| <= 4 && WordOf(a) == WordOf(b)
    ensures a == b
  {
    hide Push;
    if a != [] {
      PushInjective(a[0], WordOf(a[1..]), b[0], WordOf(b[1..]));
      WordOfInjective(a[1..], b[1..]);
      assert a == [a[0]] + a[1..] && b == [b[0]] + b[1..];
    }
  }

  lemma HalfOfSum(x: bv32, w: bv32)
    requires !High(w)
    ensures Odd(AddWord(x, Double(w))) == Odd(x) && Half(AddWord(x, Double(w))) == AddWord(Half(x), w)
  {
  }

  lemma ReduceOfSum(x: bv32, w: bv32)
    ensures Reduce(AddWord(x, w)) == AddWord(Reduce(x), w)
  {
  }

  /** A bit of division leaves the bits above the lowest to be added afterwards. */
  lemma CrcBitOfSum(x: bv32, w: bv32)
    requires !High(w)
    ensures CrcBit(AddWord(x, Double(w))) == AddWord(CrcBit(x), w)
  {
    hide Odd, Half, Reduce, High, Double, AddWord;
    HalfOfSum(x, w);
    ReduceOfSum(Half(x), w);
  }

  function Doubled(w: bv32, n: nat): bv32 {
    if n == 0 then w else Double(Doubled(w, n - 1))
  }

  ghost predicate Room(w: bv32, n: nat) {
    n == 0 || (!High(Doubled(w, n - 1)) && Room(w, n - 1))
  }

  lemma {:induction false} CrcBitsOfSum(x: bv32, w: bv32, n: nat)
    requires Room(w, n)
    ensures CrcBits(AddWord(x, Doubled(w, n)), n) == AddWord(CrcBits(x, n), w)
    decreases n
  {
    hide CrcBit, High, Double, AddWord;
    if n > 0 {
      CrcBitOfSum(x, Doubled(w, n - 1));
      CrcBitsOfSum(CrcBit(x), w, n - 1);
    }
  }

  lemma {:induction false} CrcBitsInTurn(x: bv32, n: nat, m: nat)
    ensures CrcBits(CrcBits(x, n), m) == CrcBits(x, n + m)
    decreases n
  {
    hide CrcBit;
    if n > 0 { CrcBitsInTurn(CrcBit(x), n - 1, m); }
  }

  lemma PushIsSum(crc: bv32, b: bv8, w: bv32)
    requires w & 0xFF00_0000 == 0
    ensures AddWord(crc, Push(b, w)) == AddWord(AddByte(crc, b), w << 8)
  {
    hide AddWord, AddByte, Push;
    PushIsXor(crc, b, w);
    XorInTurn(crc, b as bv32, w << 8);
  }

  lemma PushIsXor(crc: bv32, b: bv8, w: bv32)
    ensures Push(b, w) == AddWord(b as bv32, w << 8) && AddByte(crc, b) == AddWord(crc, b as bv32)
  {
  }

  lemma XorInTurn(x: bv32, y: bv32, z: bv32)
    ensures AddWord(x, AddWord(y, z)) == AddWord(AddWord(x, y), z)
  {
  }

  lemma DoubleShifts(w: bv32)
    ensures Double(w) == w << 1 && Double(w << 1) == w << 2 && Double(w << 2) == w << 3 && Double(w << 3) == w << 4
    ensures Double(w << 4) == w << 5 && Double(w << 5) == w << 6 && Double(w << 6) == w << 7 && Double(w << 7) == w << 8
  {
  }

  lemma ShiftsNotHigh(w: bv32)
    requires w & 0xFF00_0000 == 0
    ensures !High(w) && !High(w << 1) && !High(w << 2) && !High(w << 3)
    ensures !High(w << 4) && !High(w << 5) && !High(w << 6) && !High(w << 7)
  {
  }

  lemma DoubledOnce(w: bv32, n: nat)
    ensures Doubled(w, 0) == w && Doubled(w, n + 1) == Double(Doubled(w, n))
  {
    hide Double;
  }

  lemma OneRoom(w: bv32, n: nat)
    requires Room(w, n) && !High(Doubled(w, n))
    ensures Room(w, n + 1)
  {
    hide High, Doubled;
  }

  lemma EightDoubled(w: bv32)
    ensures Doubled(w, 0) == w && Doubled(w, 1) == w << 1 && Doubled(w, 2) == w << 2 && Doubled(w, 3) == w << 3
    ensures Doubled(w, 4) == w << 4 && Doubled(w, 5) == w << 5 && Doubled(w, 6) == w << 6 && Doubled(w, 7) == w << 7
    ensures Doubled(w, 8) == w << 8
  {
    hide Double, Doubled;
    DoubleShifts(w);
    DoubledOnce(w, 0);
    DoubledOnce(w, 1);
    DoubledOnce(w, 2);
    DoubledOnce(w, 3);
    DoubledOnce(w, 4);
    DoubledOnce(w, 5);
    DoubledOnce(w, 6);
    DoubledOnce(w, 7);
  }

  /** A word below 2^24 can be doubled eight times. */
  lemma EightRooms(w: bv32)
    requires w & 0xFF00_0000 == 0
    ensures Doubled(w, 8) == w << 8 && Room(w, 8)
  {
    assert Room(w, 0);
    hide High, Double, Doubled, Room;
    EightDoubled(w);
    ShiftsNotHigh(w);
    OneRoom(w, 0);
    OneRoom(w, 1);
    OneRoom(w, 2);
    OneRoom(w, 3);
    OneRoom(w, 4);
    OneRoom(w, 5);
    OneRoom(w, 6);
    OneRoom(w, 7);
  }

  /** Up to four bytes can be added to the register at once. */
  lemma {:induction false} CrcOfWord(crc: bv32, b: seq<bv8>)
    requires |b| <= 4
    ensures Crc(crc, b) == CrcBits(AddWord(crc, WordOf(b)), 8 * |b|)
    decreases |b|
  {
    hide CrcBits, Push, AddByte, Doubled, AddWord;
    if b == [] {
      NoBits(crc);
    } else {
      var w, n := WordOf(b[1..]), 8 * |b[1..]|;
      CrcConcat(crc, b[..1], b[1..]);
      assert b[..1] + b[1..] == b && b[..1][..0] == [];
      CrcOfWord(CrcByte(crc, b[0]), b[1..]);
      EightRooms(w);
      CrcBitsOfSum(AddByte(crc, b[0]), w, 8);
      PushIsSum(crc, b[0], w);
      CrcBitsInTurn(AddWord(crc, Push(b[0], w)), 8, n);
    }
  }

  lemma NoBits(crc: bv32)
    ensures CrcBits(AddWord(crc, 0), 0) == crc
  {
  }

  /** Every change confined to four consecutive bytes changes the checksum. */
  lemma BurstDetected(crc: bv32, pre: seq<bv8>, a: seq<bv8>, b: seq<bv8>, post: seq<bv8>)
    requires |a| == |b| <= 4 && a != b
    ensures Crc(crc, pre + a + post) != Crc(crc, pre + b + post)
  {
    hide CrcBits, CrcByte, AddWord, WordOf, Crc;
    var c := Crc(crc, pre);
    CrcConcat(crc, pre + a, post);
    CrcConcat(crc, pre + b, post);
    CrcConcat(crc, pre, a);
    CrcConcat(crc, pre, b);
    if Crc(crc, pre + a + post) == Crc(crc, pre + b + post) {
      CrcInjective(Crc(c, a), Crc(c, b), post);
      CrcOfWord(c, a);
      CrcOfWord(c, b);
      CrcBitsInjective(AddWord(c, WordOf(a)), AddWord(c, WordOf(b)), 8 * |a|);
      AddWordApart(c, WordOf(a), WordOf(b));
      WordOfInjective(a, b);
    }
  }

  lemma AddWordApart(crc: bv32, v: bv32, w: bv32)
    requires AddWord(crc, v) == AddWord(crc, w)
    ensures v == w
  {
  }

  // ---------- Known values ----------

  /** Eight bits of division written out. */
  function CrcEight(x: bv32): bv32 {
    CrcBit(CrcBit(CrcBit(CrcBit(CrcBit(CrcBit(CrcBit(CrcBit(x))))))))
  }

  lemma OneBitMore(x: bv32, n: nat)
    ensures CrcBits(x, 0) == x && CrcBits(x, n + 1) == CrcBits(CrcBit(x), n)
  {
    hide CrcBit;
  }

  lemma EightAreEight(x: bv32)
    ensures CrcBits(x, 8) == CrcEight(x)
  {
    hide CrcBit, CrcBits;
    var x1, x2, x3 := CrcBit(x), CrcBit(CrcBit(x)), CrcBit(CrcBit(CrcBit(x)));
    var x4, x5, x6 := CrcBit(x3), CrcBit(CrcBit(x3)), CrcBit(CrcBit(CrcBit(x3)));
    var x7 := CrcBit(x6);
    OneBitMore(x, 7);
    OneBitMore(x1, 6);
    OneBitMore(x2, 5);
    OneBitMore(x3, 4);
    OneBitMore(x4, 3);
    OneBitMore(x5, 2);
    OneBitMore(x6, 1);
    OneBitMore(x7, 0);
    OneBitMore(CrcBit(x7), 0);
  }

  lemma ThirtyTwoBits(x0: bv32, x1: bv32, x2: bv32, x3: bv32, x4: bv32)
    requires CrcEight(x0) == x1 && CrcEight(x1) == x2 && CrcEight(x2) == x3 && CrcEight(x3) == x4
    ensures CrcBits(x0, 32) == x4
  {
    hide CrcBits, CrcEight;
    EightAreEight(x0);
    EightAreEight(x1);
    EightAreEight(x2);
    EightAreEight(x3);
    CrcBitsInTurn(x0, 8, 8);
    CrcBitsInTurn(x0, 16, 8);
    CrcBitsInTurn(x0, 24, 8);
  }

  /** A word of ones divided by the polynomial leaves the residue. */
  lemma ResidueOfOnes()
    ensures CrcBits(0xFFFF_FFFF, 32) == 0xB798_B438
  {
    hide CrcBits;
    assert CrcEight(0xFFFF_FFFF) == 0xAD82_ACAE && CrcEight(0xAD82_ACAE) == 0x0E9E_882D;
    assert CrcEight(0x0E9E_882D) == 0x9F9B_5C85 && CrcEight(0x9F9B_5C85) == 0xB798_B438;
    ThirtyTwoBits(0xFFFF_FFFF, 0xAD82_ACAE, 0x0E9E_882D, 0x9F9B_5C85, 0xB798_B438);
  }
}
