/** A buffer descriptor (BD) and its packed control/length and status words.

    The masks of the driver select either the low bits, the high bits or single bits of a 32-bit word,
    so they are written here with `/` and `%` on the unsigned value of the word. */
module Descriptor {
  import opened RingAddress

  const BIT26 := 0x400_0000
  const BIT27 := 0x800_0000
  const BIT28 := 0x1000_0000
  const BIT31 := 0x8000_0000

  /** XAXIDMA_MAX_TRANSFER_LEN and XAXIDMA_MCHAN_MAX_TRANSFER_LEN, used as length masks. */
  const MAX_TRANSFER_LEN := 0x7F_FFFF
  const MCHAN_MAX_TRANSFER_LEN := 0xFFFF

  /** The words of a BD. `user` holds the words that the driver only ever copies (multichannel fields
      and application words); `ndesc`, `hasSts` and `hasDre` are written by BdRingCreate alone. */
  datatype Bd = Bd(ndesc: U32, bufa: U32, ctrl: U32, sts: U32, user: seq<U32>, id: U32,
                   hasSts: U32, hasDre: U32)

  predicate Bit(w: U32, b: int)
    requires b > 0
  {
    w / b % 2 == 1
  }

  /** XAxiDma_BdHwCompleted. */
  predicate Complete(bd: Bd) {
    bd.sts >= BIT31
  }

  predicate TxSof(bd: Bd) {
    Bit(bd.ctrl, BIT27)
  }

  /** End of packet: in the control word for transmit, in the status word for receive. */
  predicate Eof(bd: Bd, isRx: bool) {
    if isRx then Bit(bd.sts, BIT26) else Bit(bd.ctrl, BIT26)
  }

  /** XAxiDma_BdGetLength. */
  function Length(bd: Bd, mask: int): int {
    if mask == MAX_TRANSFER_LEN then bd.ctrl % 0x80_0000 else bd.ctrl % 0x1_0000
  }

  /** The status word with the complete bit cleared. */
  function ClearComplete(sts: U32): U32 {
    if sts >= BIT31 then sts - BIT31 else sts
  }

  /** XAxiDma_BdGetSts: the status word masked with XAXIDMA_BD_STS_ALL_MASK. */
  function StsBits(sts: U32): U32 {
    sts - sts % BIT26
  }

  // ---------- What the words say ----------

  /** A word cut at a bit: q above it, the bit e itself, and l below it. */
  lemma BitReads(w: U32, b: int, q: int, e: int, l: int)
    requires b > 0 && w == (2 * q + e) * b + l && 0 <= e <= 1 && 0 <= l < b
    ensures Bit(w, b) <==> e == 1
  {
    ModIs(w, b, 2 * q + e, l);
    ModIs(2 * q + e, 2, q, e);
  }

  /** Bit 26 of the status word alone ends a received packet, and bit 26 of the control word a transmitted one. */
  lemma EofReads(bd: Bd, isRx: bool, q: int, e: int, l: int)
    requires (if isRx then bd.sts else bd.ctrl) == (2 * q + e) * 0x400_0000 + l && 0 <= e <= 1 && 0 <= l < 0x400_0000
    ensures Eof(bd, isRx) <==> e == 1
  {
    BitReads(if isRx then bd.sts else bd.ctrl, 0x400_0000, q, e, l);
  }

  /** Bit 27 of the control word alone starts a transmitted packet. */
  lemma TxSofReads(bd: Bd, q: int, e: int, l: int)
    requires bd.ctrl == (2 * q + e) * 0x800_0000 + l && 0 <= e <= 1 && 0 <= l < 0x800_0000
    ensures TxSof(bd) <==> e == 1
  {
    BitReads(bd.ctrl, 0x800_0000, q, e, l);
  }

  /** Bit 31 of the status word alone says that the BD is complete. */
  lemma CompleteReads(bd: Bd, e: int, l: int)
    requires bd.sts == e * 0x8000_0000 + l && 0 <= e <= 1 && 0 <= l < 0x8000_0000
    ensures Complete(bd) <==> e == 1
  {
  }

  /** The length is the low 23 or, with several channels, the low 16 bits of the control word. */
  lemma LengthReads(bd: Bd, q: int, l: int)
    ensures 0 <= l < 0x80_0000 && bd.ctrl == q * 0x80_0000 + l ==> Length(bd, MAX_TRANSFER_LEN) == l
    ensures 0 <= l < 0x1_0000 && bd.ctrl == q * 0x1_0000 + l ==> Length(bd, MCHAN_MAX_TRANSFER_LEN) == l
  {
  }

  /** Clearing the complete bit leaves the other 31 bits; reading the status word keeps its upper six bits. */
  lemma StatusReads(e: int, q: int, l: int, w: U32)
    requires w == e * 0x8000_0000 + q * 0x400_0000 + l && 0 <= e <= 1 && 0 <= q < 32 && 0 <= l < 0x400_0000
    ensures ClearComplete(w) == q * 0x400_0000 + l
    ensures StsBits(w) == e * 0x8000_0000 + q * 0x400_0000
  {
    ModIs(w, 0x400_0000, 32 * e + q, l);
  }

  lemma NestedDivision(top: int, k: int, s: int, m: int, r: int)
    requires 0 <= s < k && 0 <= r < m
    ensures k * m > 0 && ((top * k + s) * m + r) / (k * m) == top
  {
    var n := k * m;
    assert s * m + m <= n by {
      assert (k - s) * m == n - s * m;
      MulGe(m, k - s);
    }
    assert s * m >= 0;
    assert (top * k + s) * m == top * n + s * m by {
      assert (top * k + s) * m == (top * k) * m + s * m;
      assert (top * k) * m == top * (k * m);
    }
    ModIs((top * k + s) * m + r, n, top, s * m + r);
  }

  /** Replacing the part of c below m leaves the part at and above k * m alone. */
  lemma LowBitsReplaced(c: int, m: int, len: int, k: int)
    requires c >= 0 && 0 <= len < m && k > 0
    ensures (c - c % m + len) % m == len
    ensures k * m > 0 && (c - c % m + len) / (k * m) == c / (k * m)
  {
    var q := c / m;
    assert c - c % m == q * m;
    ModIs(q * m + len, m, q, len);
    NestedDivision(q / k, k, q % k, m, len);
    NestedDivision(q / k, k, q % k, m, c % m);
    assert q / k * k + q % k == q;
  }

  lemma LengthBits(c: int, len: int, m: int)
    requires 0 <= c < TWO32 && (m == 0x80_0000 || m == 0x1_0000) && 0 <= len < m
    ensures var v := c - c % m + len; v % m == len && v / BIT26 == c / BIT26 && v / BIT27 == c / BIT27 && 0 <= v < TWO32
  {
    if m == 0x80_0000 {
      LowBitsReplaced(c, 0x80_0000, len, 8);
      LowBitsReplaced(c, 0x80_0000, len, 16);
    } else {
      LowBitsReplaced(c, 0x1_0000, len, 1024);
      LowBitsReplaced(c, 0x1_0000, len, 2048);
    }
  }

  /** XAxiDma_BdSetLength: a zero or oversized length leaves the BD as it was. */
  function SetLength(bd: Bd, len: int, mask: int): (r: Bd)
    requires mask == MAX_TRANSFER_LEN || mask == MCHAN_MAX_TRANSFER_LEN
    ensures len <= 0 || len > mask ==> r == bd
    ensures 0 < len <= mask ==> Length(r, mask) == len
    ensures r == bd.(ctrl := r.ctrl)
    ensures TxSof(r) == TxSof(bd) && Eof(r, false) == Eof(bd, false)
    ensures 0 < len <= mask ==> r.ctrl == bd.ctrl / (mask + 1) * (mask + 1) + len
  {
    if len <= 0 || len > mask then bd
    else
      LengthBits(bd.ctrl, len, mask + 1);
      bd.(ctrl := bd.ctrl - Length(bd, mask) + len)
  }

  /** The word c with its bits 27 and 26 replaced. */
  lemma CtrlBits(c: int, sof: int, eof: int)
    requires c >= 0 && 0 <= sof <= 1 && 0 <= eof <= 1
    ensures var v := c - c % BIT28 + c % BIT26 + sof * BIT27 + eof * BIT26;
      && v / BIT27 % 2 == sof && v / BIT26 % 2 == eof
      && v % 0x80_0000 == c % 0x80_0000 && v % 0x1_0000 == c % 0x1_0000
      && v / BIT28 == c / BIT28 && v % BIT26 == c % BIT26
  {
    var q, l := c / BIT28, c % BIT26;
    var v := q * BIT28 + l + sof * BIT27 + eof * BIT26;
    ModIs(v, BIT28, q, l + sof * BIT27 + eof * BIT26);
    ModIs(v, BIT27, 2 * q + sof, eof * BIT26 + l);
    ModIs(2 * q + sof, 2, q, sof);
    ModIs(v, BIT26, 4 * q + 2 * sof + eof, l);
    ModIs(4 * q + 2 * sof + eof, 2, 2 * q + sof, eof);
    SameLow(v, c, 0x80_0000, 8);
    SameLow(v, c, 0x1_0000, 1024);
  }

  lemma SameLow(v: int, c: int, n: int, k: int)
    requires n > 0 && k > 0 && n * k == BIT26 && v >= 0 && c >= 0 && v % BIT26 == c % BIT26
    ensures v % n == c % n
  {
    var l := v % BIT26;
    var a, b := v / BIT26, c / BIT26;
    assert v == a * (k * n) + l && c == b * (k * n) + l;
    assert a * (k * n) == (a * k) * n && b * (k * n) == (b * k) * n;
    ModIs(v, n, a * k + l / n, l % n);
    ModIs(c, n, b * k + l / n, l % n);
  }

  /** XAxiDma_BdSetCtrl with the SOF and EOF bits of its argument. */
  function SetCtrl(bd: Bd, sof: bool, eof: bool): (r: Bd)
    ensures r == bd.(ctrl := r.ctrl)
    ensures TxSof(r) == sof && Eof(r, false) == eof
    ensures Length(r, MAX_TRANSFER_LEN) == Length(bd, MAX_TRANSFER_LEN)
    ensures Length(r, MCHAN_MAX_TRANSFER_LEN) == Length(bd, MCHAN_MAX_TRANSFER_LEN)
    ensures r.ctrl / 0x1000_0000 == bd.ctrl / 0x1000_0000 && r.ctrl % 0x400_0000 == bd.ctrl % 0x400_0000
  {
    CtrlBits(bd.ctrl, if sof then 1 else 0, if eof then 1 else 0);
    var kept := bd.ctrl - bd.ctrl % BIT28 + bd.ctrl % BIT26;
    bd.(ctrl := kept + (if sof then BIT27 else 0) + (if eof then BIT26 else 0))
  }

  /** XAxiDma_BdSetBufAddr: without a realignment engine a misaligned address leaves the BD as it was.
      `hasDre` packs the engine flag above the bus width in bytes, a power of two. */
  function SetBufAddr(bd: Bd, addr: U32): (r: Bd)
    ensures r == bd.(bufa := r.bufa)
    ensures bd.hasDre / 0x100 % 0x10 != 0 ==> r.bufa == addr
    ensures bd.hasDre / 0x100 % 0x10 == 0 && bd.hasDre % 0x100 > 0 ==>
      r.bufa == if addr % (bd.hasDre % 0x100) == 0 then addr else bd.bufa
    ensures bd.hasDre / 0x100 % 0x10 == 0 && bd.hasDre % 0x100 == 0 ==> r.bufa == if addr == 0 then 0 else bd.bufa
  {
    var wordLen := bd.hasDre % 0x100;
    var misaligned := if wordLen == 0 then addr != 0 else addr % wordLen != 0;
    if misaligned && bd.hasDre / 0x100 % 0x10 == 0 then bd
    else bd.(bufa := addr)
  }
}
