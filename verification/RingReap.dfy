/** What BdRingFromHw hands back, with the engine at work while it scans. */
module RingReap {
  import opened RingAddress
  import opened Descriptor
  import opened RingModel
  import opened RingTheorems

  /** A count of BDs FromHw may hand back: all complete, within the limit, and ending a packet. */
  ghost predicate WholePackets(r: Ring, limit: int, k: nat)
    requires SlotsIn(r.hw, |r.bds|)
  {
    && k <= |r.hw| && (k > 0 ==> k <= limit)
    && (forall i :: 0 <= i < k ==> Complete(r.bds[r.hw[i]]))
    && (k > 0 ==> Eof(r.bds[r.hw[k - 1]], r.isRx))
  }

  /** Reapable is the largest such count: never part of a packet, and no finished packet left behind. */
  lemma ReapableIsLargest(r: Ring, limit: int, k: nat)
    requires SlotsIn(r.hw, |r.bds|)
    ensures WholePackets(r, limit, Reapable(r, limit))
    ensures WholePackets(r, limit, k) ==> k <= Reapable(r, limit)
  {
    hide DoneCount, LastEof, Complete, Eof;
    var d := DoneCount(r.bds, r.hw);
    if WholePackets(r, limit, k) {
      assert k <= d;
    }
  }

  /** The last BD handed back has the end-of-packet bit, bit 26, in its status word (receive) or control word
      (transmit), whatever its other bits are. */
  lemma LastEndsPacket(r: Ring, limit: int, q: int, e: int, l: int)
    requires SlotsIn(r.hw, |r.bds|) && Reapable(r, limit) > 0 && 0 <= e <= 1 && 0 <= l < 0x400_0000
    requires var bd := r.bds[r.hw[Reapable(r, limit) - 1]];
      (if r.isRx then bd.sts else bd.ctrl) == (2 * q + e) * 0x400_0000 + l
    ensures e == 1
  {
    hide DoneCount, LastEof, Eof;
    EofReads(r.bds[r.hw[Reapable(r, limit) - 1]], r.isRx, q, e, l);
  }

  /** The post group ends with such a BD. */
  ghost predicate EndsPacket(r: Ring) {
    && 0 < |r.post| && r.post[|r.post| - 1] < |r.bds|
    && var bd := r.bds[r.post[|r.post| - 1]]; (if r.isRx then bd.sts else bd.ctrl) / 0x400_0000 % 2 == 1
  }

  lemma FromHwEndsPacket(r: Ring, limit: int)
    requires SlotsIn(r.hw, |r.bds|) && Reapable(r, limit) > 0
    ensures EndsPacket(DoFromHw(r, limit))
  {
    hide Reapable;
    var bd := r.bds[r.hw[Reapable(r, limit) - 1]];
    var w := if r.isRx then bd.sts else bd.ctrl;
    var q := w / 0x400_0000;
    LastEndsPacket(r, limit, q / 2, q % 2, w % 0x400_0000);
  }

  /** So a BD that starts a received packet, with bit 27, and does not end it is never the last one. */
  lemma HalfPacketStays(r: Ring, limit: int, i: nat, q: int, l: int)
    requires SlotsIn(r.hw, |r.bds|) && r.isRx && i < |r.hw| && 0 <= l < 0x400_0000
    requires r.bds[r.hw[i]].sts == (4 * q + 2) * 0x400_0000 + l
    ensures Reapable(r, limit) != i + 1
  {
    hide Reapable;
    if Reapable(r, limit) == i + 1 {
      LastEndsPacket(r, limit, 2 * q + 1, 0, l);
    }
  }

  /** The engine completes one BD after another, writing the given status words. */
  ghost function Burst(r: Ring, words: seq<U32>): (r': Ring)
    requires Inv(r)
    ensures Inv(r')
  {
    if words == [] then r
    else
      var r1 := Burst(r, words[..|words| - 1]);
      HwStepKeeps(r1, words[|words| - 1]);
      DoHwStep(r1, words[|words| - 1])
  }

  /** What engine steps leave alone, seen from a scan of the hardware group. */
  ghost predicate Extends(r: Ring, r': Ring)
    requires SlotsIn(r.hw, |r.bds|)
  {
    && r' == r.(bds := r'.bds, eng := r'.eng) && |r'.bds| == |r.bds|
    && DoneCount(r.bds, r.hw) <= DoneCount(r'.bds, r'.hw)
    && (forall i :: 0 <= i < DoneCount(r.bds, r.hw) ==> r'.bds[r.hw[i]] == r.bds[r.hw[i]])
  }

  lemma HwStepExtends(r: Ring, word: U32)
    requires Inv(r)
    ensures Extends(r, DoHwStep(r, word))
  {
    hide SlotAt, At, Arc, DoneCount;
    if r.eng.up && !r.eng.idle && word >= BIT31 {
      var r', d := DoHwStep(r, word), DoneCount(r.bds, r.hw);
      HwStepParts(r, r', word);
      assert |Todo(r')| == |r'.hw| - DoneCount(r'.bds, r'.hw);
      forall i | 0 <= i < d ensures r'.bds[r.hw[i]] == r.bds[r.hw[i]] {
        HwDistinct(r, i, d);
      }
    }
  }

  lemma ExtendsChain(r: Ring, r1: Ring, r2: Ring)
    requires SlotsIn(r.hw, |r.bds|) && Extends(r, r1) && SlotsIn(r1.hw, |r1.bds|) && Extends(r1, r2)
    ensures Extends(r, r2)
  {
    hide DoneCount;
  }

  lemma {:induction false} BurstExtends(r: Ring, words: seq<U32>)
    requires Inv(r)
    ensures Extends(r, Burst(r, words))
  {
    hide SlotAt, At, Arc, DoneCount, DoHwStep;
    if words != [] {
      var ws, w := words[..|words| - 1], words[|words| - 1];
      BurstExtends(r, ws);
      HwStepExtends(Burst(r, ws), w);
      ExtendsChain(r, Burst(r, ws), Burst(r, words));
    }
  }

  lemma {:induction false} BurstAppend(r: Ring, a: seq<U32>, b: seq<U32>)
    requires Inv(r)
    ensures Burst(r, a + b) == Burst(Burst(r, a), b)
    decreases |b|
  {
    hide Inv, DoHwStep;
    if b == [] {
      assert a + b == a;
    } else {
      var b1, w := b[..|b| - 1], b[|b| - 1];
      assert (a + b)[..|a + b| - 1] == a + b1;
      BurstAppend(r, a, b1);
    }
  }

  lemma {:induction false} LastEofSame(r: Ring, r': Ring, c: nat)
    requires SlotsIn(r.hw, |r.bds|) && Extends(r, r') && c <= DoneCount(r.bds, r.hw)
    ensures LastEof(r'.bds, r'.hw, r'.isRx, c) == LastEof(r.bds, r.hw, r.isRx, c)
  {
    hide DoneCount, Complete, Eof;
    if c > 0 {
      LastEofSame(r, r', c - 1);
    }
  }

  lemma LastEofMonotone(bds: seq<Bd>, hw: seq<nat>, isRx: bool, c: nat, m: nat)
    requires SlotsIn(hw, |bds|) && c <= m <= |hw|
    ensures LastEof(bds, hw, isRx, c) <= LastEof(bds, hw, isRx, m)
  {
    hide Eof, LastEof;
    var k := LastEof(bds, hw, isRx, c);
    if k > 0 { assert Eof(bds[hw[k - 1]], isRx); }
  }

  /** Whatever the engine completes during a scan, the answer only grows: a FromHw that overlaps with
      engine steps answers between the states before and after them. */
  lemma ReapableGrows(r: Ring, words: seq<U32>, limit: int)
    requires Inv(r)
    ensures Reapable(r, limit) <= Reapable(Burst(r, words), limit)
  {
    hide DoneCount, Burst;
    var r' := Burst(r, words);
    BurstExtends(r, words);
    var c, c' := Min(limit, DoneCount(r.bds, r.hw)), Min(limit, DoneCount(r'.bds, r'.hw));
    if c > 0 {
      LastEofSame(r, r', c);
      LastEofMonotone(r'.bds, r'.hw, r.isRx, c, c');
    }
  }

  // ---------- The loop of FromHw ----------

  /** The scan has passed the first `count` BDs of the hardware group, the last `partial` of which belong to
      a packet that has not ended. */
  ghost predicate Passed(r: Ring, count: nat, partial: int) {
    && SlotsIn(r.hw, |r.bds|) && count <= DoneCount(r.bds, r.hw)
    && partial == count - LastEof(r.bds, r.hw, r.isRx, count)
  }

  lemma PassedNone(r: Ring)
    requires Inv(r)
    ensures Passed(r, 0, 0) && Burst(r, []) == r
  {
  }

  lemma PassedExtends(r: Ring, r': Ring, count: nat, partial: int)
    requires Passed(r, count, partial) && Extends(r, r')
    ensures Passed(r', count, partial)
  {
    hide DoneCount, LastEof;
    LastEofSame(r, r', count);
  }

  lemma PassOne(r: Ring, count: nat, partial: int)
    requires Passed(r, count, partial) && count < |r.hw| && Complete(r.bds[r.hw[count]])
    ensures Passed(r, count + 1, if Eof(r.bds[r.hw[count]], r.isRx) then 0 else partial + 1)
  {
    hide DoneCount, Complete, Eof;
  }

  /** Where the scan stops, the BDs passed minus the partial packet are what FromHw hands back. */
  lemma ScanResult(r: Ring, limit: int, count: nat, partial: int)
    requires Passed(r, count, partial) && (count > 0 ==> count <= limit)
    requires count >= Min(limit, |r.hw|) || (count < |r.hw| && !Complete(r.bds[r.hw[count]]))
    ensures count - partial == Reapable(r, limit)
  {
    hide DoneCount, LastEof, Complete;
  }
}
