/** What draining a ring does: packets come back, their owners are told, and the BDs are free again. */
module ReapModel {
  import opened RingAddress
  import opened Descriptor
  import opened RingModel
  import opened RingTheorems
  import opened RingReap
  import opened SubmitModel

  /** The request each BD belongs to. */
  ghost function IdsAt(bds: seq<Bd>, slots: seq<nat>): (ids: seq<U32>)
    requires SlotsIn(slots, |bds|)
    ensures |ids| == |slots| && forall i :: 0 <= i < |slots| ==> ids[i] == bds[slots[i]].id
  {
    seq(|slots|, i requires 0 <= i < |slots| => bds[slots[i]].id)
  }

  /** The BDs at `slots` belong to no request any more. */
  ghost function ClearIds(bds: seq<Bd>, slots: seq<nat>): (b: seq<Bd>)
    requires SlotsIn(slots, |bds|)
    ensures |b| == |bds|
    ensures forall i :: 0 <= i < |bds| ==> b[i] == if i in slots then bds[i].(id := 0) else bds[i]
  {
    if slots == [] then bds
    else
      var n := |slots| - 1;
      assert slots == slots[..n] + [slots[n]];
      var b := ClearIds(bds, slots[..n]);
      b[slots[n] := b[slots[n]].(id := 0)]
  }

  /** One round of the drain: the first k BDs of the hardware group go to the free group. */
  ghost function Reaped(r: Ring, k: nat): (r': Ring)
    requires k <= |r.hw| && SlotsIn(r.hw, |r.bds|)
  {
    r.(hw := r.hw[k..], free := r.free + r.hw[..k], bds := ClearIds(r.bds, r.hw[..k]))
  }

  lemma {:induction false} ClearIdsKeeps(r: Ring, slots: seq<nat>)
    requires Inv(r) && SlotsIn(slots, |r.bds|) && forall i :: 0 <= i < |slots| ==> slots[i] in r.post
    ensures Inv(r.(bds := ClearIds(r.bds, slots)))
    decreases |slots|
  {
    hide Inv;
    if slots == [] {
      assert r == r.(bds := ClearIds(r.bds, slots));
    } else {
      var n := |slots| - 1;
      ClearIdsKeeps(r, slots[..n]);
      var r1 := r.(bds := ClearIds(r.bds, slots[..n]));
      var bd := r1.bds[slots[n]];
      FillKeeps(r1, slots[n], bd.bufa, bd.ctrl, bd.user, 0);
      assert r.(bds := ClearIds(r.bds, slots)) == DoFill(r1, slots[n], bd.bufa, bd.ctrl, bd.user, 0);
    }
  }

  /** After the scan has handed back k > 0 BDs: their ids can be cleared and freeing them succeeds. */
  lemma ReapRound(r: Ring, limit: int)
    requires Inv(r) && r.post == [] && Reapable(r, limit) > 0
    ensures var k := Reapable(r, limit); var r1 := DoFromHw(r, limit);
      && r1.post == r.hw[..k] && r1.bds == r.bds && SlotsIn(r1.post, |r.bds|)
      && var r2 := r1.(bds := ClearIds(r1.bds, r1.post));
         FreeStatus(r2, k, r1.post[0]) == Success && DoFree(r2, k, r1.post[0]) == Reaped(r, k)
    ensures Inv(Reaped(r, Reapable(r, limit))) && Reaped(r, Reapable(r, limit)).post == []
  {
    hide Inv, Reapable, ClearIds;
    InvSlots(r);
    FromHwKeeps(r, limit);
    var k, r1 := Reapable(r, limit), DoFromHw(r, limit);
    PartSlots(r.hw, k, |r.bds|);
    assert r1.post == r.hw[..k];
    hide SlotsIn;
    ClearIdsKeeps(r1, r1.post);
    var r2 := r1.(bds := ClearIds(r1.bds, r1.post));
    FreeKeeps(r2, k, r1.post[0]);
    assert r1.post[..k] == r1.post && r1.post[k..] == [];
  }

  lemma InvSlots(r: Ring)
    requires Inv(r)
    ensures SlotsIn(r.hw, |r.bds|) && Distinct(r.hw)
  {
    OrderDistinct(r);
    var o := Order(r);
    assert forall i :: 0 <= i < |r.hw| ==> r.hw[i] == o[|r.post| + i];
  }

  // ---------- Whole drains ----------

  /** From r to r' the requests in `puts` were told, one for each BD that came back, in queue order. */
  ghost predicate Drained(r: Ring, r': Ring, puts: seq<U32>) {
    var n := |puts|;
    && n <= |r.hw| && |r'.bds| == |r.bds| && SlotsIn(r.hw, |r.bds|)
    && r.post == r'.post == [] && r'.pre == r.pre && r'.hw == r.hw[n..] && r'.free == r.free + r.hw[..n]
    && SlotsIn(r.hw[..n], |r.bds|) && puts == IdsAt(r.bds, r.hw[..n])
    && forall s :: 0 <= s < |r.bds| ==> r'.bds[s].id == if s in r.hw[..n] then 0 else r.bds[s].id
  }

  lemma HwStepKeepsIds(r: Ring, word: U32)
    requires Inv(r) && r.post == []
    ensures Drained(r, DoHwStep(r, word), [])
  {
    hide SlotAt, At, Arc, InOrder, EngineTracks;
  }

  lemma DrainedNone(r: Ring)
    requires Inv(r) && r.post == []
    ensures Drained(r, r, [])
  {
    hide Shape, InOrder, EngineTracks;
  }

  lemma ReapedDrains(r: Ring, k: nat)
    requires Inv(r) && r.post == [] && k <= |r.hw| && SlotsIn(r.hw[..k], |r.bds|)
    ensures Drained(r, Reaped(r, k), IdsAt(r.bds, r.hw[..k]))
  {
    hide Shape, InOrder, EngineTracks, ClearIds;
  }

  lemma {:induction false} BurstDrains(r: Ring, words: seq<U32>)
    requires Inv(r) && r.post == []
    ensures Drained(r, Burst(r, words), [])
  {
    if words == [] {
      DrainedNone(r);
    } else {
      var ws := words[..|words| - 1];
      BurstDrains(r, ws);
      hide Inv, DoHwStep;
      HwStepKeepsIds(Burst(r, ws), words[|words| - 1]);
      InvSlots(r);
      DrainedChain(r, Burst(r, ws), Burst(r, words), [], []);
    }
  }

  /** Drains one after the other. */
  lemma DrainedChain(r: Ring, r1: Ring, r2: Ring, p1: seq<U32>, p2: seq<U32>)
    requires Drained(r, r1, p1) && Drained(r1, r2, p2) && Distinct(r.hw)
    ensures Drained(r, r2, p1 + p2)
  {
    hide IdsAt, SlotsIn, Distinct;
    var n, m := |p1|, |p2|;
    var a, b := r.hw[..n], r1.hw[..m];
    Consecutive(r.hw, n, m);
    ChainIds(r.bds, r1.bds, a, b, p1, p2);
    assert r.free + a + b == r.free + (a + b);
  }

  lemma Consecutive(hw: seq<nat>, n: nat, m: nat)
    requires n + m <= |hw| && Distinct(hw)
    ensures hw[..n + m] == hw[..n] + hw[n..][..m] && hw[n..][m..] == hw[n + m..]
    ensures forall s :: s in hw[n..][..m] ==> s !in hw[..n]
  {
    var a, b := hw[..n], hw[n..][..m];
    forall s | s in b ensures s !in a {
      var i :| 0 <= i < m && b[i] == s;
      assert b[i] == hw[n + i];
    }
  }

  lemma ChainIds(b0: seq<Bd>, b1: seq<Bd>, a: seq<nat>, b: seq<nat>, p1: seq<U32>, p2: seq<U32>)
    requires |b1| == |b0| && SlotsIn(a, |b0|) && SlotsIn(b, |b0|) && p1 == IdsAt(b0, a) && p2 == IdsAt(b1, b)
    requires forall s :: 0 <= s < |b0| ==> b1[s].id == if s in a then 0 else b0[s].id
    requires forall s :: s in b ==> s !in a
    ensures SlotsIn(a + b, |b0|) && p1 + p2 == IdsAt(b0, a + b)
  {
  }

  lemma NothingReaped(r: Ring, limit: int)
    requires Inv(r) && Reapable(r, limit) == 0
    ensures SlotsIn(r.hw, |r.bds|) && DoFromHw(r, limit) == r == Reaped(r, 0)
    ensures SlotsIn(r.hw[..0], |r.bds|) && IdsAt(r.bds, r.hw[..0]) == []
  {
    hide Inv, Reapable;
    InvSlots(r);
  }

  /** The engine works on BDs; it does not move them between groups. */
  lemma BurstGroups(r: Ring, words: seq<U32>)
    requires Inv(r)
    ensures var m := Burst(r, words); m.hw == r.hw && m.post == r.post && |m.bds| == |r.bds|
  {
    hide Burst, DoneCount;
    BurstExtends(r, words);
  }

  lemma PostDistinct(r: Ring, r1: Ring, k: nat)
    requires Inv(r) && k <= |r.hw| && r1.post == r.hw[..k]
    ensures Distinct(r1.post)
  {
    InvSlots(r);
  }

  lemma DrainedLess(r: Ring, r': Ring, puts: seq<U32>)
    requires Drained(r, r', puts)
    ensures |r'.hw| == |r.hw| - |puts|
  {
  }

  /** When nothing can be reaped, no packet is complete: none of the BDs completed so far ends one. */
  lemma NoPacketLeft(r: Ring, limit: int)
    requires SlotsIn(r.hw, |r.bds|) && |r.hw| <= limit && Reapable(r, limit) == 0
    ensures forall i :: 0 <= i < DoneCount(r.bds, r.hw) ==> !Eof(r.bds[r.hw[i]], r.isRx)
  {
  }
}
