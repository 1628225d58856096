/** The bottom half of the AES driver: taking finished BDs off a ring. */
module AesReap {
  import opened RingAddress
  import opened Descriptor
  import opened RingModel
  import opened RingTheorems
  import opened RingReap
  import opened RingRefinement
  import opened BdRingDriver
  import opened SubmitModel
  import opened ReapModel
  import opened AesSubmit

  /** The hardware and post groups, as the driver's fields show them. */
  lemma HwPostGroups(c: Control, allCnt: int, bds: seq<Bd>)
    requires Sound(c, allCnt, bds) && allCnt != 0
    ensures Fits(c.lay) && c.lay.count == |bds| && Counts(c)
    ensures var r := RingOf(c, bds);
      && r.bds == bds && |r.hw| == c.hwCnt && |r.post| == c.postCnt
      && c.hwHead == AddrAt(c.lay, c.base + c.postCnt)
      && (forall i :: 0 <= i < |r.hw| ==> r.hw[i] == SlotAt(c.base + c.postCnt + i, |bds|))
      && (forall i :: 0 <= i < |r.post| ==> r.post[i] == SlotAt(c.base + i, |bds|))
  {
    hide At, SlotAt, AddrAt, Linked, Registers;
  }

  /** Tell the owner of each BD handed back, and forget it. */
  method CleanSet(ring: BdRing, bdSet: U32, count: nat, ghost p: nat, ghost slots: seq<nat>) returns (puts: seq<U32>)
    requires ring.Ready() && Fits(ring.f.lay) && ring.f.lay.count == ring.bds.Length
    requires bdSet == AddrAt(ring.f.lay, p) && 0 < count == |slots| && SlotsIn(slots, ring.bds.Length)
    requires Distinct(slots) && forall i :: 0 <= i < |slots| ==> slots[i] == SlotAt(p + i, ring.bds.Length)
    modifies ring.bds
    ensures ring.Ready() && ring.View() == old(ring.View()).(bds := ring.bds[..])
    ensures ring.bds[..] == ClearIds(old(ring.bds[..]), slots) && puts == IdsAt(old(ring.bds[..]), slots)
  {
    hide Sound, At, SlotAt, AddrAt, RingOf, Next, SlotsIn, Distinct, ClearIds;
    ghost var b := ring.bds[..];
    RewrittenSound(ring.C(), ring.f.allCnt, b, b);
    ClearNone(b, slots);
    var cur, left := bdSet, count;
    puts := [];
    while left > 0
      invariant left <= count && ring.Ready() && ring.View() == old(ring.View()).(bds := ring.bds[..])
      invariant cur == AddrAt(ring.f.lay, p + (count - left))
      invariant Cleared(b, slots, count - left, ring.bds[..], puts)
    {
      ghost var k := count - left;
      ClearStep(b, slots, k, ring.bds[..], puts);
      var bd := ring.ReadBd(cur, p + k);
      puts := puts + [bd.id];
      ring.WriteBd(cur, bd.(id := 0), p + k);
      NextAddr(ring.f.lay, p + k);
      cur := Next(ring.f.lay, cur);
      left := left - 1;
    }
    assert slots[..count] == slots;
  }

  /** The first k BDs have been dealt with. */
  ghost predicate Cleared(b: seq<Bd>, slots: seq<nat>, k: nat, now: seq<Bd>, puts: seq<U32>) {
    && k <= |slots| && SlotsIn(slots, |b|) && SlotsIn(slots[..k], |b|)
    && now == ClearIds(b, slots[..k]) && puts == IdsAt(b, slots[..k])
  }

  lemma ClearNone(b: seq<Bd>, slots: seq<nat>)
    requires SlotsIn(slots, |b|)
    ensures Cleared(b, slots, 0, b, [])
  {
  }

  lemma ClearStep(b: seq<Bd>, slots: seq<nat>, k: nat, now: seq<Bd>, puts: seq<U32>)
    requires Cleared(b, slots, k, now, puts) && k < |slots| && Distinct(slots)
    ensures slots[k] < |now|
    ensures var bd := now[slots[k]]; Cleared(b, slots, k + 1, now[slots[k] := bd.(id := 0)], puts + [bd.id])
  {
    assert slots[..k + 1][..k] == slots[..k];
  }

  /** One round of the drain loop. While the scan runs the engine goes on completing BDs, as `env` says. */
  method ReapOnce(ring: BdRing, limit: int, env: seq<seq<U32>>)
    returns (count: nat, puts: seq<U32>, st: Status, ghost words: seq<U32>)
    requires ring.Ready() && Inv(ring.View()) && ring.View().post == []
    modifies ring`f, ring`chan, ring`at, ring.bds
    ensures ring.Ready() && Inv(ring.View()) && ring.View().post == []
    ensures st == Success && count == |puts| && Drained(old(ring.View()), ring.View(), puts)
    ensures var mid := Burst(old(ring.View()), words);
      && SlotsIn(mid.hw, |mid.bds|) && count == Reapable(mid, limit) && ring.View() == Reaped(mid, count)
      && SlotsIn(mid.hw[..count], |mid.bds|) && puts == IdsAt(mid.bds, mid.hw[..count])
    ensures count == 0 ==> SlotsIn(ring.View().hw, |ring.View().bds|) && Reapable(ring.View(), limit) == 0
  {
    hide Sound, At, SlotAt, AddrAt, RingOf, Inv, Burst, Reapable, DoFree, DoFromHw, Drained, FreeStatus, ClearIds,
         IdsAt, SlotsIn, Distinct, Reaped;
    ghost var r := ring.View();
    InvSlots(r);
    HwPostGroups(ring.C(), ring.f.allCnt, ring.bds[..]);
    ghost var q := ring.at.base + ring.f.postCnt;
    var bdSet;
    count, bdSet, words := ring.FromHw(limit, env);
    ghost var mid := Burst(r, words);
    BurstDrains(r, words);
    BurstGroups(r, words);
    if count == 0 {
      NothingReaped(mid, limit);
      return 0, [], Success, words;
    }
    ReapRound(mid, limit);
    InvSlots(mid);
    ghost var r1 := ring.View();
    PostDistinct(mid, r1, count);
    HwPostGroups(ring.C(), ring.f.allCnt, ring.bds[..]);
    assert r.hw[0] == SlotAt(q + 0, ring.bds.Length) && r1.post[0] == SlotAt(ring.at.base + 0, ring.bds.Length);
    AddrSame(ring.f.lay, q, ring.at.base);
    puts := CleanSet(ring, bdSet, count, ring.at.base, r1.post);
    HeadSlot(ring.f.lay, ring.at.base, bdSet);
    st := ring.Free(count, bdSet);
    ReapedDrains(mid, count);
    DrainedChain(r, mid, ring.View(), [], puts);
    assert [] + puts == puts;
  }

  /** The drain loop of tx_handle_bh and rx_handle_bh, under the ring's lock. Round k of it sees the engine behave as
      env[k] says; behind the end of env the engine rests. */
  method Drain(ring: BdRing, limit: int, env: seq<seq<seq<U32>>>) returns (puts: seq<U32>, ok: bool)
    requires ring.Ready() && Inv(ring.View()) && ring.View().post == []
    modifies ring`f, ring`chan, ring`at, ring.bds
    ensures ring.Ready() && Inv(ring.View()) && ring.View().post == []
    ensures ok && Drained(old(ring.View()), ring.View(), puts)
    ensures SlotsIn(ring.View().hw, |ring.View().bds|) && Reapable(ring.View(), limit) == 0
  {
    hide Sound, RingOf, Inv, Reapable, IdsAt, SlotsIn, Distinct, Drained;
    ghost var r := ring.View();
    InvSlots(r);
    DrainedNone(r);
    puts, ok := [], true;
    var round, more := 0, true;
    while more
      invariant ring.Ready() && Inv(ring.View()) && ring.View().post == [] && round >= 0
      invariant ok && Drained(r, ring.View(), puts)
      invariant !more ==> SlotsIn(ring.View().hw, |ring.View().bds|) && Reapable(ring.View(), limit) == 0
      decreases |ring.View().hw|, more
    {
      ghost var was := ring.View();
      var count, told, st, _ := ReapOnce(ring, limit, if round < |env| then env[round] else []);
      DrainedLess(was, ring.View(), told);
      DrainedChain(r, was, ring.View(), puts, told);
      puts := puts + told;
      ok := ok && st == Success;
      more := count > 0;
      round := round + 1;
    }
  }
}
