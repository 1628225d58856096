/** The transmit side of the Ethernet driver. */
module EthTx {
  import opened RingAddress
  import opened Descriptor
  import opened RingModel
  import opened RingTheorems
  import opened RingReap
  import opened RingRefinement
  import opened BdRingDriver
  import opened Scatter
  import opened SubmitModel
  import opened AesSubmit
  import opened ReapModel
  import opened AesReap
  import opened SkbOwnership

  const TX_BD_NUM := 8192

  datatype Outcome = Sent | Deferred | Dropped | Rejected

  /** The BD of the packet's header; its control word is set later. */
  function HeaderBd(bd: Bd, g: Seg, mask: int, skb: U32): (w: Bd)
    requires mask == MAX_TRANSFER_LEN || mask == MCHAN_MAX_TRANSFER_LEN
    ensures w == bd.(bufa := w.bufa, ctrl := w.ctrl, id := skb)
  {
    SetLength(SetBufAddr(bd, g.addr), g.len, mask).(id := skb)
  }

  lemma CtrlTwice(bd: Bd, id: U32, sof: bool, eof: bool)
    ensures SetCtrl(SetCtrl(bd, false, false).(id := id), sof, eof) == SetCtrl(bd.(id := id), sof, eof)
  {
    CtrlCleared(bd.ctrl);
  }

  lemma CtrlCleared(c: int)
    requires c >= 0
    ensures var v := c - c % BIT28 + c % BIT26; v % BIT28 == c % BIT26 && v % BIT26 == c % BIT26
  {
    var v, q := c - c % BIT28 + c % BIT26, c / BIT28;
    ModIs(v, BIT28, q, c % BIT26);
    ModIs(v, BIT26, 4 * q, c % BIT26);
  }

  lemma HeaderSame(bd: Bd, g: Seg, mask: int, skb: U32, sof: bool, eof: bool)
    requires mask == MAX_TRANSFER_LEN || mask == MCHAN_MAX_TRANSFER_LEN
    ensures SetCtrl(HeaderBd(bd, g, mask, skb), sof, eof) == SetCtrl(Written(bd, g, mask, skb), sof, eof)
  {
    hide SetCtrl, SetLength, SetBufAddr;
    CtrlTwice(SetLength(SetBufAddr(bd, g.addr), g.len, mask), skb, sof, eof);
  }

  /** Header and fragments filled one after the other are a filled set, once the control words are set. */
  lemma HeaderAndFragments(b: seq<Bd>, slots: seq<nat>, pieces: seq<Seg>, mask: int, skb: U32)
    requires mask == MAX_TRANSFER_LEN || mask == MCHAN_MAX_TRANSFER_LEN
    requires 0 < |pieces| == |slots| && SlotsIn(slots, |b|) && SlotsIn(slots[1..], |b|) && Distinct(slots)
    ensures var s0, last := slots[0], slots[|slots| - 1];
      var headed := b[s0 := HeaderBd(b[s0], pieces[0], mask, skb)];
      Bracketed(Filled(headed, slots[1..], pieces[1..], mask, All(0)), s0, last) ==
      Bracketed(Filled(b, slots, pieces, mask, First(skb)), s0, last)
  {
    hide HeaderBd, Written, Filled, SetCtrl, Bracketed;
    var s0, last := slots[0], slots[|slots| - 1];
    FragmentsSame(b, slots, pieces, mask, skb);
    HeaderSame(b[s0], pieces[0], mask, skb, true, s0 == last);
    BracketedSame(Filled(b[s0 := HeaderBd(b[s0], pieces[0], mask, skb)], slots[1..], pieces[1..], mask, All(0)),
                  Filled(b, slots, pieces, mask, First(skb)), s0, last);
  }

  lemma FragmentsSame(b: seq<Bd>, slots: seq<nat>, pieces: seq<Seg>, mask: int, skb: U32)
    requires mask == MAX_TRANSFER_LEN || mask == MCHAN_MAX_TRANSFER_LEN
    requires 0 < |pieces| == |slots| && SlotsIn(slots, |b|) && SlotsIn(slots[1..], |b|) && Distinct(slots)
    ensures var s0 := slots[0]; var h := HeaderBd(b[s0], pieces[0], mask, skb);
      var f := Filled(b[s0 := h], slots[1..], pieces[1..], mask, All(0));
      var g := Filled(b, slots, pieces, mask, First(skb));
      && f[s0] == h && g[s0] == Written(b[s0], pieces[0], mask, skb)
      && forall i :: 0 <= i < |b| && i != s0 ==> f[i] == g[i]
  {
    hide HeaderBd, Written, Filled;
    var s0, rest, frags := slots[0], slots[1..], pieces[1..];
    var headed := b[s0 := HeaderBd(b[s0], pieces[0], mask, skb)];
    var f, g := Filled(headed, rest, frags, mask, All(0)), Filled(b, slots, pieces, mask, First(skb));
    TailDistinct(slots);
    FilledAt(headed, rest, frags, mask, All(0));
    FilledAt(b, slots, pieces, mask, First(skb));
    hide Distinct, SlotsIn;
    assert rest[..|frags|] == rest && slots[..|pieces|] == slots;
    forall i | 0 <= i < |b| && i != s0 ensures f[i] == g[i] {
      if i in slots {
        var k :| 0 <= k < |slots| && slots[k] == i;
        assert rest[k - 1] == i && frags[k - 1] == pieces[k];
      }
    }
    assert g[slots[0]] == Written(b[s0], pieces[0], mask, skb);
  }

  lemma TailDistinct(s: seq<nat>)
    requires s != [] && Distinct(s)
    ensures Distinct(s[1..]) && s[0] !in s[1..] && forall x :: x in s[1..] ==> x in s
  {
  }

  lemma BracketedSame(f: seq<Bd>, g: seq<Bd>, first: nat, last: nat)
    requires |f| == |g| && first < |f| && last < |f| && forall i :: 0 <= i < |f| && i != first ==> f[i] == g[i]
    requires SetCtrl(f[first], true, first == last) == SetCtrl(g[first], true, first == last)
    ensures Bracketed(f, first, last) == Bracketed(g, first, last)
  {
    hide SetCtrl;
  }

  /** The BDs of the fragments, behind that of the header at `first`. */
  method FillFragments(ring: BdRing, first: U32, pieces: seq<Seg>, ghost p: nat, ghost slots: seq<nat>)
    returns (last: U32)
    requires ring.Ready() && Fits(ring.f.lay) && ring.f.lay.count == ring.bds.Length && first == AddrAt(ring.f.lay, p)
    requires 0 < |pieces| == |slots| && SlotsIn(slots[1..], ring.bds.Length)
    requires forall i :: 0 <= i < |slots| ==> slots[i] == SlotAt(p + i, ring.bds.Length)
    requires ring.mask == MAX_TRANSFER_LEN || ring.mask == MCHAN_MAX_TRANSFER_LEN
    modifies ring.bds
    ensures ring.Ready() && ring.View() == old(ring.View()).(bds := ring.bds[..])
    ensures last == AddrAt(ring.f.lay, p + |pieces| - 1)
    ensures ring.bds[..] == Filled(old(ring.bds[..]), slots[1..], pieces[1..], ring.mask, All(0))
  {
    hide Sound, At, SlotAt, AddrAt, RingOf, Written, Filled, Next, SlotsIn;
    ghost var b, rest, frags := ring.bds[..], slots[1..], pieces[1..];
    RewrittenSound(ring.C(), ring.f.allCnt, b, b);
    FilledNone(b, rest, frags, ring.mask, All(0));
    NextAddr(ring.f.lay, p);
    var bdPtr, i := Next(ring.f.lay, first), 1;
    last := first;
    while i < |pieces|
      invariant 1 <= i <= |pieces| && ring.Ready() && ring.View() == old(ring.View()).(bds := ring.bds[..])
      invariant last == AddrAt(ring.f.lay, p + i - 1) && bdPtr == AddrAt(ring.f.lay, p + i)
      invariant ring.bds[..] == Filled(b, rest, frags[..i - 1], ring.mask, All(0))
    {
      last := bdPtr;
      bdPtr := FillOne(ring, bdPtr, pieces[i], 0, p + 1, b, rest, frags, i - 1, All(0));
      i := i + 1;
    }
    assert frags[..|frags|] == frags;
  }

  /** axi_DmaSend_internal, up to the handover: `pieces` are the packet's header and its fragments. A packet with too
      many fragments is dropped, and one that finds too few free BDs is put aside; neither touches the ring. */
  method Send(ring: BdRing, pieces: seq<Seg>, skb: U32) returns (outcome: Outcome)
    requires ring.Ready() && pieces != []
    modifies ring`f, ring`chan, ring`at, ring.bds
    ensures ring.Ready()
    ensures var r := old(ring.View());
      && SlotsIn(r.free, |r.bds|) && SlotsIn(r.pre, |r.bds|) && ValidMask(r)
      && ring.View() == (if |pieces| >= TX_BD_NUM then r else Submit(r, pieces, |pieces|, First(skb)))
      && outcome == if |pieces| >= TX_BD_NUM then Dropped
                    else if |r.free| < |pieces| then Deferred
                    else if SubmitStatus(r, pieces, |pieces|, First(skb)) == Success then Sent else Rejected
  {
    hide Sound, At, SlotAt, AddrAt, RingOf, Filled, SlotsIn, ToHwStatus, DoToHw, Bracketed, Shape, HeaderBd;
    ghost var r, p := ring.View(), ring.at.base + ring.f.postCnt + ring.f.hwCnt + ring.f.preCnt;
    FreeGroup(ring.C(), ring.f.allCnt, ring.bds[..]);
    if |pieces| >= TX_BD_NUM { return Dropped; }
    var st, first := ring.Alloc(|pieces|);
    if st != Success { return Deferred; }
    ghost var slots := r.free[..|pieces|];
    SlotsOfPacket(r, |pieces|);
    var bd := ring.ReadBd(first, p);
    ring.WriteBd(first, HeaderBd(bd, pieces[0], ring.mask, skb), p);
    var last := FillFragments(ring, first, pieces, p, slots);
    Bracket(ring, first, last, p, p + |pieces| - 1);
    HeaderAndFragments(r.bds, slots, pieces, ring.mask, skb);
    assert pieces[..|pieces|] == pieces;
    HeadSlot(ring.f.lay, p, first);
    st := ring.ToHw(|pieces|, first);
    return if st == Success then Sent else Rejected;
  }

  lemma SlotsOfPacket(r: Ring, n: nat)
    requires Shape(r) && 0 < n <= |r.free|
    ensures SlotsIn(r.free[..n], |r.bds|) && SlotsIn(r.free[..n][1..], |r.bds|) && Distinct(r.free[..n])
  {
    hide Shape;
    FreeSlots(r);
  }

  lemma {:induction false} BurstOwns(r: Ring, packets: seq<Packet>, words: seq<U32>)
    requires Owns(r, packets)
    ensures Inv(r) && Owns(Burst(r, words), packets)
  {
    OwnsBasics(r, packets);
    hide Owns, Inv, DoHwStep;
    if words != [] {
      var ws := words[..|words| - 1];
      BurstOwns(r, packets, ws);
      HwStepOwns(Burst(r, ws), packets, words[|words| - 1]);
    }
  }

  /** The loop of DmaSendHandlerBH_netdev: packets that are done are taken off the ring and their buffers freed. */
  method SendHandler(ring: BdRing, env: seq<seq<seq<U32>>>, ghost packets: seq<Packet>)
    returns (freed: seq<U32>, ok: bool, ghost rest: seq<Packet>)
    requires ring.Ready() && Owns(ring.View(), packets)
    modifies ring`f, ring`chan, ring`at, ring.bds
    ensures ring.Ready() && Owns(ring.View(), rest) && ok
    ensures Skbs(packets) == freed + Skbs(rest)
    ensures SlotsIn(ring.View().hw, |ring.View().bds|) && Reapable(ring.View(), TX_BD_NUM) == 0
  {
    hide Sound, RingOf, Inv, Reapable, IdsAt, SlotsIn, Drained, Owns, Laid, Reaped, Burst, NonZero, Skbs;
    freed, ok, rest := [], true, packets;
    assert [] + Skbs(packets) == Skbs(packets);
    var round, more := 0, true;
    while more
      invariant ring.Ready() && Owns(ring.View(), rest) && ok && round >= 0
      invariant Skbs(packets) == freed + Skbs(rest)
      invariant !more ==> SlotsIn(ring.View().hw, |ring.View().bds|) && Reapable(ring.View(), TX_BD_NUM) == 0
      decreases |ring.View().hw|, more
    {
      ghost var was := ring.View();
      OwnsBasics(was, rest);
      OwnsNoPost(was, rest);
      var count, ids, st, words := ReapOnce(ring, TX_BD_NUM, if round < |env| then env[round] else []);
      DrainedLess(was, ring.View(), ids);
      BurstOwns(was, rest, words);
      ghost var j := ReapOwns(Burst(was, words), rest, TX_BD_NUM);
      SkbsSplit(rest, j);
      assert freed + (Skbs(rest[..j]) + Skbs(rest[j..])) == freed + Skbs(rest[..j]) + Skbs(rest[j..]);
      freed := freed + NonZero(ids);
      rest := rest[j..];
      ok := ok && st == Success;
      more := count > 0;
      round := round + 1;
    }
  }

  lemma OwnsNoPost(r: Ring, packets: seq<Packet>)
    requires Owns(r, packets)
    ensures r.post == []
  {
  }

  /** The transmit half of free_descriptor_skb: every BD is looked at, in memory order. */
  method Teardown(ring: BdRing, ghost packets: seq<Packet>) returns (freed: seq<U32>)
    requires ring.Ready() && Owns(ring.View(), packets)
    ensures multiset(freed) == multiset(Skbs(packets))
  {
    hide Sound, At, SlotAt, AddrAt, RingOf, Inv, SlotsIn, Owns, NonZero, IdsAt, Next, Skbs;
    ghost var b := ring.bds[..];
    ghost var all := AllSlots(|b|);
    FirstAddr(ring.C(), ring.f.allCnt, b);
    TeardownFreesRest(ring.View(), packets);
    var bdPtr, i := ring.f.lay.first, 0;
    freed := [];
    FoundNone(b);
    while i < ring.bds.Length
      invariant 0 <= i <= ring.bds.Length && bdPtr == AddrAt(ring.f.lay, i) && Found(b, i, freed)
    {
      FoundNext(b, i, freed);
      var bd := ring.ReadBd(bdPtr, i);
      if bd.id != 0 {
        freed := freed + [bd.id];
      }
      NextAddr(ring.f.lay, i);
      bdPtr := Next(ring.f.lay, bdPtr);
      i := i + 1;
    }
    assert all[..i] == all;
  }

  /** The buffers found in the first i BDs. */
  ghost predicate Found(b: seq<Bd>, i: nat, freed: seq<U32>) {
    i <= |b| && SlotsIn(AllSlots(|b|)[..i], |b|) && freed == NonZero(IdsAt(b, AllSlots(|b|)[..i]))
  }

  lemma FoundNone(b: seq<Bd>)
    ensures Found(b, 0, [])
  {
  }

  lemma FoundNext(b: seq<Bd>, i: nat, freed: seq<U32>)
    requires Found(b, i, freed) && i < |b|
    ensures SlotAt(i, |b|) == i && Found(b, i + 1, if b[i].id != 0 then freed + [b[i].id] else freed)
  {
    ModIs(i, |b|, 0, i);
    var all := AllSlots(|b|);
    assert all[..i + 1] == all[..i] + [i];
    IdsConcat(b, all[..i], [i]);
    assert IdsAt(b, [i]) == [b[i].id] && NonZero([b[i].id]) == if b[i].id != 0 then [b[i].id] else [];
  }

  lemma FirstAddr(c: Control, allCnt: int, bds: seq<Bd>)
    requires Sound(c, allCnt, bds) && allCnt != 0
    ensures Fits(c.lay) && c.lay.count == |bds| > 0 && Counts(c) && RingOf(c, bds).bds == bds
    ensures c.lay.first == AddrAt(c.lay, 0)
  {
    ModIs(0, c.lay.count, 0, 0);
  }
}
