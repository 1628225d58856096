/** Putting a request's buffers on a ring. */
module AesSubmit {
  import opened RingAddress
  import opened Descriptor
  import opened RingModel
  import opened RingRefinement
  import opened BdRingDriver
  import opened Scatter
  import opened SubmitModel

  /** The free group, as the driver's fields show it. */
  lemma FreeGroup(c: Control, allCnt: int, bds: seq<Bd>)
    requires Sound(c, allCnt, bds) && allCnt != 0
    ensures Fits(c.lay) && c.lay.count == |bds| && Counts(c)
    ensures var r := RingOf(c, bds); var p := c.base + c.postCnt + c.hwCnt + c.preCnt;
      && Shape(r) && r.mask == c.mask && ValidMask(r) && r.bds == bds
      && SlotsIn(r.free, |r.bds|) && SlotsIn(r.pre, |r.bds|) && |r.free| == c.freeCnt
      && c.freeHead == AddrAt(c.lay, p)
      && forall i :: 0 <= i < |r.free| ==> r.free[i] == SlotAt(p + i, |bds|)
  {
    hide At, SlotAt, AddrAt, Linked, Registers;
    IntactShape(c, bds);
    FreeSlots(RingOf(c, bds));
  }

  method Fill(ring: BdRing, buf: DmaBuf, bd: U32, sw: U32, ghost p: nat, ghost slots: seq<nat>)
    returns (last: U32, tcnt: nat, gets: nat)
    requires ring.Ready() && Fits(ring.f.lay) && ring.f.lay.count == ring.bds.Length && bd == AddrAt(ring.f.lay, p)
    requires 0 < |buf.segs| == |Pieces(buf.segs, buf.sz)| <= |slots| && SlotsIn(slots, ring.bds.Length)
    requires forall i :: 0 <= i < |slots| ==> slots[i] == SlotAt(p + i, ring.bds.Length)
    requires ring.mask == MAX_TRANSFER_LEN || ring.mask == MCHAN_MAX_TRANSFER_LEN
    modifies ring.bds, buf`i, buf`len
    ensures ring.Ready() && ring.View() == old(ring.View()).(bds := ring.bds[..])
    ensures tcnt == gets == Run(Pieces(buf.segs, buf.sz), 1) && last == AddrAt(ring.f.lay, p + tcnt - 1)
    ensures ring.bds[..] ==
      Filled(old(ring.bds[..]), slots, Pieces(buf.segs, buf.sz)[..tcnt], ring.mask, All(sw))
  {
    hide Sound, At, SlotAt, AddrAt, RingOf, Written, Pieces, Next, Filled, Run, SlotsIn;
    ghost var n, pieces, b := ring.bds.Length, Pieces(buf.segs, buf.sz), ring.bds[..];
    RewrittenSound(ring.C(), ring.f.allCnt, b, b);
    var bdPtr := bd;
    var len, addr := buf.First();
    var more := true;
    tcnt, gets, last := 0, 0, bd;
    FilledNone(b, slots, pieces, ring.mask, All(sw));
    while more
      invariant ring.Ready() && ring.View() == old(ring.View()).(bds := ring.bds[..])
      invariant gets == tcnt <= |pieces| && buf.Valid() && buf.i > 0
      invariant more ==>
        tcnt < |pieces| && buf.i == tcnt + 1 && pieces[tcnt] == Seg(addr, len) && (tcnt > 0 ==> len > 0)
      invariant bdPtr == AddrAt(ring.f.lay, p + tcnt)
      invariant tcnt > 0 ==> last == AddrAt(ring.f.lay, p + tcnt - 1) && Run(pieces, 1) == Run(pieces, tcnt)
      invariant !more ==> tcnt > 0 && Run(pieces, tcnt) == tcnt
      invariant ring.bds[..] == Filled(b, slots, pieces[..tcnt], ring.mask, All(sw))
      decreases |pieces| - tcnt, more
    {
      if tcnt > 0 { RunNext(pieces, tcnt); }
      last := bdPtr;
      bdPtr := FillOne(ring, bdPtr, Seg(addr, len), sw, p, b, slots, pieces, tcnt, All(sw));
      tcnt := tcnt + 1;
      len, addr := buf.Next(addr);
      gets := gets + 1;
      more := len > 0;
      RunNext(pieces, tcnt);
    }
  }

  /** The words of the k-th BD; then on to the next one. */
  method FillOne(ring: BdRing, bdPtr: U32, g: Seg, id: U32,
                 ghost p: nat, ghost b: seq<Bd>, ghost slots: seq<nat>, ghost pieces: seq<Seg>, ghost k: nat,
                 ghost own: Owner)
    returns (next: U32)
    requires ring.Ready() && Fits(ring.f.lay) && ring.f.lay.count == ring.bds.Length
    requires bdPtr == AddrAt(ring.f.lay, p + k)
    requires ring.mask == MAX_TRANSFER_LEN || ring.mask == MCHAN_MAX_TRANSFER_LEN
    requires k < |pieces| <= |slots| && SlotsIn(slots, |b|) && g == pieces[k] && |b| == ring.bds.Length
    requires slots[k] == SlotAt(p + k, ring.bds.Length) && id == IdFor(own, k)
    requires ring.bds[..] == Filled(b, slots, pieces[..k], ring.mask, own)
    modifies ring.bds
    ensures ring.Ready() && ring.View() == old(ring.View()).(bds := ring.bds[..])
    ensures ring.bds[..] == Filled(b, slots, pieces[..k + 1], ring.mask, own)
    ensures next == AddrAt(ring.f.lay, p + k + 1)
  {
    hide Sound, At, SlotAt, AddrAt, RingOf, Written, Filled, Next, SlotsIn;
    FilledNext(b, slots, pieces, k, ring.mask, own);
    var w := ring.ReadBd(bdPtr, p + k);
    ring.WriteBd(bdPtr, Written(w, g, ring.mask, id), p + k);
    NextAddr(ring.f.lay, p + k);
    next := Next(ring.f.lay, bdPtr);
  }

  /** The control bits of the first and the last BD. */
  method Bracket(ring: BdRing, first: U32, last: U32, ghost p: nat, ghost q: nat)
    requires ring.Ready() && Fits(ring.f.lay) && ring.f.lay.count == ring.bds.Length
    requires first == AddrAt(ring.f.lay, p) && last == AddrAt(ring.f.lay, q)
    modifies ring.bds
    ensures ring.Ready() && ring.View() == old(ring.View()).(bds := ring.bds[..])
    ensures var n := ring.bds.Length; ring.bds[..] == Bracketed(old(ring.bds[..]), SlotAt(p, n), SlotAt(q, n))
  {
    hide Sound, At, SlotAt, RingOf, SetCtrl;
    AddrSame(ring.f.lay, p, q);
    hide AddrAt;
    if first != last {
      var w := ring.ReadBd(last, q);
      ring.WriteBd(last, SetCtrl(w, false, true), q);
    }
    var w := ring.ReadBd(first, p);
    ring.WriteBd(first, SetCtrl(w, true, first == last), p);
  }

  lemma AddrSame(l: Layout, p: nat, q: nat)
    requires Fits(l)
    ensures AddrAt(l, p) == AddrAt(l, q) <==> SlotAt(p, l.count) == SlotAt(q, l.count)
  {
    hide At, SlotAt;
    if AddrAt(l, p) == AddrAt(l, q) { AtInjective(l, SlotAt(p, l.count), SlotAt(q, l.count)); }
  }

  /** _aes_desc_to_hw. `gets` counts the references taken, one for each BD. */
  method DescToHw(ring: BdRing, buf: DmaBuf, sw: U32) returns (st: Status, gets: nat)
    requires ring.Ready() && |buf.segs| == |Pieces(buf.segs, buf.sz)|
    modifies ring`f, ring`chan, ring`at, ring.bds, buf`i, buf`len
    ensures ring.Ready()
    ensures var r := old(ring.View()); var pieces := Pieces(buf.segs, buf.sz);
      var n := if pieces == [] then 0 else Run(pieces, 1);
      && SlotsIn(r.free, |r.bds|) && SlotsIn(r.pre, |r.bds|) && ValidMask(r)
      && st == SubmitStatus(r, pieces, n, All(sw)) && ring.View() == Submit(r, pieces, n, All(sw))
      && gets == if |r.free| < |pieces| then 0 else n
  {
    hide Sound, At, SlotAt, AddrAt, RingOf, Pieces, Filled, Run, SlotsIn, ToHwStatus, DoToHw, Bracketed, Shape;
    ghost var r, pieces, p := ring.View(), Pieces(buf.segs, buf.sz), 0;
    p := ring.at.base + ring.f.postCnt + ring.f.hwCnt + ring.f.preCnt;
    FreeGroup(ring.C(), ring.f.allCnt, ring.bds[..]);
    var first;
    st, first := ring.Alloc(|buf.segs|);
    if st != Success { return st, 0; }
    ghost var slots := r.free[..|pieces|];
    PartSlots(r.free, |pieces|, |r.bds|);
    var last, tcnt;
    last, tcnt, gets := Fill(ring, buf, first, sw, p, slots);
    Bracket(ring, first, last, p, p + tcnt - 1);
    HeadSlot(ring.f.lay, p, first);
    st := ring.ToHw(tcnt, first);
  }
}
