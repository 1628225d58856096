/** The packet counters of the interrupt handoff, read off the ring: completed and not reaped are the packets whose
    last BD the engine has completed and no scan has handed back. */
module IrqPackets {
  import opened RingAddress
  import opened Descriptor
  import opened RingModel
  import opened RingTheorems
  import opened RingReap
  import Irq = IrqHandoff

  /** How many of the slots end a packet. */
  ghost function Ends(bds: seq<Bd>, s: seq<nat>, isRx: bool): nat
    requires SlotsIn(s, |bds|)
  {
    if s == [] then 0
    else Ends(bds, s[..|s| - 1], isRx) + if Eof(bds[s[|s| - 1]], isRx) then 1 else 0
  }

  lemma {:induction false} EndsSame(b: seq<Bd>, b': seq<Bd>, s: seq<nat>, isRx: bool)
    requires SlotsIn(s, |b|) && |b'| == |b| && forall i :: 0 <= i < |s| ==> b'[s[i]] == b[s[i]]
    ensures Ends(b', s, isRx) == Ends(b, s, isRx)
    decreases |s|
  {
    if s != [] { EndsSame(b, b', s[..|s| - 1], isRx); }
  }

  lemma {:induction false} EndsNone(b: seq<Bd>, s: seq<nat>, isRx: bool)
    requires SlotsIn(s, |b|)
    ensures Ends(b, s, isRx) == 0 <==> forall i :: 0 <= i < |s| ==> !Eof(b[s[i]], isRx)
    decreases |s|
  {
    if s != [] {
      EndsNone(b, s[..|s| - 1], isRx);
      assert forall i :: 0 <= i < |s| - 1 ==> s[..|s| - 1][i] == s[i];
    }
  }

  /** Packets completed and not handed back. */
  ghost function Packets(r: Ring): nat
    requires SlotsIn(r.hw, |r.bds|)
  {
    Ends(r.bds, r.hw[..DoneCount(r.bds, r.hw)], r.isRx)
  }

  /** A device's counters agree with its ring. */
  ghost predicate Shows(v: Irq.Device, r: Ring) {
    Inv(r) && v.reaped + Packets(r) == v.completed
  }

  lemma NextCompleted(r: Ring, word: U32)
    requires Inv(r) && r.eng.up && !r.eng.idle && word >= BIT31
    ensures var r' := DoHwStep(r, word); var d := DoneCount(r.bds, r.hw);
      && r'.hw == r.hw && r'.isRx == r.isRx && |r'.bds| == |r.bds| && d < |r.hw| && r.hw[d] == r.eng.next
      && SlotsIn(r'.hw, |r'.bds|) && DoneCount(r'.bds, r'.hw) == d + 1
      && forall i :: 0 <= i < d ==> r'.bds[r.hw[i]] == r.bds[r.hw[i]]
  {
    HwStepExtends(r, word);
    HwStepParts(r, DoHwStep(r, word), word);
    hide Inv, DoneCount, SlotAt, Shape;
  }

  lemma NextEnds(b: seq<Bd>, b': seq<Bd>, hw: seq<nat>, d: nat, isRx: bool)
    requires SlotsIn(hw, |b|) && |b'| == |b| && d < |hw| && forall i :: 0 <= i < d ==> b'[hw[i]] == b[hw[i]]
    ensures SlotsIn(hw[..d], |b|) && SlotsIn(hw[..d + 1], |b'|)
    ensures Ends(b', hw[..d + 1], isRx) == Ends(b, hw[..d], isRx) + if Eof(b'[hw[d]], isRx) then 1 else 0
  {
    hide Eof;
    assert hw[..d + 1][..d] == hw[..d];
    EndsSame(b, b', hw[..d], isRx);
  }

  /** The engine completes a packet when it completes the BD that ends it. */
  lemma EngineCompletes(v: Irq.Device, r: Ring, word: U32)
    requires Shows(v, r) && r.eng.up && !r.eng.idle && word >= BIT31
    ensures var r' := DoHwStep(r, word);
      Shows(if Eof(r'.bds[r.eng.next], r.isRx) then v.(completed := v.completed + 1) else v, r')
  {
    hide Inv, DoneCount, Eof, DoHwStep, Shape, SlotsIn, Ends;
    InvBasics(r);
    var r', d := DoHwStep(r, word), DoneCount(r.bds, r.hw);
    NextCompleted(r, word);
    HwStepKeeps(r, word);
    NextEnds(r.bds, r'.bds, r.hw, d, r.isRx);
  }

  /** A scan of the whole ring finds nothing exactly when no completed packet is left. */
  lemma LastScanExact(v: Irq.Device, r: Ring, limit: int)
    requires Shows(v, r) && |r.hw| <= limit
    ensures Reapable(r, limit) == 0 <==> v.reaped == v.completed
  {
    var d := DoneCount(r.bds, r.hw);
    hide Inv, DoneCount, Eof;
    EndsNone(r.bds, r.hw[..d], r.isRx);
    assert forall i :: 0 <= i < d ==> r.hw[..d][i] == r.hw[i];
    if d > 0 && Reapable(r, limit) > 0 {
      assert Eof(r.bds[r.hw[Reapable(r, limit) - 1]], r.isRx);
    }
  }

  /** Past the last BD that ends a packet, the completed BDs end none. */
  lemma RestEndsNone(bds: seq<Bd>, hw: seq<nat>, isRx: bool)
    requires SlotsIn(hw, |bds|)
    ensures var d := DoneCount(bds, hw); var rest := hw[LastEof(bds, hw, isRx, d)..];
      SlotsIn(rest, |bds|) && Ends(bds, rest[..DoneCount(bds, rest)], isRx) == 0
  {
    hide DoneCount, LastEof, Complete, Eof, Ends, SlotsIn, InOrder;
    var d := DoneCount(bds, hw);
    var k := LastEof(bds, hw, isRx, d);
    DoneCountDrop(bds, hw, k);
    PartEndsNone(bds, hw, k, d, isRx);
    assert hw[k..][..d - k] == hw[k..d];
  }

  lemma PartEndsNone(bds: seq<Bd>, hw: seq<nat>, k: nat, d: nat, isRx: bool)
    requires k <= d <= |hw| && SlotsIn(hw, |bds|) && forall j :: k <= j < d ==> !Eof(bds[hw[j]], isRx)
    ensures SlotsIn(hw[k..d], |bds|) && Ends(bds, hw[k..d], isRx) == 0
  {
    hide Eof, Ends;
    EndsNone(bds, hw[k..d], isRx);
  }

  /** And hands all of them back. */
  lemma ScanReapsAll(v: Irq.Device, r: Ring, limit: int)
    requires Shows(v, r) && |r.hw| <= limit
    ensures Shows(v.(reaped := v.completed), DoFromHw(r, limit))
  {
    FromHwKeeps(r, limit);
    RestEndsNone(r.bds, r.hw, r.isRx);
    hide Inv, DoneCount, Ends;
    assert Reapable(r, limit) == LastEof(r.bds, r.hw, r.isRx, DoneCount(r.bds, r.hw));
  }

  // ---------- In the steps of the handoff ----------

  /** The engine's steps are Complete steps when they complete a packet, and no step at all otherwise. */
  lemma EngineIsComplete(s: Irq.State, d: nat, r: Ring, word: U32)
    requires d < |s.devs| && Shows(s.devs[d], r) && r.eng.up && !r.eng.idle && word >= BIT31
    ensures Shape(r) && r.eng.next < |r.bds|
    ensures var r' := DoHwStep(r, word);
      && |r'.bds| == |r.bds|
      && Shows((if Eof(r'.bds[r.eng.next], r.isRx) then Irq.Step(s, Irq.Complete(d)) else s).devs[d], r')
  {
    hide Inv, DoHwStep, Eof, Shape;
    InvBasics(r);
    NextCompleted(r, word);
    EngineCompletes(s.devs[d], r, word);
  }

  /** A scan of the whole ring, by the bottom half that drains the device, is a Reap step. */
  lemma ScanIsReap(s: Irq.State, d: nat, r: Ring, limit: int)
    requires s.bh == Irq.Draining(d) && d < |s.devs| && Shows(s.devs[d], r) && |r.hw| <= limit
    requires SlotsIn(r.hw, |r.bds|)
    ensures var devs := Irq.Step(s, Irq.Reap).devs;
      |devs| == |s.devs| && devs == s.devs[d := devs[d]] && Shows(devs[d], DoFromHw(r, limit))
  {
    hide Shows, DoFromHw;
    ScanReapsAll(s.devs[d], r, limit);
  }

  lemma ShowsSlots(v: Irq.Device, r: Ring)
    requires Shows(v, r)
    ensures SlotsIn(r.hw, |r.bds|)
  {
    InvBasics(r);
  }

  /** The drain loop is left exactly when a scan of the whole ring hands back nothing. */
  lemma EmptyScanIsLast(s: Irq.State, d: nat, r: Ring, limit: int)
    requires s.bh == Irq.Draining(d) && d < |s.devs| && Shows(s.devs[d], r) && |r.hw| <= limit
    ensures SlotsIn(r.hw, |r.bds|)
    ensures Irq.Step(s, Irq.LastScan).bh == Irq.Drained(d) <==> Reapable(r, limit) == 0
    ensures Irq.Step(s, Irq.LastScan).devs == s.devs
  {
    hide Shows, Reapable;
    ShowsSlots(s.devs[d], r);
    LastScanExact(s.devs[d], r, limit);
  }
}
