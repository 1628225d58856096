/** The DMA engine: a transmit and a receive channel that are reset, paused and resumed together. */
module DmaEngine {
  import opened RingAddress
  import opened RingModel
  import opened RingRefinement
  import opened RingRestart
  import opened BdRingDriver

  datatype Option<T> = None | Some(value: T)

  /** The ring is intact, and its run state says started only when it has BDs and its engine is not halted. */
  ghost predicate Steady(b: BdRing)
    reads b, b.bds
  {
    b.Valid() && (b.f.running ==> !b.chan.halted && b.f.allCnt != 0)
  }

  /** What a ring stands for; without BDs it stands for nothing. */
  ghost function Meaning(b: BdRing): Option<Ring>
    requires b.Valid()
    reads b, b.bds
  {
    if b.f.allCnt == 0 then None else Some(b.View())
  }

  /** A start would succeed, when `comesUp` says whether a halted engine comes up. */
  ghost predicate CanStart(m: Option<Ring>, comesUp: bool) {
    m.Some? && Shape(m.value) && SlotsIn(m.value.hw, |m.value.bds|) && StartStatus(m.value, comesUp) == Success
  }

  /** What one start makes of a ring. */
  ghost function AfterStart(m: Option<Ring>, comesUp: bool): Option<Ring> {
    if m.Some? && Shape(m.value) && SlotsIn(m.value.hw, |m.value.bds|) then Some(DoStart(m.value, comesUp)) else m
  }

  ghost function AfterReset(m: Option<Ring>, slot: nat): Option<Ring> {
    if m.Some? then Some(DoReset(m.value, slot)) else m
  }

  /** A ring that can be started can be started again, to no effect. */
  lemma StartAgain(m: Option<Ring>, up: bool)
    requires CanStart(m, up)
    ensures CanStart(AfterStart(m, up), up) && AfterStart(AfterStart(m, up), up) == AfterStart(m, up)
  {
    hide Shape, DoStart, SlotsIn, StartStatus;
    StartTwice(m.value, up, up);
  }

  /** A started ring can be started. */
  lemma StartedCanStart(b: BdRing, up: bool)
    requires Steady(b) && b.f.running
    ensures CanStart(Meaning(b), up)
  {
    hide Sound, Shape, SlotsIn;
    NotLaunchedSlots(b.C(), b.f.allCnt, b.bds[..]);
    RunningNotFailing(b.View(), up);
  }

  lemma RunningNotFailing(r: Ring, up: bool)
    requires Shape(r) && r.running && r.eng.up
    ensures StartStatus(r, up) == Success
  {
  }

  /** XAxiDma_BdRingStart, for a ring with or without BDs. */
  method StartRing(b: BdRing, up: bool) returns (ok: bool)
    requires Steady(b)
    modifies b`f, b`chan, b`at
    ensures Steady(b) && Meaning(b) == AfterStart(old(Meaning(b)), up)
    ensures ok == CanStart(old(Meaning(b)), up) && (ok ==> b.f.running)
  {
    hide Sound, RingOf, Shape, StartStatus, DoStart, SlotsIn;
    var st := b.Start(up);
    ok := st == Success;
  }

  class AxiDma {
    const hasMm2S: bool
    const hasS2Mm: bool
    var initialized: bool
    const tx: BdRing
    const rx: BdRing

    ghost predicate Valid()
      reads this, tx, rx, tx.bds, rx.bds
    {
      tx != rx && tx.bds != rx.bds && Steady(tx) && Steady(rx)
    }

    /** XAxiDma_CfgInitialize; `resetDone` is whether the reset finished in time. */
    constructor (hasMm2S: bool, hasS2Mm: bool, multiChannel: bool, hasSts: U32, txDre: U32, rxDre: U32, resetDone: bool)
      ensures Valid() && fresh(tx) && fresh(rx) && initialized == resetDone
      ensures this.hasMm2S == hasMm2S && this.hasS2Mm == hasS2Mm && !tx.isRx && rx.isRx
      ensures tx.f.allCnt == rx.f.allCnt == 0 && !tx.f.running && !rx.f.running
    {
      this.hasMm2S, this.hasS2Mm, initialized := hasMm2S, hasS2Mm, resetDone;
      tx := new BdRing(false, multiChannel, hasSts, txDre);
      rx := new BdRing(true, multiChannel, hasSts, rxDre);
    }

    /** XAxiDma_Reset, where the current-descriptor registers hold addresses of BDs. */
    method Reset()
      requires Valid() && (tx.f.allCnt != 0 ==> Aimed(tx.C())) && (rx.f.allCnt != 0 ==> Aimed(rx.C()))
      modifies tx`f, tx`chan, tx`at, rx`f, rx`chan, rx`at
      ensures Valid() && (hasMm2S ==> !tx.f.running && tx.chan.halted) && (hasS2Mm ==> !rx.f.running && rx.chan.halted)
      ensures Meaning(tx) == if hasMm2S then AfterReset(old(Meaning(tx)), old(tx.at.next)) else old(Meaning(tx))
      ensures Meaning(rx) == if hasS2Mm then AfterReset(old(Meaning(rx)), old(rx.at.next)) else old(Meaning(rx))
    {
      hide Sound, RingOf, Aimed;
      if hasMm2S { tx.Reset(); }
      if hasS2Mm { rx.Reset(); }
    }

    /** XAxiDma_Pause. */
    method Pause() returns (st: Status)
      requires Valid()
      modifies tx`f, rx`f
      ensures Valid() && st == if initialized then Success else NotSgDma
      ensures tx.f == if initialized && hasMm2S then old(tx.f).(running := false) else old(tx.f)
      ensures rx.f == if initialized && hasS2Mm then old(rx.f).(running := false) else old(rx.f)
    {
      if !initialized { return NotSgDma; }
      if hasMm2S { tx.Pause(); }
      if hasS2Mm { rx.Pause(); }
      return Success;
    }

    /** XAxiDma_Started. */
    method Started() returns (r: bool)
      ensures r <==> initialized && (hasMm2S ==> !tx.chan.halted) && (hasS2Mm ==> !rx.chan.halted)
    {
      if !initialized { return false; }
      if hasMm2S && tx.chan.halted { return false; }
      if hasS2Mm && rx.chan.halted { return false; }
      return true;
    }

    /** XAxiDma_Start. A channel whose run state is not halted is left as it is. */
    method Start(txUp: bool, rxUp: bool) returns (st: Status)
      requires Valid()
      modifies tx`f, tx`chan, tx`at, rx`f, rx`chan, rx`at
      ensures Valid() && (if initialized then st == Success || st == DmaError else st == NotSgDma)
      ensures !initialized ==> Meaning(tx) == old(Meaning(tx)) && Meaning(rx) == old(Meaning(rx))
      ensures initialized ==> (st == Success <==>
        (hasMm2S && !old(tx.f.running) ==> CanStart(old(Meaning(tx)), txUp)) &&
        (hasS2Mm && !old(rx.f.running) ==> CanStart(old(Meaning(rx)), rxUp)))
      ensures initialized ==> (Meaning(tx) ==
        if hasMm2S && !old(tx.f.running) then AfterStart(old(Meaning(tx)), txUp) else old(Meaning(tx)))
      ensures initialized ==> (Meaning(rx) ==
        if hasS2Mm && !old(rx.f.running) && (hasMm2S && !old(tx.f.running) ==> CanStart(old(Meaning(tx)), txUp))
        then AfterStart(old(Meaning(rx)), rxUp) else old(Meaning(rx)))
      ensures st == Success ==>
        (hasMm2S ==> tx.f.running && !tx.chan.halted) && (hasS2Mm ==> rx.f.running && !rx.chan.halted)
    {
      hide CanStart, AfterStart, Meaning, Sound;
      if !initialized { return NotSgDma; }
      if hasMm2S && !tx.f.running {
        var ok := StartRing(tx, txUp);
        if !ok { return DmaError; }
      }
      if hasS2Mm {
        if rx.f.running { return Success; }
        var ok := StartRing(rx, rxUp);
        if !ok { return DmaError; }
      }
      return Success;
    }

    /** XAxiDma_Resume. Channels the engine reports halted are started first, and then every channel is started;
        a channel started twice is as if it had been started once. */
    method Resume(txUp: bool, rxUp: bool) returns (st: Status)
      requires Valid()
      modifies tx`f, tx`chan, tx`at, rx`f, rx`chan, rx`at
      ensures Valid() && (initialized ==> st == Success || st == DmaError)
      ensures !initialized ==> st == NotSgDma && Meaning(tx) == old(Meaning(tx)) && Meaning(rx) == old(Meaning(rx))
      ensures initialized ==> (st == Success <==>
        (hasMm2S ==> CanStart(old(Meaning(tx)), txUp)) && (hasS2Mm ==> CanStart(old(Meaning(rx)), rxUp)))
      ensures st == Success ==> Meaning(tx) == if hasMm2S then AfterStart(old(Meaning(tx)), txUp) else old(Meaning(tx))
      ensures st == Success ==> Meaning(rx) == if hasS2Mm then AfterStart(old(Meaning(rx)), rxUp) else old(Meaning(rx))
      ensures initialized && hasMm2S && !CanStart(old(Meaning(tx)), txUp) ==>
        Meaning(tx) == AfterStart(old(Meaning(tx)), txUp) && Meaning(rx) == old(Meaning(rx))
      ensures initialized && (hasMm2S ==> CanStart(old(Meaning(tx)), txUp)) && st != Success ==>
        Meaning(rx) == AfterStart(old(Meaning(rx)), rxUp) && Meaning(tx) ==
        if hasMm2S && (!old(tx.f.running) || old(!tx.chan.halted && !rx.chan.halted))
        then AfterStart(old(Meaning(tx)), txUp) else old(Meaning(tx))
      ensures st == Success ==>
        (hasMm2S ==> tx.f.running && !tx.chan.halted) && (hasS2Mm ==> rx.f.running && !rx.chan.halted)
    {
      hide CanStart, AfterStart, Meaning, Sound;
      if !initialized { return NotSgDma; }
      if tx.f.running { StartedCanStart(tx, txUp); }
      if rx.f.running { StartedCanStart(rx, rxUp); }
      if CanStart(Meaning(tx), txUp) { StartAgain(Meaning(tx), txUp); }
      if CanStart(Meaning(rx), rxUp) { StartAgain(Meaning(rx), rxUp); }
      var started := Started();
      if !started {
        st := Start(txUp, rxUp);
        if st != Success { return; }
      }
      if hasMm2S {
        var ok := StartRing(tx, txUp);
        if !ok { return DmaError; }
      }
      if hasS2Mm {
        var ok := StartRing(rx, rxUp);
        if !ok { return DmaError; }
      }
      return Success;
    }
  }
}
