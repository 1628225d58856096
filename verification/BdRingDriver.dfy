/** The BD ring as the driver keeps it: u32 heads, counters, BDs in memory and channel registers, updated
    in place. Every operation is proved to be one step of RingModel. */
module BdRingDriver {
  import opened RingAddress
  import opened Descriptor
  import opened RingModel
  import opened RingTheorems
  import opened RingReap
  import opened RingRefinement

  class BdRing {
    const isRx: bool
    /** MaxTransferLen. */
    const mask: int
    const hasSts: U32
    const hasDre: U32
    var f: Fields
    var chan: Channel
    var bds: array<Bd>
    ghost var at: Place

    ghost function C(): Control
      reads this
    {
      Control(f.lay, isRx, mask, f.running, f.freeHead, f.preHead, f.hwHead, f.hwTail, f.postHead,
              f.freeCnt, f.preCnt, f.hwCnt, f.postCnt, f.bdaRestart,
              chan.halted, chan.idle, chan.cdesc, chan.tdesc, at.base, at.next, at.tail, at.restart)
    }

    ghost predicate Valid()
      reads this, bds
    {
      Sound(C(), f.allCnt, bds[..])
    }

    /** The ring has been created and is intact. */
    ghost predicate Ready()
      reads this, bds
    {
      f.allCnt != 0 && Valid()
    }

    ghost function View(): Ring
      requires Ready()
      reads this, bds
    {
      RingOf(C(), bds[..])
    }

    /** A ring as CfgInitialize leaves it: halted and without BDs. */
    constructor (isRx: bool, multiChannel: bool, hasSts: U32, hasDre: U32)
      ensures Valid() && f.allCnt == 0 && !f.running && chan.halted && fresh(bds)
      ensures this.isRx == isRx && this.hasSts == hasSts && this.hasDre == hasDre
    {
      this.isRx, this.mask := isRx, if multiChannel then MCHAN_MAX_TRANSFER_LEN else MAX_TRANSFER_LEN;
      this.hasSts, this.hasDre := hasSts, hasDre;
      f := Fields(Layout(0, 0, 0, 0, 0, 0), false, 0, 0, 0, 0, 0, 0, 0, 0, 0, 0, 0);
      chan := Channel(true, true, 0, 0);
      at := Place(0, 0, 0, 0);
      bds := new Bd[0];
    }

    /** XAxiDma_BdRingAlloc. */
    method Alloc(num: int) returns (st: Status, bdSet: U32)
      requires Valid()
      modifies this`f
      ensures Valid() && f.allCnt == old(f.allCnt) && f.lay == old(f.lay)
      ensures f.allCnt == 0 ==> st == if num <= 0 then InvalidParam else Failure
      ensures f.allCnt != 0 ==> st == AllocStatus(old(View()), num)
      ensures f.allCnt != 0 ==> View() == DoAlloc(old(View()), num)
      ensures st == if num <= 0 then InvalidParam else if num > old(f.freeCnt) then Failure else Success
      ensures st == Success ==> bdSet == old(f.freeHead)
      ensures st == Success ==> f.freeCnt == old(f.freeCnt) - num && f.preCnt == old(f.preCnt) + num
      ensures st != Success ==> f == old(f)
    {
      hide Sound;
      ghost var c, b := C(), bds[..];
      bdSet := 0;
      if f.allCnt == 0 { SoundEmpty(c, f.allCnt, b); }
      if num <= 0 {
        st := InvalidParam;
      } else if f.freeCnt < num {
        st := Failure;
      } else {
        bdSet := f.freeHead;
        f := f.(freeHead := SeekAhead(f.lay, f.freeHead, num), freeCnt := f.freeCnt - num, preCnt := f.preCnt + num);
        assert bds[..] == b;
        AllocControl(c, C(), num, f.allCnt, b);
        st := Success;
      }
    }

    /** XAxiDma_BdRingUnAlloc. A set that lies in the ring must be the end of pre; one that does not is taken by its
        address alone. */
    method UnAlloc(num: int, bdSet: U32) returns (st: Status)
      requires Valid()
      modifies this`f
      ensures Valid() && f.allCnt == old(f.allCnt) && f.lay == old(f.lay)
      ensures st == if num <= 0 then InvalidParam
                    else if num <= old(f.preCnt) && SeekAhead(f.lay, bdSet, num) == old(f.freeHead) then Success
                    else Failure
      ensures f.allCnt != 0 ==> var r := old(View());
        && View() == (if st == Success then DoUnAlloc(r, num, r.pre[|r.pre| - num]) else r)
        && (SlotOf(f.lay, bdSet) < f.allCnt ==> st == UnAllocStatus(r, num, SlotOf(f.lay, bdSet)))
      ensures st == Success ==> f.preCnt == old(f.preCnt) - num && f.freeCnt == old(f.freeCnt) + num
      ensures st != Success ==> f == old(f)
    {
      hide Sound, SeekAhead, SeekBack, SlotOf, DoUnAlloc, Arc;
      ghost var c, b := C(), bds[..];
      if 0 < num <= f.preCnt { UnAllocSet(c, num, bdSet, f.allCnt, b); }
      if num <= 0 {
        st := InvalidParam;
      } else if f.preCnt < num {
        st := Failure;
      } else if SeekAhead(f.lay, bdSet, num) != f.freeHead {
        st := Failure;
      } else {
        f := f.(freeHead := SeekBack(f.lay, f.freeHead, num), freeCnt := f.freeCnt + num, preCnt := f.preCnt - num);
        assert bds[..] == b;
        UnAllocControl(c, C(), num, f.allCnt, b);
        st := Success;
      }
    }

    /** XAxiDma_BdRingFree. */
    method Free(num: int, bdSet: U32) returns (st: Status)
      requires Valid()
      modifies this`f, this`at
      ensures Valid() && f.allCnt == old(f.allCnt) && f.lay == old(f.lay)
      ensures f.allCnt == 0 ==> st == if num < 0 then InvalidParam else if num == 0 then Success else ListError
      ensures f.allCnt != 0 ==> st == FreeStatus(old(View()), num, SlotOf(f.lay, bdSet))
      ensures f.allCnt != 0 ==> View() == DoFree(old(View()), num, SlotOf(f.lay, bdSet))
      ensures st == if num < 0 then InvalidParam
                    else if num == 0 || (num <= old(f.postCnt) && bdSet == old(f.postHead)) then Success else ListError
      ensures st == Success ==> f.postCnt == old(f.postCnt) - num && f.freeCnt == old(f.freeCnt) + num
      ensures st != Success || num == 0 ==> f == old(f)
    {
      hide Sound;
      ghost var c, b := C(), bds[..];
      if f.allCnt == 0 { SoundEmpty(c, f.allCnt, b); }
      if num < 0 {
        st := InvalidParam;
      } else if num == 0 {
        st := Success;
      } else if f.postCnt < num || f.postHead != bdSet {
        st := ListError;
        if f.allCnt != 0 { FreeRefused(c, num, bdSet, f.allCnt, b); }
      } else {
        f := f.(freeCnt := f.freeCnt + num, postCnt := f.postCnt - num, postHead := SeekAhead(f.lay, f.postHead, num));
        at := at.(base := at.base + num);
        assert bds[..] == b;
        FreeControl(c, C(), num, f.allCnt, b);
        st := Success;
      }
    }

    /** XAxiDma_BdRingToHw. */
    method ToHw(num: int, bdSet: U32) returns (st: Status)
      requires Valid()
      modifies this`f, this`chan, this`at, bds
      ensures Valid() && f.allCnt == old(f.allCnt) && f.lay == old(f.lay)
      ensures f.allCnt == 0 ==> st == if num < 0 then InvalidParam else if num == 0 then Success else ListError
      ensures f.allCnt != 0 ==> SlotsIn(old(View()).pre, |old(View()).bds|)
      ensures f.allCnt != 0 ==> st == ToHwStatus(old(View()), num, SlotOf(f.lay, bdSet))
      ensures f.allCnt != 0 ==> View() == DoToHw(old(View()), num, SlotOf(f.lay, bdSet))
      ensures st == Success ==> f.preCnt == old(f.preCnt) - num && f.hwCnt == old(f.hwCnt) + num
      ensures st != Success || num == 0 ==> f == old(f) && chan == old(chan)
    {
      hide Sound, SlotAt, At, Accepts, DoToHw, Send, RingOf, Queued, ToHwStatus, Fits, AddrAt;
      ghost var c, b := C(), bds[..];
      if f.allCnt == 0 { SoundEmpty(c, f.allCnt, b); } else { ToHwRefused(c, num, bdSet, f.allCnt, b); }
      if num < 0 {
        st := InvalidParam;
      } else if num == 0 {
        st := Success;
      } else if f.preCnt < num || f.preHead != bdSet {
        st := ListError;
      } else {
        var ok, cur := MarkSet(num, bdSet);
        if !ok {
          RewrittenSound(c, f.allCnt, b, bds[..]);
          st := Failure;
        } else {
          QueuedSound(c, num, f.allCnt, b, bds[..]);
          QueuedIs(c, num, cur);
          ghost var now := bds[..];
          f := f.(preHead := SeekAhead(f.lay, f.preHead, num), preCnt := f.preCnt - num,
                  hwTail := cur, hwCnt := f.hwCnt + num);
          if f.running {
            chan := chan.(tdesc := VirtToPhys(f.lay, f.hwTail), idle := false);
            at := at.(tail := SlotAt(c.base + c.postCnt + c.hwCnt + num - 1, f.lay.count));
          }
          assert bds[..] == now && C() == Queued(c, num);
          st := Success;
        }
      }
    }

    /** The scan of XAxiDma_BdRingToHw over a set at the head of pre: it checks the BDs and clears their
        complete bits as it goes. `cur` is the last BD of the set when it is accepted. */
    method MarkSet(num: int, bdSet: U32) returns (ok: bool, cur: U32)
      requires Ready() && 0 < num <= f.preCnt && f.preHead == bdSet
      modifies bds
      ensures SlotsIn(old(View()).pre, |old(View()).bds|)
      ensures ok == Accepts(old(View()), num, SlotOf(f.lay, bdSet))
      ensures !ok ==> DoToHw(old(View()), num, SlotOf(f.lay, bdSet)) == old(View()).(bds := bds[..])
      ensures ok ==> DoToHw(old(View()), num, SlotOf(f.lay, bdSet)) == Send(old(View()).(bds := bds[..]), num)
      ensures ok ==> Fits(f.lay) && Counts(C()) && cur == AddrAt(f.lay, at.base + f.postCnt + f.hwCnt + num - 1)
      ensures forall j :: 0 <= j < bds.Length ==> bds[j] == old(bds[j]).(sts := bds[j].sts)
    {
      hide Sound, SlotAt, At, Accepts, Scanned, DoToHw, Send, ClearComplete, StsBits, Length, TxSof, Eof;
      ghost var r, p, head := View(), at.base + f.postCnt + f.hwCnt, SlotOf(f.lay, bdSet);
      PreSlots(C(), f.allCnt, bds[..]);
      ScanStarts(r, num, head);
      cur := bdSet;
      BdIndexAddr(f.lay, p);
      if !isRx && !TxSof(bds[BdIndex(f.lay, cur)]) {
        ok := false;
        return;
      }
      var i := 0;
      while i < num - 1
        invariant 0 <= i <= num - 1
        invariant cur == AddrAt(f.lay, p + i)
        invariant Scanned(r, num, head, i, bds[..])
        invariant forall j :: 0 <= j < bds.Length ==> bds[j] == old(bds[j]).(sts := bds[j].sts)
      {
        BdIndexAddr(f.lay, p + i);
        ScanReads(r, num, head, i, bds[..]);
        var k := BdIndex(f.lay, cur);
        if Length(bds[k], mask) == 0 {
          ScanStops(r, num, head, i, bds[..]);
          ok := false;
          return;
        }
        ScanStep(r, num, head, i, bds[..]);
        bds[k] := MarkedBd(bds[k], i == 0);
        NextAddr(f.lay, p + i);
        cur := Next(f.lay, cur);
        i := i + 1;
      }
      BdIndexAddr(f.lay, p + i);
      ScanReads(r, num, head, i, bds[..]);
      var k := BdIndex(f.lay, cur);
      if (!isRx && !Eof(bds[k], false)) || Length(bds[k], mask) == 0 {
        ScanRejectsLast(r, num, head, bds[..]);
        ok := false;
      } else {
        ScanAccepts(r, num, head, bds[..]);
        bds[k] := MarkedBd(bds[k], i == 0);
        ok := true;
      }
    }

    /** The engine completes the BD it is at, writes the given status word and moves on. */
    method HwStep(word: U32)
      requires Ready()
      modifies this`chan, this`at, bds
      ensures Ready() && Shape(old(View())) && View() == DoHwStep(old(View()), word) && at.base == old(at.base)
    {
      hide Sound, SlotAt, RingOf, DoHwStep, Shape;
      ghost var c, b := C(), bds[..];
      if !chan.halted && !chan.idle && word >= BIT31 {
        EngineFindsBd(c, f.allCnt, b);
        var k := BdIndex(f.lay, PhysToVirt(f.lay, chan.cdesc));
        chan := chan.(cdesc := bds[k].ndesc, idle := chan.cdesc == chan.tdesc);
        at := at.(next := SlotAt(at.next + 1, f.lay.count));
        bds[k] := bds[k].(sts := word);
        HwStepControl(c, C(), f.allCnt, b, word);
        assert bds[..] == b[k := b[k].(sts := word)];
      } else {
        HwIdle(c, f.allCnt, b, word);
      }
    }

    /** The engine completes BDs, one for each status word, as far as it may. */
    method HwBurst(ws: seq<U32>, ghost start: Ring, ghost done: seq<U32>) returns (ghost words: seq<U32>)
      requires Ready() && Inv(start) && View() == Burst(start, done)
      modifies this`chan, this`at, bds
      ensures Ready() && words == done + ws && View() == Burst(start, words) && at.base == old(at.base)
    {
      hide Sound, RingOf, DoHwStep, Shape, Inv;
      words := done;
      var i := 0;
      while i < |ws|
        invariant 0 <= i <= |ws| && words == done + ws[..i]
        invariant Ready() && View() == Burst(start, words) && at.base == old(at.base)
      {
        HwStep(ws[i]);
        assert (words + [ws[i]])[..|words|] == words;
        words := words + [ws[i]];
        i := i + 1;
      }
    }

    /** XAxiDma_BdRingFromHw. Before the scan reads its j-th BD the engine completes BDs with the status words
        env[j]; `words` are those it has written by the time of the last read. */
    method FromHw(limit: int, env: seq<seq<U32>>) returns (count: int, bdSet: U32, ghost words: seq<U32>)
      requires Valid() && (f.allCnt != 0 ==> Inv(View()))
      modifies this`f, this`chan, this`at, bds
      ensures Valid() && f.allCnt == old(f.allCnt) && f.lay == old(f.lay)
      ensures f.allCnt == 0 ==> count == 0
      ensures f.allCnt != 0 ==>
        var mid := Burst(old(View()), words);
        count == Reapable(mid, limit) && View() == DoFromHw(mid, limit)
      ensures (forall j :: 0 <= j < |env| ==> env[j] == []) ==> words == []
      ensures bdSet == if count == 0 then 0 else old(f.hwHead)
      ensures f.hwCnt == old(f.hwCnt) - count && f.postCnt == old(f.postCnt) + count
      ensures f.allCnt != 0 && count > 0 ==> EndsPacket(View())
    {
      hide Sound, RingOf, Inv, Burst, Reapable, Arc, SeekAhead;
      ghost var c0 := C();
      if f.hwCnt == 0 {
        if f.allCnt != 0 { NothingInHw(c0, limit, f.allCnt, bds[..]); } else { SoundEmpty(c0, f.allCnt, bds[..]); }
        return 0, 0, [];
      }
      SoundNonEmpty(c0, f.allCnt, bds[..]);
      var lim := if limit > f.hwCnt then f.hwCnt else limit;
      count, words := Scan(lim, env);
      ghost var c, b, mid := C(), bds[..], View();
      LimitIsCapped(c, limit, lim, f.allCnt, b);
      bdSet := 0;
      if count != 0 {
        bdSet := f.hwHead;
        f := f.(hwCnt := f.hwCnt - count, postCnt := f.postCnt + count, hwHead := SeekAhead(f.lay, f.hwHead, count));
      }
      assert bds[..] == b;
      TakeReaped(c, C(), count, limit, f.allCnt, b);
      InvBasics(mid);
      if count > 0 { FromHwEndsPacket(mid, limit); }
    }

    /** What the engine does while the scan waits for its memory read. */
    method Meanwhile(ws: seq<U32>, ghost start: Ring, ghost done: seq<U32>, ghost count: nat, ghost partial: int)
      returns (ghost words: seq<U32>)
      requires Ready() && Inv(start) && View() == Burst(start, done) && Passed(View(), count, partial)
      modifies this`chan, this`at, bds
      ensures Ready() && words == done + ws && View() == Burst(start, words) && at.base == old(at.base)
      ensures Inv(View()) && Passed(View(), count, partial)
    {
      hide Sound, RingOf, Inv, Burst, Passed, Extends;
      BurstAppend(start, done, ws);
      BurstExtends(View(), ws);
      ghost var was := View();
      words := HwBurst(ws, start, done);
      PassedExtends(was, View(), count, partial);
    }

    /** The scan: how many BDs may be handed back. The engine may be at work meanwhile. */
    method Scan(lim: int, env: seq<seq<U32>>) returns (count: int, ghost words: seq<U32>)
      requires Ready() && Inv(View()) && lim <= f.hwCnt && f.hwCnt > 0
      modifies this`chan, this`at, bds
      ensures Ready() && Inv(View()) && View() == Burst(old(View()), words) && at.base == old(at.base)
      ensures count == Reapable(View(), lim)
      ensures (forall j :: 0 <= j < |env| ==> env[j] == []) ==> words == []
    {
      hide Sound, RingOf, Inv, Shape, Fits, SlotAt, At, AddrAt, Next, Burst, Passed, Reapable, DoneCount, Complete,
           Eof;
      ghost var r0, h := View(), at.base + f.postCnt;
      var cur, partial := f.hwHead, 0;
      HwSlots(C(), f.allCnt, bds[..]);
      words := [];
      count := 0;
      PassedNone(r0);
      while count < lim
        invariant 0 <= count && (count > 0 ==> count <= lim)
        invariant Ready() && Inv(View()) && View() == Burst(r0, words) && at.base + f.postCnt == h
        invariant Passed(View(), count, partial)
        invariant count < lim ==> cur == AddrAt(f.lay, h + count)
        invariant (forall j :: 0 <= j < |env| ==> env[j] == []) ==> words == []
      {
        if count < |env| {
          words := Meanwhile(env[count], r0, words, count, partial);
        }
        ScanSlot(C(), f.allCnt, bds[..], count);
        var k := BdIndex(f.lay, cur);
        if !Complete(bds[k]) {
          ScanResult(View(), lim, count, partial);
          count := count - partial;
          return;
        }
        PassOne(View(), count, partial);
        partial := if Eof(bds[k], isRx) then 0 else partial + 1;
        count := count + 1;
        if cur == f.hwTail { break; }
        cur := Next(f.lay, cur);
      }
      HwSlots(C(), f.allCnt, bds[..]);
      ScanResult(View(), lim, count, partial);
      count := count - partial;
    }

    /** XAxiDma_BdRingClone. */
    method Clone(template: Bd) returns (st: Status)
      requires Valid()
      modifies bds
      ensures Valid()
      ensures f.allCnt == 0 ==> st == NoList
      ensures f.allCnt != 0 ==> View() == DoClone(old(View()), template)
      ensures f.allCnt != 0 ==> st == if old(View()).running then DeviceIsStarted
                                      else if |old(View()).free| != |old(View()).bds| then ListError else Success
    {
      hide Sound, SlotAt, At, Heads, Registers;
      ghost var c, b := C(), bds[..];
      if f.allCnt == 0 { return NoList; }
      HwSlots(c, f.allCnt, b);
      if f.running { return DeviceIsStarted; }
      if f.freeCnt != f.allCnt { return ListError; }
      var i := 0;
      while i < f.allCnt
        invariant 0 <= i <= f.allCnt
        invariant forall j :: 0 <= j < i ==> bds[j] == Cloned(b[j], template)
        invariant forall j :: i <= j < bds.Length ==> bds[j] == b[j]
      {
        bds[i] := Cloned(bds[i], template);
        i := i + 1;
      }
      assert bds[..] == CloneAll(b, template);
      RewrittenSound(c, f.allCnt, b, bds[..]);
      return Success;
    }

    /** XAxiDma_BdRingCheck, on a ring whose memory exists but that need not be consistent. */
    method Check() returns (st: Status)
      requires f.allCnt != 0 ==> Fits(f.lay) && f.lay.count == f.allCnt == bds.Length
      ensures st == if f.allCnt == 0 then NoList else if f.running then IsStarted
                    else if HeadsInRing(f) && CountsAddUp(f) && Linked(f.lay, bds[..]) then Success else ListError
    {
      hide Fits, Linked;
      if f.allCnt == 0 { return NoList; }
      if f.running { return IsStarted; }
      if f.freeHead < f.lay.first || f.freeHead > f.lay.last { return ListError; }
      if f.preHead < f.lay.first || f.preHead > f.lay.last { return ListError; }
      if f.hwHead < f.lay.first || f.hwHead > f.lay.last { return ListError; }
      if f.hwTail < f.lay.first || f.hwTail > f.lay.last { return ListError; }
      if f.postHead < f.lay.first || f.postHead > f.lay.last { return ListError; }
      if f.hwCnt + f.preCnt + f.freeCnt + f.postCnt != f.allCnt { return ListError; }
      var ok := CheckLinks();
      return if ok then Success else ListError;
    }

    /** The walk of XAxiDma_BdRingCheck over the next pointers. */
    method CheckLinks() returns (ok: bool)
      requires Fits(f.lay) && f.lay.count == f.allCnt == bds.Length
      ensures ok == Linked(f.lay, bds[..])
    {
      assert f.lay.count > 0;
      hide SlotAt, At, PhysAt, Fits;
      var addrV, addrP, i := f.lay.first, Wrap(f.lay.phys + f.lay.sep), 1;
      WalkStarts(f.lay);
      while i < f.allCnt
        invariant 1 <= i <= f.allCnt
        invariant addrV == At(f.lay, i - 1) && addrP == PhysWalk(f.lay, i)
        invariant forall j :: 0 <= j < i - 1 ==> bds[j].ndesc == PhysAt(f.lay, SlotAt(j + 1, f.lay.count))
      {
        WalkAt(f.lay, i - 1);
        if bds[BdIndex(f.lay, addrV)].ndesc != addrP { return false; }
        addrV := Wrap(addrV + f.lay.sep);
        addrP := Wrap(addrP + f.lay.sep);
        i := i + 1;
      }
      WalkAt(f.lay, i - 1);
      return bds[BdIndex(f.lay, addrV)].ndesc == f.lay.phys;
    }

    /** Every valid ring passes: Check finds nothing wrong in any state that the operations lead to. */
    lemma ValidPassesCheck()
      requires Ready()
      ensures Fits(f.lay) && f.lay.count == f.allCnt == bds.Length
      ensures HeadsInRing(f) && CountsAddUp(f) && Linked(f.lay, bds[..])
    {
      hide Sound;
      SoundChecksOut(C(), f, bds[..]);
    }

    /** XAxiDma_BdRingCreate, on a channel whose engine is halted and a memory region that exists. */
    method Create(phys: U32, virt: U32, align: U32, cnt: int) returns (st: Status)
      requires Valid() && chan.halted
      requires cnt > 0 && align >= BD_MINIMUM_ALIGNMENT ==> Separation(align) * cnt < TWO32
      modifies this`f, this`bds, this`at
      ensures Valid() && st == CreateStatus(phys, virt, align, cnt)
      ensures st == Success ==> f.allCnt == cnt && fresh(bds) && Created(View())
      ensures st == Success ==> f.lay.first == virt && f.lay.phys == phys && f.lay.sep == align && f.lay.count == cnt
      ensures st == Success ==> f.freeHead == virt && f.freeCnt == cnt && f.lay.last == virt + (cnt - 1) * align
      ensures st == Success ==> Inv(View()) && RestartReady(View())
      ensures st == Success ==> forall i :: 0 <= i < bds.Length ==> bds[i].hasSts == hasSts && bds[i].hasDre == hasDre
      ensures st != Success && cnt > 0 ==> f.allCnt == 0
      ensures st != Success && cnt <= 0 ==> f == old(f) && bds == old(bds)
    {
      hide Sound, SlotAt, At, Inv, RestartReady, Created, Fits, Linked, RingOf, IsPowerOfTwo, Separation;
      ghost var c := C();
      if cnt <= 0 { return InvalidParam; }
      f := f.(allCnt := 0, freeCnt := 0, hwCnt := 0, preCnt := 0, postCnt := 0);
      NoListSound(c, C(), old(f.allCnt), old(bds[..]), bds[..]);
      if align < BD_MINIMUM_ALIGNMENT || !IsPowerOfTwo(align) { return InvalidParam; }
      if phys % align != 0 || virt % align != 0 { return InvalidParam; }
      SeparationIsAlignment(align);
      var sep := Separation(align);
      ScaledOrder(sep, 1, cnt);
      SpanCheckPasses(virt, sep * cnt);
      if virt > Wrap(virt + Wrap(sep * cnt) - 1) { return ListError; }
      var last;
      bds, last := LinkBds(phys, virt, sep, cnt);
      NewLayout(phys, virt, sep, cnt);
      f := Fields(Layout(virt, last, Wrap(last - virt + sep), sep, phys, cnt), false,
                  virt, virt, virt, virt, virt, phys, cnt, 0, 0, 0, cnt);
      at := Place(0, 0, 0, 0);
      NewRing(C(), bds[..]);
      return Success;
    }

    /** Clear the BDs, link each to the next one and the last one to the first, and put in the hardware words. */
    method LinkBds(phys: U32, virt: U32, sep: U32, cnt: nat) returns (a: array<Bd>, last: U32)
      requires sep > 0 && cnt > 0 && virt + sep * cnt <= TWO32 && sep * cnt < TWO32
      ensures fresh(a) && a.Length == cnt && last == LayoutOf(phys, virt, sep, cnt).last
      ensures Fits(LayoutOf(phys, virt, sep, cnt)) && Linked(LayoutOf(phys, virt, sep, cnt), a[..])
      ensures forall j :: 0 <= j < cnt ==> a[j].sts == 0 && a[j].id == 0
      ensures forall j :: 0 <= j < cnt ==> a[j].hasSts == hasSts && a[j].hasDre == hasDre
    {
      hide SlotAt, At, PhysAt, Fits, Wrap, LayoutOf;
      ghost var l := LayoutOf(phys, virt, sep, cnt);
      NewLayout(phys, virt, sep, cnt);
      a := new Bd[cnt](_ => Bd(0, 0, 0, 0, [], 0, 0, 0));
      var bdPhys, i := Wrap(phys + sep), 1;
      last := virt;
      WalkStarts(l);
      while i < cnt
        invariant 1 <= i <= cnt && fresh(a) && a.Length == cnt
        invariant last == At(l, i - 1) && bdPhys == PhysWalk(l, i)
        invariant forall j :: 0 <= j < i - 1 ==> a[j].ndesc == PhysAt(l, SlotAt(j + 1, cnt))
        invariant forall j :: 0 <= j < i - 1 ==> a[j].hasSts == hasSts && a[j].hasDre == hasDre
        invariant forall j :: 0 <= j < cnt ==> a[j].sts == 0 && a[j].id == 0
      {
        WalkAt(l, i - 1);
        a[i - 1] := a[i - 1].(ndesc := bdPhys, hasSts := hasSts, hasDre := hasDre);
        last := Wrap(last + sep);
        bdPhys := Wrap(bdPhys + sep);
        i := i + 1;
      }
      WalkAt(l, i - 1);
      LastSlotAddr(l);
      a[i - 1] := a[i - 1].(ndesc := phys, hasSts := hasSts, hasDre := hasDre);
    }

    /** XAxiDma_UpdateBdRingCDesc; `steps` counts the BDs its search moved on. */
    method UpdateCDesc() returns (st: Status, steps: nat)
      requires Valid()
      modifies this`chan, this`at
      ensures Valid() && chan.halted == old(chan.halted) && (f.allCnt == 0 ==> st == NoList)
      ensures f.allCnt != 0 ==> Shape(old(View())) && st == if SearchFails(old(View())) then DmaError else Success
      ensures f.allCnt != 0 && st == Success ==>
        View() == Located(old(View())) && (!f.running || !chan.halted ==> Aimed(C()))
      ensures st != Success ==> chan == old(chan) && at == old(at)
      ensures f.allCnt != 0 && !f.running && chan.halted ==>
        steps == SearchDistance(bds[..], at.restart, bds.Length) && (st == Success <==> steps < f.allCnt)
    {
      hide Sound, At, SlotAt, AddrAt, Fits, Complete, SearchFails, Located, SearchDistance, Shape, Aimed, RingOf;
      ghost var c, b := C(), bds[..];
      if f.allCnt == 0 { return NoList, 0; }
      if f.running || !chan.halted {
        NoSearch(c, f.allCnt, b);
        return Success, 0;
      }
      SoundPositive(c, f.allCnt, b);
      var phy;
      phy, steps := FindIncomplete();
      if steps == f.allCnt {
        NotLocated(c, f.allCnt, b);
        return DmaError, steps;
      }
      chan := chan.(cdesc := phy);
      at := at.(next := SlotAt(at.restart + steps, f.lay.count));
      assert bds[..] == b;
      LocatedSound(c, C(), f.allCnt, b, steps);
      return Success, steps;
    }

    /** Look for an incomplete BD from the restart point on; back at the restart point there is none. */
    method FindIncomplete() returns (phy: U32, steps: nat)
      requires Ready()
      ensures bds.Length > 0 && f.lay.count == f.allCnt == bds.Length && steps <= bds.Length
      ensures forall q :: at.restart <= q < at.restart + steps ==> Complete(bds[SlotAt(q, bds.Length)])
      ensures steps < bds.Length ==>
        Fits(f.lay) && phy == PhysAt(f.lay, SlotAt(at.restart + steps, bds.Length)) &&
        !Complete(bds[SlotAt(at.restart + steps, bds.Length)])
    {
      hide Sound, At, SlotAt, AddrAt, Fits, Complete, PhysAt, VirtToPhys, PhysToVirt, Next, BdIndex;
      ghost var c, b, s := C(), bds[..], at.restart;
      SoundPositive(c, f.allCnt, b);
      steps := 0;
      SearchAt(c, f.allCnt, b, 0);
      var bd := PhysToVirt(f.lay, f.bdaRestart);
      phy := f.bdaRestart;
      while Complete(bds[BdIndex(f.lay, bd)])
        invariant 0 <= steps < f.allCnt && bd == AddrAt(f.lay, s + steps)
        invariant BdIndex(f.lay, bd) == SlotAt(s + steps, bds.Length)
        invariant phy == PhysAt(f.lay, SlotAt(s + steps, f.allCnt))
        invariant forall q :: s <= q < s + steps ==> Complete(bds[SlotAt(q, bds.Length)])
        decreases f.allCnt - steps
      {
        SearchAt(c, f.allCnt, b, steps);
        bd := Next(f.lay, bd);
        phy := VirtToPhys(f.lay, bd);
        steps := steps + 1;
        if phy == f.bdaRestart { return; }
        SearchAt(c, f.allCnt, b, steps);
      }
    }

    /** XAxiDma_StartBdRingHw. A halted engine must have a valid current descriptor. */
    method StartHw(comesUp: bool) returns (st: Status)
      requires Valid() && (f.allCnt != 0 ==> Aimed(C()))
      modifies this`f, this`chan, this`at
      ensures Valid() && f.allCnt == old(f.allCnt) && st == if old(chan.halted) && !comesUp then DmaError else Success
      ensures f.allCnt != 0 ==> SlotsIn(old(View()).hw, |old(View()).bds|) && View() == Launch(old(View()), comesUp)
      ensures if st == Success then f.running && !chan.halted else f == old(f) && chan == old(chan)
    {
      hide Sound, At, SlotAt, AddrAt, Fits, Complete, Aimed, RingOf, Launch;
      ghost var c, b := C(), bds[..];
      if chan.halted && !comesUp {
        if f.allCnt != 0 { NotLaunched(c, f.allCnt, b); }
        return DmaError;
      }
      if chan.halted {
        chan := chan.(halted := false, idle := true);
      }
      f := f.(running := true);
      if f.allCnt == 0 {
        NoListStays(c, C(), b);
      } else {
        SoundPositive(c, f.allCnt, b);
      }
      if f.hwCnt > 0 {
        TailIndex(c, f.allCnt, b);
        if !Complete(bds[BdIndex(f.lay, f.hwTail)]) {
          chan := chan.(tdesc := VirtToPhys(f.lay, f.hwTail), idle := false);
          at := at.(tail := SlotAt(c.base + c.postCnt + c.hwCnt - 1, |b|));
        }
      }
      assert bds[..] == b;
      if f.allCnt != 0 { LaunchSound(c, C(), comesUp, f.allCnt, b); }
      return Success;
    }

    /** XAxiDma_BdRingStart. */
    method Start(comesUp: bool) returns (st: Status)
      requires Valid() && (f.running ==> !chan.halted)
      modifies this`f, this`chan, this`at
      ensures Valid() && f.allCnt == old(f.allCnt)
      ensures f.allCnt == 0 ==> st == NoList && f == old(f) && chan == old(chan)
      ensures (f.running ==> !chan.halted) && (st == Success ==> f.running)
      ensures f.allCnt != 0 ==> Shape(old(View())) && SlotsIn(old(View()).hw, |old(View()).bds|)
      ensures f.allCnt != 0 ==> View() == DoStart(old(View()), comesUp) && st == StartStatus(old(View()), comesUp)
    {
      hide Sound, At, SlotAt, AddrAt, Fits, Complete, RingOf, Launch, Located, SearchFails, Shape;
      if f.allCnt != 0 && !chan.halted { NoSearch(C(), f.allCnt, bds[..]); }
      if f.allCnt != 0 { NotLaunchedSlots(C(), f.allCnt, bds[..]); }
      var steps;
      st, steps := UpdateCDesc();
      if st != Success { return st; }
      st := StartHw(comesUp);
    }

    /** Pause of one ring: only the driver's own run state changes. */
    method Pause()
      requires Valid()
      modifies this`f
      ensures Valid() && f == old(f).(running := false)
      ensures f.allCnt != 0 ==> View() == old(View()).(running := false)
    {
      hide Sound, At, SlotAt, AddrAt, RingOf;
      ghost var c, b := C(), bds[..];
      f := f.(running := false);
      PauseSound(c, C(), f.allCnt, b);
    }

    /** Reset of one ring: the current-descriptor register is saved as the place to restart from. It must hold the
        address of a BD, as it does in a started engine. */
    method Reset()
      requires Valid() && (f.allCnt != 0 ==> Aimed(C()))
      modifies this`f, this`chan, this`at
      ensures Valid() && f.allCnt == old(f.allCnt) && !f.running && chan.halted
      ensures f.allCnt != 0 ==> View() == DoReset(old(View()), old(at.next))
    {
      hide Sound, At, SlotAt, AddrAt, RingOf, PhysAt, Fits;
      ghost var c, b := C(), bds[..];
      chan := chan.(halted := true, idle := true);
      f := f.(running := false);
      if f.allCnt == 0 {
        NoListStays(c, C(), b);
        return;
      }
      f := f.(bdaRestart := chan.cdesc);
      at := at.(restart := at.next);
      SoundPositive(c, f.allCnt, b);
      ResetSound(c, C(), f.allCnt, b, at.next);
    }

    /** The BD a client holds a pointer to. */
    method ReadBd(ptr: U32, ghost p: nat) returns (bd: Bd)
      requires Ready() && Fits(f.lay) && f.lay.count == bds.Length && ptr == AddrAt(f.lay, p)
      ensures bd == bds[SlotAt(p, bds.Length)]
    {
      hide Sound, At, SlotAt, AddrAt;
      BdIndexAddr(f.lay, p);
      bd := bds[BdIndex(f.lay, ptr)];
    }

    /** A client changes a BD; it leaves the link to the next BD alone. */
    method WriteBd(ptr: U32, bd: Bd, ghost p: nat)
      requires Ready() && Fits(f.lay) && f.lay.count == bds.Length && ptr == AddrAt(f.lay, p)
      requires bd.ndesc == bds[SlotAt(p, bds.Length)].ndesc
      modifies bds
      ensures Ready() && bds[..] == old(bds[..])[SlotAt(p, bds.Length) := bd] && View() == old(View()).(bds := bds[..])
    {
      hide Sound, At, SlotAt, AddrAt, RingOf;
      ghost var b := bds[..];
      BdIndexAddr(f.lay, p);
      bds[BdIndex(f.lay, ptr)] := bd;
      RewrittenSound(C(), f.allCnt, b, bds[..]);
    }
  }
}
