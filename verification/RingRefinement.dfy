/** How the driver's heads, counters and registers stand for the groups of RingModel. */
module RingRefinement {
  import opened RingAddress
  import opened Descriptor
  import opened RingModel
  import opened RingTheorems
  import opened RingReap

  /** Index of the BD at an address of the ring. */
  function BdIndex(l: Layout, bd: U32): int
    requires l.sep > 0
  {
    (bd - l.first) / l.sep
  }

  lemma BdIndexAt(l: Layout, i: int)
    requires Fits(l) && 0 <= i < l.count
    ensures 0 <= At(l, i) < TWO32 && BdIndex(l, At(l, i)) == i
  {
    AtInRing(l, i);
    AtIsProduct(l, i);
    ModIs(l.sep * i, l.sep, i, 0);
  }

  /** The slot at an address, or the BD count for an address that is none of the ring's. */
  ghost function SlotOf(l: Layout, bd: U32): (s: nat)
    ensures s <= l.count
    ensures s < l.count ==> At(l, s) == bd
    ensures s == l.count ==> forall i :: 0 <= i < l.count ==> At(l, i) != bd
  {
    if i :| 0 <= i < l.count && At(l, i) == bd then i else l.count
  }

  lemma SlotOfAt(l: Layout, i: nat)
    requires Fits(l) && i < l.count
    ensures 0 <= At(l, i) < TWO32 && SlotOf(l, At(l, i)) == i
  {
    AtInRing(l, i);
    AtInjective(l, i, SlotOf(l, At(l, i)));
  }

  /** Physical address of the BD in a slot. */
  ghost function PhysAt(l: Layout, i: int): U32
    requires Fits(l) && 0 <= i < l.count
  {
    AtInRing(l, i);
    VirtToPhys(l, At(l, i))
  }

  lemma PhysAtInjective(l: Layout, i: int, j: int)
    requires Fits(l) && 0 <= i < l.count && 0 <= j < l.count && PhysAt(l, i) == PhysAt(l, j)
    ensures i == j
  {
    AtInRing(l, i);
    AtInRing(l, j);
    TranslationRoundTrip(l, At(l, i));
    TranslationRoundTrip(l, At(l, j));
    AtInjective(l, i, j);
  }

  /** The BDs form one physical cycle in slot order. */
  ghost predicate Linked(l: Layout, bds: seq<Bd>)
    requires Fits(l)
  {
    |bds| == l.count && forall i :: 0 <= i < |bds| ==> bds[i].ndesc == PhysAt(l, SlotAt(i + 1, l.count))
  }

  /** Address of the slot at position p. */
  ghost function AddrAt(l: Layout, p: nat): U32
    requires Fits(l)
  {
    AtInRing(l, SlotAt(p, l.count));
    At(l, SlotAt(p, l.count))
  }

  lemma SeekAheadAddr(l: Layout, p: nat, n: nat)
    requires Fits(l) && n <= l.count
    ensures SeekAhead(l, AddrAt(l, p), n) == AddrAt(l, p + n)
  {
    SeekAheadIsIndexStep(l, SlotAt(p, l.count), n);
    SlotAdd(p, n, l.count);
  }

  lemma SlotBack(p: nat, n: nat, c: nat)
    requires c > 0 && n <= p
    ensures (SlotAt(p, c) - n) % c == SlotAt(p - n, c)
  {
    ModAdd(p, 0 - n, c);
  }

  lemma SeekBackAddr(l: Layout, p: nat, n: nat)
    requires Fits(l) && n <= l.count && n <= p
    ensures SeekBack(l, AddrAt(l, p), n) == AddrAt(l, p - n)
  {
    SlotBack(p, n, l.count);
    SeekBackIsIndexStep(l, SlotAt(p, l.count), n);
  }

  lemma NextAddr(l: Layout, p: nat)
    requires Fits(l)
    ensures Next(l, AddrAt(l, p)) == AddrAt(l, p + 1)
  {
    NextIsIndexStep(l, SlotAt(p, l.count));
    SlotAdd(p, 1, l.count);
  }

  /** Two positions less than a turn apart have the same address only if they are the same. */
  lemma AddrDistinct(l: Layout, p: nat, q: nat)
    requires Fits(l) && p <= q < p + l.count && AddrAt(l, p) == AddrAt(l, q)
    ensures p == q
  {
    AtInjective(l, SlotAt(p, l.count), SlotAt(q, l.count));
    if p < q { ArcDistinct(p, 0, q - p, l.count); }
  }

  /** The fields of XAxiDma_BdRing that its functions update. `running` is RunState ==
      AXIDMA_CHANNEL_NOT_HALTED, and `lay` holds the address fields and the BD count. */
  datatype Fields = Fields(lay: Layout, running: bool,
                           freeHead: U32, preHead: U32, hwHead: U32, hwTail: U32, postHead: U32, bdaRestart: U32,
                           freeCnt: int, preCnt: int, hwCnt: int, postCnt: int, allCnt: int)

  /** The DMA channel: the halted bit of the status register, whether the engine has reached its tail, and
      the current- and tail-descriptor registers. */
  datatype Channel = Channel(halted: bool, idle: bool, cdesc: U32, tdesc: U32)

  /** Position of the post head along endless turns, and the slots that the registers name. */
  datatype Place = Place(base: nat, next: nat, tail: nat, restart: nat)

  /** Everything about a ring except its BDs, with the position of its post head (counted along endless turns) and
      the slots that the descriptor registers name. */
  datatype Control = Control(lay: Layout, isRx: bool, mask: int, running: bool,
                             freeHead: U32, preHead: U32, hwHead: U32, hwTail: U32, postHead: U32,
                             freeCnt: int, preCnt: int, hwCnt: int, postCnt: int,
                             bdaRestart: U32, halted: bool, idle: bool, cdesc: U32, tdesc: U32,
                             base: nat, nextSlot: nat, tailSlot: nat, restartSlot: nat)

  ghost predicate Counts(c: Control) {
    && c.freeCnt >= 0 && c.preCnt >= 0 && c.hwCnt >= 0 && c.postCnt >= 0
    && c.freeCnt + c.preCnt + c.hwCnt + c.postCnt == c.lay.count
  }

  ghost predicate Heads(c: Control)
    requires Fits(c.lay) && Counts(c)
  {
    && c.postHead == AddrAt(c.lay, c.base)
    && c.hwHead == AddrAt(c.lay, c.base + c.postCnt)
    && c.preHead == AddrAt(c.lay, c.base + c.postCnt + c.hwCnt)
    && c.freeHead == AddrAt(c.lay, c.base + c.postCnt + c.hwCnt + c.preCnt)
    && (c.hwCnt > 0 ==> c.hwTail == AddrAt(c.lay, c.base + c.postCnt + c.hwCnt - 1))
    && c.lay.first <= c.hwTail <= c.lay.last
  }

  ghost predicate Registers(c: Control)
    requires Fits(c.lay)
  {
    && c.nextSlot < c.lay.count && c.tailSlot < c.lay.count && c.restartSlot < c.lay.count
    && c.bdaRestart == PhysAt(c.lay, c.restartSlot)
    && (!c.halted ==> c.cdesc == PhysAt(c.lay, c.nextSlot))
    && (!c.halted && !c.idle ==> c.tdesc == PhysAt(c.lay, c.tailSlot))
  }

  ghost predicate Intact(c: Control) {
    Fits(c.lay) && Counts(c) && Heads(c) && Registers(c)
  }

  /** Whether control fields, BD count and BDs are consistent: either there is no list yet, and every count
      is 0, or the fields are intact and the BDs linked. */
  ghost predicate Sound(c: Control, allCnt: int, bds: seq<Bd>) {
    && (c.mask == MAX_TRANSFER_LEN || c.mask == MCHAN_MAX_TRANSFER_LEN)
    && (if allCnt == 0 then c.freeCnt == 0 && c.preCnt == 0 && c.hwCnt == 0 && c.postCnt == 0
        else c.lay.count == allCnt == |bds| && Intact(c) && Linked(c.lay, bds))
  }

  /** The ring that the control fields and the BDs stand for. */
  ghost function RingOf(c: Control, bds: seq<Bd>): Ring
    requires c.lay.count > 0 && Counts(c)
  {
    var n, h, p := c.lay.count, c.base + c.postCnt, c.base + c.postCnt + c.hwCnt;
    Ring(c.lay, c.isRx, c.mask, Arc(c.base, c.postCnt, n), Arc(h, c.hwCnt, n), Arc(p, c.preCnt, n),
         Arc(p + c.preCnt, c.freeCnt, n), bds, c.running, Engine(!c.halted, c.idle, c.nextSlot, c.tailSlot),
         c.restartSlot)
  }

  lemma GroupsConcat(p: nat, a: nat, b: nat, c: nat, d: nat, n: nat)
    requires a + b + c + d == n > 0
    ensures var o := Arc(p, a, n) + Arc(p + a, b, n) + Arc(p + a + b, c, n) + Arc(p + a + b + c, d, n);
      |o| == n && o[0] == SlotAt(p, n) && o == Arc(o[0], n, n)
  {
    ArcConcat(p, a, b, n);
    ArcConcat(p, a + b, c, n);
    ArcConcat(p, a + b + c, d, n);
    ArcFromSlot(p, n, n);
  }

  /** Intact control fields stand for four arcs that make one full turn. */
  lemma IntactShape(c: Control, bds: seq<Bd>)
    requires Intact(c) && |bds| == c.lay.count
    ensures Shape(RingOf(c, bds))
  {
    GroupsConcat(c.base, c.postCnt, c.hwCnt, c.preCnt, c.freeCnt, c.lay.count);
  }

  /** Alloc advances FreeHead by SEEKAHEAD. */
  lemma AllocControl(c: Control, c': Control, num: int, allCnt: int, bds: seq<Bd>)
    requires Sound(c, allCnt, bds) && 0 < num <= c.freeCnt
    requires c' == c.(freeHead := SeekAhead(c.lay, c.freeHead, num),
                      freeCnt := c.freeCnt - num, preCnt := c.preCnt + num)
    ensures allCnt != 0 && Sound(c', allCnt, bds)
    ensures RingOf(c', bds) == DoAlloc(RingOf(c, bds), num)
  {
    hide SlotAt, At, SeekAhead;
    var n, p := c.lay.count, c.base + c.postCnt + c.hwCnt;
    SeekAheadAddr(c.lay, p + c.preCnt, num);
    ArcConcat(p, c.preCnt, num, n);
    ArcSplit(p + c.preCnt, num, c.freeCnt, n);
  }

  /** Free advances PostHead. */
  lemma FreeControl(c: Control, c': Control, num: int, allCnt: int, bds: seq<Bd>)
    requires Sound(c, allCnt, bds) && 0 < num <= c.postCnt
    requires c' == c.(postHead := SeekAhead(c.lay, c.postHead, num), freeCnt := c.freeCnt + num,
                      postCnt := c.postCnt - num, base := c.base + num)
    ensures allCnt != 0 && Sound(c', allCnt, bds)
    ensures RingOf(c', bds) == DoFree(RingOf(c, bds), num, SlotOf(c.lay, c.postHead))
    ensures FreeStatus(RingOf(c, bds), num, SlotOf(c.lay, c.postHead)) == Success
  {
    hide SlotAt, At, SeekAhead;
    HeadSlot(c.lay, c.base, c.postHead);
    var n, f := c.lay.count, c.base + c.postCnt + c.hwCnt + c.preCnt;
    SeekAheadAddr(c.lay, c.base, num);
    ArcSplit(c.base, num, c.postCnt, n);
    ArcTurn(c.base, num, n);
    ArcConcat(f, c.freeCnt, num, n);
  }

  /** UnAlloc takes FreeHead back by SEEKBACK. */
  lemma UnAllocControl(c: Control, c': Control, num: int, allCnt: int, bds: seq<Bd>)
    requires Sound(c, allCnt, bds) && 0 < num <= c.preCnt
    requires c' == c.(freeHead := SeekBack(c.lay, c.freeHead, num),
                      freeCnt := c.freeCnt + num, preCnt := c.preCnt - num)
    ensures allCnt != 0 && Sound(c', allCnt, bds)
    ensures var r := RingOf(c, bds);
      num <= |r.pre| && RingOf(c', bds) == DoUnAlloc(r, num, r.pre[|r.pre| - num])
  {
    hide SlotAt, At, SeekAhead, SeekBack;
    UnAllocArcs(c.base + c.postCnt + c.hwCnt, c.preCnt, c.freeCnt, num, c.lay.count);
    UnAllocIntact(c, c', num);
  }

  /** A set that lies in the ring is the end of pre exactly when SEEKAHEAD leads from it to FreeHead. */
  lemma UnAllocSet(c: Control, num: int, bd: U32, allCnt: int, bds: seq<Bd>)
    requires Sound(c, allCnt, bds) && 0 < num <= c.preCnt
    ensures allCnt != 0
    ensures var r := RingOf(c, bds);
      num <= |r.pre| &&
      (SlotOf(c.lay, bd) < allCnt ==>
        (SeekAhead(c.lay, bd, num) == c.freeHead <==> r.pre[|r.pre| - num] == SlotOf(c.lay, bd)))
  {
    hide SlotAt, At, SeekAhead;
    var p := c.base + c.postCnt + c.hwCnt;
    UnAllocArcs(p, c.preCnt, c.freeCnt, num, c.lay.count);
    if SlotOf(c.lay, bd) < allCnt {
      SetEndsAt(c.lay, SlotOf(c.lay, bd), p + c.preCnt, num);
    }
  }

  /** Which addresses UnAlloc takes in any state: the set that is the end of pre, and its alias a ring's length away,
      which is no BD. k is the slot of FreeHead. */
  lemma UnAllocExact(c: Control, num: int, bd: U32, k: nat, allCnt: int, bds: seq<Bd>)
    requires Sound(c, allCnt, bds) && 0 < num <= c.preCnt && c.lay.count > 0
    requires k == SlotAt(c.base + c.postCnt + c.hwCnt + c.preCnt, c.lay.count)
    ensures SeekAhead(c.lay, bd, num) == c.freeHead <==>
      bd == At(c.lay, k - num) || bd == At(c.lay, k - num + c.lay.count)
    ensures if k < num then At(c.lay, k - num) < c.lay.first else At(c.lay, k - num + c.lay.count) > c.lay.last
  {
    hide SlotAt, At, SeekAhead;
    SeekAheadExact(c.lay, bd, num, k);
  }

  /** So after one BD of a new ring has been allocated, UnAlloc takes the address right behind the ring for it. */
  lemma UnAllocTakesAlias(c: Control, bds: seq<Bd>)
    requires Fits(c.lay) && Linked(c.lay, bds) && NewControl(c) && c.lay.count >= 2
    requires c.lay.first + c.lay.length < TWO32
    ensures var c' := c.(freeHead := SeekAhead(c.lay, c.freeHead, 1), freeCnt := c.freeCnt - 1, preCnt := 1);
      var bd := c.lay.first + c.lay.length;
      && Sound(c', c.lay.count, bds) && RingOf(c', bds) == DoAlloc(RingOf(c, bds), 1)
      && SeekAhead(c.lay, bd, 1) == c'.freeHead && SlotOf(c.lay, bd) == c.lay.count
  {
    var c' := c.(freeHead := SeekAhead(c.lay, c.freeHead, 1), freeCnt := c.freeCnt - 1, preCnt := 1);
    var n := c.lay.count;
    NewSound(c, bds);
    AllocControl(c, c', 1, n, bds);
    ModOne(1, n);
    UnAllocExact(c', 1, c.lay.first + c.lay.length, 1, n, bds);
    assert At(c.lay, n) == c.lay.first + c.lay.length;
    if SlotOf(c.lay, c.lay.first + c.lay.length) < n {
      AtInRing(c.lay, SlotOf(c.lay, c.lay.first + c.lay.length));
    }
  }

  lemma UnAllocArcs(p: nat, a: nat, f: nat, num: nat, n: nat)
    requires num <= a && n > 0
    ensures Arc(p, a, n)[..a - num] == Arc(p, a - num, n)
    ensures Arc(p, a, n)[a - num..] + Arc(p + a, f, n) == Arc(p + a - num, f + num, n)
    ensures num > 0 ==> Arc(p, a, n)[a - num] == SlotAt(p + a - num, n)
  {
    ArcSplit(p, a - num, a, n);
    ArcConcat(p + a - num, num, f, n);
  }

  lemma UnAllocIntact(c: Control, c': Control, num: int)
    requires Intact(c) && 0 < num <= c.preCnt
    requires c' == c.(freeHead := SeekBack(c.lay, c.freeHead, num),
                      freeCnt := c.freeCnt + num, preCnt := c.preCnt - num)
    ensures Intact(c')
  {
    SeekBackAddr(c.lay, c.base + c.postCnt + c.hwCnt + c.preCnt, num);
  }

  lemma SlotItself(s: nat, n: nat)
    requires s < n
    ensures SlotAt(s, n) == s
  {
    ModOne(s, n);
  }

  /** A set of num BDs at slot s ends right before the slot at position f exactly when s is num before it. */
  lemma SetEndsAt(l: Layout, s: nat, f: nat, num: nat)
    requires Fits(l) && s < l.count && num <= l.count && num <= f
    ensures 0 <= At(l, s) < TWO32
    ensures SeekAhead(l, At(l, s), num) == AddrAt(l, f) <==> s == SlotAt(f - num, l.count)
  {
    hide SlotAt, At, Fits, SeekAhead;
    var n := l.count;
    SlotItself(s, n);
    AtInRing(l, s);
    SeekAheadAddr(l, s, num);
    if s == SlotAt(f - num, n) {
      SlotAdd(f - num, num, n);
    }
    if AddrAt(l, s + num) == AddrAt(l, f) {
      AtInjective(l, SlotAt(s + num, n), SlotAt(f, n));
      SlotBack(s + num, num, n);
      SlotBack(f, num, n);
    }
  }

  /** The control fields after ToHw has taken num BDs that end with the BD at `last`: PreHead has advanced,
      and a started engine has been told about the new tail. */
  ghost function Committed(c: Control, num: int, last: U32, slot: nat): Control {
    c.(preHead := SeekAhead(c.lay, c.preHead, num), preCnt := c.preCnt - num, hwTail := last, hwCnt := c.hwCnt + num,
       tdesc := if c.running then VirtToPhys(c.lay, last) else c.tdesc,
       idle := if c.running then false else c.idle,
       tailSlot := if c.running then slot else c.tailSlot)
  }

  ghost function Queued(c: Control, num: int): Control
    requires Fits(c.lay) && Counts(c) && 0 < num <= c.preCnt
  {
    var tail := c.base + c.postCnt + c.hwCnt + num - 1;
    Committed(c, num, AddrAt(c.lay, tail), SlotAt(tail, c.lay.count))
  }

  lemma QueuedIs(c: Control, num: int, last: U32)
    requires Fits(c.lay) && Counts(c) && 0 < num <= c.preCnt
    requires last == AddrAt(c.lay, c.base + c.postCnt + c.hwCnt + num - 1)
    ensures Queued(c, num) == Committed(c, num, last, SlotAt(c.base + c.postCnt + c.hwCnt + num - 1, c.lay.count))
  {
  }

  lemma SendIntact(c: Control, num: int)
    requires Intact(c) && 0 < num <= c.preCnt
    ensures Intact(Queued(c, num))
  {
    hide SlotAt, At, SeekAhead, VirtToPhys;
    var p := c.base + c.postCnt + c.hwCnt;
    SeekAheadAddr(c.lay, p, num);
    AtInRing(c.lay, SlotAt(p + num - 1, c.lay.count));
  }

  lemma SendControl(c: Control, num: int, bds: seq<Bd>)
    requires Intact(c) && 0 < num <= c.preCnt
    ensures Intact(Queued(c, num)) && RingOf(Queued(c, num), bds) == Send(RingOf(c, bds), num)
  {
    hide SlotAt, At, SeekAhead, VirtToPhys, AddrAt, Heads, Registers;
    var n, p := c.lay.count, c.base + c.postCnt + c.hwCnt;
    SendIntact(c, num);
    ArcConcat(c.base + c.postCnt, c.hwCnt, num, n);
    ArcSplit(p, num, c.preCnt, n);
  }

  /** FromHw advances HwHead. */
  lemma TakeControl(c: Control, c': Control, k: int, bds: seq<Bd>)
    requires Intact(c) && 0 <= k <= c.hwCnt
    requires c' == c.(hwHead := SeekAhead(c.lay, c.hwHead, k), hwCnt := c.hwCnt - k, postCnt := c.postCnt + k)
    ensures Intact(c') && RingOf(c', bds) == Take(RingOf(c, bds), k)
  {
    hide SlotAt, At, SeekAhead;
    var n, h := c.lay.count, c.base + c.postCnt;
    SeekAheadAddr(c.lay, h, k);
    ArcConcat(c.base, c.postCnt, k, n);
    ArcSplit(h, k, c.hwCnt, n);
  }

  /** An address names the slot at position p exactly when it is that slot's address. */
  lemma HeadSlot(l: Layout, p: nat, bd: U32)
    requires Fits(l)
    ensures AddrAt(l, p) == bd <==> SlotOf(l, bd) == SlotAt(p, l.count)
  {
    SlotOfAt(l, SlotAt(p, l.count));
  }

  lemma FreeRefused(c: Control, num: int, bd: U32, allCnt: int, bds: seq<Bd>)
    requires Sound(c, allCnt, bds) && allCnt != 0
    requires num > 0 && (c.postCnt < num || c.postHead != bd)
    ensures DoFree(RingOf(c, bds), num, SlotOf(c.lay, bd)) == RingOf(c, bds)
    ensures FreeStatus(RingOf(c, bds), num, SlotOf(c.lay, bd)) == ListError
  {
    HeadSlot(c.lay, c.base, bd);
  }

  /** A ring that holds any BD has been created. */
  lemma SoundNonEmpty(c: Control, allCnt: int, bds: seq<Bd>)
    requires Sound(c, allCnt, bds)
    requires c.freeCnt != 0 || c.preCnt != 0 || c.hwCnt != 0 || c.postCnt != 0
    ensures allCnt != 0 && c.freeCnt >= 0 && c.preCnt >= 0 && c.hwCnt >= 0 && c.postCnt >= 0
  {
  }

  lemma SoundEmpty(c: Control, allCnt: int, bds: seq<Bd>)
    requires Sound(c, allCnt, bds) && allCnt == 0
    ensures c.freeCnt == 0 && c.preCnt == 0 && c.hwCnt == 0 && c.postCnt == 0
  {
  }

  // ---------- The loop of ToHw ----------

  lemma BdIndexAddr(l: Layout, p: nat)
    requires Fits(l)
    ensures BdIndex(l, AddrAt(l, p)) == SlotAt(p, l.count)
  {
    BdIndexAt(l, SlotAt(p, l.count));
  }

  /** One more BD marked. */
  lemma MarkOne(b: seq<Bd>, s: seq<nat>, i: nat)
    requires i < |s| && SlotsIn(s, |b|)
    ensures SlotsIn(s[..i], |b|) && SlotsIn(s[..i + 1], |b|)
    ensures var m := MarkSent(b, s[..i]); MarkSent(b, s[..i + 1]) == m[s[i] := MarkedBd(m[s[i]], i == 0)]
  {
    PartSlots(s, i, |b|);
    PartSlots(s, i + 1, |b|);
    hide MarkSent, MarkedBd, SlotsIn;
    var p := s[..i];
    assert s[..i + 1] == p + [s[i]];
    MarkAppend(b, p, s[i]);
  }

  lemma MarkAppend(b: seq<Bd>, s: seq<nat>, x: nat)
    requires SlotsIn(s, |b|) && x < |b|
    ensures SlotsIn(s + [x], |b|)
    ensures var m := MarkSent(b, s); MarkSent(b, s + [x]) == m[x := MarkedBd(m[x], s == [])]
  {
    hide ClearComplete, StsBits, Complete;
    assert (s + [x])[..|s|] == s;
  }

  /** The BD with its complete bit cleared from the status word the scan holds for it. */
  function MarkedBd(bd: Bd, first: bool): Bd {
    bd.(sts := ClearComplete(if first then StsBits(bd.sts) else bd.sts))
  }

  lemma NonZeroRunIs(bds: seq<Bd>, s: seq<nat>, mask: int, m: nat, z: nat)
    requires SlotsIn(s, |bds|) && z <= m <= |s|
    requires forall i :: 0 <= i < z ==> Length(bds[s[i]], mask) != 0
    requires z < m ==> Length(bds[s[z]], mask) == 0
    ensures NonZeroRun(bds, s, mask, m) == z
  {
  }

  /** The scan has checked and marked the first i BDs of the set. */
  ghost predicate Scanned(r: Ring, num: int, head: nat, i: nat, now: seq<Bd>) {
    && SlotsIn(r.pre, |r.bds|) && 0 <= i < num <= |r.pre| && r.pre[0] == head
    && (!r.isRx ==> TxSof(r.bds[head]))
    && (forall j :: 0 <= j < i ==> Length(r.bds[r.pre[j]], r.mask) != 0)
    && now == MarkSent(r.bds, r.pre[..i])
  }

  lemma ScanStarts(r: Ring, num: int, head: nat)
    requires SlotsIn(r.pre, |r.bds|) && 0 < num <= |r.pre| && r.pre[0] == head
    ensures r.isRx || TxSof(r.bds[head]) ==> Scanned(r, num, head, 0, r.bds)
    ensures !r.isRx && !TxSof(r.bds[head]) ==> !Accepts(r, num, head) && DoToHw(r, num, head) == r
  {
  }

  /** Marking changes status words only. */
  lemma ScanReads(r: Ring, num: int, head: nat, i: nat, now: seq<Bd>)
    requires Scanned(r, num, head, i, now)
    ensures |now| == |r.bds|
    ensures Length(now[r.pre[i]], r.mask) == Length(r.bds[r.pre[i]], r.mask)
    ensures Eof(now[r.pre[i]], false) == Eof(r.bds[r.pre[i]], false)
  {
    assert now[r.pre[i]] == r.bds[r.pre[i]].(sts := now[r.pre[i]].sts);
  }

  lemma ScanStep(r: Ring, num: int, head: nat, i: nat, now: seq<Bd>)
    requires Scanned(r, num, head, i, now) && i < num - 1 && Length(r.bds[r.pre[i]], r.mask) != 0
    ensures |now| == |r.bds| && Scanned(r, num, head, i + 1, now[r.pre[i] := MarkedBd(now[r.pre[i]], i == 0)])
  {
    MarkOne(r.bds, r.pre, i);
  }

  lemma ScanStops(r: Ring, num: int, head: nat, i: nat, now: seq<Bd>)
    requires Scanned(r, num, head, i, now) && i < num - 1 && Length(r.bds[r.pre[i]], r.mask) == 0
    ensures !Accepts(r, num, head) && DoToHw(r, num, head) == r.(bds := now)
  {
    hide MarkSent, NonZeroRun, Length, TxSof, Eof;
    NonZeroRunIs(r.bds, r.pre, r.mask, num - 1, i);
  }

  lemma ScanRejectsLast(r: Ring, num: int, head: nat, now: seq<Bd>)
    requires num > 0 && Scanned(r, num, head, num - 1, now)
    requires Length(r.bds[r.pre[num - 1]], r.mask) == 0 || (!r.isRx && !Eof(r.bds[r.pre[num - 1]], false))
    ensures !Accepts(r, num, head) && DoToHw(r, num, head) == r.(bds := now)
  {
    hide MarkSent, NonZeroRun, Length, TxSof, Eof;
    NonZeroRunIs(r.bds, r.pre, r.mask, num - 1, num - 1);
  }

  lemma ScanAccepts(r: Ring, num: int, head: nat, now: seq<Bd>)
    requires num > 0 && Scanned(r, num, head, num - 1, now)
    requires Length(r.bds[r.pre[num - 1]], r.mask) != 0 && (!r.isRx ==> Eof(r.bds[r.pre[num - 1]], false))
    ensures Accepts(r, num, head) && |now| == |r.bds|
    ensures DoToHw(r, num, head) == Send(r.(bds := now[r.pre[num - 1] := MarkedBd(now[r.pre[num - 1]], num == 1)]), num)
  {
    hide MarkSent, MarkedBd, NonZeroRun, Length, TxSof, Eof;
    MarkOne(r.bds, r.pre, num - 1);
  }

  /** The set named by the head of pre is what the scan walks over. */
  lemma PreSlots(c: Control, allCnt: int, bds: seq<Bd>)
    requires Sound(c, allCnt, bds) && allCnt != 0
    ensures Fits(c.lay) && Counts(c) && c.lay.count == allCnt == |bds| && SlotsIn(RingOf(c, bds).pre, |bds|)
    ensures |RingOf(c, bds).pre| == c.preCnt
    ensures c.preHead == AddrAt(c.lay, c.base + c.postCnt + c.hwCnt)
    ensures forall i :: 0 <= i < c.preCnt ==>
      RingOf(c, bds).pre[i] == SlotAt(c.base + c.postCnt + c.hwCnt + i, c.lay.count)
    ensures c.preCnt > 0 ==> RingOf(c, bds).pre[0] == SlotOf(c.lay, c.preHead)
  {
    hide SlotAt, At;
    HeadSlot(c.lay, c.base + c.postCnt + c.hwCnt, c.preHead);
  }

  lemma QueuedSound(c: Control, num: int, allCnt: int, was: seq<Bd>, now: seq<Bd>)
    requires Sound(c, allCnt, was) && 0 < num <= c.preCnt
    requires |now| == |was| && forall i :: 0 <= i < |was| ==> now[i].ndesc == was[i].ndesc
    ensures allCnt != 0 && Fits(c.lay) && Counts(c)
    ensures Sound(Queued(c, num), allCnt, now)
    ensures RingOf(Queued(c, num), now) == Send(RingOf(c, was).(bds := now), num)
  {
    hide SlotAt, At, SeekAhead, VirtToPhys, AddrAt, Heads, Registers;
    SendControl(c, num, now);
  }

  lemma RewrittenSound(c: Control, allCnt: int, was: seq<Bd>, now: seq<Bd>)
    requires Sound(c, allCnt, was)
    requires |now| == |was| && forall i :: 0 <= i < |was| ==> now[i].ndesc == was[i].ndesc
    ensures Sound(c, allCnt, now)
    ensures allCnt != 0 ==> RingOf(c, now) == RingOf(c, was).(bds := now)
  {
    hide SlotAt, At, AddrAt, Heads, Registers;
  }

  /** Calls that ToHw turns down before it looks at a BD. */
  lemma ToHwRefused(c: Control, num: int, bd: U32, allCnt: int, bds: seq<Bd>)
    requires Sound(c, allCnt, bds) && allCnt != 0
    ensures SlotsIn(RingOf(c, bds).pre, |RingOf(c, bds).bds|)
    ensures var r := RingOf(c, bds); var head := SlotOf(c.lay, bd);
      && (num <= 0 || c.preCnt < num || c.preHead != bd ==> DoToHw(r, num, head) == r)
      && (num > 0 && (c.preCnt < num || c.preHead != bd) <==> ToHwStatus(r, num, head) == ListError)
      && (num < 0 ==> ToHwStatus(r, num, head) == InvalidParam)
      && (num == 0 ==> ToHwStatus(r, num, head) == Success)
      && (num > 0 && num <= c.preCnt && c.preHead == bd ==>
            ToHwStatus(r, num, head) == if Accepts(r, num, head) then Success else Failure)
  {
    hide SlotAt, At, Sound;
    PreSlots(c, allCnt, bds);
    HeadSlot(c.lay, c.base + c.postCnt + c.hwCnt, bd);
  }

  // ---------- The engine ----------

  /** The engine finds its BD through the current-descriptor register and moves on along the next pointer. */
  lemma HwStepControl(c: Control, c': Control, allCnt: int, bds: seq<Bd>, word: U32)
    requires Sound(c, allCnt, bds) && allCnt != 0 && !c.halted && !c.idle && word >= BIT31
    requires c.nextSlot < |bds| && c.lay.count > 0
    requires c' == c.(cdesc := bds[c.nextSlot].ndesc, idle := c.cdesc == c.tdesc,
                      nextSlot := SlotAt(c.nextSlot + 1, c.lay.count))
    ensures var now := bds[c.nextSlot := bds[c.nextSlot].(sts := word)];
      && Sound(c', allCnt, now) && Shape(RingOf(c, bds))
      && RingOf(c', now) == DoHwStep(RingOf(c, bds), word)
  {
    hide SlotAt, At, AddrAt;
    IntactShape(c, bds);
    if c.cdesc == c.tdesc { PhysAtInjective(c.lay, c.nextSlot, c.tailSlot); }
  }

  lemma EngineFindsBd(c: Control, allCnt: int, bds: seq<Bd>)
    requires Sound(c, allCnt, bds) && allCnt != 0 && !c.halted
    ensures c.lay.sep > 0 && c.lay.count > 0 && c.nextSlot < |bds|
    ensures BdIndex(c.lay, PhysToVirt(c.lay, c.cdesc)) == c.nextSlot
  {
    hide SlotAt, At, AddrAt, Heads, VirtToPhys, PhysToVirt;
    AtInRing(c.lay, c.nextSlot);
    TranslationRoundTrip(c.lay, At(c.lay, c.nextSlot));
    BdIndexAt(c.lay, c.nextSlot);
  }

  /** The hardware group as the scan of FromHw walks over it. */
  lemma HwSlots(c: Control, allCnt: int, bds: seq<Bd>)
    requires Sound(c, allCnt, bds) && allCnt != 0
    ensures Fits(c.lay) && Counts(c) && c.lay.count == allCnt == |bds| && c.isRx == RingOf(c, bds).isRx
    ensures RingOf(c, bds).bds == bds && |RingOf(c, bds).hw| == c.hwCnt
    ensures c.hwHead == AddrAt(c.lay, c.base + c.postCnt)
    ensures c.hwCnt > 0 ==> c.hwTail == AddrAt(c.lay, c.base + c.postCnt + c.hwCnt - 1)
    ensures forall i :: 0 <= i < c.hwCnt ==> RingOf(c, bds).hw[i] == SlotAt(c.base + c.postCnt + i, c.lay.count)
  {
    hide SlotAt, At, AddrAt;
  }

  /** Where the scan of FromHw stands after `count` BDs, and where it goes from there. */
  lemma ScanSlot(c: Control, allCnt: int, bds: seq<Bd>, count: nat)
    requires Sound(c, allCnt, bds) && allCnt != 0 && count < c.hwCnt
    ensures Fits(c.lay) && c.lay.sep > 0 && |RingOf(c, bds).hw| == c.hwCnt && RingOf(c, bds).bds == bds
    ensures RingOf(c, bds).isRx == c.isRx
    ensures var a := AddrAt(c.lay, c.base + c.postCnt + count);
      && BdIndex(c.lay, a) == RingOf(c, bds).hw[count] < |bds|
      && (a == c.hwTail <==> count == c.hwCnt - 1)
      && Next(c.lay, a) == AddrAt(c.lay, c.base + c.postCnt + count + 1)
  {
    hide Sound, SlotAt, At, AddrAt, Next, BdIndex;
    var h := c.base + c.postCnt;
    HwSlots(c, allCnt, bds);
    BdIndexAddr(c.lay, h + count);
    NextAddr(c.lay, h + count);
    if AddrAt(c.lay, h + count) == c.hwTail { AddrDistinct(c.lay, h + count, h + c.hwCnt - 1); }
  }

  lemma TakeSound(c: Control, c': Control, k: int, allCnt: int, bds: seq<Bd>)
    requires Sound(c, allCnt, bds) && allCnt != 0 && 0 <= k <= c.hwCnt
    requires c' == c.(hwHead := SeekAhead(c.lay, c.hwHead, k), hwCnt := c.hwCnt - k, postCnt := c.postCnt + k)
    ensures Sound(c', allCnt, bds) && Counts(c) && RingOf(c', bds) == Take(RingOf(c, bds), k)
  {
    hide SlotAt, At, AddrAt, SeekAhead, Heads, Registers;
    TakeControl(c, c', k, bds);
  }

  lemma HwIdle(c: Control, allCnt: int, bds: seq<Bd>, word: U32)
    requires Sound(c, allCnt, bds) && allCnt != 0 && (c.halted || c.idle || word < BIT31)
    ensures Shape(RingOf(c, bds)) && DoHwStep(RingOf(c, bds), word) == RingOf(c, bds)
  {
    hide SlotAt, At, AddrAt, Heads;
    IntactShape(c, bds);
  }

  lemma NothingInHw(c: Control, limit: int, allCnt: int, bds: seq<Bd>)
    requires Sound(c, allCnt, bds) && allCnt != 0 && c.hwCnt == 0 && Inv(RingOf(c, bds))
    ensures var r := RingOf(c, bds); Burst(r, []) == r && Reapable(r, limit) == 0 && DoFromHw(r, limit) == r
  {
    hide SlotAt, At, AddrAt, Heads, Registers;
    var r := RingOf(c, bds);
    assert r.hw == [];
    assert r.post + r.hw[..0] == r.post;
  }

  lemma LimitIsCapped(c: Control, limit: int, lim: int, allCnt: int, bds: seq<Bd>)
    requires Sound(c, allCnt, bds) && allCnt != 0 && Inv(RingOf(c, bds))
    requires lim == if limit > c.hwCnt then c.hwCnt else limit
    ensures Reapable(RingOf(c, bds), lim) == Reapable(RingOf(c, bds), limit)
  {
    hide SlotAt, At, AddrAt, Heads, Registers, DoneCount, LastEof;
  }

  lemma TakeReaped(c: Control, c': Control, k: int, limit: int, allCnt: int, bds: seq<Bd>)
    requires Sound(c, allCnt, bds) && allCnt != 0 && Inv(RingOf(c, bds))
    requires k == Reapable(RingOf(c, bds), limit)
    requires c' == if k == 0 then c
                   else c.(hwHead := SeekAhead(c.lay, c.hwHead, k), hwCnt := c.hwCnt - k, postCnt := c.postCnt + k)
    ensures Sound(c', allCnt, bds) && RingOf(c', bds) == DoFromHw(RingOf(c, bds), limit)
  {
    hide SlotAt, At, AddrAt, SeekAhead, Heads, Registers, Reapable;
    if k == 0 {
      assert RingOf(c, bds).post + [] == RingOf(c, bds).post;
    } else {
      TakeSound(c, c', k, allCnt, bds);
    }
  }

  // ---------- Check ----------

  ghost predicate HeadsInRing(f: Fields) {
    && f.lay.first <= f.freeHead <= f.lay.last && f.lay.first <= f.preHead <= f.lay.last
    && f.lay.first <= f.hwHead <= f.lay.last && f.lay.first <= f.hwTail <= f.lay.last
    && f.lay.first <= f.postHead <= f.lay.last
  }

  ghost predicate CountsAddUp(f: Fields) {
    f.hwCnt + f.preCnt + f.freeCnt + f.postCnt == f.allCnt
  }

  /** The physical address that the walk of Check expects for slot i. */
  ghost function PhysWalk(l: Layout, i: nat): U32 {
    Wrap(l.phys + l.sep * i)
  }

  lemma PhysAtIsWalk(l: Layout, i: nat)
    requires Fits(l) && i < l.count
    ensures PhysAt(l, i) == PhysWalk(l, i)
  {
    AtInRing(l, i);
    AtIsProduct(l, i);
    TranslationFlat(l, At(l, i));
  }

  lemma PhysWalkStep(l: Layout, i: nat)
    ensures Wrap(PhysWalk(l, i) + l.sep) == PhysWalk(l, i + 1)
  {
    assert l.sep * i + l.sep == l.sep * (i + 1);
    WrapAdd(l.phys + l.sep * i, l.sep);
  }

  lemma WalkStarts(l: Layout)
    requires Fits(l)
    ensures At(l, 0) == l.first && Wrap(l.phys + l.sep) == PhysWalk(l, 1)
  {
  }

  /** What the walk sees at slot i, and where it goes from there. */
  lemma WalkAt(l: Layout, i: nat)
    requires Fits(l) && i < l.count
    ensures l.sep > 0 && 0 <= At(l, i) < TWO32 && BdIndex(l, At(l, i)) == i
    ensures i < l.count - 1 ==> PhysAt(l, SlotAt(i + 1, l.count)) == PhysWalk(l, i + 1)
    ensures i < l.count - 1 ==> Wrap(At(l, i) + l.sep) == At(l, i + 1)
    ensures i == l.count - 1 ==> PhysAt(l, SlotAt(i + 1, l.count)) == l.phys
    ensures Wrap(PhysWalk(l, i + 1) + l.sep) == PhysWalk(l, i + 2)
  {
    hide PhysAt, PhysWalk, BdIndex;
    BdIndexAt(l, i);
    ModOne(i + 1, l.count);
    PhysWalkStep(l, i + 1);
    if i < l.count - 1 {
      PhysAtIsWalk(l, i + 1);
      AtInRing(l, i + 1);
      WrapSmall(At(l, i + 1));
    } else {
      PhysAtIsWalk(l, 0);
      WalkReturns(l);
    }
  }

  lemma WalkReturns(l: Layout)
    ensures PhysWalk(l, 0) == l.phys
  {
    WrapSmall(l.phys);
  }

  /** A sound ring passes every test of Check. */
  lemma SoundChecksOut(c: Control, f: Fields, bds: seq<Bd>)
    requires Sound(c, f.allCnt, bds) && f.allCnt != 0
    requires c.lay == f.lay && c.freeHead == f.freeHead && c.preHead == f.preHead && c.hwHead == f.hwHead
    requires c.hwTail == f.hwTail && c.postHead == f.postHead
    requires c.freeCnt == f.freeCnt && c.preCnt == f.preCnt && c.hwCnt == f.hwCnt && c.postCnt == f.postCnt
    ensures Fits(f.lay) && f.lay.count == f.allCnt == |bds|
    ensures HeadsInRing(f) && CountsAddUp(f) && Linked(f.lay, bds)
  {
    hide SlotAt, At;
    var n, p := c.lay.count, c.base + c.postCnt;
    AtInRing(c.lay, SlotAt(c.base, n));
    AtInRing(c.lay, SlotAt(p, n));
    AtInRing(c.lay, SlotAt(p + c.hwCnt, n));
    AtInRing(c.lay, SlotAt(p + c.hwCnt + c.preCnt, n));
  }

  // ---------- Create ----------

  const BD_BYTES := 64
  const BD_MINIMUM_ALIGNMENT := 0x40

  predicate IsPowerOfTwo(a: nat) {
    if a < 2 then a == 1 else a % 2 == 0 && IsPowerOfTwo(a / 2)
  }

  /** The size of a BD rounded up to a multiple of a power of two. */
  function Separation(align: U32): int
    requires align > 0
  {
    (BD_BYTES + (align - 1)) / align * align
  }

  lemma SeparationIsAlignment(align: U32)
    requires align >= BD_MINIMUM_ALIGNMENT
    ensures Separation(align) == align
  {
    ModIs(BD_BYTES + (align - 1), align, 1, BD_BYTES - 1);
  }

  /** What BdRingCreate answers, with the address check as it is computed in u32. */
  function CreateStatus(phys: U32, virt: U32, align: U32, cnt: int): Status {
    if cnt <= 0 || align < BD_MINIMUM_ALIGNMENT || !IsPowerOfTwo(align) || phys % align != 0 || virt % align != 0 then
      InvalidParam
    else if !SpanCheck(virt, Separation(align) * cnt) then ListError
    else Success
  }

  /** The layout of a ring of cnt BDs, sep bytes apart. */
  ghost function LayoutOf(phys: U32, virt: U32, sep: U32, cnt: nat): Layout
    requires sep > 0 && cnt > 0 && virt + sep * cnt <= TWO32 && sep * cnt < TWO32
  {
    ScaledOrder(sep, 1, cnt);
    Layout(virt, virt + sep * cnt - sep, sep * cnt, sep, phys, cnt)
  }

  lemma LayoutFits(phys: U32, virt: U32, sep: U32, cnt: nat)
    requires sep > 0 && cnt > 0 && virt + sep * cnt <= TWO32 && sep * cnt < TWO32
    ensures Fits(LayoutOf(phys, virt, sep, cnt))
  {
    ScaledOrder(sep, 1, cnt);
    FitsProduct(LayoutOf(phys, virt, sep, cnt));
  }

  lemma SpanCheckPasses(virt: U32, bytes: int)
    requires 0 < bytes < TWO32
    ensures SpanCheck(virt, bytes) <==> virt + bytes <= TWO32
  {
    SpanCheckIsExact(bytes);
  }

  lemma NoListSound(c: Control, c': Control, allCnt: int, bds: seq<Bd>, bds': seq<Bd>)
    requires Sound(c, allCnt, bds) && c'.mask == c.mask
    requires c'.freeCnt == 0 && c'.preCnt == 0 && c'.hwCnt == 0 && c'.postCnt == 0
    ensures Sound(c', 0, bds') && (c'.mask == MAX_TRANSFER_LEN || c'.mask == MCHAN_MAX_TRANSFER_LEN)
  {
  }

  lemma NewLayout(phys: U32, virt: U32, sep: U32, cnt: nat)
    requires sep > 0 && cnt > 0 && virt + sep * cnt <= TWO32 && sep * cnt < TWO32
    ensures var l := LayoutOf(phys, virt, sep, cnt);
      && Fits(l) && l.first == virt && l.phys == phys && l.sep == sep && l.count == cnt
      && l == Layout(virt, l.last, Wrap(l.last - virt + sep), sep, phys, cnt)
  {
    LayoutFits(phys, virt, sep, cnt);
    WrapSmall(sep * cnt);
  }

  /** The control fields that BdRingCreate leaves. */
  ghost predicate NewControl(c: Control) {
    && (c.mask == MAX_TRANSFER_LEN || c.mask == MCHAN_MAX_TRANSFER_LEN)
    && c.freeCnt == c.lay.count && c.preCnt == 0 && c.hwCnt == 0 && c.postCnt == 0
    && c.freeHead == c.preHead == c.hwHead == c.hwTail == c.postHead == c.lay.first
    && c.bdaRestart == c.lay.phys && c.halted && !c.running
    && c.base == c.nextSlot == c.tailSlot == c.restartSlot == 0
  }

  /** A newly created ring is sound, has every BD free and incomplete, and can be started. */
  lemma NewRing(c: Control, bds: seq<Bd>)
    requires Fits(c.lay) && Linked(c.lay, bds) && NewControl(c)
    requires forall i :: 0 <= i < |bds| ==> bds[i].sts == 0 && bds[i].id == 0
    ensures Sound(c, c.lay.count, bds) && Created(RingOf(c, bds))
    ensures Inv(RingOf(c, bds)) && RestartReady(RingOf(c, bds))
  {
    hide At, Inv, RestartReady, SlotAt;
    NewSound(c, bds);
    IntactShape(c, bds);
    NewReady(RingOf(c, bds));
  }

  lemma NewSound(c: Control, bds: seq<Bd>)
    requires Fits(c.lay) && Linked(c.lay, bds) && NewControl(c)
    ensures Intact(c) && Sound(c, c.lay.count, bds)
  {
    hide At, VirtToPhys, Wrap;
    AtInRing(c.lay, 0);
    WalkStarts(c.lay);
    WalkReturns(c.lay);
    PhysAtIsWalk(c.lay, 0);
    ModOne(0, c.lay.count);
  }

  lemma NewReady(r: Ring)
    requires Shape(r) && r.post == [] && r.hw == [] && r.pre == [] && r.restart == 0 && !r.running && !r.eng.up
    requires r.free == Arc(0, |r.bds|, |r.bds|)
    requires forall i :: 0 <= i < |r.bds| ==> r.bds[i].sts == 0
    ensures Inv(r) && RestartReady(r)
  {
    hide At;
    assert Order(r) == r.free;
    ModOne(0, |r.bds|);
    assert Frontier(r) == 0;
    RestartDistanceZero(r);
  }

  lemma RestartDistanceZero(r: Ring)
    requires Shape(r) && SlotsIn(r.hw, |r.bds|) && Frontier(r) == r.restart
    ensures RestartDistance(r) == 0
  {
    ModOne(|r.bds|, |r.bds|);
  }

  lemma LastSlotAddr(l: Layout)
    requires Fits(l)
    ensures At(l, l.count - 1) == l.last && Wrap(l.last - l.first + l.sep) == l.length
  {
    AtInRing(l, l.count - 1);
    WrapSmall(l.length);
  }

  // ---------- Start ----------

  lemma SoundPositive(c: Control, allCnt: int, bds: seq<Bd>)
    requires Sound(c, allCnt, bds) && allCnt != 0
    ensures allCnt > 0 && c.lay.count == allCnt == |bds| && Counts(c)
  {
  }

  lemma {:induction false} SearchDistanceIs(bds: seq<Bd>, p: nat, k: nat, d: nat)
    requires |bds| > 0 && d <= k
    requires forall q :: p <= q < p + d ==> Complete(bds[SlotAt(q, |bds|)])
    requires d < k ==> !Complete(bds[SlotAt(p + d, |bds|)])
    ensures SearchDistance(bds, p, k) == d
  {
    hide SlotAt, Complete, SearchDistance;
  }

  /** Where the restart search stands after d steps, and where it goes from there. */
  lemma SearchAt(c: Control, allCnt: int, bds: seq<Bd>, d: nat)
    requires Sound(c, allCnt, bds) && allCnt != 0 && d < allCnt
    ensures Fits(c.lay) && c.lay.sep > 0 && c.lay.count == allCnt == |bds| && c.restartSlot < |bds|
    ensures PhysToVirt(c.lay, c.bdaRestart) == AddrAt(c.lay, c.restartSlot)
    ensures c.bdaRestart == PhysAt(c.lay, SlotAt(c.restartSlot, allCnt))
    ensures var a := AddrAt(c.lay, c.restartSlot + d); var a1 := AddrAt(c.lay, c.restartSlot + d + 1);
      && BdIndex(c.lay, a) == SlotAt(c.restartSlot + d, allCnt) && Next(c.lay, a) == a1
      && VirtToPhys(c.lay, a1) == PhysAt(c.lay, SlotAt(c.restartSlot + d + 1, allCnt))
      && (VirtToPhys(c.lay, a1) == c.bdaRestart <==> d + 1 == allCnt)
  {
    hide At, VirtToPhys, PhysToVirt, Next, BdIndex, Heads, Linked;
    var n, s := c.lay.count, c.restartSlot;
    assert SlotAt(s, n) == s by { ModOne(s, n); }
    AtInRing(c.lay, s);
    TranslationRoundTrip(c.lay, At(c.lay, s));
    BdIndexAddr(c.lay, s + d);
    NextAddr(c.lay, s + d);
    if d + 1 < n { ArcDistinct(s, 0, d + 1, n); } else { SlotTurn(s, n); }
    if VirtToPhys(c.lay, AddrAt(c.lay, s + d + 1)) == c.bdaRestart {
      PhysAtInjective(c.lay, SlotAt(s + d + 1, n), s);
    }
  }

  /** The current-descriptor register names the slot the engine will start with. */
  ghost predicate Aimed(c: Control) {
    Fits(c.lay) && c.nextSlot < c.lay.count && c.cdesc == PhysAt(c.lay, c.nextSlot)
  }

  lemma LocatedSound(c: Control, c': Control, allCnt: int, bds: seq<Bd>, d: nat)
    requires Sound(c, allCnt, bds) && allCnt != 0 && c.halted && !c.running && d < allCnt == |bds|
    requires forall q :: c.restartSlot <= q < c.restartSlot + d ==> Complete(bds[SlotAt(q, |bds|)])
    requires !Complete(bds[SlotAt(c.restartSlot + d, |bds|)])
    requires c' == c.(cdesc := c'.cdesc, nextSlot := SlotAt(c.restartSlot + d, |bds|))
    requires Fits(c.lay) && c.lay.count == |bds| && c'.cdesc == PhysAt(c.lay, c'.nextSlot)
    ensures Sound(c', allCnt, bds) && Aimed(c')
    ensures Shape(RingOf(c, bds)) && !SearchFails(RingOf(c, bds))
    ensures SearchDistance(bds, c.restartSlot, |bds|) == d && RingOf(c', bds) == Located(RingOf(c, bds))
  {
    hide At, SlotAt, AddrAt, Complete, Linked, SearchDistance, Shape, Arc;
    SearchDistanceIs(bds, c.restartSlot, |bds|, d);
    IntactShape(c, bds);
  }

  lemma NotLocated(c: Control, allCnt: int, bds: seq<Bd>)
    requires Sound(c, allCnt, bds) && allCnt != 0 && c.halted && !c.running && allCnt == |bds|
    requires forall q :: c.restartSlot <= q < c.restartSlot + |bds| ==> Complete(bds[SlotAt(q, |bds|)])
    ensures Shape(RingOf(c, bds)) && SearchFails(RingOf(c, bds))
  {
    hide At, SlotAt, AddrAt, Complete;
    SearchDistanceIs(bds, c.restartSlot, |bds|, |bds|);
    IntactShape(c, bds);
  }

  lemma NoSearch(c: Control, allCnt: int, bds: seq<Bd>)
    requires Sound(c, allCnt, bds) && allCnt != 0 && (!c.halted || c.running)
    ensures Shape(RingOf(c, bds)) && !SearchFails(RingOf(c, bds)) && Located(RingOf(c, bds)) == RingOf(c, bds)
    ensures !c.halted ==> Aimed(c)
  {
    hide At, SlotAt, AddrAt, Complete;
    IntactShape(c, bds);
  }

  /** Writing the tail register on start: the last BD of the hardware group, if it is incomplete. */
  lemma LaunchSound(c: Control, c': Control, comesUp: bool, allCnt: int, bds: seq<Bd>)
    requires Sound(c, allCnt, bds) && allCnt != 0 && Aimed(c) && (!c.halted || comesUp)
    requires var publish := c.hwCnt > 0 && !Complete(bds[SlotAt(c.base + c.postCnt + c.hwCnt - 1, |bds|)]);
      c' == c.(running := true, halted := false, idle := if publish then false else c.halted || c.idle,
               tdesc := if publish then VirtToPhys(c.lay, c.hwTail) else c.tdesc,
               tailSlot := if publish then SlotAt(c.base + c.postCnt + c.hwCnt - 1, |bds|) else c.tailSlot)
    ensures Sound(c', allCnt, bds) && SlotsIn(RingOf(c, bds).hw, |RingOf(c, bds).bds|)
    ensures RingOf(c', bds) == Launch(RingOf(c, bds), comesUp)
  {
    hide At, Complete, VirtToPhys, Linked;
    HwSlots(c, allCnt, bds);
    if c.hwCnt > 0 { AtInRing(c.lay, SlotAt(c.base + c.postCnt + c.hwCnt - 1, |bds|)); }
  }

  lemma NotLaunched(c: Control, allCnt: int, bds: seq<Bd>)
    requires Sound(c, allCnt, bds) && allCnt != 0 && c.halted
    ensures SlotsIn(RingOf(c, bds).hw, |RingOf(c, bds).bds|) && Launch(RingOf(c, bds), false) == RingOf(c, bds)
  {
    hide At, AddrAt, SlotAt, Linked, Heads;
    HwSlots(c, allCnt, bds);
  }

  lemma NotLaunchedSlots(c: Control, allCnt: int, bds: seq<Bd>)
    requires Sound(c, allCnt, bds) && allCnt != 0
    ensures SlotsIn(RingOf(c, bds).hw, |RingOf(c, bds).bds|) && Shape(RingOf(c, bds))
    ensures RingOf(c, bds).eng.up == !c.halted
  {
    hide At, AddrAt, SlotAt, Linked;
    IntactShape(c, bds);
    HwSlots(c, allCnt, bds);
  }

  /** While the hardware group is not empty, HwTail is its last BD. */
  lemma TailIndex(c: Control, allCnt: int, bds: seq<Bd>)
    requires Sound(c, allCnt, bds) && allCnt != 0 && c.hwCnt > 0
    ensures c.lay.sep > 0 && BdIndex(c.lay, c.hwTail) == SlotAt(c.base + c.postCnt + c.hwCnt - 1, |bds|)
    ensures BdIndex(c.lay, c.hwTail) == RingOf(c, bds).hw[c.hwCnt - 1]
  {
    hide At, SlotAt, Linked;
    BdIndexAddr(c.lay, c.base + c.postCnt + c.hwCnt - 1);
  }

  lemma NoListStays(c: Control, c': Control, bds: seq<Bd>)
    requires Sound(c, 0, bds) && c' == c.(running := c'.running, halted := c'.halted, idle := c'.idle)
    ensures Sound(c', 0, bds) && c.hwCnt == 0
  {
  }

  lemma PauseSound(c: Control, c': Control, allCnt: int, bds: seq<Bd>)
    requires Sound(c, allCnt, bds) && c' == c.(running := false)
    ensures Sound(c', allCnt, bds)
    ensures allCnt != 0 ==> RingOf(c', bds) == RingOf(c, bds).(running := false)
  {
    hide At, SlotAt, AddrAt;
  }

  lemma ResetSound(c: Control, c': Control, allCnt: int, bds: seq<Bd>, slot: nat)
    requires Sound(c, allCnt, bds) && allCnt != 0 && slot < allCnt
    requires Fits(c.lay) && slot < c.lay.count
    requires c' == c.(running := false, halted := true, idle := true,
                      bdaRestart := PhysAt(c.lay, slot), restartSlot := slot)
    ensures Sound(c', allCnt, bds) && RingOf(c', bds) == DoReset(RingOf(c, bds), slot)
  {
    hide At, SlotAt, AddrAt, PhysAt;
  }
}
