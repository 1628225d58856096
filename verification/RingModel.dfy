/** What a BD ring and the DMA engine behind it mean, without addresses or counters.

    The ring is four FIFO queues of slots (post, hardware, pre, free), the BDs themselves, the run state
    the driver keeps and the engine. The engine processes BDs one at a time from `next` up to and
    including `tail`, and is idle after that until a new tail is written. Each operation is one step;
    RingTheorems and RingRuns prove what holds after every sequence of steps. */
module RingModel {
  import opened RingAddress
  import opened Descriptor

  datatype Status = Success | InvalidParam | Failure | NoList | ListError | DmaError | IsStarted | DeviceIsStarted
                  | NotSgDma

  datatype Engine = Engine(up: bool, idle: bool, next: nat, tail: nat)

  datatype Ring = Ring(lay: Layout, isRx: bool, mask: int,
                       post: seq<nat>, hw: seq<nat>, pre: seq<nat>, free: seq<nat>,
                       bds: seq<Bd>, running: bool, eng: Engine, restart: nat)

  datatype Op =
    | Alloc(num: int)
    | UnAlloc(num: int, head: nat)
    | Fill(slot: nat, bufa: U32, ctrl: U32, user: seq<U32>, id: U32)
    | ToHw(num: int, head: nat)
    | HwStep(sts: U32)
    | FromHw(limit: int)
    | Free(num: int, head: nat)
    | Clone(template: Bd)
    | Pause
    | Reset(snapshot: nat)
    | Start(comesUp: bool)

  // ---------- Slots in ring order ----------

  /** The slot at position p, counting positions along endless turns of a ring of n. */
  ghost function SlotAt(p: nat, n: nat): (s: nat)
    requires n > 0
    ensures s < n
  {
    p % n
  }

  /** k consecutive slots of a ring of n, starting at position p. */
  ghost function Arc(p: nat, k: nat, n: nat): (s: seq<nat>)
    requires n > 0
    ensures |s| == k
    ensures forall i :: 0 <= i < k ==> s[i] == SlotAt(p + i, n)
  {
    seq<nat>(k, i requires 0 <= i < k => SlotAt(p + i, n))
  }

  lemma ArcConcat(p: nat, a: nat, b: nat, n: nat)
    requires n > 0
    ensures Arc(p, a, n) + Arc(p + a, b, n) == Arc(p, a + b, n)
  {
  }

  lemma ArcTurn(p: nat, k: nat, n: nat)
    requires n > 0
    ensures Arc(p + n, k, n) == Arc(p, k, n)
  {
    forall i | 0 <= i < k ensures Arc(p + n, k, n)[i] == Arc(p, k, n)[i] {
      SlotTurn(p + i, n);
    }
  }

  lemma SlotTurn(p: nat, n: nat)
    requires n > 0
    ensures SlotAt(p + n, n) == SlotAt(p, n)
  {
    assert p == p / n * n + p % n;
    ModIs(p + n, n, p / n + 1, p % n);
  }

  lemma SlotAdd(p: nat, k: nat, n: nat)
    requires n > 0
    ensures SlotAt(SlotAt(p, n) + k, n) == SlotAt(p + k, n)
  {
    ModAdd(p, k, n);
  }

  /** Consecutive slots, at most a full turn of them, are pairwise different. */
  lemma ArcDistinct(p: nat, i: nat, j: nat, n: nat)
    requires i < j < n
    ensures SlotAt(p + i, n) != SlotAt(p + j, n)
  {
    if SlotAt(p + i, n) == SlotAt(p + j, n) {
      var q, q' := (p + i) / n, (p + j) / n;
      assert (q' - q) * n == j - i;
      if q' > q { MulGe(n, q' - q); }
      if q' < q { MulGe(n, q - q'); }
    }
  }

  // ---------- Hardware completion ----------

  ghost predicate SlotsIn(s: seq<nat>, n: nat) {
    forall i :: 0 <= i < |s| ==> s[i] < n
  }

  lemma PartSlots(s: seq<nat>, i: nat, n: nat)
    requires i <= |s| && SlotsIn(s, n)
    ensures SlotsIn(s[..i], n) && SlotsIn(s[i..], n) && (i < |s| ==> s[i] < n)
  {
  }

  /** How many leading slots of hw carry the complete bit. */
  ghost function DoneCount(bds: seq<Bd>, hw: seq<nat>): (c: nat)
    requires SlotsIn(hw, |bds|)
    ensures c <= |hw|
    ensures forall i :: 0 <= i < c ==> Complete(bds[hw[i]])
    ensures c < |hw| ==> !Complete(bds[hw[c]])
  {
    if hw == [] || !Complete(bds[hw[0]]) then 0 else 1 + DoneCount(bds, hw[1..])
  }

  lemma DoneCountIs(bds: seq<Bd>, hw: seq<nat>, c: nat)
    requires SlotsIn(hw, |bds|) && c <= |hw|
    requires forall i :: 0 <= i < c ==> Complete(bds[hw[i]])
    requires c < |hw| ==> !Complete(bds[hw[c]])
    ensures DoneCount(bds, hw) == c
  {
  }

  /** The largest k <= c such that the k-th slot ends a packet (or k is 0). */
  ghost function LastEof(bds: seq<Bd>, hw: seq<nat>, isRx: bool, c: nat): (k: nat)
    requires SlotsIn(hw, |bds|) && c <= |hw|
    ensures k <= c
    ensures k > 0 ==> Eof(bds[hw[k - 1]], isRx)
    ensures forall j :: k <= j < c ==> !Eof(bds[hw[j]], isRx)
  {
    if c == 0 || Eof(bds[hw[c - 1]], isRx) then c else LastEof(bds, hw, isRx, c - 1)
  }

  /** How many BDs BdRingFromHw hands back: whole packets only, at most `limit` BDs. */
  ghost function Reapable(r: Ring, limit: int): (k: nat)
    requires SlotsIn(r.hw, |r.bds|)
    ensures k <= |r.hw|
  {
    var c := Min(limit, DoneCount(r.bds, r.hw));
    if c <= 0 then 0 else LastEof(r.bds, r.hw, r.isRx, c)
  }

  // ---------- The groups ----------

  ghost function Order(r: Ring): seq<nat> {
    r.post + r.hw + r.pre + r.free
  }

  /** The four groups, in ring order, are consecutive arcs that together make one full turn. */
  ghost predicate Shape(r: Ring) {
    && Fits(r.lay) && r.lay.count == |r.bds|
    && |Order(r)| == |r.bds|
    && Order(r) == Arc(Order(r)[0], |r.bds|, |r.bds|)
    && r.restart < |r.bds| && r.eng.next < |r.bds| && r.eng.tail < |r.bds|
  }

  /** The ring as BdRingCreate leaves it. */
  ghost predicate Created(r: Ring) {
    && Shape(r) && r.post == [] && r.hw == [] && r.pre == [] && r.free == Arc(0, |r.bds|, |r.bds|)
    && !r.running && !r.eng.up && r.eng.next == 0 && r.restart == 0
    && forall i :: 0 <= i < |r.bds| ==> r.bds[i].sts == 0 && r.bds[i].id == 0
  }

  lemma ShapeSlots(r: Ring)
    requires Shape(r)
    ensures SlotsIn(r.hw, |r.bds|) && SlotsIn(r.pre, |r.bds|)
  {
    var o, n := Order(r), |r.bds|;
    forall i | 0 <= i < |r.hw| ensures r.hw[i] < n { assert r.hw[i] == o[|r.post| + i]; }
    forall i | 0 <= i < |r.pre| ensures r.pre[i] < n { assert r.pre[i] == o[|r.post| + |r.hw| + i]; }
  }

  lemma OrderDistinct(r: Ring)
    requires Shape(r)
    ensures forall i, j :: 0 <= i < j < |Order(r)| ==> Order(r)[i] != Order(r)[j]
  {
    var o, n := Order(r), |r.bds|;
    forall i, j | 0 <= i < j < |o| ensures o[i] != o[j] {
      ArcDistinct(o[0], i, j, n);
    }
  }

  /** The slots of hw the engine has still to process. */
  ghost function Todo(r: Ring): seq<nat>
    requires SlotsIn(r.hw, |r.bds|)
  {
    r.hw[DoneCount(r.bds, r.hw)..]
  }

  /** The slot right after the last one the engine completed: where it has to go on. */
  ghost function Frontier(r: Ring): (f: nat)
    requires Shape(r) && SlotsIn(r.hw, |r.bds|)
  {
    var i := |r.post| + DoneCount(r.bds, r.hw);
    if i < |r.bds| then Order(r)[i] else Order(r)[0]
  }

  /** s up to and including the first t. */
  ghost function UpTo(s: seq<nat>, t: nat): seq<nat> {
    if s == [] then [] else if s[0] == t then [t] else [s[0]] + UpTo(s[1..], t)
  }

  /** The slots the engine will process before it goes idle: those up to the last tail written. */
  ghost function Released(r: Ring): seq<nat>
    requires SlotsIn(r.hw, |r.bds|)
  {
    if r.eng.up && !r.eng.idle then UpTo(Todo(r), r.eng.tail) else []
  }

  // ---------- Operations ----------

  /** The BDs at s, with the complete bit cleared as BdRingToHw does: the status of the first one is read
      through XAxiDma_BdGetSts, which also drops its low bits. */
  ghost function MarkSent(bds: seq<Bd>, s: seq<nat>): (b: seq<Bd>)
    requires SlotsIn(s, |bds|)
    ensures |b| == |bds|
    ensures forall i :: 0 <= i < |bds| ==> b[i] == bds[i].(sts := b[i].sts)
    ensures forall i :: 0 <= i < |bds| && i !in s ==> b[i] == bds[i]
    ensures forall i :: 0 <= i < |s| ==> !Complete(b[s[i]])
  {
    if s == [] then bds
    else
      var last := s[|s| - 1];
      var b := MarkSent(bds, s[..|s| - 1]);
      var word := b[last].sts;
      b[last := b[last].(sts := ClearComplete(if |s| == 1 then StsBits(word) else word))]
  }

  /** How many leading slots of s, looking at no more than m, have a nonzero length. */
  ghost function NonZeroRun(bds: seq<Bd>, s: seq<nat>, mask: int, m: nat): (z: nat)
    requires SlotsIn(s, |bds|) && m <= |s|
    ensures z <= m
    ensures forall i :: 0 <= i < z ==> Length(bds[s[i]], mask) != 0
    ensures z < m ==> Length(bds[s[z]], mask) == 0
  {
    if m == 0 || Length(bds[s[0]], mask) == 0 then 0
    else 1 + NonZeroRun(bds, s[1..], mask, m - 1)
  }

  /** When BdRingToHw takes a nonempty set of BDs. */
  ghost predicate Accepts(r: Ring, num: int, head: nat)
    requires SlotsIn(r.pre, |r.bds|)
  {
    && 0 < num <= |r.pre| && r.pre[0] == head
    && (forall i :: 0 <= i < num ==> Length(r.bds[r.pre[i]], r.mask) != 0)
    && (!r.isRx ==> TxSof(r.bds[head]) && Eof(r.bds[r.pre[num - 1]], false))
  }

  /** How many leading BDs of the set BdRingToHw marks incomplete before it returns. */
  ghost function Marked(r: Ring, num: int, head: nat): (m: nat)
    requires SlotsIn(r.pre, |r.bds|)
    ensures m <= |r.pre|
    ensures m == num && num > 0 <==> Accepts(r, num, head)
    ensures num >= 0 ==> m <= num
  {
    if !(0 < num <= |r.pre|) || r.pre[0] != head || (!r.isRx && !TxSof(r.bds[head])) then 0
    else
      var z := NonZeroRun(r.bds, r.pre, r.mask, num - 1);
      if z < num - 1 then z
      else if (!r.isRx && !Eof(r.bds[r.pre[num - 1]], false)) || Length(r.bds[r.pre[num - 1]], r.mask) == 0 then num - 1
      else num
  }

  ghost function ToHwStatus(r: Ring, num: int, head: nat): Status
    requires SlotsIn(r.pre, |r.bds|)
  {
    if num < 0 then InvalidParam
    else if num == 0 then Success
    else if |r.pre| < num || r.pre[0] != head then ListError
    else if Accepts(r, num, head) then Success else Failure
  }

  ghost function DoToHw(r: Ring, num: int, head: nat): Ring
    requires SlotsIn(r.pre, |r.bds|)
  {
    var m := Marked(r, num, head);
    var marked := r.(bds := MarkSent(r.bds, r.pre[..m]));
    if !Accepts(r, num, head) then marked
    else marked.(hw := r.hw + r.pre[..num], pre := r.pre[num..],
                 eng := if r.running then r.eng.(tail := r.pre[num - 1], idle := false) else r.eng)
  }

  /** Distance from slot p to the first incomplete BD at or after it, or k if there is none within k. */
  ghost function SearchDistance(bds: seq<Bd>, p: nat, k: nat): (d: nat)
    requires |bds| > 0
    ensures d <= k
    ensures forall q :: p <= q < p + d ==> Complete(bds[SlotAt(q, |bds|)])
    ensures d < k ==> !Complete(bds[SlotAt(p + d, |bds|)])
    decreases k
  {
    if k == 0 || !Complete(bds[SlotAt(p, |bds|)]) then 0 else 1 + SearchDistance(bds, p + 1, k - 1)
  }

  /** Whether BdRingStart finds a BD to put into the current-descriptor register. */
  ghost predicate SearchFails(r: Ring)
    requires Shape(r)
  {
    !r.running && !r.eng.up && SearchDistance(r.bds, r.restart, |r.bds|) == |r.bds|
  }

  /** What UpdateBdRingCDesc does for a halted engine when its search succeeds. */
  ghost function Located(r: Ring): Ring
    requires Shape(r)
  {
    if r.running || r.eng.up then r
    else r.(eng := r.eng.(next := SlotAt(r.restart + SearchDistance(r.bds, r.restart, |r.bds|), |r.bds|)))
  }

  ghost function StartStatus(r: Ring, comesUp: bool): Status
    requires Shape(r)
  {
    if SearchFails(r) || (!r.eng.up && !comesUp) then DmaError else Success
  }

  /** StartBdRingHw; `comesUp` is whether the status register reports the engine running after the run bit
      was written. The tail register is written if the last BD of the hardware group is incomplete. */
  ghost function Launch(r: Ring, comesUp: bool): Ring
    requires SlotsIn(r.hw, |r.bds|)
  {
    if !r.eng.up && !comesUp then r
    else if |r.hw| > 0 && !Complete(r.bds[r.hw[|r.hw| - 1]]) then
      r.(running := true, eng := Engine(true, false, r.eng.next, r.hw[|r.hw| - 1]))
    else
      r.(running := true, eng := r.eng.(up := true, idle := !r.eng.up || r.eng.idle))
  }

  /** BdRingStart: UpdateBdRingCDesc, then StartBdRingHw. */
  ghost function DoStart(r: Ring, comesUp: bool): Ring
    requires Shape(r) && SlotsIn(r.hw, |r.bds|)
  {
    if SearchFails(r) then r else Launch(Located(r), comesUp)
  }

  ghost function DoHwStep(r: Ring, sts: U32): Ring
    requires Shape(r)
  {
    if r.eng.up && !r.eng.idle && sts >= BIT31 then
      r.(bds := r.bds[r.eng.next := r.bds[r.eng.next].(sts := sts)],
         eng := r.eng.(next := SlotAt(r.eng.next + 1, |r.bds|), idle := r.eng.next == r.eng.tail))
    else r
  }

  /** The words BdRingClone copies: all but the next pointer and the two hardware words. */
  function Cloned(bd: Bd, template: Bd): Bd {
    template.(ndesc := bd.ndesc, hasSts := bd.hasSts, hasDre := bd.hasDre, sts := ClearComplete(template.sts))
  }

  ghost function CloneAll(bds: seq<Bd>, template: Bd): (b: seq<Bd>)
    ensures |b| == |bds|
    ensures forall i :: 0 <= i < |bds| ==> b[i] == Cloned(bds[i], template)
  {
    if bds == [] then [] else CloneAll(bds[..|bds| - 1], template) + [Cloned(bds[|bds| - 1], template)]
  }

  ghost function DoAlloc(r: Ring, num: int): Ring {
    if 0 < num <= |r.free| then r.(pre := r.pre + r.free[..num], free := r.free[num..]) else r
  }

  ghost function DoUnAlloc(r: Ring, num: int, head: nat): Ring {
    if 0 < num <= |r.pre| && r.pre[|r.pre| - num] == head then
      r.(free := r.pre[|r.pre| - num..] + r.free, pre := r.pre[..|r.pre| - num])
    else r
  }

  ghost function AllocStatus(r: Ring, num: int): Status {
    if num <= 0 then InvalidParam else if |r.free| < num then Failure else Success
  }

  ghost function FreeStatus(r: Ring, num: int, head: nat): Status {
    if num < 0 then InvalidParam
    else if num == 0 || (num <= |r.post| && r.post[0] == head) then Success else ListError
  }

  ghost function UnAllocStatus(r: Ring, num: int, head: nat): Status {
    if num <= 0 then InvalidParam
    else if num <= |r.pre| && r.pre[|r.pre| - num] == head then Success else Failure
  }

  /** The application prepares a BD it owns (pre) or tidies up one it got back (post). */
  ghost function DoFill(r: Ring, slot: nat, bufa: U32, ctrl: U32, user: seq<U32>, id: U32): Ring {
    if slot < |r.bds| && (slot in r.pre || slot in r.post) then
      r.(bds := r.bds[slot := r.bds[slot].(bufa := bufa, ctrl := ctrl, user := user, id := id)])
    else r
  }

  ghost function DoFromHw(r: Ring, limit: int): Ring
    requires SlotsIn(r.hw, |r.bds|)
  {
    var k := Reapable(r, limit);
    r.(post := r.post + r.hw[..k], hw := r.hw[k..])
  }

  ghost function DoFree(r: Ring, num: int, head: nat): Ring {
    if 0 < num <= |r.post| && r.post[0] == head then
      r.(free := r.free + r.post[..num], post := r.post[num..])
    else r
  }

  ghost function DoClone(r: Ring, template: Bd): Ring {
    if !r.running && |r.free| == |r.bds| then r.(bds := CloneAll(r.bds, template)) else r
  }

  ghost function DoReset(r: Ring, snapshot: nat): Ring {
    if snapshot < |r.bds| then
      r.(running := false, restart := snapshot, eng := r.eng.(up := false, idle := true))
    else r
  }

  ghost function Step(r: Ring, op: Op): Ring
    requires Shape(r)
  {
    ShapeSlots(r);
    match op
    case Alloc(num) => DoAlloc(r, num)
    case UnAlloc(num, head) => DoUnAlloc(r, num, head)
    case Fill(slot, bufa, ctrl, user, id) => DoFill(r, slot, bufa, ctrl, user, id)
    case ToHw(num, head) => DoToHw(r, num, head)
    case HwStep(sts) => DoHwStep(r, sts)
    case FromHw(limit) => DoFromHw(r, limit)
    case Free(num, head) => DoFree(r, num, head)
    case Clone(template) => DoClone(r, template)
    case Pause => r.(running := false)
    case Reset(snapshot) => DoReset(r, snapshot)
    case Start(comesUp) => DoStart(r, comesUp)
  }
}
