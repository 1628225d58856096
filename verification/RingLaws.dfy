/** What the ring operations do, in terms of counts, of words in memory and of each other. */
module RingLaws {
  import opened RingAddress
  import opened Descriptor
  import opened RingModel
  import opened RingTheorems
  import opened RingRuns
  import opened RingReap
  import opened RingRefinement

  // ---------- Boundaries between the groups ----------

  /** r' has the groups of r, in the same ring order, with the boundaries between them moved; nothing else has
      changed but what `bds` and `eng` say. */
  ghost predicate Moved(r: Ring, r': Ring, post: int, hw: int, pre: int) {
    && r' == r.(post := r'.post, hw := r'.hw, pre := r'.pre, free := r'.free, bds := r'.bds, eng := r'.eng)
    && Order(r') == Order(r)
    && |r'.post| == |r.post| + post && |r'.hw| == |r.hw| + hw && |r'.pre| == |r.pre| + pre
  }

  /** Alloc takes exactly what it is asked for from the head of free, or nothing. */
  lemma AllocLaw(r: Ring, num: int)
    requires Shape(r)
    ensures var r', st := DoAlloc(r, num), AllocStatus(r, num);
      && Step(r, Alloc(num)) == r'
      && (st == Success <==> 0 < num <= |r.free|) && (st == InvalidParam <==> num <= 0)
      && (st == Success ==> Moved(r, r', 0, 0, num) && r'.bds == r.bds && r'.eng == r.eng)
      && (st != Success ==> r' == r && (st == InvalidParam || st == Failure))
  {
    hide Shape, Order;
    if 0 < num <= |r.free| { AllocShape(r, num); }
  }

  /** UnAlloc gives the end of pre back to the head of free, or nothing. */
  lemma UnAllocLaw(r: Ring, num: int, head: nat)
    requires Shape(r)
    ensures var r', st := DoUnAlloc(r, num, head), UnAllocStatus(r, num, head);
      && Step(r, UnAlloc(num, head)) == r'
      && (st == Success <==> 0 < num <= |r.pre| && r.pre[|r.pre| - num] == head) && (st == InvalidParam <==> num <= 0)
      && (st == Success ==> Moved(r, r', 0, 0, -num) && r'.bds == r.bds && r'.eng == r.eng)
      && (st != Success ==> r' == r && (st == InvalidParam || st == Failure))
  {
    hide Shape, Order;
    if 0 < num <= |r.pre| && r.pre[|r.pre| - num] == head { UnAllocShape(r, num, head); }
  }

  /** UnAlloc undoes Alloc. */
  lemma UnAllocUndoesAlloc(r: Ring, num: int)
    requires 0 < num <= |r.free|
    ensures var r' := DoAlloc(r, num);
      && UnAllocStatus(r', num, r.free[0]) == Success && DoUnAlloc(r', num, r.free[0]) == r
  {
    var r' := DoAlloc(r, num);
    assert r'.pre[|r'.pre| - num] == r.free[0];
    assert r'.pre[..|r'.pre| - num] == r.pre && r'.pre[|r'.pre| - num..] + r'.free == r.free;
  }

  /** FromHw moves the boundary behind the hardware group, and writes no BD. */
  lemma FromHwLaw(r: Ring, limit: int)
    requires Shape(r) && SlotsIn(r.hw, |r.bds|)
    ensures var r' := DoFromHw(r, limit);
      && Step(r, FromHw(limit)) == r'
      && Moved(r, r', Reapable(r, limit), 0 - Reapable(r, limit), 0) && r'.bds == r.bds && r'.eng == r.eng
  {
    hide Reapable;
    var r' := DoFromHw(r, limit);
    assert Order(r') == (r'.post + r'.hw) + r.pre + r.free;
    assert r'.post + r'.hw == r.post + r.hw;
  }

  /** Free gives the head of post back, so that the ring order begins num slots further on. */
  lemma FreeLaw(r: Ring, num: int, head: nat)
    requires Shape(r)
    ensures var r', st := DoFree(r, num, head), FreeStatus(r, num, head);
      && Step(r, Free(num, head)) == r'
      && (st == Success <==> num == 0 || (0 < num <= |r.post| && r.post[0] == head))
      && (st == InvalidParam <==> num < 0)
      && (st != Success ==> r' == r && (st == InvalidParam || st == ListError))
      && (st == Success ==>
            && r' == r.(post := r'.post, free := r'.free) && |r'.free| == |r.free| + num
            && num <= |Order(r)| && Order(r') == Order(r)[num..] + Order(r)[..num])
  {
    if 0 < num <= |r.post| && r.post[0] == head {
      assert Order(r)[num..] == r.post[num..] + r.hw + r.pre + r.free;
      assert Order(r)[..num] == r.post[..num];
    } else {
      assert Order(r)[0..] + Order(r)[..0] == Order(r);
    }
  }

  // ---------- What ToHw looks at and writes ----------

  /** The words that make a set of num BDs acceptable. Lengths are the low bits of the control word, which bits 27 and
      26 of a transmit BD start and end a packet. */
  ghost predicate Sendable(bds: seq<Bd>, s: seq<nat>, isRx: bool, mask: int)
    requires SlotsIn(s, |bds|)
  {
    && (forall i :: 0 <= i < |s| ==> bds[s[i]].ctrl % (if mask == 0x7F_FFFF then 0x80_0000 else 0x1_0000) != 0)
    && (s != [] && !isRx ==> bds[s[0]].ctrl / 0x800_0000 % 2 == 1 && bds[s[|s| - 1]].ctrl / 0x400_0000 % 2 == 1)
  }

  /** ToHw takes a set exactly when it is the head of pre and sendable. */
  lemma ToHwStatusLaw(r: Ring, num: int, head: nat)
    requires SlotsIn(r.pre, |r.bds|)
    ensures var st := ToHwStatus(r, num, head);
      && (st == InvalidParam <==> num < 0)
      && (num == 0 ==> st == Success)
      && (st == ListError <==> num > 0 && !(num <= |r.pre| && r.pre[0] == head))
      && (0 < num <= |r.pre| && r.pre[0] == head ==>
            && SlotsIn(r.pre[..num], |r.bds|)
            && st == if Sendable(r.bds, r.pre[..num], r.isRx, r.mask) then Success else Failure)
  {
    hide Sendable, Accepts;
    if 0 < num <= |r.pre| && r.pre[0] == head { AcceptsIsSendable(r, num, head); }
  }

  /** A set that is taken moves the boundary between pre and the hardware group, and the tail register of a started
      channel names its last BD; a set that is refused moves nothing. */
  lemma ToHwLaw(r: Ring, num: int, head: nat)
    requires Shape(r) && SlotsIn(r.pre, |r.bds|)
    ensures var r', st := DoToHw(r, num, head), ToHwStatus(r, num, head);
      && Step(r, ToHw(num, head)) == r'
      && (num == 0 ==> r' == r)
      && (st != Success ==> r' == r.(bds := r'.bds))
      && (st == Success && num > 0 ==>
            && Moved(r, r', 0, num, -num)
            && r'.eng == if r.running then r.eng.(tail := r.pre[num - 1], idle := false) else r.eng)
  {
    hide MarkSent, Accepts, Moved, Shape;
    if num == 0 {
      MarkNone(r);
    } else if Accepts(r, num, head) {
      AcceptsMoves(r, num, head);
    }
  }

  lemma AcceptsMoves(r: Ring, num: int, head: nat)
    requires SlotsIn(r.pre, |r.bds|) && Accepts(r, num, head)
    ensures 0 < num <= |r.pre| && Moved(r, DoToHw(r, num, head), 0, num, -num)
  {
    hide MarkSent;
    var r' := DoToHw(r, num, head);
    assert r'.hw + r'.pre == r.hw + r.pre;
    assert Order(r') == r.post + (r'.hw + r'.pre) + r.free;
    assert Order(r) == r.post + (r.hw + r.pre) + r.free;
  }

  lemma MarkNone(r: Ring)
    requires SlotsIn(r.pre, |r.bds|)
    ensures SlotsIn(r.pre[..0], |r.bds|) && MarkSent(r.bds, r.pre[..0]) == r.bds
  {
  }

  lemma AcceptsIsSendable(r: Ring, num: int, head: nat)
    requires SlotsIn(r.pre, |r.bds|) && 0 < num <= |r.pre| && r.pre[0] == head
    ensures SlotsIn(r.pre[..num], |r.bds|)
    ensures Accepts(r, num, head) <==> Sendable(r.bds, r.pre[..num], r.isRx, r.mask)
  {
    var s := r.pre[..num];
    assert forall i :: 0 <= i < num ==> s[i] == r.pre[i];
  }

  /** The status words of a set that has been sent: bit 31 is cleared, and of the first BD only bits 26 to 30 are left.
      No other word of memory has changed. */
  lemma SentWords(r: Ring, num: int, head: nat, i: nat)
    requires Shape(r) && SlotsIn(r.pre, |r.bds|) && ToHwStatus(r, num, head) == Success && i < num
    ensures var bds, bds' := r.bds, DoToHw(r, num, head).bds;
      && num <= |r.pre| && |bds'| == |bds|
      && bds'[r.pre[i]].sts == bds[r.pre[i]].sts % 0x8000_0000 -
                               (if i == 0 then bds[r.pre[i]].sts % 0x400_0000 else 0)
      && (forall s :: 0 <= s < |bds| ==> bds'[s] == bds[s].(sts := bds'[s].sts))
      && (forall s :: 0 <= s < |bds| && s !in r.pre[..num] ==> bds'[s] == bds[s])
  {
    hide Shape, Accepts, MarkSent;
    PreDistinct(r);
    assert forall k :: 0 <= k < num ==> r.pre[..num][k] == r.pre[k];
    MarkedWord(r.bds, r.pre[..num], i);
    SentWord(r.bds[r.pre[i]].sts);
  }

  lemma SentWord(w: U32)
    ensures ClearComplete(w) == w % 0x8000_0000
    ensures ClearComplete(StsBits(w)) == w % 0x8000_0000 - w % 0x400_0000
  {
    var e, q, l := w / 0x8000_0000, w % 0x8000_0000 / 0x400_0000, w % 0x400_0000;
    assert w % 0x8000_0000 == q * 0x400_0000 + w % 0x8000_0000 % 0x400_0000;
    ModIs(w, 0x400_0000, 32 * e + q, w % 0x8000_0000 % 0x400_0000);
    StatusReads(e, q, l, w);
    StatusReads(e, q, 0, StsBits(w));
  }

  lemma PreDistinct(r: Ring)
    requires Shape(r)
    ensures forall i, j :: 0 <= i < j < |r.pre| ==> r.pre[i] != r.pre[j]
  {
    OrderDistinct(r);
    var o, b := Order(r), |r.post| + |r.hw|;
    assert forall i :: 0 <= i < |r.pre| ==> r.pre[i] == o[b + i];
  }

  lemma {:induction false} MarkedWord(bds: seq<Bd>, s: seq<nat>, i: nat)
    requires SlotsIn(s, |bds|) && i < |s|
    requires forall j, k :: 0 <= j < k < |s| ==> s[j] != s[k]
    ensures MarkSent(bds, s)[s[i]].sts == ClearComplete(if i == 0 then StsBits(bds[s[i]].sts) else bds[s[i]].sts)
  {
    hide ClearComplete, StsBits, MarkSent, Complete;
    var m := |s| - 1;
    MarkLast(bds, s);
    if i < m {
      MarkedWord(bds, s[..m], i);
      assert s[..m][i] == s[i];
    } else {
      assert s[i] !in s[..m];
    }
  }

  lemma MarkLast(bds: seq<Bd>, s: seq<nat>)
    requires SlotsIn(s, |bds|) && s != []
    ensures SlotsIn(s[..|s| - 1], |bds|)
    ensures var m, last := |s| - 1, s[|s| - 1]; var b := MarkSent(bds, s[..m]);
      var word := b[last].sts;
      MarkSent(bds, s) == b[last := b[last].(sts := ClearComplete(if m == 0 then StsBits(word) else word))]
  {
    hide ClearComplete, StsBits, Complete;
    PartSlots(s, |s| - 1, |bds|);
    hide SlotsIn;
  }

  // ---------- Start ----------

  ghost predicate SomeIncomplete(bds: seq<Bd>) {
    exists i :: 0 <= i < |bds| && !Complete(bds[i])
  }

  /** Start succeeds exactly when the engine is up or comes up and, if it was halted, some BD is incomplete. */
  lemma StartStatusLaw(r: Ring, comesUp: bool)
    requires Shape(r)
    ensures StartStatus(r, comesUp) ==
      if (r.eng.up || comesUp) && (r.running || r.eng.up || SomeIncomplete(r.bds)) then Success else DmaError
  {
    hide Shape, SearchDistance, SomeIncomplete;
    SearchFinds(r);
  }

  /** Then the channel runs, and the engine is at work up to the last BD of the hardware group unless that one is
      complete; else the run state is as it was. */
  lemma StartLaw(r: Ring, comesUp: bool)
    requires Shape(r) && SlotsIn(r.hw, |r.bds|)
    ensures var r', st := DoStart(r, comesUp), StartStatus(r, comesUp);
      && Step(r, Start(comesUp)) == r'
      && r' == r.(running := r'.running, eng := r'.eng)
      && (st == Success ==> r'.running && r'.eng.up)
      && (st == Success && |r.hw| > 0 && !Complete(r.bds[r.hw[|r.hw| - 1]]) ==>
            !r'.eng.idle && r'.eng.tail == r.hw[|r.hw| - 1])
      && (st != Success ==> r'.running == r.running && r'.eng.up == r.eng.up)
  {
    hide SlotAt, Shape, SearchDistance, Complete;
  }

  lemma SearchFinds(r: Ring)
    requires Shape(r)
    ensures SearchDistance(r.bds, r.restart, |r.bds|) < |r.bds| <==> SomeIncomplete(r.bds)
  {
    hide SearchDistance, At, Arc, Fits;
    var d, n := SearchDistance(r.bds, r.restart, |r.bds|), |r.bds|;
    if d < n {
      assert !Complete(r.bds[SlotAt(r.restart + d, n)]);
    } else {
      forall i | 0 <= i < n ensures Complete(r.bds[i]) {
        DistanceReaches(r.restart, i, n);
        var q := r.restart + SlotAt(i + n - r.restart, n);
        assert Complete(r.bds[SlotAt(q, n)]);
      }
    }
  }

  // ---------- There and back ----------

  /** The engine has completed the first BDs of the hardware group with the given status words, and written nothing
      else; it goes idle after the last one. */
  ghost predicate Written(r: Ring, r': Ring, words: seq<U32>) {
    && SlotsIn(r.hw, |r.bds|) && |words| <= |r.hw|
    && r' == r.(bds := r'.bds, eng := r'.eng) && |r'.bds| == |r.bds| && DoneCount(r'.bds, r'.hw) == |words|
    && r'.eng.up && r'.eng.tail == r.eng.tail && (r'.eng.idle <==> |words| == |r.hw|)
    && (forall i :: 0 <= i < |words| ==> r'.bds[r.hw[i]] == r.bds[r.hw[i]].(sts := words[i]))
    && (forall s :: 0 <= s < |r.bds| && s !in r.hw[..|words|] ==> r'.bds[s] == r.bds[s])
  }

  /** A running engine with all of the hardware group still to do. */
  ghost predicate Fresh(r: Ring) {
    && Inv(r) && r.hw != [] && SlotsIn(r.hw, |r.bds|) && DoneCount(r.bds, r.hw) == 0
    && r.eng.up && !r.eng.idle && r.eng.tail == r.hw[|r.hw| - 1]
  }

  lemma {:induction false} BurstWrites(r: Ring, words: seq<U32>)
    requires Fresh(r) && |words| <= |r.hw| && forall i :: 0 <= i < |words| ==> words[i] >= BIT31
    ensures Written(r, Burst(r, words), words)
  {
    hide Inv, DoneCount, DoHwStep;
    if words == [] {
    } else {
      var ws, k := words[..|words| - 1], |words| - 1;
      InvBasics(r);
      BurstWrites(r, ws);
      assert words == ws + [words[k]];
      NextWritten(r, Burst(r, ws), ws, words[k]);
    }
  }

  lemma NextWritten(r: Ring, r1: Ring, ws: seq<U32>, word: U32)
    requires Shape(r) && Written(r, r1, ws) && Inv(r1) && |ws| < |r.hw| && word >= BIT31
    requires r.eng.tail == r.hw[|r.hw| - 1]
    ensures Written(r, DoHwStep(r1, word), ws + [word])
  {
    hide Inv, DoneCount, Shape;
    InvBasics(r1);
    var r2, k := DoHwStep(r1, word), |ws|;
    StepsAtHw(r1, r2, k, word);
    if k < |r.hw| - 1 { HwDistinct(r, k, |r.hw| - 1); }
    forall i | 0 <= i < k ensures r.hw[i] != r.hw[k] { HwDistinct(r, i, k); }
    assert r.hw[..k + 1] == r.hw[..k] + [r.hw[k]];
  }

  lemma StepsAtHw(r: Ring, r': Ring, k: nat, word: U32)
    requires Inv(r) && r.eng.up && !r.eng.idle && word >= BIT31 && r' == DoHwStep(r, word)
    requires SlotsIn(r.hw, |r.bds|) && DoneCount(r.bds, r.hw) == k < |r.hw|
    ensures Shape(r) && r.eng.next == r.hw[k] && r'.hw == r.hw && |r'.bds| == |r.bds|
    ensures DoneCount(r'.bds, r'.hw) == k + 1
  {
    hide SlotAt, At, DoneCount, Arc;
    HwStepParts(r, r', word);
    assert |Todo(r')| == |r'.hw| - DoneCount(r'.bds, r'.hw);
  }

  /** The status words end a packet with the last BD. */
  ghost predicate Ends(isRx: bool, words: seq<U32>) {
    && (forall i :: 0 <= i < |words| ==> words[i] >= BIT31)
    && words != [] && (isRx ==> words[|words| - 1] / 0x400_0000 % 2 == 1)
  }

  /** The state after num BDs are allocated, sent, completed with the given status words, handed back and freed. */
  ghost function Turn(r: Ring, words: seq<U32>): Ring
    requires Inv(r) && 0 < |words| <= |r.free|
  {
    var n, head := |words|, r.free[0];
    AllocKeeps(r, n);
    InvBasics(DoAlloc(r, n));
    ShapeSlots(DoAlloc(r, n));
    ToHwKeeps(DoAlloc(r, n), n, head);
    var r3 := Burst(DoToHw(DoAlloc(r, n), n, head), words);
    InvBasics(r3);
    DoFree(DoFromHw(r3, n), n, head)
  }

  /** A started ring with every BD free, the first of which can be sent. */
  ghost predicate CanTurn(r: Ring, words: seq<U32>) {
    && r.running && r.post == [] && r.hw == [] && r.pre == []
    && 0 < |words| <= |r.free| && Ends(r.isRx, words)
    && SlotsIn(r.free[..|words|], |r.bds|) && Sendable(r.bds, r.free[..|words|], r.isRx, r.mask)
  }

  /** All BDs are free again, in an order that begins behind the set; the BDs of the set have the status words the
      engine wrote, and nothing else has changed in memory. */
  ghost predicate Turned(r: Ring, r': Ring, words: seq<U32>) {
    var n := |words|;
    && n <= |r.free| && r' == r.(free := r.free[n..] + r.free[..n], bds := r'.bds, eng := r'.eng)
    && r'.eng.up && r'.eng.idle && |r'.bds| == |r.bds| && SlotsIn(r.free[..n], |r.bds|)
    && (forall i :: 0 <= i < n ==> r'.bds[r.free[..n][i]] == r.bds[r.free[..n][i]].(sts := words[i]))
    && (forall s :: 0 <= s < |r.bds| && s !in r.free[..n] ==> r'.bds[s] == r.bds[s])
  }

  /** A round trip through all four groups: a set that is allocated, sent and completed comes back whole. */
  lemma ThereAndBack(r: Ring, words: seq<U32>)
    requires Inv(r) && CanTurn(r, words)
    ensures Turned(r, Turn(r, words), words)
  {
    hide Inv, Written, Fresh, Sendable, Ends, DoFree, DoFromHw, DoToHw, Burst;
    var n := |words|;
    var r2 := SentFresh(r, n);
    var r3 := Burst(r2, words);
    EndsComplete(r.isRx, words);
    BurstWrites(r2, words);
    SendableEnds(r, n);
    CameBack(r2, r3, words);
    WrittenIs(r2, r3, words);
  }

  lemma SendableEnds(r: Ring, n: nat)
    requires 0 < n <= |r.free| && SlotsIn(r.free[..n], |r.bds|) && Sendable(r.bds, r.free[..n], r.isRx, r.mask)
    ensures !r.isRx ==> r.bds[r.free[..n][n - 1]].ctrl / 0x400_0000 % 2 == 1
  {
  }

  lemma WrittenIs(r: Ring, r': Ring, words: seq<U32>)
    requires Written(r, r', words) && |words| == |r.hw|
    ensures r' == r.(bds := r'.bds, eng := r'.eng) && |r'.bds| == |r.bds| && r'.eng.up && r'.eng.idle
    ensures forall i :: 0 <= i < |words| ==> r'.bds[r.hw[i]] == r.bds[r.hw[i]].(sts := words[i])
    ensures forall s :: 0 <= s < |r.bds| && s !in r.hw ==> r'.bds[s] == r.bds[s]
  {
    assert r.hw[..|words|] == r.hw;
  }

  /** The steps of such a round trip. */
  ghost function TurnOps(head: nat, words: seq<U32>): seq<Op> {
    [Alloc(|words|), ToHw(|words|, head)] + (HwSteps(words) + [FromHw(|words|), Free(|words|, head)])
  }

  ghost function HwSteps(words: seq<U32>): seq<Op> {
    if words == [] then [] else [HwStep(words[0])] + HwSteps(words[1..])
  }

  /** It is a run of the ring. */
  lemma TurnIsRun(r: Ring, words: seq<U32>)
    requires Inv(r) && 0 < |words| <= |r.free|
    ensures Shape(r) && RunOf(r, TurnOps(r.free[0], words)) == Turn(r, words)
  {
    hide Inv, Shape, Step, Burst, DoAlloc, DoToHw, DoFromHw, DoFree;
    var n, head := |words|, r.free[0];
    var last := [FromHw(n), Free(n, head)];
    var r1 := DoAlloc(r, n);
    InvBasics(r);
    AllocKeeps(r, n);
    InvBasics(r1);
    ShapeSlots(r1);
    ToHwKeeps(r1, n, head);
    var r2 := DoToHw(r1, n, head);
    RunTwo(r, Alloc(n), ToHw(n, head), HwSteps(words) + last, r1, r2);
    HwStepsRun(r2, words, last);
    var r3 := Burst(r2, words);
    InvBasics(r3);
    FromHwKeeps(r3, n);
    InvBasics(DoFromHw(r3, n));
    RunTwo(r3, FromHw(n), Free(n, head), [], DoFromHw(r3, n), DoFree(DoFromHw(r3, n), n, head));
    assert last + [] == last;
  }

  lemma RunTwo(r: Ring, a: Op, b: Op, rest: seq<Op>, r1: Ring, r2: Ring)
    requires Shape(r) && Shape(r1) && StepIs(r, a, r1) && StepIs(r1, b, r2)
    ensures Shape(r2) && RunOf(r, [a, b] + rest) == RunOf(r2, rest)
  {
    hide Shape, Step, RunOf, StepIs;
    StepIsStep(r, a, r1);
    StepIsStep(r1, b, r2);
    RunCons(r, a, [b] + rest);
    RunCons(r1, b, rest);
    assert [a, b] + rest == [a] + ([b] + rest);
  }

  lemma RunCons(r: Ring, op: Op, rest: seq<Op>)
    requires Shape(r)
    ensures Shape(Step(r, op)) && RunOf(r, [op] + rest) == RunOf(Step(r, op), rest)
  {
    hide Shape, Step;
    StepShape(r, op);
    assert ([op] + rest)[1..] == rest;
  }

  /** The operations of a round trip, by name. */
  ghost predicate StepIs(r: Ring, op: Op, r': Ring) {
    match op
    case Alloc(num) => r' == DoAlloc(r, num)
    case ToHw(num, head) => SlotsIn(r.pre, |r.bds|) && r' == DoToHw(r, num, head)
    case FromHw(limit) => SlotsIn(r.hw, |r.bds|) && r' == DoFromHw(r, limit)
    case Free(num, head) => r' == DoFree(r, num, head)
    case _ => false
  }

  lemma StepIsStep(r: Ring, op: Op, r': Ring)
    requires Shape(r) && StepIs(r, op, r')
    ensures Step(r, op) == r'
  {
    hide Shape, DoAlloc, DoToHw, DoFromHw, DoFree;
  }

  lemma {:induction false} HwStepsRun(r: Ring, words: seq<U32>, rest: seq<Op>)
    requires Inv(r)
    ensures Shape(r) && Shape(Burst(r, words))
    ensures RunOf(r, HwSteps(words) + rest) == RunOf(Burst(r, words), rest)
    decreases |words|
  {
    hide Inv, Shape, Step, DoHwStep, Burst;
    InvBasics(r);
    InvBasics(Burst(r, words));
    if words == [] {
      assert HwSteps(words) + rest == rest;
      BurstNone(r);
    } else {
      var w, ws := words[0], words[1..];
      var ops := HwSteps(words) + rest;
      assert ops[0] == HwStep(w) && ops[1..] == HwSteps(ws) + rest;
      HwStepKeeps(r, w);
      HwStepIs(r, w);
      HwStepsRun(DoHwStep(r, w), ws, rest);
      BurstAppend(r, [w], ws);
      assert [w] + ws == words;
      BurstOne(r, w);
    }
  }

  lemma BurstNone(r: Ring)
    requires Inv(r)
    ensures Burst(r, []) == r
  {
  }

  lemma BurstOne(r: Ring, w: U32)
    requires Inv(r) && Shape(r)
    ensures Burst(r, [w]) == DoHwStep(r, w)
  {
    hide Inv, Shape, DoHwStep;
    assert [w][..0] == [];
  }

  lemma HwStepIs(r: Ring, w: U32)
    requires Shape(r)
    ensures Step(r, HwStep(w)) == DoHwStep(r, w)
  {
  }

  lemma EndsComplete(isRx: bool, words: seq<U32>)
    requires Ends(isRx, words)
    ensures forall i :: 0 <= i < |words| ==> words[i] >= BIT31
  {
  }

  /** Allocated and sent, the set is all the engine has to do. */
  lemma SentFresh(r: Ring, n: nat) returns (r2: Ring)
    requires Inv(r) && r.running && r.post == [] && r.hw == [] && r.pre == [] && 0 < n <= |r.free|
    requires SlotsIn(r.free[..n], |r.bds|) && Sendable(r.bds, r.free[..n], r.isRx, r.mask)
    ensures var r1 := DoAlloc(r, n); SlotsIn(r1.pre, |r1.bds|) && r2 == DoToHw(r1, n, r.free[0])
    ensures Inv(r2) && Fresh(r2)
    ensures r2 == r.(hw := r.free[..n], free := r.free[n..], bds := r2.bds, eng := r2.eng)
    ensures |r2.bds| == |r.bds| && forall s :: 0 <= s < |r.bds| ==> r2.bds[s] == r.bds[s].(sts := r2.bds[s].sts)
    ensures forall s :: 0 <= s < |r.bds| && s !in r.free[..n] ==> r2.bds[s] == r.bds[s]
  {
    hide Inv, Sendable, Accepts, DoneCount;
    var r1, head := DoAlloc(r, n), r.free[0];
    assert r1.pre == r.free[..n] && r1.pre[..n] == r.free[..n] && r1.pre[n..] == [];
    AllocKeeps(r, n);
    AcceptsIsSendable(r1, n, head);
    ToHwKeeps(r1, n, head);
    r2 := DoToHw(r1, n, head);
    assert r2.hw == r.free[..n];
    ToHwParts(r1, r2, n, head);
    AllTodo(r1, r2, n);
    RunningIsUp(r2);
  }

  lemma AllTodo(r1: Ring, r2: Ring, n: nat)
    requires SlotsIn(r1.hw, |r1.bds|) && r1.hw == [] && n <= |r1.pre|
    requires SlotsIn(r2.hw, |r2.bds|) && r2.hw == r1.pre[..n] && Todo(r2) == Todo(r1) + r1.pre[..n]
    ensures DoneCount(r2.bds, r2.hw) == 0
  {
    assert |Todo(r2)| == |r2.hw| - DoneCount(r2.bds, r2.hw);
  }

  lemma RunningIsUp(r: Ring)
    requires Inv(r) && r.running
    ensures r.eng.up
  {
  }

  lemma CameBack(r: Ring, r': Ring, words: seq<U32>)
    requires Written(r, r', words) && |words| == |r.hw| && r.post == [] && Ends(r.isRx, words)
    requires !r.isRx ==> r.bds[r.hw[|r.hw| - 1]].ctrl / 0x400_0000 % 2 == 1
    ensures SlotsIn(r'.hw, |r'.bds|)
    ensures DoFree(DoFromHw(r', |words|), |words|, r.hw[0]) == r'.(hw := [], free := r.free + r.hw)
  {
    hide DoneCount, Reapable;
    var n := |words|;
    AllReapable(r', n);
    assert r'.hw[..n] == r'.hw && r'.hw[n..] == [];
  }

  lemma AllReapable(r: Ring, n: nat)
    requires SlotsIn(r.hw, |r.bds|) && 0 < n == |r.hw| == DoneCount(r.bds, r.hw)
    requires var bd := r.bds[r.hw[n - 1]]; (if r.isRx then bd.sts else bd.ctrl) / 0x400_0000 % 2 == 1
    ensures Reapable(r, n) == n
  {
    hide DoneCount;
  }

  // ---------- Pause and reset ----------

  /** A pause changes the driver's run state and nothing else; a reset also halts the engine, and saves the place named
      by its current-descriptor register as the one to restart from. */
  lemma StopLaw(r: Ring, snapshot: nat)
    requires Shape(r)
    ensures Step(r, Pause) == r.(running := false)
    ensures snapshot < |r.bds| ==>
      var r' := Step(r, Op.Reset(snapshot));
      && r' == r.(running := false, eng := r'.eng, restart := snapshot)
      && !r'.eng.up && r'.eng.next == r.eng.next && r'.eng.tail == r.eng.tail
  {
    hide Shape;
  }

  // ---------- Writing BDs ----------

  /** Fill writes the given words to a BD the application holds, and nothing else anywhere. */
  lemma FillLaw(r: Ring, slot: nat, bufa: U32, ctrl: U32, user: seq<U32>, id: U32)
    requires Shape(r)
    ensures var r' := Step(r, Fill(slot, bufa, ctrl, user, id));
      && r' == r.(bds := r'.bds) && |r'.bds| == |r.bds|
      && (forall s :: 0 <= s < |r.bds| && (s != slot || s in r.hw || s in r.free) ==> r'.bds[s] == r.bds[s])
      && (slot in r.pre || slot in r.post ==>
            slot < |r.bds| && r'.bds[slot] == Bd(r.bds[slot].ndesc, bufa, ctrl, r.bds[slot].sts, user, id,
                                                 r.bds[slot].hasSts, r.bds[slot].hasDre))
  {
    hide Arc, At, Fits;
    GroupsDisjoint(r);
    InRing(r);
  }

  lemma InRing(r: Ring)
    requires Shape(r)
    ensures forall s :: s in r.post || s in r.pre ==> s < |r.bds|
  {
    ShapeSlots(r);
    var o := Order(r);
    forall i | 0 <= i < |r.post| ensures r.post[i] < |r.bds| { assert r.post[i] == o[i]; }
  }

  /** Clone copies the template into every BD of an idle ring, except for the links and the hardware words, and clears
      the complete bit. */
  lemma CloneLaw(r: Ring, template: Bd, i: nat)
    requires Shape(r) && i < |r.bds|
    ensures var r' := DoClone(r, template);
      && Step(r, Op.Clone(template)) == r'
      && r' == r.(bds := r'.bds) && |r'.bds| == |r.bds|
      && (r.running || |r.free| < |r.bds| ==> r' == r)
      && (!r.running && |r.free| == |r.bds| ==>
            r'.bds[i] == Bd(r.bds[i].ndesc, template.bufa, template.ctrl, template.sts % 0x8000_0000, template.user,
                            template.id, r.bds[i].hasSts, r.bds[i].hasDre))
  {
    hide CloneAll, Shape;
    SentWord(template.sts);
  }

  // ---------- Create ----------

  function Pow2(k: nat): nat {
    if k == 0 then 1 else 2 * Pow2(k - 1)
  }

  lemma {:induction false} PowerOfTwo(a: nat) returns (k: nat)
    ensures IsPowerOfTwo(a) ==> a == Pow2(k)
  {
    k := 0;
    if a >= 2 && IsPowerOfTwo(a) {
      k := PowerOfTwo(a / 2);
      k := k + 1;
    }
  }

  lemma {:induction false} Pow2IsPower(k: nat)
    ensures IsPowerOfTwo(Pow2(k))
  {
    if k > 0 {
      Pow2IsPower(k - 1);
    }
  }

  /** Create succeeds exactly for a positive number of BDs, an alignment that is a power of two and at least the size of
      a BD, aligned addresses, and a ring that does not reach past the end of the address space. */
  lemma CreateTakes(phys: U32, virt: U32, align: U32, cnt: int)
    requires cnt > 0 ==> align * cnt < 0x1_0000_0000
    ensures CreateStatus(phys, virt, align, cnt) == Success <==>
              && cnt > 0 && align >= 64 && (exists k: nat :: align == Pow2(k))
              && phys % align == 0 && virt % align == 0 && virt + align * cnt <= 0x1_0000_0000
  {
    var k := PowerOfTwo(align);
    if j: nat :| align == Pow2(j) { Pow2IsPower(j); }
    if cnt > 0 && align >= 64 {
      SeparationIsAlignment(align);
      MulGe(align, cnt);
      SpanCheckPasses(virt, align * cnt);
    }
  }
}
