/** Restarting a halted engine: when BdRingStart finds the right BD, and when it does not. */
module RingRestart {
  import opened RingAddress
  import opened Descriptor
  import opened RingModel
  import opened RingTheorems
  import opened RingRuns

  /** Every BD from the saved restart point up to, not including, the frontier is complete. */
  ghost predicate BehindIsComplete(r: Ring)
    requires Shape(r) && SlotsIn(r.hw, |r.bds|)
  {
    forall q :: r.restart <= q < r.restart + RestartDistance(r) ==> Complete(r.bds[SlotAt(q, |r.bds|)])
  }

  /** With BDs still to do, a start from a halt loads the current-descriptor register with the first of
      them exactly when everything behind it is complete. */
  lemma StartResumesAtFirstIncomplete(r: Ring)
    requires Inv(r) && !r.running && !r.eng.up && Todo(r) != []
    ensures !SearchFails(r) && DoStart(r, true).eng.next == Todo(r)[0] <==> BehindIsComplete(r)
  {
    FrontierIsFirstTodo(r);
    RestartExact(r);
    assert FrontierSlot(r) == Todo(r)[0];
  }

  /** After such a start exactly the BDs still to do are released to the engine: none lost, none replayed. */
  lemma RestartReleasesExactlyTodo(r: Ring)
    requires Inv(r) && !r.running && !r.eng.up && Todo(r) != [] && BehindIsComplete(r)
    ensures var r' := DoStart(r, true);
      && r'.running && r'.eng.up && r'.eng.next == Todo(r)[0] && Released(r') == Todo(r) == Todo(r')
  {
    var r' := DoStart(r, true);
    StartResumesAtFirstIncomplete(r);
    StartTail(r);
    assert Todo(r') == Todo(r);
    LastTodoDiffers(r);
    UpToLast(Todo(r));
  }

  lemma LastTodoDiffers(r: Ring)
    requires Shape(r) && SlotsIn(r.hw, |r.bds|) && Todo(r) != []
    ensures forall i :: 0 <= i < |Todo(r)| - 1 ==> Todo(r)[i] != Todo(r)[|Todo(r)| - 1]
  {
    var d, t := DoneCount(r.bds, r.hw), Todo(r);
    forall i | 0 <= i < |t| - 1 ensures t[i] != t[|t| - 1] {
      HwDistinct(r, d + i, |r.hw| - 1);
    }
  }

  lemma {:induction false} UpToLast(s: seq<nat>)
    requires s != [] && forall i :: 0 <= i < |s| - 1 ==> s[i] != s[|s| - 1]
    ensures UpTo(s, s[|s| - 1]) == s
  {
    if |s| > 1 {
      UpToLast(s[1..]);
    }
  }

  /** The search gives up exactly when every BD of the ring is complete. */
  lemma SearchFailsIffAllComplete(r: Ring)
    requires Shape(r) && !r.running && !r.eng.up
    ensures SearchFails(r) <==> forall s :: 0 <= s < |r.bds| ==> Complete(r.bds[s])
  {
    var n, p := |r.bds|, r.restart;
    if SearchFails(r) {
      forall s | 0 <= s < n ensures Complete(r.bds[s]) {
        DistanceReaches(p, s, n);
        assert Complete(r.bds[SlotAt(p + SlotAt(s + n - p, n), n)]);
      }
    }
  }

  /** The BDs to do follow the frontier, which lies RestartDistance slots after the restart point. */
  lemma TodoPosition(r: Ring, i: nat)
    requires Shape(r) && SlotsIn(r.hw, |r.bds|) && i < |Todo(r)|
    ensures Todo(r)[i] == SlotAt(r.restart + RestartDistance(r) + i, |r.bds|)
  {
    var d, n, base := DoneCount(r.bds, r.hw), |r.bds|, Order(r)[0];
    FrontierIsFirstTodo(r);
    assert Order(r)[|r.post| + d] == r.hw[d];
    assert Order(r)[|r.post| + d + i] == r.hw[d + i];
    SlotAdd(base + |r.post| + d, i, n);
    SlotAdd(r.restart + RestartDistance(r), i, n);
  }

  lemma TodoFits(r: Ring)
    requires Shape(r) && SlotsIn(r.hw, |r.bds|)
    ensures |Todo(r)| <= |r.bds|
  {
  }

  /** BDs to do that reach around to the restart point leave an incomplete BD behind the frontier. */
  lemma OverlapSpoilsRestart(r: Ring)
    requires Shape(r) && SlotsIn(r.hw, |r.bds|) && InOrder(r.bds, r.hw)
    requires |Todo(r)| + RestartDistance(r) > |r.bds|
    ensures !BehindIsComplete(r)
  {
    var n, dist := |r.bds|, RestartDistance(r);
    TodoFits(r);
    TodoPosition(r, n - dist);
    SlotTurn(r.restart, n);
    var d := DoneCount(r.bds, r.hw);
    assert Todo(r)[n - dist] == r.hw[d + n - dist];
    assert !Complete(r.bds[SlotAt(r.restart, n)]);
  }

  lemma BehindIsNotTodo(r: Ring, q: nat)
    requires Shape(r) && SlotsIn(r.hw, |r.bds|)
    requires r.restart <= q < r.restart + RestartDistance(r)
    requires |Todo(r)| + RestartDistance(r) <= |r.bds|
    ensures SlotAt(q, |r.bds|) !in Todo(r)
  {
    var t := Todo(r);
    forall i | 0 <= i < |t| ensures t[i] != SlotAt(q, |r.bds|) {
      TodoPosition(r, i);
      ArcDistinct(r.restart, q - r.restart, RestartDistance(r) + i, |r.bds|);
    }
  }

  /** While the engine is halted, queueing BDs keeps everything behind the frontier complete exactly as
      long as the BDs to do do not reach around the ring to the restart point. */
  lemma QueueingKeepsRestart(r: Ring, num: int, head: nat)
    requires Inv(r) && !r.eng.up && !r.running && BehindIsComplete(r)
    requires SlotsIn(r.pre, |r.bds|) && Accepts(r, num, head)
    ensures var r' := DoToHw(r, num, head);
      Inv(r') && (BehindIsComplete(r') <==> |Todo(r')| + RestartDistance(r) <= |r.bds|)
  {
    var r' := DoToHw(r, num, head);
    QueueingParts(r, r', num, head);
    if |Todo(r')| + RestartDistance(r) <= |r.bds| {
      forall q | r.restart <= q < r.restart + RestartDistance(r) ensures Complete(r'.bds[SlotAt(q, |r.bds|)]) {
        BehindIsNotTodo(r', q);
      }
    } else {
      OverlapSpoilsRestart(r');
    }
  }

  lemma QueueingParts(r: Ring, r': Ring, num: int, head: nat)
    requires Inv(r) && !r.running && SlotsIn(r.pre, |r.bds|) && Accepts(r, num, head)
    requires r' == DoToHw(r, num, head)
    ensures Inv(r') && |r'.bds| == |r.bds| && r'.restart == r.restart && RestartDistance(r') == RestartDistance(r)
    ensures forall s :: 0 <= s < |r.bds| && s !in Todo(r') ==> r'.bds[s] == r.bds[s]
  {
    ToHwFields(r, r', num, head);
    hide DoToHw, Shape, Accepts, RestartDistance, Frontier;
    ToHwKeeps(r, num, head);
    ToHwParts(r, r', num, head);
    hide Inv;
    SameDistance(r, r');
    UntouchedOutside(r.bds, r.pre[..num], Todo(r));
  }

  lemma ToHwFields(r: Ring, r': Ring, num: int, head: nat)
    requires SlotsIn(r.pre, |r.bds|) && Accepts(r, num, head) && r' == DoToHw(r, num, head)
    ensures r'.restart == r.restart && r'.bds == MarkSent(r.bds, r.pre[..num])
  {
    hide MarkSent;
  }

  lemma SameDistance(r: Ring, r': Ring)
    requires Shape(r) && SlotsIn(r.hw, |r.bds|) && Shape(r') && SlotsIn(r'.hw, |r'.bds|)
    requires |r'.bds| == |r.bds| && r'.restart == r.restart && Frontier(r') == Frontier(r)
    ensures RestartDistance(r') == RestartDistance(r)
  {
    hide Shape, Frontier, SlotAt;
  }

  lemma UntouchedOutside(bds: seq<Bd>, sent: seq<nat>, todo: seq<nat>)
    requires SlotsIn(sent, |bds|)
    ensures forall s :: 0 <= s < |bds| && s !in todo + sent ==> MarkSent(bds, sent)[s] == bds[s]
  {
  }

  /** Starting a started ring again changes nothing. */
  lemma StartTwice(r: Ring, comesUp: bool, comesUp': bool)
    requires Shape(r) && SlotsIn(r.hw, |r.bds|) && StartStatus(r, comesUp) == Success
    ensures Shape(DoStart(r, comesUp)) && SlotsIn(DoStart(r, comesUp).hw, |DoStart(r, comesUp).bds|)
    ensures var r' := DoStart(r, comesUp); StartStatus(r', comesUp') == Success && DoStart(r', comesUp') == r'
  {
    hide SearchDistance, Arc, SlotAt, At, Fits;
    assert Order(DoStart(r, comesUp)) == Order(r);
  }

  // ---------- Whatever is done while the engine is halted ----------

  /** What the driver may do to a halted ring between a reset and the next start. */
  ghost predicate WhileHalted(op: Op) {
    !op.Start? && !op.Reset?
  }

  /** With an engine that is up but idle at the frontier, everything else being the same. */
  ghost function Parked(r: Ring): Ring
    requires Shape(r) && SlotsIn(r.hw, |r.bds|)
  {
    r.(eng := Engine(true, true, Frontier(r), r.eng.tail))
  }

  lemma ParkedInv(r: Ring)
    requires Inv(r) && !r.running
    ensures Inv(Parked(r))
  {
    hide At, Arc, SlotAt, DoneCount;
    assert FrontierSlot(r) < |r.bds|;
    EngineOnly(r, Parked(r));
  }

  /** Operations of the driver do not look at the engine, apart from starting it. */
  lemma EngineUnseen(r: Ring, eng: Engine, op: Op)
    requires Shape(r) && Shape(r.(eng := eng)) && !r.running && !r.eng.up && WhileHalted(op) && !op.HwStep?
    ensures Step(r.(eng := eng), op) == Step(r, op).(eng := eng) && Step(r, op).eng == r.eng
  {
    ShapeSlots(r);
    hide Shape, DoToHw, DoFromHw, CloneAll;
    match op
    case ToHw(num, head) => ToHwUnseen(r, eng, num, head);
    case FromHw(limit) => FromHwUnseen(r, eng, limit);
    case _ =>
  }

  lemma ToHwUnseen(r: Ring, eng: Engine, num: int, head: nat)
    requires SlotsIn(r.pre, |r.bds|) && !r.running
    ensures DoToHw(r.(eng := eng), num, head) == DoToHw(r, num, head).(eng := eng)
    ensures DoToHw(r, num, head).eng == r.eng
  {
    hide MarkSent, NonZeroRun, Length, TxSof, Eof;
  }

  lemma FromHwUnseen(r: Ring, eng: Engine, limit: int)
    requires SlotsIn(r.hw, |r.bds|)
    ensures DoFromHw(r.(eng := eng), limit) == DoFromHw(r, limit).(eng := eng)
    ensures DoFromHw(r, limit).eng == r.eng
  {
    hide DoneCount, LastEof;
  }

  lemma HaltedStep(r: Ring, op: Op)
    requires Inv(r) && !r.running && !r.eng.up && WhileHalted(op)
    ensures var r' := Step(r, op);
      && Inv(r') && !r'.running && !r'.eng.up && r'.restart == r.restart && |r'.bds| == |r.bds|
      && Frontier(r') == Frontier(r)
  {
    StepKeeps(r, op);
    HaltedFields(r, op);
    if !op.HwStep? {
      var p := Parked(r);
      ParkedInv(r);
      StepKeeps(p, op);
      EngineUnseen(r, p.eng, op);
      ParkedFrontier(Step(r, op), Step(p, op), p.eng);
    }
  }

  lemma ParkedFrontier(r: Ring, p: Ring, eng: Engine)
    requires Inv(r) && Inv(p) && p == r.(eng := eng) && eng.up
    ensures Frontier(r) == eng.next
  {
    hide At, Arc, SlotAt, DoneCount;
    assert Order(p) == Order(r);
  }

  lemma HaltedFields(r: Ring, op: Op)
    requires Shape(r) && !r.running && !r.eng.up && WhileHalted(op)
    ensures var r' := Step(r, op);
      && !r'.running && !r'.eng.up && r'.restart == r.restart && |r'.bds| == |r.bds| && (op.HwStep? ==> r' == r)
  {
    hide At, Arc, SlotAt, DoneCount, MarkSent, CloneAll;
  }

  lemma {:induction false} HaltedRun(r: Ring, ops: seq<Op>)
    requires Inv(r) && !r.running && !r.eng.up && forall i :: 0 <= i < |ops| ==> WhileHalted(ops[i])
    ensures var r' := RunOf(r, ops);
      && Inv(r') && !r'.running && !r'.eng.up && r'.restart == r.restart && |r'.bds| == |r.bds|
      && Frontier(r') == Frontier(r)
    decreases |ops|
  {
    hide Step, Frontier;
    if ops != [] {
      HaltedStep(r, ops[0]);
      hide Inv;
      HaltedRun(Step(r, ops[0]), ops[1..]);
    }
  }

  /** A reset that saves the place of a working engine can be followed by any operations whatsoever: with BDs to do,
      the next start resumes at the first of them and releases exactly those to do. */
  lemma RestartAfterReset(r: Ring, ops: seq<Op>)
    requires Inv(r) && r.eng.up && forall i :: 0 <= i < |ops| ==> WhileHalted(ops[i])
    ensures var r' := RunOf(r, [Op.Reset(r.eng.next)] + ops);
      && Inv(r') && (Todo(r') != [] ==>
        !SearchFails(r') && DoStart(r', true).eng.next == Todo(r')[0] && Released(DoStart(r', true)) == Todo(r'))
  {
    hide RunOf, Todo, SearchFails, DoStart, Released, Order;
    ResetKeeps(r, r.eng.next);
    ResetAtFrontier(r);
    ResetFirst(r, r.eng.next, ops);
    RestartWhileHalted(DoReset(r, r.eng.next), ops);
  }

  lemma ResetFirst(r: Ring, slot: nat, ops: seq<Op>)
    requires Shape(r) && Shape(DoReset(r, slot))
    ensures RunOf(r, [Op.Reset(slot)] + ops) == RunOf(DoReset(r, slot), ops)
  {
    hide Shape, DoReset;
    assert ([Op.Reset(slot)] + ops)[1..] == ops;
  }

  lemma RestartWhileHalted(r: Ring, ops: seq<Op>)
    requires Inv(r) && !r.running && !r.eng.up && r.restart == Frontier(r)
    requires forall i :: 0 <= i < |ops| ==> WhileHalted(ops[i])
    ensures var r' := RunOf(r, ops);
      && Inv(r') && (Todo(r') != [] ==>
        !SearchFails(r') && DoStart(r', true).eng.next == Todo(r')[0] && Released(DoStart(r', true)) == Todo(r'))
  {
    HaltedRun(r, ops);
    var r' := RunOf(r, ops);
    hide RunOf;
    if Todo(r') != [] {
      NoDistance(r');
      StartResumesAtFirstIncomplete(r');
      RestartReleasesExactlyTodo(r');
    }
  }

  lemma ResetAtFrontier(r: Ring)
    requires Inv(r) && r.eng.up
    ensures var r0 := DoReset(r, r.eng.next);
      Shape(r0) && SlotsIn(r0.hw, |r0.bds|) && r0.restart == Frontier(r0) && !r0.running && !r0.eng.up
  {
    hide At, Arc, SlotAt, DoneCount;
    assert Order(DoReset(r, r.eng.next)) == Order(r);
  }

  lemma NoDistance(r: Ring)
    requires Shape(r) && SlotsIn(r.hw, |r.bds|) && r.restart == Frontier(r)
    ensures BehindIsComplete(r)
  {
    hide Shape, Frontier;
    ModIs(FrontierSlot(r) + |r.bds| - r.restart, |r.bds|, 1, 0);
  }
}
