/** Restarts after resets that save a place one BD behind.

    An engine may report the BD it completed last until it fetches the next one. A reset then saves that BD instead of
    the one to go on with. The next start is right all the same, as long as some BD of the ring is complete when it
    searches; if all are incomplete it begins one BD too early. */
module RingLag {
  import opened RingAddress
  import opened Descriptor
  import opened RingModel
  import opened RingTheorems
  import opened RingRuns
  import opened RingRestart
  import opened RingCreated

  /** The slot before f. */
  ghost function Before(f: nat, n: nat): nat
    requires n > 0
  {
    SlotAt(f + n - 1, n)
  }

  /** As Settled, with a restart point that may be one BD behind. */
  ghost predicate Lagging(r: Ring) {
    Tracked(r) && (!r.eng.up ==> r.restart == Frontier(r) || r.restart == Before(Frontier(r), |r.bds|))
  }

  ghost predicate SomeComplete(r: Ring) {
    exists s :: 0 <= s < |r.bds| && Complete(r.bds[s])
  }

  /** What a start from a halt ought to do: begin at the frontier, or fail with nothing to do. */
  ghost predicate StartRight(r: Ring)
    requires Shape(r) && SlotsIn(r.hw, |r.bds|)
  {
    if SearchFails(r) then Todo(r) == [] else Located(r).eng.next == Frontier(r)
  }

  lemma BeforeDistance(r: Ring)
    requires Inv(r) && |r.bds| > 1 && r.restart == Before(Frontier(r), |r.bds|)
    ensures RestartDistance(r) == 1 && r.restart != Frontier(r) && SlotAt(r.restart, |r.bds|) == r.restart
  {
    var f, n := FrontierSlot(r), |r.bds|;
    ModOne(f + n - 1, n);
    ModOne(r.restart, n);
    ModOne(f + n - r.restart, n);
  }

  lemma PositionOf(f: nat, s: nat, n: nat) returns (q: nat)
    requires s < n
    ensures f <= q < f + n && SlotAt(q, n) == s
  {
    var g := SlotAt(f, n);
    var d := SlotAt(s + n - g, n);
    q := f + d;
    DistanceReaches(g, s, n);
    SlotAdd(f, d, n);
  }

  /** Some BD of a graded ring is complete exactly when the one before the frontier is. */
  lemma SomeIsLast(bds: seq<Bd>, f: nat, t: nat, s: nat)
    requires Graded(bds, f, t) && s < |bds| && Complete(bds[s])
    ensures Complete(bds[Before(f, |bds|)])
  {
    hide SlotAt;
    var q := PositionOf(f, s, |bds|);
    assert Complete(bds[SlotAt(q, |bds|)]);
  }

  lemma GradedFirst(bds: seq<Bd>, f: nat, t: nat)
    requires Graded(bds, f, t) && f < |bds|
    ensures Complete(bds[f]) <==> t == 0
  {
    ModOne(f, |bds|);
    assert SlotAt(f, |bds|) == f;
  }

  /** The search from a restart point at or one BD behind the frontier is right exactly when it is at the frontier or
      some BD of the ring is complete. */
  lemma SearchLagging(r: Ring)
    requires Lagging(r) && !r.eng.up
    ensures SearchFails(r) || RestartReady(r) <==> r.restart == Frontier(r) || SomeComplete(r)
  {
    var n := |r.bds|;
    if r.restart == Frontier(r) {
      SearchFromFrontier(r);
    } else {
      var t: nat :| Graded(r.bds, Frontier(r), t);
      OneBehind(r, t);
    }
  }

  lemma OneBehind(r: Ring, t: nat)
    requires Inv(r) && !r.eng.up && r.restart != Frontier(r) && r.restart == Before(Frontier(r), |r.bds|)
    requires Graded(r.bds, Frontier(r), t)
    ensures SearchFails(r) || RestartReady(r) <==> SomeComplete(r)
  {
    var f, n := FrontierSlot(r), |r.bds|;
    if n == 1 {
      assert false;
    }
    SearchFailsIffAllComplete(r);
    BeforeDistance(r);
    GradedFirst(r.bds, f, t);
    hide SlotAt, Frontier, Inv, Shape, Graded;
    assert RestartReady(r) <==> t > 0 && Complete(r.bds[r.restart]);
    if s :| 0 <= s < n && Complete(r.bds[s]) {
      SomeIsLast(r.bds, f, t, s);
    }
    if t == 0 { AllDone(r.bds, f); }
  }

  lemma AllDone(bds: seq<Bd>, f: nat)
    requires Graded(bds, f, 0)
    ensures forall s :: 0 <= s < |bds| ==> Complete(bds[s])
  {
    hide SlotAt;
    forall s | 0 <= s < |bds| ensures Complete(bds[s]) {
      var q := PositionOf(f, s, |bds|);
      assert Complete(bds[SlotAt(q, |bds|)]);
    }
  }

  /** A start is right exactly when its search ends at the frontier or finds every BD complete. */
  lemma StartIsSearch(r: Ring)
    requires Inv(r) && !r.eng.up
    ensures StartRight(r) <==> SearchFails(r) || RestartReady(r)
  {
    hide Inv, Shape, RestartReady, Frontier, Todo, SearchDistance, SlotAt;
    InvBasics(r);
    HaltedNotRunning(r);
    RestartExact(r);
    SearchFailsIffAllComplete(r);
    if SearchFails(r) { NoneToDo(r); }
  }

  lemma NoneToDo(r: Ring)
    requires Inv(r) && forall s :: 0 <= s < |r.bds| ==> Complete(r.bds[s])
    ensures Todo(r) == []
  {
    hide Shape, EngineTracks, Frontier;
  }

  lemma StartLagging(r: Ring)
    requires Lagging(r) && !r.eng.up
    ensures Inv(r)
    ensures StartRight(r) <==> r.restart == Frontier(r) || SomeComplete(r)
    ensures StartRight(r) <==> SearchFails(r) || RestartReady(r)
  {
    hide StartRight, SearchFails, RestartReady, SomeComplete, Shape, Frontier;
    SearchLagging(r);
    StartIsSearch(r);
  }

  // ---------- Every run ----------

  /** A reset saves the current descriptor, if that is what it names, or else the BD before it. */
  ghost function LagOp(r: Ring, op: Op): Op
    requires |r.bds| > 0
  {
    if op.Reset? && op.snapshot != r.eng.next then Op.Reset(Before(r.eng.next, |r.bds|)) else op
  }

  ghost function RunLagging(r: Ring, ops: seq<Op>): (r': Ring)
    requires Shape(r)
    ensures Shape(r')
    decreases |ops|
  {
    if ops == [] then r
    else
      StepShape(r, LagOp(r, ops[0]));
      RunLagging(Step(r, LagOp(r, ops[0])), ops[1..])
  }

  /** Every start from a halt is right. */
  ghost predicate StartsRight(r: Ring, ops: seq<Op>)
    requires Shape(r)
    decreases |ops|
  {
    ops == []
    || (ShapeSlots(r); StepShape(r, LagOp(r, ops[0]));
        && (ops[0].Start? && !r.eng.up ==> StartRight(r))
        && StartsRight(Step(r, LagOp(r, ops[0])), ops[1..]))
  }

  /** At every start from a halt the restart point is in place or some BD is complete. */
  ghost predicate StartsInTime(r: Ring, ops: seq<Op>)
    requires Shape(r)
    decreases |ops|
  {
    ops == []
    || (ShapeSlots(r); StepShape(r, LagOp(r, ops[0]));
        && (ops[0].Start? && !r.eng.up ==> r.restart == Frontier(r) || SomeComplete(r))
        && StartsInTime(Step(r, LagOp(r, ops[0])), ops[1..]))
  }

  lemma HwStepLagging(r: Ring, sts: U32)
    requires Lagging(r) && Shape(r)
    ensures Lagging(Step(r, HwStep(sts)))
  {
    hide Tracked, Step, DoHwStep, Shape, Frontier;
    HwStepTracked(r, sts);
    StepIsHwStep(r, sts);
  }

  lemma StepIsHwStep(r: Ring, sts: U32)
    requires Shape(r)
    ensures Step(r, HwStep(sts)) == DoHwStep(r, sts) && |DoHwStep(r, sts).bds| == |r.bds|
  {
    hide Order, Arc, SlotAt;
  }

  lemma StepIsStart(r: Ring, comesUp: bool)
    requires Shape(r) && SlotsIn(r.hw, |r.bds|)
    ensures Step(r, Start(comesUp)) == DoStart(r, comesUp)
  {
    hide Shape, SlotsIn, DoStart;
  }

  lemma StepIsReset(r: Ring, snapshot: nat)
    requires Shape(r)
    ensures Step(r, Op.Reset(snapshot)) == DoReset(r, snapshot) && |DoReset(r, snapshot).bds| == |r.bds|
  {
    hide Shape;
  }

  lemma StartStaysLagging(r: Ring, comesUp: bool)
    requires Lagging(r) && Shape(r) && SlotsIn(r.hw, |r.bds|) && (!r.eng.up ==> StartRight(r))
    ensures Lagging(Step(r, Start(comesUp)))
  {
    hide Tracked, Step, DoStart, Shape, Frontier, SearchFails, RestartReady, StartRight, SlotsIn;
    if !r.eng.up { StartLagging(r); }
    StartTracked(r, comesUp);
    StartSize(r, comesUp);
    StepIsStart(r, comesUp);
  }

  lemma StartSize(r: Ring, comesUp: bool)
    requires Shape(r) && SlotsIn(r.hw, |r.bds|)
    ensures |DoStart(r, comesUp).bds| == |r.bds|
  {
    hide Shape, SearchDistance;
  }

  lemma ResetLagging(r: Ring, snapshot: nat)
    requires Lagging(r) && Shape(r) && snapshot < |r.bds|
    requires snapshot == r.eng.next || snapshot == Before(r.eng.next, |r.bds|)
    ensures Lagging(Step(r, Op.Reset(snapshot)))
  {
    hide Tracked, Step, DoReset, Shape, Frontier;
    TrackedBasics(r);
    ResetTracked(r, snapshot);
    StepIsReset(r, snapshot);
  }

  lemma DriverLagging(r: Ring, op: Op)
    requires Lagging(r) && Shape(r) && !op.HwStep? && !op.Start? && !op.Reset?
    ensures Lagging(Step(r, op))
  {
    hide Tracked, Step, Shape, Frontier;
    StepSize(r, op);
    DriverTracked(r, op);
  }

  lemma StepSize(r: Ring, op: Op)
    requires Shape(r) && !op.HwStep? && !op.Start? && !op.Reset?
    ensures |Step(r, op).bds| == |r.bds|
  {
    hide Shape, MarkSent, Accepts, CloneAll, Reapable;
  }

  /** Every step keeps the restart point within one BD, if starts are right. */
  lemma StepLagging(r: Ring, op: Op)
    requires Lagging(r) && Shape(r) && SlotsIn(r.hw, |r.bds|) && (op.Start? && !r.eng.up ==> StartRight(r))
    ensures Lagging(Step(r, LagOp(r, op)))
  {
    hide Lagging, Step, Shape, Frontier, SlotAt, StartRight, SlotsIn;
    LaggingBasics(r);
    match op
    case HwStep(sts) => HwStepLagging(r, sts);
    case Start(comesUp) => StartStaysLagging(r, comesUp);
    case Reset(_) => ResetLagging(r, LagOp(r, op).snapshot);
    case _ => DriverLagging(r, op);
  }

  lemma LaggingBasics(r: Ring)
    requires Lagging(r)
    ensures Shape(r) && SlotsIn(r.hw, |r.bds|) && r.eng.next == Frontier(r) < |r.bds|
  {
    hide InOrder, EngineTracks, IncompleteFirst;
  }

  /** Over every run: all starts are right exactly when each finds the restart point in place or some BD complete, and
      then the engine is where it should be. */
  lemma {:induction false} LaggingFrom(r: Ring, ops: seq<Op>)
    requires Lagging(r)
    ensures Shape(r) && (StartsRight(r, ops) <==> StartsInTime(r, ops))
    ensures StartsRight(r, ops) ==> Lagging(RunLagging(r, ops))
    decreases |ops|
  {
    LaggingBasics(r);
    if ops != [] {
      var op := ops[0];
      hide Step, Shape, Lagging, StartRight, SomeComplete;
      if op.Start? && !r.eng.up { StartLagging(r); }
      if op.Start? && !r.eng.up ==> StartRight(r) {
        StepLagging(r, op);
        LaggingFrom(Step(r, LagOp(r, op)), ops[1..]);
      }
    }
  }

  /** From creation on. */
  lemma LaggingInEveryRun(r: Ring, ops: seq<Op>)
    requires Created(r)
    ensures StartsRight(r, ops) <==> StartsInTime(r, ops)
    ensures StartsRight(r, ops) ==>
      var r' := RunLagging(r, ops);
      && SlotsIn(r'.hw, |r'.bds|) && InOrder(r'.bds, r'.hw) && r'.eng.next == Frontier(r')
      && (r'.eng.up && !r'.eng.idle ==> r'.eng.tail in Todo(r'))
  {
    CreatedSettled(r);
    hide RunLagging, StartsRight, StartsInTime, Created;
    LaggingFrom(r, ops);
  }

  // ---------- When BDs are queued all the way round ----------

  /** What is done between the reset and the next start: no set is refused after BDs of it were marked, and the ring is
      not cloned. */
  ghost predicate Orderly(r: Ring, op: Op)
    requires Shape(r)
  {
    ShapeSlots(r);
    && !op.Start? && !op.Reset? && !op.Clone?
    && (op.ToHw? ==> Accepts(r, op.num, op.head) || Marked(r, op.num, op.head) == 0)
  }

  ghost predicate AllOrderly(r: Ring, ops: seq<Op>)
    requires Shape(r)
    decreases |ops|
  {
    ops == [] || (StepShape(r, ops[0]); Orderly(r, ops[0]) && AllOrderly(Step(r, ops[0]), ops[1..]))
  }

  /** The BD before the frontier is incomplete only if it is to do. */
  ghost predicate LastQueued(r: Ring)
    requires Shape(r) && SlotsIn(r.hw, |r.bds|)
  {
    var b := Before(Frontier(r), |r.bds|);
    !Complete(r.bds[b]) ==> b in Todo(r)
  }

  /** It is to do exactly when the BDs to do fill the ring. */
  lemma LastToDo(r: Ring)
    requires Shape(r) && SlotsIn(r.hw, |r.bds|)
    ensures |Todo(r)| <= |r.bds|
    ensures Before(Frontier(r), |r.bds|) in Todo(r) <==> |Todo(r)| == |r.bds|
  {
    var t, f, n := Todo(r), Frontier(r), |r.bds|;
    TodoThenPre(r);
    hide SlotAt, Frontier, Todo, Shape;
    if |t| == n { assert t[n - 1] == SlotAt(f + (n - 1), n); }
    if Before(f, n) in t {
      var i :| 0 <= i < |t| && t[i] == Before(f, n);
      if i < n - 1 { ArcDistinct(f, i, n - 1, n); }
    }
  }

  /** No BD is touched other than those to do afterwards, and those to do before are still to do. */
  ghost predicate OnlyQueues(r: Ring, r': Ring) {
    && SlotsIn(r.hw, |r.bds|) && SlotsIn(r'.hw, |r'.bds|) && |r'.bds| == |r.bds|
    && (forall s :: 0 <= s < |r.bds| && s !in Todo(r') ==> Complete(r'.bds[s]) == Complete(r.bds[s]))
    && (forall s :: s in Todo(r) ==> s in Todo(r'))
  }

  lemma OrderlyStep(r: Ring, op: Op)
    requires Inv(r) && !r.eng.up && Orderly(r, op)
    ensures OnlyQueues(r, Step(r, op))
  {
    hide Inv, Shape, OnlyQueues, Accepts, Marked, DoToHw, DoFromHw, DoFill, DoHwStep, DoAlloc, DoUnAlloc, DoFree,
         SlotsIn;
    InvBasics(r);
    ShapeSlots(r);
    match op
    case ToHw(num, head) => QueueOrderly(r, num, head);
    case FromHw(limit) => ReapOrderly(r, limit);
    case Fill(slot, bufa, ctrl, user, id) => FillOrderly(r, slot, bufa, ctrl, user, id);
    case _ => OtherOrderly(r, op);
  }

  lemma OtherOrderly(r: Ring, op: Op)
    requires Shape(r) && SlotsIn(r.hw, |r.bds|) && !r.eng.up
    requires op.Alloc? || op.UnAlloc? || op.HwStep? || op.Free? || op.Pause?
    ensures OnlyQueues(r, Step(r, op))
  {
    hide Shape, Todo, DoToHw, DoFromHw, DoFill, DoClone, DoStart, DoReset, SlotAt;
    SameTodoIs(r, Step(r, op));
  }

  lemma SameTodoIs(r: Ring, r': Ring)
    requires SlotsIn(r.hw, |r.bds|) && r'.hw == r.hw && r'.bds == r.bds
    ensures Todo(r') == Todo(r)
  {
  }

  lemma ReapOrderly(r: Ring, limit: int)
    requires Inv(r) && SlotsIn(r.hw, |r.bds|)
    ensures OnlyQueues(r, DoFromHw(r, limit))
  {
    hide Inv, Reapable, Shape, Frontier, Todo, DoneCount;
    InvBasics(r);
    ReapableWithinDone(r, limit);
    TakeShape(r, Reapable(r, limit));
  }

  lemma QueueOrderly(r: Ring, num: int, head: nat)
    requires Inv(r) && !r.eng.up && SlotsIn(r.pre, |r.bds|)
    requires Accepts(r, num, head) || Marked(r, num, head) == 0
    ensures OnlyQueues(r, DoToHw(r, num, head))
  {
    hide Inv, DoToHw, Accepts, Marked, Shape, Todo;
    InvBasics(r);
    HaltedNotRunning(r);
    var r' := DoToHw(r, num, head);
    if Accepts(r, num, head) {
      QueueingParts(r, r', num, head);
      ToHwParts(r, r', num, head);
    } else {
      NothingMarked(r, num, head);
    }
  }

  lemma HaltedNotRunning(r: Ring)
    requires Inv(r) && !r.eng.up
    ensures !r.running
  {
    hide Shape, InOrder, Frontier, Todo;
  }

  lemma NothingMarked(r: Ring, num: int, head: nat)
    requires SlotsIn(r.pre, |r.bds|) && !Accepts(r, num, head) && Marked(r, num, head) == 0
    ensures DoToHw(r, num, head) == r
  {
    hide Accepts, Marked;
    assert r.pre[..0] == [];
  }

  lemma FillOrderly(r: Ring, slot: nat, bufa: U32, ctrl: U32, user: seq<U32>, id: U32)
    requires SlotsIn(r.hw, |r.bds|)
    ensures OnlyQueues(r, DoFill(r, slot, bufa, ctrl, user, id))
  {
    var r' := DoFill(r, slot, bufa, ctrl, user, id);
    DoneCountIs(r'.bds, r.hw, DoneCount(r.bds, r.hw));
  }

  lemma LastQueuedStep(r: Ring, op: Op)
    requires Tracked(r) && !r.eng.up && Orderly(r, op) && LastQueued(r)
    ensures Shape(Step(r, op)) && SlotsIn(Step(r, op).hw, |Step(r, op).bds|) && LastQueued(Step(r, op))
    ensures Tracked(Step(r, op)) && !Step(r, op).eng.up && Step(r, op).restart == r.restart
    ensures |Step(r, op).bds| == |r.bds| && Frontier(Step(r, op)) == Frontier(r)
  {
    OrderlyStep(r, op);
    HaltedTracked(r, op);
    hide Step, Shape, Frontier, SlotAt, Todo, Tracked;
  }

  lemma HaltedTracked(r: Ring, op: Op)
    requires Tracked(r) && !r.eng.up && !op.Start? && !op.Reset?
    ensures var r' := Step(r, op);
      Tracked(r') && !r'.eng.up && r'.restart == r.restart && Inv(r') && Frontier(r') == Frontier(r)
  {
    InvBasics(r);
    hide Tracked, DoHwStep, Shape, Frontier;
    if op.HwStep? {
      HwStepTracked(r, op.sts);
      TrackedInv(r);
    } else {
      DriverTracked(r, op);
      TrackedInv(Step(r, op));
    }
  }

  lemma TrackedInv(r: Ring)
    requires Tracked(r)
    ensures Inv(r)
  {
  }

  lemma {:induction false} LastQueuedRun(r: Ring, ops: seq<Op>)
    requires Tracked(r) && !r.eng.up && Shape(r) && SlotsIn(r.hw, |r.bds|) && AllOrderly(r, ops) && LastQueued(r)
    ensures var r' := RunOf(r, ops);
      && Tracked(r') && !r'.eng.up && r'.restart == r.restart && |r'.bds| == |r.bds| && Frontier(r') == Frontier(r)
      && LastQueued(r')
    decreases |ops|
  {
    if ops != [] {
      LastQueuedStep(r, ops[0]);
      hide Step, Tracked, Shape, LastQueued, Orderly, SlotsIn, Frontier;
      LastQueuedRun(Step(r, ops[0]), ops[1..]);
    }
  }

  /** After a reset that saved the BD completed last, and anything orderly done while halted, the next start is right
      exactly when the BDs to do do not fill the whole ring. */
  lemma LaggingResetExact(r: Ring, ops: seq<Op>)
    requires Tracked(r) && !r.eng.up && |r.bds| > 1 && AllOrderly(r, ops)
    requires r.restart == Before(Frontier(r), |r.bds|) && Complete(r.bds[r.restart])
    ensures var r' := RunOf(r, ops); SlotsIn(r'.hw, |r'.bds|) && (StartRight(r') <==> |Todo(r')| < |r'.bds|)
  {
    InvBasics(r);
    LastQueuedRun(r, ops);
    var r' := RunOf(r, ops);
    BeforeDistance(r');
    hide RunOf, Shape, Frontier, SlotAt, AllOrderly;
    StartLagging(r');
    FillExact(r');
  }

  lemma FillExact(r: Ring)
    requires Tracked(r) && LastQueued(r)
    ensures SomeComplete(r) <==> |Todo(r)| < |r.bds|
  {
    var b, t := Before(Frontier(r), |r.bds|), Todo(r);
    LastToDo(r);
    if b in t { ToDoIncomplete(r, b); }
    var g: nat :| Graded(r.bds, Frontier(r), g);
    hide Tracked, Graded, Frontier, Todo;
    if s :| 0 <= s < |r.bds| && Complete(r.bds[s]) {
      SomeIsLast(r.bds, Frontier(r), g, s);
    }
  }

  lemma ToDoIncomplete(r: Ring, s: nat)
    requires Inv(r) && s in Todo(r)
    ensures s < |r.bds| && !Complete(r.bds[s])
  {
    hide Shape, EngineTracks, Frontier;
    var i :| 0 <= i < |Todo(r)| && Todo(r)[i] == s;
    assert r.hw[DoneCount(r.bds, r.hw) + i] == s;
  }
}
