/** Every run of a ring from its creation on.

    Counted from the frontier, the place where the engine has to go on, the incomplete BDs of the ring always come
    first: all are incomplete at first, the engine completes the first one, and queueing marks BDs that directly follow
    those still to do. So a search that starts at the frontier either ends there or finds nothing at all, and every
    start is right as long as each reset saves the current descriptor. */
module RingCreated {
  import opened RingAddress
  import opened Descriptor
  import opened RingModel
  import opened RingTheorems
  import opened RingRuns
  import opened RingRestart

  /** From position f on, the first t BDs of a full turn are incomplete and the others complete. */
  ghost predicate Graded(bds: seq<Bd>, f: nat, t: nat) {
    && 0 < |bds| && t <= |bds|
    && forall q :: f <= q < f + |bds| ==> (Complete(bds[SlotAt(q, |bds|)]) <==> q >= f + t)
  }

  ghost predicate IncompleteFirst(r: Ring)
    requires Shape(r) && SlotsIn(r.hw, |r.bds|)
  {
    exists t: nat :: Graded(r.bds, Frontier(r), t)
  }

  /** The engine is at the frontier, and the incomplete BDs come first from there. */
  ghost predicate Tracked(r: Ring) {
    Inv(r) && r.eng.next == Frontier(r) && IncompleteFirst(r)
  }

  /** What holds of a ring in every run from its creation on: the engine is or will be started at the frontier. */
  ghost predicate Settled(r: Ring) {
    Tracked(r) && (!r.eng.up ==> r.restart == Frontier(r))
  }

  lemma TrackedBasics(r: Ring)
    requires Tracked(r)
    ensures Inv(r) && Shape(r) && SlotsIn(r.hw, |r.bds|) && r.eng.next == Frontier(r) < |r.bds|
  {
    hide IncompleteFirst, InOrder, EngineTracks;
  }

  // ---------- Positions ----------

  /** Positions a whole number of turns apart are the same slot. */
  lemma SlotShift(q: nat, p: nat, n: nat)
    requires n > 0 && p <= q
    ensures SlotAt(SlotAt(p, n) + (q - p), n) == SlotAt(q, n)
  {
    SlotAdd(p, q - p, n);
  }

  /** The grading may be counted from any position of the same slot. */
  lemma GradedFromSlot(bds: seq<Bd>, p: nat, t: nat)
    requires 0 < |bds| && t <= |bds|
    requires forall q :: p <= q < p + |bds| ==> (Complete(bds[SlotAt(q, |bds|)]) <==> q >= p + t)
    ensures Graded(bds, SlotAt(p, |bds|), t)
  {
    hide Complete, SlotAt;
    var n, s := |bds|, SlotAt(p, |bds|);
    forall q | s <= q < s + n ensures Complete(bds[SlotAt(q, n)]) <==> q >= s + t {
      SlotShift(p + (q - s), p, n);
      assert SlotAt(p + (q - s), n) == SlotAt(q, n);
    }
  }

  /** Completing the BD at the frontier, the first of t incomplete ones. */
  lemma GradedComplete(bds: seq<Bd>, f: nat, t: nat, word: U32)
    requires Graded(bds, f, t) && t > 0 && f < |bds| && word >= BIT31
    ensures Graded(bds[f := bds[f].(sts := word)], SlotAt(f + 1, |bds|), t - 1)
  {
    var n, b := |bds|, bds[f := bds[f].(sts := word)];
    ModOne(f, n);
    forall q | f + 1 <= q < f + 1 + n ensures Complete(b[SlotAt(q, n)]) <==> q >= f + 1 + (t - 1) {
      if q == f + n {
        SlotTurn(f, n);
      } else {
        ArcDistinct(f, 0, q - f, n);
      }
    }
    hide Complete, SlotAt;
    GradedFromSlot(b, f + 1, t - 1);
  }

  /** Marking m BDs that directly follow d of the t incomplete ones. */
  lemma GradedMark(bds: seq<Bd>, f: nat, t: nat, d: nat, s: seq<nat>)
    requires Graded(bds, f, t) && d <= t && d + |s| <= |bds| && SlotsIn(s, |bds|)
    requires forall i :: 0 <= i < |s| ==> s[i] == SlotAt(f + d + i, |bds|)
    ensures Graded(MarkSent(bds, s), f, if t < d + |s| then d + |s| else t)
  {
    hide Complete, SlotAt, MarkSent;
    var n, b := |bds|, MarkSent(bds, s);
    forall q | f <= q < f + n
      ensures Complete(b[SlotAt(q, n)]) <==> q >= f + if t < d + |s| then d + |s| else t
    {
      if f + d <= q < f + d + |s| {
        assert s[q - f - d] == SlotAt(q, n);
      } else {
        NotMarked(f, d, s, q, n);
      }
    }
  }

  lemma NotMarked(f: nat, d: nat, s: seq<nat>, q: nat, n: nat)
    requires f <= q < f + n && d + |s| <= n && !(f + d <= q < f + d + |s|)
    requires forall i :: 0 <= i < |s| ==> s[i] == SlotAt(f + d + i, n)
    ensures SlotAt(q, n) !in s
  {
    hide SlotAt;
    forall i | 0 <= i < |s| ensures s[i] != SlotAt(q, n) {
      if q < f + d {
        ArcDistinct(f, q - f, d + i, n);
      } else {
        ArcDistinct(f, d + i, q - f, n);
      }
    }
  }

  /** All BDs incomplete, counted from anywhere. */
  lemma GradedAll(bds: seq<Bd>, f: nat)
    requires 0 < |bds| && forall i :: 0 <= i < |bds| ==> !Complete(bds[i])
    ensures Graded(bds, f, |bds|)
  {
    hide Complete;
  }

  // ---------- Each step ----------

  ghost predicate OnArc(s: seq<nat>, p: nat, n: nat) {
    n > 0 && forall i :: 0 <= i < |s| ==> s[i] == SlotAt(p + i, n)
  }

  lemma OrderAt(r: Ring, j: nat)
    requires Shape(r) && j < |r.bds|
    ensures |Order(r)| == |r.bds| && Order(r)[j] == SlotAt(Order(r)[0] + j, |r.bds|)
  {
    hide Order;
  }

  /** Positions of the BDs to do and of those in pre, counted from the frontier. */
  lemma TodoThenPre(r: Ring)
    requires Shape(r) && SlotsIn(r.hw, |r.bds|)
    ensures |Todo(r)| + |r.pre| <= |r.bds|
    ensures OnArc(Todo(r), Frontier(r), |r.bds|) && OnArc(r.pre, Frontier(r) + |Todo(r)|, |r.bds|)
  {
    var o, n, d := Order(r), |r.bds|, DoneCount(r.bds, r.hw);
    FrontierPosition(r);
    assert |o| == n;
    hide SlotAt, Arc, DoneCount, Frontier, Shape;
    forall i | 0 <= i < |Todo(r)| ensures Todo(r)[i] == SlotAt(Frontier(r) + i, n) {
      assert o[|r.post| + d + i] == r.hw[d + i];
      FromFrontier(r, i);
    }
    forall i | 0 <= i < |r.pre| ensures r.pre[i] == SlotAt(Frontier(r) + |Todo(r)| + i, n) {
      assert o[|r.post| + d + |Todo(r)| + i] == r.pre[i];
      FromFrontier(r, |Todo(r)| + i);
    }
  }

  lemma FromFrontier(r: Ring, i: nat)
    requires Shape(r) && SlotsIn(r.hw, |r.bds|) && |r.post| + DoneCount(r.bds, r.hw) + i < |r.bds|
    ensures |Order(r)| == |r.bds|
    ensures Order(r)[|r.post| + DoneCount(r.bds, r.hw) + i] == SlotAt(Frontier(r) + i, |r.bds|)
  {
    FrontierPosition(r);
    hide SlotAt, DoneCount, Frontier, Shape;
    var k := |r.post| + DoneCount(r.bds, r.hw);
    OrderAt(r, k + i);
    SlotAdd(Order(r)[0] + k, i, |r.bds|);
  }

  lemma FrontierPosition(r: Ring)
    requires Shape(r) && SlotsIn(r.hw, |r.bds|)
    ensures Frontier(r) == SlotAt(Order(r)[0] + |r.post| + DoneCount(r.bds, r.hw), |r.bds|)
  {
    var o, n, k := Order(r), |r.bds|, |r.post| + DoneCount(r.bds, r.hw);
    if k < n {
      assert o[k] == SlotAt(o[0] + k, n);
    } else {
      SlotTurn(o[0], n);
      assert o[0] == SlotAt(o[0] + 0, n);
    }
  }

  /** The BDs to do are among the incomplete ones that come first. */
  lemma TodoWithin(r: Ring, t: nat)
    requires Inv(r) && Graded(r.bds, Frontier(r), t)
    ensures |Todo(r)| <= t
  {
    if |Todo(r)| > 0 {
      TodoThenPre(r);
      var i := |Todo(r)| - 1;
      assert Todo(r)[i] == r.hw[DoneCount(r.bds, r.hw) + i];
      assert !Complete(r.bds[SlotAt(Frontier(r) + i, |r.bds|)]);
    }
  }

  lemma ToHwGraded(r: Ring, num: int, head: nat, t: nat) returns (t': nat)
    requires Inv(r) && SlotsIn(r.pre, |r.bds|) && Graded(r.bds, Frontier(r), t)
    ensures Graded(DoToHw(r, num, head).bds, Frontier(r), t')
  {
    hide Inv, SlotAt, Frontier, Todo, Graded, DoToHw, SlotsIn, OnArc, Marked, Accepts, MarkSent, Shape;
    InvBasics(r);
    TodoThenPre(r);
    TodoWithin(r, t);
    MarkedBds(r, num, head);
    t' := GradedPrefix(r.bds, Frontier(r), t, |Todo(r)|, r.pre, Marked(r, num, head));
  }

  lemma GradedPrefix(bds: seq<Bd>, f: nat, t: nat, d: nat, pre: seq<nat>, m: nat) returns (t': nat)
    requires Graded(bds, f, t) && d <= t && m <= |pre| && d + |pre| <= |bds| && SlotsIn(pre[..m], |bds|)
    requires OnArc(pre, f + d, |bds|)
    ensures Graded(MarkSent(bds, pre[..m]), f, t')
  {
    hide SlotAt, Graded, MarkSent;
    t' := if t < d + m then d + m else t;
    GradedMark(bds, f, t, d, pre[..m]);
  }

  lemma MarkedBds(r: Ring, num: int, head: nat)
    requires SlotsIn(r.pre, |r.bds|)
    ensures SlotsIn(r.pre[..Marked(r, num, head)], |r.bds|)
    ensures DoToHw(r, num, head).bds == MarkSent(r.bds, r.pre[..Marked(r, num, head)])
  {
    hide MarkSent, NonZeroRun;
  }

  lemma CloneGraded(r: Ring, template: Bd, f: nat, t: nat) returns (t': nat)
    requires Graded(r.bds, f, t)
    ensures Graded(DoClone(r, template).bds, f, t')
  {
    t' := t;
    if DoClone(r, template) != r {
      t' := |r.bds|;
      GradedAll(DoClone(r, template).bds, f);
    }
  }

  lemma FillGraded(r: Ring, slot: nat, bufa: U32, ctrl: U32, user: seq<U32>, id: U32, f: nat, t: nat)
    requires Graded(r.bds, f, t)
    ensures Graded(DoFill(r, slot, bufa, ctrl, user, id).bds, f, t)
  {
    hide SlotAt;
  }

  /** Steps of the driver, other than starting and resetting, leave the frontier and the order of the BDs. */
  lemma DriverGraded(r: Ring, op: Op, t: nat) returns (t': nat)
    requires Inv(r) && !op.HwStep? && !op.Start? && !op.Reset? && Graded(r.bds, Frontier(r), t)
    ensures Graded(Step(r, op).bds, Frontier(r), t')
  {
    ShapeSlots(r);
    t' := t;
    hide Inv, Graded, DoToHw, DoClone, DoFill, Frontier;
    match op
    case ToHw(num, head) => t' := ToHwGraded(r, num, head, t);
    case Clone(template) => t' := CloneGraded(r, template, Frontier(r), t);
    case Fill(slot, bufa, ctrl, user, id) => FillGraded(r, slot, bufa, ctrl, user, id, Frontier(r), t);
    case _ =>
  }

  /** Steps of the driver leave the frontier where it is. */
  lemma DriverFrontier(r: Ring, op: Op)
    requires Inv(r) && r.eng.next == Frontier(r) && !op.HwStep? && !op.Start? && !op.Reset?
    ensures var r' := Step(r, op);
      && Inv(r') && r'.eng.next == r.eng.next && r'.eng.up == r.eng.up && r'.restart == r.restart
      && Frontier(r') == Frontier(r)
  {
    StepKeeps(r, op);
    DriverEngine(r, op);
    if !r.eng.up { HaltedStep(r, op); }
  }

  lemma DriverEngine(r: Ring, op: Op)
    requires Shape(r) && !op.HwStep? && !op.Start? && !op.Reset?
    ensures var r' := Step(r, op); r'.eng.next == r.eng.next && r'.eng.up == r.eng.up && r'.restart == r.restart
  {
    hide At, Arc, SlotAt, DoneCount, MarkSent, CloneAll, LastEof, NonZeroRun;
  }

  lemma HwStepTracked(r: Ring, sts: U32)
    requires Tracked(r)
    ensures Tracked(DoHwStep(r, sts)) && (!r.eng.up ==> DoHwStep(r, sts) == r) && (r.eng.up ==> DoHwStep(r, sts).eng.up)
  {
    if r.eng.up && !r.eng.idle && sts >= BIT31 {
      HwStepGraded(r, sts);
      HwStepKeeps(r, sts);
      HwStepFieldsAre(r, sts);
      hide IncompleteFirst, DoHwStep, Inv, Shape;
    }
  }

  lemma HwStepGraded(r: Ring, sts: U32)
    requires Tracked(r) && r.eng.up && !r.eng.idle && sts >= BIT31
    ensures var r' := DoHwStep(r, sts);
      Shape(r') && SlotsIn(r'.hw, |r'.bds|) && Frontier(r') == r'.eng.next && IncompleteFirst(r')
  {
    var t: nat :| Graded(r.bds, Frontier(r), t);
    var r' := DoHwStep(r, sts);
    HwStepParts(r, r', sts);
    HwStepFieldsAre(r, sts);
    TodoWithin(r, t);
    hide Inv, Shape, Frontier, Todo, Graded, DoHwStep, SlotAt;
    GradedComplete(r.bds, Frontier(r), t, sts);
    assert Graded(r'.bds, Frontier(r'), t - 1);
  }

  lemma HwStepFieldsAre(r: Ring, sts: U32)
    requires Inv(r) && r.eng.up && !r.eng.idle && sts >= BIT31
    ensures var r' := DoHwStep(r, sts);
      && r.eng.next < |r.bds| && r'.bds == r.bds[r.eng.next := r.bds[r.eng.next].(sts := sts)] && r'.eng.up
      && r'.eng.next == SlotAt(r.eng.next + 1, |r.bds|)
  {
    hide InOrder, EngineTracks, SlotAt, Arc;
  }

  /** With the restart point at the frontier, a start begins there or finds every BD complete. */
  lemma SearchFromFrontier(r: Ring)
    requires Settled(r) && !r.eng.up
    ensures SearchFails(r) || RestartReady(r)
    ensures SearchFails(r) <==> forall s :: 0 <= s < |r.bds| ==> Complete(r.bds[s])
    ensures SearchFails(r) ==> Todo(r) == []
  {
    var t: nat :| Graded(r.bds, Frontier(r), t);
    SearchFailsIffAllComplete(r);
    NoDistance(r);
    TodoWithin(r, t);
    var f, n := FrontierSlot(r), |r.bds|;
    ModOne(f, n);
    if t == 0 {
      forall s | 0 <= s < n ensures Complete(r.bds[s]) {
        DistanceReaches(f, s, n);
      }
    }
  }

  /** Where the search finds the frontier, or nothing at all, a start keeps track. */
  lemma StartTracked(r: Ring, comesUp: bool)
    requires Tracked(r) && (!r.eng.up ==> SearchFails(r) || RestartReady(r))
    ensures SlotsIn(r.hw, |r.bds|)
    ensures var r' := DoStart(r, comesUp);
      Tracked(r') && r'.restart == r.restart && Frontier(r') == Frontier(r) && (r.eng.up ==> r'.eng.up)
  {
    if !SearchFails(r) {
      StartKeeps(r, comesUp);
      StartStays(r, comesUp);
      EngineOnly(r, DoStart(r, comesUp));
      var t: nat :| Graded(r.bds, Frontier(r), t);
      assert Graded(DoStart(r, comesUp).bds, Frontier(DoStart(r, comesUp)), t);
    }
  }

  lemma StartSettled(r: Ring, comesUp: bool)
    requires Settled(r)
    ensures SlotsIn(r.hw, |r.bds|) && Settled(DoStart(r, comesUp))
  {
    if !r.eng.up { SearchFromFrontier(r); }
    hide Tracked, SearchFails, RestartReady, DoStart;
    StartTracked(r, comesUp);
  }

  /** A start leaves everything but run state and engine, and the engine goes on at the frontier. */
  lemma StartStays(r: Ring, comesUp: bool)
    requires Tracked(r) && !SearchFails(r) && (!r.eng.up ==> RestartReady(r))
    ensures var r' := DoStart(r, comesUp);
      && r' == r.(eng := r'.eng, running := r'.running) && r'.eng.next == r.eng.next
      && r'.eng.next < |r.bds| && r'.eng.tail < |r.bds| && (r.eng.up ==> r'.eng.up)
  {
    StartEngine(r, comesUp);
    if !r.eng.up { RestartExact(r); }
    hide Inv, Frontier, RestartReady, SearchDistance, SlotAt, IncompleteFirst;
  }

  lemma ResetTracked(r: Ring, snapshot: nat)
    requires Tracked(r) && snapshot < |r.bds|
    ensures var r' := DoReset(r, snapshot);
      Tracked(r') && !r'.eng.up && r'.restart == snapshot && Frontier(r') == Frontier(r)
  {
    var r' := DoReset(r, snapshot);
    ResetKeeps(r, snapshot);
    assert r' == r.(eng := r'.eng, running := r'.running, restart := r'.restart);
    SameFrontier(r, r');
    var t: nat :| Graded(r.bds, Frontier(r), t);
    assert Graded(r'.bds, Frontier(r'), t);
  }

  lemma SameFrontier(r: Ring, r': Ring)
    requires Inv(r) && Inv(r') && r' == r.(eng := r'.eng, running := r'.running, restart := r'.restart)
    ensures Frontier(r') == Frontier(r)
  {
    hide At, Arc, SlotAt, DoneCount;
    assert Order(r') == Order(r);
  }

  lemma DriverTracked(r: Ring, op: Op)
    requires Tracked(r) && !op.HwStep? && !op.Start? && !op.Reset?
    ensures var r' := Step(r, op);
      Tracked(r') && r'.eng.up == r.eng.up && r'.restart == r.restart && Frontier(r') == Frontier(r)
  {
    var t: nat :| Graded(r.bds, Frontier(r), t);
    DriverFrontier(r, op);
    var t' := DriverGraded(r, op, t);
    hide Step, Graded, Frontier, Shape;
    assert Graded(Step(r, op).bds, Frontier(Step(r, op)), t');
  }

  /** Every step keeps the ring settled, if a reset saves the current descriptor. */
  lemma StepSettled(r: Ring, op: Op)
    requires Settled(r) && (op.Reset? ==> op.snapshot == r.eng.next)
    ensures Settled(Step(r, op))
  {
    hide Tracked, DoStart, DoHwStep, DoReset, DoToHw, DoFromHw, DoAlloc, DoUnAlloc, DoFree, DoFill, DoClone, Shape,
         Frontier, SlotsIn;
    TrackedBasics(r);
    match op
    case HwStep(sts) => HwStepTracked(r, sts);
    case Start(comesUp) => StartSettled(r, comesUp);
    case Reset(snapshot) => ResetTracked(r, snapshot);
    case _ => DriverTracked(r, op);
  }

  // ---------- Every run ----------

  lemma CreatedSettled(r: Ring)
    requires Created(r)
    ensures Settled(r)
  {
    ModOne(0, |r.bds|);
    assert Order(r) == r.free;
    assert Frontier(r) == 0;
    GradedAll(r.bds, 0);
  }

  /** A new ring cloned from a template without status or id, and one started, have nothing queued. */
  lemma CreatedStarts(r: Ring, template: Bd)
    requires Created(r) && template.sts == 0 && template.id == 0
    ensures Created(DoClone(r, template))
    ensures var r' := DoStart(DoClone(r, template), true);
      && Inv(r') && r'.running && r'.post == r'.hw == r'.pre == []
      && r'.mask == r.mask && r'.isRx == r.isRx && forall i :: 0 <= i < |r'.bds| ==> r'.bds[i].id == 0
  {
    CloneCreated(r, template);
    var c := DoClone(r, template);
    hide DoClone;
    CreatedSettled(c);
    StartSettled(c, true);
    SearchFromFrontier(c);
    assert !Complete(c.bds[0]);
    hide Inv, Settled, Shape, SearchDistance;
  }

  ghost function Started(r: Ring, template: Bd): (r': Ring)
    requires Created(r) && template.sts == 0 && template.id == 0
    ensures Inv(r') && r'.running && r'.post == r'.hw == r'.pre == []
    ensures r'.mask == r.mask && r'.isRx == r.isRx && forall i :: 0 <= i < |r'.bds| ==> r'.bds[i].id == 0
  {
    CreatedStarts(r, template);
    DoStart(DoClone(r, template), true)
  }

  lemma CloneCreated(r: Ring, template: Bd)
    requires Created(r) && template.sts == 0 && template.id == 0
    ensures var c := DoClone(r, template); Created(c) && c.mask == r.mask && c.isRx == r.isRx
  {
    hide At, Arc, SlotAt, CloneAll;
    assert Order(DoClone(r, template)) == Order(r);
  }

  /** A run in which each reset saves the current descriptor, as BdRing.Reset does; what a reset in `ops` names is
      ignored. */
  ghost function RunSaving(r: Ring, ops: seq<Op>): (r': Ring)
    requires Shape(r)
    ensures Shape(r')
    decreases |ops|
  {
    if ops == [] then r
    else
      var op := Saving(r, ops[0]);
      StepShape(r, op);
      RunSaving(Step(r, op), ops[1..])
  }

  ghost function Saving(r: Ring, op: Op): Op {
    if op.Reset? then Op.Reset(r.eng.next) else op
  }

  /** Such a run is a run. */
  lemma {:induction false} SavingIsRun(r: Ring, ops: seq<Op>) returns (saved: seq<Op>)
    requires Shape(r)
    ensures |saved| == |ops| && RunOf(r, saved) == RunSaving(r, ops)
    decreases |ops|
  {
    hide Step, Shape;
    if ops == [] {
      saved := [];
    } else {
      var op := Saving(r, ops[0]);
      StepShape(r, op);
      var rest := SavingIsRun(Step(r, op), ops[1..]);
      saved := [op] + rest;
      assert saved[1..] == rest;
    }
  }

  lemma {:induction false} SettledInEveryRun(r: Ring, ops: seq<Op>)
    requires Settled(r)
    ensures Settled(RunSaving(r, ops))
    decreases |ops|
  {
    if ops != [] {
      StepSettled(r, Saving(r, ops[0]));
      hide Settled, Step;
      SettledInEveryRun(Step(r, Saving(r, ops[0])), ops[1..]);
    }
  }

  /** In every run from creation on, whatever its operations, the engine completes BDs in queue order, goes on exactly
      where it stopped and stops inside the hardware group. */
  lemma EngineInEveryRun(r: Ring, ops: seq<Op>)
    requires Created(r)
    ensures var r' := RunSaving(r, ops);
      && SlotsIn(r'.hw, |r'.bds|) && InOrder(r'.bds, r'.hw) && r'.eng.next == Frontier(r')
      && (r'.eng.up && !r'.eng.idle ==> r'.eng.tail in Todo(r'))
  {
    CreatedSettled(r);
    hide RunSaving, Created;
    SettledInEveryRun(r, ops);
  }

  /** While the channel is started and some queued BD is incomplete, the engine is working and its tail register names
      the last queued BD. */
  ghost predicate Published(r: Ring) {
    r.running ==> forall i: nat :: i < |r.hw| && r.hw[i] < |r.bds| && !Complete(r.bds[r.hw[i]]) ==>
      r.eng.up && !r.eng.idle && r.eng.tail == r.hw[|r.hw| - 1]
  }

  lemma PublishedIn(r: Ring)
    requires Inv(r)
    ensures Published(r)
  {
    hide Inv;
    forall i: nat | r.running && i < |r.hw| && r.hw[i] < |r.bds| && !Complete(r.bds[r.hw[i]])
      ensures r.eng.up && !r.eng.idle && r.eng.tail == r.hw[|r.hw| - 1]
    {
      TailPublished(r, i);
    }
  }

  lemma TailPublishedInEveryRun(r: Ring, ops: seq<Op>)
    requires Created(r)
    ensures Published(RunSaving(r, ops))
  {
    CreatedSettled(r);
    hide RunSaving, Created, Published, Shape, Inv;
    SettledInEveryRun(r, ops);
    PublishedIn(RunSaving(r, ops));
  }

  /** In every run from creation on, a start from a halt fails exactly when every BD is complete, and then none is to
      do; else the engine goes on where it has to and is given exactly the BDs to do. */
  lemma RestartInEveryRun(r: Ring, ops: seq<Op>)
    requires Created(r) && !RunSaving(r, ops).eng.up
    ensures var r' := RunSaving(r, ops);
      && SlotsIn(r'.hw, |r'.bds|)
      && (SearchFails(r') <==> forall s :: 0 <= s < |r'.bds| ==> Complete(r'.bds[s]))
      && (SearchFails(r') ==> Todo(r') == [])
      && (!SearchFails(r') ==>
        DoStart(r', true).eng.next == Frontier(r') && Released(DoStart(r', true)) == Todo(r'))
  {
    CreatedSettled(r);
    hide RunSaving, Created;
    SettledInEveryRun(r, ops);
    RestartSettled(RunSaving(r, ops));
  }

  lemma RestartSettled(r: Ring)
    requires Settled(r) && !r.eng.up
    ensures SearchFails(r) <==> forall s :: 0 <= s < |r.bds| ==> Complete(r.bds[s])
    ensures SearchFails(r) ==> Todo(r) == []
    ensures !SearchFails(r) ==>
      DoStart(r, true).eng.next == Frontier(r) && Released(DoStart(r, true)) == Todo(r)
  {
    SearchFromFrontier(r);
    if !SearchFails(r) {
      StartStays(r, true);
      if Todo(r) != [] {
        NoDistance(r);
        RestartReleasesExactlyTodo(r);
      } else {
        NothingReleased(r);
      }
    }
  }

  lemma NothingReleased(r: Ring)
    requires Inv(r) && !r.eng.up && !SearchFails(r) && Todo(r) == []
    ensures Released(DoStart(r, true)) == []
  {
    StartTail(r);
    hide Todo, SearchDistance;
  }
}
