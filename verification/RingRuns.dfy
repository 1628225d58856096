/** Theorems about whole runs: any sequence of driver calls, application writes and engine steps. */
module RingRuns {
  import opened RingAddress
  import opened Descriptor
  import opened RingModel
  import opened RingTheorems

  // ---------- The groups, in every run ----------

  lemma StepShape(r: Ring, op: Op)
    requires Shape(r)
    ensures Shape(Step(r, op))
  {
    ShapeSlots(r);
    hide SlotAt, At, Arc, Fits, MarkSent, DoStart, DoToHw, DoFromHw, CloneAll;
    var r' := Step(r, op);
    match op
    case Start(comesUp) => StartShape(r, comesUp);
    case Alloc(num) => if r' != r { AllocShape(r, num); }
    case UnAlloc(num, head) => if r' != r { UnAllocShape(r, num, head); }
    case ToHw(num, head) => ToHwShape(r, num, head);
    case FromHw(limit) => FromHwShape(r, limit);
    case Free(num, head) => if r' != r { FreeRotates(r, num, head); }
    case _ => assert Order(r') == Order(r);
  }

  lemma FromHwShape(r: Ring, limit: int)
    requires Shape(r) && SlotsIn(r.hw, |r.bds|)
    ensures Shape(DoFromHw(r, limit))
  {
    hide Shape, Reapable;
    ReapableWithinDone(r, limit);
    TakeShape(r, Reapable(r, limit));
  }

  lemma StartShape(r: Ring, comesUp: bool)
    requires Shape(r) && SlotsIn(r.hw, |r.bds|)
    ensures Shape(DoStart(r, comesUp))
  {
    hide SlotAt, At, Arc, Fits, SearchDistance, SearchFails;
    assert Order(DoStart(r, comesUp)) == Order(r);
  }

  lemma ToHwShape(r: Ring, num: int, head: nat)
    requires Shape(r) && SlotsIn(r.pre, |r.bds|)
    ensures Shape(DoToHw(r, num, head))
  {
    hide SlotAt, At, MarkSent, Arc, Fits;
    var m := Marked(r, num, head);
    var r1 := r.(bds := MarkSent(r.bds, r.pre[..m]));
    assert Order(r1) == Order(r);
    if Accepts(r, num, head) {
      assert DoToHw(r, num, head) == Send(r1, num);
      SendShape(r1, num);
    }
  }

  ghost function RunOf(r: Ring, ops: seq<Op>): (r': Ring)
    requires Shape(r)
    ensures Shape(r')
    decreases |ops|
  {
    if ops == [] then r else StepShape(r, ops[0]); RunOf(Step(r, ops[0]), ops[1..])
  }

  /** In every run the groups are four arcs in ring order: each slot is in exactly one of them. */
  lemma GroupsInEveryRun(r: Ring, ops: seq<Op>)
    requires Shape(r)
    ensures var r' := RunOf(r, ops);
      && |r'.post| + |r'.hw| + |r'.pre| + |r'.free| == |r'.bds| > 0
      && Order(r') == Arc(Order(r')[0], |r'.bds|, |r'.bds|)
      && (forall s :: 0 <= s < |r'.bds| ==> s in Order(r'))
      && (forall i, j :: 0 <= i < j < |Order(r')| ==> Order(r')[i] != Order(r')[j])
  {
    var r' := RunOf(r, ops);
    OrderDistinct(r');
    forall s | 0 <= s < |r'.bds| ensures s in Order(r') {
      var p, n := Order(r')[0], |r'.bds|;
      DistanceReaches(p, s, n);
      assert Order(r')[SlotAt(s + n - p, n)] == s;
    }
  }

  // ---------- First in, first out ----------

  /** Slots handed to the hardware group, and handed back from it, by one step. */
  ghost function SentBy(r: Ring, op: Op): seq<nat>
    requires Shape(r)
  {
    ShapeSlots(r);
    if op.ToHw? && Accepts(r, op.num, op.head) then r.pre[..op.num] else []
  }

  ghost function ReturnedBy(r: Ring, op: Op): seq<nat>
    requires Shape(r)
  {
    ShapeSlots(r);
    if op.FromHw? then r.hw[..Reapable(r, op.limit)] else []
  }

  ghost function Sent(r: Ring, ops: seq<Op>): seq<nat>
    requires Shape(r)
    decreases |ops|
  {
    if ops == [] then [] else StepShape(r, ops[0]); SentBy(r, ops[0]) + Sent(Step(r, ops[0]), ops[1..])
  }

  ghost function Returned(r: Ring, ops: seq<Op>): seq<nat>
    requires Shape(r)
    decreases |ops|
  {
    if ops == [] then [] else StepShape(r, ops[0]); ReturnedBy(r, ops[0]) + Returned(Step(r, ops[0]), ops[1..])
  }

  lemma StepIsFifo(r: Ring, op: Op)
    requires Shape(r)
    ensures r.hw + SentBy(r, op) == ReturnedBy(r, op) + Step(r, op).hw
  {
    hide Shape, SlotsIn, Reapable, Accepts, DoToHw, DoStart, DoHwStep, DoClone, DoFill, DoReset, DoAlloc, DoUnAlloc,
         DoFree;
    ShapeSlots(r);
    match op
    case ToHw(num, head) => ToHwAppends(r, num, head);
    case FromHw(limit) =>
    case Start(comesUp) => StartKeepsHw(r, comesUp);
    case _ => SameHw(r, op);
  }

  lemma SameHw(r: Ring, op: Op)
    requires Shape(r) && !op.ToHw? && !op.FromHw? && !op.Start?
    ensures Step(r, op).hw == r.hw
  {
    hide Shape, CloneAll;
  }

  lemma ToHwAppends(r: Ring, num: int, head: nat)
    requires SlotsIn(r.pre, |r.bds|)
    ensures DoToHw(r, num, head).hw == r.hw + if Accepts(r, num, head) then r.pre[..num] else []
  {
    hide MarkSent, Marked;
  }

  lemma StartKeepsHw(r: Ring, comesUp: bool)
    requires Shape(r) && SlotsIn(r.hw, |r.bds|)
    ensures DoStart(r, comesUp).hw == r.hw
  {
    hide Shape, SearchFails, SearchDistance, Complete;
  }

  /** BDs leave the hardware group in exactly the order they entered it, over every run. */
  lemma {:induction false} FifoInEveryRun(r: Ring, ops: seq<Op>)
    requires Shape(r)
    ensures r.hw + Sent(r, ops) == Returned(r, ops) + RunOf(r, ops).hw
    decreases |ops|
  {
    if ops != [] {
      var op, r1, rest := ops[0], Step(r, ops[0]), ops[1..];
      StepShape(r, op);
      StepIsFifo(r, op);
      FifoInEveryRun(r1, rest);
      FifoChain(r.hw, SentBy(r, op), ReturnedBy(r, op), r1.hw, Sent(r1, rest), Returned(r1, rest), RunOf(r1, rest).hw);
    }
  }

  lemma FifoChain(hw: seq<nat>, s: seq<nat>, ret: seq<nat>, hw1: seq<nat>, s1: seq<nat>, ret1: seq<nat>, hw2: seq<nat>)
    requires hw + s == ret + hw1 && hw1 + s1 == ret1 + hw2
    ensures hw + (s + s1) == (ret + ret1) + hw2
  {
    assert hw + (s + s1) == (hw + s) + s1 == ret + (hw1 + s1) == (ret + ret1) + hw2;
  }

  // ---------- No BD is handed out twice ----------

  /** Slots given back by one step. */
  ghost function FreedBy(r: Ring, op: Op): seq<nat> {
    if op.Free? && 0 < op.num <= |r.post| && r.post[0] == op.head then r.post[..op.num] else []
  }

  /** What FromHw hands out is not in the hands of the application already. */
  lemma HandOut(r: Ring, op: Op, s: nat)
    requires Shape(r) && s in ReturnedBy(r, op)
    ensures s !in r.post && s !in r.pre && s !in r.free && s in Step(r, op).post
  {
    ShapeSlots(r);
    GroupsDisjoint(r);
    assert s in r.hw;
  }

  /** What has been handed out stays so under every step other than a Free that names it. */
  lemma StaysInPost(r: Ring, op: Op, s: nat)
    requires Shape(r) && s in r.post && s !in FreedBy(r, op)
    ensures s in Step(r, op).post
  {
    hide SlotAt, At, Arc, DoneCount, MarkSent, CloneAll, LastEof, NonZeroRun;
    if op.Free? && 0 < op.num <= |r.post| {
      assert r.post == r.post[..op.num] + r.post[op.num..];
    }
  }

  lemma {:induction false} RunSnoc(r: Ring, ops: seq<Op>, k: nat)
    requires Shape(r) && k < |ops|
    ensures RunOf(r, ops[..k + 1]) == Step(RunOf(r, ops[..k]), ops[k])
    decreases k
  {
    hide Step, Shape;
    if k == 0 {
      assert ops[..1][1..] == [] && ops[..0] == [];
    } else {
      StepShape(r, ops[0]);
      RunSnoc(Step(r, ops[0]), ops[1..], k - 1);
      assert ops[..k + 1][1..] == ops[1..][..k] && ops[..k][1..] == ops[1..][..k - 1];
    }
  }

  /** The k-th step of a run hands s out, or gives it back. */
  ghost predicate HandsOut(r: Ring, ops: seq<Op>, k: nat, s: nat)
    requires Shape(r) && k < |ops|
  {
    s in ReturnedBy(RunOf(r, ops[..k]), ops[k])
  }

  ghost predicate Frees(r: Ring, ops: seq<Op>, k: nat, s: nat)
    requires Shape(r) && k < |ops|
  {
    s in FreedBy(RunOf(r, ops[..k]), ops[k])
  }

  lemma {:induction false} HeldUntilFreed(r: Ring, ops: seq<Op>, i: nat, j: nat, s: nat)
    requires Shape(r) && i <= j <= |ops| && s in RunOf(r, ops[..i]).post
    requires forall k: nat :: i <= k < j ==> !Frees(r, ops, k, s)
    ensures s in RunOf(r, ops[..j]).post
    decreases j
  {
    hide Step, RunOf, FreedBy, Shape;
    if i < j {
      HeldUntilFreed(r, ops, i, j - 1, s);
      assert !Frees(r, ops, j - 1, s);
      RunSnoc(r, ops, j - 1);
      StaysInPost(RunOf(r, ops[..j - 1]), ops[j - 1], s);
    }
  }

  /** In every run, between two steps that hand out the same BD there is one that gives it back. */
  lemma NotHandedOutTwice(r: Ring, ops: seq<Op>, i: nat, j: nat, s: nat)
    requires Shape(r) && i < j < |ops| && HandsOut(r, ops, i, s) && HandsOut(r, ops, j, s)
    ensures exists k: nat :: i < k < j && Frees(r, ops, k, s)
  {
    hide Step, RunOf, FreedBy, ReturnedBy, Shape;
    HandOut(RunOf(r, ops[..i]), ops[i], s);
    RunSnoc(r, ops, i);
    HandOut(RunOf(r, ops[..j]), ops[j], s);
    if forall k: nat :: i < k < j ==> !Frees(r, ops, k, s) {
      HeldUntilFreed(r, ops, i + 1, j, s);
    }
  }

  // ---------- The engine, in every run ----------

  /** A start from a halt finds the restart point in place, or finds nothing to start with. RingCreated shows when
      that is so. */
  ghost predicate RestartsReady(r: Ring, ops: seq<Op>)
    requires Shape(r)
    decreases |ops|
  {
    ops == [] ||
    (StepShape(r, ops[0]); ShapeSlots(r);
     && (ops[0].Start? && !r.eng.up ==> SearchFails(r) || RestartReady(r))
     && RestartsReady(Step(r, ops[0]), ops[1..]))
  }

  lemma StepKeeps(r: Ring, op: Op)
    requires Inv(r) && (op.Start? && !r.eng.up ==> SearchFails(r) || RestartReady(r))
    ensures Inv(Step(r, op))
  {
    hide Inv, Shape, SlotsIn, RestartReady, SearchFails, DoAlloc, DoUnAlloc, DoFill, DoToHw, DoHwStep, DoFromHw, DoFree,
         DoClone, DoReset, DoStart;
    InvBasics(r);
    ShapeSlots(r);
    match op
    case Alloc(num) => AllocKeeps(r, num);
    case UnAlloc(num, head) => UnAllocKeeps(r, num, head);
    case Fill(slot, bufa, ctrl, user, id) => FillKeeps(r, slot, bufa, ctrl, user, id);
    case ToHw(num, head) => ToHwKeeps(r, num, head);
    case HwStep(sts) => HwStepKeeps(r, sts);
    case FromHw(limit) => FromHwKeeps(r, limit);
    case Free(num, head) => FreeKeeps(r, num, head);
    case Clone(template) => CloneKeeps(r, template);
    case Pause => PauseKeeps(r);
    case Reset(snapshot) => ResetKeeps(r, snapshot);
    case Start(comesUp) => if SearchFails(r) { StartFails(r, comesUp); } else { StartKeeps(r, comesUp); }
  }

  lemma StartFails(r: Ring, comesUp: bool)
    requires Shape(r) && SlotsIn(r.hw, |r.bds|) && SearchFails(r)
    ensures DoStart(r, comesUp) == r
  {
  }

  /** In every such run the engine completes BDs in queue order and goes on exactly where it stopped. */
  lemma {:induction false} EngineIfReady(r: Ring, ops: seq<Op>)
    requires Inv(r) && RestartsReady(r, ops)
    ensures Inv(RunOf(r, ops))
    decreases |ops|
  {
    if ops != [] {
      StepKeeps(r, ops[0]);
      EngineIfReady(Step(r, ops[0]), ops[1..]);
    }
  }

  /** While the channel is started and some queued BD is incomplete, the engine is working and its tail register names
      the last queued BD. */
  lemma TailPublished(r: Ring, i: nat)
    requires Inv(r) && r.running && i < |r.hw| && r.hw[i] < |r.bds| && !Complete(r.bds[r.hw[i]])
    ensures r.eng.up && !r.eng.idle && r.eng.tail == r.hw[|r.hw| - 1]
  {
    hide Shape, SlotAt, Arc;
    StartTail(r);
  }

  // ---------- A refused set ----------

  /** BdRingToHw takes a nonempty set exactly when it starts at the head of pre, fits in pre, has no zero length and,
      for transmit, starts and ends a packet. Then every BD of it is incomplete; else nothing has moved, and at most
      status words of BDs in pre have changed. */
  lemma ToHwAllOrNothing(r: Ring, num: int, head: nat)
    requires SlotsIn(r.pre, |r.bds|) && num > 0
    ensures var r' := DoToHw(r, num, head);
      && (ToHwStatus(r, num, head) == Success <==> Accepts(r, num, head))
      && |r'.bds| == |r.bds|
      && (forall s :: 0 <= s < |r.bds| ==> r'.bds[s] == r.bds[s].(sts := r'.bds[s].sts))
      && (forall s :: 0 <= s < |r.bds| && s !in r.pre ==> r'.bds[s] == r.bds[s])
      && (Accepts(r, num, head) ==> forall i :: 0 <= i < num ==> !Complete(r'.bds[r.pre[i]]))
      && (!Accepts(r, num, head) ==> r' == r.(bds := r'.bds))
  {
    hide MarkSent, Complete, NonZeroRun, Accepts;
    var m := Marked(r, num, head);
    assert forall s :: s in r.pre[..m] ==> s in r.pre;
    assert forall i :: 0 <= i < m ==> r.pre[..m][i] == r.pre[i];
  }

  // ---------- What only Create writes ----------

  ghost predicate SameLinks(was: seq<Bd>, now: seq<Bd>) {
    |now| == |was| && forall i :: 0 <= i < |was| ==>
      now[i].ndesc == was[i].ndesc && now[i].hasSts == was[i].hasSts && now[i].hasDre == was[i].hasDre
  }

  lemma StepKeepsLinks(r: Ring, op: Op)
    requires Shape(r)
    ensures SameLinks(r.bds, Step(r, op).bds)
  {
    ShapeSlots(r);
    hide SlotAt, At, Arc, Order, Shape, DoStart, DoToHw, DoClone, DoFromHw;
    match op
    case ToHw(num, head) => ToHwKeepsLinks(r, num, head);
    case Clone(template) => CloneKeepsLinks(r, template);
    case FromHw(limit) => FromHwKeepsBds(r, limit);
    case Start(comesUp) => StartKeepsBds(r, comesUp);
    case _ =>
  }

  lemma ToHwKeepsLinks(r: Ring, num: int, head: nat)
    requires SlotsIn(r.pre, |r.bds|)
    ensures SameLinks(r.bds, DoToHw(r, num, head).bds)
  {
    hide SlotAt, At, MarkSent, NonZeroRun, Accepts;
  }

  lemma CloneKeepsLinks(r: Ring, template: Bd)
    ensures SameLinks(r.bds, DoClone(r, template).bds)
  {
    hide CloneAll;
  }

  lemma FromHwKeepsBds(r: Ring, limit: int)
    requires SlotsIn(r.hw, |r.bds|)
    ensures DoFromHw(r, limit).bds == r.bds
  {
    hide Reapable;
  }

  lemma StartKeepsBds(r: Ring, comesUp: bool)
    requires Shape(r) && SlotsIn(r.hw, |r.bds|)
    ensures DoStart(r, comesUp).bds == r.bds
  {
    hide SlotAt, At, SearchDistance, Arc;
  }

  /** In every run the next pointers and hardware words of all BDs stay as they were, so the BDs stay linked in
      one cycle in slot order. */
  lemma {:induction false} LinksInEveryRun(r: Ring, ops: seq<Op>)
    requires Shape(r)
    ensures SameLinks(r.bds, RunOf(r, ops).bds)
    decreases |ops|
  {
    if ops != [] {
      StepShape(r, ops[0]);
      StepKeepsLinks(r, ops[0]);
      LinksInEveryRun(Step(r, ops[0]), ops[1..]);
    }
  }

  // ---------- After a pause ----------

  /** The slot the engine completes in one step, if any. */
  ghost function CompletedBy(r: Ring, op: Op): seq<nat> {
    if op.HwStep? && r.eng.up && !r.eng.idle && op.sts >= BIT31 then [r.eng.next] else []
  }

  ghost function Completed(r: Ring, ops: seq<Op>): seq<nat>
    requires Shape(r)
    decreases |ops|
  {
    if ops == [] then [] else StepShape(r, ops[0]); CompletedBy(r, ops[0]) + Completed(Step(r, ops[0]), ops[1..])
  }

  lemma {:induction false} UpToAppend(s: seq<nat>, more: seq<nat>, t: nat)
    requires t in s
    ensures UpTo(s + more, t) == UpTo(s, t)
  {
    assert (s + more)[0] == s[0];
    if s[0] != t {
      assert (s + more)[1..] == s[1..] + more;
      UpToAppend(s[1..], more, t);
    }
  }

  lemma StepSlots(r: Ring, op: Op)
    requires Shape(r)
    ensures SlotsIn(Step(r, op).hw, |Step(r, op).bds|)
  {
    StepShape(r, op);
    ShapeSlots(Step(r, op));
  }

  /** Without a start, nothing is added to what a paused engine was told to process. */
  lemma PausedStep(r: Ring, op: Op)
    requires Inv(r) && !r.running && !op.Start?
    ensures SlotsIn(Step(r, op).hw, |Step(r, op).bds|)
    ensures CompletedBy(r, op) + Released(Step(r, op)) <= Released(r)
  {
    StepSlots(r, op);
    if op.HwStep? {
      PausedHwStep(r, op.sts);
    } else {
      PausedDriverStep(r, op);
      NothingCompleted(Released(Step(r, op)), Released(r));
    }
  }

  lemma NothingCompleted(released': seq<nat>, released: seq<nat>)
    requires released' == released || released' == []
    ensures [] + released' <= released
  {
  }

  lemma PausedDriverStep(r: Ring, op: Op)
    requires Inv(r) && !r.running && !op.Start? && !op.HwStep?
    requires SlotsIn(Step(r, op).hw, |Step(r, op).bds|)
    ensures Released(Step(r, op)) == Released(r) || Released(Step(r, op)) == []
  {
    hide SlotAt, At, DoneCount, UpTo, Arc, InOrder, DoToHw, DoFromHw, DoFill, DoClone, DoStart, DoHwStep;
    match op
    case ToHw(num, head) => ShapeSlots(r); PausedToHw(r, num, head);
    case FromHw(limit) => PausedFromHw(r, limit);
    case Fill(slot, bufa, ctrl, user, id) => FillTodo(r, slot, bufa, ctrl, user, id);
    case Clone(template) => PausedClone(r, template);
    case _ =>
  }

  lemma PausedHwStep(r: Ring, sts: U32)
    requires Inv(r) && SlotsIn(DoHwStep(r, sts).hw, |DoHwStep(r, sts).bds|)
    ensures CompletedBy(r, HwStep(sts)) + Released(DoHwStep(r, sts)) == Released(r)
  {
    if r.eng.up && !r.eng.idle && sts >= BIT31 {
      HwStepParts(r, DoHwStep(r, sts), sts);
    }
  }

  lemma PausedFromHw(r: Ring, limit: int)
    requires Inv(r)
    ensures var r' := DoFromHw(r, limit);
      r'.eng == r.eng && SlotsIn(r'.hw, |r'.bds|) && Todo(r') == Todo(r)
  {
    ReapableWithinDone(r, limit);
    TakeShape(r, Reapable(r, limit));
  }

  lemma PausedClone(r: Ring, template: Bd)
    requires Shape(r) && SlotsIn(r.hw, |r.bds|)
    ensures var r' := DoClone(r, template);
      r'.eng == r.eng && SlotsIn(r'.hw, |r'.bds|) && Todo(r') == Todo(r)
  {
    if !r.running && |r.free| == |r.bds| { assert r.hw == []; }
  }

  lemma FillTodo(r: Ring, slot: nat, bufa: U32, ctrl: U32, user: seq<U32>, id: U32)
    requires Shape(r) && SlotsIn(r.hw, |r.bds|)
    ensures var r' := DoFill(r, slot, bufa, ctrl, user, id);
      r'.eng == r.eng && SlotsIn(r'.hw, |r'.bds|) && Todo(r') == Todo(r)
  {
    var r' := DoFill(r, slot, bufa, ctrl, user, id);
    GroupsDisjoint(r);
    DoneCountIs(r'.bds, r'.hw, DoneCount(r.bds, r.hw));
  }

  lemma PausedToHw(r: Ring, num: int, head: nat)
    requires Inv(r) && !r.running && SlotsIn(r.pre, |r.bds|)
    requires SlotsIn(DoToHw(r, num, head).hw, |DoToHw(r, num, head).bds|)
    ensures Released(DoToHw(r, num, head)) == Released(r)
  {
    if Accepts(r, num, head) {
      ToHwParts(r, DoToHw(r, num, head), num, head);
      if r.eng.up && !r.eng.idle { UpToAppend(Todo(r), r.pre[..num], r.eng.tail); }
    } else {
      MarkParts(r, DoToHw(r, num, head), Marked(r, num, head));
    }
  }

  lemma StaysPaused(r: Ring, op: Op)
    requires Shape(r) && !r.running && !op.Start?
    ensures !Step(r, op).running
  {
  }

  /** BDs queued after a pause stay invisible: until the next start, the engine completes only BDs that
      were published before, in order. */
  lemma {:induction false} PausedEngineSeesNothingNew(r: Ring, ops: seq<Op>)
    requires Inv(r) && !r.running
    requires forall i :: 0 <= i < |ops| ==> !ops[i].Start?
    ensures Inv(RunOf(r, ops)) && !RunOf(r, ops).running
    ensures Completed(r, ops) + Released(RunOf(r, ops)) <= Released(r)
    decreases |ops|
  {
    if ops != [] {
      var op, r1, rest := ops[0], Step(r, ops[0]), ops[1..];
      PausedStep(r, op);
      StepKeeps(r, op);
      assert forall i :: 0 <= i < |rest| ==> rest[i] == ops[i + 1];
      StaysPaused(r, op);
      PausedEngineSeesNothingNew(r1, rest);
      PrefixChain(CompletedBy(r, op), Completed(r1, rest), Released(RunOf(r1, rest)), Released(r1), Released(r));
    }
  }

  lemma PrefixChain(c: seq<nat>, c1: seq<nat>, rel2: seq<nat>, rel1: seq<nat>, rel: seq<nat>)
    requires c + rel1 <= rel && c1 + rel2 <= rel1
    ensures (c + c1) + rel2 <= rel
  {
    assert (c + c1) + rel2 == c + (c1 + rel2);
  }
}
