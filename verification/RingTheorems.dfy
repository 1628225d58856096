/** What every run of ring operations and engine steps keeps. */
module RingTheorems {
  import opened RingAddress
  import opened Descriptor
  import opened RingModel

  /** The engine works in order: no BD after the first incomplete one of the hardware group is complete. */
  ghost predicate InOrder(bds: seq<Bd>, hw: seq<nat>)
    requires SlotsIn(hw, |bds|)
  {
    forall i :: DoneCount(bds, hw) <= i < |hw| ==> !Complete(bds[hw[i]])
  }

  /** A running engine goes on at the frontier and stops inside the hardware group; and while the driver
      regards the channel as started, everything it has queued is published. */
  ghost predicate EngineTracks(eng: Engine, running: bool, frontier: nat, todo: seq<nat>) {
    && (eng.up ==> eng.next == frontier && (eng.idle || eng.tail in todo))
    && (running ==> eng.up && (todo != [] ==> !eng.idle && eng.tail == todo[|todo| - 1]))
  }

  ghost predicate Inv(r: Ring) {
    && Shape(r)
    && SlotsIn(r.hw, |r.bds|)
    && InOrder(r.bds, r.hw)
    && EngineTracks(r.eng, r.running, Frontier(r), Todo(r))
  }

  lemma InvBasics(r: Ring)
    requires Inv(r)
    ensures Shape(r) && SlotsIn(r.hw, |r.bds|)
  {
  }

  lemma InvFromParts(r: Ring, frontier: nat, todo: seq<nat>)
    requires Shape(r) && SlotsIn(r.hw, |r.bds|) && InOrder(r.bds, r.hw)
    requires Frontier(r) == frontier && Todo(r) == todo && EngineTracks(r.eng, r.running, frontier, todo)
    ensures Inv(r)
  {
  }

  // ---------- Steps that leave BDs and engine alone ----------

  lemma SameHardware(r: Ring, r': Ring)
    requires Inv(r) && Shape(r')
    requires r'.hw == r.hw && r'.eng == r.eng && r'.post == r.post && Order(r') == Order(r)
    requires |r'.bds| == |r.bds|
    requires forall i :: 0 <= i < |r.hw| ==> Complete(r'.bds[r.hw[i]]) == Complete(r.bds[r.hw[i]])
    requires r'.running == r.running || !r'.running
    ensures Inv(r')
  {
    DoneCountIs(r'.bds, r'.hw, DoneCount(r.bds, r.hw));
  }

  lemma AllocShape(r: Ring, num: int)
    requires Shape(r) && 0 < num <= |r.free|
    ensures Order(DoAlloc(r, num)) == Order(r) && Shape(DoAlloc(r, num))
  {
    var r' := DoAlloc(r, num);
    assert r'.pre + r'.free == r.pre + r.free;
    assert Order(r') == r.post + r.hw + (r'.pre + r'.free);
    assert Order(r) == r.post + r.hw + (r.pre + r.free);
  }

  lemma UnAllocShape(r: Ring, num: int, head: nat)
    requires Shape(r) && 0 < num <= |r.pre| && r.pre[|r.pre| - num] == head
    ensures Order(DoUnAlloc(r, num, head)) == Order(r) && Shape(DoUnAlloc(r, num, head))
  {
    var r' := DoUnAlloc(r, num, head);
    assert r'.pre + r'.free == r.pre + r.free;
    assert Order(r') == r.post + r.hw + (r'.pre + r'.free);
    assert Order(r) == r.post + r.hw + (r.pre + r.free);
  }

  lemma AllocKeeps(r: Ring, num: int)
    requires Inv(r)
    ensures Inv(DoAlloc(r, num))
  {
    if 0 < num <= |r.free| {
      AllocShape(r, num);
      SameHardware(r, DoAlloc(r, num));
    }
  }

  lemma UnAllocKeeps(r: Ring, num: int, head: nat)
    requires Inv(r)
    ensures Inv(DoUnAlloc(r, num, head))
  {
    if DoUnAlloc(r, num, head) != r {
      UnAllocShape(r, num, head);
      SameHardware(r, DoUnAlloc(r, num, head));
    }
  }

  /** A slot belongs to one group only. */
  lemma GroupsDisjoint(r: Ring)
    requires Shape(r)
    ensures forall s :: s in r.hw ==> s !in r.pre && s !in r.post && s !in r.free
    ensures forall s :: s in r.pre ==> s !in r.post && s !in r.free
    ensures forall s :: s in r.post ==> s !in r.free
  {
    OrderDistinct(r);
    var o := Order(r);
    var a, b, c := |r.post|, |r.post| + |r.hw|, |r.post| + |r.hw| + |r.pre|;
    assert forall i :: 0 <= i < |r.post| ==> r.post[i] == o[i];
    assert forall i :: 0 <= i < |r.hw| ==> r.hw[i] == o[a + i];
    assert forall i :: 0 <= i < |r.pre| ==> r.pre[i] == o[b + i];
    assert forall i :: 0 <= i < |r.free| ==> r.free[i] == o[c + i];
  }

  lemma FillKeeps(r: Ring, slot: nat, bufa: U32, ctrl: U32, user: seq<U32>, id: U32)
    requires Inv(r)
    ensures Inv(DoFill(r, slot, bufa, ctrl, user, id))
  {
    var r' := DoFill(r, slot, bufa, ctrl, user, id);
    if r' != r {
      GroupsDisjoint(r);
      ShapeSlots(r);
      SameHardware(r, r');
    }
  }

  lemma CloneKeeps(r: Ring, template: Bd)
    requires Inv(r)
    ensures Inv(DoClone(r, template))
  {
    var r' := DoClone(r, template);
    if !r.running && |r.free| == |r.bds| {
      assert r.hw == [] && r.post == [] && r.pre == [];
      SameHardware(r, r');
    }
  }

  lemma PauseKeeps(r: Ring)
    requires Inv(r)
    ensures Inv(r.(running := false))
  {
    SameHardware(r, r.(running := false));
  }

  lemma ResetKeeps(r: Ring, snapshot: nat)
    requires Inv(r)
    ensures Inv(DoReset(r, snapshot))
  {
  }

  // ---------- FromHw and Free ----------

  lemma DoneCountDrop(bds: seq<Bd>, hw: seq<nat>, k: nat)
    requires SlotsIn(hw, |bds|) && k <= DoneCount(bds, hw)
    ensures SlotsIn(hw[k..], |bds|) && DoneCount(bds, hw[k..]) == DoneCount(bds, hw) - k
    ensures hw[k..][DoneCount(bds, hw[k..])..] == hw[DoneCount(bds, hw)..]
    ensures InOrder(bds, hw) ==> InOrder(bds, hw[k..])
  {
    hide DoneCount;
    var rest := hw[k..];
    assert forall i :: 0 <= i < |rest| ==> rest[i] == hw[k + i];
    DoneCountIs(bds, rest, DoneCount(bds, hw) - k);
  }

  /** FromHw never reaches past the completed BDs. */
  lemma ReapableWithinDone(r: Ring, limit: int)
    requires SlotsIn(r.hw, |r.bds|)
    ensures Reapable(r, limit) <= DoneCount(r.bds, r.hw)
  {
  }

  lemma FromHwKeeps(r: Ring, limit: int)
    requires Inv(r)
    ensures Inv(DoFromHw(r, limit))
  {
    var k := Reapable(r, limit);
    ReapableWithinDone(r, limit);
    TakeShape(r, k);
    DoneCountDrop(r.bds, r.hw, k);
    SameTodo(r, Take(r, k));
  }

  /** Moving k BDs from the hardware group to the post group. */
  ghost function Take(r: Ring, k: nat): Ring
    requires k <= |r.hw|
  {
    r.(post := r.post + r.hw[..k], hw := r.hw[k..])
  }

  lemma TakeShape(r: Ring, k: nat)
    requires Shape(r) && SlotsIn(r.hw, |r.bds|) && k <= DoneCount(r.bds, r.hw)
    ensures Shape(Take(r, k)) && SlotsIn(Take(r, k).hw, |r.bds|)
    ensures Todo(Take(r, k)) == Todo(r) && Frontier(Take(r, k)) == Frontier(r)
  {
    hide SlotAt, At, Arc, Fits, DoneCount;
    var r' := Take(r, k);
    assert r'.post + r'.hw == r.post + r.hw;
    assert Order(r') == (r'.post + r'.hw) + r.pre + r.free;
    DoneCountDrop(r.bds, r.hw, k);
  }

  /** The invariant only looks at ring order, the frontier, what is to do and the engine. */
  lemma SameTodo(r: Ring, r': Ring)
    requires Inv(r) && Shape(r') && SlotsIn(r'.hw, |r'.bds|)
    requires InOrder(r'.bds, r'.hw) && Todo(r') == Todo(r) && Frontier(r') == Frontier(r)
    requires r'.eng == r.eng && r'.running == r.running
    ensures Inv(r')
  {
  }

  lemma FreeKeeps(r: Ring, num: int, head: nat)
    requires Inv(r)
    ensures Inv(DoFree(r, num, head))
  {
    var r' := DoFree(r, num, head);
    if r' != r {
      FreeRotates(r, num, head);
      SameTodo(r, r');
    }
  }

  lemma FreeOrder(r: Ring, num: int, head: nat)
    requires Shape(r) && 0 < num <= |r.post| && r.post[0] == head
    ensures var o := Order(r); Order(DoFree(r, num, head)) == o[num..] + o[..num]
    ensures Shape(DoFree(r, num, head))
  {
    hide SlotAt, At, Arc;
    var r' := DoFree(r, num, head);
    var o, o', n := Order(r), Order(r'), |r.bds|;
    assert r.post == r.post[..num] + r.post[num..];
    assert o[..num] == r.post[..num];
    assert o[num..] == r.post[num..] + r.hw + r.pre + r.free;
    RotatedArc(o[0], num, n);
  }

  lemma FreeRotates(r: Ring, num: int, head: nat)
    requires Shape(r) && 0 < num <= |r.post| && r.post[0] == head && SlotsIn(r.hw, |r.bds|)
    ensures var r' := DoFree(r, num, head); Shape(r') && Frontier(r') == Frontier(r)
  {
    hide SlotAt, At, DoneCount, Arc;
    FreeOrder(r, num, head);
  }

  lemma ArcSplit(p: nat, k: nat, m: nat, n: nat)
    requires n > 0 && k <= m
    ensures Arc(p, m, n)[..k] == Arc(p, k, n)
    ensures Arc(p, m, n)[k..] == Arc(p + k, m - k, n)
  {
  }

  /** Moving the first k slots of a full turn to its end gives a full turn. */
  lemma RotatedArc(p: nat, k: nat, n: nat)
    requires 0 < k <= n
    ensures Arc(p, n, n)[k..] + Arc(p, n, n)[..k] == Arc(SlotAt(p + k, n), n, n)
  {
    ArcSplit(p, k, n, n);
    ArcTurn(p, k, n);
    ArcConcat(p + k, n - k, k, n);
    ArcFromSlot(p + k, n, n);
  }

  lemma ArcFromSlot(p: nat, k: nat, n: nat)
    requires n > 0
    ensures Arc(p, k, n) == Arc(SlotAt(p, n), k, n)
  {
    forall i | 0 <= i < k ensures Arc(p, k, n)[i] == Arc(SlotAt(p, n), k, n)[i] {
      SlotAdd(p, i, n);
    }
  }

  // ---------- ToHw ----------

  lemma MarkingKeepsHardware(r: Ring, m: nat)
    requires Shape(r) && m <= |r.pre|
    ensures SlotsIn(r.pre, |r.bds|) && SlotsIn(r.pre[..m], |r.bds|)
    ensures forall s :: s in r.hw ==> s < |r.bds| && MarkSent(r.bds, r.pre[..m])[s] == r.bds[s]
  {
    ShapeSlots(r);
    GroupsDisjoint(r);
    var sent := r.pre[..m];
    assert forall i :: 0 <= i < |sent| ==> sent[i] == r.pre[i];
    assert forall s :: s in sent ==> s in r.pre;
  }

  lemma ToHwKeeps(r: Ring, num: int, head: nat)
    requires Inv(r)
    ensures SlotsIn(r.pre, |r.bds|) && Inv(DoToHw(r, num, head))
  {
    ShapeSlots(r);
    var m := Marked(r, num, head);
    MarkKeeps(r, m);
    var r1 := r.(bds := MarkSent(r.bds, r.pre[..m]));
    if Accepts(r, num, head) {
      assert DoToHw(r, num, head) == Send(r1, num);
      SendKeeps(r1, DoToHw(r, num, head), num);
    } else {
      assert DoToHw(r, num, head) == r1;
    }
  }

  /** Clearing complete bits at the head of pre. */
  lemma MarkKeeps(r: Ring, m: nat)
    requires Inv(r) && m <= |r.pre|
    ensures SlotsIn(r.pre, |r.bds|) && SlotsIn(r.pre[..m], |r.bds|)
    ensures var r1 := r.(bds := MarkSent(r.bds, r.pre[..m]));
      Inv(r1) && AllIncomplete(r1.bds, r1.pre[..m])
  {
    MarkingKeepsHardware(r, m);
    var r1 := r.(bds := MarkSent(r.bds, r.pre[..m]));
    assert Order(r1) == Order(r);
    SameHardware(r, r1);
  }

  lemma MarkParts(r: Ring, r1: Ring, m: nat)
    requires Inv(r) && m <= |r.pre| && SlotsIn(r.pre[..m], |r.bds|)
    requires r1 == r.(bds := MarkSent(r.bds, r.pre[..m]))
    ensures Shape(r1) && SlotsIn(r1.hw, |r1.bds|) && Todo(r1) == Todo(r) && Frontier(r1) == Frontier(r)
  {
    MarkingKeepsHardware(r, m);
    assert Order(r1) == Order(r);
    DoneCountIs(r1.bds, r1.hw, DoneCount(r.bds, r.hw));
  }

  /** What an accepted set does to the BDs to do. */
  lemma ToHwParts(r: Ring, r': Ring, num: int, head: nat)
    requires Inv(r) && SlotsIn(r.pre, |r.bds|) && Accepts(r, num, head) && r' == DoToHw(r, num, head)
    ensures Shape(r') && SlotsIn(r'.hw, |r'.bds|)
    ensures Todo(r') == Todo(r) + r.pre[..num] && Frontier(r') == Frontier(r)
  {
    var r1 := r.(bds := MarkSent(r.bds, r.pre[..num]));
    MarkKeeps(r, num);
    MarkParts(r, r1, num);
    assert r' == Send(r1, num);
    SendParts(r1, num);
  }

  /** Queueing num incomplete BDs from the head of pre. */
  ghost function Send(r: Ring, num: nat): Ring
    requires 0 < num <= |r.pre|
  {
    r.(hw := r.hw + r.pre[..num], pre := r.pre[num..],
       eng := if r.running then r.eng.(tail := r.pre[num - 1], idle := false) else r.eng)
  }

  lemma SendShape(r: Ring, num: nat)
    requires Shape(r) && SlotsIn(r.pre, |r.bds|) && 0 < num <= |r.pre|
    ensures var r' := Send(r, num); Order(r') == Order(r) && Shape(r') && SlotsIn(r'.hw, |r'.bds|)
  {
    var r' := Send(r, num);
    assert r'.hw + r'.pre == r.hw + r.pre by { assert r.pre == r.pre[..num] + r.pre[num..]; }
    assert Order(r') == r.post + (r'.hw + r'.pre) + r.free;
    assert Order(r) == r.post + (r.hw + r.pre) + r.free;
    ShapeSlots(r');
  }

  ghost predicate AllIncomplete(bds: seq<Bd>, s: seq<nat>) {
    forall i :: 0 <= i < |s| ==> s[i] < |bds| && !Complete(bds[s[i]])
  }

  lemma SendTodo(bds: seq<Bd>, hw: seq<nat>, more: seq<nat>)
    requires SlotsIn(hw, |bds|) && InOrder(bds, hw) && AllIncomplete(bds, more)
    ensures SlotsIn(hw + more, |bds|) && DoneCount(bds, hw + more) == DoneCount(bds, hw)
    ensures (hw + more)[DoneCount(bds, hw)..] == hw[DoneCount(bds, hw)..] + more
    ensures InOrder(bds, hw + more)
  {
    DoneCountIs(bds, hw + more, DoneCount(bds, hw));
  }

  lemma SendParts(r: Ring, num: nat)
    requires Inv(r) && SlotsIn(r.pre, |r.bds|) && 0 < num <= |r.pre|
    requires AllIncomplete(r.bds, r.pre[..num])
    ensures var r' := Send(r, num);
      && Shape(r') && SlotsIn(r'.hw, |r'.bds|) && InOrder(r'.bds, r'.hw)
      && Todo(r') == Todo(r) + r.pre[..num] && Frontier(r') == Frontier(r)
  {
    SendShape(r, num);
    SendTodo(r.bds, r.hw, r.pre[..num]);
  }

  lemma SendKeeps(r: Ring, r': Ring, num: nat)
    requires Inv(r) && SlotsIn(r.pre, |r.bds|) && 0 < num <= |r.pre|
    requires AllIncomplete(r.bds, r.pre[..num])
    requires r' == Send(r, num)
    ensures Inv(r')
  {
    var t, more := Todo(r), r.pre[..num];
    SendParts(r, num);
    MoreTodo(r.eng, r.running, Frontier(r), t, more);
    assert more[|more| - 1] == r.pre[num - 1];
    InvFromParts(r', Frontier(r), t + more);
  }

  lemma MoreTodo(eng: Engine, running: bool, frontier: nat, todo: seq<nat>, more: seq<nat>)
    requires EngineTracks(eng, running, frontier, todo) && more != []
    ensures var eng' := if running then eng.(tail := more[|more| - 1], idle := false) else eng;
      EngineTracks(eng', running, frontier, todo + more)
  {
  }

  // ---------- The engine ----------

  lemma FrontierIsFirstTodo(r: Ring)
    requires Shape(r) && SlotsIn(r.hw, |r.bds|) && Todo(r) != []
    ensures Frontier(r) == Todo(r)[0]
  {
    var d := DoneCount(r.bds, r.hw);
    assert Order(r)[|r.post| + d] == r.hw[d];
  }

  lemma OrderNext(r: Ring, i: nat)
    requires Shape(r) && i < |r.bds|
    ensures Order(r)[i] < |r.bds|
    ensures SlotAt(Order(r)[i] + 1, |r.bds|) == if i + 1 < |r.bds| then Order(r)[i + 1] else Order(r)[0]
  {
    var p, n := Order(r)[0], |r.bds|;
    SlotAdd(p + i, 1, n);
    if i + 1 == n {
      SlotTurn(p, n);
      assert Order(r)[0] == SlotAt(p + 0, n);
    }
  }

  /** Completing the first slot to do moves the frontier on by one. */
  lemma HwStepShape(r: Ring, r': Ring, sts: U32)
    requires Inv(r) && Todo(r) != [] && sts >= BIT31
    requires Frontier(r) < |r.bds| && r' == r.(bds := r.bds[Frontier(r) := r.bds[Frontier(r)].(sts := sts)])
    ensures Shape(r') && SlotsIn(r'.hw, |r'.bds|)
    ensures Todo(r') == Todo(r)[1..] && InOrder(r'.bds, r'.hw)
    ensures Frontier(r') == SlotAt(Frontier(r) + 1, |r.bds|)
  {
    FrontierIsFirstTodo(r);
    var d, f := DoneCount(r.bds, r.hw), Frontier(r);
    assert Order(r') == Order(r);
    forall i | 0 <= i < |r.hw| && i != d ensures r'.bds[r.hw[i]] == r.bds[r.hw[i]] {
      HwDistinct(r, i, d);
    }
    HwStepDone(r.bds, r'.bds, r.hw, d);
    assert Order(r)[|r.post| + d] == r.hw[d];
    OrderNext(r, |r.post| + d);
  }

  lemma HwStepDone(bds: seq<Bd>, bds': seq<Bd>, hw: seq<nat>, d: nat)
    requires SlotsIn(hw, |bds|) && |bds'| == |bds| && InOrder(bds, hw)
    requires d == DoneCount(bds, hw) && d < |hw| && Complete(bds'[hw[d]])
    requires forall i :: 0 <= i < |hw| && i != d ==> bds'[hw[i]] == bds[hw[i]]
    ensures DoneCount(bds', hw) == d + 1 && InOrder(bds', hw)
  {
    DoneCountIs(bds', hw, d + 1);
  }

  lemma HwDistinct(r: Ring, i: nat, j: nat)
    requires Shape(r) && i < |r.hw| && j < |r.hw| && i != j
    ensures r.hw[i] != r.hw[j]
  {
    OrderDistinct(r);
    assert Order(r)[|r.post| + i] == r.hw[i] && Order(r)[|r.post| + j] == r.hw[j];
  }

  /** Changing only the engine and the run state changes nothing in the groups. */
  lemma EngineOnly(r: Ring, r': Ring)
    requires Shape(r) && SlotsIn(r.hw, |r.bds|) && r'.eng.next < |r.bds| && r'.eng.tail < |r.bds|
    requires r' == r.(eng := r'.eng, running := r'.running)
    ensures Shape(r') && SlotsIn(r'.hw, |r'.bds|) && Todo(r') == Todo(r) && Frontier(r') == Frontier(r)
  {
    assert Order(r') == Order(r);
  }

  lemma HwStepParts(r: Ring, r': Ring, sts: U32)
    requires Inv(r) && r.eng.up && !r.eng.idle && sts >= BIT31 && r' == DoHwStep(r, sts)
    ensures Shape(r') && SlotsIn(r'.hw, |r'.bds|) && InOrder(r'.bds, r'.hw)
    ensures Todo(r) != [] && Todo(r)[0] == r.eng.next && Todo(r') == Todo(r)[1..] && Frontier(r') == r'.eng.next
  {
    hide SlotAt, At, DoneCount, Arc;
    var r1 := r.(bds := r.bds[r.eng.next := r.bds[r.eng.next].(sts := sts)]);
    HwStepShape(r, r1, sts);
    EngineOnly(r1, r');
    FrontierIsFirstTodo(r);
  }

  lemma HwStepKeeps(r: Ring, sts: U32)
    requires Inv(r)
    ensures Inv(DoHwStep(r, sts))
  {
    if r.eng.up && !r.eng.idle && sts >= BIT31 {
      var r' := DoHwStep(r, sts);
      HwStepParts(r, r', sts);
      TodoDistinct(r);
      EngineMovesOn(r.eng, r.running, Todo(r), Frontier(r'));
      InvFromParts(r', Frontier(r'), Todo(r'));
    }
  }

  lemma TodoDistinct(r: Ring)
    requires Shape(r) && SlotsIn(r.hw, |r.bds|)
    ensures |Todo(r)| > 1 ==> Todo(r)[0] != Todo(r)[|Todo(r)| - 1]
  {
    var t, d := Todo(r), DoneCount(r.bds, r.hw);
    if |t| > 1 { HwDistinct(r, d, |r.hw| - 1); }
  }

  /** After the BD at the frontier is complete, the engine moves to the next one or goes idle. */
  lemma EngineMovesOn(eng: Engine, running: bool, todo: seq<nat>, frontier': nat)
    requires eng.up && !eng.idle && todo != []
    requires EngineTracks(eng, running, todo[0], todo)
    requires |todo| > 1 ==> todo[0] != todo[|todo| - 1]
    ensures EngineTracks(eng.(next := frontier', idle := eng.next == eng.tail), running, frontier', todo[1..])
  {
    if eng.next != eng.tail {
      assert eng.tail in todo[1..];
    }
  }

  // ---------- Start ----------

  /** Everything from the saved restart point up to the frontier is complete, and the frontier is not. */
  ghost predicate RestartReady(r: Ring)
    requires Shape(r) && SlotsIn(r.hw, |r.bds|)
  {
    && !Complete(r.bds[FrontierSlot(r)])
    && forall q :: r.restart <= q < r.restart + RestartDistance(r) ==> Complete(r.bds[SlotAt(q, |r.bds|)])
  }

  ghost function FrontierSlot(r: Ring): (f: nat)
    requires Shape(r) && SlotsIn(r.hw, |r.bds|)
    ensures f == Frontier(r) && f < |r.bds|
  {
    ShapeSlots(r);
    Frontier(r)
  }

  /** How many slots the restart point lies behind the frontier. */
  ghost function RestartDistance(r: Ring): (d: nat)
    requires Shape(r) && SlotsIn(r.hw, |r.bds|)
    ensures d < |r.bds|
    ensures SlotAt(r.restart + d, |r.bds|) == Frontier(r)
  {
    var f, n := FrontierSlot(r), |r.bds|;
    DistanceReaches(r.restart, f, n);
    SlotAt(f + n - r.restart, n)
  }

  lemma DistanceReaches(from: nat, to: nat, n: nat)
    requires from < n && to < n
    ensures SlotAt(from + SlotAt(to + n - from, n), n) == to
  {
    ModOne(to + n - from, n);
    ModOne(from + SlotAt(to + n - from, n), n);
  }

  /** The restart search ends at the frontier exactly when the ring is ready for it: then nothing is
      lost and nothing is replayed. */
  lemma RestartExact(r: Ring)
    requires Shape(r) && SlotsIn(r.hw, |r.bds|)
    ensures var d := SearchDistance(r.bds, r.restart, |r.bds|);
      (d < |r.bds| && SlotAt(r.restart + d, |r.bds|) == Frontier(r)) <==> RestartReady(r)
  {
    var d, k, n := SearchDistance(r.bds, r.restart, |r.bds|), RestartDistance(r), |r.bds|;
    if d < n && SlotAt(r.restart + d, n) == Frontier(r) {
      if d < k { ArcDistinct(r.restart, d, k, n); }
    }
  }

  lemma StartKeeps(r: Ring, comesUp: bool)
    requires Inv(r)
    requires !r.eng.up ==> RestartReady(r)
    ensures Inv(DoStart(r, comesUp))
  {
    var r' := DoStart(r, comesUp);
    if !SearchFails(r) {
      StartEngine(r, comesUp);
      EngineOnly(r, r');
      InvFromParts(r', Frontier(r), Todo(r));
    }
  }

  lemma StartEngine(r: Ring, comesUp: bool)
    requires Inv(r) && !SearchFails(r)
    requires !r.eng.up ==> RestartReady(r)
    ensures var r' := DoStart(r, comesUp);
      && r' == r.(eng := r'.eng, running := r'.running) && r'.eng.next < |r.bds| && r'.eng.tail < |r.bds|
      && EngineTracks(r'.eng, r'.running, Frontier(r), Todo(r))
  {
    hide At, Arc, SlotAt, DoneCount, SearchDistance, Fits;
    if !r.eng.up { RestartExact(r); }
    StartTail(r);
  }

  lemma StartTail(r: Ring)
    requires SlotsIn(r.hw, |r.bds|) && InOrder(r.bds, r.hw)
    ensures |r.hw| > 0 && !Complete(r.bds[r.hw[|r.hw| - 1]]) <==> Todo(r) != []
    ensures Todo(r) != [] ==> r.hw[|r.hw| - 1] == Todo(r)[|Todo(r)| - 1]
  {
    var t := Todo(r);
    if t != [] {
      assert t[|t| - 1] == r.hw[|r.hw| - 1];
    }
  }
}
