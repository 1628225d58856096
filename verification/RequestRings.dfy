/** The queues of the reference-counting steps are what the rings really hold: submitting appends one entry for each
    BD, the engine changes nothing, and a drain takes entries off the front in the order it puts references. So every
    run of both rings together is a run of the reference-counting steps. */
module RequestRings {
  import opened RingAddress
  import opened Descriptor
  import opened RingModel
  import opened RingTheorems
  import opened RingCreated
  import opened Scatter
  import opened SubmitModel
  import opened ReapModel
  import Refs = RequestRefs
  import Callbacks = RequestCallbacks

  /** The requests the queued BDs belong to, in queue order. */
  ghost function Queue(r: Ring): seq<U32>
    requires SlotsIn(r.hw, |r.bds|)
  {
    IdsAt(r.bds, r.hw)
  }

  lemma {:induction false} CopiesAre(p: U32, n: nat)
    ensures forall i :: 0 <= i < n ==> Refs.Copies(p, n)[i] == p
  {
    if n > 0 { CopiesAre(p, n - 1); }
  }

  /** Submitting a buffer adds its request once for each BD. */
  lemma SubmitQueues(r: Ring, r': Ring, pieces: seq<Seg>, sw: U32)
    requires Shape(r) && Taken(r, r', pieces, All(sw))
    ensures SlotsIn(r.hw, |r.bds|) && SlotsIn(r'.hw, |r'.bds|)
    ensures Queue(r') == Queue(r) + Refs.Copies(sw, |pieces|)
  {
    var n := |pieces|;
    QueuedApart(r, n);
    CopiesAre(sw, n);
    hide Shape, Complete, Length, TxSof, Eof;
    AppendedIds(r.bds, r'.bds, r.hw, r.free[..n]);
    assert IdsAt(r'.bds, r.free[..n]) == Refs.Copies(sw, n);
  }

  lemma AppendedIds(b: seq<Bd>, b': seq<Bd>, hw: seq<nat>, slots: seq<nat>)
    requires SameElsewhere(b, b', slots) && SlotsIn(hw, |b|) && SlotsIn(slots, |b|)
    requires forall i :: 0 <= i < |hw| ==> hw[i] !in slots
    ensures SlotsIn(hw + slots, |b'|) && IdsAt(b', hw + slots) == IdsAt(b, hw) + IdsAt(b', slots)
  {
  }

  /** A drain takes the requests it tells off the front. */
  lemma DrainDequeues(r: Ring, r': Ring, puts: seq<U32>)
    requires Inv(r) && Drained(r, r', puts)
    ensures SlotsIn(r'.hw, |r'.bds|) && Queue(r) == puts + Queue(r')
  {
    hide Inv, Distinct;
    InvSlots(r);
    var n := |puts|;
    Consecutive(r.hw, n, |r.hw| - n);
    assert r.hw[n..][..|r.hw| - n] == r.hw[n..];
    FrontIds(r.bds, r'.bds, r.hw, n);
  }

  lemma FrontIds(b: seq<Bd>, b': seq<Bd>, hw: seq<nat>, n: nat)
    requires |b'| == |b| && n <= |hw| && SlotsIn(hw, |b|) && SlotsIn(hw[..n], |b|)
    requires forall s :: 0 <= s < |b| ==> b'[s].id == if s in hw[..n] then 0 else b[s].id
    requires forall s :: s in hw[n..] ==> s !in hw[..n]
    ensures SlotsIn(hw[n..], |b'|) && IdsAt(b, hw) == IdsAt(b, hw[..n]) + IdsAt(b', hw[n..])
  {
    var rest := hw[n..];
    forall i | 0 <= i < |rest| ensures rest[i] < |b| && b'[rest[i]].id == b[hw[n + i]].id {
      assert rest[i] == hw[n + i] && rest[i] in rest;
    }
  }

  // ---------- Both rings and the references together ----------

  /** A ring, and the requests of BDs taken off it that have not been told yet. */
  datatype Lane = Lane(ring: Ring, told: seq<U32>)

  datatype Joint = Joint(rx: Lane, tx: Lane, refs: Refs.State)

  /** `Own` is a step of a submission or a release that leaves the rings alone. */
  datatype JointOp =
    | Own(op: Refs.Op)
    | Send(rx: bool, p: U32, pieces: seq<Seg>)
    | Engine(rx: bool, word: U32)
    | Fetch(rx: bool, limit: int)
    | Tell(rx: bool)

  function LaneOf(j: Joint, rx: bool): Lane {
    if rx then j.rx else j.tx
  }

  function WithLane(j: Joint, rx: bool, l: Lane): Joint {
    if rx then j.(rx := l) else j.(tx := l)
  }

  /** Between two sections under the ring's lock nothing is left in pre or post. */
  ghost predicate Ready(r: Ring) {
    Inv(r) && r.pre == [] && r.post == [] && ValidMask(r)
  }

  ghost predicate Sendable(r: Ring, pieces: seq<Seg>) {
    && 0 < |pieces| <= |r.free| && SlotsIn(r.free, |r.bds|) && AllSuit(r.bds, r.free[..|pieces|], pieces, r.mask)
  }

  function SubmitOp(rx: bool, p: U32, n: nat): Refs.Op {
    if rx then Refs.SubmitRx(p, n) else Refs.SubmitTx(p, n)
  }

  predicate CanSubmit(s: Refs.State, rx: bool, p: U32) {
    Refs.AtPhase(s, p, if rx then Refs.Stored else Refs.RxQueued)
  }

  /** The requests waiting for a put are those fetched and not told, and then those of the queued BDs. */
  ghost predicate LaneLinked(l: Lane, q: seq<U32>) {
    Ready(l.ring) && SlotsIn(l.ring.hw, |l.ring.bds|) && q == l.told + Queue(l.ring)
  }

  ghost predicate Linked(j: Joint) {
    LaneLinked(j.rx, j.refs.rxq) && LaneLinked(j.tx, j.refs.txq)
  }

  ghost function Fetched(l: Lane, limit: int): Lane
    requires Ready(l.ring)
  {
    var r := l.ring;
    InvSlots(r);
    var k := Reapable(r, limit);
    PartSlots(r.hw, k, |r.bds|);
    Lane(Reaped(r, k), l.told + IdsAt(r.bds, r.hw[..k]))
  }

  ghost function JointStep(j: Joint, op: JointOp): Joint
    requires Linked(j)
  {
    match op
    case Own(o) =>
      if o.SubmitRx? || o.SubmitTx? || o.ReapRx? || o.ReapTx? then j else j.(refs := Refs.Step(j.refs, o))
    case Send(rx, p, pieces) =>
      var l := LaneOf(j, rx);
      if !CanSubmit(j.refs, rx, p) || !Sendable(l.ring, pieces) then j
      else
        WithLane(j, rx, l.(ring := Submit(l.ring, pieces, |pieces|, All(p))))
        .(refs := Refs.Step(j.refs, SubmitOp(rx, p, |pieces|)))
    case Engine(rx, word) =>
      var l := LaneOf(j, rx);
      WithLane(j, rx, l.(ring := DoHwStep(l.ring, word)))
    case Fetch(rx, limit) =>
      WithLane(j, rx, Fetched(LaneOf(j, rx), limit))
    case Tell(rx) =>
      var l := LaneOf(j, rx);
      if l.told == [] then j
      else
        WithLane(j, rx, l.(told := l.told[1..])).(refs := Refs.Step(j.refs, if rx then Refs.ReapRx else Refs.ReapTx))
  }

  lemma SentReady(r: Ring, p: U32, pieces: seq<Seg>)
    requires Ready(r) && Sendable(r, pieces) && SlotsIn(r.hw, |r.bds|)
    ensures var r' := Submit(r, pieces, |pieces|, All(p));
      Ready(r') && SlotsIn(r'.hw, |r'.bds|) && Queue(r') == Queue(r) + Refs.Copies(p, |pieces|)
  {
    InvBasics(r);
    NoSlots(r);
    var n := |pieces|;
    var r' := Submit(r, pieces, n, All(p));
    hide Inv, Shape, AllSuit, Submit, SlotsIn, Queue, Taken, ValidMask;
    SubmitTakes(r, pieces, All(p));
    TakenGroups(r, r', pieces, All(p));
    SubmitKeeps(r, pieces, n, All(p));
    SubmitQueues(r, r', pieces, p);
    SubmitMask(r, pieces, n, All(p));
  }

  lemma SendLinked(l: Lane, q: seq<U32>, p: U32, pieces: seq<Seg>)
    requires LaneLinked(l, q) && Sendable(l.ring, pieces)
    ensures LaneLinked(l.(ring := Submit(l.ring, pieces, |pieces|, All(p))), q + Refs.Copies(p, |pieces|))
  {
    hide Ready, Submit, Queue, Refs.Copies;
    SentReady(l.ring, p, pieces);
    assert l.told + (Queue(l.ring) + Refs.Copies(p, |pieces|)) == q + Refs.Copies(p, |pieces|);
  }

  lemma TakenGroups(r: Ring, r': Ring, pieces: seq<Seg>, own: Owner)
    requires Taken(r, r', pieces, own)
    ensures r'.pre == [] && r'.post == r.post
  {
  }

  lemma NoSlots(r: Ring)
    requires r.pre == []
    ensures SlotsIn(r.pre, |r.bds|)
  {
  }

  lemma SubmitMask(r: Ring, pieces: seq<Seg>, n: nat, own: Owner)
    requires SlotsIn(r.free, |r.bds|) && SlotsIn(r.pre, |r.bds|) && ValidMask(r)
    requires pieces != [] ==> 0 < n <= |pieces|
    ensures ValidMask(Submit(r, pieces, n, own))
  {
    hide MarkSent, Accepts;
  }

  /** A ring from which the requests `puts` were fetched. */
  lemma DrainLinked(l: Lane, q: seq<U32>, r': Ring, puts: seq<U32>)
    requires LaneLinked(l, q) && Inv(r') && Drained(l.ring, r', puts) && r'.mask == l.ring.mask
    ensures LaneLinked(Lane(r', l.told + puts), q)
  {
    hide Inv, Queue;
    DrainDequeues(l.ring, r', puts);
    assert l.told + (puts + Queue(r')) == (l.told + puts) + Queue(r');
  }

  lemma EngineLinked(l: Lane, q: seq<U32>, word: U32)
    requires LaneLinked(l, q) && Shape(l.ring)
    ensures LaneLinked(l.(ring := DoHwStep(l.ring, word)), q)
  {
    hide Inv, Drained, Queue, Shape;
    HwStepKeepsIds(l.ring, word);
    HwStepKeeps(l.ring, word);
    DrainLinked(l, q, DoHwStep(l.ring, word), []);
    assert l.told + [] == l.told;
  }

  lemma FetchLinked(l: Lane, q: seq<U32>, limit: int)
    requires LaneLinked(l, q)
    ensures LaneLinked(Fetched(l, limit), q)
  {
    PartSlots(l.ring.hw, Reapable(l.ring, limit), |l.ring.bds|);
    var r := l.ring;
    var k := Reapable(r, limit);
    hide Inv, Drained, Queue, Reapable, SlotsIn;
    ReapedDrains(r, k);
    if k == 0 {
      NothingReaped(r, limit);
    } else {
      ReapRound(r, limit);
    }
    DrainLinked(l, q, Reaped(r, k), IdsAt(r.bds, r.hw[..k]));
  }

  lemma OwnLinked(s: Refs.State, op: Refs.Op)
    requires !op.SubmitRx? && !op.SubmitTx? && !op.ReapRx? && !op.ReapTx?
    ensures Refs.Step(s, op).rxq == s.rxq && Refs.Step(s, op).txq == s.txq
  {
  }

  lemma SubmitAppends(s: Refs.State, rx: bool, p: U32, n: nat)
    requires CanSubmit(s, rx, p) && n > 0
    ensures var s' := Refs.Step(s, SubmitOp(rx, p, n));
      && s'.rxq == s.rxq + (if rx then Refs.Copies(p, n) else [])
      && s'.txq == s.txq + (if rx then [] else Refs.Copies(p, n))
  {
  }

  lemma TellLinked(j: Joint, rx: bool)
    requires Linked(j)
    ensures Linked(JointStep(j, Tell(rx)))
  {
    hide Ready, Refs.Put, Queue;
    var l := LaneOf(j, rx);
    if l.told != [] {
      var q := if rx then j.refs.rxq else j.refs.txq;
      assert q[1..] == l.told[1..] + Queue(l.ring);
      PutQueues(j.refs.(rxq := if rx then q[1..] else j.refs.rxq, txq := if rx then j.refs.txq else q[1..]), q[0]);
    }
  }

  lemma PutQueues(s: Refs.State, p: U32)
    ensures Refs.Put(s, p).rxq == s.rxq && Refs.Put(s, p).txq == s.txq
  {
  }

  lemma SendStepLinked(j: Joint, rx: bool, p: U32, pieces: seq<Seg>)
    requires Linked(j)
    ensures Linked(JointStep(j, Send(rx, p, pieces)))
  {
    var l := LaneOf(j, rx);
    hide Ready, Queue, Submit, Refs.Step, Sendable, SubmitOp, CanSubmit, LaneLinked;
    if CanSubmit(j.refs, rx, p) && Sendable(l.ring, pieces) {
      assert |pieces| > 0 by { SendableSome(l.ring, pieces); }
      SendLinked(l, if rx then j.refs.rxq else j.refs.txq, p, pieces);
      SubmitAppends(j.refs, rx, p, |pieces|);
      assert j.refs.rxq + [] == j.refs.rxq && j.refs.txq + [] == j.refs.txq;
    }
  }

  lemma SendableSome(r: Ring, pieces: seq<Seg>)
    requires Sendable(r, pieces)
    ensures |pieces| > 0
  {
  }

  lemma {:induction false} JointStepLinked(j: Joint, op: JointOp)
    requires Linked(j)
    ensures Linked(JointStep(j, op))
  {
    hide Linked, JointStep;
    match op
    case Own(o) => OwnStepLinked(j, o);
    case Send(rx, p, pieces) => SendStepLinked(j, rx, p, pieces);
    case Engine(rx, word) => EngineStepLinked(j, rx, word);
    case Fetch(rx, limit) => FetchStepLinked(j, rx, limit);
    case Tell(rx) => TellLinked(j, rx);
  }

  lemma OwnStepLinked(j: Joint, op: Refs.Op)
    requires Linked(j)
    ensures Linked(JointStep(j, Own(op)))
  {
    hide LaneLinked, Refs.Step;
    if !(op.SubmitRx? || op.SubmitTx? || op.ReapRx? || op.ReapTx?) { OwnLinked(j.refs, op); }
  }

  lemma EngineStepLinked(j: Joint, rx: bool, word: U32)
    requires Linked(j)
    ensures Linked(JointStep(j, JointOp.Engine(rx, word)))
  {
    var l, q := LaneOf(j, rx), if rx then j.refs.rxq else j.refs.txq;
    LaneShape(l, q);
    hide LaneLinked, DoHwStep, Shape;
    EngineLinked(l, q, word);
  }

  lemma LaneShape(l: Lane, q: seq<U32>)
    requires LaneLinked(l, q)
    ensures Shape(l.ring)
  {
    InvBasics(l.ring);
  }

  lemma FetchStepLinked(j: Joint, rx: bool, limit: int)
    requires Linked(j)
    ensures Linked(JointStep(j, Fetch(rx, limit)))
  {
    hide LaneLinked, Ready, Fetched;
    FetchLinked(LaneOf(j, rx), if rx then j.refs.rxq else j.refs.txq, limit);
  }

  // ---------- Every run ----------

  ghost function RunJoint(j: Joint, ops: seq<JointOp>): (j': Joint)
    requires Linked(j)
    ensures Linked(j')
    decreases |ops|
  {
    if ops == [] then j
    else
      JointStepLinked(j, ops[0]);
      RunJoint(JointStep(j, ops[0]), ops[1..])
  }

  /** What a step does to the references. */
  ghost function RefsStep(j: Joint, op: JointOp): seq<Refs.Op> {
    match op
    case Own(o) => if o.SubmitRx? || o.SubmitTx? || o.ReapRx? || o.ReapTx? then [] else [o]
    case Send(rx, p, pieces) =>
      if !CanSubmit(j.refs, rx, p) || !Sendable(LaneOf(j, rx).ring, pieces) then [] else [SubmitOp(rx, p, |pieces|)]
    case Tell(rx) => if LaneOf(j, rx).told == [] then [] else [if rx then Refs.ReapRx else Refs.ReapTx]
    case _ => []
  }

  ghost function RefsRun(j: Joint, ops: seq<JointOp>): seq<Refs.Op>
    requires Linked(j)
    decreases |ops|
  {
    if ops == [] then []
    else
      JointStepLinked(j, ops[0]);
      RefsStep(j, ops[0]) + RefsRun(JointStep(j, ops[0]), ops[1..])
  }

  lemma StepProjects(j: Joint, op: JointOp)
    requires Linked(j)
    ensures JointStep(j, op).refs == Refs.RunOf(j.refs, RefsStep(j, op))
  {
    hide Ready, Queue, Submit, DoHwStep, Fetched, Sendable, Refs.Step;
    var ops := RefsStep(j, op);
    if ops != [] {
      assert ops == [ops[0]] && ops[1..] == [];
    }
  }

  lemma {:induction false} RunProjects(j: Joint, ops: seq<JointOp>)
    requires Linked(j)
    ensures RunJoint(j, ops).refs == Refs.RunOf(j.refs, RefsRun(j, ops))
    decreases |ops|
  {
    hide Linked, JointStep, RefsStep, Refs.Step;
    if ops != [] {
      JointStepLinked(j, ops[0]);
      StepProjects(j, ops[0]);
      var j' := JointStep(j, ops[0]);
      RunProjects(j', ops[1..]);
      Callbacks.RunConcat(j.refs, RefsStep(j, ops[0]), RefsRun(j', ops[1..]));
    }
  }

  /** Both rings as the driver opens them: created, cloned from a cleared BD and started; no request so far. */
  ghost predicate Openable(rx: Ring, tx: Ring, template: Bd) {
    Created(rx) && Created(tx) && ValidMask(rx) && ValidMask(tx) && template.sts == 0 && template.id == 0
  }

  ghost function Opened(rx: Ring, tx: Ring, template: Bd): (j: Joint)
    requires Openable(rx, tx, template)
    ensures Linked(j) && j.refs == Refs.START
  {
    Joint(OpenedLane(rx, template), OpenedLane(tx, template), Refs.START)
  }

  ghost function OpenedLane(r: Ring, template: Bd): (l: Lane)
    requires Created(r) && ValidMask(r) && template.sts == 0 && template.id == 0
    ensures LaneLinked(l, [])
  {
    Lane(Started(r, template), [])
  }

  /** In every run of both rings together the reference count of a request in use is one for an unfinished submission,
      one for each of its BDs queued on a ring, and one for each BD taken off and not told yet; no BD queued or taken
      off ever names a released descriptor. */
  lemma CountsOnTheRings(rx: Ring, tx: Ring, template: Bd, ops: seq<JointOp>, p: U32)
    requires Openable(rx, tx, template)
    ensures var j := RunJoint(Opened(rx, tx, template), ops);
      var bds := OnLane(j.rx, p) + OnLane(j.tx, p);
      && !j.refs.broken
      && (Refs.IsLive(j.refs, p) ==>
        j.refs.descs[p].refs == bds + if j.refs.descs[p].phase == Refs.Submitted then 0 else 1)
      && (!Refs.IsLive(j.refs, p) ==> bds == 0)
  {
    var j0 := Opened(rx, tx, template);
    hide Opened, Openable;
    var j := RunJoint(j0, ops);
    RunProjects(j0, ops);
    Refs.CountsInEveryRun(RefsRun(j0, ops), p);
    hide RunJoint, RefsRun, Refs.RunOf, Queue, Refs.Count, Ready;
    Refs.CountConcat(j.rx.told, Queue(j.rx.ring), p);
    Refs.CountConcat(j.tx.told, Queue(j.tx.ring), p);
  }

  ghost function OnLane(l: Lane, p: U32): nat
    requires SlotsIn(l.ring.hw, |l.ring.bds|)
  {
    Refs.Count(l.told, p) + Refs.Count(Queue(l.ring), p)
  }

  /** And when all is done every callback has run exactly once, if and only if no step has lost one. */
  lemma CallbacksOnTheRings(rx: Ring, tx: Ring, template: Bd, ops: seq<JointOp>)
    requires Openable(rx, tx, template)
    requires Callbacks.Quiet(RunJoint(Opened(rx, tx, template), ops).refs)
    ensures var runs := RunJoint(Opened(rx, tx, template), ops).refs.runs;
      Callbacks.Lossless(Refs.START, RefsRun(Opened(rx, tx, template), ops))
      <==> forall q :: 0 <= q < |runs| ==> runs[q] == 1
  {
    hide Opened, Openable;
    RunProjects(Opened(rx, tx, template), ops);
    Callbacks.ExactlyOnceIffLossless(RefsRun(Opened(rx, tx, template), ops));
  }
}
