/** That requests get on: what is sent is queued, what the engine completes is fetched, what is fetched is told, and a
    request all of whose BDs have been told is released. */
module RequestProgress {
  import opened RingAddress
  import opened Descriptor
  import opened RingModel
  import opened RingTheorems
  import opened RingReap
  import opened Scatter
  import opened SubmitModel
  import opened ReapModel
  import opened RequestRings

  /** In every interleaving a submitted request of which no BD is left on either ring has been released. */
  lemma BackIsReleased(ops: seq<Refs.Op>, p: U32)
    requires var s := Refs.RunOf(Refs.START, ops); Refs.Count(s.rxq, p) == 0 && Refs.Count(s.txq, p) == 0
    ensures var s := Refs.RunOf(Refs.START, ops); Refs.IsLive(s, p) ==> s.descs[p].phase != Refs.Submitted
  {
    hide Refs.RunOf;
    Refs.CountsInEveryRun(ops, p);
  }

  // ---------- Steps ----------

  /** A buffer that can be sent is queued behind the others of its ring, one reference for each BD. */
  lemma SendQueues(j: Joint, rx: bool, p: U32, pieces: seq<Seg>)
    requires Linked(j) && CanSubmit(j.refs, rx, p) && Sendable(LaneOf(j, rx).ring, pieces)
    ensures var j', n := JointStep(j, Send(rx, p, pieces)), |pieces|; var l, l' := LaneOf(j, rx), LaneOf(j', rx);
      && LaneOf(j', !rx) == LaneOf(j, !rx) && l'.told == l.told && l'.ring.free == l.ring.free[n..]
      && SlotsIn(l.ring.hw, |l.ring.bds|) && SlotsIn(l'.ring.hw, |l'.ring.bds|)
      && Queue(l'.ring) == Queue(l.ring) + Refs.Copies(p, n)
      && Refs.IsLive(j'.refs, p)
      && j'.refs == j.refs.(descs := j.refs.descs[p := j'.refs.descs[p]], rxq := j'.refs.rxq, txq := j'.refs.txq)
      && j'.refs.descs[p] == Refs.Live(j.refs.descs[p].req, j.refs.descs[p].refs + n,
                                       if rx then Refs.RxQueued else Refs.TxQueued)
  {
    hide Queue, Submit, Ready, Sendable;
    var l := LaneOf(j, rx);
    SentReady(l.ring, p, pieces);
    SendableSome(l.ring, pieces);
    ReadyPre(l.ring);
    SentFree(l.ring, p, pieces);
  }

  lemma ReadyPre(r: Ring)
    requires Ready(r)
    ensures SlotsIn(r.pre, |r.bds|)
  {
  }

  lemma SentFree(r: Ring, p: U32, pieces: seq<Seg>)
    requires Ready(r) && Sendable(r, pieces) && SlotsIn(r.pre, |r.bds|)
    ensures Submit(r, pieces, |pieces|, All(p)).free == r.free[|pieces|..]
  {
    hide Inv, Submit, Holds, AllSuit, SameElsewhere;
    InvBasics(r);
    SubmitTakes(r, pieces, All(p));
  }

  /** A started engine with something to do completes one BD more; nobody is told yet. */
  lemma EngineCompletes(j: Joint, rx: bool, word: U32)
    requires Linked(j) && LaneOf(j, rx).ring.running && word >= BIT31
    requires var r := LaneOf(j, rx).ring; SlotsIn(r.hw, |r.bds|) && Todo(r) != []
    ensures var j' := JointStep(j, JointOp.Engine(rx, word)); var l, l' := LaneOf(j, rx), LaneOf(j', rx);
      && j'.refs == j.refs && LaneOf(j', !rx) == LaneOf(j, !rx) && l'.told == l.told && l'.ring.hw == l.ring.hw
      && SlotsIn(l'.ring.hw, |l'.ring.bds|) && Todo(l'.ring) == Todo(l.ring)[1..]
  {
    hide SlotAt, At, Arc, DoneCount, Todo, Queue;
    var r := LaneOf(j, rx).ring;
    HwStepParts(r, DoHwStep(r, word), word);
  }

  /** A fetch takes whole packets off the front and leaves no complete one behind: of the BDs left none that
      is complete ends a packet. */
  lemma FetchTakes(j: Joint, rx: bool, limit: int)
    requires Linked(j) && |LaneOf(j, rx).ring.hw| <= limit
    ensures var j' := JointStep(j, Fetch(rx, limit)); var l, l' := LaneOf(j, rx), LaneOf(j', rx);
      && j'.refs == j.refs && LaneOf(j', !rx) == LaneOf(j, !rx)
      && SlotsIn(l.ring.hw, |l.ring.bds|) && SlotsIn(l'.ring.hw, |l'.ring.bds|)
      && l'.told + Queue(l'.ring) == l.told + Queue(l.ring)
      && |l'.told| == |l.told| + |l.ring.hw| - |l'.ring.hw|
      && forall i :: 0 <= i < DoneCount(l'.ring.bds, l'.ring.hw) ==> !Eof(l'.ring.bds[l'.ring.hw[i]], l'.ring.isRx)
  {
    hide Ready, Queue, Reapable, Eof, DoneCount;
    var l := LaneOf(j, rx);
    var q := if rx then j.refs.rxq else j.refs.txq;
    FetchLinked(l, q, limit);
    NothingLeft(l.ring, limit);
  }

  lemma NothingLeft(r: Ring, limit: int)
    requires Ready(r) && SlotsIn(r.hw, |r.bds|) && |r.hw| <= limit
    ensures var r' := Reaped(r, Reapable(r, limit));
      && SlotsIn(r'.hw, |r'.bds|)
      && forall i :: 0 <= i < DoneCount(r'.bds, r'.hw) ==> !Eof(r'.bds[r'.hw[i]], r'.isRx)
  {
    hide Inv, Reapable, Reaped, DoneCount, Eof;
    ReapedSlots(r, Reapable(r, limit));
    var r' := Reaped(r, Reapable(r, limit));
    forall i | 0 <= i < DoneCount(r'.bds, r'.hw) ensures !Eof(r'.bds[r'.hw[i]], r'.isRx) {
      NoneReapable(r, r', limit, i);
    }
  }

  lemma ReapedSlots(r: Ring, k: nat)
    requires Inv(r) && SlotsIn(r.hw, |r.bds|) && k <= |r.hw|
    ensures var r' := Reaped(r, k);
      && SlotsIn(r'.hw, |r'.bds|) && r'.isRx == r.isRx && r'.hw == r.hw[k..]
      && forall i :: k <= i < |r.hw| ==> r'.bds[r.hw[i]] == r.bds[r.hw[i]]
  {
    hide Inv, ClearIds, Distinct;
    InvSlots(r);
    PartSlots(r.hw, k, |r.bds|);
    Consecutive(r.hw, k, |r.hw| - k);
    assert r.hw[k..][..|r.hw| - k] == r.hw[k..];
    forall i | k <= i < |r.hw| ensures Reaped(r, k).bds[r.hw[i]] == r.bds[r.hw[i]] {
      assert r.hw[i] == r.hw[k..][i - k] && r.hw[i] in r.hw[k..];
    }
  }

  lemma NoneReapable(r: Ring, r': Ring, limit: int, i: nat)
    requires Ready(r) && SlotsIn(r.hw, |r.bds|) && |r.hw| <= limit && r' == Reaped(r, Reapable(r, limit))
    requires SlotsIn(r'.hw, |r'.bds|) && i < DoneCount(r'.bds, r'.hw)
    ensures !Eof(r'.bds[r'.hw[i]], r'.isRx)
  {
    hide Inv, Reapable, Reaped, DoneCount, Eof, Complete;
    var k := Reapable(r, limit);
    ReapedSlots(r, k);
    ReapableIsLargest(r, limit, k);
    ReapableIsLargest(r, limit, k + i + 1);
    if Eof(r'.bds[r'.hw[i]], r'.isRx) {
      forall m | k <= m < k + i + 1 ensures Complete(r.bds[r.hw[m]]) {
        assert r'.hw[m - k] == r.hw[m];
        assert Complete(r'.bds[r'.hw[m - k]]);
      }
    }
  }

  /** Telling puts one reference of the request at the front: it has one less, or is released. */
  lemma TellPuts(j: Joint, rx: bool)
    requires Linked(j) && Refs.Inv(j.refs) && LaneOf(j, rx).told != []
    ensures var j', p := JointStep(j, Tell(rx)), LaneOf(j, rx).told[0];
      && LaneOf(j', rx) == LaneOf(j, rx).(told := LaneOf(j, rx).told[1..]) && LaneOf(j', !rx) == LaneOf(j, !rx)
      && Refs.IsLive(j.refs, p)
      && (j.refs.descs[p].refs > 1 ==>
            j'.refs.descs == j.refs.descs[p := j.refs.descs[p].(refs := j.refs.descs[p].refs - 1)])
      && (j.refs.descs[p].refs == 1 ==>
            !Refs.IsLive(j'.refs, p) && j.refs.descs[p].req in j'.refs.releasers)
  {
    hide Ready, Queue, Refs.Holders;
    var l := LaneOf(j, rx);
    var q := if rx then j.refs.rxq else j.refs.txq;
    assert q[0] == l.told[0];
    assert Refs.Right(j.refs, q[0]);
    Refs.CountHead(q, q[0]);
  }

  // ---------- A whole submission ----------

  /** The steps of one submission that nothing else interleaves with. */
  function Submission(p: U32, a: seq<Seg>, b: seq<Seg>): seq<JointOp> {
    [Own(Refs.Take(p)), Own(Refs.Clean(p)), Own(Refs.Store(p)), Send(true, p, a), Send(false, p, b),
     Own(Refs.Finish(p))]
  }

  lemma RunSix(j: Joint, o: seq<JointOp>, j1: Joint, j2: Joint, j3: Joint, j4: Joint, j5: Joint, j6: Joint)
    requires |o| == 6 && Linked(j) && j1 == JointStep(j, o[0])
    requires Linked(j1) && j2 == JointStep(j1, o[1])
    requires Linked(j2) && j3 == JointStep(j2, o[2])
    requires Linked(j3) && j4 == JointStep(j3, o[3])
    requires Linked(j4) && j5 == JointStep(j4, o[4])
    requires Linked(j5) && j6 == JointStep(j5, o[5])
    ensures RunJoint(j, o) == j6
  {
    hide Linked, JointStep;
    assert o == [o[0], o[1], o[2], o[3], o[4], o[5]];
    assert RunJoint(j, o) == RunJoint(j1, o[1..]);
    assert o[1..][1..] == o[2..] && o[2..][1..] == o[3..] && o[3..][1..] == o[4..] && o[4..][1..] == o[5..];
    assert RunJoint(j1, o[1..]) == RunJoint(j2, o[2..]);
    assert RunJoint(j2, o[2..]) == RunJoint(j3, o[3..]);
    assert RunJoint(j3, o[3..]) == RunJoint(j4, o[4..]);
    assert RunJoint(j4, o[4..]) == RunJoint(j5, o[5..]);
    assert o[5..][1..] == [];
    JointStepLinked(j5, o[5]);
    assert RunJoint(j5, o[5..]) == RunJoint(j6, []);
  }

  /** The rings hold n and m BDs of request p and no others, and none of them has been fetched. */
  ghost predicate OnBoth(j: Joint, p: U32, n: nat, m: nat) {
    && j.rx.told == j.tx.told == []
    && SlotsIn(j.rx.ring.hw, |j.rx.ring.bds|) && Queue(j.rx.ring) == Refs.Copies(p, n)
    && SlotsIn(j.tx.ring.hw, |j.tx.ring.bds|) && Queue(j.tx.ring) == Refs.Copies(p, m)
  }

  /** On two rings just opened, a request with buffers that can be sent comes to be queued on both, with its callback
      stored, one reference for each BD and none for the submission. */
  lemma RequestQueued(rx: Ring, tx: Ring, template: Bd, p: U32, a: seq<Seg>, b: seq<Seg>)
    requires Openable(rx, tx, template)
    requires Sendable(OpenedLane(rx, template).ring, a) && Sendable(OpenedLane(tx, template).ring, b)
    ensures var j := RunJoint(Opened(rx, tx, template), Submission(p, a, b));
      && OnBoth(j, p, |a|, |b|)
      && j.refs.descs == map[p := Refs.Live(0, |a| + |b|, Refs.Submitted)]
      && j.refs.field == map[p := Refs.Of(0)] && j.refs.runs == [0] && j.refs.releasers == map[]
  {
    hide Linked, Queue, Sendable, LaneLinked, RunJoint, JointStep, Opened, OpenedLane;
    var j := Opened(rx, tx, template);
    OpenedLanes(rx, tx, template);
    var j1, j2, j3 := CallbackStored(j, p);
    var j4, j5 := BothSent(j3, p, a, b);
    var j6 := JointStep(j5, Own(Refs.Finish(p)));
    Finished(j5, j6, p, |a| + |b|);
    RunSix(j, Submission(p, a, b), j1, j2, j3, j4, j5, j6);
  }

  lemma OpenedLanes(rx: Ring, tx: Ring, template: Bd)
    requires Openable(rx, tx, template)
    ensures var j := Opened(rx, tx, template);
      j.rx == OpenedLane(rx, template) && j.tx == OpenedLane(tx, template) && j.refs == Refs.START
  {
  }

  lemma CallbackStored(j: Joint, p: U32) returns (j1: Joint, j2: Joint, j3: Joint)
    requires Linked(j) && j.refs == Refs.START
    ensures j1 == JointStep(j, Own(Refs.Take(p))) && Linked(j1)
    ensures j2 == JointStep(j1, Own(Refs.Clean(p))) && Linked(j2)
    ensures j3 == JointStep(j2, Own(Refs.Store(p))) && Linked(j3)
    ensures j3 == j.(refs := Stored(p))
  {
    hide Linked;
    j1 := JointStep(j, Own(Refs.Take(p)));
    OwnStepLinked(j, Refs.Take(p));
    j2 := JointStep(j1, Own(Refs.Clean(p)));
    OwnStepLinked(j1, Refs.Clean(p));
    j3 := JointStep(j2, Own(Refs.Store(p)));
    OwnStepLinked(j2, Refs.Store(p));
  }

  lemma Finished(j: Joint, j': Joint, p: U32, n: nat)
    requires Linked(j) && j' == JointStep(j, Own(Refs.Finish(p))) && n > 0
    requires j.refs == Stored(p).(descs := map[p := Refs.Live(0, 1 + n, Refs.TxQueued)],
                                  rxq := j.refs.rxq, txq := j.refs.txq)
    ensures j'.rx == j.rx && j'.tx == j.tx
    ensures j'.refs == j.refs.(descs := map[p := Refs.Live(0, n, Refs.Submitted)])
  {
    hide Linked;
  }

  /** The state of the references when the first submission has stored its callback. */
  function Stored(p: U32): Refs.State {
    Refs.State(map[p := Refs.Live(0, 1, Refs.Stored)], map[p := Refs.Of(0)], [], [], map[], [p], [0], false)
  }

  lemma LinkedLanes(j: Joint, rxq: seq<U32>, txq: seq<U32>)
    requires Linked(j) && j.refs.rxq == rxq && j.refs.txq == txq
    ensures LaneLinked(j.rx, rxq) && LaneLinked(j.tx, txq)
    ensures SlotsIn(j.rx.ring.hw, |j.rx.ring.bds|) && rxq == j.rx.told + Queue(j.rx.ring)
    ensures SlotsIn(j.tx.ring.hw, |j.tx.ring.bds|) && txq == j.tx.told + Queue(j.tx.ring)
  {
  }

  lemma BothSent(j: Joint, p: U32, a: seq<Seg>, b: seq<Seg>) returns (j1: Joint, j2: Joint)
    requires Linked(j) && j.refs == Stored(p) && Sendable(j.rx.ring, a) && Sendable(j.tx.ring, b)
    ensures j1 == JointStep(j, Send(true, p, a)) && Linked(j1) && j2 == JointStep(j1, Send(false, p, b)) && Linked(j2)
    ensures OnBoth(j2, p, |a|, |b|) && |a| > 0
    ensures j2.refs == Stored(p).(descs := map[p := Refs.Live(0, 1 + |a| + |b|, Refs.TxQueued)],
                                  rxq := j2.refs.rxq, txq := j2.refs.txq)
  {
    hide Linked, Queue, Sendable, LaneLinked, JointStep;
    LinkedLanes(j, [], []);
    SendableSome(j.rx.ring, a);
    j1 := JointStep(j, Send(true, p, a));
    SendQueues(j, true, p, a);
    SendStepLinked(j, true, p, a);
    j2 := JointStep(j1, Send(false, p, b));
    SendQueues(j1, false, p, b);
    SendStepLinked(j1, false, p, b);
  }
}
