/** A run in which a restart goes wrong because the snapshot lags behind.

    The snapshot a reset saves names the BD the engine completed last, instead of the one it would do next. When that BD
    is queued again before the restart, the search stops at it, although another BD is first in the queue. */
module RingReplay {
  import opened RingAddress
  import opened Descriptor
  import opened RingModel
  import opened RingRuns

  /** A BD with a length. */
  const TEMPLATE := Bd(0, 0, 64, 0, [], 0, 0, 0)

  /** Completed, end of packet. */
  const DONE: U32 := BIT31 + BIT26

  /** The new receive ring r of two BDs, later on: its groups, the status words of its BDs, and its engine. */
  ghost function Later(r: Ring, post: seq<nat>, hw: seq<nat>, pre: seq<nat>, free: seq<nat>,
                       sts: U32, sts': U32, running: bool, eng: Engine): Ring
    requires |r.bds| == 2
  {
    r.(post := post, hw := hw, pre := pre, free := free, running := running, eng := eng,
       bds := [Cloned(r.bds[0], TEMPLATE).(sts := sts), Cloned(r.bds[1], TEMPLATE).(sts := sts')])
  }

  ghost predicate NewPair(r: Ring) {
    Created(r) && |r.bds| == 2 && r.isRx && r.mask == MAX_TRANSFER_LEN
  }

  const REPLAY := [Clone(TEMPLATE), Alloc(1), ToHw(1, 0), Start(true), HwStep(DONE), Reset(0),
                   FromHw(1), Free(1, 0), Alloc(2), ToHw(2, 1)]

  lemma NewShape(r: Ring)
    requires Created(r)
    ensures Shape(r)
  {
  }

  lemma RunNone(r: Ring)
    requires Shape(r)
    ensures RunOf(r, REPLAY[..0]) == r
  {
  }

  lemma NewFree(r: Ring)
    requires NewPair(r)
    ensures Shape(r) && r.free == [0, 1]
  {
    hide Shape;
    assert Arc(0, 2, 2) == [0, 1];
  }

  lemma Clones(r: Ring)
    requires NewPair(r)
    ensures RunOf(r, REPLAY[..1]) == Later(r, [], [], [], [0, 1], 0, 0, false, r.eng)
  {
    hide At, Arc, SlotAt, RunOf, Shape, DoStart, DoToHw, DoHwStep, DoFromHw, DoFill;
    NewFree(r);
    RunNone(r);
    RunSnoc(r, REPLAY, 0);
    assert Step(r, Clone(TEMPLATE)).bds == CloneAll(r.bds, TEMPLATE);
  }

  lemma Allocates(r: Ring)
    requires NewPair(r)
    ensures RunOf(r, REPLAY[..2]) == Later(r, [], [], [0], [1], 0, 0, false, r.eng)
  {
    hide Created, At, Arc, RunOf, Shape, DoStart, DoToHw, DoHwStep, DoFromHw, DoFill, DoClone, SlotAt;
    NewShape(r);
    Clones(r);
    RunSnoc(r, REPLAY, 1);
  }

  lemma MarkOne(b: seq<Bd>)
    requires |b| == 2 && b[0].sts == 0
    ensures SlotsIn([0], |b|) && MarkSent(b, [0]) == b
  {
    assert MarkSent(b, []) == b;
  }

  lemma MarkBoth(b: seq<Bd>)
    requires |b| == 2 && b[0].sts == DONE && b[1].sts == 0
    ensures SlotsIn([1, 0], |b|) && MarkSent(b, [1, 0]) == [b[0].(sts := BIT26), b[1]]
  {
    assert [1, 0][..1] == [1] && [1][..0] == [];
    assert MarkSent(b, [1]) == b;
  }

  /** BD 0 is queued. */
  lemma Queues(r: Ring)
    requires NewPair(r)
    ensures RunOf(r, REPLAY[..3]) == Later(r, [], [0], [], [1], 0, 0, false, r.eng)
  {
    hide Created, At, Arc, RunOf, MarkSent, Shape, DoStart, DoClone, DoHwStep, DoFromHw, DoFill, SlotAt;
    NewShape(r);
    Allocates(r);
    RunSnoc(r, REPLAY, 2);
    var r' := RunOf(r, REPLAY[..2]);
    MarkOne(r'.bds);
    assert r'.pre[..1] == [0] && Marked(r', 1, 0) == 1;
  }

  /** The engine is started, completes it and is reset. */
  lemma Completes(r: Ring)
    requires NewPair(r)
    ensures RunOf(r, REPLAY[..6]) == Later(r, [], [0], [], [1], DONE, 0, false, Engine(false, true, 1, 0))
  {
    hide At, Arc, RunOf;
    Queues(r);
    RunSnoc(r, REPLAY, 3);
    assert RunOf(r, REPLAY[..4]) == Later(r, [], [0], [], [1], 0, 0, true, Engine(true, false, 0, 0));
    RunSnoc(r, REPLAY, 4);
    RunSnoc(r, REPLAY, 5);
  }

  /** BD 0 is handed back. */
  lemma HandsBack(r: Ring)
    requires NewPair(r)
    ensures RunOf(r, REPLAY[..7]) == Later(r, [0], [], [], [1], DONE, 0, false, Engine(false, true, 1, 0))
  {
    hide Created, At, Arc, RunOf, Shape, DoToHw, DoStart, DoClone, DoHwStep, DoFill, SlotAt;
    NewShape(r);
    Completes(r);
    RunSnoc(r, REPLAY, 6);
    var r' := RunOf(r, REPLAY[..6]);
    DoneCountIs(r'.bds, r'.hw, 1);
  }

  /** And given back. */
  lemma Returns(r: Ring)
    requires NewPair(r)
    ensures RunOf(r, REPLAY[..8]) == Later(r, [], [], [], [1, 0], DONE, 0, false, Engine(false, true, 1, 0))
  {
    HandsBack(r);
    RunSnoc(r, REPLAY, 7);
    hide Created, At, Arc, RunOf, Shape;
  }

  /** Both BDs are queued. */
  lemma QueuesAgain(r: Ring)
    requires NewPair(r)
    ensures RunOf(r, REPLAY) == Later(r, [], [1, 0], [], [], BIT26, 0, false, Engine(false, true, 1, 0))
  {
    hide At, Arc, RunOf, MarkSent;
    Returns(r);
    RunSnoc(r, REPLAY, 8);
    RunSnoc(r, REPLAY, 9);
    assert REPLAY[..10] == REPLAY;
    var r' := RunOf(r, REPLAY[..9]);
    assert r' == Later(r, [], [], [1, 0], [], DONE, 0, false, Engine(false, true, 1, 0));
    MarkBoth(r'.bds);
    assert r'.pre[..2] == [1, 0] && Marked(r', 2, 1) == 2;
  }

  /** After a reset whose snapshot is the BD completed last, the next start puts the engine at BD 0, though BD 1 is the
      first to do. */
  lemma RestartCanReplay(r: Ring)
    requires NewPair(r)
    ensures var r' := RunOf(r, REPLAY);
      && SlotsIn(r'.hw, |r'.bds|) && Todo(r') == [1, 0]
      && !SearchFails(r') && DoStart(r', true).eng.next == 0 != Todo(r')[0]
  {
    QueuesAgain(r);
    hide At, Arc, RunOf;
    var r' := RunOf(r, REPLAY);
    DoneCountIs(r'.bds, r'.hw, 0);
  }
}
