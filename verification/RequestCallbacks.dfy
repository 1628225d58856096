/** Whether each request's callback runs exactly once.

    A releaser reads the callback field after the descriptor is back on the free list, and clears it after the callback
    has run. In both windows a submission that takes the descriptor can make a callback get lost: its own clearing
    erases the callback still to be read, or the releaser's clearing erases the one it has stored. Every request's
    callback runs exactly once if and only if neither happens. */
module RequestCallbacks {
  import opened RequestRefs

  /** The submission in progress has stored its callback in p. */
  ghost predicate HasStored(s: State, p: Ptr) {
    IsLive(s, p) && s.descs[p].phase != Grabbed && s.descs[p].phase != Cleared
  }

  /** Request q is released and its callback field not yet read. */
  ghost predicate Awaits(s: State, q: nat) {
    q in s.releasers && !s.releasers[q].read
  }

  ghost predicate Unread(s: State, p: Ptr) {
    exists q :: Awaits(s, q) && s.releasers[q].p == p
  }

  /** The steps that erase a callback: a submission clears a descriptor whose last release has not read it yet, or a
      release clears a field that is another request's by now. */
  ghost predicate Loses(s: State, op: Op) {
    match op
    case Clean(p) => AtPhase(s, p, Grabbed) && Unread(s, p)
    case ClearCallback(q) =>
      q in s.releasers && s.releasers[q].read && (HasStored(s, s.releasers[q].p) || Unread(s, s.releasers[q].p))
    case _ => false
  }

  ghost predicate Lossless(s: State, ops: seq<Op>)
    decreases |ops|
  {
    ops == [] || (!Loses(s, ops[0]) && Lossless(Step(s, ops[0]), ops[1..]))
  }

  // ---------- Without a loss ----------

  /** Until its callback has run, a request is in use or awaits its reading; what is stored is still there. */
  ghost predicate OnceEach(s: State) {
    && |s.home| == |s.runs|
    && (forall q :: Awaits(s, q) ==>
      var p := s.releasers[q].p; Field(s, p) == Of(q) && !HasStored(s, p) && !AtPhase(s, p, Cleared))
    && (forall p :: HasStored(s, p) ==> Field(s, p) == Of(s.descs[p].req))
    && (forall q :: 0 <= q < |s.runs| ==> s.runs[q] == if InUse(s, q) || Awaits(s, q) then 0 else 1)
  }

  lemma TakeOnce(s: State, p: Ptr)
    requires Inv(s) && OnceEach(s) && !IsLive(s, p)
    ensures OnceEach(Step(s, Take(p)))
  {
    hide Count;
    var s' := Step(s, Take(p));
    assert forall x: Ptr :: Field(s', x) == Field(s, x);
    forall q | 0 <= q < |s'.runs| ensures s'.runs[q] == if InUse(s', q) || Awaits(s', q) then 0 else 1 {
      assert q < |s.runs| ==> s.runs[q] == if InUse(s, q) || Awaits(s, q) then 0 else 1;
    }
  }

  /** A submission moves on; who awaits what stays the same. */
  lemma MoveOnce(s: State, s': State, p: Ptr)
    requires Owned(s) && OnceEach(s) && IsLive(s, p) && IsLive(s', p) && s'.descs[p].req == s.descs[p].req
    requires s' == s.(descs := s.descs[p := s'.descs[p]], field := s'.field, rxq := s'.rxq, txq := s'.txq)
    requires forall x: Ptr :: x != p ==> Field(s', x) == Field(s, x)
    requires HasStored(s', p) ==> Field(s', p) == Of(s.descs[p].req)
    requires HasStored(s', p) || AtPhase(s', p, Cleared) || Field(s', p) != Field(s, p) ==> !Unread(s, p)
    ensures OnceEach(s')
  {
    forall q | 0 <= q < |s.runs| ensures s'.runs[q] == if InUse(s', q) || Awaits(s', q) then 0 else 1 {
      assert s.runs[q] == if InUse(s, q) || Awaits(s, q) then 0 else 1;
    }
  }

  lemma SubmitOnce(s: State, op: Op)
    requires Inv(s) && OnceEach(s) && !Loses(s, op)
    requires op.Clean? || op.Store? || op.SubmitRx? || op.SubmitTx?
    ensures OnceEach(Step(s, op))
  {
    hide Count, Copies, Counted;
    var s' := Step(s, op);
    if s' != s {
      MoveOnce(s, s', op.p);
    }
  }

  /** A put on a submitted descriptor, the last one or not. */
  lemma PutOnce(s0: State, p: Ptr)
    requires Owned(s0) && OnceEach(s0) && IsLive(s0, p) && (s0.descs[p].refs == 1 ==> HasStored(s0, p))
    ensures OnceEach(Put(s0, p))
  {
    var s := Put(s0, p);
    assert forall x: Ptr :: Field(s, x) == Field(s0, x);
    if s0.descs[p].refs == 1 {
      ReleaseOnce(s0, s, p);
    } else {
      MoveOnce(s0, s, p);
    }
  }

  lemma ReleaseOnce(s0: State, s: State, p: Ptr)
    requires Owned(s0) && OnceEach(s0) && HasStored(s0, p)
    requires s == s0.(descs := s0.descs[p := Free], releasers := s0.releasers[s0.descs[p].req := Releaser(p, false)])
    ensures OnceEach(s)
  {
    assert forall x: Ptr :: Field(s, x) == Field(s0, x);
    assert forall x :: HasStored(s, x) ==> HasStored(s0, x);
    forall q | 0 <= q < |s.runs| ensures s.runs[q] == if InUse(s, q) || Awaits(s, q) then 0 else 1 {
      assert s0.runs[q] == if InUse(s0, q) || Awaits(s0, q) then 0 else 1;
    }
  }

  lemma FinishOnce(s: State, p: Ptr)
    requires Inv(s) && OnceEach(s)
    ensures OnceEach(Step(s, Finish(p)))
  {
    hide Count, Counted;
    if AtPhase(s, p, TxQueued) {
      var s0 := Move(s, p, Submitted);
      MoveOnce(s, s0, p);
      SameRequest(s, s0, p);
      PutOnce(s0, p);
    }
  }

  lemma ReapOnce(s: State, op: Op)
    requires Inv(s) && OnceEach(s) && (op.ReapRx? || op.ReapTx?)
    ensures OnceEach(Step(s, op))
  {
    hide Count;
    var q := if op.ReapRx? then s.rxq else s.txq;
    if q != [] {
      var p := q[0];
      var s0 := if op.ReapRx? then s.(rxq := q[1..]) else s.(txq := q[1..]);
      assert Right(s, p);
      CountHead(q, p);
      MoveOnce(s, s0, p);
      SameRequest(s, s0, p);
      PutOnce(s0, p);
    }
  }

  lemma ReleaserOnce(s: State, op: Op)
    requires Inv(s) && OnceEach(s) && (op.RunCallback? || op.ClearCallback?) && !Loses(s, op)
    ensures OnceEach(Step(s, op))
  {
    hide Count, Counted, OnceEach, Owned, ReadField, ClearField;
    if Step(s, op) != s {
      if op.RunCallback? { ReadOnce(s, op.req); } else { ClearOnce(s, op.req); }
    }
  }

  lemma ReadOnce(s: State, q: nat)
    requires Owned(s) && OnceEach(s) && Awaits(s, q)
    ensures OnceEach(ReadField(s, q))
  {
    var s' := ReadField(s, q);
    assert forall x: Ptr :: Field(s', x) == Field(s, x);
    forall k | 0 <= k < |s.runs| ensures s'.runs[k] == if InUse(s', k) || Awaits(s', k) then 0 else 1 {
      assert s.runs[k] == if InUse(s, k) || Awaits(s, k) then 0 else 1;
    }
  }

  lemma ClearOnce(s: State, q: nat)
    requires Owned(s) && OnceEach(s) && q in s.releasers && s.releasers[q].read && !Loses(s, ClearCallback(q))
    ensures OnceEach(ClearField(s, q))
  {
    var s' := ClearField(s, q);
    assert forall x: Ptr :: x != s.releasers[q].p ==> Field(s', x) == Field(s, x);
    forall k | 0 <= k < |s.runs| ensures s'.runs[k] == if InUse(s', k) || Awaits(s', k) then 0 else 1 {
      assert s.runs[k] == if InUse(s, k) || Awaits(s, k) then 0 else 1;
    }
  }

  lemma StepOnce(s: State, op: Op)
    requires Inv(s) && OnceEach(s) && !Loses(s, op)
    ensures OnceEach(Step(s, op))
  {
    hide Inv, OnceEach, Put, ReadField, ClearField, Loses;
    match op
    case Take(p) => if !IsLive(s, p) { TakeOnce(s, p); }
    case Finish(p) => FinishOnce(s, p);
    case ReapRx => ReapOnce(s, op);
    case ReapTx => ReapOnce(s, op);
    case RunCallback(_) => ReleaserOnce(s, op);
    case ClearCallback(_) => ReleaserOnce(s, op);
    case _ => SubmitOnce(s, op);
  }

  // ---------- After a loss ----------

  /** The callback of q has not run and is nowhere, and nobody will store it again. */
  ghost predicate Lost(s: State, q: nat) {
    && q < |s.runs| && s.runs[q] == 0
    && (forall p: Ptr :: Field(s, p) != Of(q))
    && (forall p :: IsLive(s, p) && s.descs[p].req == q ==> HasStored(s, p))
  }

  lemma PutStaysLost(s0: State, p: Ptr, q: nat)
    requires Lost(s0, q)
    ensures Lost(Put(s0, p), q)
  {
    var s := Put(s0, p);
    assert forall x: Ptr :: Field(s, x) == Field(s0, x);
    assert forall x: Ptr :: IsLive(s, x) && x != p ==> IsLive(s0, x) && s.descs[x] == s0.descs[x];
  }

  lemma QueueStaysLost(s: State, op: Op, q: nat)
    requires Inv(s) && Lost(s, q) && (op.Finish? || op.ReapRx? || op.ReapTx?)
    ensures Lost(Step(s, op), q)
  {
    hide Count, Counted, Put;
    if op.Finish? && AtPhase(s, op.p, TxQueued) {
      var s0 := Move(s, op.p, Submitted);
      assert forall x: Ptr :: Field(s0, x) == Field(s, x);
      PutStaysLost(s0, op.p, q);
    } else if op.ReapRx? && s.rxq != [] {
      var s0 := s.(rxq := s.rxq[1..]);
      assert forall x: Ptr :: Field(s0, x) == Field(s, x);
      PutStaysLost(s0, s.rxq[0], q);
    } else if op.ReapTx? && s.txq != [] {
      var s0 := s.(txq := s.txq[1..]);
      assert forall x: Ptr :: Field(s0, x) == Field(s, x);
      PutStaysLost(s0, s.txq[0], q);
    }
  }

  /** A submission stores only its own callback, and has done so once it is queued. */
  lemma MoveStaysLost(s: State, s': State, p: Ptr, q: nat)
    requires Lost(s, q) && IsLive(s, p) && IsLive(s', p) && s'.descs[p].req == s.descs[p].req
    requires s' == s.(descs := s.descs[p := s'.descs[p]], field := s'.field, rxq := s'.rxq, txq := s'.txq)
    requires HasStored(s, p) ==> HasStored(s', p)
    requires s'.field == s.field || (!HasStored(s, p) && s'.field == s.field[p := Of(s.descs[p].req)])
      || s'.field == s.field[p := None]
    ensures Lost(s', q)
  {
    forall x: Ptr ensures Field(s', x) != Of(q) {
      assert Field(s, x) != Of(q);
    }
  }

  lemma SubmitStaysLost(s: State, op: Op, q: nat)
    requires Lost(s, q) && (op.Clean? || op.Store? || op.SubmitRx? || op.SubmitTx?)
    ensures Lost(Step(s, op), q)
  {
    hide Copies, Lost;
    var s' := Step(s, op);
    if s' != s {
      MoveStaysLost(s, s', op.p, q);
    }
  }

  lemma StaysLost(s: State, op: Op, q: nat)
    requires Inv(s) && Lost(s, q)
    ensures Lost(Step(s, op), q)
  {
    hide Count, Copies, Counted, Put;
    match op
    case Finish(_) => QueueStaysLost(s, op, q);
    case ReapRx => QueueStaysLost(s, op, q);
    case ReapTx => QueueStaysLost(s, op, q);
    case Clean(_) => SubmitStaysLost(s, op, q);
    case Store(_) => SubmitStaysLost(s, op, q);
    case SubmitRx(_, _) => SubmitStaysLost(s, op, q);
    case SubmitTx(_, _) => SubmitStaysLost(s, op, q);
    case Take(p) => TakeStaysLost(s, p, q);
    case RunCallback(_) => ReleaserStaysLost(s, op, q);
    case ClearCallback(_) => ReleaserStaysLost(s, op, q);
  }

  lemma TakeStaysLost(s: State, p: Ptr, q: nat)
    requires Lost(s, q)
    ensures Lost(Step(s, Take(p)), q)
  {
    var s' := Step(s, Take(p));
    assert forall x: Ptr :: Field(s', x) == Field(s, x);
  }

  lemma ReleaserStaysLost(s: State, op: Op, q: nat)
    requires Lost(s, q) && (op.RunCallback? || op.ClearCallback?)
    ensures Lost(Step(s, op), q)
  {
    var s' := Step(s, op);
    assert forall x: Ptr :: Field(s', x) == Field(s, x) || Field(s', x) == None;
  }

  lemma LossLoses(s: State, op: Op) returns (q: nat)
    requires Inv(s) && OnceEach(s) && Loses(s, op)
    ensures Lost(Step(s, op), q)
  {
    hide Count, Counted;
    var p := if op.Clean? then op.p else s.releasers[op.req].p;
    var s' := Step(s, op);
    if HasStored(s, p) {
      q := s.descs[p].req;
    } else {
      q :| Awaits(s, q) && s.releasers[q].p == p;
    }
    assert Field(s, p) == Of(q) && s.home[q] == p && s.runs[q] == 0;
    assert forall x: Ptr :: Field(s', x) == if x == p then None else Field(s, x);
  }

  // ---------- Every interleaving ----------

  lemma {:induction false} LosslessRun(s: State, ops: seq<Op>)
    requires Inv(s) && OnceEach(s) && Lossless(s, ops)
    ensures Inv(RunOf(s, ops)) && OnceEach(RunOf(s, ops))
    decreases |ops|
  {
    hide Inv, OnceEach, Step, Loses;
    if ops != [] {
      StepKeeps(s, ops[0]);
      StepOnce(s, ops[0]);
      LosslessRun(Step(s, ops[0]), ops[1..]);
    }
  }

  lemma {:induction false} LostForGood(s: State, ops: seq<Op>, q: nat)
    requires Inv(s) && Lost(s, q)
    ensures Lost(RunOf(s, ops), q)
    decreases |ops|
  {
    hide Inv, Lost, Step;
    if ops != [] {
      StepKeeps(s, ops[0]);
      StaysLost(s, ops[0], q);
      LostForGood(Step(s, ops[0]), ops[1..], q);
    }
  }

  lemma {:induction false} LossyRun(s: State, ops: seq<Op>) returns (q: nat)
    requires Inv(s) && OnceEach(s) && !Lossless(s, ops)
    ensures Lost(RunOf(s, ops), q)
    decreases |ops|
  {
    hide Inv, OnceEach, Lost, Step, Loses;
    StepKeeps(s, ops[0]);
    if Loses(s, ops[0]) {
      q := LossLoses(s, ops[0]);
      LostForGood(Step(s, ops[0]), ops[1..], q);
    } else {
      StepOnce(s, ops[0]);
      q := LossyRun(Step(s, ops[0]), ops[1..]);
    }
  }

  lemma StartOnce()
    ensures Inv(START) && OnceEach(START)
  {
    StartHolds();
  }

  /** In every interleaving without a loss, at any time, a request's callback has run once if the request has been
      released and its field read, and has not run before that. */
  lemma CallbackExactlyOnce(ops: seq<Op>, q: nat)
    requires Lossless(START, ops) && q < |RunOf(START, ops).runs|
    ensures var s := RunOf(START, ops);
      && |s.home| == |s.runs| && s.runs[q] <= 1
      && (s.runs[q] == 0 <==> InUse(s, q) || Awaits(s, q)) && (InUse(s, q) ==> Holders(s, s.home[q]) > 0)
  {
    hide RunOf, Count, Lossless;
    StartOnce();
    LosslessRun(START, ops);
    var s := RunOf(START, ops);
    assert Right(s, s.home[q]);
  }

  /** Nothing is being submitted, queued or released. */
  ghost predicate Quiet(s: State) {
    (forall p :: !IsLive(s, p)) && s.releasers == map[]
  }

  /** When all is done, every callback has run exactly once if and only if no step has lost one. */
  lemma ExactlyOnceIffLossless(ops: seq<Op>)
    requires Quiet(RunOf(START, ops))
    ensures var runs := RunOf(START, ops).runs;
      Lossless(START, ops) <==> forall q :: 0 <= q < |runs| ==> runs[q] == 1
  {
    hide RunOf, Lossless;
    StartOnce();
    if Lossless(START, ops) {
      LosslessRun(START, ops);
    } else {
      var q := LossyRun(START, ops);
    }
  }

  // ---------- Taking a descriptor late enough ----------

  /** Each descriptor is taken only when no context is still inside aes_free_desc with it. */
  ghost predicate TakesLate(s: State, ops: seq<Op>)
    decreases |ops|
  {
    ops == []
    || ((ops[0].Take? ==> forall q :: q in s.releasers ==> s.releasers[q].p != ops[0].p)
        && TakesLate(Step(s, ops[0]), ops[1..]))
  }

  /** Each descriptor has one user or one releaser. */
  ghost predicate Exclusive(s: State) {
    && (forall q :: q in s.releasers ==> !IsLive(s, s.releasers[q].p))
    && (forall q, q' :: q in s.releasers && q' in s.releasers && s.releasers[q].p == s.releasers[q'].p ==> q == q')
  }

  lemma ExclusiveStep(s: State, op: Op)
    requires Exclusive(s) && (op.Take? ==> forall q :: q in s.releasers ==> s.releasers[q].p != op.p)
    ensures Exclusive(Step(s, op)) && !Loses(s, op)
  {
    hide Copies, Put;
    match op
    case Finish(p) => if AtPhase(s, p, TxQueued) { PutExclusive(Move(s, p, Submitted), p); }
    case ReapRx => if s.rxq != [] { PutExclusive(s.(rxq := s.rxq[1..]), s.rxq[0]); }
    case ReapTx => if s.txq != [] { PutExclusive(s.(txq := s.txq[1..]), s.txq[0]); }
    case _ =>
  }

  lemma PutExclusive(s: State, p: Ptr)
    requires Exclusive(s)
    ensures Exclusive(Put(s, p))
  {
  }

  lemma {:induction false} LateTakesLoseNothing(s: State, ops: seq<Op>)
    requires Exclusive(s) && TakesLate(s, ops)
    ensures Lossless(s, ops)
    decreases |ops|
  {
    hide Exclusive, Step, Loses;
    if ops != [] {
      ExclusiveStep(s, ops[0]);
      LateTakesLoseNothing(Step(s, ops[0]), ops[1..]);
    }
  }

  /** The protocol would be right if the descriptor went onto the free list last. */
  lemma LateTakesExactlyOnce(ops: seq<Op>)
    requires TakesLate(START, ops)
    ensures Lossless(START, ops)
  {
    hide TakesLate, Lossless;
    LateTakesLoseNothing(START, ops);
  }

  // ---------- Both windows are open ----------

  /** A request with one BD on each ring, up to its release. */
  function Submission(p: Ptr): seq<Op> {
    [SubmitRx(p, 1), SubmitTx(p, 1), Finish(p), ReapRx, ReapTx]
  }

  lemma {:induction false} RunConcat(s: State, a: seq<Op>, b: seq<Op>)
    ensures RunOf(s, a + b) == RunOf(RunOf(s, a), b)
    decreases |a|
  {
    hide Step;
    if a == [] {
      assert a + b == b;
    } else {
      assert (a + b)[1..] == a[1..] + b;
      RunConcat(Step(s, a[0]), a[1..], b);
    }
  }

  lemma RunCons(s: State, op: Op, ops: seq<Op>)
    ensures RunOf(s, [op] + ops) == RunOf(Step(s, op), ops)
  {
    hide Step;
    assert ([op] + ops)[1..] == ops;
  }

  lemma RunFive(s: State, a: Op, b: Op, c: Op, d: Op, e: Op)
    ensures RunOf(s, [a, b, c, d, e]) == Step(Step(Step(Step(Step(s, a), b), c), d), e)
  {
    hide Step;
    var s1, s2, s3, s4 := Step(s, a), Step(Step(s, a), b), Step(Step(Step(s, a), b), c),
      Step(Step(Step(Step(s, a), b), c), d);
    RunCons(s, a, [b, c, d, e]);
    RunCons(s1, b, [c, d, e]);
    RunCons(s2, c, [d, e]);
    RunCons(s3, d, [e]);
    RunCons(s4, e, []);
    assert [a] + [b, c, d, e] == [a, b, c, d, e] && [b] + [c, d, e] == [b, c, d, e] && [c] + [d, e] == [c, d, e]
        && [d] + [e] == [d, e] && [e] + [] == [e];
  }

  lemma QueueSteps(s: State, p: Ptr)
    requires AtPhase(s, p, Stored) && s.descs[p].refs == 1 && s.rxq == [] && s.txq == []
    ensures Step(Step(s, SubmitRx(p, 1)), SubmitTx(p, 1)) ==
      s.(descs := s.descs[p := s.descs[p].(refs := 3, phase := TxQueued)], rxq := [p], txq := [p])
  {
    assert Copies(p, 1) == [p];
    var d, s1 := s.descs[p], Step(s, SubmitRx(p, 1));
    assert s1 == s.(descs := s.descs[p := d.(refs := 2, phase := RxQueued)], rxq := [p]);
    assert s1.descs[p := d.(refs := 3, phase := TxQueued)] == s.descs[p := d.(refs := 3, phase := TxQueued)];
  }

  lemma PutSteps(s: State, p: Ptr)
    requires AtPhase(s, p, TxQueued) && s.descs[p].refs == 3 && s.descs[p].req !in s.releasers
    requires s.rxq == [p] && s.txq == [p]
    ensures Step(Step(Step(s, Finish(p)), ReapRx), ReapTx) ==
      s.(descs := s.descs[p := Free], rxq := [], txq := [],
         releasers := s.releasers[s.descs[p].req := Releaser(p, false)])
  {
    var d, s1 := s.descs[p], Step(s, Finish(p));
    assert s1 == s.(descs := s.descs[p := d.(refs := 2, phase := Submitted)]);
    var s2 := Step(s1, ReapRx);
    assert s2.descs == s.descs[p := d.(refs := 1, phase := Submitted)];
    assert s2.descs[p := Free] == s.descs[p := Free];
  }

  /** Once its callback is stored, such a request comes to its release. */
  lemma SubmissionReleases(s: State, p: Ptr)
    requires AtPhase(s, p, Stored) && s.descs[p].refs == 1 && s.descs[p].req !in s.releasers
    requires s.rxq == [] && s.txq == []
    ensures RunOf(s, Submission(p)) ==
      s.(descs := s.descs[p := Free], releasers := s.releasers[s.descs[p].req := Releaser(p, false)])
  {
    RunFive(s, SubmitRx(p, 1), SubmitTx(p, 1), Finish(p), ReapRx, ReapTx);
    QueueSteps(s, p);
    hide RunOf, Step;
    var s2 := Step(Step(s, SubmitRx(p, 1)), SubmitTx(p, 1));
    PutSteps(s2, p);
    assert s2.descs[p := Free] == s.descs[p := Free];
  }

  lemma RunFour(s: State, a: Op, b: Op, c: Op, d: Op)
    ensures RunOf(s, [a, b, c, d]) == Step(Step(Step(Step(s, a), b), c), d)
  {
    hide Step;
    var s1, s2, s3 := Step(s, a), Step(Step(s, a), b), Step(Step(Step(s, a), b), c);
    RunCons(s, a, [b, c, d]);
    RunCons(s1, b, [c, d]);
    RunCons(s2, c, [d]);
    RunCons(s3, d, []);
    assert [a] + [b, c, d] == [a, b, c, d] && [b] + [c, d] == [b, c, d] && [c] + [d] == [c, d] && [d] + [] == [d];
  }

  lemma RunTwo(s: State, a: Op, b: Op)
    ensures RunOf(s, [a, b]) == Step(Step(s, a), b)
  {
    hide Step;
    RunCons(s, a, [b]);
    RunCons(Step(s, a), b, []);
    assert [a] + [b] == [a, b] && [b] + [] == [b];
  }

  /** The first request is released; nobody has read its callback yet. */
  function Released(p: Ptr): State {
    State(map[p := Free], map[p := Of(0)], [], [], map[0 := Releaser(p, false)], [p], [0], false)
  }

  function First(p: Ptr): seq<Op> {
    [Take(p), Clean(p)] + [Store(p)] + Submission(p)
  }

  lemma FirstReleases(p: Ptr)
    ensures RunOf(START, First(p)) == Released(p)
  {
    var s1 := Step(Step(START, Take(p)), Clean(p));
    RunTwo(START, Take(p), Clean(p));
    var s := Step(s1, Store(p));
    assert s == State(map[p := Live(0, 1, Stored)], map[p := Of(0)], [], [], map[], [p], [0], false);
    RunCons(s1, Store(p), []);
    assert [Store(p)] + [] == [Store(p)];
    hide Step;
    RunConcat(START, [Take(p), Clean(p)], [Store(p)]);
    RunConcat(START, [Take(p), Clean(p)] + [Store(p)], Submission(p));
    SubmissionReleases(s, p);
  }

  /** After the first release, `mid` up to where the second request has stored its callback, and its submission. */
  function Second(p: Ptr, mid: seq<Op>): seq<Op> {
    First(p) + mid + Submission(p)
  }

  lemma SecondReleases(p: Ptr, mid: seq<Op>, s: State)
    requires RunOf(Released(p), mid) == s && AtPhase(s, p, Stored) && s.descs[p] == Live(1, 1, Stored)
    requires 1 !in s.releasers && s.rxq == [] && s.txq == []
    ensures RunOf(START, Second(p, mid)) ==
      s.(descs := s.descs[p := Free], releasers := s.releasers[1 := Releaser(p, false)])
  {
    hide Step, RunOf;
    FirstReleases(p);
    RunConcat(START, First(p), mid);
    RunConcat(START, First(p) + mid, Submission(p));
    SubmissionReleases(s, p);
  }

  /** The second request is released, its callback still there, and the first one is done. */
  lemma Ends(p: Ptr, mid: seq<Op>, first: nat)
    requires RunOf(Released(p), mid) ==
      State(map[p := Live(1, 1, Stored)], map[p := Of(1)], [], [], map[], [p, p], [first, 0], false)
    ensures var s := RunOf(START, Second(p, mid) + [RunCallback(1), ClearCallback(1)]);
      Quiet(s) && s.runs == [first, 1]
  {
    SecondReleases(p, mid, RunOf(Released(p), mid));
    var s := RunOf(START, Second(p, mid));
    RunConcat(START, Second(p, mid), [RunCallback(1), ClearCallback(1)]);
    RunTwo(s, RunCallback(1), ClearCallback(1));
    hide RunOf;
    assert s == State(map[p := Free], map[p := Of(1)], [], [], map[1 := Releaser(p, false)], [p, p], [first, 0], false);
    assert Step(s, RunCallback(1)) == s.(runs := [first, 1], releasers := map[1 := Releaser(p, true)]);
  }

  /** Taken before the callback is read: the first request's callback never runs. */
  lemma FirstWindow(p: Ptr)
    ensures var mid := [Take(p), Clean(p), RunCallback(0), Store(p)];
      var s := RunOf(START, Second(p, mid) + [RunCallback(1), ClearCallback(1)]);
      Quiet(s) && s.runs == [0, 1]
  {
    var mid, r := [Take(p), Clean(p), RunCallback(0), Store(p)], Released(p);
    RunFour(r, Take(p), Clean(p), RunCallback(0), Store(p));
    hide RunOf;
    assert Step(Step(r, Take(p)), Clean(p)) ==
      r.(descs := map[p := Live(1, 1, Cleared)], field := map[p := None], home := [p, p], runs := [0, 0]);
    assert RunOf(r, mid) ==
      State(map[p := Live(1, 1, Stored)], map[p := Of(1)], [], [], map[], [p, p], [0, 0], false);
    Ends(p, mid, 0);
  }

  /** The first request's callback has run, and the descriptor is taken and cleared before its field is. */
  function Retaken(p: Ptr): State {
    State(map[p := Live(1, 1, Cleared)], map[p := None], [], [], map[0 := Releaser(p, true)], [p, p], [1, 0], false)
  }

  lemma Retakes(p: Ptr)
    ensures Step(Step(Step(Released(p), RunCallback(0)), Take(p)), Clean(p)) == Retaken(p)
  {
    assert Step(Released(p), RunCallback(0)) ==
      State(map[p := Free], map[p := Of(0)], [], [], map[0 := Releaser(p, true)], [p], [1], false);
  }

  lemma RunNone(s: State)
    ensures RunOf(s, []) == s
  {
  }

  lemma ErasesStored(p: Ptr)
    ensures Step(Step(Retaken(p), Store(p)), ClearCallback(0)) ==
      State(map[p := Live(1, 1, Stored)], map[p := None], [], [], map[], [p, p], [1, 0], false)
  {
  }

  lemma StoresErased(p: Ptr)
    ensures Step(Step(Retaken(p), ClearCallback(0)), Store(p)) ==
      State(map[p := Live(1, 1, Stored)], map[p := Of(1)], [], [], map[], [p, p], [1, 0], false)
  {
  }

  /** Taken after the callback has run, but before its field is cleared: the second request's callback never runs. */
  lemma SecondWindow(p: Ptr)
    ensures var mid := [RunCallback(0), Take(p), Clean(p), Store(p), ClearCallback(0)];
      var s := RunOf(START, Second(p, mid) + [RunCallback(1)]);
      Quiet(s) && s.runs == [1, 0]
  {
    var mid := [RunCallback(0), Take(p), Clean(p), Store(p), ClearCallback(0)];
    hide RunOf, Step;
    RunFive(Released(p), RunCallback(0), Take(p), Clean(p), Store(p), ClearCallback(0));
    Retakes(p);
    ErasesStored(p);
    SecondEnds(p, mid);
  }

  /** The second request is released, its callback gone. */
  lemma SecondEnds(p: Ptr, mid: seq<Op>)
    requires RunOf(Released(p), mid) ==
      State(map[p := Live(1, 1, Stored)], map[p := None], [], [], map[], [p, p], [1, 0], false)
    ensures var s := RunOf(START, Second(p, mid) + [RunCallback(1)]); Quiet(s) && s.runs == [1, 0]
  {
    hide RunOf;
    SecondReleases(p, mid, RunOf(Released(p), mid));
    var s := RunOf(START, Second(p, mid));
    RunConcat(START, Second(p, mid), [RunCallback(1)]);
    RunCons(s, RunCallback(1), []);
    assert [RunCallback(1)] + [] == [RunCallback(1)];
    RunNone(Step(s, RunCallback(1)));
    assert s == State(map[p := Free], map[p := None], [], [], map[1 := Releaser(p, false)], [p, p], [1, 0], false);
  }

  /** Taken in the same window, but with the field cleared before the second request stores: nothing is lost. */
  lemma HarmlessTake(p: Ptr)
    ensures var mid := [RunCallback(0), Take(p), Clean(p), ClearCallback(0), Store(p)];
      var s := RunOf(START, Second(p, mid) + [RunCallback(1), ClearCallback(1)]);
      Quiet(s) && s.runs == [1, 1]
  {
    var mid := [RunCallback(0), Take(p), Clean(p), ClearCallback(0), Store(p)];
    hide RunOf, Step;
    RunFive(Released(p), RunCallback(0), Take(p), Clean(p), ClearCallback(0), Store(p));
    Retakes(p);
    StoresErased(p);
    Ends(p, mid, 1);
  }

  /** A submission that takes the descriptor and stores its callback in time has it run at once, before its own BDs
      are even queued. */
  lemma CallbackRunsEarly(p: Ptr)
    ensures var s := RunOf(START, First(p) + [Take(p), Clean(p), Store(p), RunCallback(0)]);
      s.runs == [0, 1] && AtPhase(s, p, Stored) && s.descs[p].req == 1
  {
    FirstReleases(p);
    RunConcat(START, First(p), [Take(p), Clean(p), Store(p), RunCallback(0)]);
    RunFour(Released(p), Take(p), Clean(p), Store(p), RunCallback(0));
    hide RunOf;
    assert Step(Step(Released(p), Take(p)), Clean(p)) ==
      State(map[p := Live(1, 1, Cleared)], map[p := None], [], [], map[0 := Releaser(p, false)],
            [p, p], [0, 0], false);
  }
}
