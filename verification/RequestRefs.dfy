/** Reference counting of AES requests across the two rings, and the life of their callbacks.

    A request holds one reference while it is being submitted and one for each BD that carries its address. The last
    put releases the descriptor: it goes onto the free list first, and only then does its releaser read the callback
    field, run what is there and clear the field. Meanwhile another submission may take the descriptor, which clears
    it, and store its own callback. The steps are the sections done under one lock and the accesses to the callback
    field: they interleave in any order. A ring is the queue of the addresses its BDs carry, in the order they are
    handed back. */
module RequestRefs {
  import opened RingAddress

  type Ptr = U32

  /** How far the submission of a request has come: its descriptor is taken from the free list, cleared, given the
      callback, queued on both rings, and left to the rings. */
  datatype Phase = Grabbed | Cleared | Stored | RxQueued | TxQueued | Submitted

  datatype Desc = Free | Live(req: nat, refs: int, phase: Phase)

  datatype Callback = None | Of(req: nat)

  /** A context inside aes_free_desc: it has released descriptor p, and may have read the callback field. */
  datatype Releaser = Releaser(p: Ptr, read: bool)

  /** `field` holds the callback fields, `releasers` the contexts inside aes_free_desc by the request they release.
      `home` and `runs` tell for each request so far which descriptor it was given and how often its callback has
      run; `broken` is set by a put on a free descriptor. */
  datatype State = State(descs: map<Ptr, Desc>, field: map<Ptr, Callback>, rxq: seq<Ptr>, txq: seq<Ptr>,
                         releasers: map<nat, Releaser>, home: seq<Ptr>, runs: seq<nat>, broken: bool)

  datatype Op =
    | Take(p: Ptr)
    | Clean(p: Ptr)
    | Store(p: Ptr)
    | SubmitRx(p: Ptr, n: nat)
    | SubmitTx(p: Ptr, n: nat)
    | Finish(p: Ptr)
    | ReapRx
    | ReapTx
    | RunCallback(req: nat)
    | ClearCallback(req: nat)

  predicate IsLive(s: State, p: Ptr) {
    p in s.descs && s.descs[p].Live?
  }

  predicate AtPhase(s: State, p: Ptr, phase: Phase) {
    IsLive(s, p) && s.descs[p].phase == phase
  }

  function Field(s: State, p: Ptr): Callback {
    if p in s.field then s.field[p] else None
  }

  /** kref_put: the last one puts the descriptor onto the free list; its context goes on as releaser. */
  function Put(s: State, p: Ptr): State {
    if !IsLive(s, p) || s.descs[p].req in s.releasers then s.(broken := true)
    else
      var d := s.descs[p];
      if d.refs == 1 then s.(descs := s.descs[p := Free], releasers := s.releasers[d.req := Releaser(p, false)])
      else s.(descs := s.descs[p := d.(refs := d.refs - 1)])
  }

  function Copies(p: Ptr, n: nat): (c: seq<Ptr>)
    ensures |c| == n
  {
    if n == 0 then [] else [p] + Copies(p, n - 1)
  }

  function Move(s: State, p: Ptr, phase: Phase): State
    requires IsLive(s, p)
  {
    s.(descs := s.descs[p := s.descs[p].(phase := phase)])
  }

  function Hold(s: State, p: Ptr, n: nat, phase: Phase): State
    requires IsLive(s, p)
  {
    s.(descs := s.descs[p := s.descs[p].(refs := s.descs[p].refs + n, phase := phase)])
  }

  function Step(s: State, op: Op): State {
    match op
    case Take(p) =>
      if IsLive(s, p) then s
      else s.(descs := s.descs[p := Live(|s.runs|, 1, Grabbed)], home := s.home + [p], runs := s.runs + [0])
    case Clean(p) =>
      if !AtPhase(s, p, Grabbed) then s else Move(s, p, Cleared).(field := s.field[p := None])
    case Store(p) =>
      if !AtPhase(s, p, Cleared) then s else Move(s, p, Stored).(field := s.field[p := Of(s.descs[p].req)])
    case SubmitRx(p, n) =>
      if !AtPhase(s, p, Stored) || n == 0 then s else Hold(s, p, n, RxQueued).(rxq := s.rxq + Copies(p, n))
    case SubmitTx(p, n) =>
      if !AtPhase(s, p, RxQueued) || n == 0 then s else Hold(s, p, n, TxQueued).(txq := s.txq + Copies(p, n))
    case Finish(p) => if !AtPhase(s, p, TxQueued) then s else Put(Move(s, p, Submitted), p)
    case ReapRx => if s.rxq == [] then s else Put(s.(rxq := s.rxq[1..]), s.rxq[0])
    case ReapTx => if s.txq == [] then s else Put(s.(txq := s.txq[1..]), s.txq[0])
    case RunCallback(q) => if q !in s.releasers || s.releasers[q].read then s else ReadField(s, q)
    case ClearCallback(q) => if q !in s.releasers || !s.releasers[q].read then s else ClearField(s, q)
  }

  /** The releaser of q runs what the field holds; without a callback there it is done. */
  function ReadField(s: State, q: nat): State
    requires q in s.releasers
  {
    var r := s.releasers[q];
    var cb := Field(s, r.p);
    if cb == None then s.(releasers := s.releasers - {q})
    else if cb.req >= |s.runs| then s.(broken := true)
    else s.(runs := s.runs[cb.req := s.runs[cb.req] + 1], releasers := s.releasers[q := r.(read := true)])
  }

  function ClearField(s: State, q: nat): State
    requires q in s.releasers
  {
    s.(field := s.field[s.releasers[q].p := None], releasers := s.releasers - {q})
  }

  // ---------- Counting ----------

  ghost function Count(q: seq<Ptr>, p: Ptr): nat {
    if q == [] then 0 else (if q[0] == p then 1 else 0) + Count(q[1..], p)
  }

  lemma {:induction false} CountConcat(a: seq<Ptr>, b: seq<Ptr>, p: Ptr)
    ensures Count(a + b, p) == Count(a, p) + Count(b, p)
  {
    if a == [] {
      assert a + b == b;
    } else {
      assert (a + b)[1..] == a[1..] + b;
      CountConcat(a[1..], b, p);
    }
  }

  lemma {:induction false} CountCopies(p: Ptr, n: nat, x: Ptr)
    ensures Count(Copies(p, n), x) == if x == p then n else 0
  {
    if n > 0 {
      assert Copies(p, n)[1..] == Copies(p, n - 1);
      CountCopies(p, n - 1, x);
    }
  }

  // ---------- Reference counts ----------

  /** BDs of p that have not been reaped, and one for a submission not yet finished. */
  ghost function Holders(s: State, p: Ptr): nat {
    Count(s.rxq, p) + Count(s.txq, p) + if IsLive(s, p) && s.descs[p].phase != Submitted then 1 else 0
  }

  /** The reference count of a descriptor in use is the number of its holders, at least one; a free one has none. */
  ghost predicate Right(s: State, p: Ptr) {
    if IsLive(s, p) then s.descs[p].refs == Holders(s, p) > 0 else Count(s.rxq, p) == 0 && Count(s.txq, p) == 0
  }

  ghost predicate Counted(s: State) {
    !s.broken && forall p: Ptr :: Right(s, p)
  }

  /** The descriptor of request q is still in use for it. */
  ghost predicate InUse(s: State, q: nat)
    requires q < |s.home|
  {
    IsLive(s, s.home[q]) && s.descs[s.home[q]].req == q
  }

  /** Every descriptor in use, every releaser and every stored callback belongs to the request it names, and a request
      being released is no longer in use. */
  ghost predicate Owned(s: State) {
    && |s.home| == |s.runs|
    && (forall p :: IsLive(s, p) ==> s.descs[p].req < |s.runs| && s.home[s.descs[p].req] == p)
    && (forall q :: q in s.releasers ==> q < |s.runs| && s.home[q] == s.releasers[q].p && !InUse(s, q))
    && (forall p: Ptr :: Field(s, p).Of? ==> Field(s, p).req < |s.runs| && s.home[Field(s, p).req] == p)
  }

  ghost predicate Inv(s: State) {
    Counted(s) && Owned(s)
  }

  // ---------- Steps ----------

  /** The count of p is right after a put on s0, and that of every other descriptor is right already. */
  ghost predicate OneTooMany(s0: State, p: Ptr) {
    && !s0.broken && IsLive(s0, p) && s0.descs[p].refs == Holders(s0, p) + 1
    && forall x: Ptr :: x != p ==> Right(s0, x)
  }

  lemma PutCounts(s0: State, p: Ptr)
    requires OneTooMany(s0, p) && Owned(s0)
    ensures Counted(Put(s0, p))
  {
    hide Count;
    var s := Put(s0, p);
    forall x: Ptr ensures Right(s, x) {
      assert x == p || Right(s0, x);
    }
  }

  /** A step that changes descriptor p without releasing it, and perhaps its callback field. */
  lemma SameRequest(s: State, s': State, p: Ptr)
    requires Owned(s) && IsLive(s, p) && IsLive(s', p) && s'.descs[p].req == s.descs[p].req
    requires s' == s.(descs := s.descs[p := s'.descs[p]], field := s'.field, rxq := s'.rxq, txq := s'.txq)
    requires s'.field == s.field || s'.field == s.field[p := None] || s'.field == s.field[p := Of(s.descs[p].req)]
    ensures Owned(s')
  {
    forall x: Ptr | Field(s', x).Of? ensures Field(s', x).req < |s.runs| && s.home[Field(s', x).req] == x {
      assert Field(s', x) == Field(s, x) || x == p;
    }
  }

  lemma PutOwned(s0: State, p: Ptr)
    requires Owned(s0) && IsLive(s0, p)
    ensures Owned(Put(s0, p))
  {
    var s := Put(s0, p);
    if s0.descs[p].refs != 1 {
      SameRequest(s0, s, p);
    } else {
      assert forall x: Ptr :: Field(s, x) == Field(s0, x);
    }
  }

  lemma TakeKeeps(s: State, p: Ptr)
    requires Inv(s) && !IsLive(s, p)
    ensures Inv(Step(s, Take(p)))
  {
    hide Count;
    var s' := Step(s, Take(p));
    assert forall x: Ptr :: Right(s, x) ==> Right(s', x);
    assert forall x: Ptr :: Field(s', x) == Field(s, x);
  }

  lemma MoveKeeps(s: State, op: Op)
    requires Inv(s) && (op.Clean? || op.Store?)
    ensures Inv(Step(s, op))
  {
    hide Count;
    var s' := Step(s, op);
    if s' != s {
      SameRequest(s, s', op.p);
      assert forall x: Ptr :: Right(s, x) ==> Right(s', x);
    }
  }

  lemma QueueKeeps(s: State, op: Op)
    requires Inv(s) && (op.SubmitRx? || op.SubmitTx?)
    ensures Inv(Step(s, op))
  {
    hide Count, Copies;
    var s' := Step(s, op);
    if s' != s {
      SameRequest(s, s', op.p);
      hide Owned;
      forall x: Ptr ensures Right(s', x) {
        assert Right(s, x);
        CountConcat(s.rxq, Copies(op.p, op.n), x);
        CountConcat(s.txq, Copies(op.p, op.n), x);
        CountCopies(op.p, op.n, x);
      }
    }
  }

  lemma FinishKeeps(s: State, p: Ptr)
    requires Inv(s)
    ensures Inv(Step(s, Finish(p)))
  {
    hide Count;
    if AtPhase(s, p, TxQueued) {
      var s0 := Move(s, p, Submitted);
      SameRequest(s, s0, p);
      assert Right(s, p);
      forall x: Ptr | x != p ensures Right(s0, x) {
        assert Right(s, x);
      }
      PutCounts(s0, p);
      PutOwned(s0, p);
    }
  }

  lemma ReapKeeps(s: State, op: Op)
    requires Inv(s) && (op.ReapRx? || op.ReapTx?)
    ensures Inv(Step(s, op))
  {
    hide Count;
    var q := if op.ReapRx? then s.rxq else s.txq;
    if q != [] {
      var p := q[0];
      var s0 := if op.ReapRx? then s.(rxq := q[1..]) else s.(txq := q[1..]);
      assert Right(s, p);
      CountHead(q, p);
      forall x: Ptr | x != p ensures Right(s0, x) {
        assert Right(s, x);
        CountHead(q, x);
      }
      SameRequest(s, s0, p);
      PutCounts(s0, p);
      PutOwned(s0, p);
    }
  }

  lemma CountHead(q: seq<Ptr>, p: Ptr)
    requires q != []
    ensures Count(q, p) == Count(q[1..], p) + if q[0] == p then 1 else 0
  {
  }

  lemma ReleaserKeeps(s: State, op: Op)
    requires Inv(s) && (op.RunCallback? || op.ClearCallback?)
    ensures Inv(Step(s, op))
  {
    hide Count;
    var s' := Step(s, op);
    assert forall x: Ptr :: Right(s, x) ==> Right(s', x);
    assert forall x: Ptr :: Field(s', x) == Field(s, x) || Field(s', x) == None;
  }

  lemma StepKeeps(s: State, op: Op)
    requires Inv(s)
    ensures Inv(Step(s, op))
  {
    hide Inv, Put, ReadField, ClearField;
    match op
    case Take(p) => if !IsLive(s, p) { TakeKeeps(s, p); }
    case Clean(_) => MoveKeeps(s, op);
    case Store(_) => MoveKeeps(s, op);
    case SubmitRx(_, _) => QueueKeeps(s, op);
    case SubmitTx(_, _) => QueueKeeps(s, op);
    case Finish(p) => FinishKeeps(s, p);
    case ReapRx => ReapKeeps(s, op);
    case ReapTx => ReapKeeps(s, op);
    case RunCallback(_) => ReleaserKeeps(s, op);
    case ClearCallback(_) => ReleaserKeeps(s, op);
  }

  // ---------- Every interleaving ----------

  function RunOf(s: State, ops: seq<Op>): State
    decreases |ops|
  {
    if ops == [] then s else RunOf(Step(s, ops[0]), ops[1..])
  }

  lemma {:induction false} InvInEveryRun(s: State, ops: seq<Op>)
    requires Inv(s)
    ensures Inv(RunOf(s, ops))
    decreases |ops|
  {
    hide Inv, Step;
    if ops != [] {
      StepKeeps(s, ops[0]);
      InvInEveryRun(Step(s, ops[0]), ops[1..]);
    }
  }

  const START := State(map[], map[], [], [], map[], [], [], false)

  lemma StartHolds()
    ensures Inv(START)
  {
  }

  /** In every interleaving no put meets a free descriptor, and the reference count of every request in use is one
      for an unfinished submission plus its BDs on both rings. */
  lemma CountsInEveryRun(ops: seq<Op>, p: Ptr)
    ensures var s := RunOf(START, ops);
      && !s.broken && (IsLive(s, p) ==> s.descs[p].refs == Holders(s, p) > 0)
      && (!IsLive(s, p) ==> Count(s.rxq, p) == 0 && Count(s.txq, p) == 0)
  {
    hide RunOf, Count;
    StartHolds();
    InvInEveryRun(START, ops);
    assert Right(RunOf(START, ops), p);
  }

  /** The step that releases a request is the one that gives up the last hold: by then no BD of the request is on
      either ring and its submission has finished. */
  lemma ReleaseLast(s: State, op: Op, q: nat)
    requires Inv(s) && q !in s.releasers && q in Step(s, op).releasers
    ensures q < |s.home|
    ensures var p := s.home[q]; var s' := Step(s, op);
      && InUse(s, q) && !IsLive(s', p) && Count(s'.rxq, p) == 0 && Count(s'.txq, p) == 0
      && (s.descs[p].phase == Submitted || op == Finish(p))
  {
    hide Count, Put;
    StepKeeps(s, op);
    var s' := Step(s, op);
    match op
    case Finish(p) =>
      PutReleases(Move(s, p, Submitted), p, q);
      assert Right(s', p);
    case ReapRx =>
      var p := s.rxq[0];
      PutReleases(s.(rxq := s.rxq[1..]), p, q);
      CountHead(s.rxq, p);
      assert Right(s, p) && Right(s', p);
    case ReapTx =>
      var p := s.txq[0];
      PutReleases(s.(txq := s.txq[1..]), p, q);
      CountHead(s.txq, p);
      assert Right(s, p) && Right(s', p);
    case _ =>
  }

  lemma PutReleases(s: State, p: Ptr, q: nat)
    requires q !in s.releasers && q in Put(s, p).releasers
    ensures IsLive(s, p) && s.descs[p].req == q && s.descs[p].refs == 1 && !IsLive(Put(s, p), p)
  {
  }
}
