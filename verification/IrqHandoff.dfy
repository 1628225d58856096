/** The handoff of completed packets from interrupt handlers to the bottom half of the AES driver.

    Handlers run in several contexts at once (the interrupt itself and the poll timer), on several devices that share
    one list. A handler reads the status register, acknowledges what it has read and then, under the lock of the list,
    queues its device. The bottom half takes devices off the list and drains their rings. The engine completes packets
    at any time; an event covers the packets completed so far. */
module IrqHandoff {
  datatype Handler = Idle | HasRead(d: nat, saw: bool) | HasAcked(d: nat, saw: bool)

  /** `Drained` is after the scan that found nothing more, and before interrupts are enabled again. */
  datatype BottomHalf = Off | Looking | Draining(d: nat) | Drained(d: nat)

  /** Per device: packets completed, covered by an event, acknowledged and reaped so far, whether an event is pending
      in the status register, and whether interrupts are enabled. */
  datatype Device = Device(completed: nat, covered: nat, acked: nat, reaped: nat, pending: bool, enabled: bool)

  datatype State = State(devs: seq<Device>, handlers: seq<Handler>, list: seq<nat>, scheduled: bool, bh: BottomHalf)

  datatype Op =
    | Complete(d: nat)
    | Event(d: nat)
    | Read(c: nat, d: nat)
    | Ack(c: nat)
    | Enqueue(c: nat)
    | ErrorReturn(c: nat)
    | Start
    | Pop
    | Reap
    | LastScan
    | EnableIrq

  function SetDev(s: State, d: nat, v: Device): State
    requires d < |s.devs|
  {
    s.(devs := s.devs[d := v])
  }

  function SetHandler(s: State, c: nat, h: Handler): State
    requires c < |s.handlers|
  {
    s.(handlers := s.handlers[c := h])
  }

  function Step(s: State, op: Op): State {
    match op
    case Complete(d) =>
      if d >= |s.devs| then s else SetDev(s, d, s.devs[d].(completed := s.devs[d].completed + 1))
    case Event(d) =>
      if d >= |s.devs| then s else SetDev(s, d, s.devs[d].(covered := s.devs[d].completed, pending := true))
    case Read(c, d) =>
      if c >= |s.handlers| || d >= |s.devs| || s.handlers[c] != Idle then s
      else SetHandler(s, c, HasRead(d, s.devs[d].pending))
    case Ack(c) =>
      if c >= |s.handlers| || !s.handlers[c].HasRead? || s.handlers[c].d >= |s.devs| then s
      else
        var d, saw := s.handlers[c].d, s.handlers[c].saw;
        var s' := SetHandler(s, c, HasAcked(d, saw));
        if saw then SetDev(s', d, s.devs[d].(pending := false, acked := s.devs[d].covered)) else s'
    case Enqueue(c) =>
      if c >= |s.handlers| || !s.handlers[c].HasAcked? || s.handlers[c].d >= |s.devs| then s
      else
        var d, saw := s.handlers[c].d, s.handlers[c].saw;
        var s' := SetHandler(s, c, Idle);
        if saw && d !in s.list then
          SetDev(s', d, s.devs[d].(enabled := false)).(list := s.list + [d], scheduled := true)
        else s'
    case ErrorReturn(c) =>
      if c >= |s.handlers| || !s.handlers[c].HasAcked? then s else SetHandler(s, c, Idle)
    case Start => if s.scheduled && s.bh == Off then s.(scheduled := false, bh := Looking) else s
    case Pop =>
      if s.bh != Looking then s
      else if s.list == [] then s.(bh := Off)
      else s.(bh := Draining(s.list[0]), list := s.list[1..])
    case Reap =>
      if !s.bh.Draining? || s.bh.d >= |s.devs| then s
      else SetDev(s, s.bh.d, s.devs[s.bh.d].(reaped := s.devs[s.bh.d].completed))
    case LastScan =>
      if !s.bh.Draining? || s.bh.d >= |s.devs| || s.devs[s.bh.d].reaped != s.devs[s.bh.d].completed then s
      else s.(bh := Drained(s.bh.d))
    case EnableIrq =>
      if !s.bh.Drained? || s.bh.d >= |s.devs| then s
      else SetDev(s, s.bh.d, s.devs[s.bh.d].(enabled := true)).(bh := Looking)
  }

  // ---------- The invariant ----------

  /** The device is on the list or being drained. */
  ghost predicate Attended(s: State, d: nat) {
    d in s.list || s.bh == Draining(d)
  }

  /** Some handler has acknowledged an event of the device and is about to queue it. */
  ghost predicate AboutToQueue(s: State, d: nat) {
    exists c :: 0 <= c < |s.handlers| && s.handlers[c] == HasAcked(d, true)
  }

  /** Every acknowledged packet is reaped or somebody will see to it. */
  ghost predicate NotStranded(s: State, d: nat)
    requires d < |s.devs|
  {
    s.devs[d].acked <= s.devs[d].reaped || AboutToQueue(s, d) || Attended(s, d)
  }

  ghost predicate Ordered(v: Device) {
    v.acked <= v.covered <= v.completed && v.reaped <= v.completed
  }

  ghost predicate Inv(s: State) {
    && (forall d :: 0 <= d < |s.devs| ==> Ordered(s.devs[d]) && NotStranded(s, d))
    && (forall d :: 0 <= d < |s.devs| && !s.devs[d].enabled ==> Attended(s, d) || s.bh == Drained(d))
    && (forall i, j :: 0 <= i < j < |s.list| ==> s.list[i] != s.list[j])
    && (forall i :: 0 <= i < |s.list| ==> s.list[i] < |s.devs|)
    && (s.list != [] ==> s.scheduled || s.bh != Off)
    && (s.bh.Draining? || s.bh.Drained? ==> s.bh.d < |s.devs|)
  }

  /** A handler about to queue a device stays so until it has queued it. */
  lemma HandlerKeeps(s: State, op: Op, d: nat)
    requires d < |s.devs| && AboutToQueue(s, d) && !op.ErrorReturn?
    ensures AboutToQueue(Step(s, op), d) || d in Step(s, op).list
  {
    var c :| 0 <= c < |s.handlers| && s.handlers[c] == HasAcked(d, true);
    var s' := Step(s, op);
    if op == Enqueue(c) {
      assert d in s'.list;
    } else {
      assert s'.handlers[c] == s.handlers[c];
    }
  }

  lemma AckAnnounces(s: State, op: Op, d: nat)
    requires op.Ack? && d < |s.devs| && Step(s, op).devs[d] != s.devs[d]
    ensures AboutToQueue(Step(s, op), d)
  {
    assert Step(s, op).handlers[op.c] == HasAcked(d, true);
  }

  lemma StrandsNone(s: State, op: Op, d: nat)
    requires Inv(s) && !op.ErrorReturn? && d < |s.devs|
    ensures d < |Step(s, op).devs| && Ordered(Step(s, op).devs[d]) && NotStranded(Step(s, op), d)
  {
    assert Ordered(s.devs[d]) && NotStranded(s, d);
    var s' := Step(s, op);
    if AboutToQueue(s, d) {
      HandlerKeeps(s, op, d);
    } else if op.Ack? && s'.devs[d] != s.devs[d] {
      AckAnnounces(s, op, d);
    } else if Attended(s, d) {
      AttendedKeeps(s, op, d);
    }
    hide AboutToQueue;
  }

  lemma AttendedKeeps(s: State, op: Op, d: nat)
    requires d < |s.devs| && Attended(s, d)
    ensures Attended(Step(s, op), d) || (s.devs[d].reaped == s.devs[d].completed && op == LastScan)
  {
    if op == Pop && s.list != [] && d in s.list {
      assert s.list == [s.list[0]] + s.list[1..];
    }
  }

  lemma StepKeeps(s: State, op: Op)
    requires Inv(s) && !op.ErrorReturn?
    ensures Inv(Step(s, op))
  {
    var s' := Step(s, op);
    forall d | 0 <= d < |s'.devs| ensures Ordered(s'.devs[d]) && NotStranded(s', d) {
      StrandsNone(s, op, d);
    }
    forall d | 0 <= d < |s'.devs| && !s'.devs[d].enabled ensures Attended(s', d) || s'.bh == Drained(d) {
      if Attended(s, d) { AttendedKeeps(s, op, d); }
    }
    ListKeeps(s, op);
  }

  lemma ListKeeps(s: State, op: Op)
    requires Inv(s)
    ensures var s' := Step(s, op);
      && (forall i, j :: 0 <= i < j < |s'.list| ==> s'.list[i] != s'.list[j])
      && (forall i :: 0 <= i < |s'.list| ==> s'.list[i] < |s'.devs|)
      && (s'.list != [] ==> s'.scheduled || s'.bh != Off)
      && (s'.bh.Draining? || s'.bh.Drained? ==> s'.bh.d < |s'.devs|)
  {
    hide NotStranded, Ordered, Attended;
  }

  // ---------- Every interleaving ----------

  function RunOf(s: State, ops: seq<Op>): State
    decreases |ops|
  {
    if ops == [] then s else RunOf(Step(s, ops[0]), ops[1..])
  }

  ghost predicate NoErrors(ops: seq<Op>) {
    forall i :: 0 <= i < |ops| ==> !ops[i].ErrorReturn?
  }

  lemma {:induction false} InvInEveryRun(s: State, ops: seq<Op>)
    requires Inv(s) && NoErrors(ops)
    ensures Inv(RunOf(s, ops))
    decreases |ops|
  {
    hide Inv, Step;
    if ops != [] {
      StepKeeps(s, ops[0]);
      InvInEveryRun(Step(s, ops[0]), ops[1..]);
    }
  }

  /** n devices that have not done anything yet, and m contexts in which handlers run. */
  function Quiet(n: nat, m: nat): State {
    State(seq(n, _ => Device(0, 0, 0, 0, false, true)), seq(m, _ => Idle), [], false, Off)
  }

  /** In every interleaving without error interrupts, an acknowledged packet is reaped, or a handler is about to queue
      its device, or the device is on the list, just once, or being drained; while anything is on the list the bottom
      half runs or is scheduled; and interrupts are disabled only for a device whose drain will enable them. */
  lemma NothingStranded(n: nat, m: nat, ops: seq<Op>, d: nat)
    requires NoErrors(ops) && d < |RunOf(Quiet(n, m), ops).devs|
    ensures var s := RunOf(Quiet(n, m), ops);
      && (s.devs[d].acked <= s.devs[d].reaped || AboutToQueue(s, d) || Attended(s, d))
      && (forall i, j :: 0 <= i < j < |s.list| ==> s.list[i] != s.list[j])
      && (s.list != [] ==> s.scheduled || s.bh != Off)
      && (!s.devs[d].enabled ==> Attended(s, d) || s.bh == Drained(d))
  {
    hide RunOf;
    assert Inv(Quiet(n, m));
    InvInEveryRun(Quiet(n, m), ops);
    assert NotStranded(RunOf(Quiet(n, m), ops), d);
  }

  // ---------- The bottom half gets there ----------

  /** What the bottom half does with the device at the head of the list. */
  const DRAIN := [Pop, Reap, LastScan, EnableIrq]

  /** The bottom half finishes with the device it is at, or begins. */
  function Settle(bh: BottomHalf): seq<Op> {
    match bh
    case Off => [Start]
    case Looking => []
    case Draining(_) => [Reap, LastScan, EnableIrq]
    case Drained(_) => [EnableIrq]
  }

  function Drains(n: nat): seq<Op> {
    if n == 0 then [] else DRAIN + Drains(n - 1)
  }

  /** The device has nothing left to reap, and interrupts are enabled. */
  ghost predicate Served(s: State, d: nat) {
    d < |s.devs| && s.devs[d].reaped == s.devs[d].completed && s.devs[d].enabled
  }

  lemma {:induction false} RunConcat(s: State, a: seq<Op>, b: seq<Op>)
    ensures RunOf(s, a + b) == RunOf(RunOf(s, a), b)
    decreases |a|
  {
    hide Step;
    if a == [] {
      assert a + b == b;
    } else {
      assert (a + b)[1..] == a[1..] + b;
      RunConcat(Step(s, a[0]), a[1..], b);
    }
  }

  lemma RunOne(s: State, a: Op)
    ensures RunOf(s, [a]) == Step(s, a)
  {
    hide Step;
    assert [a][1..] == [];
  }

  lemma RunThree(s: State, a: Op, b: Op, c: Op)
    ensures RunOf(s, [a, b, c]) == Step(Step(Step(s, a), b), c)
  {
    hide Step;
    RunOne(s, a);
    RunOne(Step(s, a), b);
    RunOne(Step(Step(s, a), b), c);
    RunConcat(s, [a], [b]);
    RunConcat(s, [a, b], [c]);
    assert [a] + [b] == [a, b] && [a, b] + [c] == [a, b, c];
  }

  lemma RunFour(s: State, a: Op, b: Op, c: Op, d: Op)
    ensures RunOf(s, [a, b, c, d]) == Step(Step(Step(Step(s, a), b), c), d)
  {
    hide Step;
    RunOne(s, a);
    RunThree(Step(s, a), b, c, d);
    RunConcat(s, [a], [b, c, d]);
    assert [a] + [b, c, d] == [a, b, c, d];
  }

  /** Draining one device reaps all its packets and enables its interrupts, and leaves everything else. */
  lemma DrainServes(s: State)
    requires s.bh == Looking && s.list != [] && s.list[0] < |s.devs|
    ensures var d := s.list[0]; var v := s.devs[d];
      RunOf(s, DRAIN) == s.(list := s.list[1..], devs := s.devs[d := v.(reaped := v.completed, enabled := true)])
  {
    hide RunOf;
    RunFour(s, Pop, Reap, LastScan, EnableIrq);
    var d := s.list[0];
    var s1 := Step(s, Pop);
    var v := s.devs[d];
    assert s1 == s.(bh := Draining(d), list := s.list[1..]);
    var s2 := Step(s1, Reap);
    assert s2 == s1.(devs := s.devs[d := v.(reaped := v.completed)]);
    assert s2.devs[d].reaped == s2.devs[d].completed;
    var s3 := Step(s2, LastScan);
    assert s3 == s2.(bh := Drained(d));
    assert s2.devs[d := s2.devs[d].(enabled := true)] == s.devs[d := v.(reaped := v.completed, enabled := true)];
  }

  /** After n devices: those are served, the rest of the list waits, and no device has lost anything. */
  lemma {:induction false} DrainsServe(s: State, n: nat)
    requires s.bh == Looking && n <= |s.list| && forall i :: 0 <= i < |s.list| ==> s.list[i] < |s.devs|
    ensures var s' := RunOf(s, Drains(n));
      && s'.bh == Looking && s'.list == s.list[n..] && |s'.devs| == |s.devs|
      && (forall i :: 0 <= i < n ==> Served(s', s.list[i]))
      && (forall d :: Served(s, d) ==> Served(s', d))
      && s'.handlers == s.handlers && s'.scheduled == s.scheduled
    decreases n
  {
    if n > 0 {
      DrainServes(s);
      var s1 := RunOf(s, DRAIN);
      RunConcat(s, DRAIN, Drains(n - 1));
      hide RunOf;
      assert forall i :: 0 <= i < |s1.list| ==> s1.list[i] == s.list[i + 1];
      DrainsServe(s1, n - 1);
      assert Served(s1, s.list[0]);
      forall i | 0 <= i < n ensures Served(RunOf(s1, Drains(n - 1)), s.list[i]) {
        if i > 0 { assert s1.list[i - 1] == s.list[i]; }
      }
    }
  }

  lemma Settles(s: State)
    requires Inv(s) && s.list != []
    ensures var s' := RunOf(s, Settle(s.bh)); s'.bh == Looking && s'.list == s.list && |s'.devs| == |s.devs|
  {
    hide NotStranded, Ordered, Attended;
    match s.bh
    case Off => RunOne(s, Start);
    case Looking =>
    case Draining(d) =>
      RunThree(s, Reap, LastScan, EnableIrq);
      var s1 := Step(s, Reap);
      assert s1.bh == Draining(d) && s1.devs[d].reaped == s1.devs[d].completed;
    case Drained(d) => RunOne(s, EnableIrq);
  }

  /** From every state of a run, with the device at position k of the list: when the bottom half has finished what it is
      at and drained k + 1 devices, all packets of the device are reaped and its interrupts enabled. */
  lemma ListedIsServed(s: State, k: nat)
    requires Inv(s) && k < |s.list|
    ensures var s' := RunOf(s, Settle(s.bh) + Drains(k + 1));
      Served(s', s.list[k]) && s'.devs[s.list[k]].acked <= s'.devs[s.list[k]].reaped
  {
    hide RunOf;
    Settles(s);
    var s1 := RunOf(s, Settle(s.bh));
    RunConcat(s, Settle(s.bh), Drains(k + 1));
    DrainsServe(s1, k + 1);
    var ops := Settle(s.bh) + Drains(k + 1);
    NoErrorDrains(k + 1);
    assert NoErrors(ops);
    InvInEveryRun(s, ops);
    assert Ordered(RunOf(s, ops).devs[s.list[k]]);
  }

  /** What is to be done until the acknowledged packets of a device are reaped: the handler that is about to queue it
      does so, or nobody has to; then the bottom half goes on until it has drained the device. */
  lemma AckedIsServed(n: nat, m: nat, ops: seq<Op>, d: nat) returns (more: seq<Op>)
    requires NoErrors(ops) && d < |RunOf(Quiet(n, m), ops).devs|
    ensures var s := RunOf(RunOf(Quiet(n, m), ops), more);
      NoErrors(more) && d < |s.devs| && s.devs[d].acked <= s.devs[d].reaped
  {
    hide RunOf;
    var s := RunOf(Quiet(n, m), ops);
    assert Inv(Quiet(n, m));
    InvInEveryRun(Quiet(n, m), ops);
    more := [];
    RunNone(s);
    if s.devs[d].acked > s.devs[d].reaped {
      assert NotStranded(s, d);
      if d in s.list {
        more := FromList(s, d);
      } else if s.bh == Draining(d) {
        more := [Reap];
        RunOne(s, Reap);
        assert Ordered(s.devs[d]);
      } else {
        var c :| 0 <= c < |s.handlers| && s.handlers[c] == HasAcked(d, true);
        var s1 := Step(s, Enqueue(c));
        StepKeeps(s, Enqueue(c));
        assert d in s1.list;
        var rest := FromList(s1, d);
        more := [Enqueue(c)] + rest;
        RunOne(s, Enqueue(c));
        RunConcat(s, [Enqueue(c)], rest);
      }
    }
  }

  lemma FromList(s: State, d: nat) returns (more: seq<Op>)
    requires Inv(s) && d in s.list
    ensures NoErrors(more)
    ensures var s' := RunOf(s, more); d < |s'.devs| && s'.devs[d].acked <= s'.devs[d].reaped
  {
    var k :| 0 <= k < |s.list| && s.list[k] == d;
    hide Inv, RunOf;
    more := Settle(s.bh) + Drains(k + 1);
    NoErrorDrains(k + 1);
    ListedIsServed(s, k);
  }

  lemma RunNone(s: State)
    ensures RunOf(s, []) == s
  {
  }

  lemma {:induction false} NoErrorDrains(n: nat)
    ensures NoErrors(Drains(n))
  {
    if n > 0 { NoErrorDrains(n - 1); }
  }

  /** A handler that has acknowledged an event queues its device, unless it is on the list already. Then interrupts are
      disabled, and the bottom half is scheduled. */
  lemma EnqueueQueues(s: State, c: nat, d: nat)
    requires c < |s.handlers| && s.handlers[c] == HasAcked(d, true) && d < |s.devs|
    ensures var s' := Step(s, Enqueue(c));
      && s'.handlers == s.handlers[c := Idle] && d in s'.list && s'.bh == s.bh
      && (d in s.list ==> s' == s.(handlers := s'.handlers))
      && (d !in s.list ==>
            && s'.list == s.list + [d] && s'.scheduled && !s'.devs[d].enabled
            && s'.devs == s.devs[d := s.devs[d].(enabled := false)])
  {
  }

  // ---------- Error interrupts ----------

  /** An acknowledged packet of d is not reaped, and nothing is under way that would lead to it. */
  ghost predicate Stranded(s: State, d: nat) {
    && d < |s.devs| && s.devs[d].acked > s.devs[d].reaped && !s.devs[d].pending && !Attended(s, d)
    && forall c :: 0 <= c < |s.handlers| ==> s.handlers[c] != HasRead(d, true) && s.handlers[c] != HasAcked(d, true)
  }

  /** A handler other than c is about to queue the device. */
  ghost predicate OtherQueues(s: State, c: nat, d: nat) {
    exists k :: 0 <= k < |s.handlers| && k != c && s.handlers[k] == HasAcked(d, true)
  }

  /** A handler that sees an error next to an event acknowledges both and returns without queueing the device. That
      strands nothing exactly when all acknowledged packets are reaped, or the device is on the list or being drained,
      or another handler is about to queue it. */
  lemma ErrorExact(s: State, c: nat, d: nat)
    requires d < |s.devs| && c < |s.handlers| && s.handlers[c].HasAcked?
    ensures NotStranded(Step(s, ErrorReturn(c)), d)
      <==> s.devs[d].acked <= s.devs[d].reaped || Attended(s, d) || OtherQueues(s, c, d)
  {
    var s' := Step(s, ErrorReturn(c));
    if OtherQueues(s, c, d) {
      var k :| 0 <= k < |s.handlers| && k != c && s.handlers[k] == HasAcked(d, true);
      assert s'.handlers[k] == HasAcked(d, true);
    }
    if AboutToQueue(s', d) {
      var k :| 0 <= k < |s'.handlers| && s'.handlers[k] == HasAcked(d, true);
      assert k != c && s.handlers[k] == HasAcked(d, true);
    }
  }

  /** The first packet of a device, with an error seen next to it, is stranded. */
  lemma ErrorStrands()
    ensures Stranded(RunOf(Quiet(1, 1), [Complete(0), Event(0), Read(0, 0), Ack(0), ErrorReturn(0)]), 0)
  {
    var s0 := Quiet(1, 1);
    var s1 := Step(Step(s0, Complete(0)), Event(0));
    assert s1.devs == [Device(1, 1, 0, 0, true, true)] && s1.handlers == [Idle];
    var s2 := Step(Step(s1, Read(0, 0)), Ack(0));
    assert s2.devs == [Device(1, 1, 1, 0, false, true)] && s2.handlers == [HasAcked(0, true)];
    var s3 := Step(s2, ErrorReturn(0));
    assert Stranded(s3, 0);
    RunFive(s0, Complete(0), Event(0), Read(0, 0), Ack(0), ErrorReturn(0));
  }

  lemma RunFive(s: State, a: Op, b: Op, c: Op, d: Op, e: Op)
    ensures RunOf(s, [a, b, c, d, e]) == Step(Step(Step(Step(Step(s, a), b), c), d), e)
  {
    hide Step;
    assert [a, b, c, d, e][1..] == [b, c, d, e] && [b, c, d, e][1..] == [c, d, e] && [c, d, e][1..] == [d, e]
        && [d, e][1..] == [e] && [e][1..] == [];
    var s1 := Step(s, a);
    assert RunOf(s, [a, b, c, d, e]) == RunOf(s1, [b, c, d, e]);
    var s2 := Step(s1, b);
    assert RunOf(s1, [b, c, d, e]) == RunOf(s2, [c, d, e]);
    var s3 := Step(s2, c);
    assert RunOf(s2, [c, d, e]) == RunOf(s3, [d, e]);
    assert RunOf(s3, [d, e]) == RunOf(Step(s3, d), [e]);
  }

  lemma StrandedStep(s: State, op: Op, d: nat)
    requires Stranded(s, d) && op != Event(d)
    ensures Stranded(Step(s, op), d) && Step(s, op).devs[d].reaped == s.devs[d].reaped
  {
  }

  /** And they stay stranded until the device raises another event. */
  lemma {:induction false} StrandedForGood(s: State, ops: seq<Op>, d: nat)
    requires Stranded(s, d) && Event(d) !in ops
    ensures Stranded(RunOf(s, ops), d) && RunOf(s, ops).devs[d].reaped == s.devs[d].reaped
    decreases |ops|
  {
    hide Step;
    if ops != [] {
      StrandedStep(s, ops[0], d);
      StrandedForGood(Step(s, ops[0]), ops[1..], d);
    }
  }
}
