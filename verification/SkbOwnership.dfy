/** Who owns the socket buffers handed to the Ethernet transmit ring.

    A packet takes one BD for its header and one for each fragment; only the BD of the header carries the address of
    the socket buffer. The bottom half frees the buffer when that BD comes back, and tearing the device down frees the
    buffers found in any BD. */
module SkbOwnership {
  import opened RingAddress
  import opened Descriptor
  import opened RingModel
  import opened RingTheorems
  import opened RingCreated
  import opened Scatter
  import opened SubmitModel
  import opened ReapModel
  import opened RingReap

  /** A packet on the ring: its socket buffer and how many BDs it takes. */
  datatype Packet = Packet(skb: U32, n: nat)

  /** The ids that name a socket buffer. */
  function NonZero(ids: seq<U32>): seq<U32> {
    if ids == [] then [] else (if ids[0] != 0 then [ids[0]] else []) + NonZero(ids[1..])
  }

  lemma {:induction false} NonZeroConcat(a: seq<U32>, b: seq<U32>)
    ensures NonZero(a + b) == NonZero(a) + NonZero(b)
  {
    if a == [] {
      assert a + b == b;
    } else {
      assert (a + b)[1..] == a[1..] + b;
      NonZeroConcat(a[1..], b);
    }
  }

  lemma {:induction false} NonZeroNone(ids: seq<U32>)
    requires forall i :: 0 <= i < |ids| ==> ids[i] == 0
    ensures NonZero(ids) == []
  {
    if ids != [] { NonZeroNone(ids[1..]); }
  }

  ghost function Skbs(packets: seq<Packet>): (s: seq<U32>)
    ensures |s| == |packets|
  {
    seq(|packets|, i requires 0 <= i < |packets| => packets[i].skb)
  }

  // ---------- Packets laid out in the hardware group ----------

  /** One packet: the buffer in the first BD alone, the end of packet on the last BD alone. */
  ghost predicate One(bds: seq<Bd>, s: seq<nat>, skb: U32) {
    SlotsIn(s, |bds|) && forall i :: 0 <= i < |s| ==>
      bds[s[i]].id == (if i == 0 then skb else 0) && (Eof(bds[s[i]], false) <==> i == |s| - 1)
  }

  ghost predicate Laid(bds: seq<Bd>, hw: seq<nat>, packets: seq<Packet>)
    decreases |packets|
  {
    if packets == [] then hw == []
    else
      var p := packets[0];
      && 0 < p.n <= |hw| && p.skb != 0 && One(bds, hw[..p.n], p.skb)
      && Laid(bds, hw[p.n..], packets[1..])
  }

  lemma {:induction false} LaidSlots(bds: seq<Bd>, hw: seq<nat>, packets: seq<Packet>)
    requires Laid(bds, hw, packets)
    ensures SlotsIn(hw, |bds|)
    decreases |packets|
  {
    hide One;
    if packets != [] {
      var n := packets[0].n;
      OneSlots(bds, hw[..n], packets[0].skb);
      LaidSlots(bds, hw[n..], packets[1..]);
      assert hw == hw[..n] + hw[n..];
    }
  }

  lemma OneSlots(bds: seq<Bd>, s: seq<nat>, skb: U32)
    requires One(bds, s, skb)
    ensures SlotsIn(s, |bds|)
  {
  }

  lemma {:induction false} LaidAppend(bds: seq<Bd>, hw: seq<nat>, packets: seq<Packet>, s: seq<nat>, p: Packet)
    requires Laid(bds, hw, packets) && One(bds, s, p.skb) && 0 < p.n == |s| && p.skb != 0
    ensures Laid(bds, hw + s, packets + [p])
    decreases |packets|
  {
    hide One;
    if packets == [] {
      assert hw + s == s && s[..p.n] == s && s[p.n..] == [] && [p][1..] == [];
    } else {
      var n := packets[0].n;
      LaidAppend(bds, hw[n..], packets[1..], s, p);
      assert (hw + s)[..n] == hw[..n] && (hw + s)[n..] == hw[n..] + s && (packets + [p])[1..] == packets[1..] + [p];
    }
  }

  /** Only ids and control words matter. */
  lemma {:induction false} LaidSame(bds: seq<Bd>, b: seq<Bd>, hw: seq<nat>, packets: seq<Packet>)
    requires Laid(bds, hw, packets) && |b| == |bds| && SlotsIn(hw, |bds|)
    requires forall i :: 0 <= i < |hw| ==> b[hw[i]].id == bds[hw[i]].id && b[hw[i]].ctrl == bds[hw[i]].ctrl
    ensures Laid(b, hw, packets)
    decreases |packets|
  {
    if packets != [] {
      var n := packets[0].n;
      OneSame(bds, b, hw[..n], packets[0].skb);
      hide One;
      LaidSame(bds, b, hw[n..], packets[1..]);
    }
  }

  lemma OneSame(bds: seq<Bd>, b: seq<Bd>, s: seq<nat>, skb: U32)
    requires One(bds, s, skb) && |b| == |bds|
    requires forall i :: 0 <= i < |s| ==> b[s[i]].id == bds[s[i]].id && b[s[i]].ctrl == bds[s[i]].ctrl
    ensures One(b, s, skb)
  {
    hide Bit;
  }

  ghost function Sum(packets: seq<Packet>): nat {
    if packets == [] then 0 else packets[0].n + Sum(packets[1..])
  }

  /** A prefix that ends with an end of packet consists of whole packets. */
  lemma {:induction false} LaidCut(bds: seq<Bd>, hw: seq<nat>, packets: seq<Packet>, k: nat) returns (j: nat)
    requires Laid(bds, hw, packets) && k <= |hw| && SlotsIn(hw, |bds|)
    requires k > 0 ==> Eof(bds[hw[k - 1]], false)
    ensures j <= |packets| && Sum(packets[..j]) == k
    ensures Laid(bds, hw[..k], packets[..j]) && Laid(bds, hw[k..], packets[j..])
    decreases |packets|
  {
    if k == 0 {
      j := 0;
      assert packets[..0] == [] && hw[..0] == [] && hw[0..] == hw && packets[0..] == packets;
    } else {
      var n := packets[0].n;
      LastOnly(bds, hw, n, k, packets[0].skb);
      hide One, Eof;
      var i := LaidCut(bds, hw[n..], packets[1..], k - n);
      j := i + 1;
      assert packets[..j][1..] == packets[1..][..i] && packets[j..] == packets[1..][i..];
      assert hw[..k][..n] == hw[..n] && hw[..k][n..] == hw[n..][..k - n] && hw[k..] == hw[n..][k - n..];
    }
  }

  lemma LastOnly(bds: seq<Bd>, hw: seq<nat>, n: nat, k: nat, skb: U32)
    requires 0 < n <= |hw| && 0 < k <= |hw| && SlotsIn(hw, |bds|)
    requires One(bds, hw[..n], skb) && Eof(bds[hw[k - 1]], false)
    ensures k >= n
  {
    hide Bit;
    assert forall i :: 0 <= i < n ==> hw[..n][i] == hw[i];
  }

  /** The socket buffers found in the BDs are those of the packets, in order. */
  lemma {:induction false} LaidSkbs(bds: seq<Bd>, hw: seq<nat>, packets: seq<Packet>)
    requires Laid(bds, hw, packets) && SlotsIn(hw, |bds|)
    ensures NonZero(IdsAt(bds, hw)) == Skbs(packets)
    decreases |packets|
  {
    if packets == [] {
      assert IdsAt(bds, hw) == [];
    } else {
      var p := packets[0];
      var a, rest := hw[..p.n], hw[p.n..];
      OneSkb(bds, a, p.skb);
      hide One;
      LaidSkbs(bds, rest, packets[1..]);
      assert IdsAt(bds, hw) == IdsAt(bds, a) + IdsAt(bds, rest);
      NonZeroConcat(IdsAt(bds, a), IdsAt(bds, rest));
      assert Skbs(packets) == [p.skb] + Skbs(packets[1..]);
    }
  }

  lemma OneSkb(bds: seq<Bd>, s: seq<nat>, skb: U32)
    requires One(bds, s, skb) && s != [] && skb != 0
    ensures NonZero(IdsAt(bds, s)) == [skb]
  {
    hide Eof;
    var ids := IdsAt(bds, s);
    assert ids[0] == skb;
    NonZeroNone(ids[1..]);
  }

  // ---------- Steps ----------

  /** At a lock boundary: the packets are laid out in the hardware group, and no other BD names a buffer. */
  ghost predicate Owns(r: Ring, packets: seq<Packet>) {
    && Inv(r) && !r.isRx && ValidMask(r) && r.post == [] && r.pre == []
    && Laid(r.bds, r.hw, packets) && Elsewhere(r)
  }

  ghost predicate Elsewhere(r: Ring) {
    forall s :: 0 <= s < |r.bds| && s !in r.hw ==> r.bds[s].id == 0
  }

  lemma HoldsOne(bds: seq<Bd>, slots: seq<nat>, pieces: seq<Seg>, mask: int, skb: U32)
    requires |slots| == |pieces| && SlotsIn(slots, |bds|) && Holds(bds, slots, pieces, mask, First(skb))
    ensures One(bds, slots, skb)
  {
    hide Length, Bit, TxSof;
  }

  /** A packet sent is one more packet, owned by the ring. */
  lemma SendKeeps(r: Ring, r': Ring, packets: seq<Packet>, pieces: seq<Seg>, skb: U32)
    requires Owns(r, packets) && skb != 0 && pieces != [] && Inv(r') && r'.isRx == r.isRx && r'.mask == r.mask
    requires Taken(r, r', pieces, First(skb))
    ensures Owns(r', packets + [Packet(skb, |pieces|)])
  {
    var n := |pieces|;
    var slots := r.free[..n];
    QueuedApart(r, n);
    hide Inv, Laid, Holds, Complete;
    HoldsOne(r'.bds, slots, pieces, r.mask, skb);
    LaidSame(r.bds, r'.bds, r.hw, packets);
    LaidAppend(r'.bds, r.hw, packets, slots, Packet(skb, n));
    hide One;
    assert Elsewhere(r');
  }

  lemma HwStepOwns(r: Ring, packets: seq<Packet>, word: U32)
    requires Owns(r, packets)
    ensures Owns(DoHwStep(r, word), packets)
  {
    assert Shape(r);
    hide Laid, Distinct, DoHwStep, Inv, Shape;
    InvSlots(r);
    HwStepKeeps(r, word);
    HwStepFields(r, word);
    LaidSame(r.bds, DoHwStep(r, word).bds, r.hw, packets);
  }

  lemma HwStepFields(r: Ring, word: U32)
    requires Inv(r)
    ensures var r' := DoHwStep(r, word);
      && r' == r.(bds := r'.bds, eng := r'.eng) && |r'.bds| == |r.bds|
      && forall i :: 0 <= i < |r.bds| ==> r'.bds[i] == r.bds[i].(sts := r'.bds[i].sts)
  {
    hide InOrder, EngineTracks, At, SlotAt, Arc;
  }

  /** What is reaped is a number of whole packets, all of whose BDs are complete: just their buffers are freed. */
  lemma ReapOwns(r: Ring, packets: seq<Packet>, limit: int) returns (j: nat)
    requires Owns(r, packets)
    ensures SlotsIn(r.hw, |r.bds|)
    ensures var k := Reapable(r, limit);
      && SlotsIn(r.hw[..k], |r.bds|) && j <= |packets| && Laid(r.bds, r.hw[..k], packets[..j])
      && Sum(packets[..j]) == k
      && (forall i :: 0 <= i < k ==> Complete(r.bds[r.hw[i]]))
      && NonZero(IdsAt(r.bds, r.hw[..k])) == Skbs(packets[..j])
      && Owns(Reaped(r, k), packets[j..])
  {
    InvSlots(r);
    var k := Reapable(r, limit);
    ReapableWithinDone(r, limit);
    PartSlots(r.hw, k, |r.bds|);
    j := LaidCut(r.bds, r.hw, packets, k);
    LaidSkbs(r.bds, r.hw[..k], packets[..j]);
    ReapedOwns(r, packets[j..], limit);
  }

  lemma ReapedOwns(r: Ring, rest: seq<Packet>, limit: int)
    requires Inv(r) && !r.isRx && ValidMask(r) && r.post == [] && r.pre == [] && Elsewhere(r)
    requires Laid(r.bds, r.hw[Reapable(r, limit)..], rest)
    ensures Owns(Reaped(r, Reapable(r, limit)), rest)
  {
    hide Laid, Inv, Reapable, ClearIds, Distinct, Elsewhere, SlotsIn;
    InvSlots(r);
    var k := Reapable(r, limit);
    PartSlots(r.hw, k, |r.bds|);
    if k > 0 { ReapRound(r, limit); } else { ReapedNone(r); }
    Consecutive(r.hw, k, |r.hw| - k);
    assert r.hw[k..][..|r.hw| - k] == r.hw[k..];
    RestUntouched(r.bds, r.hw, k);
    LaidSame(r.bds, Reaped(r, k).bds, r.hw[k..], rest);
    ElsewhereCleared(r, k);
  }

  lemma ReapedNone(r: Ring)
    requires SlotsIn(r.hw, |r.bds|)
    ensures Reaped(r, 0) == r
  {
  }

  lemma RestUntouched(bds: seq<Bd>, hw: seq<nat>, k: nat)
    requires k <= |hw| && SlotsIn(hw[..k], |bds|) && SlotsIn(hw[k..], |bds|)
    requires forall s :: s in hw[k..] ==> s !in hw[..k]
    ensures forall i :: 0 <= i < |hw[k..]| ==> ClearIds(bds, hw[..k])[hw[k..][i]] == bds[hw[k..][i]]
  {
    hide ClearIds;
    assert forall i :: 0 <= i < |hw[k..]| ==> hw[k..][i] in hw[k..];
  }

  lemma ElsewhereCleared(r: Ring, k: nat)
    requires k <= |r.hw| && SlotsIn(r.hw, |r.bds|) && Elsewhere(r)
    ensures Elsewhere(Reaped(r, k))
  {
    hide ClearIds;
    assert r.hw == r.hw[..k] + r.hw[k..];
  }

  // ---------- Every run ----------

  /** `sent` and `freed` list the socket buffers accepted and freed so far. */
  datatype State = State(ring: Ring, packets: seq<Packet>, sent: seq<U32>, freed: seq<U32>)

  datatype Op = Send(pieces: seq<Seg>, skb: U32) | Hw(word: U32) | Reap(limit: int)

  /** The driver finds BDs for the packet, and can describe it with them. */
  ghost predicate CanSend(r: Ring, pieces: seq<Seg>, skb: U32) {
    && skb != 0 && 0 < |pieces| <= |r.free| && SlotsIn(r.free, |r.bds|) && ValidMask(r)
    && AllSuit(r.bds, r.free[..|pieces|], pieces, r.mask)
  }

  ghost function Step(s: State, op: Op): State
    requires Inv(s.ring) && s.ring.pre == []
  {
    match op
    case Send(pieces, skb) =>
      if !CanSend(s.ring, pieces, skb) then s
      else s.(ring := Submit(s.ring, pieces, |pieces|, First(skb)),
              packets := s.packets + [Packet(skb, |pieces|)], sent := s.sent + [skb])
    case Hw(word) => s.(ring := DoHwStep(s.ring, word))
    case Reap(limit) =>
      var k := Reapable(s.ring, limit);
      PartSlots(s.ring.hw, k, |s.ring.bds|);
      var ids := NonZero(IdsAt(s.ring.bds, s.ring.hw[..k]));
      s.(ring := Reaped(s.ring, k), packets := if |ids| <= |s.packets| then s.packets[|ids|..] else [],
         freed := s.freed + ids)
  }

  /** The ring owns the packets not freed yet, and every buffer sent is freed or still owned, in order. */
  ghost predicate Conserved(s: State) {
    Owns(s.ring, s.packets) && s.sent == s.freed + Skbs(s.packets)
  }

  lemma StepConserves(s: State, op: Op)
    requires Conserved(s)
    ensures Conserved(Step(s, op))
  {
    hide Owns, Submit, Inv, DoHwStep, AllSuit;
    OwnsBasics(s.ring, s.packets);
    match op
    case Send(pieces, skb) => if CanSend(s.ring, pieces, skb) { SendConserves(s, pieces, skb); }
    case Hw(word) => HwStepOwns(s.ring, s.packets, word);
    case Reap(limit) => ReapConserves(s, limit);
  }

  lemma OwnsBasics(r: Ring, packets: seq<Packet>)
    requires Owns(r, packets)
    ensures Inv(r) && r.pre == [] && SlotsIn(r.pre, |r.bds|) && ValidMask(r) && !r.isRx
  {
  }

  lemma SendConserves(s: State, pieces: seq<Seg>, skb: U32)
    requires Conserved(s) && CanSend(s.ring, pieces, skb)
    ensures Conserved(Step(s, Send(pieces, skb)))
  {
    hide Owns, Submit, AllSuit, Taken;
    var r := s.ring;
    OwnsBasics(r, s.packets);
    var r' := Submit(r, pieces, |pieces|, First(skb));
    SubmitTakes(r, pieces, First(skb));
    SubmitKeeps(r, pieces, |pieces|, First(skb));
    hide Inv;
    SubmitSameKind(r, pieces, |pieces|, First(skb));
    SendKeeps(r, r', s.packets, pieces, skb);
    assert Skbs(s.packets + [Packet(skb, |pieces|)]) == Skbs(s.packets) + [skb];
  }

  lemma SubmitSameKind(r: Ring, pieces: seq<Seg>, n: nat, own: Owner)
    requires SlotsIn(r.free, |r.bds|) && SlotsIn(r.pre, |r.bds|) && ValidMask(r) && (pieces != [] ==> 0 < n <= |pieces|)
    ensures var r' := Submit(r, pieces, n, own); r'.isRx == r.isRx && r'.mask == r.mask
  {
    hide Prepared, Accepts, MarkSent, Marked;
  }

  lemma ReapConserves(s: State, limit: int)
    requires Conserved(s)
    ensures Conserved(Step(s, Reap(limit)))
  {
    hide Owns, Inv, Reapable, Reaped, Laid, Complete, NonZero, IdsAt, SlotsIn, Skbs;
    OwnsBasics(s.ring, s.packets);
    var j := ReapOwns(s.ring, s.packets, limit);
    SkbsSplit(s.packets, j);
    var a, b := Skbs(s.packets[..j]), Skbs(s.packets[j..]);
    assert s.freed + a + b == s.freed + (a + b);
  }

  lemma SkbsSplit(packets: seq<Packet>, j: nat)
    requires j <= |packets|
    ensures Skbs(packets) == Skbs(packets[..j]) + Skbs(packets[j..])
  {
  }

  ghost function RunOf(s: State, ops: seq<Op>): (s': State)
    requires Conserved(s)
    ensures Conserved(s')
    decreases |ops|
  {
    if ops == [] then s else StepConserves(s, ops[0]); RunOf(Step(s, ops[0]), ops[1..])
  }

  /** From any state in which the ring owns what it should, each socket buffer sent is freed once or is still in exactly
      one BD of the hardware group: the buffers named by BDs are those sent and not freed, in order. */
  lemma SkbsFrom(s: State, ops: seq<Op>)
    requires Conserved(s)
    ensures Accounted(RunOf(s, ops))
  {
    hide RunOf, Inv, Laid;
    var s' := RunOf(s, ops);
    LaidSlots(s'.ring.bds, s'.ring.hw, s'.packets);
    LaidSkbs(s'.ring.bds, s'.ring.hw, s'.packets);
  }

  ghost predicate Accounted(s: State) {
    && SlotsIn(s.ring.hw, |s.ring.bds|)
    && s.sent == s.freed + NonZero(IdsAt(s.ring.bds, s.ring.hw))
    && forall i :: 0 <= i < |s.ring.bds| && i !in s.ring.hw ==> s.ring.bds[i].id == 0
  }

  /** The transmit ring as the driver opens it: created, cloned from a cleared BD and started; nothing sent yet. */
  ghost function Opened(r: Ring, template: Bd): (s: State)
    requires Created(r) && !r.isRx && ValidMask(r) && template.sts == 0 && template.id == 0
    ensures Conserved(s)
  {
    NothingSent(Started(r, template));
    State(Started(r, template), [], [], [])
  }

  lemma NothingSent(r: Ring)
    requires Inv(r) && !r.isRx && ValidMask(r) && r.post == r.hw == r.pre == []
    requires forall i :: 0 <= i < |r.bds| ==> r.bds[i].id == 0
    ensures Conserved(State(r, [], [], []))
  {
    hide Inv;
  }

  /** So in every run from there on. */
  lemma SkbsInEveryRun(r: Ring, template: Bd, ops: seq<Op>)
    requires Created(r) && !r.isRx && ValidMask(r) && template.sts == 0 && template.id == 0
    ensures Accounted(RunOf(Opened(r, template), ops))
  {
    hide Opened, RunOf;
    SkbsFrom(Opened(r, template), ops);
  }

  // ---------- Progress ----------

  /** A packet that can be sent is sent: its BDs are queued last, and its buffer is the last one they name. */
  lemma SendSends(s: State, pieces: seq<Seg>, skb: U32)
    requires Conserved(s) && CanSend(s.ring, pieces, skb)
    ensures var s', n := Step(s, Send(pieces, skb)), |pieces|;
      && s'.sent == s.sent + [skb] && s'.freed == s.freed && s'.packets == s.packets + [Packet(skb, n)]
      && s'.ring.hw == s.ring.hw + s.ring.free[..n] && s'.ring.free == s.ring.free[n..]
      && SlotsIn(s.ring.hw, |s.ring.bds|) && SlotsIn(s'.ring.hw, |s'.ring.bds|)
      && NonZero(IdsAt(s'.ring.bds, s'.ring.hw)) == NonZero(IdsAt(s.ring.bds, s.ring.hw)) + [skb]
  {
    hide Owns, Inv, Shape, Submit, AllSuit, NonZero, IdsAt, Skbs, Holds, Complete, SameElsewhere;
    OwnsBasics(s.ring, s.packets);
    InvBasics(s.ring);
    SubmitTakes(s.ring, pieces, First(skb));
    SendConserves(s, pieces, skb);
    var s' := Step(s, Send(pieces, skb));
    OwnsSkbs(s.ring, s.packets);
    OwnsSkbs(s'.ring, s'.packets);
    SkbsMore(s.packets, Packet(skb, |pieces|));
  }

  lemma SkbsMore(packets: seq<Packet>, p: Packet)
    ensures Skbs(packets + [p]) == Skbs(packets) + [p.skb]
  {
  }

  lemma OwnsSkbs(r: Ring, packets: seq<Packet>)
    requires Owns(r, packets)
    ensures SlotsIn(r.hw, |r.bds|) && NonZero(IdsAt(r.bds, r.hw)) == Skbs(packets)
  {
    hide Inv, Laid;
    LaidSlots(r.bds, r.hw, packets);
    LaidSkbs(r.bds, r.hw, packets);
  }

  /** The last BD of each packet ends it. */
  lemma {:induction false} LaidEnds(bds: seq<Bd>, hw: seq<nat>, packets: seq<Packet>, j: nat)
    requires Laid(bds, hw, packets) && SlotsIn(hw, |bds|) && 0 < j <= |packets|
    ensures 0 < Sum(packets[..j]) <= |hw| && Eof(bds[hw[Sum(packets[..j]) - 1]], false)
    decreases j
  {
    var n := packets[0].n;
    assert packets[..j][1..] == packets[1..][..j - 1];
    if j == 1 {
      assert hw[..n][n - 1] == hw[n - 1];
    } else {
      hide One, Eof;
      LaidEnds(bds, hw[n..], packets[1..], j - 1);
      var k := Sum(packets[1..][..j - 1]);
      assert hw[n..][k - 1] == hw[n + k - 1];
    }
  }

  /** The bottom half frees the buffers of as many packets as are complete: all BDs of those are done, and not all BDs
      of the next one. */
  lemma ReapFreesDone(s: State, limit: int) returns (j: nat)
    requires Conserved(s) && |s.ring.hw| <= limit
    ensures SlotsIn(s.ring.hw, |s.ring.bds|)
    ensures var s', done := Step(s, Reap(limit)), DoneCount(s.ring.bds, s.ring.hw);
      && j <= |s.packets| && s'.freed == s.freed + Skbs(s.packets[..j]) && s'.packets == s.packets[j..]
      && s'.sent == s.sent && Sum(s.packets[..j]) <= done
      && (j < |s.packets| ==> done < Sum(s.packets[..j + 1]))
  {
    hide Owns, Inv, Reapable, Reaped, NonZero, IdsAt, DoneCount, Laid, Eof, Step;
    OwnsBasics(s.ring, s.packets);
    j := ReapOwns(s.ring, s.packets, limit);
    ReapStep(s, limit, j);
    ReapableWithinDone(s.ring, limit);
    if j < |s.packets| && Sum(s.packets[..j + 1]) <= DoneCount(s.ring.bds, s.ring.hw) {
      OwnsLaid(s.ring, s.packets);
      LaidEnds(s.ring.bds, s.ring.hw, s.packets, j + 1);
      ReapableIsLargest(s.ring, limit, Sum(s.packets[..j + 1]));
      SumGrows(s.packets, j);
    }
  }

  lemma ReapStep(s: State, limit: int, j: nat)
    requires Inv(s.ring) && s.ring.pre == [] && SlotsIn(s.ring.hw, |s.ring.bds|) && j <= |s.packets|
    requires var k := Reapable(s.ring, limit);
      && SlotsIn(s.ring.hw[..k], |s.ring.bds|)
      && NonZero(IdsAt(s.ring.bds, s.ring.hw[..k])) == Skbs(s.packets[..j])
    ensures var s' := Step(s, Reap(limit));
      s'.freed == s.freed + Skbs(s.packets[..j]) && s'.packets == s.packets[j..] && s'.sent == s.sent
  {
    hide Inv, Reapable, Reaped, NonZero, IdsAt;
  }

  lemma OwnsLaid(r: Ring, packets: seq<Packet>)
    requires Owns(r, packets)
    ensures Laid(r.bds, r.hw, packets) && !r.isRx && forall i :: 0 <= i < |packets| ==> packets[i].n > 0
  {
    LaidPositive(r.bds, r.hw, packets);
  }

  lemma {:induction false} LaidPositive(bds: seq<Bd>, hw: seq<nat>, packets: seq<Packet>)
    requires Laid(bds, hw, packets)
    ensures (forall i :: 0 <= i < |packets| ==> packets[i].n > 0) && Sum(packets) == |hw|
    decreases |packets|
  {
    hide One;
    if packets != [] { LaidPositive(bds, hw[packets[0].n..], packets[1..]); }
  }

  lemma {:induction false} SumGrows(packets: seq<Packet>, j: nat)
    requires j < |packets|
    ensures Sum(packets[..j + 1]) == Sum(packets[..j]) + packets[j].n
    decreases j
  {
    assert packets[..j + 1][1..] == packets[1..][..j];
    if j > 0 {
      assert packets[..j][1..] == packets[1..][..j - 1];
      SumGrows(packets[1..], j - 1);
    }
  }

  ghost function Hws(words: seq<U32>): (ops: seq<Op>)
    ensures |ops| == |words|
  {
    if words == [] then [] else [Hw(words[0])] + Hws(words[1..])
  }

  /** Nothing is kept for ever: once a started engine has completed the BDs it still had to do, the bottom half has
      freed every buffer sent. */
  lemma {:induction false} AllFreed(s: State, words: seq<U32>, limit: int)
    requires Conserved(s) && s.ring.running && |s.ring.hw| <= limit && SlotsIn(s.ring.hw, |s.ring.bds|)
    requires |words| == |Todo(s.ring)| && forall i :: 0 <= i < |words| ==> words[i] >= BIT31
    ensures var s' := RunOf(s, Hws(words) + [Reap(limit)]); s'.sent == s.sent == s'.freed
    decreases |words|
  {
    hide Owns, Todo, Step, NonZero, IdsAt, Skbs;
    OwnsBasics(s.ring, s.packets);
    hide Inv;
    var ops := Hws(words) + [Reap(limit)];
    StepConserves(s, ops[0]);
    if words == [] {
      assert ops == [Reap(limit)] && ops[1..] == [];
      LastReap(s, limit);
    } else {
      assert ops[0] == Hw(words[0]) && ops[1..] == Hws(words[1..]) + [Reap(limit)];
      OneLess(s, words[0]);
      AllFreed(Step(s, ops[0]), words[1..], limit);
    }
  }

  lemma OneLess(s: State, word: U32)
    requires Conserved(s) && s.ring.running && SlotsIn(s.ring.hw, |s.ring.bds|) && Todo(s.ring) != [] && word >= BIT31
    requires Inv(s.ring) && s.ring.pre == []
    ensures var s' := Step(s, Hw(word));
      && s'.sent == s.sent && s'.ring.running && s'.ring.hw == s.ring.hw && |s'.ring.bds| == |s.ring.bds|
      && SlotsIn(s'.ring.hw, |s'.ring.bds|) && |Todo(s'.ring)| == |Todo(s.ring)| - 1
  {
    hide Owns, SlotAt, At, Arc, DoneCount, Todo;
    HwStepParts(s.ring, DoHwStep(s.ring, word), word);
  }

  lemma LastReap(s: State, limit: int)
    requires Conserved(s) && |s.ring.hw| <= limit && SlotsIn(s.ring.hw, |s.ring.bds|) && Todo(s.ring) == []
    requires Inv(s.ring) && s.ring.pre == []
    ensures var s' := Step(s, Reap(limit)); s'.sent == s.sent == s'.freed
  {
    hide Owns, Inv, NonZero, IdsAt, Step, DoneCount, Laid;
    var j := ReapFreesDone(s, limit);
    OwnsLaid(s.ring, s.packets);
    LaidPositive(s.ring.bds, s.ring.hw, s.packets);
    assert |Todo(s.ring)| == |s.ring.hw| - DoneCount(s.ring.bds, s.ring.hw);
    assert s.packets[..|s.packets|] == s.packets;
    if j < |s.packets| { SumBound(s.packets, j + 1); }
  }

  lemma {:induction false} SumBound(packets: seq<Packet>, j: nat)
    requires j <= |packets|
    ensures Sum(packets[..j]) <= Sum(packets)
    decreases j
  {
    if j > 0 {
      assert packets[..j][1..] == packets[1..][..j - 1];
      SumBound(packets[1..], j - 1);
    }
  }

  // ---------- Teardown ----------

  /** All slots, in memory order. */
  function AllSlots(n: nat): (s: seq<nat>)
    ensures |s| == n && forall i :: 0 <= i < n ==> s[i] == i
  {
    seq<nat>(n, i => i)
  }

  /** A full turn of the ring is memory order, cut somewhere. */
  lemma FullTurn(p: nat, n: nat)
    requires p < n
    ensures Arc(p, n, n) == AllSlots(n)[p..] + AllSlots(n)[..p]
  {
    var a, b := Arc(p, n, n), AllSlots(n)[p..] + AllSlots(n)[..p];
    forall i | 0 <= i < n ensures a[i] == b[i] {
      if i < n - p {
        ModIs(p + i, n, 0, p + i);
      } else {
        ModIs(p + i, n, 1, p + i - n);
      }
    }
  }

  lemma IdsConcat(bds: seq<Bd>, a: seq<nat>, b: seq<nat>)
    requires SlotsIn(a, |bds|) && SlotsIn(b, |bds|)
    ensures SlotsIn(a + b, |bds|) && NonZero(IdsAt(bds, a + b)) == NonZero(IdsAt(bds, a)) + NonZero(IdsAt(bds, b))
  {
    assert IdsAt(bds, a + b) == IdsAt(bds, a) + IdsAt(bds, b);
    NonZeroConcat(IdsAt(bds, a), IdsAt(bds, b));
  }

  /** Memory order and ring order find the same socket buffers. */
  lemma SameSkbs(bds: seq<Bd>, p: nat)
    requires p < |bds|
    ensures SlotsIn(AllSlots(|bds|), |bds|) && SlotsIn(Arc(p, |bds|, |bds|), |bds|)
    ensures multiset(NonZero(IdsAt(bds, AllSlots(|bds|)))) == multiset(NonZero(IdsAt(bds, Arc(p, |bds|, |bds|))))
  {
    hide Arc, IdsAt, NonZero;
    var n := |bds|;
    var all := AllSlots(n);
    FullTurn(p, n);
    var a, b := all[..p], all[p..];
    assert all == a + b;
    IdsConcat(bds, a, b);
    IdsConcat(bds, b, a);
  }

  /** The BDs of the free group name no buffer. */
  lemma FreeNamesNone(r: Ring, packets: seq<Packet>)
    requires Owns(r, packets)
    ensures SlotsIn(r.hw, |r.bds|) && SlotsIn(r.free, |r.bds|) && NonZero(IdsAt(r.bds, r.free)) == []
  {
    hide Laid, InOrder, EngineTracks, Arc;
    GroupsDisjoint(r);
    FreeSlots(r);
    assert forall i :: 0 <= i < |r.free| ==> r.free[i] in r.free;
    NonZeroNone(IdsAt(r.bds, r.free));
  }

  /** Freeing the buffers found in any BD frees exactly those still owned by the ring, each as often as it was sent
      and not freed. */
  lemma TeardownFreesRest(r: Ring, packets: seq<Packet>)
    requires Owns(r, packets)
    ensures SlotsIn(AllSlots(|r.bds|), |r.bds|)
    ensures multiset(NonZero(IdsAt(r.bds, AllSlots(|r.bds|)))) == multiset(Skbs(packets))
  {
    var o := Order(r);
    assert o == r.hw + r.free && o == Arc(o[0], |r.bds|, |r.bds|) && o[0] < |r.bds|;
    FreeNamesNone(r, packets);
    LaidSkbs(r.bds, r.hw, packets);
    hide Owns, Inv, Laid, Arc, NonZero, IdsAt, SlotsIn, Skbs;
    IdsConcat(r.bds, r.hw, r.free);
    SameSkbs(r.bds, o[0]);
  }
}
