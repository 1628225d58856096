/** Connection reinstatement in an iSCSI session (RFC 3720, section 5.3.4): a login with the cid of a live connection
    makes a new connection that waits until the old one is gone.

    The session's list of connections is a sequence; a pointer to a connection is the number it was given when it
    was allocated. */
module Reinstatement {
  datatype Pointer = Null | To(id: nat)

  datatype Conn = Conn(id: nat, cid: int, closing: bool, shuttingDown: bool, reinstating: bool, successor: Pointer)

  datatype Session = Session(conns: seq<Conn>, reinstating: bool, nextId: nat)

  datatype Op =
    | Add(cid: int, memory: bool)
    | Close(id: nat)
    | ShutDown(id: nat)
    | Finish(id: nat)
    | Free(id: nat)
    | FinishSession

  datatype Result = Ok | Exists | NoMemory

  // ---------- Operations ----------

  /** The latest connection with the given cid, or -1. */
  function Latest(conns: seq<Conn>, cid: int): (i: int)
    ensures -1 <= i < |conns|
    ensures i >= 0 ==> conns[i].cid == cid
    ensures forall j :: i < j < |conns| ==> conns[j].cid != cid
  {
    if conns == [] then -1
    else if conns[|conns| - 1].cid == cid then |conns| - 1
    else Latest(conns[..|conns| - 1], cid)
  }

  /** The position of the connection a pointer names, or -1. */
  function Position(conns: seq<Conn>, id: nat): (i: int)
    ensures -1 <= i < |conns|
    ensures i >= 0 ==> conns[i].id == id
    ensures i < 0 ==> forall j :: 0 <= j < |conns| ==> conns[j].id != id
  {
    if conns == [] then -1
    else if conns[|conns| - 1].id == id then |conns| - 1
    else Position(conns[..|conns| - 1], id)
  }

  ghost predicate Reinstates(s: Session, cid: int) {
    var i := Latest(s.conns, cid);
    i >= 0 && !s.conns[i].shuttingDown
  }

  ghost function AddResult(s: Session, cid: int, memory: bool): Result {
    if !Reinstates(s, cid) && s.conns != [] then Exists else if !memory then NoMemory else Ok
  }

  ghost function DoAdd(s: Session, cid: int, memory: bool): Session {
    if AddResult(s, cid, memory) != Ok then s
    else if Reinstates(s, cid) then
      var i := Latest(s.conns, cid);
      s.(conns := s.conns[i := s.conns[i].(successor := To(s.nextId), closing := true)] +
                  [Conn(s.nextId, cid, false, false, true, Null)],
         nextId := s.nextId + 1)
    else s.(conns := [Conn(s.nextId, cid, false, false, s.reinstating, Null)], nextId := s.nextId + 1)
  }

  ghost function Update(s: Session, i: int, c: Conn): Session
    requires 0 <= i < |s.conns|
  {
    s.(conns := s.conns[i := c])
  }

  /** The connection has been torn down: its successor, if any, need not wait any longer. */
  ghost function DoFinish(s: Session, id: nat): Session {
    var i := Position(s.conns, id);
    if i < 0 || s.conns[i].successor == Null then s
    else
      var j := Position(s.conns, s.conns[i].successor.id);
      var s' := Update(s, i, s.conns[i].(successor := Null));
      if j < 0 then s' else Update(s', j, s'.conns[j].(reinstating := false))
  }

  /** What conn_free demands. */
  ghost predicate MayFree(s: Session, id: nat) {
    var i := Position(s.conns, id);
    i >= 0 && s.conns[i].shuttingDown && s.conns[i].successor == Null
  }

  /** The connections with the first pointer to id cleared. */
  ghost function Unlinked(conns: seq<Conn>, id: nat): (r: seq<Conn>)
    ensures |r| == |conns|
  {
    if conns == [] then []
    else if conns[0].successor == To(id) then [conns[0].(successor := Null)] + conns[1..]
    else [conns[0]] + Unlinked(conns[1..], id)
  }

  ghost function DoFree(s: Session, id: nat): Session {
    if !MayFree(s, id) then s
    else
      var i := Position(s.conns, id);
      var conns := if s.conns[i].reinstating then Unlinked(s.conns, id) else s.conns;
      s.(conns := conns[..i] + conns[i + 1..])
  }

  /** The session's own reinstatement ends; the source calls it a bug when there is none. */
  ghost function DoFinishSession(s: Session): Session {
    s.(conns := seq(|s.conns|, i requires 0 <= i < |s.conns| => s.conns[i].(reinstating := false)),
       reinstating := false)
  }

  ghost function Step(s: Session, op: Op): Session {
    match op
    case Add(cid, memory) => DoAdd(s, cid, memory)
    case Close(id) =>
      var i := Position(s.conns, id); if i < 0 then s else Update(s, i, s.conns[i].(closing := true))
    case ShutDown(id) =>
      var i := Position(s.conns, id); if i < 0 then s else Update(s, i, s.conns[i].(shuttingDown := true))
    case Finish(id) => DoFinish(s, id)
    case Free(id) => DoFree(s, id)
    case FinishSession => if s.reinstating then DoFinishSession(s) else s
  }

  // ---------- The invariant ----------

  /** The connection at i - 1 names the one at i. */
  ghost predicate Awaited(conns: seq<Conn>, i: int)
    requires 0 <= i < |conns|
  {
    i > 0 && conns[i - 1].successor == To(conns[i].id)
  }

  /** Numbers in list order, one cid, and all but the last connection closing. */
  ghost predicate Listed(conns: seq<Conn>, nextId: nat) {
    && (forall i :: 0 <= i < |conns| ==> conns[i].id < nextId)
    && (forall i, j :: 0 <= i < j < |conns| ==> conns[i].id < conns[j].id)
    && (forall i, j :: 0 <= i < j < |conns| ==> conns[i].cid == conns[j].cid)
    && (forall i :: 0 <= i < |conns| - 1 ==> conns[i].closing)
  }

  /** A successor is the next connection in the list, and it waits. */
  ghost predicate Chained(conns: seq<Conn>) {
    forall i :: 0 <= i < |conns| && conns[i].successor.To? ==>
      i + 1 < |conns| && Awaited(conns, i + 1) && conns[i + 1].reinstating
  }

  /** A connection waits only for one that names it. */
  ghost predicate NoOrphan(conns: seq<Conn>) {
    forall i :: 0 <= i < |conns| && conns[i].reinstating ==> Awaited(conns, i)
  }

  ghost predicate Inv(s: Session) {
    Listed(s.conns, s.nextId) && Chained(s.conns) && (s.reinstating || NoOrphan(s.conns))
  }

  lemma PositionIs(conns: seq<Conn>, nextId: nat, i: nat)
    requires Listed(conns, nextId) && i < |conns|
    ensures Position(conns, conns[i].id) == i
  {
    hide Position;
    var j := Position(conns, conns[i].id);
    assert j >= 0 && conns[j].id == conns[i].id;
  }

  // ---------- Each operation keeps it ----------

  /** The latest connection with the session's cid is the last one, and has no successor yet. */
  lemma LatestIsLast(s: Session, cid: int)
    requires Inv(s) && Latest(s.conns, cid) >= 0
    ensures Latest(s.conns, cid) == |s.conns| - 1 && s.conns[|s.conns| - 1].successor == Null
  {
    hide Latest;
    var n := |s.conns| - 1;
    assert s.conns[Latest(s.conns, cid)].cid == s.conns[n].cid;
  }

  lemma AddKeeps(s: Session, cid: int, memory: bool)
    requires Inv(s)
    ensures Inv(DoAdd(s, cid, memory))
  {
    hide Latest, Inv;
    if AddResult(s, cid, memory) == Ok {
      if Reinstates(s, cid) {
        LatestIsLast(s, cid);
        AppendKeeps(s, DoAdd(s, cid, memory));
      } else {
        FirstKeeps(s, DoAdd(s, cid, memory));
      }
    }
  }

  lemma FirstKeeps(s: Session, s': Session)
    requires |s'.conns| == 1 && s'.conns[0].id < s'.nextId && s'.conns[0].successor == Null
    requires s'.conns[0].reinstating == s'.reinstating
    ensures Inv(s')
  {
  }

  lemma AppendKeeps(s: Session, s': Session)
    requires Inv(s) && |s.conns| > 0 && s.conns[|s.conns| - 1].successor == Null
    requires var n := |s.conns| - 1; var last := s.conns[n];
      s' == s.(conns := s.conns[n := last.(successor := To(s.nextId), closing := true)] +
                        [Conn(s.nextId, last.cid, false, false, true, Null)], nextId := s.nextId + 1)
    ensures Inv(s')
  {
    AppendListed(s, s');
    hide Listed;
  }

  lemma AppendListed(s: Session, s': Session)
    requires Listed(s.conns, s.nextId) && |s.conns| > 0 && |s'.conns| == |s.conns| + 1
    requires forall i :: 0 <= i < |s.conns| ==>
      s'.conns[i].id == s.conns[i].id && s'.conns[i].cid == s.conns[i].cid &&
      (i == |s.conns| - 1 || s.conns[i].closing ==> s'.conns[i].closing)
    requires var c := s'.conns[|s.conns|]; c.id == s.nextId && c.cid == s.conns[|s.conns| - 1].cid
    requires s'.nextId == s.nextId + 1
    ensures Listed(s'.conns, s'.nextId)
  {
  }

  /** Nothing the invariant speaks about has changed, except that more connections may be closing. */
  ghost predicate SameChain(conns: seq<Conn>, conns': seq<Conn>) {
    |conns'| == |conns| && forall i :: 0 <= i < |conns| ==>
      conns'[i] == conns[i].(closing := conns'[i].closing, shuttingDown := conns'[i].shuttingDown) &&
      (conns[i].closing ==> conns'[i].closing)
  }

  lemma SameChainKeeps(s: Session, s': Session)
    requires Inv(s) && SameChain(s.conns, s'.conns) && s' == s.(conns := s'.conns)
    ensures Inv(s')
  {
  }

  /** The successor found is the next connection. */
  lemma FinishKeeps(s: Session, id: nat)
    requires Inv(s)
    ensures Inv(DoFinish(s, id))
  {
    hide Position;
    var i := Position(s.conns, id);
    if i >= 0 && s.conns[i].successor != Null {
      PositionIs(s.conns, s.nextId, i + 1);
      ReleaseKeeps(s, DoFinish(s, id), i);
    }
  }

  lemma ReleaseKeeps(s: Session, s': Session, i: nat)
    requires Inv(s) && i + 1 < |s.conns| && s.conns[i].successor.To?
    requires s' == s.(conns := s.conns[i := s.conns[i].(successor := Null)]
                                      [i + 1 := s.conns[i + 1].(reinstating := false)])
    ensures Inv(s')
  {
    hide Listed;
    ListedAlike(s.conns, s'.conns, s.nextId);
  }

  lemma ListedAlike(conns: seq<Conn>, conns': seq<Conn>, nextId: nat)
    requires Listed(conns, nextId) && |conns'| == |conns|
    requires forall i :: 0 <= i < |conns| ==>
      conns'[i].id == conns[i].id && conns'[i].cid == conns[i].cid && conns'[i].closing == conns[i].closing
    ensures Listed(conns', nextId)
  {
  }

  lemma {:induction false} UnlinkedFirst(conns: seq<Conn>, id: nat, k: nat)
    requires k <= |conns| && forall i :: 0 <= i < k ==> conns[i].successor != To(id)
    requires k < |conns| ==> conns[k].successor == To(id)
    ensures Unlinked(conns, id) == if k < |conns| then conns[k := conns[k].(successor := Null)] else conns
  {
    if k > 0 {
      UnlinkedFirst(conns[1..], id, k - 1);
    }
  }

  /** Clearing the pointer to a connection about to be freed. */
  ghost function Detached(conns: seq<Conn>, i: nat): (r: seq<Conn>)
    requires i < |conns|
    ensures |r| == |conns|
  {
    if i > 0 && Awaited(conns, i) then conns[i - 1 := conns[i - 1].(successor := Null)] else conns
  }

  /** No connection has two predecessors. */
  lemma OnlyPredecessor(s: Session, i: nat)
    requires Inv(s) && i < |s.conns|
    ensures forall j :: 0 <= j < |s.conns| && s.conns[j].successor == To(s.conns[i].id) ==> j + 1 == i
  {
    hide Position;
    forall j | 0 <= j < |s.conns| && s.conns[j].successor == To(s.conns[i].id) ensures j + 1 == i {
      assert Awaited(s.conns, j + 1);
      PositionIs(s.conns, s.nextId, j + 1);
      PositionIs(s.conns, s.nextId, i);
    }
  }

  lemma FreeShape(s: Session, id: nat)
    requires Inv(s) && MayFree(s, id)
    ensures var i := Position(s.conns, id);
      DoFree(s, id).conns == Removed(Detached(s.conns, i), i)
  {
    hide Position, Unlinked;
    var i := Position(s.conns, id);
    OnlyPredecessor(s, i);
    hide Inv;
    UnlinkedFirst(s.conns, id, if i > 0 && Awaited(s.conns, i) then i - 1 else |s.conns|);
  }

  lemma FreeKeeps(s: Session, id: nat)
    requires Inv(s)
    ensures Inv(DoFree(s, id))
  {
    hide Position, Inv;
    if MayFree(s, id) {
      FreeShape(s, id);
      RemoveKeeps(s, DoFree(s, id), Position(s.conns, id));
    }
  }

  ghost function Removed(conns: seq<Conn>, i: nat): (r: seq<Conn>)
    requires i < |conns|
    ensures |r| == |conns| - 1
    ensures forall k :: 0 <= k < |r| ==> r[k] == conns[if k < i then k else k + 1]
  {
    conns[..i] + conns[i + 1..]
  }

  lemma RemoveKeeps(s: Session, s': Session, i: nat)
    requires Inv(s) && i < |s.conns| && s.conns[i].successor == Null
    requires s' == s.(conns := Removed(Detached(s.conns, i), i))
    ensures Inv(s')
  {
    hide Listed, Removed, Detached, Chained, NoOrphan;
    DetachedKeeps(s, i);
    var conns := Detached(s.conns, i);
    RemoveListed(conns, s.nextId, i);
    RemoveChained(conns, i);
    if !s.reinstating { RemoveNoOrphan(conns, i); }
  }

  /** After the pointer is cleared nothing names the connection, and only it may wait unnamed. */
  lemma DetachedKeeps(s: Session, i: nat)
    requires Inv(s) && i < |s.conns| && s.conns[i].successor == Null
    ensures var conns := Detached(s.conns, i);
      && Listed(conns, s.nextId) && Chained(conns) && (i > 0 ==> conns[i - 1].successor == Null)
      && conns[i].successor == Null
      && (s.reinstating || forall k :: 0 <= k < |conns| && k != i && conns[k].reinstating ==> Awaited(conns, k))
  {
    hide Listed;
    ListedAlike(s.conns, Detached(s.conns, i), s.nextId);
  }

  lemma RemoveListed(conns: seq<Conn>, nextId: nat, i: nat)
    requires Listed(conns, nextId) && i < |conns|
    ensures Listed(Removed(conns, i), nextId)
  {
    hide Removed;
  }

  lemma RemoveChained(conns: seq<Conn>, i: nat)
    requires i < |conns| && Chained(conns) && (i > 0 ==> conns[i - 1].successor == Null)
    ensures Chained(Removed(conns, i))
  {
    hide Removed;
    var r := Removed(conns, i);
    forall k | 0 <= k < |r| && r[k].successor.To?
      ensures k + 1 < |r| && Awaited(r, k + 1) && r[k + 1].reinstating
    {
      assert Awaited(conns, if k < i then k + 1 else k + 2);
    }
  }

  lemma RemoveNoOrphan(conns: seq<Conn>, i: nat)
    requires i < |conns| && conns[i].successor == Null
    requires forall k :: 0 <= k < |conns| && k != i && conns[k].reinstating ==> Awaited(conns, k)
    ensures NoOrphan(Removed(conns, i))
  {
    hide Removed;
    var r := Removed(conns, i);
    forall k | 0 <= k < |r| && r[k].reinstating ensures Awaited(r, k) {
      assert Awaited(conns, if k < i then k else k + 1);
    }
  }

  lemma StepKeeps(s: Session, op: Op)
    requires Inv(s) && (op.FinishSession? && s.reinstating ==> NoSuccessors(s))
    ensures Inv(Step(s, op))
  {
    hide Position, Latest, Listed, Chained, NoOrphan;
    match op
    case Add(cid, memory) => AddKeeps(s, cid, memory);
    case Finish(id) => FinishKeeps(s, id);
    case Free(id) => FreeKeeps(s, id);
    case FinishSession => if s.reinstating { FinishSessionKeeps(s); }
    case _ => SameChainKeeps(s, Step(s, op));
  }

  ghost predicate NoSuccessors(s: Session) {
    forall i :: 0 <= i < |s.conns| ==> s.conns[i].successor == Null
  }

  lemma FinishSessionKeeps(s: Session)
    requires Inv(s) && NoSuccessors(s)
    ensures Inv(DoFinishSession(s))
  {
  }

  // ---------- Every run ----------

  /** The session's own reinstatement ends only while no connection in it has a successor. */
  ghost predicate Safe(s: Session, ops: seq<Op>)
    decreases |ops|
  {
    ops == []
    || ((ops[0].FinishSession? && s.reinstating ==> NoSuccessors(s)) && Safe(Step(s, ops[0]), ops[1..]))
  }

  ghost function RunOf(s: Session, ops: seq<Op>): Session
    decreases |ops|
  {
    if ops == [] then s else RunOf(Step(s, ops[0]), ops[1..])
  }

  lemma {:induction false} InvInEveryRun(s: Session, ops: seq<Op>)
    requires Inv(s) && Safe(s, ops)
    ensures Inv(RunOf(s, ops))
    decreases |ops|
  {
    hide Inv;
    if ops != [] {
      StepKeeps(s, ops[0]);
      InvInEveryRun(Step(s, ops[0]), ops[1..]);
    }
  }

  /** A new session, possibly one that waits for the session it replaces, has no connection. */
  lemma SessionsInEveryRun(reinstating: bool, ops: seq<Op>)
    requires Safe(Session([], reinstating, 0), ops)
    ensures Inv(RunOf(Session([], reinstating, 0), ops))
  {
    InvInEveryRun(Session([], reinstating, 0), ops);
  }

  /** In every run a successor pointer names exactly one connection, which comes later in the list and waits, and no
      other connection names it. */
  lemma SuccessorsInEveryRun(reinstating: bool, ops: seq<Op>, i: nat)
    requires Safe(Session([], reinstating, 0), ops)
    requires var s := RunOf(Session([], reinstating, 0), ops); i < |s.conns| && s.conns[i].successor.To?
    ensures var s := RunOf(Session([], reinstating, 0), ops); var j := Position(s.conns, s.conns[i].successor.id);
      && i < j && s.conns[j].reinstating && s.conns[j].cid == s.conns[i].cid
      && forall k :: 0 <= k < |s.conns| && s.conns[k].successor == s.conns[i].successor ==> k == i
  {
    hide RunOf, Safe, Position;
    SessionsInEveryRun(reinstating, ops);
    var s := RunOf(Session([], reinstating, 0), ops);
    assert Awaited(s.conns, i + 1);
    PositionIs(s.conns, s.nextId, i + 1);
    OnlyPredecessor(s, i + 1);
  }

  // ---------- What each operation is for ----------

  /** s' has the connections of s, those other than i and j as they were. */
  ghost predicate OthersSame(s: Session, s': Session, i: int, j: int) {
    && |s'.conns| == |s.conns| && s'.reinstating == s.reinstating && s'.nextId == s.nextId
    && forall k :: 0 <= k < |s.conns| && k != i && k != j ==> s'.conns[k] == s.conns[k]
  }

  /** Finishing a connection releases the one that waits for it, and clears the pointer; nothing else changes. */
  lemma FinishReleases(s: Session, i: nat, j: nat)
    requires Inv(s) && i < |s.conns| && j < |s.conns| && s.conns[i].successor == To(s.conns[j].id)
    ensures var s' := Step(s, Finish(s.conns[i].id));
      && OthersSame(s, s', i, j) && j == i + 1
      && s'.conns[i] == s.conns[i].(successor := Null)
      && s.conns[j].reinstating && s'.conns[j] == s.conns[j].(reinstating := false)
  {
    hide Position;
    OnlyPredecessor(s, j);
    assert Awaited(s.conns, i + 1);
    PositionIs(s.conns, s.nextId, i);
    PositionIs(s.conns, s.nextId, j);
  }

  /** A connection without a successor has nobody to release. */
  lemma FinishAlone(s: Session, i: nat)
    requires Inv(s) && i < |s.conns| && s.conns[i].successor == Null
    ensures Step(s, Finish(s.conns[i].id)) == s
  {
    hide Position;
    PositionIs(s.conns, s.nextId, i);
  }

  /** Closing and shutting down set just their flag. */
  lemma FlagsSet(s: Session, i: nat)
    requires Inv(s) && i < |s.conns|
    ensures var s' := Step(s, Close(s.conns[i].id));
      OthersSame(s, s', i, i) && s'.conns[i] == s.conns[i].(closing := true)
    ensures var s' := Step(s, ShutDown(s.conns[i].id));
      OthersSame(s, s', i, i) && s'.conns[i] == s.conns[i].(shuttingDown := true)
  {
    hide Position;
    PositionIs(s.conns, s.nextId, i);
  }

  /** Freeing takes the connection out of the list, and out of its predecessor's pointer. */
  lemma FreeRemoves(s: Session, i: nat)
    requires Inv(s) && i < |s.conns| && s.conns[i].shuttingDown && s.conns[i].successor == Null
    ensures var s' := Step(s, Free(s.conns[i].id));
      && |s'.conns| == |s.conns| - 1 && s'.reinstating == s.reinstating && s'.nextId == s.nextId
      && (forall k :: 0 <= k < |s'.conns| ==> s'.conns[k].successor != To(s.conns[i].id))
      && (forall k :: 0 <= k < |s'.conns| ==>
        var c := s.conns[if k < i then k else k + 1];
        s'.conns[k] == c.(successor := if c.successor == To(s.conns[i].id) then Null else c.successor))
  {
    hide Position;
    PositionIs(s.conns, s.nextId, i);
    FreeShape(s, s.conns[i].id);
    OnlyPredecessor(s, i);
  }

  /** A login with the cid of the last, live connection closes that one and puts a waiting one behind it. */
  lemma AddReinstates(s: Session, cid: int)
    requires Inv(s) && s.conns != [] && s.conns[|s.conns| - 1].cid == cid && !s.conns[|s.conns| - 1].shuttingDown
    ensures var n := |s.conns|; var s' := Step(s, Add(cid, true));
      && AddResult(s, cid, true) == Ok && AddResult(s, cid, false) == NoMemory && Step(s, Add(cid, false)) == s
      && |s'.conns| == n + 1 && s'.conns[..n - 1] == s.conns[..n - 1] && s'.reinstating == s.reinstating
      && s'.conns[n - 1] == s.conns[n - 1].(successor := To(s'.conns[n].id), closing := true)
      && s'.conns[n] == Conn(s.nextId, cid, false, false, true, Null) && s'.nextId > s.nextId
  {
    hide Latest;
    assert Latest(s.conns, cid) == |s.conns| - 1;
  }

  /** The first login of a session makes its only connection; it waits if the session does. */
  lemma AddFirst(s: Session, cid: int)
    requires s.conns == []
    ensures var s' := Step(s, Add(cid, true));
      && AddResult(s, cid, true) == Ok && AddResult(s, cid, false) == NoMemory && Step(s, Add(cid, false)) == s
      && s'.conns == [Conn(s.nextId, cid, false, false, s.reinstating, Null)] && s'.reinstating == s.reinstating
      && s'.nextId > s.nextId
  {
  }

  /** Any other login is refused. */
  lemma AddRefused(s: Session, cid: int, memory: bool)
    requires Inv(s) && s.conns != []
    requires s.conns[|s.conns| - 1].cid != cid || s.conns[|s.conns| - 1].shuttingDown
    ensures AddResult(s, cid, memory) == Exists && Step(s, Add(cid, memory)) == s
  {
    hide Latest;
    if Latest(s.conns, cid) >= 0 { LatestIsLast(s, cid); }
  }

  /** When the session's own reinstatement ends, no connection of it waits any longer. */
  lemma FinishSessionReleases(s: Session)
    requires s.reinstating
    ensures var s' := Step(s, FinishSession);
      && !s'.reinstating && |s'.conns| == |s.conns| && s'.nextId == s.nextId
      && forall k :: 0 <= k < |s.conns| ==> s'.conns[k] == s.conns[k].(reinstating := false)
  {
  }

  // ---------- Every connection that is finished can be freed ----------

  lemma FinishedMayFree(s: Session, id: nat)
    requires Inv(s) && Position(s.conns, id) >= 0 && s.conns[Position(s.conns, id)].shuttingDown
    ensures MayFree(Step(s, Finish(id)), id)
  {
    hide Position;
    var i := Position(s.conns, id);
    if s.conns[i].successor == Null {
      FinishAlone(s, i);
    } else {
      assert Awaited(s.conns, i + 1);
      FinishReleases(s, i, i + 1);
      FinishKeeps(s, id);
      PositionIs(Step(s, Finish(id)).conns, s.nextId, i);
    }
  }

  /** Once it can be freed a connection can be until it is. */
  lemma MayFreeStays(s: Session, op: Op, id: nat)
    requires Inv(s) && Inv(Step(s, op)) && MayFree(s, id) && op != Free(id)
    ensures MayFree(Step(s, op), id)
  {
    hide Position, Latest, Chained, NoOrphan;
    var i := Position(s.conns, id);
    var s' := Step(s, op);
    var j := StaysListed(s, op, i);
    PositionIs(s'.conns, s'.nextId, j);
  }

  /** Where connection i is after a step that does not free it. */
  lemma StaysListed(s: Session, op: Op, i: nat) returns (j: nat)
    requires Inv(s) && i < |s.conns| && op != Free(s.conns[i].id)
    requires s.conns[i].shuttingDown && s.conns[i].successor == Null
    ensures var s' := Step(s, op);
      j < |s'.conns| && s'.conns[j].id == s.conns[i].id && s'.conns[j].shuttingDown && s'.conns[j].successor == Null
  {
    hide Position, Latest, Unlinked, Chained, NoOrphan, Listed;
    j := i;
    match op
    case Free(id) => j := FreeStaysListed(s, id, i);
    case Finish(id) => FinishStaysListed(s, id, i);
    case _ =>
  }

  lemma FreeStaysListed(s: Session, id: nat, i: nat) returns (j: nat)
    requires Inv(s) && i < |s.conns| && s.conns[i].id != id
    requires s.conns[i].shuttingDown && s.conns[i].successor == Null
    ensures var s' := Step(s, Free(id));
      j < |s'.conns| && s'.conns[j].id == s.conns[i].id && s'.conns[j].shuttingDown && s'.conns[j].successor == Null
  {
    hide Position;
    j := i;
    if MayFree(s, id) {
      var k := Position(s.conns, id);
      FreeRemoves(s, k);
      if k < i { j := i - 1; }
    }
  }

  lemma FinishStaysListed(s: Session, id: nat, i: nat)
    requires Inv(s) && i < |s.conns| && s.conns[i].shuttingDown && s.conns[i].successor == Null
    ensures var s' := Step(s, Finish(id));
      i < |s'.conns| && s'.conns[i].id == s.conns[i].id && s'.conns[i].shuttingDown && s'.conns[i].successor == Null
  {
    hide Position;
    var k := Position(s.conns, id);
    if k >= 0 && s.conns[k].successor != Null {
      assert Awaited(s.conns, k + 1);
      FinishReleases(s, k, k + 1);
    }
  }

  lemma {:induction false} MayFreeInEveryRun(s: Session, ops: seq<Op>, id: nat)
    requires Inv(s) && Safe(s, ops) && MayFree(s, id) && Free(id) !in ops
    ensures MayFree(RunOf(s, ops), id)
    decreases |ops|
  {
    hide Inv, Step, MayFree;
    if ops != [] {
      StepKeeps(s, ops[0]);
      MayFreeStays(s, ops[0], id);
      MayFreeInEveryRun(Step(s, ops[0]), ops[1..], id);
    }
  }

  /** The connection is in the list and shut down. */
  ghost predicate IsShut(s: Session, id: nat) {
    exists i :: 0 <= i < |s.conns| && s.conns[i].id == id && s.conns[i].shuttingDown
  }

  /** Nothing but freeing it changes that. */
  lemma ShutStays(s: Session, op: Op, id: nat)
    requires Inv(s) && IsShut(s, id) && op != Free(id)
    ensures IsShut(Step(s, op), id)
  {
    hide Inv, Position, Latest, DoFree;
    var i :| 0 <= i < |s.conns| && s.conns[i].id == id && s.conns[i].shuttingDown;
    var s' := Step(s, op);
    match op
    case Free(x) => FreeKeepsShut(s, x, i);
    case _ => assert s'.conns[i].id == id && s'.conns[i].shuttingDown;
  }

  lemma FreeKeepsShut(s: Session, x: nat, i: nat)
    requires Inv(s) && i < |s.conns| && s.conns[i].shuttingDown && x != s.conns[i].id
    ensures IsShut(Step(s, Free(x)), s.conns[i].id)
  {
    hide Inv, Position;
    var s' := Step(s, Free(x));
    var j := i;
    if MayFree(s, x) {
      var k := Position(s.conns, x);
      FreeRemoves(s, k);
      if k < i { j := i - 1; }
    }
    assert s'.conns[j].id == s.conns[i].id && s'.conns[j].shuttingDown;
  }

  lemma {:induction false} ShutInEveryRun(s: Session, ops: seq<Op>, id: nat)
    requires Inv(s) && Safe(s, ops) && IsShut(s, id) && Free(id) !in ops
    ensures Inv(RunOf(s, ops)) && IsShut(RunOf(s, ops), id)
    decreases |ops|
  {
    hide Inv, Step, IsShut;
    if ops != [] {
      StepKeeps(s, ops[0]);
      ShutStays(s, ops[0], id);
      ShutInEveryRun(Step(s, ops[0]), ops[1..], id);
    }
  }

  lemma ShutPosition(s: Session, id: nat)
    requires Inv(s) && IsShut(s, id)
    ensures Position(s.conns, id) >= 0 && s.conns[Position(s.conns, id)].shuttingDown
  {
    hide Position, Chained, NoOrphan;
    var i :| 0 <= i < |s.conns| && s.conns[i].id == id && s.conns[i].shuttingDown;
    PositionIs(s.conns, s.nextId, i);
  }

  /** In every run, whatever happens in between: a connection that has been shut down and then finished can be
      freed. */
  lemma FinishedInEveryRun(s: Session, before: seq<Op>, after: seq<Op>, id: nat)
    requires Inv(s) && Position(s.conns, id) >= 0 && Free(id) !in before && Free(id) !in after
    requires Safe(Step(s, ShutDown(id)), before)
    requires Safe(Step(RunOf(Step(s, ShutDown(id)), before), Finish(id)), after)
    ensures MayFree(RunOf(Step(RunOf(Step(s, ShutDown(id)), before), Finish(id)), after), id)
  {
    FlagsSet(s, Position(s.conns, id));
    var s1 := Step(s, ShutDown(id));
    assert s1.conns[Position(s.conns, id)].id == id && s1.conns[Position(s.conns, id)].shuttingDown;
    hide Inv, RunOf, Safe, MayFree, Position;
    StepKeeps(s, ShutDown(id));
    ShutInEveryRun(s1, before, id);
    var s2 := RunOf(s1, before);
    ShutPosition(s2, id);
    StepKeeps(s2, Finish(id));
    FinishedMayFree(s2, id);
    MayFreeInEveryRun(Step(s2, Finish(id)), after, id);
  }

  // ---------- Ending the session's reinstatement ----------

  /** The condition on runs is exact: with a successor outstanding, ending the session's reinstatement breaks the
      chain. */
  lemma FinishSessionExact(s: Session)
    requires Inv(s) && s.reinstating
    ensures Inv(Step(s, FinishSession)) <==> NoSuccessors(s)
  {
    if NoSuccessors(s) {
      FinishSessionKeeps(s);
    } else {
      var i :| 0 <= i < |s.conns| && s.conns[i].successor != Null;
      assert DoFinishSession(s).conns[i].successor.To?;
    }
  }

  /** What happens then: freeing the successor leaves its predecessor with a pointer to nothing. */
  lemma FinishSessionDangles(s: Session, i: nat)
    requires Inv(s) && s.reinstating && i + 1 < |s.conns|
    requires s.conns[i].successor.To? && s.conns[i + 1].successor == Null
    ensures var id := s.conns[i].successor.id;
      var s' := RunOf(s, [FinishSession, ShutDown(id), Free(id)]);
      i < |s'.conns| && s'.conns[i].successor == To(id) && Position(s'.conns, id) < 0
  {
    hide Position, DoFree, DoFinishSession, Listed;
    var id := s.conns[i].successor.id;
    assert Awaited(s.conns, i + 1);
    var s1 := Step(s, FinishSession);
    AllReleased(s);
    PositionIs(s1.conns, s.nextId, i + 1);
    var s2 := Step(s1, ShutDown(id));
    ListedAlike(s1.conns, s2.conns, s.nextId);
    FreeUnnoticed(s2, i);
    ThreeSteps(s, FinishSession, ShutDown(id), Free(id));
  }

  /** And such a session is reached: it replaces another one, and its first connection is reinstated before the other
      session is gone. */
  lemma SessionDangles(cid: int)
    ensures var s := RunOf(Session([], true, 0), [Add(cid, true), Add(cid, true), FinishSession, ShutDown(1), Free(1)]);
      |s.conns| > 0 && s.conns[0].successor == To(1) && Position(s.conns, 1) < 0
  {
    var s0 := Session([], true, 0);
    var s1 := Step(s0, Add(cid, true));
    assert s1 == Session([Conn(0, cid, false, false, true, Null)], true, 1);
    var s2 := Step(s1, Add(cid, true));
    assert Latest(s1.conns, cid) == 0;
    assert s2 == Session([Conn(0, cid, true, false, true, To(1)), Conn(1, cid, false, false, true, Null)], true, 2);
    hide Position, Latest, Step;
    FinishSessionDangles(s2, 0);
    assert [Add(cid, true), Add(cid, true), FinishSession, ShutDown(1), Free(1)][1..][1..]
        == [FinishSession, ShutDown(1), Free(1)];
  }

  lemma AllReleased(s: Session)
    requires Listed(s.conns, s.nextId)
    ensures var r := DoFinishSession(s); Listed(r.conns, s.nextId) && r.nextId == s.nextId && |r.conns| == |s.conns|
    ensures forall i :: 0 <= i < |s.conns| ==> DoFinishSession(s).conns[i] == s.conns[i].(reinstating := false)
  {
    hide Listed;
    ListedAlike(s.conns, DoFinishSession(s).conns, s.nextId);
  }

  /** A connection that is not marked as waiting is freed without its predecessor being told. */
  lemma FreeUnnoticed(s: Session, i: nat)
    requires Listed(s.conns, s.nextId) && i + 1 < |s.conns|
    requires var c := s.conns[i + 1]; c.shuttingDown && c.successor == Null && !c.reinstating
    ensures var id := s.conns[i + 1].id; var s' := DoFree(s, id);
      i < |s'.conns| && s'.conns[i] == s.conns[i] && Position(s'.conns, id) < 0
  {
    hide Position, Removed;
    var id := s.conns[i + 1].id;
    PositionIs(s.conns, s.nextId, i + 1);
    assert DoFree(s, id).conns == Removed(s.conns, i + 1);
  }

  lemma ThreeSteps(s: Session, a: Op, b: Op, c: Op)
    ensures RunOf(s, [a, b, c]) == Step(Step(Step(s, a), b), c)
  {
    hide Step;
    assert [a, b, c][1..] == [b, c] && [b, c][1..] == [c] && [c][1..] == [];
    assert RunOf(Step(Step(s, a), b), [c]) == Step(Step(Step(s, a), b), c);
    assert RunOf(Step(s, a), [b, c]) == Step(Step(Step(s, a), b), c);
  }
}
