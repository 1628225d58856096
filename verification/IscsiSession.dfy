/** The session as the target keeps it: its connection list, updated in place. */
module IscsiSession {
  import opened Reinstatement

  class ConnList {
    var conns: seq<Conn>
    var reinstating: bool
    var nextId: nat

    function S(): Session
      reads this
    {
      Session(conns, reinstating, nextId)
    }

    constructor (reinstating: bool)
      ensures S() == Session([], reinstating, 0)
    {
      conns, this.reinstating, nextId := [], reinstating, 0;
    }

    /** conn_lookup: from the end of the list. */
    method Lookup(cid: int) returns (i: int)
      ensures i == Latest(conns, cid)
    {
      i := |conns| - 1;
      while i >= 0
        invariant -1 <= i < |conns| && Latest(conns, cid) == Latest(conns[..i + 1], cid)
        decreases i
      {
        if conns[i].cid == cid { return; }
        assert conns[..i + 1][..i] == conns[..i];
        i := i - 1;
      }
    }

    /** __add_conn; `memory` is whether the new connection could be set up. */
    method Add(cid: int, memory: bool) returns (err: Result)
      modifies this
      ensures err == AddResult(old(S()), cid, memory) && S() == DoAdd(old(S()), cid, memory)
    {
      hide Latest;
      var conn := Lookup(cid);
      var reinstatement := false;
      if conn >= 0 && !conns[conn].shuttingDown {
        reinstatement := true;
      } else if conns != [] {
        return Exists;
      }
      if !memory { return NoMemory; }
      var new_ := Conn(nextId, cid, false, false, reinstating, Null);
      nextId := nextId + 1;
      conns := conns + [new_];
      if reinstatement {
        conns := conns[conn := conns[conn].(successor := To(new_.id))];
        conns := conns[|conns| - 1 := conns[|conns| - 1].(reinstating := true)];
        conns := conns[conn := conns[conn].(closing := true)];
      }
      return Ok;
    }

    /** What the source calls a bug if it does not hold of a successor. */
    static predicate Waits(conns: seq<Conn>, id: nat) {
      var j := Position(conns, id);
      j >= 0 && conns[j].reinstating
    }

    /** The connection at i names that at k. */
    static predicate Names(conns: seq<Conn>, i: int, k: int)
      requires 0 <= i < |conns| && 0 <= k < |conns|
    {
      conns[i].successor.To? && Position(conns, conns[i].successor.id) == k
    }

    /** The connection is gone: what waited for it is released. */
    method Finish(id: nat)
      requires var i := Position(conns, id);
        i >= 0 && (conns[i].successor.To? ==> Waits(conns, conns[i].successor.id))
      modifies this`conns
      ensures S() == DoFinish(old(S()), id)
      ensures var was := old(conns); var i := Position(was, id);
        |conns| == |was| && forall k :: 0 <= k < |was| ==>
          conns[k] == was[k].(successor := if k == i then Null else was[k].successor,
                              reinstating := was[k].reinstating && !Names(was, i, k))
    {
      hide Position;
      var i := Position(conns, id);
      if conns[i].successor != Null {
        var j := Position(conns, conns[i].successor.id);
        conns := conns[j := conns[j].(reinstating := false)];
        conns := conns[i := conns[i].(successor := Null)];
      }
    }

    /** sess_reinst_finished. */
    method FinishSession()
      requires reinstating
      modifies this
      ensures S() == DoFinishSession(old(S()))
    {
      var i := 0;
      while i < |conns|
        invariant 0 <= i <= |conns| == |old(conns)| && nextId == old(nextId)
        invariant forall k :: 0 <= k < i ==> conns[k] == old(conns)[k].(reinstating := false)
        invariant forall k :: i <= k < |conns| ==> conns[k] == old(conns)[k]
      {
        conns := conns[i := conns[i].(reinstating := false)];
        i := i + 1;
      }
      reinstating := false;
    }

    /** conn_free, for a connection that is shut down and has no successor. */
    method Free(id: nat)
      requires MayFree(S(), id)
      modifies this`conns
      ensures S() == DoFree(old(S()), id)
    {
      hide Position, Unlinked;
      var i := Position(conns, id);
      if conns[i].reinstating {
        UnlinkPredecessor(id);
      }
      conns := conns[..i] + conns[i + 1..];
    }

    /** Clear the first pointer to a connection. */
    method UnlinkPredecessor(id: nat)
      modifies this`conns
      ensures conns == Unlinked(old(conns), id)
    {
      hide Unlinked;
      var k := 0;
      while k < |conns|
        invariant 0 <= k <= |conns| && conns == old(conns)
        invariant forall j :: 0 <= j < k ==> conns[j].successor != To(id)
      {
        if conns[k].successor == To(id) {
          UnlinkedFirst(conns, id, k);
          conns := conns[k := conns[k].(successor := Null)];
          return;
        }
        k := k + 1;
      }
      UnlinkedFirst(conns, id, k);
    }
  }
}
