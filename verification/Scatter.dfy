/** Scatter lists and the cursor that turns one into the pieces of a transfer. */
module Scatter {
  import opened RingAddress

  datatype Seg = Seg(addr: U32, len: int)

  ghost predicate Positive(s: seq<Seg>) {
    forall i :: 0 <= i < |s| ==> s[i].len > 0
  }

  /** The byte addresses of a segment, in order. */
  ghost function Span(g: Seg): (m: seq<int>)
    ensures |m| == if g.len > 0 then g.len else 0
    ensures forall i :: 0 <= i < |m| ==> m[i] == g.addr + i
  {
    seq(if g.len > 0 then g.len else 0, i => g.addr + i)
  }

  ghost function Memory(s: seq<Seg>): seq<int> {
    if s == [] then [] else Span(s[0]) + Memory(s[1..])
  }

  /** The segments cut off after sz bytes. */
  ghost function Pieces(s: seq<Seg>, sz: int): (p: seq<Seg>)
    ensures |p| <= |s| && (s != [] ==> p != [])
  {
    if s == [] then []
    else
      var d := Min(s[0].len, sz);
      [Seg(s[0].addr, d)] + if d == sz then [] else Pieces(s[1..], sz - d)
  }

  /** What is left of sz after k segments. */
  ghost function Left(s: seq<Seg>, sz: int, k: nat): int
    requires k <= |s|
  {
    if k == 0 then sz else Left(s[1..], sz - Min(s[0].len, sz), k - 1)
  }

  lemma {:induction false} LeftStep(s: seq<Seg>, sz: int, k: nat)
    requires k < |s|
    ensures Left(s, sz, k + 1) == Left(s, sz, k) - Min(s[k].len, Left(s, sz, k))
    decreases k
  {
    if k > 0 { LeftStep(s[1..], sz - Min(s[0].len, sz), k - 1); }
  }

  lemma {:induction false} PieceAt(s: seq<Seg>, sz: int, k: nat)
    requires k < |Pieces(s, sz)|
    ensures Pieces(s, sz)[k] == Seg(s[k].addr, Min(s[k].len, Left(s, sz, k)))
    ensures k + 1 < |s| ==> (k + 1 == |Pieces(s, sz)| <==> Left(s, sz, k + 1) == 0)
    decreases k
  {
    if k > 0 { PieceAt(s[1..], sz - Min(s[0].len, sz), k - 1); }
  }

  /** Nothing behind the last piece matters. */
  lemma {:induction false} PiecesOfPrefix(s: seq<Seg>, sz: int)
    ensures Pieces(s[..|Pieces(s, sz)|], sz) == Pieces(s, sz)
  {
    if s != [] {
      var d, n := Min(s[0].len, sz), |Pieces(s, sz)|;
      assert s[..n][0] == s[0] && s[..n][1..] == s[1..][..n - 1];
      if d != sz { PiecesOfPrefix(s[1..], sz - d); }
    }
  }

  /** Cutting off after sz bytes keeps the first sz bytes, or all if there are fewer. */
  lemma {:induction false} PiecesMemory(s: seq<Seg>, sz: int)
    requires Positive(s) && sz > 0
    ensures Positive(Pieces(s, sz))
    ensures Memory(Pieces(s, sz)) == Memory(s)[..Min(sz, |Memory(s)|)]
  {
    if s != [] {
      var d := Min(s[0].len, sz);
      var first, p := Seg(s[0].addr, d), Pieces(s, sz);
      assert p[0] == first;
      assert Span(first) == Span(s[0])[..d];
      if d != sz {
        PiecesMemory(s[1..], sz - d);
        assert p[1..] == Pieces(s[1..], sz - d);
      } else {
        assert p[1..] == [];
      }
    }
  }

  /** sg_cnt_update: how many segments are needed for tsz bytes. */
  method CountSegs(s: seq<Seg>, tsz: int) returns (j: nat)
    ensures j == |Pieces(s, tsz)|
  {
    var left := tsz;
    j := 0;
    while j < |s|
      invariant j <= |s| && left == Left(s, tsz, j)
      invariant |Pieces(s, tsz)| == j + |Pieces(s[j..], left)|
    {
      LeftStep(s, tsz, j);
      assert s[j..][0] == s[j] && s[j..][1..] == s[j + 1..];
      left := left - Min(s[j].len, left);
      j := j + 1;
      if left == 0 { break; }
    }
  }

  /** dma_buf_t of the scatter-list kind: the segments copied, and a cursor over them. */
  class DmaBuf {
    var segs: seq<Seg>
    var sz: int
    var i: nat
    var len: int

    /** dma_buf_sg_init. */
    constructor (list: seq<Seg>, sz: int)
      ensures segs == list[..|Pieces(list, sz)|] && this.sz == sz
      ensures Pieces(segs, sz) == Pieces(list, sz) && |segs| == |Pieces(segs, sz)|
    {
      var cnt := CountSegs(list, sz);
      PiecesOfPrefix(list, sz);
      segs, this.sz := list[..cnt], sz;
      i, len := 0, 0;
    }

    ghost predicate Valid()
      reads this
    {
      |segs| == |Pieces(segs, sz)| && i <= |segs| && (i > 0 ==> len == Left(segs, sz, i))
    }

    /** dma_buf_first. */
    method First() returns (res: int, addr: U32)
      requires |segs| == |Pieces(segs, sz)| && segs != []
      modifies this`i, this`len
      ensures Valid() && i == 1 && Pieces(segs, sz)[0] == Seg(addr, res)
    {
      PieceAt(segs, sz, 0);
      LeftStep(segs, sz, 0);
      i, len := 0, sz;
      res, addr := Min(segs[0].len, len), segs[0].addr;
      i, len := i + 1, len - res;
    }

    /** dma_buf_next; behind the last segment the address stays as it was. */
    method Next(was: U32) returns (res: int, addr: U32)
      requires Valid() && i > 0
      modifies this`i, this`len
      ensures Valid() && i == if old(i) < |segs| then old(i) + 1 else old(i)
      ensures if old(i) < |segs| then Pieces(segs, sz)[old(i)] == Seg(addr, res) else res == 0 && addr == was
    {
      res, addr := 0, was;
      if i < |segs| {
        PieceAt(segs, sz, i);
        LeftStep(segs, sz, i);
        res, addr := Min(segs[i].len, len), segs[i].addr;
        i, len := i + 1, len - res;
      }
    }
  }
}
