/** A transfer put on a ring: BDs allocated, filled with the pieces of a scatter list and handed to the hardware. */
module SubmitModel {
  import opened RingAddress
  import opened Descriptor
  import opened RingModel
  import opened RingTheorems
  import opened Scatter

  /** What the BDs of a transfer carry as their id: all of them the request, or the first one alone. */
  datatype Owner = All(id: U32) | First(id: U32)

  function IdFor(own: Owner, i: nat): U32 {
    if own.All? || i == 0 then own.id else 0
  }

  ghost predicate Distinct(s: seq<nat>) {
    forall i, j :: 0 <= i < j < |s| ==> s[i] != s[j]
  }

  /** A BD filled for one piece. */
  function Written(bd: Bd, g: Seg, mask: int, id: U32): (w: Bd)
    requires mask == MAX_TRANSFER_LEN || mask == MCHAN_MAX_TRANSFER_LEN
    ensures w == bd.(bufa := w.bufa, ctrl := w.ctrl, id := id)
  {
    SetCtrl(SetLength(SetBufAddr(bd, g.addr), g.len, mask), false, false).(id := id)
  }

  /** The BDs at `slots` filled in turn. */
  ghost function Filled(bds: seq<Bd>, slots: seq<nat>, pieces: seq<Seg>, mask: int, own: Owner): (b: seq<Bd>)
    requires mask == MAX_TRANSFER_LEN || mask == MCHAN_MAX_TRANSFER_LEN
    requires |pieces| <= |slots| && SlotsIn(slots, |bds|)
    ensures |b| == |bds|
    decreases |pieces|
  {
    var n := |pieces|;
    if n == 0 then bds
    else
      var b := Filled(bds, slots, pieces[..n - 1], mask, own);
      b[slots[n - 1] := Written(b[slots[n - 1]], pieces[n - 1], mask, IdFor(own, n - 1))]
  }

  lemma FilledNone(bds: seq<Bd>, slots: seq<nat>, pieces: seq<Seg>, mask: int, own: Owner)
    requires mask == MAX_TRANSFER_LEN || mask == MCHAN_MAX_TRANSFER_LEN
    requires SlotsIn(slots, |bds|)
    ensures Filled(bds, slots, pieces[..0], mask, own) == bds
  {
  }

  lemma FilledNext(bds: seq<Bd>, slots: seq<nat>, pieces: seq<Seg>, k: nat, mask: int, own: Owner)
    requires mask == MAX_TRANSFER_LEN || mask == MCHAN_MAX_TRANSFER_LEN
    requires k < |pieces| <= |slots| && SlotsIn(slots, |bds|)
    ensures var b := Filled(bds, slots, pieces[..k], mask, own);
      Filled(bds, slots, pieces[..k + 1], mask, own) ==
      b[slots[k] := Written(b[slots[k]], pieces[k], mask, IdFor(own, k))]
  {
    hide Written;
    assert pieces[..k + 1][..k] == pieces[..k];
  }

  /** The first BD starts the packet and the last one ends it. */
  ghost function Bracketed(bds: seq<Bd>, first: nat, last: nat): (b: seq<Bd>)
    requires first < |bds| && last < |bds|
    ensures |b| == |bds|
  {
    var b := if first == last then bds else bds[last := SetCtrl(bds[last], false, true)];
    b[first := SetCtrl(b[first], true, first == last)]
  }

  /** The pieces the filling loop gets to: it stops at the first one, after the start, that is not positive. */
  ghost function Run(pieces: seq<Seg>, k: nat): (m: nat)
    requires 0 < k <= |pieces|
    ensures k <= m <= |pieces|
    ensures forall i :: k <= i < m ==> pieces[i].len > 0
    ensures m < |pieces| ==> pieces[m].len <= 0
    decreases |pieces| - k
  {
    if k == |pieces| || pieces[k].len <= 0 then k else Run(pieces, k + 1)
  }

  lemma RunNext(pieces: seq<Seg>, k: nat)
    requires 0 < k <= |pieces|
    ensures Run(pieces, k) == if k == |pieces| || pieces[k].len <= 0 then k else Run(pieces, k + 1)
  {
  }

  ghost predicate ValidMask(r: Ring) {
    r.mask == MAX_TRANSFER_LEN || r.mask == MCHAN_MAX_TRANSFER_LEN
  }

  /** The ring after BDs for the pieces have been allocated and n of them filled. */
  ghost function Prepared(r: Ring, pieces: seq<Seg>, n: nat, own: Owner): (r': Ring)
    requires 0 < n <= |pieces| <= |r.free| && SlotsIn(r.free, |r.bds|) && ValidMask(r)
    ensures r' == DoAlloc(r, |pieces|).(bds := r'.bds) && |r'.bds| == |r.bds|
  {
    var slots := r.free[..|pieces|];
    var filled := Filled(r.bds, slots, pieces[..n], r.mask, own);
    DoAlloc(r, |pieces|).(bds := Bracketed(filled, slots[0], slots[n - 1]))
  }

  ghost function SubmitStatus(r: Ring, pieces: seq<Seg>, n: nat, own: Owner): Status
    requires SlotsIn(r.free, |r.bds|) && SlotsIn(r.pre, |r.bds|) && ValidMask(r)
    requires pieces != [] ==> 0 < n <= |pieces|
  {
    if pieces == [] || |r.free| < |pieces| then AllocStatus(r, |pieces|)
    else ToHwStatus(Prepared(r, pieces, n, own), n, r.free[0])
  }

  ghost function Submit(r: Ring, pieces: seq<Seg>, n: nat, own: Owner): (r': Ring)
    requires SlotsIn(r.free, |r.bds|) && SlotsIn(r.pre, |r.bds|) && ValidMask(r)
    requires pieces != [] ==> 0 < n <= |pieces|
    ensures |r'.bds| == |r.bds|
  {
    if pieces == [] || |r.free| < |pieces| then r
    else DoToHw(Prepared(r, pieces, n, own), n, r.free[0])
  }

  /** Queued BDs are not among those taken from the free group. */
  lemma QueuedApart(r: Ring, n: nat)
    requires Shape(r) && n <= |r.free|
    ensures SlotsIn(r.hw, |r.bds|) && forall i :: 0 <= i < |r.hw| ==> r.hw[i] !in r.free[..n]
  {
    ShapeSlots(r);
    OrderDistinct(r);
    var o := Order(r);
    assert forall i :: 0 <= i < |r.hw| ==> r.hw[i] == o[|r.post| + i];
    assert forall j :: 0 <= j < |r.free| ==> r.free[j] == o[|r.post| + |r.hw| + |r.pre| + j];
  }

  // ---------- What is on the ring afterwards ----------

  lemma FreeSlots(r: Ring)
    requires Shape(r)
    ensures SlotsIn(r.free, |r.bds|) && SlotsIn(r.pre, |r.bds|)
    ensures Distinct(r.free)
  {
    ShapeSlots(r);
    OrderDistinct(r);
    var o, d := Order(r), |r.post| + |r.hw| + |r.pre|;
    assert forall i :: 0 <= i < |r.free| ==> r.free[i] == o[d + i];
  }

  /** The address can be used without realigning. */
  ghost predicate Aligned(bd: Bd, addr: U32) {
    SetBufAddr(bd, addr).bufa == addr
  }

  /** The piece fits into the BD. */
  ghost predicate Suits(bd: Bd, g: Seg, mask: int) {
    0 < g.len <= mask && Aligned(bd, g.addr)
  }

  ghost predicate AllSuit(bds: seq<Bd>, slots: seq<nat>, pieces: seq<Seg>, mask: int) {
    && |slots| == |pieces| && SlotsIn(slots, |bds|)
    && forall i :: 0 <= i < |pieces| ==> Suits(bds[slots[i]], pieces[i], mask)
  }

  /** The words of a BD after the address and length of a piece have been written: a refused one stays as it was. */
  function AddrAfter(bd: Bd, addr: U32): U32 {
    if TakesAddr(bd, addr) then addr else bd.bufa
  }

  function LengthAfter(bd: Bd, len: int, mask: int): int {
    if 0 < len <= mask then len else Length(bd, mask)
  }

  /** With a realignment engine any address will do, else the bus width decides. */
  predicate TakesAddr(bd: Bd, addr: U32) {
    bd.hasDre / 0x100 % 0x10 != 0 || (if bd.hasDre % 0x100 == 0 then addr == 0 else addr % (bd.hasDre % 0x100) == 0)
  }

  lemma WrittenIs(bd: Bd, g: Seg, mask: int, id: U32)
    requires mask == MAX_TRANSFER_LEN || mask == MCHAN_MAX_TRANSFER_LEN
    ensures var w := Written(bd, g, mask, id);
      && w.bufa == AddrAfter(bd, g.addr) && Length(w, mask) == LengthAfter(bd, g.len, mask) && w.id == id
      && !TxSof(w) && !Eof(w, false)
  {
    hide Bit, SetLength, SetCtrl, SetBufAddr;
  }

  lemma {:induction false} FilledAt(bds: seq<Bd>, slots: seq<nat>, pieces: seq<Seg>, mask: int, own: Owner)
    requires mask == MAX_TRANSFER_LEN || mask == MCHAN_MAX_TRANSFER_LEN
    requires |pieces| <= |slots| && SlotsIn(slots, |bds|)
    requires Distinct(slots)
    ensures var b := Filled(bds, slots, pieces, mask, own);
      && (forall i :: 0 <= i < |pieces| ==> b[slots[i]] == Written(bds[slots[i]], pieces[i], mask, IdFor(own, i)))
      && (forall i :: 0 <= i < |bds| && i !in slots[..|pieces|] ==> b[i] == bds[i])
    decreases |pieces|
  {
    hide Written;
    var n := |pieces|;
    if n > 0 {
      FilledAt(bds, slots, pieces[..n - 1], mask, own);
      assert slots[..n] == slots[..n - 1] + [slots[n - 1]];
    }
  }

  /** Only BDs at `slots` may differ. */
  ghost predicate SameElsewhere(bds: seq<Bd>, b: seq<Bd>, slots: seq<nat>) {
    |b| == |bds| && forall i :: 0 <= i < |bds| && i !in slots ==> b[i] == bds[i]
  }

  /** The BDs at `slots` hold the pieces, make up one packet and belong to the request. */
  ghost predicate Holds(bds: seq<Bd>, slots: seq<nat>, pieces: seq<Seg>, mask: int, own: Owner)
    requires |slots| == |pieces| && SlotsIn(slots, |bds|)
  {
    forall i :: 0 <= i < |slots| ==>
      var bd := bds[slots[i]];
      && bd.bufa == pieces[i].addr && Length(bd, mask) == pieces[i].len && bd.id == IdFor(own, i)
      && (TxSof(bd) <==> i == 0) && (Eof(bd, false) <==> i == |slots| - 1)
  }

  /** The same whatever the pieces are: each BD has the words that were not refused. */
  ghost predicate Carries(bds: seq<Bd>, b: seq<Bd>, slots: seq<nat>, pieces: seq<Seg>, mask: int, own: Owner)
    requires |slots| == |pieces| && SlotsIn(slots, |bds|) && |b| == |bds|
  {
    forall i :: 0 <= i < |slots| ==>
      var bd := b[slots[i]];
      && bd.bufa == AddrAfter(bds[slots[i]], pieces[i].addr)
      && Length(bd, mask) == LengthAfter(bds[slots[i]], pieces[i].len, mask) && bd.id == IdFor(own, i)
      && (TxSof(bd) <==> i == 0) && (Eof(bd, false) <==> i == |slots| - 1)
  }

  lemma BracketedCarries(bds: seq<Bd>, slots: seq<nat>, pieces: seq<Seg>, mask: int, own: Owner)
    requires mask == MAX_TRANSFER_LEN || mask == MCHAN_MAX_TRANSFER_LEN
    requires 0 < |slots| == |pieces| && SlotsIn(slots, |bds|)
    requires Distinct(slots)
    ensures var b := Bracketed(Filled(bds, slots, pieces, mask, own), slots[0], slots[|slots| - 1]);
      Carries(bds, b, slots, pieces, mask, own) && SameElsewhere(bds, b, slots)
  {
    hide Bit, SetCtrl, Written, Filled, AddrAfter, LengthAfter, Length;
    FilledAt(bds, slots, pieces, mask, own);
    assert slots[..|pieces|] == slots;
    forall i | 0 <= i < |slots|
      ensures var w := Written(bds[slots[i]], pieces[i], mask, IdFor(own, i));
        && w.bufa == AddrAfter(bds[slots[i]], pieces[i].addr)
        && Length(w, mask) == LengthAfter(bds[slots[i]], pieces[i].len, mask) && w.id == IdFor(own, i)
        && !TxSof(w) && !Eof(w, false)
    {
      WrittenIs(bds[slots[i]], pieces[i], mask, IdFor(own, i));
    }
  }

  lemma CarriesHolds(bds: seq<Bd>, b: seq<Bd>, slots: seq<nat>, pieces: seq<Seg>, mask: int, own: Owner)
    requires |slots| == |pieces| && SlotsIn(slots, |bds|) && |b| == |bds|
    requires Carries(bds, b, slots, pieces, mask, own) && AllSuit(bds, slots, pieces, mask)
    ensures Holds(b, slots, pieces, mask, own)
  {
    hide Bit, Length;
  }

  lemma MarkedCarries(bds: seq<Bd>, b: seq<Bd>, s: seq<nat>, slots: seq<nat>, pieces: seq<Seg>, mask: int, own: Owner)
    requires |slots| == |pieces| && SlotsIn(slots, |bds|) && |b| == |bds| && SlotsIn(s, |b|)
    requires Carries(bds, b, slots, pieces, mask, own)
    ensures Carries(bds, MarkSent(b, s), slots, pieces, mask, own)
  {
    hide MarkSent, Bit, AddrAfter, LengthAfter;
  }

  lemma MarkedHolds(bds: seq<Bd>, s: seq<nat>, slots: seq<nat>, pieces: seq<Seg>, mask: int, own: Owner)
    requires |slots| == |pieces| && SlotsIn(slots, |bds|) && SlotsIn(s, |bds|) && Holds(bds, slots, pieces, mask, own)
    ensures Holds(MarkSent(bds, s), slots, pieces, mask, own)
  {
    hide MarkSent, Bit;
  }

  /** A handed-over set, whatever its pieces. */
  lemma HandedOver(r: Ring, pieces: seq<Seg>, n: nat, own: Owner)
    requires Shape(r) && r.pre == [] && ValidMask(r) && 0 < n <= |pieces| <= |r.free|
    requires SlotsIn(r.free, |r.bds|) && SubmitStatus(r, pieces, n, own) == Success
    ensures var p := Prepared(r, pieces, n, own); var r' := Submit(r, pieces, n, own);
      && r'.pre == r.free[n..|pieces|] && r'.hw == r.hw + r.free[..n] && r'.free == r.free[|pieces|..]
      && r'.post == r.post && r'.bds == MarkSent(p.bds, r.free[..n])
      && forall i :: 0 <= i < n ==> !Complete(r'.bds[r.free[i]])
  {
    hide Shape;
    var p := Prepared(r, pieces, n, own);
    PartSlots(r.free, n, |r.bds|);
    PartSlots(r.free, |pieces|, |r.bds|);
    PartOfPart(r.free, |pieces|, n);
    assert p.pre == r.free[..|pieces|] && p.hw == r.hw && p.free == r.free[|pieces|..] && p.post == r.post;
    hide Prepared, MarkSent, Complete, DoToHw, ToHwStatus, SlotsIn;
    ToHwTakes(p, n, r.free[0]);
    MarkedIncomplete(p.bds, r.free, n);
  }

  lemma PartOfPart(free: seq<nat>, m: nat, n: nat)
    requires n <= m <= |free|
    ensures free[..m][..n] == free[..n] && free[..m][n..] == free[n..m]
  {
  }

  lemma PrefixDistinct(s: seq<nat>, n: nat)
    requires n <= |s| && Distinct(s)
    ensures Distinct(s[..n])
  {
  }

  lemma MarkedIncomplete(bds: seq<Bd>, free: seq<nat>, n: nat)
    requires n <= |free| && SlotsIn(free[..n], |bds|) && SlotsIn(free, |bds|)
    ensures forall i :: 0 <= i < n ==> !Complete(MarkSent(bds, free[..n])[free[i]])
  {
    hide MarkSent, Complete;
    assert forall i :: 0 <= i < n ==> free[..n][i] == free[i];
  }

  lemma ToHwTakes(p: Ring, n: nat, head: nat)
    requires SlotsIn(p.pre, |p.bds|) && n > 0 && ToHwStatus(p, n, head) == Success
    ensures var r' := DoToHw(p, n, head);
      && n <= |p.pre| && r'.hw == p.hw + p.pre[..n] && r'.pre == p.pre[n..] && r'.free == p.free && r'.post == p.post
      && r'.bds == MarkSent(p.bds, p.pre[..n])
  {
    hide MarkSent;
  }

  lemma AllRun(pieces: seq<Seg>)
    requires pieces != [] && Positive(pieces)
    ensures Run(pieces, 1) == |pieces| && pieces[..|pieces|] == pieces
  {
  }

  /** The BDs of the pieces have moved from free to the hardware, hold the pieces in order as one packet and are
      incomplete; no other BD has changed. */
  ghost predicate Taken(r: Ring, r': Ring, pieces: seq<Seg>, own: Owner) {
    var n := |pieces|;
    && n <= |r.free| && |r'.bds| == |r.bds| && SlotsIn(r.free, |r.bds|)
    && r'.pre == [] && r'.hw == r.hw + r.free[..n] && r'.free == r.free[n..] && r'.post == r.post
    && SlotsIn(r.free[..n], |r'.bds|) && Holds(r'.bds, r.free[..n], pieces, r.mask, own)
    && (forall i :: 0 <= i < n ==> !Complete(r'.bds[r.free[i]]))
    && SameElsewhere(r.bds, r'.bds, r.free[..n])
  }

  /** Pieces that suit their BDs are taken. */
  lemma SubmitTakes(r: Ring, pieces: seq<Seg>, own: Owner)
    requires Shape(r) && r.pre == [] && ValidMask(r) && 0 < |pieces| <= |r.free| && SlotsIn(r.free, |r.bds|)
    requires AllSuit(r.bds, r.free[..|pieces|], pieces, r.mask)
    ensures SubmitStatus(r, pieces, |pieces|, own) == Success && Taken(r, Submit(r, pieces, |pieces|, own), pieces, own)
  {
    hide Shape;
    var p := Prepared(r, pieces, |pieces|, own);
    PreparedHolds(r, pieces, own);
    hide Run, Prepared, Suits, MarkSent, Complete, Positive, Holds, DoToHw, ToHwStatus;
    PreparedAccepted(p, pieces, own);
    HandedOver(r, pieces, |pieces|, own);
    hide Submit, SubmitStatus;
    TakenMarked(r, p, Submit(r, pieces, |pieces|, own), pieces, own);
  }

  lemma TakenMarked(r: Ring, p: Ring, r': Ring, pieces: seq<Seg>, own: Owner)
    requires |pieces| <= |r.free| && |p.bds| == |r.bds| == |r'.bds| && SlotsIn(r.free, |r.bds|)
    requires var n := |pieces|;
      r'.pre == r.free[n..n] && r'.hw == r.hw + r.free[..n] && r'.free == r.free[n..] && r'.post == r.post
    requires SlotsIn(r.free[..|pieces|], |p.bds|) && r'.bds == MarkSent(p.bds, r.free[..|pieces|])
    requires Holds(p.bds, r.free[..|pieces|], pieces, r.mask, own)
    requires forall i :: 0 <= i < |pieces| ==> !Complete(r'.bds[r.free[i]])
    requires SameElsewhere(r.bds, p.bds, r.free[..|pieces|])
    ensures Taken(r, r', pieces, own)
  {
    hide MarkSent, Complete, Holds;
    var slots := r.free[..|pieces|];
    MarkedHolds(p.bds, slots, slots, pieces, r.mask, own);
  }

  lemma {:induction false} FilledPrefix(bds: seq<Bd>, slots: seq<nat>, m: nat, pieces: seq<Seg>, mask: int, own: Owner)
    requires mask == MAX_TRANSFER_LEN || mask == MCHAN_MAX_TRANSFER_LEN
    requires |pieces| <= m <= |slots| && SlotsIn(slots, |bds|) && SlotsIn(slots[..m], |bds|)
    ensures Filled(bds, slots[..m], pieces, mask, own) == Filled(bds, slots, pieces, mask, own)
    decreases |pieces|
  {
    hide Written;
    if pieces != [] { FilledPrefix(bds, slots, m, pieces[..|pieces| - 1], mask, own); }
  }

  lemma PartCarries(r: Ring, pieces: seq<Seg>, m: nat, own: Owner)
    requires Shape(r) && r.pre == [] && ValidMask(r) && 0 < m <= |pieces| <= |r.free| && SlotsIn(r.free, |r.bds|)
    ensures SlotsIn(r.free[..m], |r.bds|)
    ensures var p := Prepared(r, pieces, m, own);
      && p.pre == r.free[..|pieces|] && p.mask == r.mask && p.isRx == r.isRx
      && Carries(r.bds, p.bds, r.free[..m], pieces[..m], r.mask, own) && SameElsewhere(r.bds, p.bds, r.free[..m])
  {
    hide Shape, Filled, Bracketed, Carries, Distinct, SlotsIn, SameElsewhere, Prepared;
    FreeSlots(r);
    PartSlots(r.free, m, |r.bds|);
    PrefixDistinct(r.free, m);
    PartPrepared(r, pieces, m, own);
    BracketedCarries(r.bds, r.free[..m], pieces[..m], r.mask, own);
  }

  lemma PartPrepared(r: Ring, pieces: seq<Seg>, m: nat, own: Owner)
    requires r.pre == [] && ValidMask(r) && 0 < m <= |pieces| <= |r.free|
    requires SlotsIn(r.free, |r.bds|) && SlotsIn(r.free[..m], |r.bds|)
    ensures var p := Prepared(r, pieces, m, own); var slots := r.free[..m];
      && p.pre == r.free[..|pieces|] && p.mask == r.mask && p.isRx == r.isRx
      && p.bds == Bracketed(Filled(r.bds, slots, pieces[..m], r.mask, own), slots[0], slots[m - 1])
  {
    hide Filled, Bracketed, SlotsIn;
    PartSlots(r.free, |pieces|, |r.bds|);
    PartOfPart(r.free, |pieces|, m);
    FilledPrefix(r.bds, r.free[..|pieces|], m, pieces[..m], r.mask, own);
  }

  lemma PartHolds(r: Ring, pieces: seq<Seg>, m: nat, own: Owner)
    requires Shape(r) && r.pre == [] && ValidMask(r) && 0 < m <= |pieces| <= |r.free| && SlotsIn(r.free, |r.bds|)
    requires AllSuit(r.bds, r.free[..m], pieces[..m], r.mask)
    ensures SlotsIn(r.free[..m], |r.bds|)
    ensures var p := Prepared(r, pieces, m, own);
      && p.pre == r.free[..|pieces|] && p.mask == r.mask && Holds(p.bds, r.free[..m], pieces[..m], r.mask, own)
      && SameElsewhere(r.bds, p.bds, r.free[..m])
  {
    hide Shape, Prepared, Carries, Holds, AllSuit, SlotsIn, SameElsewhere, ValidMask;
    PartCarries(r, pieces, m, own);
    CarriesHolds(r.bds, Prepared(r, pieces, m, own).bds, r.free[..m], pieces[..m], r.mask, own);
  }

  lemma PreparedHolds(r: Ring, pieces: seq<Seg>, own: Owner)
    requires Shape(r) && r.pre == [] && ValidMask(r) && 0 < |pieces| <= |r.free| && SlotsIn(r.free, |r.bds|)
    requires AllSuit(r.bds, r.free[..|pieces|], pieces, r.mask)
    ensures SlotsIn(r.free[..|pieces|], |r.bds|)
    ensures var slots := r.free[..|pieces|]; var p := Prepared(r, pieces, |pieces|, own);
      && p.pre == slots && p.mask == r.mask && Holds(p.bds, slots, pieces, r.mask, own)
      && SameElsewhere(r.bds, p.bds, slots)
    ensures Run(pieces, 1) == |pieces| && Positive(pieces)
  {
    assert Positive(pieces);
    AllRun(pieces);
    hide Shape, Holds, AllSuit, Run, Prepared, Positive, SlotsIn, SameElsewhere;
    PartHolds(r, pieces, |pieces|, own);
  }

  lemma PreparedAccepted(p: Ring, pieces: seq<Seg>, own: Owner)
    requires 0 < |p.pre| == |pieces| && SlotsIn(p.pre, |p.bds|) && Holds(p.bds, p.pre, pieces, p.mask, own)
    requires Positive(pieces)
    ensures Accepts(p, |pieces|, p.pre[0]) && ToHwStatus(p, |pieces|, p.pre[0]) == Success
  {
    hide Bit;
  }

  // ---------- Lists with a piece that is not positive ----------

  lemma PartAccepted(p: Ring, pieces: seq<Seg>, m: nat, own: Owner)
    requires 0 < m <= |pieces| == |p.pre| && SlotsIn(p.pre, |p.bds|) && SlotsIn(p.pre[..m], |p.bds|)
    requires Holds(p.bds, p.pre[..m], pieces[..m], p.mask, own) && Positive(pieces[..m])
    ensures ToHwStatus(p, m, p.pre[0]) == Success
  {
    hide Bit;
    forall i | 0 <= i < m ensures Length(p.bds[p.pre[i]], p.mask) != 0 {
      assert p.pre[..m][i] == p.pre[i];
    }
    assert p.pre[..m][m - 1] == p.pre[m - 1] && p.pre[..m][0] == p.pre[0];
  }

  /** If the pieces up to the first that is not positive suit their BDs, those are handed over with success, and the
      BDs of all others stay in pre. */
  lemma RunHandedOver(r: Ring, pieces: seq<Seg>, own: Owner)
    requires Shape(r) && r.pre == [] && ValidMask(r) && 0 < |pieces| <= |r.free| && SlotsIn(r.free, |r.bds|)
    requires AllSuit(r.bds, r.free[..Run(pieces, 1)], pieces[..Run(pieces, 1)], r.mask)
    ensures var m := Run(pieces, 1);
      SubmitStatus(r, pieces, m, own) == Success && Submit(r, pieces, m, own).pre == r.free[m..|pieces|]
  {
    var m := Run(pieces, 1);
    var p := Prepared(r, pieces, m, own);
    assert Positive(pieces[..m]);
    hide Shape, AllSuit, Run, Prepared, Holds, Positive, Submit;
    PartHolds(r, pieces, m, own);
    PartSlots(r.free, m, |r.bds|);
    PartSlots(r.free, |pieces|, |r.bds|);
    PartOfPart(r.free, |pieces|, m);
    hide SlotsIn, ToHwStatus, ValidMask;
    PartAccepted(p, pieces, m, own);
    assert SubmitStatus(r, pieces, m, own) == Success;
    hide SubmitStatus;
    HandedOver(r, pieces, m, own);
  }

  /** A scatter list with an empty segment in the middle, on any ring: the transfer succeeds, and two BDs stay in
      pre. */
  lemma ZeroLengthStrands(r: Ring, own: Owner)
    requires Shape(r) && r.pre == [] && ValidMask(r) && 3 <= |r.free| && SlotsIn(r.free, |r.bds|)
    ensures var list := [Seg(0, 4), Seg(0, 0), Seg(0, 4)];
      && Pieces(list, 8) == list && Run(list, 1) == 1
      && SubmitStatus(r, list, 1, own) == Success && Submit(r, list, 1, own).pre == r.free[1..3]
  {
    var list := [Seg(0, 4), Seg(0, 0), Seg(0, 4)];
    PiecesThree(list[0], list[1], list[2]);
    assert list[..1] == [Seg(0, 4)] && Suits(r.bds[r.free[0]], Seg(0, 4), r.mask);
    assert AllSuit(r.bds, r.free[..1], list[..1], r.mask);
    hide Shape, AllSuit, Submit, SubmitStatus;
    RunHandedOver(r, list, own);
  }

  lemma PiecesThree(a: Seg, b: Seg, c: Seg)
    requires a == Seg(0, 4) && b == Seg(0, 0) && c == Seg(0, 4)
    ensures Pieces([a, b, c], 8) == [a, b, c]
  {
    assert [a, b, c][1..] == [b, c] && [b, c][1..] == [c] && [c][1..] == [];
    assert Pieces([c], 4) == [c];
    assert Pieces([b, c], 4) == [b] + Pieces([c], 4);
  }

  // ---------- The ring stays in order ----------

  lemma {:induction false} FilledStatus(bds: seq<Bd>, slots: seq<nat>, pieces: seq<Seg>, mask: int, own: Owner)
    requires mask == MAX_TRANSFER_LEN || mask == MCHAN_MAX_TRANSFER_LEN
    requires |pieces| <= |slots| && SlotsIn(slots, |bds|)
    ensures forall i :: 0 <= i < |bds| ==> Filled(bds, slots, pieces, mask, own)[i].sts == bds[i].sts
    decreases |pieces|
  {
    hide Written;
    if pieces != [] { FilledStatus(bds, slots, pieces[..|pieces| - 1], mask, own); }
  }

  lemma PreparedStatus(r: Ring, pieces: seq<Seg>, n: nat, own: Owner)
    requires 0 < n <= |pieces| <= |r.free| && SlotsIn(r.free, |r.bds|) && ValidMask(r)
    ensures forall i :: 0 <= i < |r.bds| ==> Complete(Prepared(r, pieces, n, own).bds[i]) == Complete(r.bds[i])
  {
    hide Filled, SetCtrl;
    FilledStatus(r.bds, r.free[..|pieces|], pieces[..n], r.mask, own);
  }

  /** Submitting is a sequence of ring operations, so what holds of every run still holds. */
  lemma SubmitKeeps(r: Ring, pieces: seq<Seg>, n: nat, own: Owner)
    requires Inv(r) && SlotsIn(r.free, |r.bds|) && SlotsIn(r.pre, |r.bds|) && ValidMask(r)
    requires pieces != [] ==> 0 < n <= |pieces|
    ensures Inv(Submit(r, pieces, n, own))
  {
    hide Inv, Shape, DoToHw, Prepared, Order, Complete;
    if pieces != [] && |pieces| <= |r.free| {
      var r1, p := DoAlloc(r, |pieces|), Prepared(r, pieces, n, own);
      AllocKeeps(r, |pieces|);
      PreparedStatus(r, pieces, n, own);
      OtherBds(r1, p);
      ToHwKeeps(p, n, r.free[0]);
    }
  }

  lemma OtherBds(r: Ring, r': Ring)
    requires Inv(r) && r' == r.(bds := r'.bds) && |r'.bds| == |r.bds|
    requires forall i :: 0 <= i < |r.bds| ==> Complete(r'.bds[i]) == Complete(r.bds[i])
    ensures Inv(r')
  {
    hide Complete, DoneCount, InOrder, EngineTracks, At, Arc;
    assert Order(r') == Order(r);
    SameHardware(r, r');
  }

  // ---------- The bytes ----------

  /** The pieces the BDs at `slots` describe. */
  ghost function Described(bds: seq<Bd>, slots: seq<nat>, mask: int): (p: seq<Seg>)
    requires SlotsIn(slots, |bds|)
  {
    seq(|slots|, i requires 0 <= i < |slots| => Seg(bds[slots[i]].bufa, Length(bds[slots[i]], mask)))
  }

  /** The BDs submitted for a scatter list describe its first sz bytes, or all of them if there are fewer, in order. */
  lemma SubmitDescribes(r: Ring, list: seq<Seg>, sz: int, own: Owner)
    requires Shape(r) && r.pre == [] && ValidMask(r) && SlotsIn(r.free, |r.bds|)
    requires list != [] && Positive(list) && sz > 0 && |Pieces(list, sz)| <= |r.free|
    requires AllSuit(r.bds, r.free[..|Pieces(list, sz)|], Pieces(list, sz), r.mask)
    ensures var n := |Pieces(list, sz)|; var r' := Submit(r, Pieces(list, sz), n, own);
      && SlotsIn(r.free[..n], |r'.bds|) && r'.hw == r.hw + r.free[..n]
      && Run(Pieces(list, sz), 1) == n
      && Memory(Described(r'.bds, r.free[..n], r.mask)) == Memory(list)[..Min(sz, |Memory(list)|)]
  {
    hide Shape, Memory, Pieces, Suits, Submit, SubmitStatus;
    var p := Pieces(list, sz);
    SubmitTakes(r, p, own);
    PiecesMemory(list, sz);
    AllRun(p);
    assert Described(Submit(r, p, |p|, own).bds, r.free[..|p|], r.mask) == p;
  }

  // ---------- Pieces that do not suit their BDs ----------

  /** What the BD describes after the piece has been written to it. */
  function PieceAfter(bd: Bd, g: Seg, mask: int): Seg {
    Seg(AddrAfter(bd, g.addr), LengthAfter(bd, g.len, mask))
  }

  /** The BD describes the piece after all: it takes address and length, or holds a refused one already. */
  predicate Matches(bd: Bd, g: Seg, mask: int) {
    && (TakesAddr(bd, g.addr) || bd.bufa == g.addr)
    && (0 < g.len <= mask || Length(bd, mask) == g.len)
  }

  lemma CarriedAccepted(p: Ring, bds: seq<Bd>, pieces: seq<Seg>, m: nat, own: Owner)
    requires 0 < m <= |pieces| == |p.pre| && |p.bds| == |bds|
    requires SlotsIn(p.pre, |bds|) && SlotsIn(p.pre[..m], |bds|)
    requires Carries(bds, p.bds, p.pre[..m], pieces[..m], p.mask, own)
    ensures ToHwStatus(p, m, p.pre[0]) == Success <==>
      forall i :: 0 <= i < m ==> LengthAfter(bds[p.pre[i]], pieces[i].len, p.mask) != 0
  {
    hide Bit, Length, LengthAfter, AddrAfter;
    forall i | 0 <= i < m
      ensures Length(p.bds[p.pre[i]], p.mask) == LengthAfter(bds[p.pre[i]], pieces[i].len, p.mask)
    {
      assert p.pre[..m][i] == p.pre[i] && pieces[..m][i] == pieces[i];
    }
    assert p.pre[..m][m - 1] == p.pre[m - 1] && p.pre[..m][0] == p.pre[0];
  }

  /** A transfer succeeds exactly when every BD of it has a length afterwards, be it an old one. */
  lemma AcceptedExact(r: Ring, pieces: seq<Seg>, n: nat, own: Owner)
    requires Shape(r) && r.pre == [] && ValidMask(r) && 0 < n <= |pieces| <= |r.free| && SlotsIn(r.free, |r.bds|)
    ensures SubmitStatus(r, pieces, n, own) == Success <==>
      forall i :: 0 <= i < n ==> LengthAfter(r.bds[r.free[i]], pieces[i].len, r.mask) != 0
  {
    var p := Prepared(r, pieces, n, own);
    hide Shape, Prepared, Carries, LengthAfter, AddrAfter, ToHwStatus, ValidMask;
    PartCarries(r, pieces, n, own);
    PartSlots(r.free, n, |r.bds|);
    PartSlots(r.free, |pieces|, |r.bds|);
    PartOfPart(r.free, |pieces|, n);
    CarriedAccepted(p, r.bds, pieces, n, own);
    assert forall i :: 0 <= i < n ==> p.pre[i] == r.free[i];
  }

  /** Then every allocated BD is handed over exactly when every piece after the first has a positive length; else the
      rest of them stay in pre. */
  lemma AllHandedOver(r: Ring, pieces: seq<Seg>, own: Owner)
    requires Shape(r) && r.pre == [] && ValidMask(r) && 0 < |pieces| <= |r.free| && SlotsIn(r.free, |r.bds|)
    requires forall i :: 0 <= i < Run(pieces, 1) ==> LengthAfter(r.bds[r.free[i]], pieces[i].len, r.mask) != 0
    ensures SubmitStatus(r, pieces, Run(pieces, 1), own) == Success
    ensures Submit(r, pieces, Run(pieces, 1), own).pre == [] <==> forall i :: 1 <= i < |pieces| ==> pieces[i].len > 0
  {
    hide Submit, SubmitStatus, Shape, LengthAfter;
    AcceptedExact(r, pieces, Run(pieces, 1), own);
    HandedOver(r, pieces, Run(pieces, 1), own);
  }

  /** And the BDs describe the pieces exactly when each takes its piece or held a refused word of it already. */
  lemma DescribesExact(r: Ring, pieces: seq<Seg>, n: nat, own: Owner)
    requires Shape(r) && r.pre == [] && ValidMask(r) && 0 < n <= |pieces| <= |r.free| && SlotsIn(r.free, |r.bds|)
    requires SubmitStatus(r, pieces, n, own) == Success
    ensures var r' := Submit(r, pieces, n, own);
      && r'.hw == r.hw + r.free[..n] && SlotsIn(r.free[..n], |r'.bds|)
      && (forall i :: 0 <= i < n ==>
        Described(r'.bds, r.free[..n], r.mask)[i] == PieceAfter(r.bds[r.free[i]], pieces[i], r.mask))
      && (Described(r'.bds, r.free[..n], r.mask) == pieces[..n]
          <==> forall i :: 0 <= i < n ==> Matches(r.bds[r.free[i]], pieces[i], r.mask))
  {
    var p := Prepared(r, pieces, n, own);
    hide Shape, Prepared, Carries, ToHwStatus, ValidMask, Submit, SubmitStatus, SlotsIn;
    PartCarries(r, pieces, n, own);
    HandedOver(r, pieces, n, own);
    MarkedCarries(r.bds, p.bds, r.free[..n], r.free[..n], pieces[..n], r.mask, own);
    CarriedDescribes(r.bds, Submit(r, pieces, n, own).bds, r.free, pieces, n, r.mask, own);
  }

  lemma CarriedDescribes(bds: seq<Bd>, b: seq<Bd>, free: seq<nat>, pieces: seq<Seg>, n: nat, mask: int, own: Owner)
    requires n <= |pieces| && n <= |free| && SlotsIn(free[..n], |bds|) && SlotsIn(free, |bds|) && |b| == |bds|
    requires Carries(bds, b, free[..n], pieces[..n], mask, own)
    ensures forall i :: 0 <= i < n ==> Described(b, free[..n], mask)[i] == PieceAfter(bds[free[i]], pieces[i], mask)
    ensures Described(b, free[..n], mask) == pieces[..n]
      <==> forall i :: 0 <= i < n ==> Matches(bds[free[i]], pieces[i], mask)
  {
    hide Bit, Length, TakesAddr;
    var d := Described(b, free[..n], mask);
    forall i | 0 <= i < n ensures d[i] == PieceAfter(bds[free[i]], pieces[i], mask) {
      assert free[..n][i] == free[i] && pieces[..n][i] == pieces[i];
    }
    if d == pieces[..n] {
      forall i | 0 <= i < n ensures Matches(bds[free[i]], pieces[i], mask) {
        assert d[i] == pieces[..n][i];
      }
    }
  }

  /** An oversized piece for a BD that still has the length 64 of an earlier transfer: the transfer succeeds with that
      length. */
  lemma OversizedKeepsLength(r: Ring, own: Owner)
    requires Shape(r) && r.pre == [] && 1 <= |r.free| && SlotsIn(r.free, |r.bds|)
    requires r.mask == MAX_TRANSFER_LEN && Length(r.bds[r.free[0]], r.mask) == 64
    ensures var pieces := [Seg(0, 0x80_0000)];
      && SubmitStatus(r, pieces, 1, own) == Success && SlotsIn(r.free[..1], |Submit(r, pieces, 1, own).bds|)
      && Described(Submit(r, pieces, 1, own).bds, r.free[..1], r.mask) == [Seg(0, 64)]
  {
    var pieces := [Seg(0, 0x80_0000)];
    hide Shape, Submit, SubmitStatus;
    AcceptedExact(r, pieces, 1, own);
    DescribesExact(r, pieces, 1, own);
    assert Described(Submit(r, pieces, 1, own).bds, r.free[..1], r.mask)[0] == Seg(0, 64);
  }
}
