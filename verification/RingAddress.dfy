/** Wrap-around u32 addressing of a buffer-descriptor (BD) ring.

    Every pointer the driver keeps is a 32-bit address, and every step over the ring is unsigned
    arithmetic modulo 2^32. This module states that arithmetic as the driver writes it and proves
    that, for a ring whose bytes fit below 2^32, it is arithmetic on BD indices modulo the BD count. */
module RingAddress {

  const TWO32 := 0x1_0000_0000

  type U32 = x: int | 0 <= x < TWO32

  function Wrap(x: int): U32 {
    x % TWO32
  }

  function Min(a: int, b: int): int {
    if a < b then a else b
  }

  /** The address fields of XAxiDma_BdRing, fixed by BdRingCreate. */
  datatype Layout = Layout(first: U32, last: U32, length: U32, sep: U32, phys: U32, count: nat)

  /** What BdRingCreate establishes: `count` BDs, `sep` bytes apart, that end at or below 2^32. */
  ghost predicate Fits(l: Layout) {
    && l.count > 0
    && At(l, l.count) == l.first + l.length
    && Span(l)
  }

  /** The part of Fits that does not mention the BD count. */
  ghost predicate Span(l: Layout) {
    && 0 < l.sep <= l.length
    && l.first + l.length <= TWO32
    && l.last == l.first + l.length - l.sep
  }

  /** Virtual address of the BD with index i, counted up from the first BD. */
  ghost function At(l: Layout, i: int): int
    decreases if i < 0 then -i else i
  {
    if i == 0 then l.first else if i < 0 then At(l, i + 1) - l.sep else At(l, i - 1) + l.sep
  }

  lemma {:induction false} AtIsProduct(l: Layout, i: int)
    ensures At(l, i) == l.first + l.sep * i
    decreases if i < 0 then -i else i
  {
    if i < 0 { AtIsProduct(l, i + 1); assert l.sep * (i + 1) == l.sep * i + l.sep; }
    if i > 0 { AtIsProduct(l, i - 1); assert l.sep * (i - 1) == l.sep * i - l.sep; }
  }

  /** XAXIDMA_RING_SEEKAHEAD. */
  function SeekAhead(l: Layout, bd: U32, n: int): U32 {
    AheadBytes(l, bd, Wrap(l.sep * n))
  }

  function AheadBytes(l: Layout, bd: U32, bytes: U32): U32 {
    var addr := Wrap(bd + bytes);
    if addr > l.last || bd > addr then Wrap(addr - l.length) else addr
  }

  /** XAXIDMA_RING_SEEKBACK. */
  function SeekBack(l: Layout, bd: U32, n: int): U32 {
    BackBytes(l, bd, Wrap(l.sep * n))
  }

  function BackBytes(l: Layout, bd: U32, bytes: U32): U32 {
    var addr := Wrap(bd - bytes);
    if addr < l.first || bd < addr then Wrap(addr + l.length) else addr
  }

  /** XAxiDma_mBdRingNext. */
  function Next(l: Layout, bd: U32): U32 {
    if bd >= l.last then l.first else Wrap(bd + l.sep)
  }

  /** XAxiDma_mBdRingPrev. */
  function Prev(l: Layout, bd: U32): U32 {
    if bd <= l.first then l.last else Wrap(bd - l.sep)
  }

  /** XAXIDMA_VIRT_TO_PHYS. */
  function VirtToPhys(l: Layout, bd: U32): U32 {
    Wrap(bd + Wrap(l.phys - l.first))
  }

  /** XAXIDMA_PHYS_TO_VIRT. */
  function PhysToVirt(l: Layout, bd: U32): U32 {
    Wrap(Wrap(bd + l.first) - l.phys)
  }

  // Arithmetic used below.

  lemma ScaledOrder(sep: int, i: int, n: int)
    requires sep > 0 && i <= n
    ensures sep * i <= sep * n
    ensures i < n ==> sep * i + sep <= sep * n
  {
    if i < n {
      assert sep * (n - i) >= sep by { assert n - i >= 1; MulGe(sep, n - i); }
    }
  }

  lemma MulGe(a: int, b: int)
    requires a > 0 && b >= 1
    ensures a * b >= a
  {
  }

  lemma ModIs(x: int, n: int, q: int, r: int)
    requires n > 0 && x == q * n + r && 0 <= r < n
    ensures x % n == r && x / n == q
  {
    var q', r' := x / n, x % n;
    assert (q' - q) * n == r - r';
    if q' > q { MulGe(n, q' - q); }
    if q' < q { MulGe(n, q - q'); }
  }

  lemma ModOne(x: int, n: int)
    requires n > 0 && -n <= x < 2 * n
    ensures x % n == if x < 0 then x + n else if x < n then x else x - n
  {
    ModIs(x, n, if x < 0 then -1 else if x < n then 0 else 1,
             if x < 0 then x + n else if x < n then x else x - n);
  }

  /** A slot's address is a u32 inside the ring. */
  lemma FitsProduct(l: Layout)
    ensures Fits(l) <==> l.count > 0 && l.length == l.sep * l.count && Span(l)
  {
    AtIsProduct(l, l.count);
  }

  lemma AtInRing(l: Layout, i: int)
    requires Fits(l) && 0 <= i < l.count
    ensures l.first <= At(l, i) <= l.last < TWO32
    ensures At(l, i) == l.last <==> i == l.count - 1
    ensures At(l, i) == l.first <==> i == 0
  {
    FitsProduct(l);
    AtIsProduct(l, i);
    ScaledOrder(l.sep, 0, i);
    ScaledOrder(l.sep, i, l.count);
    if i < l.count - 1 { ScaledOrder(l.sep, i + 1, l.count); assert l.sep * (i + 1) == l.sep * i + l.sep; }
    else { assert l.sep * l.count == l.sep * i + l.sep; }
    if i > 0 { ScaledOrder(l.sep, 1, i); }
  }

  lemma AtInjective(l: Layout, i: int, j: int)
    requires Fits(l) && At(l, i) == At(l, j)
    ensures i == j
  {
    AtIsProduct(l, i);
    AtIsProduct(l, j);
    if i < j { ScaledOrder(l.sep, i, j); }
    if j < i { ScaledOrder(l.sep, j, i); }
  }

  lemma WrapSmall(x: int)
    requires 0 <= x < TWO32
    ensures Wrap(x) == x
  {
  }

  /** Where AheadBytes lands, stated without the wrap-around. */
  lemma AheadLands(l: Layout, bd: U32, bytes: U32, target: int)
    requires Span(l) && l.first <= bd <= l.last && l.first <= target <= l.last && bytes <= l.length
    requires bd + bytes == target || bd + bytes == target + l.length
    ensures AheadBytes(l, bd, bytes) == target
  {
  }

  lemma BackLands(l: Layout, bd: U32, bytes: U32, target: int)
    requires Span(l) && l.first <= bd <= l.last && l.first <= target <= l.last && bytes <= l.length
    requires bd - bytes == target || bd - bytes == target - l.length
    ensures BackBytes(l, bd, bytes) == target
  {
  }

  /** Distances between slots, without the index arithmetic. */
  lemma AtOffsets(l: Layout, i: int, n: int)
    requires Fits(l) && 0 <= i < l.count && 0 <= n <= l.count
    ensures 0 <= l.sep * n <= l.length
    ensures At(l, i) + l.sep * n == At(l, i + n)
    ensures At(l, i) - l.sep * n == At(l, i - n)
    ensures At(l, i + n) - l.length == At(l, i + n - l.count)
    ensures At(l, i - n) + l.length == At(l, i - n + l.count)
    ensures i < n ==> At(l, i - n) <= l.first - l.sep
  {
    AtIsProduct(l, i);
    AtIsProduct(l, i + n);
    AtIsProduct(l, i - n);
    AtIsProduct(l, i + n - l.count);
    AtIsProduct(l, i - n + l.count);
    FitsProduct(l);
    ScaledOffsets(l.sep, i, n, l.count);
  }

  lemma ScaledOffsets(sep: int, i: int, n: int, c: int)
    requires sep > 0 && 0 <= n <= c
    ensures 0 <= sep * n <= sep * c
    ensures sep * i + sep * n == sep * (i + n) && sep * i - sep * n == sep * (i - n)
    ensures sep * (i + n) - sep * c == sep * (i + n - c) && sep * (i - n) + sep * c == sep * (i - n + c)
    ensures i < n ==> sep * (i - n) <= -sep
  {
    ScaledOrder(sep, 0, n);
    ScaledOrder(sep, n, c);
    if i < n { ScaledOrder(sep, i, n); }
  }

  lemma AheadAt(l: Layout, i: int, n: int, j: int)
    requires Fits(l) && 0 <= i < l.count && 0 <= n <= l.count && 0 <= j < l.count
    requires i + n == j || i + n == j + l.count
    ensures 0 <= At(l, i) < TWO32
    ensures SeekAhead(l, At(l, i), n) == At(l, j)
  {
    AtInRing(l, i);
    AtInRing(l, j);
    AtOffsets(l, i, n);
    WrapSmall(l.sep * n);
    AheadLands(l, At(l, i), l.sep * n, At(l, j));
  }

  lemma BackAt(l: Layout, i: int, n: int, j: int)
    requires Fits(l) && 0 <= i < l.count && 0 <= n <= l.count && 0 <= j < l.count
    requires i - n == j || i - n == j - l.count
    ensures 0 <= At(l, i) < TWO32
    ensures SeekBack(l, At(l, i), n) == At(l, j)
  {
    AtInRing(l, i);
    AtInRing(l, j);
    AtOffsets(l, i, n);
    WrapSmall(l.sep * n);
    BackLands(l, At(l, i), l.sep * n, At(l, j));
  }

  /** SEEKAHEAD moves an index forward modulo the BD count, for every distance up to a full turn and
      even when the intermediate sum crosses 2^32. */
  lemma SeekAheadIsIndexStep(l: Layout, i: int, n: int)
    requires Fits(l) && 0 <= i < l.count && 0 <= n <= l.count
    ensures 0 <= At(l, i) < TWO32
    ensures SeekAhead(l, At(l, i), n) == At(l, (i + n) % l.count)
  {
    ModOne(i + n, l.count);
    AheadAt(l, i, n, (i + n) % l.count);
  }

  /** Which addresses AheadBytes takes to a place inside the ring: two of them, a ring's length apart. */
  lemma AheadExact(l: Layout, bd: U32, bytes: U32, target: int)
    requires Span(l) && bytes <= l.length && l.first <= target <= l.last
    ensures AheadBytes(l, bd, bytes) == target <==> bd == target - bytes || bd == target - bytes + l.length
  {
    var sum := bd + bytes;
    if sum < TWO32 {
      WrapSmall(sum);
      if sum > l.last { ModOne(sum - l.length, TWO32); }
    } else {
      ModOne(sum, TWO32);
      if bytes > 0 { ModOne(sum - TWO32 - l.length, TWO32); }
    }
  }

  /** SEEKAHEAD by n BDs reaches the BD with index k from exactly two addresses: n BDs before it, and the length of the
      ring above that. One of them is a BD of the ring; the other is not, and lies below or above the ring. */
  lemma SeekAheadExact(l: Layout, bd: U32, n: int, k: int)
    requires Fits(l) && 0 < n <= l.count && 0 <= k < l.count
    ensures SeekAhead(l, bd, n) == At(l, k) <==> bd == At(l, k - n) || bd == At(l, k - n + l.count)
    ensures if k < n then At(l, k - n) < l.first else At(l, k - n + l.count) > l.last
  {
    AtInRing(l, k);
    AtOffsets(l, k, n);
    WrapSmall(l.sep * n);
    AheadExact(l, bd, l.sep * n, At(l, k));
    if k >= n { AtInRing(l, k - n); }
  }

  /** SEEKBACK moves an index backward modulo the BD count. */
  lemma SeekBackIsIndexStep(l: Layout, i: int, n: int)
    requires Fits(l) && 0 <= i < l.count && 0 <= n <= l.count
    ensures 0 <= At(l, i) < TWO32
    ensures SeekBack(l, At(l, i), n) == At(l, (i - n) % l.count)
  {
    ModOne(i - n, l.count);
    BackAt(l, i, n, (i - n) % l.count);
  }

  /** SEEKAHEAD and SEEKBACK by the same distance undo each other. */
  lemma SeeksAreInverse(l: Layout, i: int, n: int)
    requires Fits(l) && 0 <= i < l.count && 0 <= n <= l.count
    ensures 0 <= At(l, i) < TWO32
    ensures SeekBack(l, SeekAhead(l, At(l, i), n), n) == At(l, i)
    ensures SeekAhead(l, SeekBack(l, At(l, i), n), n) == At(l, i)
  {
    var f, b := (i + n) % l.count, (i - n) % l.count;
    ModOne(i + n, l.count);
    ModOne(i - n, l.count);
    AheadAt(l, i, n, f);
    BackAt(l, f, n, i);
    BackAt(l, i, n, b);
    AheadAt(l, b, n, i);
  }

  lemma ModAdd(x: int, k: int, n: int)
    requires n > 0
    ensures (x % n + k) % n == (x + k) % n
  {
    var q, r := x / n, x % n;
    var q', r' := (r + k) / n, (r + k) % n;
    assert x + k == (q + q') * n + r';
    ModIs(x + k, n, q + q', r');
  }

  /** One step of mBdRingNext is one index step; mBdRingPrev takes it back. */
  lemma NextIsIndexStep(l: Layout, i: int)
    requires Fits(l) && 0 <= i < l.count
    ensures 0 <= At(l, i) < TWO32
    ensures Next(l, At(l, i)) == At(l, (i + 1) % l.count)
    ensures Prev(l, Next(l, At(l, i))) == At(l, i)
  {
    AtInRing(l, i);
    ModOne(i + 1, l.count);
    AtInRing(l, (i + 1) % l.count);
    if i + 1 < l.count {
      AtOffsets(l, i, 1);
      WrapSmall(At(l, i + 1));
      WrapSmall(At(l, i));
    }
  }

  function NextTimes(l: Layout, bd: U32, n: nat): U32 {
    if n == 0 then bd else Next(l, NextTimes(l, bd, n - 1))
  }

  /** Any number of mBdRingNext steps walks the indices in order, modulo the BD count. */
  lemma {:induction false} NextTimesIsIndexStep(l: Layout, i: int, n: nat)
    requires Fits(l) && 0 <= i < l.count
    ensures 0 <= At(l, i) < TWO32
    ensures NextTimes(l, At(l, i), n) == At(l, (i + n) % l.count)
  {
    AtInRing(l, i);
    ModOne(i, l.count);
    if n > 0 {
      NextTimesIsIndexStep(l, i, n - 1);
      NextIsIndexStep(l, (i + n - 1) % l.count);
      ModAdd(i + n - 1, 1, l.count);
    }
  }

  /** n steps of mBdRingNext equal one SEEKAHEAD by n. */
  lemma NextTimesIsSeekAhead(l: Layout, i: int, n: nat)
    requires Fits(l) && 0 <= i < l.count && n <= l.count
    ensures 0 <= At(l, i) < TWO32
    ensures NextTimes(l, At(l, i), n) == SeekAhead(l, At(l, i), n)
  {
    NextTimesIsIndexStep(l, i, n);
    SeekAheadIsIndexStep(l, i, n);
  }

  lemma WrapAdd(x: int, k: int)
    ensures Wrap(Wrap(x) + k) == Wrap(x + k)
  {
    ModAdd(x, k, TWO32);
  }

  /** The translations without their intermediate wrap-around. */
  lemma TranslationFlat(l: Layout, bd: U32)
    ensures VirtToPhys(l, bd) == Wrap(bd + l.phys - l.first)
    ensures PhysToVirt(l, bd) == Wrap(bd + l.first - l.phys)
  {
    WrapAdd(l.phys - l.first, bd);
    WrapAdd(bd + l.first, 0 - l.phys);
  }

  /** Physical and virtual addresses translate back and forth, wherever the two regions lie. */
  lemma TranslationRoundTrip(l: Layout, bd: U32)
    ensures PhysToVirt(l, VirtToPhys(l, bd)) == bd
    ensures VirtToPhys(l, PhysToVirt(l, bd)) == bd
  {
    var p, v := VirtToPhys(l, bd), PhysToVirt(l, bd);
    TranslationFlat(l, bd);
    TranslationFlat(l, p);
    TranslationFlat(l, v);
    WrapAdd(bd + l.phys - l.first, l.first - l.phys);
    WrapAdd(bd + l.first - l.phys, l.phys - l.first);
    WrapSmall(bd);
  }

  /** The address check of BdRingCreate (the ring must not span address 0), as computed in u32. */
  predicate SpanCheck(virt: U32, bytes: int) {
    !(virt > Wrap(virt + Wrap(bytes) - 1))
  }

  /** The u32 check decides "the ring ends at or below 2^32" for every base address exactly when the
      ring itself is no larger than 2^32 bytes: a larger product wraps before it is compared. */
  lemma SpanCheckIsExact(bytes: int)
    requires bytes > 0
    ensures (forall virt: U32 :: SpanCheck(virt, bytes) <==> virt + bytes <= TWO32) <==> bytes <= TWO32
  {
    if bytes <= TWO32 {
      forall virt: U32 ensures SpanCheck(virt, bytes) <==> virt + bytes <= TWO32 {
      }
    } else {
      assert SpanCheck(0, bytes) && !(0 + bytes <= TWO32);
    }
  }
}
