/** iSCSI header and data digests over scatter lists. */
module Digest {
  import opened Crc32c

  const PAGE_SIZE := 4096
  const TWO32 := 0x1_0000_0000
  const INT_MAX := 0x7FFF_FFFF

  /** An entry of a scatter list: `length` bytes at `offset` of a page. */
  datatype Entry = Entry(page: seq<bv8>, offset: int, length: int)

  ghost predicate Fits(e: Entry) {
    0 <= e.offset && 0 <= e.length && e.offset + e.length <= |e.page|
  }

  ghost predicate AllFit(s: seq<Entry>) {
    forall i :: 0 <= i < |s| ==> Fits(s[i])
  }

  function Data(e: Entry): (d: seq<bv8>)
    requires Fits(e)
    ensures |d| == e.length
  {
    e.page[e.offset..e.offset + e.length]
  }

  /** The bytes a scatter list describes. */
  ghost function Flat(s: seq<Entry>): seq<bv8>
    requires AllFit(s)
  {
    if s == [] then [] else Data(s[0]) + Flat(s[1..])
  }

  /** How many bytes bring n up to a multiple of four. */
  function PadLength(n: nat): (p: nat)
    ensures p < 4 && (n + p) % 4 == 0
  {
    (n + 3) / 4 * 4 - n
  }

  /** A word in little-endian memory. */
  function WordBytes(w: bv32): (b: seq<bv8>)
    ensures |b| == 4
  {
    [(w & 0xFF) as bv8, ((w >> 8) & 0xFF) as bv8, ((w >> 16) & 0xFF) as bv8, (w >> 24) as bv8]
  }

  /** The digest: CRC32C of the data followed by the padding that rounds it up to whole words. */
  ghost function DigestOf(data: seq<bv8>, padding: bv32): bv32 {
    Inverted(Crc(0xFFFF_FFFF, data + WordBytes(padding)[..PadLength(|data|)]))
  }

  function Inverted(w: bv32): bv32 {
    !w
  }

  // ---------- Splitting a list ----------

  lemma {:induction false} FlatConcat(a: seq<Entry>, b: seq<Entry>)
    requires AllFit(a) && AllFit(b)
    ensures AllFit(a + b) && Flat(a + b) == Flat(a) + Flat(b)
  {
    hide Fits, Data;
    if a == [] {
      assert a + b == b;
    } else {
      assert (a + b)[1..] == a[1..] + b;
      FlatConcat(a[1..], b);
    }
  }

  // ---------- The digest of a list ----------

  lemma FlatStep(s: seq<Entry>, i: nat)
    requires AllFit(s) && i <= |s| && AllFit(s[i..])
    ensures i == |s| ==> Flat(s[i..]) == []
    ensures i < |s| ==> Fits(s[i]) && AllFit(s[i + 1..]) && Flat(s[i..]) == Data(s[i]) + Flat(s[i + 1..])
  {
    hide Fits, Data;
    if i < |s| {
      assert s[i..][1..] == s[i + 1..];
    }
  }

  /** At least nbytes bytes are described by the entries from `start` on. */
  ghost predicate Covers(s: seq<Entry>, start: nat, nbytes: int) {
    start <= |s| && AllFit(s) && AllFit(s[start..]) && 0 <= nbytes <= |Flat(s[start..])|
  }

  /** One entry more: d bytes of it belong to the data. */
  lemma OneEntry(s: seq<Entry>, i: nat, all: seq<bv8>, done: nat, left: nat, d: nat, crc0: bv32)
    requires Covers(s, i, left) && left > 0 && done + left <= |all| && all[done..] == Flat(s[i..])
    requires i < |s| && d == if left < s[i].length then left else s[i].length
    ensures Fits(s[i]) && d <= left && Covers(s, i + 1, left - d)
    ensures left - d > 0 ==> all[done + d..] == Flat(s[i + 1..])
    ensures Crc(crc0, all[..done + d]) == Crc(Crc(crc0, all[..done]), Data(s[i])[..d])
  {
    hide Fits, Data, Crc, Flat;
    FlatStep(s, i);
    var e := Data(s[i]);
    assert all[done..] == e + Flat(s[i + 1..]);
    assert all[..done + d] == all[..done] + e[..d] by {
      assert all[done..][..d] == e[..d];
    }
    CrcConcat(crc0, all[..done], e[..d]);
    if left > d {
      assert all[done + d..] == all[done..][d..];
    }
  }

  /** The loop of evaluate_crc32_from_sg, on the entries from `start` on. */
  method Checksum(sg: array<Entry>, start: nat, nbytes: int) returns (crc: bv32)
    requires Covers(sg[..], start, nbytes)
    ensures crc == Crc(0xFFFF_FFFF, Flat(sg[..][start..])[..nbytes])
  {
    hide Crc, Fits, Data, Flat, AllFit;
    ghost var s := sg[..];
    ghost var all := Flat(s[start..]);
    crc := 0xFFFF_FFFF;
    CrcNone(crc, all);
    var left, i := nbytes, start;
    while left > 0
      invariant 0 <= left <= nbytes <= |all| && start <= i <= |s| && AllFit(s) && AllFit(s[i..])
      invariant left > 0 ==> Covers(s, i, left) && all[nbytes - left..] == Flat(s[i..])
      invariant crc == Crc(0xFFFF_FFFF, all[..nbytes - left])
      decreases left > 0, |s| - i
    {
      FlatStep(s, i);
      var d := if left < sg[i].length then left else sg[i].length;
      OneEntry(s, i, all, nbytes - left, left, d, 0xFFFF_FFFF);
      crc := Crc(crc, Data(sg[i])[..d]);
      left := left - d;
      i := i + 1;
    }
  }

  /** evaluate_crc32_from_sg, on the entries from `start` on. */
  method Evaluate(sg: array<Entry>, start: nat, nbytes: int, padding: bv32) returns (digest: bv32)
    requires Covers(sg[..], start, nbytes) && nbytes + 3 <= INT_MAX
    ensures digest == DigestOf(Flat(sg[..][start..])[..nbytes], padding)
  {
    hide Crc, Fits, Flat, AllFit, PadLength, WordBytes, DigestOf, Inverted;
    var crc := Checksum(sg, start, nbytes);
    var pad := PadLength(nbytes);
    WithPadding(Flat(sg[..][start..])[..nbytes], padding);
    if pad != 0 {
      crc := Crc(crc, WordBytes(padding)[..pad]);
    }
    digest := Inverted(crc);
  }

  lemma WithPadding(data: seq<bv8>, padding: bv32)
    ensures var crc, pad := Crc(0xFFFF_FFFF, data), PadLength(|data|);
      DigestOf(data, padding) == Inverted(if pad != 0 then Crc(crc, WordBytes(padding)[..pad]) else crc)
  {
    hide CrcByte;
    CrcConcat(0xFFFF_FFFF, data, WordBytes(padding)[..PadLength(|data|)]);
  }

  // ---------- Page-shaped lists ----------

  /** Whole pages in a row: only the first entry may start inside its page and only the last may end inside its
      page. */
  ghost predicate PageShaped(s: seq<Entry>) {
    && 0 < |s| && AllFit(s) && s[0].offset < PAGE_SIZE
    && (forall i :: 0 <= i < |s| ==> |s[i].page| == PAGE_SIZE)
    && (forall i :: 0 < i < |s| ==> s[i].offset == 0)
    && (forall i :: 0 <= i < |s| - 1 ==> s[i].offset + s[i].length == PAGE_SIZE)
  }

  lemma FlatOne(e: Entry)
    requires Fits(e)
    ensures AllFit([e]) && Flat([e]) == Data(e)
  {
    assert [e][1..] == [];
  }

  lemma {:induction false} PrefixLength(s: seq<Entry>, i: nat)
    requires PageShaped(s) && i < |s|
    ensures AllFit(s[..i]) && |Flat(s[..i])| == if i == 0 then 0 else i * PAGE_SIZE - s[0].offset
  {
    if i > 0 {
      PrefixLength(s, i - 1);
      assert s[..i] == s[..i - 1] + [s[i - 1]];
      FlatOne(s[i - 1]);
      FlatConcat(s[..i - 1], [s[i - 1]]);
    }
  }

  /** The position of a byte: entry, and distance from the start of the entry. */
  function PageOf(s: seq<Entry>, offset: nat): nat
    requires |s| > 0 && 0 <= s[0].offset
  {
    (offset + s[0].offset) / PAGE_SIZE
  }

  /** The entry cut down to what lies from in-page offset `from` on. */
  function Cut(e: Entry, from: int): Entry {
    e.(offset := from, length := e.length - (from - e.offset))
  }

  /** Where the cut falls in its entry. */
  lemma CutPosition(s: seq<Entry>, offset: nat)
    requires PageShaped(s) && offset <= |Flat(s)| && PageOf(s, offset) < |s|
    ensures var i := PageOf(s, offset); var k := (offset + s[0].offset) % PAGE_SIZE - s[i].offset;
      AllFit(s[..i]) && offset == |Flat(s[..i])| + k && 0 <= k <= s[i].length
  {
    hide Flat;
    var i := PageOf(s, offset);
    PrefixLength(s, i);
    if i == |s| - 1 {
      assert s == s[..i] + [s[i]];
      FlatOne(s[i]);
      FlatConcat(s[..i], [s[i]]);
    }
  }

  lemma CutData(e: Entry, from: int)
    requires Fits(e) && e.offset <= from <= e.offset + e.length
    ensures Fits(Cut(e, from)) && Data(Cut(e, from)) == Data(e)[from - e.offset..]
  {
  }

  lemma DropConcat(p: seq<bv8>, d: seq<bv8>, r: seq<bv8>, k: nat)
    requires k <= |d|
    ensures (p + (d + r))[|p| + k..] == d[k..] + r
  {
  }

  /** The bytes from `offset` on are those of the list from the page of `offset` on, its entry cut down. */
  lemma CutList(s: seq<Entry>, offset: nat)
    requires PageShaped(s) && offset <= |Flat(s)| && PageOf(s, offset) < |s|
    ensures var i := PageOf(s, offset); var from := (offset + s[0].offset) % PAGE_SIZE;
      AllFit([Cut(s[i], from)] + s[i + 1..]) && Flat([Cut(s[i], from)] + s[i + 1..]) == Flat(s)[offset..]
  {
    hide Flat, Data, Cut, AllFit, PageShaped, PageOf, Fits;
    ShapedBasics(s);
    CutPosition(s, offset);
    var i, from := PageOf(s, offset), (offset + s[0].offset) % PAGE_SIZE;
    FlatAround(s, i);
    CutData(s[i], from);
    FlatHead(Cut(s[i], from), s[i + 1..]);
    DropConcat(Flat(s[..i]), Data(s[i]), Flat(s[i + 1..]), from - s[i].offset);
  }

  lemma ShapedBasics(s: seq<Entry>)
    requires PageShaped(s)
    ensures |s| > 0 && s[0].offset >= 0 && AllFit(s)
  {
  }

  lemma FlatHead(e: Entry, rest: seq<Entry>)
    requires Fits(e) && AllFit(rest)
    ensures AllFit([e] + rest) && Flat([e] + rest) == Data(e) + Flat(rest)
  {
    hide Fits, Data;
    assert ([e] + rest)[1..] == rest;
  }

  /** A list around one of its entries. */
  lemma FlatAround(s: seq<Entry>, i: nat)
    requires AllFit(s) && i < |s|
    ensures AllFit(s[..i]) && AllFit(s[i + 1..]) && Fits(s[i])
    ensures Flat(s) == Flat(s[..i]) + (Data(s[i]) + Flat(s[i + 1..]))
  {
    hide Fits, Data, Flat;
    assert s == s[..i] + ([s[i]] + s[i + 1..]);
    FlatHead(s[i], s[i + 1..]);
    FlatConcat(s[..i], [s[i]] + s[i + 1..]);
  }

  /** The page count check always passes. Yet the entry the data starts in is past the list exactly when the data starts
      right behind a full last page, and then there is no data. */
  lemma PagesCovered(s: seq<Entry>, size: nat, offset: nat)
    requires PageShaped(s) && offset + size <= |Flat(s)|
    ensures PageOf(s, offset) + (size + (offset + s[0].offset) % PAGE_SIZE + PAGE_SIZE - 1) / PAGE_SIZE <= |s|
    ensures PageOf(s, offset) == |s| <==> offset + s[0].offset == |s| * PAGE_SIZE
    ensures PageOf(s, offset) == |s| ==> size == 0
  {
    hide Flat;
    var n := |s| - 1;
    PrefixLength(s, n);
    assert s == s[..n] + [s[n]];
    FlatOne(s[n]);
    FlatConcat(s[..n], [s[n]]);
    assert offset + size + s[0].offset <= |s| * PAGE_SIZE;
  }

  /** Such a list: one full page, and no data behind it. */
  lemma PastTheList(page: seq<bv8>)
    requires |page| == PAGE_SIZE
    ensures var s := [Entry(page, 0, PAGE_SIZE)];
      && PageShaped(s) && PAGE_SIZE + 0 <= |Flat(s)| && PageOf(s, PAGE_SIZE) == |s|
      && PageOf(s, PAGE_SIZE) + (0 + (PAGE_SIZE + s[0].offset) % PAGE_SIZE + PAGE_SIZE - 1) / PAGE_SIZE <= |s|
  {
    FlatOne(Entry(page, 0, PAGE_SIZE));
  }

  /** The list with the entry of `offset` cut down covers the bytes asked for. */
  lemma CutCovers(s: seq<Entry>, s': seq<Entry>, size: nat, offset: nat)
    requires PageShaped(s) && offset + size <= |Flat(s)| && PageOf(s, offset) < |s|
    requires var i := PageOf(s, offset); s' == s[i := Cut(s[i], (offset + s[0].offset) % PAGE_SIZE)]
    ensures Covers(s', PageOf(s, offset), size)
    ensures Flat(s'[PageOf(s, offset)..])[..size] == Flat(s)[offset..offset + size]
  {
    assert s[0].offset >= 0 && AllFit(s);
    hide Flat, Data, Fits, Cut, AllFit, PageShaped;
    CutList(s, offset);
    ReplacedEntry(s, PageOf(s, offset), s'[PageOf(s, offset)]);
    assert Flat(s)[offset..][..size] == Flat(s)[offset..offset + size];
  }

  lemma ReplacedEntry(s: seq<Entry>, i: nat, e: Entry)
    requires AllFit(s) && i < |s| && AllFit([e] + s[i + 1..])
    ensures AllFit(s[i := e]) && s[i := e][i..] == [e] + s[i + 1..]
  {
    hide Fits;
    assert Fits(([e] + s[i + 1..])[0]);
  }

  /** The entry the data starts in, where in its page, and how many pages the data touches. */
  method Locate(offset: nat, first: nat, size: nat) returns (idx: nat, from: nat, count: nat)
    requires offset <= INT_MAX && size <= INT_MAX && first < PAGE_SIZE
    ensures idx == (offset + first) / PAGE_SIZE && from == (offset + first) % PAGE_SIZE
    ensures count == (size + from + PAGE_SIZE - 1) / PAGE_SIZE
  {
    from := (offset + first) % TWO32;
    idx := from / PAGE_SIZE;
    from := from % PAGE_SIZE;
    count := (size + from + PAGE_SIZE - 1) % TWO32 / PAGE_SIZE;
  }

  /** digest_data. The entry the data starts in is cut down while the digest is computed. */
  method DigestData(sg: array<Entry>, size: nat, offset: nat, padding: bv32) returns (digest: bv32)
    requires PageShaped(sg[..]) && offset + size <= |Flat(sg[..])| <= INT_MAX - 3
    requires PageOf(sg[..], offset) < sg.Length
    modifies sg
    ensures sg[..] == old(sg[..])
    ensures digest == DigestOf(Flat(old(sg[..]))[offset..offset + size], padding)
  {
    ghost var s := sg[..];
    PagesCovered(s, size, offset);
    assert sg[0] == s[0] && 0 <= s[0].offset < PAGE_SIZE;
    hide Flat, Data, DigestOf, Fits, PageShaped, AllFit, Covers, Cut;
    var idx, from, count := Locate(offset, sg[0].offset, size);
    assert idx == PageOf(s, offset) && idx + count <= sg.Length;
    hide PageOf;
    var saved := sg[idx];
    sg[idx] := Cut(saved, from);
    ghost var s' := sg[..];
    assert s' == s[idx := Cut(saved, from)];
    CutCovers(s, s', size, offset);
    digest := Evaluate(sg, idx, size, padding);
    sg[idx] := saved;
  }

  /** digest_header: the basic header segment and the additional one, rounded up to whole words. */
  method DigestHeader(bhs: seq<bv8>, ahs: seq<bv8>, ahssize: nat) returns (digest: bv32)
    requires |bhs| == 48 && (ahssize + 3) / 4 * 4 <= |ahs| <= INT_MAX - 52
    ensures digest == DigestOf(bhs + ahs[..(ahssize + 3) / 4 * 4], 0)
    ensures PadLength(|bhs + ahs[..(ahssize + 3) / 4 * 4]|) == 0
  {
    hide DigestOf, Flat;
    var nbytes, asize := 48, (ahssize + 3) / 4 * 4;
    var sg := new Entry[2](_ => Entry([], 0, 0));
    sg[0] := Entry(bhs, 0, nbytes);
    if ahssize != 0 {
      sg[1] := Entry(ahs, 0, asize);
      nbytes := nbytes + asize;
    }
    HeaderList(bhs, ahs, sg[..], asize);
    digest := Evaluate(sg, 0, nbytes, 0);
  }

  lemma HeaderList(bhs: seq<bv8>, ahs: seq<bv8>, s: seq<Entry>, asize: nat)
    requires asize <= |ahs| && (if asize == 0 then s == [Entry(bhs, 0, |bhs|), Entry([], 0, 0)]
                                else s == [Entry(bhs, 0, |bhs|), Entry(ahs, 0, asize)])
    ensures s[0..] == s && Covers(s, 0, |bhs| + asize) && Flat(s)[..|bhs| + asize] == bhs + ahs[..asize]
  {
    hide Flat;
    assert s == [s[0]] + [s[1]];
    FlatOne(s[0]);
    FlatOne(s[1]);
    FlatConcat([s[0]], [s[1]]);
  }

  /** Data that differs from the data digested only within four consecutive bytes has another digest. */
  lemma CorruptionDetected(pre: seq<bv8>, a: seq<bv8>, b: seq<bv8>, post: seq<bv8>, padding: bv32)
    requires |a| == |b| <= 4 && a != b
    ensures DigestOf(pre + a + post, padding) != DigestOf(pre + b + post, padding)
  {
    hide Crc;
    var pad := WordBytes(padding)[..PadLength(|pre + a + post|)];
    BurstDetected(0xFFFF_FFFF, pre, a, b, post + pad);
    assert pre + a + (post + pad) == pre + a + post + pad && pre + b + (post + pad) == pre + b + post + pad;
    InvertedApart(Crc(0xFFFF_FFFF, pre + a + post + pad), Crc(0xFFFF_FFFF, pre + b + post + pad));
  }

  lemma InvertedTwice(x: bv32)
    ensures Inverted(Inverted(x)) == x
  {
  }

  lemma InvertedApart(x: bv32, y: bv32)
    requires x != y
    ensures Inverted(x) != Inverted(y)
  {
    hide Inverted;
    InvertedTwice(x);
    InvertedTwice(y);
  }
}
