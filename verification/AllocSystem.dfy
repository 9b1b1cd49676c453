/** What the operations on segments read, and how their writes compose. */
module AllocSystem {
  import opened AllocHeap
  import opened AllocIndex
  import opened AllocTrie
  import opened AllocTree
  import opened AllocSearch
  import opened AllocState
  import opened AllocTags
  import opened AllocOps
  import opened AllocResize
  import opened AllocBlocks
  import opened AllocFit
  import opened AllocFree
  import opened AllocPayload
  import opened AllocSegs
  import opened AllocPrepend
  import opened AllocAddSeg
  import opened AllocDropSeg
  import opened AllocCarve

  // Walking the list of segment records.

  ghost predicate Readable(h: H, k: int)
    requires 0 <= k < |h.segs|
  {
    var rec := h.segs[k].rec;
    rec > 0 && rec % 8 == 0 && rec in h.m && rec + 8 in h.m && rec + 16 in h.m && SegRecord(h, k)
  }

  ghost predicate SegList(h: H) {
    && |h.segs| > 0 && h.segs[0].rec == h.ms + SEG_OFS
    && (forall k {:trigger Readable(h, k)} :: 0 <= k < |h.segs| ==> Readable(h, k))
  }

  lemma SegListOf(h: H)
    requires HeapOk(h) && SegsOk(h)
    ensures SegList(h)
  {
    forall k | 0 <= k < |h.segs| ensures Readable(h, k) {
      RecordIn(h, k);
      SegBounds(h, k);
    }
  }

  lemma SegListMapped(h: H, base: int, size: int)
    requires SegList(h) && Fresh(h.m, base, size)
    ensures SegList(h.(m := MapIn(h.m, base, size)))
  {
    MapInWords(h.m, base, size);
    var h' := h.(m := MapIn(h.m, base, size));
    forall k | 0 <= k < |h.segs| ensures Readable(h', k) { assert Readable(h, k); }
  }

  predicate Holds(base: int, size: int, a: int) {
    base <= a < base + size
  }

  // Request sizes.

  function GranularityAlign(s: int): int {
    var t := (s + GRANULARITY - 1) % TWO64;
    t - t % GRANULARITY
  }

  /** The size of the region to map for a request of nb bytes, in 64-bit arithmetic. */
  function RegionFor(nb: int): int {
    GranularityAlign((nb + TOP_FOOT_SIZE + 1) % TWO64)
  }

  /** The test for wrap-around is exact: a region larger than nb has room for nb, top's head and its foot. */
  lemma RegionFits(nb: int)
    requires 0 < nb < TWO64
    ensures RegionFor(nb) > nb ==> RegionFor(nb) >= nb + TOP_FOOT_SIZE + 1
    ensures RegionFor(nb) % GRANULARITY == 0 && RegionFor(nb) >= 0
    ensures RegionFor(nb) <= nb <==> nb + TOP_FOOT_SIZE + GRANULARITY >= TWO64
  {
    var req := (nb + TOP_FOOT_SIZE + 1) % TWO64;
    var t := (req + GRANULARITY - 1) % TWO64;
    assert t % GRANULARITY < GRANULARITY;
    Subtracted(t);
    if nb + TOP_FOOT_SIZE + 1 < TWO64 {
      assert req == nb + TOP_FOOT_SIZE + 1;
      if req + GRANULARITY - 1 < TWO64 {
        assert t == req + GRANULARITY - 1;
      } else {
        assert t == req + GRANULARITY - 1 - TWO64;
      }
    } else {
      assert req == nb + TOP_FOOT_SIZE + 1 - TWO64;
      assert t == req + GRANULARITY - 1;
    }
  }

  /** The region is the least multiple of 2^17 that leaves 65 bytes above the request. */
  lemma RegionLeast(nb: int)
    requires 0 < nb < TWO64 && RegionFor(nb) > nb
    ensures nb + 65 <= RegionFor(nb) < nb + 65 + 0x2_0000 && RegionFor(nb) % 0x2_0000 == 0
  {
    RegionFits(nb);
    assert (nb + TOP_FOOT_SIZE + 1) % TWO64 == nb + TOP_FOOT_SIZE + 1;
    var t := nb + TOP_FOOT_SIZE + GRANULARITY;
    assert t % TWO64 == t && RegionFor(nb) == t - t % GRANULARITY;
  }

  lemma Subtracted(t: int)
    requires t >= 0
    ensures (t - t % GRANULARITY) % GRANULARITY == 0 && t - t % GRANULARITY >= 0
  {
  }

  // Appending to and trimming the head segment.

  /** init_top with the foot of the fake trailing chunk. */
  function TopMem(m: Mem, p: int, s: int): Mem {
    m[p + 8 := s + 1][p + s + 8 := TOP_FOOT_SIZE]
  }

  ghost function Resized(h: H, m: Mem, tops': int): H
    requires |h.segs| > 0
  {
    h.(m := TopMem(m[h.segs[0].rec + 8 := h.segs[0].size + tops' - h.tops], h.top, tops'),
       C := h.C[h.top := Chunk(tops', Top, true)],
       tops := tops', segs := h.segs[0 := h.segs[0].(size := h.segs[0].size + tops' - h.tops)])
  }

  /** The words and addresses of a resized head segment: `was` and `end` are its old and new end. */
  ghost predicate ResizedWords(m: Mem, m': Mem, rec: int, top: int, was: int, end: int) {
    && (forall a {:trigger R(m', a)} :: R(m', a) != R(m, a) ==> a == rec + 8 || top + 8 <= a < was || was <= a < end)
    && (forall a {:trigger a in m'} :: a in m' <==> (a in m && !(end <= a < was)) || was <= a < end)
  }

  lemma AppendWords(m: Mem, base: int, size: int, rec: int, top: int, tops': int, v: int)
    requires Fresh(m, base, size) && rec + 8 in m && top + 8 in m && size > 0
    requires top + 8 <= base <= top + tops' + 8 < base + size && !(top + 8 <= rec + 8 < base + size)
    ensures var m' := TopMem(MapIn(m, base, size)[rec + 8 := v], top, tops');
            ResizedWords(m, m', rec, top, base, base + size) && R(m', rec + 8) == v && R(m', top + 8) == tops' + 1
  {
    MapInWords(m, base, size);
  }

  lemma TrimWords(m: Mem, end: int, extra: int, rec: int, top: int, tops': int, v: int)
    requires rec + 8 in m && top + 8 in m && extra > 0 && top + tops' + 8 in m
    requires top + 8 < top + tops' + 8 < end && !(top + 8 <= rec + 8 < end + extra)
    ensures var m' := TopMem(MapOut(m, end, extra)[rec + 8 := v], top, tops');
            ResizedWords(m, m', rec, top, end + extra, end) && R(m', rec + 8) == v && R(m', top + 8) == tops' + 1
  {
  }

  lemma IsTopMoved(h: H, m: Mem, tops': int)
    requires |h.segs| > 0 && tops' >= 8 && tops' % 8 == 0 && (tops' - h.tops) % GRANULARITY == 0
    requires var rec, was, end, m' := h.segs[0].rec, h.segs[0].End(), h.top + tops' + TOP_FOOT_SIZE,
             Resized(h, m, tops').m;
             && ResizedWords(h.m, m', rec, h.top, was, end) && end < TWO64
             && h.segs[0].size + tops' - h.tops < SIZE_LIMIT
             && R(m', rec + 8) == h.segs[0].size + tops' - h.tops && R(m', h.top + 8) == tops' + 1
             && (forall a {:trigger a in h.m} :: was <= a < end ==> a !in h.m)
    ensures TopMoved(h, Resized(h, m, tops'), tops')
  {
  }

  /** The segment that the region joins, or becomes, stays below the sizes that the tree index can tell apart. */
  ghost predicate SegFits(segs: seq<Seg>, base: int, size: int) {
    && |segs| > 0 && size < SIZE_LIMIT
    && if base == segs[0].End() then segs[0].size + size < SIZE_LIMIT
       else forall k {:trigger segs[k]} :: 0 <= k < |segs| && segs[k].base == base + size ==>
         segs[k].size + size < SIZE_LIMIT
  }

  /** No two segments start or end at one address. */
  lemma SegsDiffer(h: H, j: int, k: int)
    requires SegsOk(h) && 0 <= j < |h.segs| && 0 <= k < |h.segs|
    ensures h.segs[j].base == h.segs[k].base || h.segs[j].End() == h.segs[k].End() ==> j == k
  {
    assert SegOk(h, j) && SegOk(h, k) && SegApart(h, j, k);
  }

  lemma Appended(h: H, base: int, size: int)
    requires Inv(h, {}) && |h.segs| > 0 && base == h.segs[0].End() && CanSeal(h, base, size)
             && h.segs[0].size + size < SIZE_LIMIT
    ensures var h' := Resized(h, MapIn(h.m, base, size), h.tops + size);
            Inv(h', {}) && Same(h, h') && h.top + 8 in h.m && h.top % 8 == 0
  {
    hide Inv, TopMoved, ResizedWords, Same, TopMem, MapIn;
    var m, tops' := MapIn(h.m, base, size), h.tops + size;
    AppendPlaces(h, base, size);
    Difference(h.tops, -size);
    AppendWords(h.m, base, size, h.segs[0].rec, h.top, tops', h.segs[0].size + size);
    IsTopMoved(h, m, tops');
    TopMovedInv(h, {}, Resized(h, m, tops'), tops');
  }

  lemma AppendPlaces(h: H, base: int, size: int)
    requires Inv(h, {}) && |h.segs| > 0 && base == h.segs[0].End() && CanSeal(h, base, size)
    ensures var rec := h.segs[0].rec;
            && rec + 8 in h.m && h.top + 8 in h.m && h.top % 8 == 0 && (h.tops + size) % 8 == 0
            && (-size) % GRANULARITY == 0
            && base == h.top + h.tops + TOP_FOOT_SIZE && !(h.top <= rec + 8 < base) && h.tops >= 8
            && !(h.top + 8 <= rec + 8 < base + size)
  {
    hide Inv, HeapOk, BinsOk, SegsOk, SegRecord;
    InvParts(h, {});
    HeadBounds(h);
    Aligned(base, size);
    Granules(0, size);
    Eights(h.tops, size);
    RecordIn(h, 0);
    HeadTop(h);
    HeadMapped(h, h.top);
  }

  lemma HeadTop(h: H)
    requires HeapOk(h) && SegsOk(h)
    ensures h.top in h.C && !(h.top <= h.segs[0].rec < h.segs[0].End())
            && !(h.top <= h.segs[0].rec + 8 < h.segs[0].End())
  {
    RecordApart(h, 0, h.top);
    StateTop(h);
    HeadBounds(h);
    if h.top < h.ms - 16 { assert SegOk(h, 0); assert InSeg(h, 0, h.ms - 16); ChunksAway(h, h.top, h.ms - 16); }
  }

  lemma TrimPlaces(h: H, extra: int)
    requires Inv(h, {}) && extra > 0 && extra % GRANULARITY == 0 && h.tops - extra >= 8 && |h.segs| > 0
    ensures var rec, end := h.segs[0].rec, h.segs[0].End() - extra;
            && rec + 8 in h.m && h.top + 8 in h.m && h.top + (h.tops - extra) + 8 in h.m && h.top % 8 == 0
            && (h.tops - extra) % 8 == 0
            && end == h.top + (h.tops - extra) + TOP_FOOT_SIZE && end < TWO64 && h.segs[0].size - extra < SIZE_LIMIT
            && !(h.top <= rec + 8 < h.segs[0].End())
  {
    hide Inv, HeapOk, BinsOk, SegsOk, SegRecord;
    InvParts(h, {});
    HeadBounds(h);
    Aligned(0, extra);
    Eights(h.tops, extra);
    RecordIn(h, 0);
    HeadTop(h);
    HeadMapped(h, h.top);
    TrimLimit(h);
    SegBounds(h, 0);
  }

  lemma Trimmed(h: H, extra: int)
    requires Inv(h, {}) && extra > 0 && extra % GRANULARITY == 0 && h.tops - extra >= 8 && |h.segs| > 0
    ensures var h' := Resized(h, MapOut(h.m, h.segs[0].End() - extra, extra), h.tops - extra);
            Inv(h', {}) && Same(h, h') && h.top + 8 in h.m && h.top % 8 == 0 && h.top + (h.tops - extra) + 8 in h.m
  {
    hide Inv, TopMoved, Same, TopMem, MapOut;
    var m, tops', end := MapOut(h.m, h.segs[0].End() - extra, extra), h.tops - extra, h.segs[0].End() - extra;
    TrimPlaces(h, extra);
    Difference(h.tops, extra);
    TrimWords(h.m, end, extra, h.segs[0].rec, h.top, tops', h.segs[0].size - extra);
    IsTopMoved(h, m, tops');
    TopMovedInv(h, {}, Resized(h, m, tops'), tops');
  }

  lemma Difference(t: int, extra: int)
    requires extra % GRANULARITY == 0
    ensures (t - extra - t) % GRANULARITY == 0
  {
    assert extra == GRANULARITY * (extra / GRANULARITY);
    assert t - extra - t == GRANULARITY * (-(extra / GRANULARITY));
  }

  lemma TrimLimit(h: H)
    requires HeapOk(h) && SegsOk(h)
    ensures h.segs[0].End() <= TWO64 && h.segs[0].size < SIZE_LIMIT
  {
    SegBounds(h, 0);
    LowAt(h, h.segs[0].End() - 1);
  }

  // Prepending: the region is handed out whole, cut in two, and the rest is freed.

  ghost function Halved(h: H, k: int, base: int, size: int, nb: int): H
    requires 0 <= k < |h.segs|
  {
    Shrink(Extend(h, k, base, size), base, nb)
  }

  ghost predicate CanHalve(h: H, k: int, base: int, size: int, nb: int) {
    Inv(h, {}) && CanPrepend(h, k, base, size) && nb % 8 == 0 && MIN_CHUNK_SIZE <= nb && nb + TOP_FOOT_SIZE < size
  }

  lemma HalvedFacts(h: H, k: int, base: int, size: int, nb: int)
    requires CanHalve(h, k, base, size, nb)
    ensures var s, q, n := Halved(h, k, base, size, nb), base + nb, base + size;
            && Inv(s, {}) && q in s.C && s.C[q] == Chunk(size - nb, Live, true) && n in s.C && s.C[n] == h.C[n]
            && n in h.C
            && s.dv == h.dv && s.dvs == h.dvs && s.top == h.top && s.tops == h.tops && s.ms == h.ms && s.sm == h.sm
            && Starts(s, {}, q, q)
  {
    hide Inv, HeapOk, BinsOk, SegsOk, Shrink, SegRecord;
    var e := Extend(h, k, base, size);
    InvParts(h, {});
    SegBounds(h, k);
    Aligned(base, size);
    ExtendInv(h, {}, k, base, size);
    ShrinkInv(e, {}, base, nb);
    HalvedChunks(h, k, base, size, nb);
  }

  lemma HalvedChunks(h: H, k: int, base: int, size: int, nb: int)
    requires CanPrepend(h, k, base, size) && base + size in h.C && 0 < nb < size
    ensures var s, q, n := Halved(h, k, base, size, nb), base + nb, base + size;
            && q in s.C && s.C[q] == Chunk(size - nb, Live, true) && n in s.C && s.C[n] == h.C[n]
            && s.dv == h.dv && s.dvs == h.dvs && s.top == h.top && s.tops == h.tops && s.ms == h.ms && s.sm == h.sm
  {
  }

  /** The real memory when the block's own head has been written: it lacks only the head of the rest. */
  function HalfMem(m: Mem, rec: int, base: int, size: int, segSize: int, nb: int): Mem {
    MapIn(m, base, size)[rec := base][rec + 8 := segSize][base + 8 := nb + 3]
  }

  lemma HalvedMem(h: H, k: int, base: int, size: int, nb: int)
    requires CanHalve(h, k, base, size, nb)
    ensures Halved(h, k, base, size, nb).m
            == HalfMem(h.m, h.segs[k].rec, base, size, h.segs[k].size + size, nb)[base + nb + 8 := size - nb + 3]
    ensures var m := HalfMem(h.m, h.segs[k].rec, base, size, h.segs[k].size + size, nb);
            base + 8 in m && base + nb + 8 in m
    ensures base + 8 in MapIn(h.m, base, size)
  {
    hide HeapOk, BinsOk, SegsOk, SegRecord;
    InvParts(h, {});
    var e, n, rec := Extend(h, k, base, size), base + size, h.segs[k].rec;
    SegBounds(h, k);
    Aligned(base, size);
    ExtendInv(h, {}, k, base, size);
    InvParts(e, {});
    HeadOdd(e, n);
    MapInWords(h.m, base, size);
    hide Inv;
    CutMem(e.m, base, size, nb);
    assert e.m[base + 8 := nb + 3] == HalfMem(h.m, rec, base, size, h.segs[k].size + size, nb);
  }

  lemma HeadOdd(h: H, n: int)
    requires HeapOk(h) && n in h.C && h.C[n].pin
    ensures R(h.m, n + 8) % 2 == 1 && n + 8 in h.m
  {
    assert ChunkOk(h.m, h.C, n);
    HeadFields(h.C[n]);
    HeadMapped(h, n);
  }

  lemma CutOnce(m: Mem, p: int, s: int)
    requires R(m, p + 8) % 2 == 1
    ensures SetInuse(m, p, s) == m[p + 8 := s + 3][p + s + 8 := OrPinuse(R(m, p + s + 8))]
    ensures R(SetInuse(m, p, s), p + s + 8) % 2 == 1
  {
  }

  lemma CutTwice(m: Mem, a: int, w: int, b: int, x: int, v: int, c: int)
    requires a != b && b != c && a != c && c in m && R(m, c) % 2 == 1
    ensures var m1 := m[a := w][b := x]; m1[b := v][c := OrPinuse(R(m1, c))] == m[a := w][b := v]
  {
    var m1 := m[a := w][b := x];
    assert R(m1, c) == R(m, c) && OrPinuse(R(m1, c)) == m[a := w][b := v][c];
    assert m1[b := v] == m[a := w][b := v];
  }

  lemma CutMem(m: Mem, p: int, s: int, nb: int)
    requires R(m, p + 8) == s + 3 && s % 8 == 0 && nb % 8 == 0 && 0 < nb < s && p + s + 8 in m
             && R(m, p + s + 8) % 2 == 1
    ensures SetInuse(SetInuse(m, p, nb), p + nb, s - nb) == m[p + 8 := nb + 3][p + nb + 8 := s - nb + 3]
  {
    hide SetInuse, OrPinuse;
    OddHead(s);
    CutOnce(m, p, nb);
    CutOnce(SetInuse(m, p, nb), p + nb, s - nb);
    CutTwice(m, p + 8, nb + 3, p + nb + 8, OrPinuse(R(m, p + nb + 8)), s - nb + 3, p + s + 8);
  }

  lemma OddHead(s: int)
    requires s % 8 == 0
    ensures (s + 3) % 2 == 1
  {
    assert s + 3 == 2 * (4 * (s / 8) + 1) + 1;
  }

  lemma HalvedGrants(h: H, k: int, base: int, size: int, nb: int, h': H)
    requires CanHalve(h, k, base, size, nb) && Frees(Halved(h, k, base, size, nb), h', base + nb)
    ensures Grants(h, h', base, nb) && Tight(h'.C, base, nb)
  {
    hide HeapOk, BinsOk, SegsOk, SegRecord;
    var e, s := Extend(h, k, base, size), Halved(h, k, base, size, nb);
    ExtendInv(h, {}, k, base, size);
    Aligned(base, size);
    assert base in LiveSet(e);
    ShrinkInv(e, {}, base, nb);
    ShrinkSets(e, base, nb);
    LiveSpan(e, {}, base);
    assert base + nb !in LiveSet(e);
    hide Inv, Shrink, Extend;
    assert BlockKept(s, h', base);
    forall q | q in h.C && h.C[q].kind == Live ensures BlockKept(h, h', q) {
      assert q in LiveSet(h) && q in LiveSet(e) && q != base;
      assert BlockKept(h, e, q) && BlockKept(e, s, q) && BlockKept(s, h', q);
    }
  }

  lemma ShrinkSets(h: H, x: int, nb: int)
    requires x in LiveSet(h) && nb != 0
    ensures LiveSet(Shrink(h, x, nb)) == LiveSet(h) + {x + nb} && Shrink(h, x, nb).ms == h.ms
    ensures x in Shrink(h, x, nb).C && Shrink(h, x, nb).C[x].size == nb && Shrink(h, x, nb).C[x].kind == Live
  {
  }

  // Adding a segment.

  /** The writes of add_segment up to the fenceposts. */
  function SealRecord(m: Mem, rec: int, c: int, base: int, size: int): Mem {
    m[c + 8 := SEG_CHUNK_SIZE + 3][c + 16 := R(m, rec)][c + 24 := R(m, rec + 8)][c + 32 := R(m, rec + 16)]
     [rec := base][rec + 8 := size][rec + 16 := c + 16]
  }

  function SealMem(m: Mem, top: int, tops: int, rec: int, base: int, size: int): Mem {
    var c := RecordSite(top, tops);
    FenceMem(SealRecord(TopMem(m, base, size - TOP_FOOT_SIZE), rec, c, base, size), c + SEG_CHUNK_SIZE,
             top + tops + TOP_FOOT_SIZE)
  }

  /** The same, as if what is left of the old top were a live chunk. */
  function SealedMem(m: Mem, top: int, tops: int, rec: int, base: int, size: int): Mem {
    var c := RecordSite(top, tops);
    if c == top then SealMem(m, top, tops, rec, base, size)
    else SealMem(m, top, tops, rec, base, size)[top + 8 := c - top + 3]
  }

  ghost function SealedState(h: H, base: int, size: int): H
    requires |h.segs| > 0
  {
    h.(m := SealedMem(MapIn(h.m, base, size), h.top, h.tops, h.segs[0].rec, base, size),
       C := SealedChunks(h.C, h.top, h.tops, base, size), top := base, tops := size - TOP_FOOT_SIZE,
       segs := [Seg(base, size, h.segs[0].rec),
                Seg(h.segs[0].base, h.segs[0].size, RecordSite(h.top, h.tops) + 16)] + h.segs[1..])
  }

  ghost predicate SealPlaces(m: Mem, top: int, tops: int, rec: int, base: int, size: int) {
    && Fresh(m, base, size) && size >= GRANULARITY && tops >= 8 && tops % 8 == 0
    && (forall a {:trigger a in m} :: top <= a < top + tops + TOP_FOOT_SIZE ==> a in m)
    && rec in m && rec + 8 in m && rec + 16 in m
    && (rec + SEG_WORDS <= top + 8 || top + tops + TOP_FOOT_SIZE <= rec)
    && (top + tops + TOP_FOOT_SIZE <= base || base + size <= top)
    && (rec + SEG_WORDS <= base || base + size <= rec)
  }

  /** Every word of the sealed memory, read off in one go. */
  lemma SealMemWords(m0: Mem, top: int, tops: int, rec: int, base: int, size: int, a: int)
    requires SealPlaces(m0, top, tops, rec, base, size)
    ensures var m, c, end := SealedMem(MapIn(m0, base, size), top, tops, rec, base, size), RecordSite(top, tops),
            top + tops + TOP_FOOT_SIZE;
            R(m, a) == if c != top && a == top + 8 then c - top + 3
                       else if IsFence(a - 8, c + SEG_CHUNK_SIZE, end) then FENCE_HEAD
                       else if a == rec then base else if a == rec + 8 then size else if a == rec + 16 then c + 16
                       else if a == c + 8 then SEG_CHUNK_SIZE + 3 else if a == c + 16 then R(m0, rec)
                       else if a == c + 24 then R(m0, rec + 8) else if a == c + 32 then R(m0, rec + 16)
                       else if a == base + 8 then size - TOP_FOOT_SIZE + 1
                       else if a == base + size - TOP_FOOT_SIZE + 8 then TOP_FOOT_SIZE
                       else R(m0, a)
    ensures var m := SealedMem(MapIn(m0, base, size), top, tops, rec, base, size); a in m <==>
      a in m0 || base <= a < base + size
  {
    var c, end := RecordSite(top, tops), top + tops + TOP_FOOT_SIZE;
    MapInWords(m0, base, size);
    FenceWords(SealRecord(TopMem(MapIn(m0, base, size), base, size - TOP_FOOT_SIZE), rec, c, base, size),
               c + SEG_CHUNK_SIZE, end);
    var m1 := MapIn(m0, base, size);
    assert R(m1, a) == R(m0, a) && R(m1, rec) == R(m0, rec) && R(m1, rec + 8) == R(m0, rec + 8)
           && R(m1, rec + 16) == R(m0, rec + 16);
    var m2 := TopMem(m1, base, size - TOP_FOOT_SIZE);
    assert R(m2, rec) == R(m0, rec) && R(m2, rec + 8) == R(m0, rec + 8) && R(m2, rec + 16) == R(m0, rec + 16);
    var m3 := SealRecord(m2, rec, c, base, size);
    assert R(FenceMem(m3, c + SEG_CHUNK_SIZE, end), a) == if IsFence(a - 8, c + SEG_CHUNK_SIZE, end) then FENCE_HEAD
           else R(m3, a);
    hide MapIn, FenceMem;
  }

  lemma SealPlacesNow(h: H, base: int, size: int)
    requires HeapOk(h) && BinsOk(h) && SegsOk(h) && CanSeal(h, base, size)
    ensures |h.segs| > 0 && SealPlaces(h.m, h.top, h.tops, h.segs[0].rec, base, size)
    ensures R(h.m, h.segs[0].rec) == h.segs[0].base && R(h.m, h.segs[0].rec + 8) == h.segs[0].size
    ensures h.segs[0].rec % 8 == 0 && h.top in h.C
  {
    hide HeapOk, BinsOk, SegsOk;
    SealedBounds(h, base, size);
    RegionSize(h, base, size);
    SegBounds(h, 0);
    RecordIn(h, 0);
    HeadTop(h);
    SealedRegion(h, base, size, 0);
    RecordOffRegion(h, base, size);
    RecordOffTop(h);
    hide SegRecord;
    assert CanSeal(h, base, size) ==> Fresh(h.m, base, size);
  }

  lemma RecordOffTop(h: H)
    requires HeapOk(h) && SegsOk(h)
    ensures |h.segs| > 0
    ensures h.segs[0].rec + SEG_WORDS <= h.top + 8 || h.top + h.tops + TOP_FOOT_SIZE <= h.segs[0].rec
    ensures R(h.m, h.segs[0].rec) == h.segs[0].base && R(h.m, h.segs[0].rec + 8) == h.segs[0].size
  {
    SegBounds(h, 0);
    HeadTop(h);
    HeadBounds(h);
    ChunksAway(h, h.top, h.ms - 16);
  }

  lemma RecordOffRegion(h: H, base: int, size: int)
    requires HeapOk(h) && SegsOk(h) && CanSeal(h, base, size) && |h.segs| > 0
    ensures h.segs[0].rec + SEG_WORDS <= base || base + size <= h.segs[0].rec
  {
    FreshAway(h, base, size, h.ms - 16);
  }

  /** The words of the two records, the heads, and the old top's head. */
  lemma SealWordsAt(m0: Mem, top: int, tops: int, rec: int, base: int, size: int)
    requires SealPlaces(m0, top, tops, rec, base, size)
    ensures var m, c := SealedMem(MapIn(m0, base, size), top, tops, rec, base, size), RecordSite(top, tops);
            && R(m, base + 8) == size - TOP_FOOT_SIZE + 1 && R(m, c + 8) == SEG_CHUNK_SIZE + 3
            && (c != top ==> R(m, top + 8) == c - top + 3)
            && R(m, c + 16) == R(m0, rec) && R(m, c + 24) == R(m0, rec + 8) && R(m, c + 32) == R(m0, rec + 16)
            && R(m, rec) == base && R(m, rec + 8) == size && R(m, rec + 16) == c + 16
  {
    var c := RecordSite(top, tops);
    hide SealedMem, R, Fresh;
    SealMemWords(m0, top, tops, rec, base, size, base + 8);
    SealMemWords(m0, top, tops, rec, base, size, c + 8);
    SealMemWords(m0, top, tops, rec, base, size, top + 8);
    SealMemWords(m0, top, tops, rec, base, size, c + 16);
    SealMemWords(m0, top, tops, rec, base, size, c + 24);
    SealMemWords(m0, top, tops, rec, base, size, c + 32);
    SealMemWords(m0, top, tops, rec, base, size, rec);
    SealMemWords(m0, top, tops, rec, base, size, rec + 8);
    SealMemWords(m0, top, tops, rec, base, size, rec + 16);
  }

  lemma StateSealed(h: H, base: int, size: int)
    requires HeapOk(h) && BinsOk(h) && SegsOk(h) && CanSeal(h, base, size)
    ensures |h.segs| > 0 && Sealed(h, SealedState(h, base, size), base, size)
  {
    hide HeapOk, BinsOk, SegsOk, CanSeal, SealedMem, SealedChunks, R, Fresh, MapIn;
    SealPlacesNow(h, base, size);
    var h', rec := SealedState(h, base, size), h.segs[0].rec;
    var c, end := RecordSite(h.top, h.tops), h.top + h.tops + TOP_FOOT_SIZE;
    forall a {:trigger R(h'.m, a)}
      ensures R(h'.m, a) != R(h.m, a) ==> base <= a < base + size || h.top + 8 <= a < end || rec <= a < rec + SEG_WORDS
    {
      SealMemWords(h.m, h.top, h.tops, rec, base, size, a);
    }
    forall a {:trigger a in h'.m} ensures a in h'.m <==> a in h.m || base <= a < base + size {
      SealMemWords(h.m, h.top, h.tops, rec, base, size, a);
    }
    forall q {:trigger R(h'.m, q + 8)} | IsFence(q, c + SEG_CHUNK_SIZE, end) ensures R(h'.m, q + 8) == FENCE_HEAD {
      SealMemWords(h.m, h.top, h.tops, rec, base, size, q + 8);
    }
    SealWordsAt(h.m, h.top, h.tops, rec, base, size);
    hide SealPlaces;
  }

  // What the methods need.

  const DEFAULT_TRIM_THRESHOLD := 0x20_0000

  /** align_offset */
  function AlignOffset(a: int): int {
    if a % 8 == 0 then 0 else (8 - a % 8) % 8
  }

  lemma AppendReads(h: H, base: int, size: int)
    requires Inv(h, {}) && |h.segs| > 0 && CanSeal(h, base, size) && base == h.segs[0].End()
    ensures var m, rec := MapIn(h.m, base, size), h.segs[0].rec;
            && rec % 8 == 0 && rec + 8 in m && R(m, rec + 8) == h.segs[0].size
            && h.top + 8 in m && h.top % 8 == 0 && (h.tops + size) % 8 == 0 && h.top + (h.tops + size) + 8 in m
  {
    hide Inv, R, MapIn;
    AppendPlaces(h, base, size);
    HeadRecord(h);
    RegionSize(h, base, size);
    Aligned(0, size);
    MapInWords(h.m, base, size);
  }

  const MAX_RELEASE_CHECK_RATE := 255
  const MAX_REQUEST := TWO64 - 128
  const MAX_SIZE_T := TWO64 - 1

  lemma ListStart(h: H)
    requires SegList(h)
    ensures |h.segs| > 0 && h.segs[0].rec == h.ms + SEG_OFS && (h.ms + SEG_OFS + 16) % 8 == 0
            && h.ms + SEG_OFS + 16 in h.m
    ensures R(h.m, h.ms + SEG_OFS + 16) == if 1 < |h.segs| then h.segs[1].rec else 0
  {
    assert Readable(h, 0);
  }

  lemma ListAt(h: H, k: int)
    requires SegList(h) && 0 <= k < |h.segs|
    ensures var rec := h.segs[k].rec;
            && rec > 0 && rec % 8 == 0 && rec in h.m && rec + 8 in h.m && rec + 16 in h.m
            && R(h.m, rec) == h.segs[k].base && R(h.m, rec + 8) == h.segs[k].size
            && R(h.m, rec + 16) == if k + 1 < |h.segs| then h.segs[k + 1].rec else 0
    ensures k + 1 < |h.segs| ==> h.segs[k + 1].rec > 0
  {
    assert Readable(h, k);
    if k + 1 < |h.segs| { assert Readable(h, k + 1); }
  }

  /** The first chunk of an older segment. */
  lemma BaseReads(h: H, k: int)
    requires HeapOk(h) && SegsOk(h) && 0 < k < |h.segs|
    ensures var p := h.segs[k].base;
            && p % 8 == 0 && AlignOffset(p + 16) == 0 && p + 8 in h.m && p in h.C
            && ChunkSize(R(h.m, p + 8)) == h.C[p].size
            && (if Cinuse(R(h.m, p + 8)) then InUse(h.C[p].kind) else h.C[p].kind == Free)
            && (!Cinuse(R(h.m, p + 8)) && p + h.C[p].size >= h.segs[k].End() - TOP_FOOT_SIZE ==> Droppable(h, k))
  {
    SegBounds(h, k);
    var p := h.segs[k].base;
    assert ChunkOk(h.m, h.C, p);
    HeadFields(h.C[p]);
    HeadMapped(h, p);
    HeadBounds(h);
    assert SegApart(h, 0, k);
    assert p != h.top;
  }

  lemma DropSize(h: H, k: int)
    requires HeapOk(h) && SegsOk(h) && Droppable(h, k)
    ensures h.C[h.segs[k].base].size >= MIN_LARGE_SIZE
  {
    SegBounds(h, k);
  }

  lemma InTreeNow(h: H, p: int)
    requires Inv(h, {}) && p in h.C && h.C[p].kind == Free && p != h.dv && h.C[p].size >= MIN_LARGE_SIZE
    ensures InTree(h, p)
  {
    assert Placed(h, p);
  }

  lemma PredReads(h: H, k: int)
    requires HeapOk(h) && SegsOk(h) && Droppable(h, k)
    ensures h.segs[k - 1].rec % 8 == 0
  {
    RecordIn(h, k - 1);
  }

  /** The record of the segment before survives the unmapping. */
  lemma PredKept(h: H, k: int)
    requires HeapOk(h) && SegsOk(h) && Droppable(h, k)
    ensures h.segs[k - 1].rec + 16 in MapOut(h.m, h.segs[k].base, h.segs[k].size)
  {
    RecordIn(h, k - 1);
    RecordElsewhere(h, k, k - 1);
  }

  lemma NextKept(h: H, h1: H, k: int)
    requires HeapOk(h) && SegsOk(h) && HeapOk(h1) && SegsOk(h1) && h1.segs == h.segs && 0 < k < |h.segs|
    ensures R(h1.m, h.segs[k].rec + 16) == R(h.m, h.segs[k].rec + 16)
  {
    SegBounds(h, k);
    SegBounds(h1, k);
  }

  lemma TrimUnits(t: int)
    requires t > 0
    ensures var extra := ((t + (GRANULARITY - 1)) / GRANULARITY - 1) * GRANULARITY;
            0 <= extra < t && extra % GRANULARITY == 0 && t - extra <= GRANULARITY
  {
    var q := (t + (GRANULARITY - 1)) / GRANULARITY;
    assert q >= 1 && q * GRANULARITY <= t + GRANULARITY - 1;
    Multiple(q - 1);
  }

  lemma Multiple(q: int)
    ensures (q * GRANULARITY) % GRANULARITY == 0
  {
  }

  /** Only the head segment holds top. */
  lemma TopHolder(h: H, k: int)
    requires HeapOk(h) && SegsOk(h)
    ensures |h.segs| > 0 && Holds(h.segs[0].base, h.segs[0].size, h.top)
    ensures 0 <= k < |h.segs| && Holds(h.segs[k].base, h.segs[k].size, h.top) ==> k == 0
  {
    HeadBounds(h);
    if 0 <= k < |h.segs| { assert SegApart(h, 0, k); }
  }

  lemma TrimReads(h: H, extra: int)
    requires Inv(h, {}) && |h.segs| > 0 && extra > 0 && extra % GRANULARITY == 0 && h.tops - extra >= 8
    ensures var m, rec := MapOut(h.m, h.segs[0].End() - extra, extra), h.segs[0].rec;
            && rec % 8 == 0 && rec + 8 in m && R(m, rec + 8) == h.segs[0].size
            && h.top + 8 in m && h.top % 8 == 0 && (h.tops - extra) % 8 == 0 && h.top + (h.tops - extra) + 8 in m
  {
    hide HeapOk, SegsOk, BinsOk, Inv;
    TrimPlaces(h, extra);
    HeadRecord(h);
  }

  lemma HeadRecord(h: H)
    requires Inv(h, {}) && |h.segs| > 0
    ensures var rec := h.segs[0].rec; rec % 8 == 0 && R(h.m, rec + 8) == h.segs[0].size && R(h.m, rec) == h.segs[0].base
  {
    hide HeapOk, SegsOk, BinsOk, Inv;
    InvParts(h, {});
    RecordIn(h, 0);
    RecordOffTop(h);
  }

  lemma NothingOut(m: Mem, base: int)
    ensures MapOut(m, base, 0) == m
  {
  }

  // The rest of a prepended region.

  /** Memory holds all of s but the head of q, a live block before the chunk at n. */
  ghost predicate RestReady(h: H, s: H, q: int, qsize: int, n: int) {
    && Inv(s, {}) && Starts(s, {}, q, q) && s.C[q].size == qsize && n == q + qsize && n in s.C && q + 8 in h.m
    && q % 8 == 0 && qsize % 8 == 0
    && h.m[q + 8 := qsize + 3] == s.m && h.(m := s.m, C := s.C, segs := s.segs) == s
    && qsize >= MIN_CHUNK_SIZE
  }

  lemma HalvedAligned(h: H, k: int, base: int, size: int, nb: int)
    requires CanHalve(h, k, base, size, nb)
    ensures AlignOffset(base + 16) == 0 && AlignOffset(base + size + 16) == 0 && base % 8 == 0 && nb % 8 == 0
    ensures MIN_CHUNK_SIZE <= nb && nb + TOP_FOOT_SIZE < size && |h.segs| > k >= 0
    ensures (base + nb) % 8 == 0 && (size - nb) % 8 == 0 && size - nb >= MIN_CHUNK_SIZE
  {
    hide Inv;
    Aligned(base, size);
    Eights(base, nb);
    Eights(size, nb);
    Eights(base, size);
    Eights(base, 16);
    Eights(base + size, 16);
  }

  lemma Eights(a: int, b: int)
    requires a % 8 == 0 && b % 8 == 0
    ensures (a + b) % 8 == 0 && (a - b) % 8 == 0
  {
  }

  lemma HalvedFields(h: H, k: int, base: int, size: int, nb: int)
    requires 0 <= k < |h.segs| && CanPrepend(h, k, base, size)
    ensures var s := Halved(h, k, base, size, nb);
            h.(m := s.m, C := s.C, segs := s.segs) == s
                && s.segs == h.segs[k := Seg(base, h.segs[k].size + size, h.segs[k].rec)]
  {
    hide CanPrepend, SetInuse, MapIn;
  }

  lemma HalvedState(h: H, k: int, base: int, size: int, nb: int, v: H)
    requires CanHalve(h, k, base, size, nb)
    requires v == h.(m := HalfMem(h.m, h.segs[k].rec, base, size, h.segs[k].size + size, nb),
                     segs := h.segs[k := Seg(base, h.segs[k].size + size, h.segs[k].rec)])
    ensures RestReady(v, Halved(h, k, base, size, nb), base + nb, size - nb, base + size)
  {
    hide *;
    HalvedAligned(h, k, base, size, nb);
    HalvedFacts(h, k, base, size, nb);
    HalvedMem(h, k, base, size, nb);
    HalvedView(h, k, base, size, nb);
    var s := Halved(h, k, base, size, nb);
    IsRestReady(v, s, base + nb, size - nb, base + size);
  }

  lemma HalvedView(h: H, k: int, base: int, size: int, nb: int)
    requires CanHalve(h, k, base, size, nb) && 0 <= k < |h.segs|
    ensures var s, v := Halved(h, k, base, size, nb),
            h.(m := HalfMem(h.m, h.segs[k].rec, base, size, h.segs[k].size + size, nb),
                          segs := h.segs[k := Seg(base, h.segs[k].size + size, h.segs[k].rec)]);
            v.(m := s.m, C := s.C, segs := s.segs) == s
  {
    hide HalfMem, Halved, CanPrepend, Inv;
    HalvedFields(h, k, base, size, nb);
  }

  lemma IsRestReady(h: H, s: H, q: int, qsize: int, n: int)
    requires Inv(s, {}) && Starts(s, {}, q, q) && q in s.C && s.C[q].size == qsize && n == q + qsize && n in s.C
    requires q + 8 in h.m && q % 8 == 0 && qsize % 8 == 0 && qsize >= MIN_CHUNK_SIZE
    requires h.m[q + 8 := qsize + 3] == s.m && h.(m := s.m, C := s.C, segs := s.segs) == s
    ensures RestReady(h, s, q, qsize, n)
  {
    hide Inv, Starts;
  }

  lemma RestStarts(s: H, q: int)
    requires Starts(s, {}, q, q)
    ensures Starts(DropDv(s), {s.dv}, q, q)
  {
  }

  /** Writing the head of the rest once is as good as twice. */
  lemma RestMem(sm: Mem, m: Mem, q: int, qsize: int, w: int)
    requires q + 8 in m && m[q + 8 := w] == m && m[q + 8 := qsize + 3] == sm
    ensures sm[q + 8 := w] == m
  {
    assert sm[q + 8 := w] == m[q + 8 := qsize + 3][q + 8 := w] == m[q + 8 := w];
  }

  lemma RestFreeMem(sm: Mem, m0: Mem, q: int, qsize: int, s: int)
    requires m0[q + 8 := qsize + 3] == sm
    ensures SetFreeChunk(sm, q, s) == SetFreeChunk(m0, q, s)
  {
    assert sm[q + 8 := s + 1] == m0[q + 8 := s + 1];
  }

  lemma HiMapped(m: Mem, sm: Mem, q: int, w: int, hi: int)
    requires hi in sm && q + 8 in m && m[q + 8 := w] == sm
    ensures hi in m
  {
  }

  // Sealing.

  lemma SealReads(h: H, base: int, size: int)
    requires HeapOk(h) && BinsOk(h) && SegsOk(h) && CanSeal(h, base, size)
    ensures |h.segs| > 0 && SegList(h.(m := MapIn(h.m, base, size)))
    ensures var m, rec, end := MapIn(h.m, base, size), h.segs[0].rec, h.top + h.tops + TOP_FOOT_SIZE;
            && rec % 8 == 0 && rec in m && rec + 8 in m && R(m, rec) == h.segs[0].base
            && R(m, rec + 8) == h.segs[0].size && rec == h.ms + SEG_OFS
            && end == h.segs[0].base + h.segs[0].size && end % 8 == 0 && h.top % 8 == 0 && h.tops % 8 == 0
            && h.tops >= 8
            && base % 8 == 0 && (size - TOP_FOOT_SIZE) % 8 == 0 && base + 8 in m
            && base + (size - TOP_FOOT_SIZE) + 8 in m
            && (forall a {:trigger a in TopMem(m, base, size - TOP_FOOT_SIZE)} ::
                  h.top <= a < end || rec <= a <= rec + 16 ==> a in TopMem(m, base, size - TOP_FOOT_SIZE))
            && (rec + SEG_WORDS <= h.top + 8 || end <= rec)
  {
    hide HeapOk, BinsOk, SegsOk, SegList, SealPlaces, R, MapIn, TopMem;
    SegListOf(h);
    SegListMapped(h, base, size);
    SealPlacesNow(h, base, size);
    SealedBounds(h, base, size);
    RegionSize(h, base, size);
    Eights(h.top, h.tops);
    Eights(h.top + h.tops, TOP_FOOT_SIZE);
    Eights(size, TOP_FOOT_SIZE);
    SealReadsMem(h, base, size);
  }

  lemma SealReadsMem(h: H, base: int, size: int)
    requires HeapOk(h) && BinsOk(h) && SegsOk(h) && CanSeal(h, base, size)
    ensures |h.segs| > 0
    ensures var m, rec, end := MapIn(h.m, base, size), h.segs[0].rec, h.top + h.tops + TOP_FOOT_SIZE;
            && rec in m && rec + 8 in m && R(m, rec) == h.segs[0].base && R(m, rec + 8) == h.segs[0].size
            && rec == h.ms + SEG_OFS
            && base + 8 in m && base + (size - TOP_FOOT_SIZE) + 8 in m
            && (forall a {:trigger a in TopMem(m, base, size - TOP_FOOT_SIZE)} ::
                  h.top <= a < end || rec <= a <= rec + 16 ==> a in TopMem(m, base, size - TOP_FOOT_SIZE))
            && (rec + SEG_WORDS <= h.top + 8 || end <= rec)
  {
    hide HeapOk, BinsOk, SegsOk;
    SealPlacesNow(h, base, size);
    HeadBounds(h);
    MapInWords(h.m, base, size);
    RecordWords(h);
    hide MapIn;
  }

  lemma RecordWords(h: H)
    requires HeapOk(h) && SegsOk(h)
    ensures |h.segs| > 0
    ensures forall a {:trigger a in h.m} :: h.segs[0].rec <= a <= h.segs[0].rec + 16 ==> a in h.m
  {
    HeadBounds(h);
    assert h.ms - 16 in h.C && h.C[h.ms - 16].size == MSTATE_CHUNK_SIZE;
  }

  /** The aligned place for the record is right at the end of top. */
  lemma RawSite(top: int, tops: int, rawsp: int)
    requires top % 8 == 0 && tops % 8 == 0 && rawsp == top + tops + TOP_FOOT_SIZE - 71
    ensures rawsp + AlignOffset(rawsp + 16) == top + tops
  {
    assert (rawsp + 16) % 8 == 1 by { assert rawsp + 16 == 8 * ((top + tops) / 8 + 1) + 1; }
  }

  lemma RestOfTopChunks(h: H, base: int, size: int)
    requires HeapOk(h) && BinsOk(h) && SegsOk(h) && CanSeal(h, base, size) && RecordSite(h.top, h.tops) != h.top
    ensures var C', c := SealedChunks(h.C, h.top, h.tops, base, size), RecordSite(h.top, h.tops);
            && h.top in C' && C'[h.top] == Chunk(h.tops, Live, true) && c == h.top + h.tops && c in C'
            && C'[c] == Chunk(SEG_CHUNK_SIZE, Sys, true)
            && c != base && h.top % 8 == 0 && c % 8 == 0
  {
    hide HeapOk, BinsOk, SegsOk, SealedChunks, CanSeal;
    SealedAt(h, base, size);
    SealedBounds(h, base, size);
    var c := RecordSite(h.top, h.tops);
    Eights(h.top, h.tops);
    SealedNew(h.C, h.top, h.tops, base, size, h.top, Chunk(c - h.top, Live, true));
    SealedNew(h.C, h.top, h.tops, base, size, c, Chunk(SEG_CHUNK_SIZE, Sys, true));
  }

  lemma RestOfTopReady(h: H, base: int, size: int)
    requires Inv(h, {}) && |h.segs| > 0 && CanSeal(h, base, size) && RecordSite(h.top, h.tops) != h.top
    requires Inv(SealedState(h, base, size), {}) && SealedBlocks(h, SealedState(h, base, size))
    ensures var s, c := SealedState(h, base, size), RecordSite(h.top, h.tops);
            && Starts(s, {}, h.top, h.top) && s.C[h.top].size == h.tops && c == h.top + h.tops
            && EndsAt(s, {}, h.top, c) && c != s.top
            && Grants(h, s, h.top, h.tops)
    ensures var m, c := SealMem(MapIn(h.m, base, size), h.top, h.tops, h.segs[0].rec, base, size),
            RecordSite(h.top, h.tops);
            && h.top % 8 == 0 && c % 8 == 0 && h.top + 8 in m && c in m && c + 8 in m
            && SetFreeWithPinuse(m, h.top, c - h.top, c) == SetFreeWithPinuse(SealedState(h, base, size).m, h.top,
                  c - h.top, c)
  {
    hide HeapOk, BinsOk, SegsOk, Grants, Inv, CanSeal, SealedChunks, SealMem, MapIn, SetFreeWithPinuse;
    InvParts(h, {});
    RestOfTopChunks(h, base, size);
    var c := RecordSite(h.top, h.tops);
    SealPlacesNow(h, base, size);
    SealMapped(h.m, h.top, h.tops, h.segs[0].rec, base, size);
    SealFreed(SealMem(MapIn(h.m, base, size), h.top, h.tops, h.segs[0].rec, base, size), h.top, c, c - h.top + 3);
    hide SealPlaces;
  }

  lemma SealMapped(m0: Mem, top: int, tops: int, rec: int, base: int, size: int)
    requires SealPlaces(m0, top, tops, rec, base, size) && RecordSite(top, tops) != top
    ensures var m, c := SealMem(MapIn(m0, base, size), top, tops, rec, base, size), RecordSite(top, tops);
            top + 8 in m && c in m && c + 8 in m
    ensures var c := RecordSite(top, tops); top + 8 < c
  {
    var c := RecordSite(top, tops);
    SealMemWords(m0, top, tops, rec, base, size, top + 8);
    MapInWords(m0, base, size);
    FenceWords(SealRecord(TopMem(MapIn(m0, base, size), base, size - TOP_FOOT_SIZE), rec, c, base, size),
               c + SEG_CHUNK_SIZE, top + tops + TOP_FOOT_SIZE);
    assert top + 8 in m0 && c in m0 && c + 8 in m0;
    hide MapIn, FenceMem, SealPlaces;
  }

  lemma SealFreed(m: Mem, top: int, c: int, w: int)
    requires top + 8 < c
    ensures SetFreeWithPinuse(m[top + 8 := w], top, c - top, c) == SetFreeWithPinuse(m, top, c - top, c)
  {
  }

  lemma GrantsFrees(h: H, s: H, h': H, p: int, nb: int)
    requires Grants(h, s, p, nb) && Frees(s, h', p)
    ensures Same(h, h')
  {
    forall q | q in h.C && h.C[q].kind == Live ensures BlockKept(h, h', q) {
      assert q in LiveSet(h) && q != p;
      assert BlockKept(h, s, q) && BlockKept(s, h', q);
    }
    assert LiveSet(h') == LiveSet(h);
  }

  // Requests.

  const MAX_SMALL_REQUEST := 240
  const MIN_REQUEST := 23

  /** pad_request: room for the head, rounded up to 8 bytes. */
  function PadRequest(req: int): int {
    (req + 15) - (req + 15) % 8
  }

  lemma Padded(nsize: int)
    requires 0 <= nsize < MAX_REQUEST
    ensures var nb := if nsize < MIN_REQUEST then MIN_CHUNK_SIZE else PadRequest(nsize);
            && nb % 8 == 0 && nsize + 8 <= nb < TWO64 && MIN_CHUNK_SIZE <= nb
            && (nsize <= MAX_SMALL_REQUEST ==> nb < MIN_LARGE_SIZE)
            && (nsize > MAX_SMALL_REQUEST ==> nb >= MIN_LARGE_SIZE)
  {
  }

  lemma DvSmall(h: H)
    requires Inv(h, {})
    ensures h.dvs < SIZE_LIMIT && h.tops < SIZE_LIMIT
  {
    if h.dv != 0 { SizeBound(h, h.dv); }
    SizeBound(h, h.top);
  }

  lemma HeadHolds(h: H, k: int)
    requires HeapOk(h) && SegsOk(h) && 0 <= k < |h.segs|
    ensures Holds(h.segs[k].base, h.segs[k].size, h.top) <==> k == 0
  {
    TopHolder(h, k);
  }

  lemma TopsNow(h: H)
    requires Inv(h, {})
    ensures h.tops % 8 == 0
  {
    HeadBounds(h);
  }

  lemma HeadTops(h: H)
    requires HeapOk(h) && SegsOk(h)
    ensures h.tops >= 8
  {
    HeadBounds(h);
  }

  lemma ShrinkReads(h: H, p: int, nb: int)
    requires Inv(h, {}) && p in LiveSet(h) && nb % 8 == 0 && 0 < nb < h.C[p].size
    ensures p + nb + 8 in h.m && p + 8 in h.m && p + h.C[p].size + 8 in h.m && p % 8 == 0 && h.C[p].size % 8 == 0
            && (p + nb) % 8 == 0
  {
    FreeReads(h, {}, p);
    WithinMapped(h, p, nb);
    Eights(p, nb);
  }

  lemma KeysKept(m: Mem, p: int, s: int, q: int)
    requires p + 8 in m && p + s + 8 in m
    ensures SetInuse(m, p, s).Keys == m.Keys
    ensures forall a {:trigger a in SetInuse(m, p, s)} :: a in SetInuse(m, p, s) <==> a in m
  {
  }

  lemma RemLive(h: H, p: int, nb: int)
    requires Inv(h, {}) && p in LiveSet(h) && nb % 8 == 0 && MIN_CHUNK_SIZE <= nb && nb + MIN_CHUNK_SIZE <= h.C[p].size
    ensures Inv(Shrink(h, p, nb), {}) && p + nb in LiveSet(Shrink(h, p, nb)) && p > 0
  {
    ShrinkInv(h, {}, p, nb);
    FreeReads(h, {}, p);
  }

  lemma InLive(h: H, p: int)
    requires p in LiveSet(h)
    ensures p in h.C && h.C[p].kind == Live
  {
  }

  lemma GrowReads(h: H, p: int, nb: int)
    requires Inv(h, {}) && p in LiveSet(h) && p + h.C[p].size == h.top && nb % 8 == 0
             && h.C[p].size < nb < h.C[p].size + h.tops
    ensures p + nb + 8 in h.m && (p + nb) % 8 == 0 && p % 8 == 0 && p + 8 in h.m
  {
    FreeReads(h, {}, p);
    TopChunk(h);
    WithinMapped(h, h.top, p + nb - h.top);
    Eights(p, nb);
  }

  /** The copy stays within the new block, and the old block is still live. */
  lemma CopyReady(h: H, h1: H, x: int, p: int, nsize: int)
    requires Inv(h, {}) && x in LiveSet(h) && Inv(h1, {}) && Grants(h, h1, p, nsize + 8) && nsize >= 0
    ensures var n := Min(h.C[x].size - 8, nsize); var h2 := h1.(m := Copied(h1.m, p + 16, x + 16, n));
            Inv(h2, {}) && x in LiveSet(h2)
  {
    assert x in LiveSet(h1) && p in LiveSet(h1);
    var n := Min(h.C[x].size - 8, nsize);
    CopyPayload(h1, p, x + 16, n);
    PayloadInv(h1, {}, Copied(h1.m, p + 16, x + 16, n), p);
  }

  lemma PayloadAt(h: H, x: int, a: int, w: int)
    requires Inv(h, {}) && x in LiveSet(h) && x + 16 <= a < x + 8 + h.C[x].size
    ensures a in h.m && OnlyPayload(h, h.m[a := w], x)
  {
    assert a in h.m;
    assert h.m[a := w].Keys == h.m.Keys;
  }

  /** What giving back segment k of h reads, once its chunk has been taken out of its place. */
  lemma DropReads(h: H, h1: H, k: int)
    requires Droppable(h, k) && Inv(h, {}) && Inv(h1, {h.segs[k].base}) && h1.segs == h.segs && h1.C == h.C
    ensures Droppable(h1, k) && h1.segs[k - 1].rec % 8 == 0
    ensures h1.segs[k - 1].rec + 16 in MapOut(h1.m, h1.segs[k].base, h1.segs[k].size)
    ensures R(h1.m, h.segs[k].rec + 16) == R(h.m, h.segs[k].rec + 16)
  {
    hide HeapOk, SegsOk, Inv;
    InvParts(h, {});
    InvParts(h1, {h.segs[k].base});
    PredReads(h1, k);
    PredKept(h1, k);
    NextKept(h, h1, k);
  }

  // When malloc fails.

  /** No free chunk, the designated victim included, and not top either, has nb bytes. */
  ghost predicate NoRoom(h: H, nb: int) {
    (forall p {:trigger h.C[p]} :: p in h.C && h.C[p].kind == Free ==> h.C[p].size < nb) && h.tops <= nb
  }

  /** The chunk size that malloc asks for. */
  function Request(nsize: int): int {
    if nsize < MIN_REQUEST then MIN_CHUNK_SIZE else PadRequest(nsize)
  }

  /** It is the least multiple of 8 that leaves a word for the header, and at least 32. */
  lemma RequestMeaning(nsize: int)
    requires 0 <= nsize < MAX_REQUEST
    ensures var nb := Request(nsize); nb % 8 == 0 && nb >= nsize + 8 && nb >= 32 && (nb < nsize + 16 || nb == 32)
  {
  }

  /** Segment k, which is not the head, is one free chunk, but for its foot. */
  ghost predicate Unused(C: Chunks, segs: seq<Seg>, k: int) {
    && 1 <= k < |segs| && segs[k].base in C && C[segs[k].base].kind == Free
    && segs[k].base + C[segs[k].base].size >= segs[k].End() - TOP_FOOT_SIZE
  }

  ghost predicate NoneUnused(C: Chunks, segs: seq<Seg>) {
    NoneBelow(C, segs, |segs|)
  }

  ghost predicate NoneBelow(C: Chunks, segs: seq<Seg>, k: int) {
    forall j {:trigger Unused(C, segs, j)} :: j < k ==> !Unused(C, segs, j)
  }

  lemma StillUsed(C: Chunks, segs: seq<Seg>, C': Chunks, segs': seq<Seg>, k: int)
    requires NoneBelow(C, segs, k) && 1 <= k < |segs| && segs' == segs[..k] + segs[k + 1..]
    requires forall q {:trigger C'[q]} :: q in C' ==> q in C && C'[q] == C[q]
    ensures NoneBelow(C', segs', k)
  {
    forall j {:trigger Unused(C', segs', j)} | j < k ensures !Unused(C', segs', j) {
      assert 1 <= j ==> segs'[j] == segs[j];
      assert !Unused(C, segs, j);
    }
  }

  lemma RecordPositive(h: H, k: int)
    requires Inv(h, {})
    ensures h.top > 0 && (0 <= k < |h.segs| ==> h.segs[k].rec > 0)
  {
    HeadBounds(h);
    SegListOf(h);
    if 0 <= k < |h.segs| { ListAt(h, k); }
  }

  /** The head segment holds a segment record, so that it cannot be cut. */
  ghost predicate Pinned(segs: seq<Seg>) {
    |segs| > 0 && exists k :: 0 <= k < |segs| && Holds(segs[0].base, segs[0].size, segs[k].rec)
  }

  // The memory that the heap has from the system.

  ghost function Bytes(segs: seq<Seg>): int {
    if segs == [] then 0 else segs[0].size + Bytes(segs[1..])
  }

  lemma {:induction false} BytesJoin(a: seq<Seg>, b: seq<Seg>)
    ensures Bytes(a + b) == Bytes(a) + Bytes(b)
    decreases |a|
  {
    if a == [] {
      assert a + b == b;
    } else {
      BytesJoin(a[1..], b);
      assert (a + b)[1..] == a[1..] + b;
    }
  }

  lemma BytesOne(x: Seg)
    ensures Bytes([x]) == x.size
  {
    assert [x][1..] == [];
  }

  lemma BytesAt(segs: seq<Seg>, k: nat, x: Seg)
    requires k < |segs|
    ensures Bytes(segs[k := x]) == Bytes(segs) - segs[k].size + x.size
    ensures Bytes(segs[..k] + segs[k + 1..]) == Bytes(segs) - segs[k].size
  {
    assert segs == segs[..k] + [segs[k]] + segs[k + 1..] && segs[k := x] == segs[..k] + [x] + segs[k + 1..];
    BytesJoin(segs[..k] + [segs[k]], segs[k + 1..]);
    BytesJoin(segs[..k], [segs[k]]);
    BytesJoin(segs[..k] + [x], segs[k + 1..]);
    BytesJoin(segs[..k], [x]);
    BytesJoin(segs[..k], segs[k + 1..]);
    BytesOne(segs[k]);
    BytesOne(x);
  }

  lemma SegPositive(h: H, k: int)
    requires Inv(h, {}) && 0 <= k < |h.segs|
    ensures h.segs[k].size > 0
  {
    assert SegOk(h, k);
  }

  lemma BytesSealed(h: H, base: int, size: int)
    requires |h.segs| > 0
    ensures Bytes(SealedState(h, base, size).segs) == Bytes(h.segs) + size
  {
    var a, b := Seg(base, size, h.segs[0].rec), Seg(h.segs[0].base, h.segs[0].size, RecordSite(h.top, h.tops) + 16);
    BytesAt(h.segs, 0, b);
    assert SealedState(h, base, size).segs == [a] + h.segs[0 := b];
    BytesJoin([a], h.segs[0 := b]);
    BytesOne(a);
  }

  lemma HalvedSegs(h: H, k: int, base: int, size: int, nb: int)
    requires CanHalve(h, k, base, size, nb)
    ensures Halved(h, k, base, size, nb).segs == h.segs[k := Seg(base, h.segs[k].size + size, h.segs[k].rec)]
  {
  }

  /** Block x has nb bytes, or top right behind it has room for what is missing. */
  ghost predicate InPlace(h: H, x: int, nb: int)
    requires x in h.C
  {
    h.C[x].size >= nb || (x + h.C[x].size == h.top && h.C[x].size + h.tops > nb)
  }

  /** No chunk in a bin has nb bytes. */
  ghost predicate BinsFull(h: H, nb: int) {
    forall p {:trigger h.C[p]} :: p in h.C && h.C[p].kind == Free && p != h.dv ==> h.C[p].size < nb
  }

  lemma NoRoomLeft(h: H, nb: int)
    requires Inv(h, {}) && nb > h.dvs && nb >= h.tops
    ensures BinsFull(h, nb) ==> NoRoom(h, nb)
  {
    forall p | p in h.C && p == h.dv
      ensures h.C[p].kind == Free ==> h.C[p].size == h.dvs
    {
      assert ChunkOk(h.m, h.C, p);
    }
  }

  lemma SmallBinsFull(h: H, nb: int)
    requires Inv(h, {}) && MIN_CHUNK_SIZE <= nb < MIN_LARGE_SIZE && nb % 8 == 0
    requires Ffs(h.sm, nb / 8) == NSMALLBINS && h.tm == {}
    ensures BinsFull(h, nb)
  {
    hide TreeIndex;
    TreeMapOf(h);
    forall p | p in h.C && h.C[p].kind == Free && p != h.dv ensures h.C[p].size < nb {
      PlacedNow(h, {}, p);
      assert ChunkOk(h.m, h.C, p);
      var i := h.C[p].size / 8;
      if IsSmall(h.C[p].size) { SmallMapOf(h, {}, i); assert i in h.sm; }
      else { NoTree(h, h.C[p].size); }
    }
  }

  lemma BinMarked(h: H, s: int)
    requires HeapOk(h) && BinsOk(h) && s in h.T.tn
    ensures TreeIndex(s) in h.tm
  {
    hide TreeIndex;
    TreeMapOf(h);
    RootExists(h.T, s);
    assert TreeIndex(s) in h.tm <==> TreeIndex(s) in h.T.rt && h.T.rt[TreeIndex(s)] != 0;
  }

  lemma NoTree(h: H, s: int)
    requires HeapOk(h) && BinsOk(h) && h.tm == {}
    ensures s !in h.T.tn
  {
    if s in h.T.tn { BinMarked(h, s); }
  }

  lemma LargeBinsFull(h: H, nb: int)
    requires Inv(h, {}) && nb >= MIN_LARGE_SIZE && (NoFit(h.T, nb) || h.tm == {})
    ensures BinsFull(h, nb)
  {
    hide TreeIndex;
    forall p | p in h.C && h.C[p].kind == Free && p != h.dv ensures h.C[p].size < nb {
      PlacedNow(h, {}, p);
      if !IsSmall(h.C[p].size) {
        assert h.C[p].size in h.T.tn;
        if h.tm == {} { NoTree(h, h.C[p].size); }
      }
    }
  }

  lemma ListHead(h: H)
    requires Inv(h, {})
    ensures |h.segs| > 0 && h.segs[0].rec == h.ms + SEG_OFS && (h.ms + SEG_OFS + 16) % 8 == 0
            && h.ms + SEG_OFS + 16 in h.m
    ensures R(h.m, h.ms + SEG_OFS + 16) == if 1 < |h.segs| then h.segs[1].rec else 0
  {
    hide HeapOk, SegsOk, BinsOk, SegList;
    SegListOf(h);
    ListStart(h);
  }

  lemma VisitReads(h: H, k: int)
    requires Inv(h, {}) && 1 <= k < |h.segs|
    ensures var rec, p := h.segs[k].rec, h.segs[k].base;
            && rec % 8 == 0 && rec in h.m && rec + 8 in h.m && rec + 16 in h.m
            && R(h.m, rec) == p && R(h.m, rec + 8) == h.segs[k].size
            && R(h.m, rec + 16) == (if k + 1 < |h.segs| then h.segs[k + 1].rec else 0)
            && (k + 1 < |h.segs| ==> h.segs[k + 1].rec != 0)
            && p % 8 == 0 && AlignOffset(p + 16) == 0 && p + 8 in h.m && (p + 8) % 8 == 0 && p in h.C
            && ChunkSize(R(h.m, p + 8)) == h.C[p].size
            && (!Cinuse(R(h.m, p + 8)) && p + h.C[p].size >= p + h.segs[k].size - TOP_FOOT_SIZE ==> Droppable(h, k))
            && (Cinuse(R(h.m, p + 8)) ==> InUse(h.C[p].kind))
  {
    hide HeapOk, SegsOk, BinsOk, SegList, Droppable;
    SegListOf(h);
    ListAt(h, k);
    BaseReads(h, k);
    Eights(h.segs[k].base, 8);
  }
}
