/** Segments: memory from and back to the operating system. */
module AllocSegs {
  import opened AllocHeap
  import opened AllocIndex
  import opened AllocTree
  import opened AllocState
  import opened AllocLinks
  import opened AllocTags
  import opened AllocOps
  import opened AllocResize
  import opened AllocBlocks

  /** [base, base + size) is page-aligned, unmapped, and does not wrap around. */
  predicate Fresh(m: Mem, base: int, size: int) {
    base > 0 && base % 0x1000 == 0 && base + size < TWO64 && forall a {:trigger a in m} :: base <= a < base + size ==>
      a !in m
  }

  predicate Within(a: int, base: int, size: int) {
    base <= a < base + size
  }

  /** New pages hold zeros. */
  function MapIn(m: Mem, base: int, size: int): Mem {
    m + (map a {:trigger Within(a, base, size)} | base <= a < base + size && Within(a, base, size) :: 0)
  }

  lemma MapInWords(m: Mem, base: int, size: int)
    requires Fresh(m, base, size)
    ensures forall a {:trigger a in MapIn(m, base, size)} :: a in MapIn(m, base, size) <==>
      a in m || base <= a < base + size
    ensures forall a {:trigger R(MapIn(m, base, size), a)} :: R(MapIn(m, base, size), a) == R(m, a)
  {
    assert forall a {:trigger Within(a, base, size)} :: Within(a, base, size) <==> base <= a < base + size;
    var d := map a {:trigger Within(a, base, size)} | base <= a < base + size && Within(a, base, size) :: 0;
    assert forall a {:trigger a in d} :: a in d <==> Within(a, base, size);
  }

  function MapOut(m: Mem, base: int, size: int): Mem {
    map a | a in m && !(base <= a < base + size) :: m[a]
  }

  // What keeps the bins intact.

  ghost predicate FreeKept(h: H, h': H, u: set<int>, q: int) {
    q in h.C && h.C[q].kind == Free && q !in u ==> q in h'.C && h'.C[q].kind == Free && h'.C[q].size == h.C[q].size
  }

  ghost predicate FreeOld(h: H, h': H, q: int) {
    q in h'.C && h'.C[q].kind == Free ==> q in h.C && h.C[q].kind == Free && h'.C[q].size == h.C[q].size
  }

  ghost predicate OffFree(h: H, u: set<int>, y: int, a: int)
    requires y in h.C
  {
    h.C[y].kind == Free && y !in u ==> a < y + 16 || y + 8 + h.C[y].size <= a
  }

  /** a is no word of a free chunk's links nor of the bins. */
  ghost predicate OffBins(h: H, u: set<int>, a: int) {
    && (forall y {:trigger OffFree(h, u, y, a)} :: y in h.C ==> OffFree(h, u, y, a))
    && !(h.ms + SMALLBINS_OFS <= a < h.ms + SEG_OFS)
  }

  lemma OffBinsWord(h: H, u: set<int>, a: int)
    requires Inv(h, u) && OffBins(h, u, a)
    ensures NotSmallWord(h, a) && NotTreeWord(h, a)
  {
    hide TreeIndex;
    TreeSizes(h.T);
    forall i, k | 0 <= i < |h.sb| && 0 <= k < |h.sb[i]| ensures OutSmall(h.sb, i, k, a) {
      SmallMember(h, u, i, k);
      assert OffFree(h, u, h.sb[i][k], a);
    }
    forall s, k | s in h.T.tn && 0 <= k < |h.T.tn[s].ring| ensures OutTree(h.T, s, k, a) {
      TreeMember(h, u, s, k);
      assert OffFree(h, u, h.T.tn[s].ring[k], a);
    }
  }

  lemma SmallMember(h: H, u: set<int>, i: int, k: int)
    requires Inv(h, u) && 0 <= i < |h.sb| && 0 <= k < |h.sb[i]|
    ensures var q := h.sb[i][k];
            q in h.C && h.C[q].kind == Free && q !in u && h.C[q].size == 8 * i && h.C[q].size >= MIN_CHUNK_SIZE
  {
    assert SmallHolds(h.C, h.sb, i, k);
    assert ChunkOk(h.m, h.C, h.sb[i][k]);
    if h.sb[i][k] in u { assert InSmall(h, h.sb[i][k]); }
  }

  lemma TreeMember(h: H, u: set<int>, s: int, k: int)
    requires Inv(h, u) && s in h.T.tn && 0 <= k < |h.T.tn[s].ring|
    ensures var q := h.T.tn[s].ring[k]; q in h.C && h.C[q].kind == Free && q !in u && h.C[q].size == s
  {
    assert TreeHolds(h.C, h.T, s, k);
    if h.T.tn[s].ring[k] in u { assert InTree(h, h.T.tn[s].ring[k]); }
  }

  /** h' has the bins of h, and the free chunks of h but for some that are in no bin. */
  ghost predicate SameBins(h: H, u: set<int>, h': H, u': set<int>) {
    && h'.ms == h.ms && h'.sb == h.sb && h'.sm == h.sm && h'.T == h.T && h'.tm == h.tm && h'.dv == h.dv
    && h'.dvs == h.dvs
    && (forall q {:trigger FreeKept(h, h', u, q)} :: FreeKept(h, h', u, q))
    && (forall q {:trigger FreeOld(h, h', q)} :: FreeOld(h, h', q))
    && (forall q {:trigger q in u'} :: q in u' <==> q in u && q in h'.C && h'.C[q].kind == Free)
    && (forall a {:trigger R(h'.m, a)} :: R(h'.m, a) != R(h.m, a) ==> OffBins(h, u, a))
  }

  lemma SameBinsHeld(h: H, u: set<int>, h': H, u': set<int>)
    requires Inv(h, u) && SameBins(h, u, h', u')
    ensures BinsOk(h')
  {
    hide TreeIndex;
    forall a | R(h'.m, a) != R(h.m, a) ensures NotSmallWord(h, a) && NotTreeWord(h, a) { OffBinsWord(h, u, a); }
    SmallFrame(h, h'.m);
    TreeFrame(h, h'.m);
    forall i, k | 0 <= i < |h.sb| && 0 <= k < |h.sb[i]| ensures SmallHolds(h'.C, h'.sb, i, k) {
      SmallMember(h, u, i, k);
      assert FreeKept(h, h', u, h.sb[i][k]);
    }
    forall s, k | s in h.T.tn && 0 <= k < |h.T.tn[s].ring| ensures TreeHolds(h'.C, h'.T, s, k) {
      TreeMember(h, u, s, k);
      assert FreeKept(h, h', u, h.T.tn[s].ring[k]);
    }
  }

  lemma SameBinsPlaced(h: H, u: set<int>, h': H, u': set<int>)
    requires Inv(h, u) && SameBins(h, u, h', u')
    ensures AllPlaced(h', u') && DvOk(h')
  {
    hide TreeIndex;
    forall q | q in h'.C && h'.C[q].kind == Free && q !in u' ensures Placed(h', q) {
      assert FreeOld(h, h', q);
      assert Placed(h, q);
    }
    forall q | q in u' ensures q in h'.C && h'.C[q].kind == Free && !Binned(h', q) && q != h'.dv {
      assert FreeOld(h, h', q);
      assert q in u;
      assert Binned(h', q) == Binned(h, q);
    }
    if h.dv != 0 {
      assert FreeKept(h, h', u, h.dv);
      assert Binned(h', h.dv) == Binned(h, h.dv);
    }
  }

  /** A chunk and the fresh region share no byte. */
  lemma FreshAway(h: H, base: int, size: int, q: int)
    requires HeapOk(h) && Fresh(h.m, base, size) && size > 0 && q in h.C
    ensures q + 8 + h.C[q].size <= base || base + size <= q
  {
    assert ChunkOk(h.m, h.C, q);
    assert q in h.m;
    assert q <= base < q + 8 + h.C[q].size ==> base in h.m;
  }

  lemma Aligned(base: int, size: int)
    requires base % 0x1000 == 0 && size % GRANULARITY == 0
    ensures base % 8 == 0 && size % 8 == 0 && (size > 0 ==> size >= GRANULARITY)
  {
    assert base == 8 * (512 * (base / 0x1000));
    assert size == 8 * (0x4000 * (size / GRANULARITY));
  }

  lemma Granules(a: int, b: int)
    requires a % GRANULARITY == 0 && b % GRANULARITY == 0
    ensures (a + b) % GRANULARITY == 0 && (a - b) % GRANULARITY == 0
  {
    var x, y := a / GRANULARITY, b / GRANULARITY;
    assert a + b == GRANULARITY * (x + y) && a - b == GRANULARITY * (x - y);
  }

  lemma SegBounds(h: H, k: int)
    requires SegsOk(h) && 0 <= k < |h.segs|
    ensures var sg := h.segs[k];
            && sg.base > 0 && sg.base % 8 == 0 && sg.size % GRANULARITY == 0 && GRANULARITY <= sg.size < SIZE_LIMIT
            && sg.rec > 0
            && sg.base in h.C && h.C[sg.base].pin && SegRecord(h, k)
            && (forall a {:trigger a in h.m} :: sg.base <= a < sg.End() ==> a in h.m)
  {
    assert SegOk(h, k);
  }

  lemma HeadBounds(h: H)
    requires HeapOk(h) && SegsOk(h)
    ensures |h.segs| > 0 && h.segs[0].rec == h.ms + SEG_OFS && h.segs[0].base <= h.top
    ensures h.top + h.tops + TOP_FOOT_SIZE == h.segs[0].End()
    ensures h.top % 8 == 0 && h.tops % 8 == 0 && h.tops >= 8 && h.top > 0
  {
    assert ChunkOk(h.m, h.C, h.top);
  }

  // Growing and shrinking top at the end of the head segment.

  /** The head segment and top end at `end` in h'; only top's head, the record and what lies past top's head change. */
  ghost predicate TopMoved(h: H, h': H, tops': int) {
    && |h.segs| > 0 && h'.C == h.C[h.top := Chunk(tops', Top, true)] && tops' >= 8 && tops' % 8 == 0
    && (tops' - h.tops) % GRANULARITY == 0
    && h' == h.(m := h'.m, C := h'.C, tops := tops',
                segs := h.segs[0 := h.segs[0].(size := h.segs[0].size + tops' - h.tops)])
    && (var rec, was, end := h.segs[0].rec, h.segs[0].End(), h.top + tops' + TOP_FOOT_SIZE;
        && (forall a {:trigger R(h'.m, a)} :: R(h'.m, a) != R(h.m, a) ==>
            a == rec + 8 || h.top + 8 <= a < was || was <= a < end)
        && (forall a {:trigger a in h'.m} :: a in h'.m <==> (a in h.m && !(end <= a < was)) || was <= a < end)
        && (forall a {:trigger a in h.m} :: was <= a < end ==> a !in h.m)
        && end < TWO64 && h.segs[0].size + tops' - h.tops < SIZE_LIMIT
        && R(h'.m, rec + 8) == h.segs[0].size + tops' - h.tops && R(h'.m, h.top + 8) == tops' + 1)
  }

  /** Other chunks are not touched. */
  lemma TopMovedAway(h: H, h': H, tops': int, q: int)
    requires HeapOk(h) && BinsOk(h) && SegsOk(h) && TopMoved(h, h', tops') && q in h.C && q != h.top
    ensures q + h.C[q].size <= h.top || (h.segs[0].End() <= q && h.top + tops' + TOP_FOOT_SIZE <= q)
    ensures q >= 0 && h.C[q].size >= 8
  {
    TopEnd(h);
    ChunksAway(h, q, h.top);
    assert ChunkOk(h.m, h.C, q);
    assert q in h.m;
  }

  lemma TopMovedOther(h: H, u: set<int>, h': H, tops': int, q: int)
    requires Inv(h, u) && TopMoved(h, h', tops') && q in h.C && q != h.top
    ensures ChunkOk(h'.m, h'.C, q)
  {
    assert ChunkOk(h.m, h.C, q);
    TopMovedAway(h, h', tops', q);
    RecordAway(h, q);
    if !h.C[q].pin { assert ChunkOk(h.m, h.C, q - R(h.m, q)); }
    hide Inv, HeapOk, SegsOk, BinsOk;
  }

  /** The record of the head segment is no tag of a chunk. */
  lemma RecordAway(h: H, q: int)
    requires HeapOk(h) && SegsOk(h) && q in h.C
    ensures h.segs[0].rec + 8 != q && h.segs[0].rec + 8 != q + 8
    ensures h.C[q].kind == Free ==> h.segs[0].rec + 8 != q + h.C[q].size
  {
    if q != h.ms - 16 { ChunksAway(h, q, h.ms - 16); }
    assert ChunkOk(h.m, h.C, q);
  }

  lemma TopMovedTop(h: H, u: set<int>, h': H, tops': int)
    requires Inv(h, u) && TopMoved(h, h', tops')
    ensures ChunkOk(h'.m, h'.C, h.top)
  {
    assert ChunkOk(h.m, h.C, h.top);
    TopEnd(h);
    assert h.top + tops' !in h'.C by {
      if h.top + tops' in h.C { TopMovedAway(h, h', tops', h.top + tops'); }
    }
  }

  lemma TopMovedTiled(h: H, u: set<int>, h': H, tops': int)
    requires Inv(h, u) && TopMoved(h, h', tops')
    ensures Tiled(h'.m, h'.C) && TopOk(h')
  {
    forall q | q in h'.C ensures ChunkOk(h'.m, h'.C, q) {
      if q == h.top { TopMovedTop(h, u, h', tops'); } else { TopMovedOther(h, u, h', tops', q); }
    }
    forall q, r | q in h'.C && r in h'.C ensures Apart(h'.C, q, r) {
      assert Apart(h.C, q, r);
      if q != h.top { TopMovedAway(h, h', tops', q); }
      if r != h.top { TopMovedAway(h, h', tops', r); }
    }
  }

  lemma TopMovedMapped(h: H, u: set<int>, h': H, tops': int)
    requires Inv(h, u) && TopMoved(h, h', tops')
    ensures Mapped(h'.m, h'.C) && Low(h'.m) && StateOk(h')
  {
    TopEnd(h);
    StateTop(h);
    assert SegOk(h, 0);
    forall q, a | q in h'.C && q <= a < q + 8 + h'.C[q].size ensures a in h'.m {
      if q != h.top { TopMovedAway(h, h', tops', q); MappedAt(h, q, a); }
    }
    forall a | a in h'.m ensures 0 < a < TWO64 {
      if a in h.m { LowAt(h, a); }
    }
  }

  lemma MappedAt(h: H, q: int, a: int)
    requires HeapOk(h) && q in h.C && q <= a < q + 8 + h.C[q].size
    ensures a in h.m
  {
  }

  lemma LowAt(h: H, a: int)
    requires HeapOk(h) && a in h.m
    ensures 0 < a < TWO64
  {
  }

  lemma TopMovedSeg(h: H, u: set<int>, h': H, tops': int, k: int)
    requires Inv(h, u) && TopMoved(h, h', tops') && 0 <= k < |h.segs|
    ensures SegOk(h', k)
  {
    hide Inv, HeapOk, BinsOk, OldSeg, SegRecord, InSeg;
    InvParts(h, u);
    assert SegOk(h, k) && SegOk(h, 0);
    TopEnd(h);
    StateTop(h);
    TopMovedRecord(h, u, h', tops', k);
    forall q | q in h'.C ensures InSeg(h', k, q) { TopMovedIn(h, u, h', tops', k, q); }
    if k > 0 { TopMovedOld(h, u, h', tops', k); TopMovedSegMapped(h, u, h', tops', k); }
  }

  lemma TopMovedSegMapped(h: H, u: set<int>, h': H, tops': int, k: int)
    requires Inv(h, u) && TopMoved(h, h', tops') && 0 < k < |h.segs|
    ensures forall a {:trigger a in h'.m} :: h.segs[k].base <= a < h.segs[k].End() ==> a in h'.m
  {
    assert SegOk(h, k) && SegOk(h, 0) && SegApart(h, 0, k);
  }

  lemma TopMovedRecord(h: H, u: set<int>, h': H, tops': int, k: int)
    requires Inv(h, u) && TopMoved(h, h', tops') && 0 <= k < |h.segs|
    ensures SegRecord(h', k)
  {
    SegBounds(h, k);
    HeadBounds(h);
    TopMovedAway(h, h', tops', h.ms - 16);
    if k > 0 {
      assert OldSeg(h, k) by { assert SegOk(h, k); }
      var rp := h.segs[k].rec - 16;
      TopMovedAway(h, h', tops', rp);
      ChunksAway(h, rp, h.ms - 16);
    }
    hide Inv, HeapOk, SegsOk, BinsOk;
  }

  lemma TopMovedShape(h: H, h': H, tops': int)
    requires SegsOk(h) && TopMoved(h, h', tops')
    ensures |h'.segs| == |h.segs| > 0 && h'.top == h.top && h'.tops == tops' >= 8
            && h'.C == h.C[h.top := Chunk(tops', Top, true)]
    ensures forall k {:trigger h'.segs[k]} :: 0 < k < |h.segs| ==> h'.segs[k] == h.segs[k]
    ensures h'.segs[0].base == h.segs[0].base <= h.top && h'.segs[0].End() == h.top + tops' + TOP_FOOT_SIZE
    ensures h.segs[0].End() == h.top + h.tops + TOP_FOOT_SIZE
  {
  }

  lemma InSegNow(h: H, k: int, q: int)
    requires HeapOk(h) && SegsOk(h) && 0 <= k < |h.segs| && q in h.C
    ensures InSeg(h, k, q) && SegApart(h, 0, k) && q >= 0 && h.C[q].size >= 8
  {
    assert SegOk(h, k) && ChunkOk(h.m, h.C, q);
  }

  lemma TopMovedIn(h: H, u: set<int>, h': H, tops': int, k: int, q: int)
    requires Inv(h, u) && TopMoved(h, h', tops') && 0 <= k < |h.segs| && q in h.C
    ensures InSeg(h', k, q)
  {
    InvParts(h, u);
    InSegNow(h, k, q);
    TopMovedShape(h, h', tops');
    TopKind(h);
    hide Inv, HeapOk, SegsOk, BinsOk, TopMoved;
    if q != h.top { TopMovedAway(h, h', tops', q); }
    if k > 0 && q == h.top { FreshEnd(h, u, h', tops', k); }
  }

  lemma TopKind(h: H)
    requires HeapOk(h) && BinsOk(h)
    ensures h.top in h.C && h.C[h.top].size == h.tops >= 8
  {
    assert ChunkOk(h.m, h.C, h.top);
  }

  lemma FreshEnd(h: H, u: set<int>, h': H, tops': int, k: int)
    requires Inv(h, u) && TopMoved(h, h', tops') && 0 < k < |h.segs|
    ensures h.segs[k].End() <= h.segs[0].base || h.top + tops' + TOP_FOOT_SIZE <= h.segs[k].base
    ensures h.segs[0].base <= h.top
  {
    assert SegOk(h, k) && SegOk(h, 0) && SegApart(h, 0, k);
    assert h.segs[k].base in h.m;
  }

  lemma TopMovedOld(h: H, u: set<int>, h': H, tops': int, k: int)
    requires Inv(h, u) && TopMoved(h, h', tops') && 0 < k < |h.segs|
    ensures OldSeg(h', k)
  {
    assert SegOk(h, k);
    assert OldSeg(h, k);
    forall p | p in h'.C ensures SegTail(h', k, p) { assert SegTail(h, k, p); }
  }

  lemma TopMovedCovered(h: H, u: set<int>, h': H, tops': int)
    requires Inv(h, u) && TopMoved(h, h', tops')
    ensures Covered(h'.m, h'.segs)
  {
    HeadBounds(h);
    forall a {:trigger a in h'.m} | a in h'.m ensures InSome(h'.segs, a) {
      if a in h.m {
        assert InSome(h.segs, a);
        var k :| HeldBy(h.segs, k, a);
        assert HeldBy(h'.segs, k, a);
      } else {
        assert HeldBy(h'.segs, 0, a);
      }
    }
  }

  lemma TopMovedSegs(h: H, u: set<int>, h': H, tops': int)
    requires Inv(h, u) && TopMoved(h, h', tops')
    ensures SegsOk(h')
  {
    forall k | 0 <= k < |h.segs| ensures SegOk(h', k) { TopMovedSeg(h, u, h', tops', k); }
    forall j, k | 0 <= j < |h.segs| && 0 <= k < |h.segs| ensures SegApart(h', j, k) {
      assert SegApart(h, j, k);
      if j > 0 { FreshEnd(h, u, h', tops', j); }
      if k > 0 { FreshEnd(h, u, h', tops', k); }
      assert SegOk(h, 0);
    }
    TopMovedCovered(h, u, h', tops');
    assert SegOk(h, 0);
  }

  /** Growing or shrinking top at the end of the head segment keeps the invariant and every block. */
  lemma TopMovedInv(h: H, u: set<int>, h': H, tops': int)
    requires Inv(h, u) && TopMoved(h, h', tops')
    ensures Inv(h', u) && Same(h, h')
  {
    TopMovedTiled(h, u, h', tops');
    TopMovedMapped(h, u, h', tops');
    TopMovedSegs(h, u, h', tops');
    TopMovedBins(h, u, h', tops');
    SameBinsHeld(h, u, h', u);
    SameBinsPlaced(h, u, h', u);
    TopMovedLive(h, u, h', tops');
  }

  lemma TopMovedBins(h: H, u: set<int>, h': H, tops': int)
    requires Inv(h, u) && TopMoved(h, h', tops')
    ensures SameBins(h, u, h', u)
  {
    forall q ensures FreeKept(h, h', u, q) { }
    forall q ensures FreeOld(h, h', q) { }
    forall a | R(h'.m, a) != R(h.m, a) ensures OffBins(h, u, a) {
      TopMovedAway(h, h', tops', h.ms - 16);
      forall y | y in h.C ensures OffFree(h, u, y, a) {
        if h.C[y].kind == Free { TopMovedAway(h, h', tops', y); ChunksAway(h, y, h.ms - 16); }
      }
    }
    forall q ensures q in u <==> q in u && q in h'.C && h'.C[q].kind == Free { if q in u { assert q in h.C; } }
  }

  lemma TopMovedLive(h: H, u: set<int>, h': H, tops': int)
    requires Inv(h, u) && TopMoved(h, h', tops')
    ensures Same(h, h')
  {
    forall q | q in h.C && h.C[q].kind == Live ensures BlockKept(h, h', q) {
      TopMovedAway(h, h', tops', q);
      ChunksAway(h, q, h.ms - 16);
    }
    assert LiveSet(h') == LiveSet(h);
  }

  lemma StateTop(h: H)
    requires HeapOk(h) && SegsOk(h)
    ensures var z := h.ms - 16; z + MSTATE_CHUNK_SIZE <= h.top || h.top < z
    ensures h.ms - 16 != h.top
  {
    ChunksAway(h, h.ms - 16, h.top);
  }
}
