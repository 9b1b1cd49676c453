/** Splitting and merging chunks keeps everything that the bins, segments and live blocks rely on. */
module AllocTags {
  import opened AllocHeap
  import opened AllocRing
  import opened AllocIndex
  import opened AllocTrie
  import opened AllocTree
  import opened AllocState
  import opened AllocLinks

  /** The chunk at q may be split, merged or handed out: it is in no bin and no allocator record. */
  ghost predicate Movable(h: H, q: int)
    requires q in h.C
  {
    h.C[q].kind != Sys && !Binned(h, q)
  }

  /** [p, n) is a run of movable chunks inside one segment. */
  ghost predicate Span(h: H, p: int, n: int) {
    && p in h.C && p < n && Ends(h.C, p, n)
    && (forall q {:trigger Movable(h, q)} :: q in h.C && p <= q < n ==> Movable(h, q))
    && (forall a {:trigger a in h.m} :: p <= a < n + 8 ==> a in h.m)
    && (forall k {:trigger SpanSeg(h, k, p, n)} :: 0 <= k < |h.segs| ==> SpanSeg(h, k, p, n))
    && (n in h.C || n == h.top + h.tops)
  }

  ghost predicate SpanSeg(h: H, k: int, p: int, n: int)
    requires 0 <= k < |h.segs|
  {
    || (h.segs[k].base <= p && n <= Limit(h, k))
    || n + 8 <= h.segs[k].base
    || h.segs[k].End() <= p
  }

  lemma SpanOne(h: H, p: int)
    requires HeapOk(h) && SegsOk(h) && p in h.C && Movable(h, p) && (p + h.C[p].size in h.C || p == h.top)
    ensures Span(h, p, p + h.C[p].size)
  {
    var n := p + h.C[p].size;
    assert ChunkOk(h.m, h.C, p);
    NothingBetween(h.C, p);
    forall k | 0 <= k < |h.segs| ensures SpanSeg(h, k, p, n) { assert SegOk(h, k); assert InSeg(h, k, p); }
  }

  lemma SpanJoin(h: H, p: int, q: int, n: int)
    requires HeapOk(h) && SegsOk(h) && Span(h, p, q) && Span(h, q, n)
    ensures Span(h, p, n)
  {
    forall r | r in h.C && p <= r < n ensures Movable(h, r) && Bounded(h.C, r, n) {
      if r < q { assert Bounded(h.C, r, q); } else { assert Bounded(h.C, r, n); }
    }
    forall k | 0 <= k < |h.segs| ensures SpanSeg(h, k, p, n) {
      assert SpanSeg(h, k, p, q) && SpanSeg(h, k, q, n);
      assert SegOk(h, k);
      assert InSeg(h, k, q);
    }
  }

  /** The tag writes of h' stay in [p, n) and the head after it, and retile [p, n). */
  ghost predicate TagStep(h: H, h': H, p: int, n: int) {
    && Span(h, p, n)
    && SameOutside(h.m, h'.m, p + 8, n + 16) && h'.m.Keys == h.m.Keys
    && Retiled(h.C, h'.C, p, n) && Tiled(h'.m, h'.C) && Ends(h'.C, p, n)
    && (forall q {:trigger Followed(h'.C, q, n)} :: q in h'.C && p <= q < n ==> Followed(h'.C, q, n))
    && h'.ms == h.ms && h'.sb == h.sb && h'.sm == h.sm && h'.T == h.T && h'.tm == h.tm && h'.segs == h.segs
    && h'.top + h'.tops == h.top + h.tops
  }

  ghost predicate Followed(C: Chunks, q: int, n: int)
    requires q in C
  {
    C[q].kind != Sys && (q + C[q].size in C || q + C[q].size == n)
  }

  lemma StateAway(h: H, p: int, n: int)
    requires HeapOk(h) && Span(h, p, n)
    ensures var z := h.ms - 16; z + MSTATE_CHUNK_SIZE <= p || n <= z
  {
    var z := h.ms - 16;
    if p <= z < n { SpanMovable(h, p, n, z); }
    else if z < p { ChunksAway(h, p, z); }
  }

  lemma SpanMovable(h: H, p: int, n: int, q: int)
    requires Span(h, p, n) && q in h.C && p <= q < n
    ensures Movable(h, q) && q + h.C[q].size <= n
  {
    assert Movable(h, q);
    assert Bounded(h.C, q, n);
  }

  lemma TagHeap(h: H, h': H, p: int, n: int)
    requires Inv0(h) && TagStep(h, h', p, n)
    ensures Mapped(h'.m, h'.C) && Low(h'.m) && StateOk(h')
  {
    StateAway(h, p, n);
    forall q, a | q in h'.C && q <= a < q + 8 + h'.C[q].size ensures a in h'.m {
      if p <= q < n { assert Bounded(h'.C, q, n); }
      assert a in h.m;
    }
  }

  ghost predicate Inv0(h: H) {
    HeapOk(h) && BinsOk(h) && SegsOk(h)
  }

  /** A binned chunk is away from the changed words. */
  lemma BinnedAway(h: H, p: int, n: int, y: int)
    requires HeapOk(h) && Span(h, p, n)
    requires y in h.C && h.C[y].kind == Free && Binned(h, y)
    ensures if y < p then y + h.C[y].size <= p else n <= y
  {
    assert ChunkOk(h.m, h.C, y);
    if p <= y < n { SpanMovable(h, p, n, y); }
    ChunksAway(h, p, y);
  }

  lemma TopGap(h: H, y: int)
    requires HeapOk(h) && y in h.C
    ensures y == h.top + h.tops || y < h.top + h.tops || h.top + h.tops + 8 <= y
  {
    assert ChunkOk(h.m, h.C, y) && ChunkOk(h.m, h.C, h.top);
  }

  lemma TagHeld(h: H, h': H, p: int, n: int)
    requires Inv0(h) && TagStep(h, h', p, n)
    ensures SmallHeld(h'.C, h'.sb) && TreeHeld(h'.C, h'.T)
  {
    hide TreeIndex;
    TreeSizes(h.T);
    forall i, k | 0 <= i < |h.sb| && 0 <= k < |h.sb[i]| ensures SmallHolds(h'.C, h'.sb, i, k) {
      assert SmallHolds(h.C, h.sb, i, k);
      BinnedAway(h, p, n, h.sb[i][k]);
    }
    forall s, k | s in h.T.tn && 0 <= k < |h.T.tn[s].ring| ensures TreeHolds(h'.C, h'.T, s, k) {
      assert TreeHolds(h.C, h.T, s, k);
      BinnedAway(h, p, n, h.T.tn[s].ring[k]);
    }
  }

  lemma TagWords(h: H, p: int, n: int, a: int)
    requires Inv0(h) && Span(h, p, n) && p + 8 <= a < n + 16
    ensures NotSmallWord(h, a) && NotTreeWord(h, a)
  {
    hide TreeIndex;
    StateAway(h, p, n);
    TreeSizes(h.T);
    forall i, k | 0 <= i < |h.sb| && 0 <= k < |h.sb[i]| ensures OutSmall(h.sb, i, k, a) {
      assert SmallHolds(h.C, h.sb, i, k);
      assert ChunkOk(h.m, h.C, h.sb[i][k]);
      BinnedAway(h, p, n, h.sb[i][k]);
    }
    forall s, k | s in h.T.tn && 0 <= k < |h.T.tn[s].ring| ensures OutTree(h.T, s, k, a) {
      assert TreeHolds(h.C, h.T, s, k);
      BinnedAway(h, p, n, h.T.tn[s].ring[k]);
    }
  }

  lemma TagBins(h: H, h': H, p: int, n: int)
    requires Inv0(h) && TagStep(h, h', p, n)
    ensures BinsOk(h')
  {
    hide TreeIndex;
    TagHeld(h, h', p, n);
    forall a | R(h'.m, a) != R(h.m, a) ensures NotSmallWord(h, a) && NotTreeWord(h, a) {
      TagWords(h, p, n, a);
    }
    SmallFrame(h, h'.m);
    TreeFrame(h, h'.m);
  }

  /** Live blocks outside [p, n) stay as they are. */
  lemma TagLive(h: H, h': H, p: int, n: int, x: int)
    requires Inv0(h) && TagStep(h, h', p, n)
    requires forall q {:trigger h.C[q]} :: q in h.C && p <= q < n && h.C[q].kind == Live ==> q == x
    ensures LiveKept(h, h', x)
  {
    forall q | q in h.C && h.C[q].kind == Live && q != x ensures BlockKept(h, h', q) {
      ChunksAway(h, p, q);
      if n !in h.C { TopGap(h, q); }
      else if q != n { ChunksAway(h, n, q); assert ChunkOk(h.m, h.C, n); }
      forall a | q + 16 <= a < q + 8 + h.C[q].size ensures R(h'.m, a) == R(h.m, a) { }
    }
  }

  lemma TagRecord(h: H, h': H, p: int, n: int, k: int)
    requires Inv0(h) && TagStep(h, h', p, n) && 0 <= k < |h.segs|
    ensures SegRecord(h', k)
  {
    assert SegOk(h, k);
    StateAway(h, p, n);
    if k > 0 {
      assert OldSeg(h, k);
      var rp := h.segs[k].rec - 16;
      if p <= rp < n { SpanMovable(h, p, n, rp); }
      ChunksAway(h, p, rp);
    }
  }

  lemma TagInSegNew(h: H, h': H, p: int, n: int, k: int, q: int)
    requires Inv0(h) && TagStep(h, h', p, n) && 0 <= k < |h.segs| && q in h'.C && p <= q < n
    ensures InSeg(h', k, q)
  {
    assert SegOk(h, k) && SpanSeg(h, k, p, n);
    assert Bounded(h'.C, q, n) && Followed(h'.C, q, n);
    if n !in h.C && k > 0 {
      assert ChunkOk(h.m, h.C, h.top);
      assert SpanSeg(h, 0, p, n) && SegApart(h, 0, k);
    }
  }

  lemma TagInSegOld(h: H, h': H, p: int, n: int, k: int, q: int)
    requires Inv0(h) && TagStep(h, h', p, n) && 0 <= k < |h.segs| && q in h.C && (q < p || n <= q)
    ensures q in h'.C && InSeg(h', k, q)
  {
    assert SegOk(h, k) && InSeg(h, k, q);
    assert ChunkOk(h.m, h.C, q);
    if q < p { assert Apart(h.C, q, p); }
  }

  lemma TagOldSeg(h: H, h': H, p: int, n: int, k: int)
    requires Inv0(h) && TagStep(h, h', p, n) && 0 < k < |h.segs|
    ensures OldSeg(h', k)
  {
    assert SegOk(h, k);
    assert OldSeg(h, k);
    var rp := h.segs[k].rec - 16;
    if p <= rp < n { SpanMovable(h, p, n, rp); }
    forall q | q in h'.C ensures SegTail(h', k, q) {
      if p <= q < n {
        assert SegTail(h, k, p);
        SpanMovable(h, p, n, p);
      } else {
        assert SegTail(h, k, q);
      }
    }
  }

  lemma TagSegs(h: H, h': H, p: int, n: int)
    requires Inv0(h) && TagStep(h, h', p, n) && h.segs[0].base <= h'.top
    ensures SegsOk(h')
  {
    forall k | 0 <= k < |h.segs| ensures SegOk(h', k) {
      assert SegOk(h, k);
      TagRecord(h, h', p, n, k);
      forall q | q in h'.C ensures InSeg(h', k, q) {
        if p <= q < n { TagInSegNew(h, h', p, n, k, q); } else { TagInSegOld(h, h', p, n, k, q); }
      }
      if k > 0 { TagOldSeg(h, h', p, n, k); }
      assert SpanSeg(h, k, p, n);
    }
    forall j, k | 0 <= j < |h.segs| && 0 <= k < |h.segs| ensures SegApart(h', j, k) { assert SegApart(h, j, k); }
  }

  /** No chunk of the new run is in a bin; chunks outside keep their places. */
  lemma TagUnbinned(h: H, h': H, p: int, n: int, q: int)
    requires Inv0(h) && TagStep(h, h', p, n) && q in h'.C
    ensures p <= q < n ==> !Binned(h', q)
    ensures q < p || n <= q ==>
      q in h.C && h'.C[q].size == h.C[q].size && h'.C[q].kind == h.C[q].kind && Binned(h', q) == Binned(h, q)
  {
    hide TreeIndex;
    if p <= q < n {
      if InSmall(h', q) {
        var i := h'.C[q].size / 8;
        var k :| 0 <= k < |h.sb[i]| && h.sb[i][k] == q;
        assert SmallHolds(h.C, h.sb, i, k);
        BinnedAway(h, p, n, q);
      }
      if InTree(h', q) {
        var s := h'.C[q].size;
        var k :| 0 <= k < |h.T.tn[s].ring| && h.T.tn[s].ring[k] == q;
        assert TreeHolds(h.C, h.T, s, k);
        BinnedAway(h, p, n, q);
      }
    }
  }

  /** A retiling step keeps the invariant; the free chunks it makes are loose. */
  lemma TagInv(h: H, u: set<int>, h': H, p: int, n: int, u': set<int>)
    requires Inv(h, u) && TagStep(h, h', p, n) && TopOk(h') && h.segs[0].base <= h'.top
    requires h'.dv == h.dv && h'.dvs == h.dvs && !(p <= h.dv < n)
    requires forall q {:trigger q in u'} ::
               q in u' <==> (q in u && !(p <= q < n)) || (q in h'.C && p <= q < n && h'.C[q].kind == Free)
    ensures Inv(h', u')
  {
    TagHeap(h, h', p, n);
    TagBins(h, h', p, n);
    TagSegs(h, h', p, n);
    TagPlaced(h, u, h', p, n, u');
  }

  lemma TagPlaced(h: H, u: set<int>, h': H, p: int, n: int, u': set<int>)
    requires Inv(h, u) && TagStep(h, h', p, n)
    requires h'.dv == h.dv && h'.dvs == h.dvs && !(p <= h.dv < n)
    requires forall q {:trigger q in u'} ::
               q in u' <==> (q in u && !(p <= q < n)) || (q in h'.C && p <= q < n && h'.C[q].kind == Free)
    ensures AllPlaced(h', u') && DvOk(h')
  {
    hide TreeIndex;
    forall q | q in h'.C && h'.C[q].kind == Free && q !in u' ensures Placed(h', q) {
      TagUnbinned(h, h', p, n, q);
      assert Placed(h, q);
    }
    forall q | q in u' ensures q in h'.C && h'.C[q].kind == Free && !Binned(h', q) && q != h'.dv {
      if q in u { assert q in h.C; }
      if !(p <= q < n) { assert q in h'.C; }
      TagUnbinned(h, h', p, n, q);
    }
    if h.dv != 0 { assert h.dv in h'.C; TagUnbinned(h, h', p, n, h.dv); }
  }
}
