/** Writing a live block, and what realloc promises about its contents. */
module AllocPayload {
  import opened AllocHeap
  import opened AllocIndex
  import opened AllocTree
  import opened AllocState
  import opened AllocLinks
  import opened AllocTags
  import opened AllocOps
  import opened AllocResize
  import opened AllocBlocks

  /** m' differs from the memory of h only in the payload of block x. */
  ghost predicate OnlyPayload(h: H, m': Mem, x: int)
    requires x in h.C
  {
    (forall a {:trigger R(m', a)} :: R(m', a) != R(h.m, a) ==> x + 16 <= a < x + 8 + h.C[x].size) && m'.Keys == h.m.Keys
  }

  lemma PayloadChunk(h: H, m': Mem, x: int, p: int)
    requires HeapOk(h) && x in h.C && h.C[x].kind == Live && OnlyPayload(h, m', x) && p in h.C
    requires x + h.C[x].size in h.C && h.C[x + h.C[x].size].pin
    ensures ChunkOk(m', h.C, p)
  {
    assert ChunkOk(h.m, h.C, p) && ChunkOk(h.m, h.C, x);
    if p != x { ChunksAway(h, p, x); }
  }

  lemma LiveNext(h: H, x: int)
    requires HeapOk(h) && x in h.C && h.C[x].kind == Live
    ensures x + h.C[x].size in h.C && h.C[x + h.C[x].size].pin
  {
    assert ChunkOk(h.m, h.C, x);
  }

  lemma PayloadKeys(h: H, m': Mem, x: int)
    requires HeapOk(h) && x in h.C && OnlyPayload(h, m', x)
    ensures Mapped(m', h.C) && Low(m')
  {
  }

  lemma PayloadChunks(h: H, m': Mem, x: int)
    requires HeapOk(h) && x in h.C && h.C[x].kind == Live && OnlyPayload(h, m', x)
    ensures Tiled(m', h.C)
  {
    LiveNext(h, x);
    assert NoOverlap(h.C);
    hide ChunkOk, R, OnlyPayload, NoOverlap, HeapOk;
    forall p | p in h.C ensures ChunkOk(m', h.C, p) { PayloadChunk(h, m', x, p); }
  }

  lemma PayloadTiled(h: H, m': Mem, x: int)
    requires HeapOk(h) && x in h.C && h.C[x].kind == Live && OnlyPayload(h, m', x)
    ensures HeapOk(h.(m := m'))
  {
    PayloadKeys(h, m', x);
    PayloadChunks(h, m', x);
    hide Tiled, Mapped, Low, OnlyPayload;
  }

  lemma PayloadSeg(h: H, m': Mem, x: int, k: int)
    requires HeapOk(h) && SegsOk(h) && x in h.C && h.C[x].kind == Live && OnlyPayload(h, m', x) && 0 <= k < |h.segs|
    ensures SegOk(h.(m := m'), k)
  {
    var h' := h.(m := m');
    assert ChunkOk(h.m, h.C, x);
    ChunksAway(h, x, h.ms - 16);
    assert SegOk(h, k);
    if k > 0 { PayloadOldSeg(h, h', k, x); }
    forall p | p in h.C ensures InSeg(h', k, p) { assert InSeg(h, k, p); }
  }

  lemma PayloadSegs(h: H, u: set<int>, m': Mem, x: int)
    requires HeapOk(h) && SegsOk(h) && x in h.C && h.C[x].kind == Live && OnlyPayload(h, m', x)
    ensures SegsOk(h.(m := m'))
  {
    assert m'.Keys == h.m.Keys;
    hide HeapOk, SegOk, OnlyPayload;
    var h' := h.(m := m');
    forall a {:trigger a in m'} | a in m' ensures InSome(h.segs, a) { assert a in h.m; }
    forall k | 0 <= k < |h.segs| ensures SegOk(h', k) { PayloadSeg(h, m', x, k); }
    forall j, k | 0 <= j < |h.segs| && 0 <= k < |h.segs| ensures SegApart(h', j, k) { assert SegApart(h, j, k); }
  }

  lemma PayloadOldSeg(h: H, h': H, k: int, x: int)
    requires HeapOk(h) && 0 < k < |h.segs| && OldSeg(h, k) && SegRecord(h, k) && x in h.C && h.C[x].kind == Live
    requires h' == h.(m := h'.m) && OnlyPayload(h, h'.m, x)
    ensures OldSeg(h', k) && SegRecord(h', k)
  {
    var rp := h.segs[k].rec - 16;
    ChunksAway(h, x, rp);
    assert ChunkOk(h.m, h.C, x);
    forall p | p in h'.C ensures SegTail(h', k, p) { assert SegTail(h, k, p); }
  }

  lemma PayloadBins(h: H, u: set<int>, m': Mem, x: int)
    requires Inv(h, u) && x in h.C && h.C[x].kind == Live && OnlyPayload(h, m', x)
    ensures BinsOk(h.(m := m'))
  {
    hide TreeIndex;
    TreeSizes(h.T);
    assert !Binned(h, x) by { if Binned(h, x) { BinnedFree(h, x); } }
    forall a | R(m', a) != R(h.m, a) ensures NotSmallWord(h, a) && NotTreeWord(h, a) {
      ChunkNotSmall(h, x, a - x);
      ChunkNotTree(h, x, a - x);
    }
    SmallFrame(h, m');
    TreeFrame(h, m');
  }

  lemma PayloadPlaced(h: H, u: set<int>, m': Mem)
    requires AllPlaced(h, u) && DvOk(h)
    ensures AllPlaced(h.(m := m'), u) && DvOk(h.(m := m'))
  {
    var h' := h.(m := m');
    forall p | p in h'.C && h'.C[p].kind == Free && p !in u ensures Placed(h', p) { assert Placed(h, p); }
    forall p | p in u
      ensures p in h'.C && h'.C[p].kind == Free && !Binned(h', p) && p != h'.dv
    {
      assert Binned(h, p) == Binned(h', p);
    }
    if h.dv != 0 { assert Binned(h, h.dv) == Binned(h', h.dv); }
  }

  lemma PayloadLive(h: H, m': Mem, x: int)
    requires HeapOk(h) && x in h.C && h.C[x].kind == Live && OnlyPayload(h, m', x)
    ensures LiveKept(h, h.(m := m'), x)
  {
    var h' := h.(m := m');
    forall q | q in h.C && h.C[q].kind == Live && q != x ensures BlockKept(h, h', q) { ChunksAway(h, x, q); }
  }

  /** A program may write its live blocks as it likes: the allocator does not depend on them. */
  lemma PayloadInv(h: H, u: set<int>, m': Mem, x: int)
    requires Inv(h, u) && x in LiveSet(h) && OnlyPayload(h, m', x)
    ensures Inv(h.(m := m'), u) && LiveKept(h, h.(m := m'), x) && LiveSet(h.(m := m')) == LiveSet(h)
  {
    hide Inv, HeapOk, BinsOk, SegsOk, AllPlaced, DvOk, OnlyPayload, LiveKept;
    InvParts(h, u);
    PayloadTiled(h, m', x);
    PayloadSegs(h, u, m', x);
    PayloadBins(h, u, m', x);
    PayloadPlaced(h, u, m');
    PayloadLive(h, m', x);
    Whole(h.(m := m'), u);
  }

  lemma Whole(h: H, u: set<int>)
    requires HeapOk(h) && BinsOk(h) && AllPlaced(h, u) && DvOk(h) && SegsOk(h)
    ensures Inv(h, u)
  {
  }

  // realloc.

  /** memcpy between blocks. */
  function Copied(m: Mem, dst: int, src: int, n: int): Mem {
    map a | a in m :: if dst <= a < dst + n then R(m, src + (a - dst)) else m[a]
  }

  /** The first n payload bytes of x in h are those of p in h'. */
  ghost predicate SameContents(h: H, h': H, x: int, p: int, n: int) {
    forall a {:trigger R(h'.m, a)} :: p + 16 <= a < p + 16 + n ==> R(h'.m, a) == R(h.m, x + (a - p))
  }

  function Min(a: int, b: int): int {
    if a < b then a else b
  }

  /** The block x has become p, with room for nsize bytes and the contents of x as far as both go. */
  ghost predicate Reallocs(h: H, h': H, x: int, p: int, nsize: int)
    requires x in h.C
  {
    && LiveKept(h, h', x) && h'.ms == h.ms && (p != x ==> p !in LiveSet(h)) && LiveSet(h') == LiveSet(h) - {x} + {p}
    && p in h'.C && h'.C[p].size - 8 >= nsize
    && SameContents(h, h', x, p, Min(h.C[x].size - 8, nsize))
  }

  lemma StaysPut(h: H, x: int, nsize: int)
    requires x in LiveSet(h) && h.C[x].size - 8 >= nsize
    ensures Reallocs(h, h, x, x, nsize)
  {
    assert LiveSet(h) == LiveSet(h) - {x} + {x};
  }

  /** The cut-off tail of a shrunken block, freed. */
  lemma ShrunkFreed(h: H, x: int, nb: int, h': H, nsize: int)
    requires Inv(h, {}) && x in LiveSet(h) && nb % 8 == 0 && MIN_CHUNK_SIZE <= nb && nb + MIN_CHUNK_SIZE <= h.C[x].size
    requires Frees(Shrink(h, x, nb), h', x + nb) && 0 <= nsize <= nb - 8
    ensures Reallocs(h, h', x, x, nsize) && x in h'.C && h'.C[x].size == nb
  {
    var h1 := Shrink(h, x, nb);
    ShrinkInv(h, {}, x, nb);
    LiveSpan(h, {}, x);
    assert x + nb !in h.C;
    assert BlockKept(h1, h', x);
    hide Inv, Shrink;
    ShrinkLive(h, x, nb);
    assert LiveSet(h') == LiveSet(h) - {x} + {x};
    forall q | q in h.C && h.C[q].kind == Live && q != x ensures BlockKept(h, h', q) {
      assert q in LiveSet(h);
      assert BlockKept(h, h1, q) && BlockKept(h1, h', q);
    }
  }

  lemma ShrinkLive(h: H, x: int, nb: int)
    requires x in LiveSet(h)
    ensures LiveSet(Shrink(h, x, nb)) == LiveSet(h) + {x + nb} && Shrink(h, x, nb).ms == h.ms
    ensures nb != 0 ==>
      Shrink(h, x, nb).C[x].size == nb && Shrink(h, x, nb).C[x].kind == Live && x in Shrink(h, x, nb).C
  {
  }

  lemma Grown(h: H, x: int, nb: int, nsize: int)
    requires Inv(h, {}) && x in LiveSet(h) && x + h.C[x].size == h.top
    requires nb % 8 == 0 && h.C[x].size < nb < h.C[x].size + h.tops && 0 <= nsize <= nb - 8
    ensures Inv(GrowTop(h, x, nb), {}) && Reallocs(h, GrowTop(h, x, nb), x, x, nsize)
  {
    var h', n := GrowTop(h, x, nb), h.top + h.tops;
    GrowInv(h, {}, x, nb);
    GrowSpan(h, {}, x);
    hide Inv, LiveKept;
    assert h'.C[x] == Chunk(nb, Live, h.C[x].pin);
    forall q ensures q in LiveSet(h') <==> q in LiveSet(h) { }
    assert LiveSet(h') == LiveSet(h) - {x} + {x};
  }

  /** A new block p, filled from x, and then x freed. */
  lemma Moved(h: H, h1: H, h2: H, h': H, x: int, p: int, nsize: int)
    requires Inv(h, {}) && x in LiveSet(h) && Inv(h1, {}) && Grants(h, h1, p, nsize + 8) && nsize >= 0
    requires h2 == h1.(m := Copied(h1.m, p + 16, x + 16, Min(h.C[x].size - 8, nsize)))
    requires Frees(h2, h', x)
    ensures Reallocs(h, h', x, p, nsize) && p in h1.C && p in h'.C && h'.C[p].size == h1.C[p].size
  {
    var n := Min(h.C[x].size - 8, nsize);
    assert p != x && p in LiveSet(h1) && x in LiveSet(h1);
    assert BlockKept(h, h1, x);
    BlocksDisjoint(h1, {}, p, x);
    CopyPayload(h1, p, x + 16, n);
    PayloadInv(h1, {}, h2.m, p);
    hide Inv, Copied;
    forall q | q in h.C && h.C[q].kind == Live && q != x ensures BlockKept(h, h', q) {
      assert q in LiveSet(h) && q in LiveSet(h1) && q != p;
      assert BlockKept(h, h1, q) && BlockKept(h1, h2, q) && BlockKept(h2, h', q);
    }
    assert BlockKept(h2, h', p);
    assert LiveSet(h') == LiveSet(h) - {x} + {p};
    forall a | p + 16 <= a < p + 16 + n ensures R(h'.m, a) == R(h.m, x + (a - p)) {
      CopiedAt(h1, p, x, n, a);
      assert R(h1.m, x + (a - p)) == R(h.m, x + (a - p));
    }
  }

  lemma CopyPayload(h: H, p: int, src: int, n: int)
    requires p in h.C && n <= h.C[p].size - 8
    ensures OnlyPayload(h, Copied(h.m, p + 16, src, n), p)
  {
    var m' := Copied(h.m, p + 16, src, n);
    assert m'.Keys == h.m.Keys;
  }

  lemma CopiedAt(h: H, p: int, x: int, n: int, a: int)
    requires Inv(h, {}) && p in LiveSet(h) && p + 16 <= a < p + 16 + n && n <= h.C[p].size - 8
    ensures R(Copied(h.m, p + 16, x + 16, n), a) == R(h.m, x + (a - p))
  {
    assert a in h.m;
  }
}
