/** A fresh region just below a segment becomes part of it. */
module AllocPrepend {
  import opened AllocHeap
  import opened AllocIndex
  import opened AllocTree
  import opened AllocState
  import opened AllocLinks
  import opened AllocTags
  import opened AllocOps
  import opened AllocResize
  import opened AllocBlocks
  import opened AllocSegs

  ghost predicate CanPrepend(h: H, k: int, base: int, size: int) {
    && 0 <= k < |h.segs| && Fresh(h.m, base, size) && base + size == h.segs[k].base && size > 0
    && size % GRANULARITY == 0
    && h.segs[k].size + size < SIZE_LIMIT
  }

  /** The region as one live chunk at the front of segment k. */
  ghost function Extend(h: H, k: int, base: int, size: int): H
    requires 0 <= k < |h.segs|
  {
    var sg := h.segs[k];
    h.(m := MapIn(h.m, base, size)[sg.rec := base][sg.rec + 8 := sg.size + size][base + 8 := size + 3],
       C := h.C[base := Chunk(size, Live, true)], segs := h.segs[k := Seg(base, sg.size + size, sg.rec)])
  }

  /** The record of segment k lies inside an allocator chunk. */
  lemma RecordIn(h: H, k: int)
    requires HeapOk(h) && SegsOk(h) && 0 <= k < |h.segs|
    ensures var rec := h.segs[k].rec;
            && (exists z :: RecordChunk(h, z, rec))
            && rec in h.m && rec + 8 in h.m && rec + 16 in h.m && rec % 8 == 0
  {
    assert SegOk(h, k);
    var rec := h.segs[k].rec;
    if k == 0 {
      assert RecordChunk(h, h.ms - 16, rec);
    } else {
      assert OldSeg(h, k);
      assert ChunkOk(h.m, h.C, rec - 16);
      assert RecordChunk(h, rec - 16, rec);
    }
  }

  lemma NoChunkThere(h: H, base: int, size: int)
    requires HeapOk(h) && Fresh(h.m, base, size) && size > 0
    ensures base !in h.C
  {
    if base in h.C {
      ChunkPositive(h, base);
      FreshAway(h, base, size, base);
    }
  }

  ghost predicate RecordChunk(h: H, z: int, rec: int) {
    && z in h.C && h.C[z].kind == Sys && z + 16 <= rec && rec + 16 <= z + h.C[z].size
    && (z == h.ms - 16 ==> rec == h.ms + SEG_OFS)
  }

  /** No tag, link or payload is kept in the record of segment k. */
  lemma RecordApart(h: H, k: int, q: int)
    requires HeapOk(h) && SegsOk(h) && 0 <= k < |h.segs| && q in h.C
    ensures var rec := h.segs[k].rec; !(rec <= q + 8 < rec + SEG_WORDS) && !(rec <= q < rec + 16)
    ensures h.C[q].kind == Free || h.C[q].kind == Live ==>
              h.segs[k].rec + SEG_WORDS <= q + 8 || q + 8 + h.C[q].size <= h.segs[k].rec
    ensures !h.C[q].pin && PrevFree(h.m, h.C, q) ==> q < h.segs[k].rec || h.segs[k].rec + SEG_WORDS <= q
  {
    RecordIn(h, k);
    var z :| RecordChunk(h, z, h.segs[k].rec);
    if q != z { ChunksAway(h, q, z); }
    assert ChunkOk(h.m, h.C, q) && ChunkOk(h.m, h.C, z);
    if !h.C[q].pin {
      var v := q - R(h.m, q);
      assert ChunkOk(h.m, h.C, v);
      ChunksAway(h, v, z);
    }
  }

  lemma ExtendWords(h: H, k: int, base: int, size: int)
    requires HeapOk(h) && SegsOk(h) && CanPrepend(h, k, base, size)
    ensures var h', rec := Extend(h, k, base, size), h.segs[k].rec;
            && (forall a {:trigger R(h'.m, a)} :: a != rec && a != rec + 8 && a != base + 8 ==> R(h'.m, a) == R(h.m, a))
            && R(h'.m, rec) == base && R(h'.m, rec + 8) == h.segs[k].size + size && R(h'.m, base + 8) == size + 3
            && (forall a {:trigger a in h'.m} :: a in h'.m <==> a in h.m || base <= a < base + size)
  {
    RecordIn(h, k);
    MapInWords(h.m, base, size);
  }

  /** Adding a chunk elsewhere leaves the tags of q in order. */
  lemma ChunkSame(m: Mem, C: Chunks, m': Mem, base: int, c: Chunk, q: int)
    requires q in C && ChunkOk(m, C, q) && base !in C && q + C[q].size != base
    requires R(m', q + 8) == R(m, q + 8) && (C[q].kind == Free ==> R(m', q + C[q].size) == R(m, q + C[q].size))
    requires !C[q].pin ==> R(m', q) == R(m, q)
    ensures ChunkOk(m', C[base := c], q)
  {
  }

  lemma ExtendOther(h: H, k: int, base: int, size: int, q: int)
    requires HeapOk(h) && SegsOk(h) && CanPrepend(h, k, base, size) && q in h.C
    ensures ChunkOk(Extend(h, k, base, size).m, Extend(h, k, base, size).C, q)
  {
    ExtendWords(h, k, base, size);
    assert ChunkOk(h.m, h.C, q);
    NoChunkThere(h, base, size);
    FreshAway(h, base, size, q);
    RecordApart(h, k, q);
    hide HeapOk, SegsOk, RecordChunk, Fresh, ChunkOk, R;
    ChunkSame(h.m, h.C, Extend(h, k, base, size).m, base, Chunk(size, Live, true), q);
  }

  lemma ExtendNew(h: H, k: int, base: int, size: int)
    requires HeapOk(h) && SegsOk(h) && CanPrepend(h, k, base, size)
    ensures ChunkOk(Extend(h, k, base, size).m, Extend(h, k, base, size).C, base)
  {
    hide HeapOk, SegsOk, ChunkOk, R;
    ExtendWords(h, k, base, size);
    SegBounds(h, k);
    Aligned(base, size);
    FreshAway(h, base, size, h.segs[k].base);
    LiveOk(Extend(h, k, base, size).m, Extend(h, k, base, size).C, base, size);
  }

  lemma LiveOk(m: Mem, C: Chunks, p: int, s: int)
    requires p in C && C[p] == Chunk(s, Live, true) && p > 0 && p % 8 == 0 && s % 8 == 0 && s >= MIN_CHUNK_SIZE
    requires p + s in C && C[p + s].pin && R(m, p + 8) == s + 3
    ensures ChunkOk(m, C, p)
  {
  }

  lemma ExtendTiled(h: H, k: int, base: int, size: int)
    requires HeapOk(h) && SegsOk(h) && CanPrepend(h, k, base, size)
    ensures Tiled(Extend(h, k, base, size).m, Extend(h, k, base, size).C)
  {
    var h' := Extend(h, k, base, size);
    forall q | q in h'.C ensures ChunkOk(h'.m, h'.C, q) {
      if q == base { ExtendNew(h, k, base, size); } else { ExtendOther(h, k, base, size, q); }
    }
    forall q, r | q in h'.C && r in h'.C ensures Apart(h'.C, q, r) {
      if q != base { FreshAway(h, base, size, q); }
      if r != base { FreshAway(h, base, size, r); }
      if q != base && r != base { assert Apart(h.C, q, r); }
    }
  }

  lemma ExtendMapped(h: H, k: int, base: int, size: int)
    requires HeapOk(h) && SegsOk(h) && CanPrepend(h, k, base, size)
    ensures Mapped(Extend(h, k, base, size).m, Extend(h, k, base, size).C) && Low(Extend(h, k, base, size).m)
  {
    var h' := Extend(h, k, base, size);
    assert SegOk(h, k);
    ExtendWords(h, k, base, size);
    assert ChunkOk(h.m, h.C, h.segs[k].base);
    forall q, a | q in h'.C && q <= a < q + 8 + h'.C[q].size ensures a in h'.m {
      if q != base { MappedAt(h, q, a); } else if a >= base + size { MappedAt(h, h.segs[k].base, a); }
    }
  }

  lemma ExtendHeap(h: H, k: int, base: int, size: int)
    requires HeapOk(h) && SegsOk(h) && CanPrepend(h, k, base, size)
    ensures HeapOk(Extend(h, k, base, size))
  {
    ExtendTiled(h, k, base, size);
    ExtendMapped(h, k, base, size);
    FreshAway(h, base, size, h.ms - 16);
    FreshAway(h, base, size, h.top);
    ChunkPositive(h, h.top);
    hide Tiled, Mapped, Low, SegsOk, SegOk, Fresh;
  }

  lemma ExtendSeg(h: H, k: int, base: int, size: int, j: int)
    requires HeapOk(h) && SegsOk(h) && CanPrepend(h, k, base, size) && 0 <= j < |h.segs|
    ensures j != k ==> h.segs[j].End() <= base || h.segs[k].End() <= h.segs[j].base
  {
    assert SegApart(h, j, k) && SegOk(h, j) && SegOk(h, k);
    assert h.segs[j].End() - 1 in h.m;
  }

  lemma ExtendRecord(h: H, k: int, base: int, size: int, j: int)
    requires HeapOk(h) && SegsOk(h) && CanPrepend(h, k, base, size) && 0 <= j < |h.segs|
    ensures SegRecord(Extend(h, k, base, size), j)
  {
    ExtendWords(h, k, base, size);
    assert SegOk(h, j);
    RecordIn(h, j);
    RecordsApart(h, j, k);
    assert h.segs[j].rec in h.m && h.segs[j].rec + 8 in h.m && h.segs[j].rec + 16 in h.m;
    assert base + 8 !in h.m;
  }

  lemma RecordsApart(h: H, j: int, k: int)
    requires HeapOk(h) && SegsOk(h) && 0 <= j < |h.segs| && 0 <= k < |h.segs|
    ensures j == k || h.segs[j].rec + SEG_WORDS <= h.segs[k].rec || h.segs[k].rec + SEG_WORDS <= h.segs[j].rec
  {
    if j > 0 { assert SegOk(h, j); assert OldSeg(h, j); ChunksAway(h, h.segs[j].rec - 16, h.ms - 16); }
    if k > 0 { assert SegOk(h, k); assert OldSeg(h, k); ChunksAway(h, h.segs[k].rec - 16, h.ms - 16); }
    assert SegApart(h, j, k);
  }

  lemma ExtendInNew(h: H, k: int, base: int, size: int, j: int)
    requires HeapOk(h) && SegsOk(h) && CanPrepend(h, k, base, size) && 0 <= j < |h.segs|
    ensures InSeg(Extend(h, k, base, size), j, base)
  {
    assert SegOk(h, k) && ChunkOk(h.m, h.C, h.top);
    ExtendSeg(h, k, base, size, j);
    assert ChunkOk(h.m, h.C, h.segs[k].base);
    assert InSeg(h, k, h.segs[k].base);
    hide HeapOk, SegsOk, Fresh;
  }

  lemma ExtendInOld(h: H, k: int, base: int, size: int, j: int, q: int)
    requires HeapOk(h) && SegsOk(h) && CanPrepend(h, k, base, size) && 0 <= j < |h.segs| && q in h.C && q != base
    ensures InSeg(Extend(h, k, base, size), j, q)
  {
    assert SegOk(h, j);
    assert InSeg(h, j, q);
    FreshAway(h, base, size, q);
    ChunkPositive(h, q);
    var h' := Extend(h, k, base, size);
    assert h'.segs[j].End() == h.segs[j].End() && Limit(h', j) == Limit(h, j);
    assert h'.segs[j].base == if j == k then base else h.segs[j].base;
    hide HeapOk, SegsOk, SegOk, Fresh;
  }

  lemma ExtendCovered(h: H, k: int, base: int, size: int)
    requires HeapOk(h) && SegsOk(h) && CanPrepend(h, k, base, size)
    ensures Covered(Extend(h, k, base, size).m, Extend(h, k, base, size).segs)
  {
    var h' := Extend(h, k, base, size);
    ExtendWords(h, k, base, size);
    forall a {:trigger a in h'.m} | a in h'.m ensures InSome(h'.segs, a) {
      if a in h.m {
        assert InSome(h.segs, a);
        var j :| HeldBy(h.segs, j, a);
        assert HeldBy(h'.segs, j, a) by { assert SegOk(h, j); }
      } else {
        assert HeldBy(h'.segs, k, a) by { assert SegOk(h, k); }
      }
    }
  }

  lemma ExtendSegs(h: H, k: int, base: int, size: int)
    requires HeapOk(h) && SegsOk(h) && CanPrepend(h, k, base, size)
    ensures SegsOk(Extend(h, k, base, size))
  {
    var h' := Extend(h, k, base, size);
    assert SegOk(h, k) && SegOk(h, 0);
    ExtendCovered(h, k, base, size);
    forall j | 0 <= j < |h.segs| ensures SegOk(h', j) { ExtendSegOk(h, k, base, size, j); }
    forall i, j | 0 <= i < |h.segs| && 0 <= j < |h.segs| ensures SegApart(h', i, j) {
      assert SegApart(h, i, j);
      ExtendSeg(h, k, base, size, i);
      ExtendSeg(h, k, base, size, j);
    }
    hide HeapOk, SegOk, Fresh;
  }

  lemma ExtendSegBase(h: H, k: int, base: int, size: int, j: int)
    requires HeapOk(h) && SegsOk(h) && CanPrepend(h, k, base, size) && 0 <= j < |h.segs|
    ensures var h' := Extend(h, k, base, size); var sg := h'.segs[j];
            && sg.base > 0 && sg.base % 8 == 0 && sg.size % GRANULARITY == 0 && 0 < sg.size < SIZE_LIMIT && sg.rec > 0
            && sg.base in h'.C && h'.C[sg.base].pin
            && (forall a {:trigger a in h'.m} :: sg.base <= a < sg.End() ==> a in h'.m)
  {
    hide HeapOk, SegsOk, SegRecord;
    SegBounds(h, j);
    SegBounds(h, k);
    Aligned(base, size);
    Granules(h.segs[k].size, size);
    ExtendWords(h, k, base, size);
  }

  lemma ExtendSegOk(h: H, k: int, base: int, size: int, j: int)
    requires HeapOk(h) && SegsOk(h) && CanPrepend(h, k, base, size) && 0 <= j < |h.segs|
    ensures SegOk(Extend(h, k, base, size), j)
  {
    hide HeapOk, SegsOk, InSeg, SegRecord, OldSeg, Fresh;
    var h' := Extend(h, k, base, size);
    ExtendSegBase(h, k, base, size, j);
    ExtendRecord(h, k, base, size, j);
    forall q | q in h'.C ensures InSeg(h', j, q) {
      if q == base { ExtendInNew(h, k, base, size, j); } else { ExtendInOld(h, k, base, size, j, q); }
    }
    if j > 0 { ExtendOld(h, k, base, size, j); }
  }

  lemma ExtendOld(h: H, k: int, base: int, size: int, j: int)
    requires HeapOk(h) && SegsOk(h) && CanPrepend(h, k, base, size) && 0 < j < |h.segs|
    ensures OldSeg(Extend(h, k, base, size), j)
  {
    var h' := Extend(h, k, base, size);
    assert SegOk(h, j) && SegOk(h, k);
    assert OldSeg(h, j);
    ExtendSeg(h, k, base, size, j);
    FreshAway(h, base, size, h.segs[j].rec - 16);
    forall q | q in h'.C ensures SegTail(h', j, q) { if q != base { assert SegTail(h, j, q); } }
  }

  lemma ExtendBins(h: H, u: set<int>, k: int, base: int, size: int)
    requires Inv(h, u) && CanPrepend(h, k, base, size)
    ensures SameBins(h, u, Extend(h, k, base, size), u)
  {
    var h' := Extend(h, k, base, size);
    ExtendWords(h, k, base, size);
    NoChunkThere(h, base, size);
    forall q ensures FreeKept(h, h', u, q) { }
    forall q ensures FreeOld(h, h', q) { }
    forall a | R(h'.m, a) != R(h.m, a) ensures OffBins(h, u, a) {
      forall y | y in h.C ensures OffFree(h, u, y, a) {
        if h.C[y].kind == Free { RecordApart(h, k, y); FreshAway(h, base, size, y); }
      }
      RecordOff(h, k);
      FreshAway(h, base, size, h.ms - 16);
    }
    forall q ensures q in u <==> q in u && q in h'.C && h'.C[q].kind == Free { if q in u { assert q in h.C; } }
  }

  lemma RecordOff(h: H, k: int)
    requires HeapOk(h) && SegsOk(h) && 0 <= k < |h.segs|
    ensures var rec := h.segs[k].rec; rec + SEG_WORDS <= h.ms || h.ms + SEG_OFS <= rec
  {
    if k > 0 { assert SegOk(h, k); assert OldSeg(h, k); ChunksAway(h, h.segs[k].rec - 16, h.ms - 16); }
  }

  lemma ExtendLive(h: H, u: set<int>, k: int, base: int, size: int)
    requires Inv(h, u) && CanPrepend(h, k, base, size)
    ensures Grants(h, Extend(h, k, base, size), base, size)
  {
    var h' := Extend(h, k, base, size);
    ExtendWords(h, k, base, size);
    NoChunkThere(h, base, size);
    forall q | q in h.C && h.C[q].kind == Live ensures BlockKept(h, h', q) {
      RecordApart(h, k, q);
      FreshAway(h, base, size, q);
    }
    assert LiveSet(h') == LiveSet(h) + {base};
  }

  lemma ExtendInv(h: H, u: set<int>, k: int, base: int, size: int)
    requires Inv(h, u) && CanPrepend(h, k, base, size)
    ensures Inv(Extend(h, k, base, size), u) && Grants(h, Extend(h, k, base, size), base, size)
  {
    var h' := Extend(h, k, base, size);
    InvParts(h, u);
    ExtendHeap(h, k, base, size);
    ExtendSegs(h, k, base, size);
    ExtendBins(h, u, k, base, size);
    SameBinsHeld(h, u, h', u);
    SameBinsPlaced(h, u, h', u);
    ExtendLive(h, u, k, base, size);
    hide HeapOk, BinsOk, SegsOk, AllPlaced, DvOk, SameBins, Grants;
  }
}
