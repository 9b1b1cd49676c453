/** A fresh region becomes the new head segment; the old top is sealed with a record and fenceposts. */
module AllocAddSeg {
  import opened AllocHeap
  import opened AllocIndex
  import opened AllocTree
  import opened AllocState
  import opened AllocLinks
  import opened AllocTags
  import opened AllocOps
  import opened AllocResize
  import opened AllocBlocks
  import opened AllocSegs
  import opened AllocPrepend

  const FENCE_HEAD := 11

  /** Fenceposts from p on, 8 bytes apart, until the head of the next one would lie at or beyond `end`. */
  function FenceMem(m: Mem, p: int, end: int): Mem
    decreases end - p
  {
    if p + 16 < end then FenceMem(m[p + 8 := FENCE_HEAD], p + 8, end) else m[p + 8 := FENCE_HEAD]
  }

  ghost function FenceChunks(C: Chunks, p: int, end: int): Chunks
    decreases end - p
  {
    if p + 16 < end then FenceChunks(C[p := Chunk(8, Sys, true)], p + 8, end) else C[p := Chunk(8, Sys, true)]
  }

  predicate IsFence(q: int, p: int, end: int) {
    p <= q <= end - 16 && (q - p) % 8 == 0
  }

  lemma {:induction false} FenceWords(m: Mem, p: int, end: int)
    requires p + 16 <= end && (end - p) % 8 == 0
    ensures forall a {:trigger R(FenceMem(m, p, end), a)} ::
              R(FenceMem(m, p, end), a) == if IsFence(a - 8, p, end) then FENCE_HEAD else R(m, a)
    ensures forall a {:trigger a in FenceMem(m, p, end)} :: a in FenceMem(m, p, end) <==>
      a in m || IsFence(a - 8, p, end)
    decreases end - p
  {
    if p + 16 < end { FenceWords(m[p + 8 := FENCE_HEAD], p + 8, end); }
  }

  lemma {:induction false} FenceAt(C: Chunks, p: int, end: int)
    requires p + 16 <= end && (end - p) % 8 == 0
    ensures forall q {:trigger q in FenceChunks(C, p, end)} :: q in FenceChunks(C, p, end) <==>
      q in C || IsFence(q, p, end)
    ensures forall q {:trigger FenceChunks(C, p, end)[q]} :: q in FenceChunks(C, p, end) ==>
              FenceChunks(C, p, end)[q] == if IsFence(q, p, end) then Chunk(8, Sys, true) else C[q]
    decreases end - p
  {
    if p + 16 < end { FenceAt(C[p := Chunk(8, Sys, true)], p + 8, end); }
  }

  /** Where the record of the old head segment goes: at the end of top, or over all of it when top is tiny. */
  function RecordSite(top: int, tops: int): int {
    if tops < MIN_CHUNK_SIZE then top else top + tops
  }

  ghost function SealedChunks(C: Chunks, top: int, tops: int, base: int, size: int): Chunks {
    var r, end := RecordSite(top, tops), top + tops + TOP_FOOT_SIZE;
    FenceChunks(SealedBody(C, top, r, base, size), r + SEG_CHUNK_SIZE, end)
  }

  ghost function SealedBody(C: Chunks, top: int, r: int, base: int, size: int): Chunks {
    var C0 := (map q | q in C && q != top :: C[q])[base := Chunk(size - TOP_FOOT_SIZE, Top, true)];
    var C1 := if r == top then C0 else C0[top := Chunk(r - top, Live, true)];
    C1[r := Chunk(SEG_CHUNK_SIZE, Sys, true)]
  }

  /** h' is h with the region as head segment and top; what is left of the old top is one live chunk. */
  ghost predicate Sealed(h: H, h': H, base: int, size: int) {
    && h.top in h.C && |h.segs| > 0
    && (var c, end, rec := RecordSite(h.top, h.tops), h.top + h.tops + TOP_FOOT_SIZE, h.segs[0].rec;
        && h' == h.(m := h'.m, C := SealedChunks(h.C, h.top, h.tops, base, size), top := base,
                    tops := size - TOP_FOOT_SIZE,
                    segs := [Seg(base, size, rec), Seg(h.segs[0].base, h.segs[0].size, c + 16)] + h.segs[1..])
        && (forall a {:trigger a in h'.m} :: a in h'.m <==> a in h.m || base <= a < base + size)
        && (forall a {:trigger R(h'.m, a)} :: R(h'.m, a) != R(h.m, a) ==>
              base <= a < base + size || h.top + 8 <= a < end || rec <= a < rec + SEG_WORDS)
        && R(h'.m, base + 8) == size - TOP_FOOT_SIZE + 1 && R(h'.m, c + 8) == SEG_CHUNK_SIZE + 3
        && (c != h.top ==> R(h'.m, h.top + 8) == c - h.top + 3)
        && (forall q {:trigger R(h'.m, q + 8)} :: IsFence(q, c + SEG_CHUNK_SIZE, end) ==> R(h'.m, q + 8) == FENCE_HEAD)
        && R(h'.m, c + 16) == h.segs[0].base && R(h'.m, c + 24) == h.segs[0].size && R(h'.m, c + 32) == R(h.m, rec + 16)
        && R(h'.m, rec) == base && R(h'.m, rec + 8) == size && R(h'.m, rec + 16) == c + 16)
  }

  ghost predicate CanSeal(h: H, base: int, size: int) {
    Fresh(h.m, base, size) && 0 < size < SIZE_LIMIT && size % GRANULARITY == 0
  }

  /** The chunks that sealing adds. */
  ghost predicate NewAt(top: int, tops: int, base: int, size: int, q: int, c: Chunk) {
    var r, end := RecordSite(top, tops), top + tops + TOP_FOOT_SIZE;
    || (q == base && c == Chunk(size - TOP_FOOT_SIZE, Top, true))
    || (q == top && r != top && c == Chunk(r - top, Live, true))
    || (q == r && c == Chunk(SEG_CHUNK_SIZE, Sys, true))
    || (IsFence(q, r + SEG_CHUNK_SIZE, end) && c == Chunk(8, Sys, true))
  }

  lemma SealedOld(C: Chunks, top: int, tops: int, base: int, size: int)
    requires tops >= 8 && tops % 8 == 0 && top % 8 == 0 && !(top <= base < top + tops + TOP_FOOT_SIZE)
    requires forall q {:trigger q in C} :: q in C && q != top ==> !(top <= q < top + tops + TOP_FOOT_SIZE) && q != base
    ensures var C' := SealedChunks(C, top, tops, base, size);
            && (forall q {:trigger q in C'} :: q in C' ==>
                (q in C && q != top && C'[q] == C[q]) || NewAt(top, tops, base, size, q, C'[q]))
            && (forall q {:trigger q in C} :: q in C && q != top ==> q in C' && C'[q] == C[q])
  {
    var r, end := RecordSite(top, tops), top + tops + TOP_FOOT_SIZE;
    FenceAt(SealedBody(C, top, r, base, size), r + SEG_CHUNK_SIZE, end);
  }

  lemma SealedNew(C: Chunks, top: int, tops: int, base: int, size: int, q: int, c: Chunk)
    requires tops >= 8 && tops % 8 == 0 && top % 8 == 0 && !(top <= base < top + tops + TOP_FOOT_SIZE)
    requires NewAt(top, tops, base, size, q, c)
    ensures var C' := SealedChunks(C, top, tops, base, size); q in C' && C'[q] == c
  {
    var r, end := RecordSite(top, tops), top + tops + TOP_FOOT_SIZE;
    FenceAt(SealedBody(C, top, r, base, size), r + SEG_CHUNK_SIZE, end);
  }

  lemma SealedAt(h: H, base: int, size: int)
    requires HeapOk(h) && BinsOk(h) && SegsOk(h) && CanSeal(h, base, size)
    ensures forall q {:trigger q in h.C} :: q in h.C && q != h.top ==>
      !(h.top <= q < h.top + h.tops + TOP_FOOT_SIZE) && q != base
    ensures !(h.top <= base < h.top + h.tops + TOP_FOOT_SIZE)
    ensures h.tops >= 8 && h.tops % 8 == 0 && h.top % 8 == 0
  {
    TopEnd(h);
    forall q | q in h.C && q != h.top ensures !(h.top <= q < h.top + h.tops + TOP_FOOT_SIZE) && q != base {
      ChunksAway(h, q, h.top);
      ChunkPositive(h, q);
      FreshAway(h, base, size, q);
    }
    SealedBounds(h, base, size);
  }

  /** The old segment's tail and the region are disjoint. */
  lemma SealedBounds(h: H, base: int, size: int)
    requires HeapOk(h) && BinsOk(h) && SegsOk(h) && CanSeal(h, base, size)
    ensures |h.segs| > 0 && (h.top + h.tops + TOP_FOOT_SIZE <= base || base + size <= h.segs[0].base)
    ensures h.top % 8 == 0 && h.tops % 8 == 0 && h.tops >= 8 && size >= GRANULARITY && base % 8 == 0 && size % 8 == 0
    ensures h.segs[0].base <= h.top && h.segs[0].End() == h.top + h.tops + TOP_FOOT_SIZE && h.segs[0].base > 0
  {
    hide HeapOk, BinsOk, SegsOk, SegRecord;
    HeadBounds(h);
    SegBounds(h, 0);
    Aligned(base, size);
    SealedRegion(h, base, size, 0);
  }

  // The tags.

  lemma SealedApart(h: H, base: int, size: int, q: int)
    requires HeapOk(h) && BinsOk(h) && SegsOk(h) && CanSeal(h, base, size) && q in h.C && q != h.top
    ensures q + h.C[q].size <= h.top || h.top + h.tops + TOP_FOOT_SIZE <= q
    ensures q + 8 + h.C[q].size <= base || base + size <= q
    ensures q > 0 && h.C[q].size >= 8
  {
    TopEnd(h);
    ChunksAway(h, q, h.top);
    FreshAway(h, base, size, q);
    assert ChunkOk(h.m, h.C, q);
  }

  lemma ChunkStill(m: Mem, C: Chunks, m': Mem, C': Chunks, q: int)
    requires q in C && ChunkOk(m, C, q) && q in C' && C'[q] == C[q]
    requires R(m', q + 8) == R(m, q + 8) && (C[q].kind == Free ==> R(m', q + C[q].size) == R(m, q + C[q].size))
    requires var n := q + C[q].size;
             && (C[q].kind == Live || C[q].kind == Free ==> n in C') && (C[q].kind == Free ==> InUse(C'[n].kind))
             && (n in C' ==> C'[n].pin == InUse(C[q].kind))
    requires !C[q].pin ==> PrevFree(m', C', q)
    ensures ChunkOk(m', C', q)
  {
  }

  lemma SealedOtherWords(h: H, h': H, base: int, size: int, q: int)
    requires HeapOk(h) && BinsOk(h) && SegsOk(h) && CanSeal(h, base, size) && Sealed(h, h', base, size) && q in h.C
             && q != h.top
    ensures R(h'.m, q + 8) == R(h.m, q + 8)
            && (h.C[q].kind == Free ==> R(h'.m, q + h.C[q].size) == R(h.m, q + h.C[q].size))
  {
    SealedApart(h, base, size, q);
    RecordApart(h, 0, q);
    hide HeapOk, BinsOk, SegsOk, CanSeal, R, Sealed;
    SealedSame(h, h', base, size, q + 8);
    if h.C[q].kind == Free { SealedSame(h, h', base, size, q + h.C[q].size); }
  }

  lemma SealedKeeps(h: H, h': H, base: int, size: int, q: int)
    requires HeapOk(h) && BinsOk(h) && SegsOk(h) && CanSeal(h, base, size) && Sealed(h, h', base, size) && q in h.C
             && q != h.top
    ensures q in h'.C && h'.C[q] == h.C[q] && ChunkOk(h.m, h.C, q)
  {
    SealedFields(h, h', base, size);
    SealedAt(h, base, size);
    SealedOld(h.C, h.top, h.tops, base, size);
  }

  lemma SealedOther(h: H, h': H, base: int, size: int, q: int)
    requires HeapOk(h) && BinsOk(h) && SegsOk(h) && CanSeal(h, base, size) && Sealed(h, h', base, size) && q in h.C
             && q != h.top
    ensures q in h'.C && ChunkOk(h'.m, h'.C, q)
  {
    hide HeapOk, BinsOk, SegsOk, CanSeal, SealedChunks, ChunkOk, R, PrevFree, Sealed;
    SealedFields(h, h', base, size);
    SealedKeeps(h, h', base, size, q);
    SealedNext(h, base, size, q);
    if !h.C[q].pin { SealedPrev(h, h', base, size, q); }
    SealedNextKind(h, q);
    SealedOtherWords(h, h', base, size, q);
    ChunkStill(h.m, h.C, h'.m, h'.C, q);
  }

  lemma SealedNextKind(h: H, q: int)
    requires HeapOk(h) && q in h.C
    ensures var n := q + h.C[q].size;
            && (h.C[q].kind == Live || h.C[q].kind == Free ==> n in h.C) && (h.C[q].kind == Free ==> InUse(h.C[n].kind))
  {
    assert ChunkOk(h.m, h.C, q);
  }

  lemma SealedNext(h: H, base: int, size: int, q: int)
    requires HeapOk(h) && BinsOk(h) && SegsOk(h) && CanSeal(h, base, size) && q in h.C && q != h.top
    ensures var n, C' := q + h.C[q].size, SealedChunks(h.C, h.top, h.tops, base, size);
            if n == h.top then n in C' && C'[n].pin && InUse(h.C[q].kind) && InUse(C'[n].kind)
            else (n in C' <==> n in h.C) && (n in h.C ==> C'[n] == h.C[n] && C'[n].pin == InUse(h.C[q].kind))
  {
    SealedAt(h, base, size);
    SealedOld(h.C, h.top, h.tops, base, size);
    SealedApart(h, base, size, q);
    assert ChunkOk(h.m, h.C, q) && ChunkOk(h.m, h.C, h.top);
    var n, r := q + h.C[q].size, RecordSite(h.top, h.tops);
    if n == h.top {
      SealedNew(h.C, h.top, h.tops, base, size, h.top, if r == h.top then Chunk(SEG_CHUNK_SIZE, Sys, true)
                else Chunk(r - h.top, Live, true));
    } else if n !in h.C {
      SealedBounds(h, base, size);
      if n in SealedChunks(h.C, h.top, h.tops, base, size) {
        NewRange(h.top, h.tops, base, size, n, SealedChunks(h.C, h.top, h.tops, base, size)[n]);
      }
    }
  }

  lemma NewRange(top: int, tops: int, base: int, size: int, q: int, c: Chunk)
    requires tops >= 8 && tops % 8 == 0 && size >= GRANULARITY && NewAt(top, tops, base, size, q, c)
    ensures c.size >= 8 && c.pin && c.kind != Free
    ensures if c.kind == Top then q == base && q + c.size == base + size - TOP_FOOT_SIZE
            else top <= q && q + c.size <= top + tops + TOP_FOOT_SIZE - 8
    ensures c.kind == Live ==> q == top && tops >= MIN_CHUNK_SIZE && c.size == tops
  {
  }

  lemma SealedPrev(h: H, h': H, base: int, size: int, q: int)
    requires HeapOk(h) && BinsOk(h) && SegsOk(h) && CanSeal(h, base, size) && Sealed(h, h', base, size) && q in h.C
             && q != h.top && !h.C[q].pin
    ensures PrevFree(h'.m, h'.C, q)
  {
    var p := q - R(h.m, q);
    BeforeUnpinned(h, q);
    hide HeapOk, BinsOk, SegsOk, CanSeal, Sealed, R;
    SealedFoot(h, h', base, size, q);
    SealedKeeps(h, h', base, size, p);
  }

  /** The word before a chunk after a free one stays. */
  lemma SealedFoot(h: H, h': H, base: int, size: int, q: int)
    requires HeapOk(h) && BinsOk(h) && SegsOk(h) && CanSeal(h, base, size) && Sealed(h, h', base, size) && q in h.C
             && q != h.top && !h.C[q].pin
    requires PrevFree(h.m, h.C, q)
    ensures R(h'.m, q) == R(h.m, q)
  {
    hide HeapOk, BinsOk, SegsOk, CanSeal, Sealed, R, PrevFree;
    SealedApart(h, base, size, q);
    SealedSegsAre(h, h', base, size);
    RecordApart(h, 0, q);
    SealedSame(h, h', base, size, q);
  }

  /** The chunk before one that is not pinned is free, so it is not the top. */
  lemma BeforeUnpinned(h: H, q: int)
    requires HeapOk(h) && q in h.C && !h.C[q].pin
    ensures var p := q - R(h.m, q); PrevFree(h.m, h.C, q) && p in h.C && h.C[p].kind == Free && p != h.top
  {
    assert ChunkOk(h.m, h.C, q) && ChunkOk(h.m, h.C, h.top);
  }

  lemma NewAligned(h: H, base: int, size: int, q: int, c: Chunk)
    requires HeapOk(h) && BinsOk(h) && SegsOk(h) && CanSeal(h, base, size) && NewAt(h.top, h.tops, base, size, q, c)
    ensures q > 0 && q % 8 == 0 && c.size % 8 == 0
  {
    hide HeapOk, BinsOk, SegsOk, CanSeal;
    SealedBounds(h, base, size);
    SealedSites(h, base, size);
  }

  lemma InUseOk(m: Mem, C: Chunks, q: int)
    requires q in C && q > 0 && q % 8 == 0 && C[q].size % 8 == 0 && C[q].size >= 8 && C[q].kind != Free && C[q].pin
    requires C[q].kind == Live ==> C[q].size >= MIN_CHUNK_SIZE && q + C[q].size in C
    requires R(m, q + 8) == HeadOf(C[q])
    requires var n := q + C[q].size; n in C ==> C[n].pin == InUse(C[q].kind)
    ensures ChunkOk(m, C, q)
  {
  }

  lemma SealedHead(h: H, h': H, base: int, size: int, q: int, c: Chunk)
    requires Sealed(h, h', base, size) && NewAt(h.top, h.tops, base, size, q, c)
    ensures R(h'.m, q + 8) == HeadOf(c)
  {
  }

  lemma SealedFields(h: H, h': H, base: int, size: int)
    requires Sealed(h, h', base, size)
    ensures h.top in h.C && h'.C == SealedChunks(h.C, h.top, h.tops, base, size) && h'.top == base && h'.ms == h.ms
  {
  }

  lemma SealedSame(h: H, h': H, base: int, size: int, a: int)
    requires Sealed(h, h', base, size) && !(base <= a < base + size)
             && !(h.top + 8 <= a < h.top + h.tops + TOP_FOOT_SIZE)
    requires |h.segs| > 0 ==> !(h.segs[0].rec <= a < h.segs[0].rec + SEG_WORDS)
    ensures R(h'.m, a) == R(h.m, a)
  {
  }

  lemma SealedFresh(h: H, h': H, base: int, size: int, q: int)
    requires HeapOk(h) && BinsOk(h) && SegsOk(h) && CanSeal(h, base, size) && Sealed(h, h', base, size) && q in h'.C
    requires NewAt(h.top, h.tops, base, size, q, h'.C[q])
    ensures ChunkOk(h'.m, h'.C, q)
  {
    hide HeapOk, BinsOk, SegsOk, CanSeal, SealedChunks, ChunkOk, Sealed, R;
    SealedFields(h, h', base, size);
    SealedBounds(h, base, size);
    NewRange(h.top, h.tops, base, size, q, h'.C[q]);
    SealedFollow(h, base, size, q, h'.C[q]);
    SealedHead(h, h', base, size, q, h'.C[q]);
    NewAligned(h, base, size, q, h'.C[q]);
    hide NewAt;
    InUseOk(h'.m, h'.C, q);
  }

  /** What follows a new chunk other than the live one: a fencepost or nothing. */
  lemma SealedFollow(h: H, base: int, size: int, q: int, c: Chunk)
    requires HeapOk(h) && BinsOk(h) && SegsOk(h) && CanSeal(h, base, size)
    requires NewAt(h.top, h.tops, base, size, q, c)
    ensures var n, C', end := q + c.size, SealedChunks(h.C, h.top, h.tops, base, size), h.top + h.tops + TOP_FOOT_SIZE;
            && (n in C' ==> C'[n].pin && c.kind != Top)
            && (c.kind == Top || n == end - 8 || n in C')
  {
    SealedAt(h, base, size);
    SealedBounds(h, base, size);
    SealedOld(h.C, h.top, h.tops, base, size);
    var t, r, end := h.top, RecordSite(h.top, h.tops), h.top + h.tops + TOP_FOOT_SIZE;
    var n, C' := q + c.size, SealedChunks(h.C, h.top, h.tops, base, size);
    NewRange(t, h.tops, base, size, q, c);
    if n in C' {
      if n in h.C && n != t { SealedApart(h, base, size, n); }
      else { NewRange(t, h.tops, base, size, n, C'[n]); }
    }
    if c.kind == Live { SealedNew(h.C, t, h.tops, base, size, r, Chunk(SEG_CHUNK_SIZE, Sys, true)); }
    if c.kind == Sys && n != end - 8 {
      NextFence(t, h.tops, base, size, q, c);
      SealedNew(h.C, t, h.tops, base, size, n, Chunk(8, Sys, true));
    }
  }

  /** What follows a record or a fencepost is a fencepost, until the end. */
  lemma NextFence(top: int, tops: int, base: int, size: int, q: int, c: Chunk)
    requires tops >= 8 && tops % 8 == 0 && NewAt(top, tops, base, size, q, c) && c.kind == Sys
             && q + c.size != top + tops + TOP_FOOT_SIZE - 8
    ensures NewAt(top, tops, base, size, q + c.size, Chunk(8, Sys, true))
  {
  }

  lemma NewApart(top: int, tops: int, base: int, size: int, q: int, c: Chunk, r: int, d: Chunk)
    requires tops >= 8 && tops % 8 == 0 && size >= GRANULARITY
             && (top + tops + TOP_FOOT_SIZE <= base || base + size <= top)
    requires NewAt(top, tops, base, size, q, c) && NewAt(top, tops, base, size, r, d) && q < r
    ensures q + c.size <= r
  {
  }

  lemma SealedTiled(h: H, h': H, base: int, size: int)
    requires HeapOk(h) && BinsOk(h) && SegsOk(h) && CanSeal(h, base, size) && Sealed(h, h', base, size)
    ensures Tiled(h'.m, h'.C)
  {
    SealedAt(h, base, size);
    SealedOld(h.C, h.top, h.tops, base, size);
    forall q | q in h'.C ensures ChunkOk(h'.m, h'.C, q) {
      if q in h.C && q != h.top { SealedOther(h, h', base, size, q); } else { SealedFresh(h, h', base, size, q); }
    }
    forall q, r | q in h'.C && r in h'.C ensures Apart(h'.C, q, r) {
      if q < r { SealedOrder(h, h', base, size, q, r); }
      if r < q { SealedOrder(h, h', base, size, r, q); }
    }
  }

  lemma SealedOrder(h: H, h': H, base: int, size: int, q: int, r: int)
    requires HeapOk(h) && BinsOk(h) && SegsOk(h) && CanSeal(h, base, size) && Sealed(h, h', base, size) && q in h'.C
             && r in h'.C && q < r
    ensures q + h'.C[q].size <= r
  {
    SealedAt(h, base, size);
    SealedOld(h.C, h.top, h.tops, base, size);
    SealedBounds(h, base, size);
    if q in h.C && q != h.top {
      SealedApart(h, base, size, q);
    } else {
      NewRange(h.top, h.tops, base, size, q, h'.C[q]);
    }
    if r in h.C && r != h.top {
      SealedApart(h, base, size, r);
    } else {
      NewRange(h.top, h.tops, base, size, r, h'.C[r]);
    }
    if q in h.C && r in h.C && q != h.top && r != h.top { ChunksAway(h, q, r); }
    else if !(q in h.C && q != h.top) && !(r in h.C && r != h.top) {
      NewApart(h.top, h.tops, base, size, q, h'.C[q], r, h'.C[r]);
    }
  }

  lemma SealedMapped(h: H, h': H, base: int, size: int)
    requires HeapOk(h) && BinsOk(h) && SegsOk(h) && CanSeal(h, base, size) && Sealed(h, h', base, size)
    ensures Mapped(h'.m, h'.C) && Low(h'.m)
  {
    SealedAt(h, base, size);
    SealedOld(h.C, h.top, h.tops, base, size);
    SealedBounds(h, base, size);
    assert SegOk(h, 0);
    forall q, a | q in h'.C && q <= a < q + 8 + h'.C[q].size ensures a in h'.m {
      if q in h.C && q != h.top { MappedAt(h, q, a); } else { NewRange(h.top, h.tops, base, size, q, h'.C[q]); }
    }
    forall a | a in h'.m ensures 0 < a < TWO64 { if a in h.m { LowAt(h, a); } }
  }

  lemma SealedTopOk(h: H, h': H, base: int, size: int)
    requires HeapOk(h) && BinsOk(h) && SegsOk(h) && CanSeal(h, base, size) && Sealed(h, h', base, size)
    ensures TopOk(h') && StateOk(h')
  {
    SealedAt(h, base, size);
    SealedOld(h.C, h.top, h.tops, base, size);
    SealedNew(h.C, h.top, h.tops, base, size, base, Chunk(size - TOP_FOOT_SIZE, Top, true));
    assert forall q {:trigger h.C[q]} :: q in h.C && h.C[q].kind == Top ==> q == h.top;
    forall q | q in h'.C && h'.C[q].kind == Top ensures q == base {
      if !(q in h.C && q != h.top) { SealedBounds(h, base, size); NewRange(h.top, h.tops, base, size, q, h'.C[q]); }
    }
    hide SealedChunks;
  }

  // The segments. Segment 0 is the region, segment k + 1 what was segment k.

  lemma SealedSegsAre(h: H, h': H, base: int, size: int)
    requires Sealed(h, h', base, size)
    ensures var c := RecordSite(h.top, h.tops);
            && |h.segs| > 0 && |h'.segs| == |h.segs| + 1 && h'.segs[0] == Seg(base, size, h.segs[0].rec)
            && h'.segs[1] == Seg(h.segs[0].base, h.segs[0].size, c + 16)
            && (forall k {:trigger h'.segs[k]} :: 2 <= k < |h'.segs| ==> h'.segs[k] == h.segs[k - 1])
            && h'.tops == size - TOP_FOOT_SIZE
    ensures forall a {:trigger a in h'.m} :: a in h'.m <==> a in h.m || base <= a < base + size
  {
  }

  lemma SealedRegion(h: H, base: int, size: int, k: int)
    requires HeapOk(h) && SegsOk(h) && CanSeal(h, base, size) && 0 <= k < |h.segs|
    ensures h.segs[k].End() <= base || base + size <= h.segs[k].base
  {
    hide HeapOk, SegsOk, SegRecord;
    SegBounds(h, k);
    var sg := h.segs[k];
    assert sg.base in h.m;
    assert sg.base <= base < sg.End() ==> base in h.m;
  }

  lemma SealedOldRecord(h: H, h': H, base: int, size: int, k: int)
    requires HeapOk(h) && BinsOk(h) && SegsOk(h) && CanSeal(h, base, size) && Sealed(h, h', base, size)
             && 1 <= k < |h.segs|
    ensures var rec := h.segs[k].rec;
            rec > 0 && R(h'.m, rec) == R(h.m, rec) && R(h'.m, rec + 8) == R(h.m, rec + 8)
                && R(h'.m, rec + 16) == R(h.m, rec + 16)
  {
    var rec := h.segs[k].rec;
    assert SegOk(h, k);
    assert OldSeg(h, k);
    RecordsApart(h, 0, k);
    assert rec - 16 != h.top;
    SealedApart(h, base, size, rec - 16);
    hide HeapOk, BinsOk, SegsOk, CanSeal, Sealed, R, SegOk;
    SealedSame(h, h', base, size, rec);
    SealedSame(h, h', base, size, rec + 8);
    SealedSame(h, h', base, size, rec + 16);
  }

  lemma HeadRecordWords(h: H, h': H, base: int, size: int)
    requires Sealed(h, h', base, size)
    ensures var c, rec := RecordSite(h.top, h.tops), h.segs[0].rec;
            && R(h'.m, c + 16) == h.segs[0].base && R(h'.m, c + 24) == h.segs[0].size
            && R(h'.m, c + 32) == R(h.m, rec + 16)
            && R(h'.m, rec) == base && R(h'.m, rec + 8) == size && R(h'.m, rec + 16) == c + 16
  {
  }

  lemma SealedRecord(h: H, h': H, base: int, size: int, k: int)
    requires HeapOk(h) && BinsOk(h) && SegsOk(h) && CanSeal(h, base, size) && Sealed(h, h', base, size)
             && 0 <= k <= |h.segs|
    ensures k < |h'.segs| && SegRecord(h', k) && h'.segs[k].rec > 0
  {
    hide HeapOk, BinsOk, SegsOk, CanSeal, Sealed, R, SegOk;
    SealedSegsAre(h, h', base, size);
    SealedSites(h, base, size);
    HeadRecordWords(h, h', base, size);
    SegBounds(h, 0);
    if k >= 2 {
      SegBounds(h, k - 1);
      SealedOldRecord(h, h', base, size, k - 1);
    }
  }

  lemma SealedSites(h: H, base: int, size: int)
    requires HeapOk(h) && BinsOk(h) && SegsOk(h) && CanSeal(h, base, size)
    ensures h.top > 0 && h.tops > 0 && base > 0
  {
    ChunkPositive(h, h.top);
  }

  lemma SealedInOld(h: H, h': H, base: int, size: int, k: int, q: int)
    requires HeapOk(h) && BinsOk(h) && SegsOk(h) && CanSeal(h, base, size) && Sealed(h, h', base, size)
             && 0 <= k <= |h.segs|
    requires q in h.C && q != h.top && q in h'.C
    ensures InSeg(h', k, q)
  {
    hide HeapOk, BinsOk, CanSeal, Sealed, SealedChunks;
    if k > 0 { assert InSeg(h, k - 1, q) by { assert SegOk(h, k - 1); } }
    hide SegsOk;
    SealedSegsAre(h, h', base, size);
    SealedBounds(h, base, size);
    SealedKeeps(h, h', base, size, q);
    SealedFields(h, h', base, size);
    SealedApart(h, base, size, q);
    if k > 0 { SealedNext(h, base, size, q); }
  }

  lemma SealedInNew(h: H, h': H, base: int, size: int, k: int, q: int)
    requires HeapOk(h) && BinsOk(h) && SegsOk(h) && CanSeal(h, base, size) && Sealed(h, h', base, size)
             && 0 <= k <= |h.segs|
    requires q in h'.C && NewAt(h.top, h.tops, base, size, q, h'.C[q])
    ensures InSeg(h', k, q)
  {
    assert k > 0 ==> |h.segs| > 0 && SegApart(h, 0, k - 1);
    hide HeapOk, BinsOk, SegsOk, CanSeal, Sealed, SealedChunks, NewAt;
    SealedSegsAre(h, h', base, size);
    SealedBounds(h, base, size);
    SealedFields(h, h', base, size);
    NewRange(h.top, h.tops, base, size, q, h'.C[q]);
    SealedFollow(h, base, size, q, h'.C[q]);
    if k > 0 { SealedRegion(h, base, size, k - 1); }
  }

  lemma SealedIn(h: H, h': H, base: int, size: int, k: int, q: int)
    requires HeapOk(h) && BinsOk(h) && SegsOk(h) && CanSeal(h, base, size) && Sealed(h, h', base, size)
             && 0 <= k <= |h.segs|
    requires q in h'.C
    ensures InSeg(h', k, q)
  {
    SealedFields(h, h', base, size);
    SealedAt(h, base, size);
    SealedOld(h.C, h.top, h.tops, base, size);
    if q in h.C && q != h.top { SealedInOld(h, h', base, size, k, q); } else { SealedInNew(h, h', base, size, k, q); }
  }

  /** The sealed segment ends in its record and fenceposts. */
  lemma SealedHeadSeg(h: H, h': H, base: int, size: int)
    requires HeapOk(h) && BinsOk(h) && SegsOk(h) && CanSeal(h, base, size) && Sealed(h, h', base, size)
    ensures OldSeg(h', 1)
  {
    SealedSegsAre(h, h', base, size);
    SealedBounds(h, base, size);
    SealedFields(h, h', base, size);
    SealedAt(h, base, size);
    SealedOld(h.C, h.top, h.tops, base, size);
    var r := RecordSite(h.top, h.tops);
    SealedNew(h.C, h.top, h.tops, base, size, r, Chunk(SEG_CHUNK_SIZE, Sys, true));
    StateTop(h);
    assert r != h.ms - 16 by { if r == h.ms - 16 { SealedKeepsState(h, h', base, size); } }
    forall q | q in h'.C ensures SegTail(h', 1, q) {
      if q in h.C && q != h.top { SealedApart(h, base, size, q); }
      else { NewRange(h.top, h.tops, base, size, q, h'.C[q]); }
    }
  }

  lemma SealedKeepsState(h: H, h': H, base: int, size: int)
    requires HeapOk(h) && BinsOk(h) && SegsOk(h) && CanSeal(h, base, size) && Sealed(h, h', base, size)
    ensures h.ms - 16 in h'.C && h'.C[h.ms - 16].size == MSTATE_CHUNK_SIZE
  {
    StateTop(h);
    SealedKeeps(h, h', base, size, h.ms - 16);
  }

  lemma KindAt(h: H, q: int)
    requires HeapOk(h) && BinsOk(h)
    ensures h.top in h.C && h.C[h.top].kind == Top
  {
  }

  lemma SealedTail(h: H, h': H, base: int, size: int, k: int, q: int)
    requires HeapOk(h) && BinsOk(h) && SegsOk(h) && CanSeal(h, base, size) && Sealed(h, h', base, size)
             && 1 <= k < |h.segs|
    requires q in h'.C && |h'.segs| == |h.segs| + 1
    ensures SegTail(h', k + 1, q)
  {
    hide HeapOk, BinsOk, CanSeal, Sealed, SealedChunks, NewAt;
    assert SegOk(h, k);
    assert OldSeg(h, k) && SegApart(h, 0, k);
    if q in h.C { assert SegTail(h, k, q); }
    hide SegsOk, SegOk, OldSeg;
    SealedSegsAre(h, h', base, size);
    assert h'.segs[k + 1] == h.segs[k];
    if q in h.C && q != h.top {
      SealedKeeps(h, h', base, size, q);
    } else {
      SealedBounds(h, base, size);
      SealedFields(h, h', base, size);
      SealedAt(h, base, size);
      SealedOld(h.C, h.top, h.tops, base, size);
      SealedRegion(h, base, size, k);
      NewRange(h.top, h.tops, base, size, q, h'.C[q]);
    }
  }

  lemma SealedOldSeg(h: H, h': H, base: int, size: int, k: int)
    requires HeapOk(h) && BinsOk(h) && SegsOk(h) && CanSeal(h, base, size) && Sealed(h, h', base, size)
             && 1 <= k < |h.segs|
    ensures OldSeg(h', k + 1)
  {
    hide HeapOk, BinsOk, CanSeal, Sealed, SealedChunks, NewAt, SegTail;
    var rp := h.segs[k].rec - 16;
    assert SegOk(h, k);
    assert OldSeg(h, k);
    hide SegsOk, SegOk;
    KindAt(h, h.top);
    SealedSegsAre(h, h', base, size);
    SealedKeeps(h, h', base, size, rp);
    SealedFields(h, h', base, size);
    assert h'.segs[k + 1] == h.segs[k];
    forall q | q in h'.C ensures SegTail(h', k + 1, q) { SealedTail(h, h', base, size, k, q); }
  }

  lemma SealedBase(h: H, h': H, base: int, size: int, k: int)
    requires HeapOk(h) && BinsOk(h) && SegsOk(h) && CanSeal(h, base, size) && Sealed(h, h', base, size)
             && 0 <= k <= |h.segs|
    ensures var sg := h'.segs[k];
            && sg.base > 0 && sg.base % 8 == 0 && sg.size % GRANULARITY == 0 && 0 < sg.size < SIZE_LIMIT
            && sg.base in h'.C && h'.C[sg.base].pin
            && (forall a {:trigger a in h'.m} :: sg.base <= a < sg.End() ==> a in h'.m)
  {
    hide HeapOk, BinsOk, SegsOk, CanSeal, Sealed, SealedChunks, SegRecord;
    SealedSegsAre(h, h', base, size);
    SealedFields(h, h', base, size);
    SealedAt(h, base, size);
    SealedBounds(h, base, size);
    SealedSites(h, base, size);
    var t, r := h.top, RecordSite(h.top, h.tops);
    if k == 0 {
      RegionSize(h, base, size);
      SealedNew(h.C, t, h.tops, base, size, base, Chunk(size - TOP_FOOT_SIZE, Top, true));
    } else {
      SegBounds(h, k - 1);
      var b := h.segs[k - 1].base;
      if b == t {
        SealedNew(h.C, t, h.tops, base, size, t, if r == t then Chunk(SEG_CHUNK_SIZE, Sys, true)
                  else Chunk(r - t, Live, true));
      }
      else { SealedKeeps(h, h', base, size, b); }
    }
  }

  lemma RegionSize(h: H, base: int, size: int)
    requires CanSeal(h, base, size)
    ensures size % GRANULARITY == 0 && 0 < size < SIZE_LIMIT
  {
  }

  lemma SealedCovered(h: H, h': H, base: int, size: int)
    requires HeapOk(h) && BinsOk(h) && SegsOk(h) && CanSeal(h, base, size) && Sealed(h, h', base, size)
    ensures Covered(h'.m, h'.segs)
  {
    forall a {:trigger a in h'.m} | a in h'.m ensures InSome(h'.segs, a) {
      if a in h.m {
        assert InSome(h.segs, a);
        var k :| HeldBy(h.segs, k, a);
        assert HeldBy(h'.segs, k + 1, a);
      } else {
        assert HeldBy(h'.segs, 0, a);
      }
    }
  }

  lemma SealedSegs(h: H, h': H, base: int, size: int)
    requires HeapOk(h) && BinsOk(h) && SegsOk(h) && CanSeal(h, base, size) && Sealed(h, h', base, size)
    ensures SegsOk(h')
  {
    hide HeapOk, BinsOk, CanSeal, Sealed, InSeg, SegRecord, OldSeg, SealedChunks;
    SealedSegsAre(h, h', base, size);
    SealedFields(h, h', base, size);
    SealedCovered(h, h', base, size);
    forall k | 0 <= k < |h'.segs| ensures SegOk(h', k) {
      SealedRecord(h, h', base, size, k);
      SealedBase(h, h', base, size, k);
      forall q | q in h'.C ensures InSeg(h', k, q) { SealedIn(h, h', base, size, k, q); }
      if k == 1 { SealedHeadSeg(h, h', base, size); }
      if k > 1 { SealedOldSeg(h, h', base, size, k - 1); }
    }
    forall j, k | 0 <= j < |h'.segs| && 0 <= k < |h'.segs| ensures SegApart(h', j, k) {
      if j > 0 { SealedRegion(h, base, size, j - 1); }
      if k > 0 { SealedRegion(h, base, size, k - 1); }
      if j > 0 && k > 0 { assert SegApart(h, j - 1, k - 1); }
    }
  }

  lemma SealedOff(h: H, u: set<int>, h': H, base: int, size: int, a: int)
    requires Inv(h, u) && CanSeal(h, base, size) && Sealed(h, h', base, size) && R(h'.m, a) != R(h.m, a)
    ensures OffBins(h, u, a)
  {
    forall y | y in h.C ensures OffFree(h, u, y, a) {
      if h.C[y].kind == Free { SealedApart(h, base, size, y); RecordApart(h, 0, y); }
    }
    SealedApart(h, base, size, h.ms - 16);
  }

  lemma SealedBins(h: H, u: set<int>, h': H, base: int, size: int)
    requires Inv(h, u) && CanSeal(h, base, size) && Sealed(h, h', base, size)
    ensures SameBins(h, u, h', u)
  {
    SealedAt(h, base, size);
    SealedBounds(h, base, size);
    SealedOld(h.C, h.top, h.tops, base, size);
    forall q ensures FreeKept(h, h', u, q) { }
    forall q ensures FreeOld(h, h', q) {
      if q in h'.C && !(q in h.C && q != h.top) { NewRange(h.top, h.tops, base, size, q, h'.C[q]); }
    }
    forall a | R(h'.m, a) != R(h.m, a) ensures OffBins(h, u, a) { SealedOff(h, u, h', base, size, a); }
    forall q ensures q in u <==> q in u && q in h'.C && h'.C[q].kind == Free { if q in u { assert q in h.C; } }
  }

  ghost predicate SealedBlocks(h: H, h': H) {
    if h.tops < MIN_CHUNK_SIZE then Same(h, h') else Grants(h, h', h.top, h.tops)
  }

  lemma SealedLive(h: H, u: set<int>, h': H, base: int, size: int)
    requires Inv(h, u) && CanSeal(h, base, size) && Sealed(h, h', base, size)
    ensures SealedBlocks(h, h')
  {
    SealedFields(h, h', base, size);
    SealedAt(h, base, size);
    SealedBounds(h, base, size);
    SealedOld(h.C, h.top, h.tops, base, size);
    forall q | q in h.C && h.C[q].kind == Live ensures BlockKept(h, h', q) {
      SealedKeeps(h, h', base, size, q);
      SealedApart(h, base, size, q);
      RecordApart(h, 0, q);
      forall a | q + 16 <= a < q + 8 + h.C[q].size ensures R(h'.m, a) == R(h.m, a) { SealedSame(h, h', base, size, a); }
    }
    var r := RecordSite(h.top, h.tops);
    if r != h.top { SealedNew(h.C, h.top, h.tops, base, size, h.top, Chunk(r - h.top, Live, true)); }
    forall q ensures q in LiveSet(h') <==> q in LiveSet(h) || (q == h.top && r != h.top) {
      if q in h'.C && !(q in h.C && q != h.top) { NewRange(h.top, h.tops, base, size, q, h'.C[q]); }
    }
  }

  /** Sealing the old top below a fresh region keeps the invariant. */
  lemma SealedInv(h: H, u: set<int>, h': H, base: int, size: int)
    requires Inv(h, u) && CanSeal(h, base, size) && Sealed(h, h', base, size)
    ensures Inv(h', u) && SealedBlocks(h, h')
  {
    hide Sealed, HeapOk, BinsOk, SegsOk, AllPlaced, DvOk, SameBins, SealedBlocks, Same, Grants, Inv, CanSeal;
    InvParts(h, u);
    SealedHeap(h, h', base, size);
    SealedSegs(h, h', base, size);
    SealedBins(h, u, h', base, size);
    SameBinsHeld(h, u, h', u);
    SameBinsPlaced(h, u, h', u);
    SealedLive(h, u, h', base, size);
    InvWhole(h', u);
  }

  lemma InvWhole(h: H, u: set<int>)
    requires HeapOk(h) && BinsOk(h) && AllPlaced(h, u) && DvOk(h) && SegsOk(h)
    ensures Inv(h, u)
  {
  }

  lemma SealedHeap(h: H, h': H, base: int, size: int)
    requires HeapOk(h) && BinsOk(h) && SegsOk(h) && CanSeal(h, base, size) && Sealed(h, h', base, size)
    ensures HeapOk(h')
  {
    SealedTiled(h, h', base, size);
    SealedMapped(h, h', base, size);
    SealedTopOk(h, h', base, size);
  }
}
