/** A new allocator: one segment that starts with the state record. */
module AllocCreate {
  import opened AllocHeap
  import opened AllocIndex
  import opened AllocTrie
  import opened AllocTree
  import opened AllocState
  import opened AllocBlocks
  import opened AllocSegs
  import opened AllocPrepend
  import opened AllocSystem

  ghost function NewTrie(): Trie {
    Trie(map[], map i | 0 <= i < NTREEBINS && InBins(i) :: 0)
  }

  predicate InBins(i: int) {
    0 <= i < NTREEBINS
  }

  const TOP_START := GRANULARITY - MSTATE_CHUNK_SIZE - TOP_FOOT_SIZE

  ghost function NewState(m: Mem, base: int): H {
    H(m, base + 16, {}, {}, 0, 0, base + MSTATE_CHUNK_SIZE, TOP_START,
      map[base := Chunk(MSTATE_CHUNK_SIZE, Sys, true), base + MSTATE_CHUNK_SIZE := Chunk(TOP_START, Top, true)],
      seq(NSMALLBINS, _ => []), NewTrie(), [Seg(base, GRANULARITY, base + 16 + SEG_OFS)])
  }

  /** What lj_alloc_create must leave in memory. */
  ghost predicate NewMem(m: Mem, base: int) {
    && base > 0 && base % 0x1000 == 0 && base + GRANULARITY < TWO64
    && (forall a {:trigger a in m} :: a in m <==> base <= a < base + GRANULARITY)
    && R(m, base + 8) == MSTATE_CHUNK_SIZE + 3
    && R(m, base + MSTATE_CHUNK_SIZE + 8) == TOP_START + 1
    && (var rec := base + 16 + SEG_OFS; R(m, rec) == base && R(m, rec + 8) == GRANULARITY && R(m, rec + 16) == 0)
    && (forall i {:trigger TB(base + 16, i)} :: 0 <= i < NTREEBINS ==> R(m, TB(base + 16, i)) == 0)
  }

  lemma NewHeap(m: Mem, base: int)
    requires NewMem(m, base)
    ensures HeapOk(NewState(m, base))
  {
    var h, n := NewState(m, base), base + MSTATE_CHUNK_SIZE;
    Aligned(base, GRANULARITY);
    Eights(base, MSTATE_CHUNK_SIZE);
    Eights(base, 16);
    assert forall p {:trigger p in h.C} :: p in h.C <==> p == base || p == n;
    assert n + TOP_START !in h.C;
    assert ChunkOk(m, h.C, base) && ChunkOk(m, h.C, n);
    forall p, q | p in h.C && q in h.C ensures Apart(h.C, p, q) { }
    forall p, a | p in h.C && p <= a < p + 8 + h.C[p].size ensures a in m { }
  }

  lemma NewBins(m: Mem, base: int)
    requires NewMem(m, base)
    ensures BinsOk(NewState(m, base))
  {
    hide TreeIndex;
    var h := NewState(m, base);
    assert forall i {:trigger InBins(i)} :: InBins(i) <==> 0 <= i < NTREEBINS;
    forall i ensures i in h.T.rt <==> 0 <= i < NTREEBINS { assert InBins(i) <==> 0 <= i < NTREEBINS; }
    forall i | i in h.T.rt
      ensures BinStored(m, h.ms, h.T, h.tm, i) && RootOk(h.T, i)
    {
      assert R(m, TB(base + 16, i)) == 0;
    }
    forall i | 0 <= i < NSMALLBINS ensures SmallBin(m, h.ms, h.sb, h.sm, i) { }
  }

  lemma NewSegs(m: Mem, base: int)
    requires NewMem(m, base)
    ensures SegsOk(NewState(m, base))
  {
    var h := NewState(m, base);
    Aligned(base, GRANULARITY);
    forall k | 0 <= k < |h.segs| ensures SegOk(h, k) {
      assert GRANULARITY % GRANULARITY == 0;
      forall p | p in h.C ensures InSeg(h, k, p) { }
    }
    forall j, k | 0 <= j < |h.segs| && 0 <= k < |h.segs| ensures SegApart(h, j, k) { }
    forall a {:trigger a in m} | a in m ensures InSome(h.segs, a) { assert HeldBy(h.segs, 0, a); }
  }

  /** The first state keeps the invariant and holds no blocks. */
  lemma NewInv(m: Mem, base: int)
    requires NewMem(m, base)
    ensures Inv(NewState(m, base), {}) && LiveSet(NewState(m, base)) == {}
  {
    var h := NewState(m, base);
    NewHeap(m, base);
    NewBins(m, base);
    NewSegs(m, base);
    assert AllPlaced(h, {});
    assert DvOk(h);
    hide HeapOk, BinsOk, SegsOk, AllPlaced, DvOk;
  }

  lemma NewFields(m: Mem, base: int)
    ensures var h := NewState(m, base);
            && h.m == m && h.ms == base + 16 && h.sm == {} && h.tm == {} && h.dv == 0 && h.dvs == 0
            && h.top == base + MSTATE_CHUNK_SIZE && h.tops == TOP_START && h.T == NewTrie()
  {
  }

  /** The steps of lj_alloc_create add up: zeroed pages, head and record, bins, top. */
  lemma IsNewMem(base: int, m1: Mem, m2: Mem, m: Mem)
    requires Fresh(map[], base, GRANULARITY)
    requires m1 == MapIn(map[], base, GRANULARITY)[base + 8 := MSTATE_CHUNK_SIZE + 3][base + 16 + SEG_OFS := base]
             [base + 16 + SEG_OFS + 8 := GRANULARITY]
    requires forall a {:trigger R(m2, a)} :: !(base + 16 + SMALLBINS_OFS <= a < base + 16 + TREEBINS_OFS) ==>
      R(m2, a) == R(m1, a)
    requires forall a {:trigger a in m2} :: a in m2 <==> a in m1
    requires m == TopMem(m2, base + MSTATE_CHUNK_SIZE, TOP_START)
    ensures NewMem(m, base)
  {
    MapInWords(map[], base, GRANULARITY);
    var m0 := MapIn(map[], base, GRANULARITY);
    forall a {:trigger a in m}
      ensures a in m <==> base <= a < base + GRANULARITY
    {
      assert a in m0 <==> base <= a < base + GRANULARITY;
      assert a in m2 <==> a in m1;
    }
    forall i {:trigger TB(base + 16, i)} | 0 <= i < NTREEBINS ensures R(m, TB(base + 16, i)) == 0 {
      var a := TB(base + 16, i);
      assert R(m2, a) == R(m1, a) && R(m0, a) == 0;
    }
    var rec := base + 16 + SEG_OFS;
    assert R(m2, base + 8) == R(m1, base + 8) && R(m2, rec) == R(m1, rec) && R(m2, rec + 8) == R(m1, rec + 8)
           && R(m2, rec + 16) == R(m1, rec + 16) && R(m0, rec + 16) == 0;
  }

  lemma CreateReads(base: int)
    requires Fresh(map[], base, GRANULARITY)
    ensures var m := MapIn(map[], base, GRANULARITY);
            (forall a {:trigger a in m} :: a in m <==> base <= a < base + GRANULARITY)
    ensures base % 8 == 0 && (base + 16) % 8 == 0 && (base + MSTATE_CHUNK_SIZE) % 8 == 0
            && (base + GRANULARITY - (base + MSTATE_CHUNK_SIZE) - TOP_FOOT_SIZE) % 8 == 0
  {
    MapInWords(map[], base, GRANULARITY);
    Aligned(base, GRANULARITY);
    Eights(base, 16);
    Eights(base, MSTATE_CHUNK_SIZE);
    assert base + GRANULARITY - (base + MSTATE_CHUNK_SIZE) - TOP_FOOT_SIZE == TOP_START;
  }
}
