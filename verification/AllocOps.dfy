/** The steps of malloc, free and realloc on the state, each keeping the invariant. */
module AllocOps {
  import opened AllocHeap
  import opened AllocRing
  import opened AllocIndex
  import opened AllocTrie
  import opened AllocTree
  import opened AllocState
  import opened AllocLinks
  import opened AllocLinksLarge
  import opened AllocTags

  // The designated victim.

  function DropDv(h: H): H {
    h.(dv := 0, dvs := 0)
  }

  ghost function SetDv(h: H, p: int): H
    requires p in h.C
  {
    h.(dv := p, dvs := h.C[p].size)
  }

  lemma SameSegs(h: H, h': H)
    requires HeapOk(h) && SegsOk(h)
    requires h'.m == h.m && h'.C == h.C && h'.ms == h.ms && h'.top == h.top && h'.tops == h.tops && h'.segs == h.segs
    ensures HeapOk(h') && SegsOk(h')
    ensures forall x {:trigger LiveKept(h, h', x)} :: LiveKept(h, h', x)
  {
    InnerTiled(h, h');
    InnerSegs(h, h');
    forall x ensures LiveKept(h, h', x) { InnerLive(h, h', x); }
  }

  lemma DropDvInv(h: H, u: set<int>)
    requires Inv(h, u) && h.dv != 0
    ensures Inv(DropDv(h), u + {h.dv})
    ensures forall x {:trigger LiveKept(h, DropDv(h), x)} :: LiveKept(h, DropDv(h), x)
  {
    var h' := DropDv(h);
    SameSegs(h, h');
    forall q | q in h'.C && h'.C[q].kind == Free && q !in u + {h.dv} ensures Placed(h', q) { assert Placed(h, q); }
    forall q | q in u + {h.dv} ensures q in h'.C && h'.C[q].kind == Free && !Binned(h', q) && q != h'.dv {
      if q in u { assert q in h.C; }
      assert ChunkOk(h.m, h.C, q);
      assert Binned(h', q) == Binned(h, q);
    }
  }

  lemma SetDvInv(h: H, u: set<int>, p: int)
    requires Inv(h, u) && h.dv == 0 && p in u
    ensures p in h.C && Inv(SetDv(h, p), u - {p})
    ensures forall x {:trigger LiveKept(h, SetDv(h, p), x)} :: LiveKept(h, SetDv(h, p), x)
  {
    var h' := SetDv(h, p);
    SameSegs(h, h');
    assert ChunkOk(h.m, h.C, p);
    forall q | q in h'.C && h'.C[q].kind == Free && q !in u - {p} ensures Placed(h', q) {
      if q != p { assert Placed(h, q); assert ChunkOk(h.m, h.C, q); }
    }
    forall q | q in u - {p} ensures q in h'.C && h'.C[q].kind == Free && !Binned(h', q) && q != h'.dv {
      assert Binned(h', q) == Binned(h, q);
    }
    assert !Binned(h', p) by { assert !Binned(h, p); }
  }

  // Handing out a loose chunk.

  ghost function Take(h: H, p: int): H
    requires p in h.C && p + h.C[p].size in h.C
  {
    h.(m := SetInuseAndPinuse(h.m, p, h.C[p].size), C := TakenWhole(h.C, p))
  }

  ghost function Split(h: H, p: int, nb: int): H
    requires p in h.C
  {
    h.(m := SetFreeChunk(SetInuseChunk(h.m, p, nb), p + nb, h.C[p].size - nb), C := SplitTwo(h.C, p, nb, Free))
  }

  lemma LooseSpan(h: H, u: set<int>, p: int)
    requires Inv(h, u) && p in u
    ensures p in h.C && h.C[p].kind == Free && p + h.C[p].size in h.C && InUse(h.C[p + h.C[p].size].kind)
    ensures h.C[p].size >= MIN_CHUNK_SIZE && h.C[p].size % 8 == 0 && h.C[p].pin && p % 8 == 0 && p > 0
    ensures Span(h, p, p + h.C[p].size)
    ensures forall q {:trigger q in h.C} :: q in h.C && p < q ==> p + h.C[p].size <= q
  {
    assert p in h.C;
    assert ChunkOk(h.m, h.C, p);
    SpanOne(h, p);
    NothingBetween(h.C, p);
  }

  lemma HeadMapped(h: H, n: int)
    requires HeapOk(h) && n in h.C
    ensures n in h.m && n + 8 in h.m
  {
    assert ChunkOk(h.m, h.C, n);
  }

  /** The chunk p that is free in h is the live block p in h'. */
  lemma TakeStep(h: H, u: set<int>, p: int)
    requires Inv(h, u) && p in u
    ensures p in h.C && p + h.C[p].size in h.C
    ensures TagStep(h, Take(h, p), p, p + h.C[p].size)
    ensures forall q {:trigger q in Take(h, p).C} :: q in Take(h, p).C && p <= q < p + h.C[p].size ==> q == p
    ensures TopOk(Take(h, p)) && Take(h, p).C[p] == Chunk(h.C[p].size, Live, true)
  {
    LooseSpan(h, u, p);
    var n, h' := p + h.C[p].size, Take(h, p);
    TakeWhole(h.m, h.C, p);
    HeadMapped(h, n);
    HeadMapped(h, p);
    hide BinsOk, SegsOk, AllPlaced, DvOk, Tiled;
    assert Bounded(h'.C, p, n) && Followed(h'.C, p, n);
  }

  lemma TakeInv(h: H, u: set<int>, p: int)
    requires Inv(h, u) && p in u
    ensures p in h.C && p + h.C[p].size in h.C
    ensures Inv(Take(h, p), u - {p})
    ensures forall x {:trigger LiveKept(h, Take(h, p), x)} :: LiveKept(h, Take(h, p), x)
  {
    TakeStep(h, u, p);
    LooseSpan(h, u, p);
    var n, h' := p + h.C[p].size, Take(h, p);
    assert h.segs[0].base <= h'.top && !(p <= h.dv < n) by { DvOutside(h, u, p); }
    hide TagStep, TopOk, Take;
    TagInv(h, u, h', p, n, u - {p});
    forall x ensures LiveKept(h, h', x) { TagLive(h, h', p, n, x); }
  }

  lemma DvOutside(h: H, u: set<int>, p: int)
    requires Inv(h, u) && p in u && p in h.C
    ensures !(p <= h.dv < p + h.C[p].size)
  {
    LooseSpan(h, u, p);
    if h.dv != 0 { assert h.dv in h.C; }
  }

  lemma SplitStep(h: H, u: set<int>, p: int, nb: int)
    requires Inv(h, u) && p in u && nb % 8 == 0 && MIN_CHUNK_SIZE <= nb
    requires p in h.C && nb + MIN_CHUNK_SIZE <= h.C[p].size
    ensures TagStep(h, Split(h, p, nb), p, p + h.C[p].size)
    ensures forall q {:trigger q in Split(h, p, nb).C} ::
              q in Split(h, p, nb).C && p <= q < p + h.C[p].size ==> q == p || q == p + nb
    ensures TopOk(Split(h, p, nb)) && Split(h, p, nb).C[p] == Chunk(nb, Live, true)
    ensures Split(h, p, nb).C[p + nb] == Chunk(h.C[p].size - nb, Free, true)
  {
    LooseSpan(h, u, p);
    InvParts(h, u);
    TopNow(h);
    hide Inv, HeapOk, BinsOk, SegsOk, AllPlaced, DvOk, Span;
    var n, h' := p + h.C[p].size, Split(h, p, nb);
    SplitFree(h.m, h.C, p, nb);
    assert p + nb !in h.C;
    hide Tiled;
    assert Bounded(h'.C, p, n) && Bounded(h'.C, p + nb, n);
    assert Followed(h'.C, p, n) && Followed(h'.C, p + nb, n);
  }

  lemma TopNow(h: H)
    requires HeapOk(h) && BinsOk(h)
    ensures Tiled(h.m, h.C) && TopOk(h)
  {
  }

  lemma SplitInv(h: H, u: set<int>, p: int, nb: int)
    requires Inv(h, u) && p in u && nb % 8 == 0 && MIN_CHUNK_SIZE <= nb
    requires p in h.C && nb + MIN_CHUNK_SIZE <= h.C[p].size
    ensures Inv(Split(h, p, nb), u - {p} + {p + nb})
    ensures forall x {:trigger LiveKept(h, Split(h, p, nb), x)} :: LiveKept(h, Split(h, p, nb), x)
  {
    SplitStep(h, u, p, nb);
    LooseSpan(h, u, p);
    var n, h' := p + h.C[p].size, Split(h, p, nb);
    assert h.segs[0].base <= h'.top && !(p <= h.dv < n) by { DvOutside(h, u, p); }
    forall q | q in u && p <= q < n ensures q == p { assert q in h.C; }
    hide TagStep, TopOk, Split, AllPlaced;
    TagInv(h, u, h', p, n, u - {p} + {p + nb});
    forall x ensures LiveKept(h, h', x) { TagLive(h, h', p, n, x); }
  }

  // Top.

  /** Nothing starts at the end of top or in the foot after it. */
  lemma TopEnd(h: H)
    requires HeapOk(h) && SegsOk(h) && BinsOk(h)
    ensures h.top + h.tops !in h.C && Clear(h.C, h.top + h.tops)
    ensures forall q {:trigger h.C[q]} :: q in h.C ==> q < h.top + h.tops || h.top + h.tops + TOP_FOOT_SIZE <= q
    ensures Span(h, h.top, h.top + h.tops)
    ensures h.tops >= 8 && h.tops % 8 == 0 && h.top % 8 == 0
    ensures forall q {:trigger q in h.C} :: q in h.C && h.top < q ==> h.top + h.tops + TOP_FOOT_SIZE <= q
  {
    assert SegOk(h, 0) && ChunkOk(h.m, h.C, h.top);
    forall q | q in h.C ensures q < h.top + h.tops || h.top + h.tops + TOP_FOOT_SIZE <= q {
      assert InSeg(h, 0, q) && ChunkOk(h.m, h.C, q);
    }
    forall q | q in h.C && h.top < q ensures h.top + h.tops + TOP_FOOT_SIZE <= q { assert Apart(h.C, h.top, q); }
    assert Movable(h, h.top) by { if Binned(h, h.top) { BinnedFree(h, h.top); } }
    SpanOne(h, h.top);
  }

  lemma BinnedFree(h: H, p: int)
    requires SmallHeld(h.C, h.sb) && TreeHeld(h.C, h.T) && p in h.C && Binned(h, p)
    ensures h.C[p].kind == Free
  {
    var s := h.C[p].size;
    if InSmall(h, p) {
      var k :| 0 <= k < |h.sb[s / 8]| && h.sb[s / 8][k] == p;
      assert SmallHolds(h.C, h.sb, s / 8, k);
    } else {
      var k :| 0 <= k < |h.T.tn[s].ring| && h.T.tn[s].ring[k] == p;
      assert TreeHolds(h.C, h.T, s, k);
    }
  }

  ghost function TakeTop(h: H, nb: int): H
    requires h.top in h.C
  {
    h.(m := SetInuseChunk(h.m[h.top + nb + 8 := h.tops - nb + 1], h.top, nb), top := h.top + nb, tops := h.tops - nb,
       C := SplitTwo(h.C, h.top, nb, Top))
  }

  lemma TakeTopStep(h: H, u: set<int>, nb: int)
    requires Inv(h, u) && nb % 8 == 0 && MIN_CHUNK_SIZE <= nb < h.tops
    ensures var h', n := TakeTop(h, nb), h.top + h.tops;
            && TagStep(h, h', h.top, n) && TopOk(h')
            && (forall q {:trigger q in h'.C} :: q in h'.C && h.top <= q < n ==> q == h.top || q == h.top + nb)
            && h'.C[h.top] == Chunk(nb, Live, true) && h'.C[h.top + nb].kind == Top
  {
    TopEnd(h);
    var p, n, h' := h.top, h.top + h.tops, TakeTop(h, nb);
    assert ChunkOk(h.m, h.C, p);
    SplitTop(h.m, h.C, p, nb);
    assert p + nb !in h.C;
    hide BinsOk, SegsOk, AllPlaced, DvOk, Tiled;
    assert Bounded(h'.C, p, n) && Bounded(h'.C, p + nb, n);
    assert Followed(h'.C, p, n) && Followed(h'.C, p + nb, n);
  }

  /** Splitting top. */
  lemma TakeTopInv(h: H, u: set<int>, nb: int)
    requires Inv(h, u) && nb % 8 == 0 && MIN_CHUNK_SIZE <= nb < h.tops
    ensures Inv(TakeTop(h, nb), u)
    ensures forall x {:trigger LiveKept(h, TakeTop(h, nb), x)} :: LiveKept(h, TakeTop(h, nb), x)
  {
    TakeTopStep(h, u, nb);
    TopEnd(h);
    var p, n, h' := h.top, h.top + h.tops, TakeTop(h, nb);
    if h.dv != 0 { assert h.dv in h.C; }
    forall q | q in u ensures !(p <= q < n) { assert q in h.C; }
    assert ChunkOk(h.m, h.C, p) && SegOk(h, 0);
    hide TagStep, TopOk, AllPlaced;
    TagInv(h, u, h', p, n, u);
    forall x ensures LiveKept(h, h', x) { TagLive(h, h', p, n, x); }
  }

  // Giving chunks back.

  /** The run [p, n) that free merges: the block x and loose chunks. */
  ghost predicate Run(h: H, u: set<int>, x: int, p: int, n: int) {
    && Span(h, p, n) && h.C[p].pin && p + MIN_CHUNK_SIZE <= n
    && (forall q {:trigger q in h.C} :: q in h.C && p <= q < n ==> q == x || q in u || q == h.top)
  }

  ghost function Release(h: H, p: int, n: int): H {
    h.(m := SetFreeWithPinuse(h.m, p, n - p, n), C := Merged(h.C, p, n, Free))
  }

  ghost function Outside(u: set<int>, p: int, n: int): set<int> {
    set q | q in u && !(p <= q < n)
  }

  lemma ReleaseStep(h: H, u: set<int>, x: int, p: int, n: int)
    requires Inv(h, u) && Run(h, u, x, p, n) && n in h.C && InUse(h.C[n].kind)
    ensures TagStep(h, Release(h, p, n), p, n)
    ensures forall q {:trigger q in Release(h, p, n).C} :: q in Release(h, p, n).C && p <= q < n ==> q == p
    ensures Release(h, p, n).C[p] == Chunk(n - p, Free, true)
  {
    var h' := Release(h, p, n);
    MergeFree(h.m, h.C, p, n);
    HeadMapped(h, n);
    HeadMapped(h, p);
    hide BinsOk, SegsOk, AllPlaced, DvOk, Tiled;
    assert Bounded(h'.C, p, n) && Followed(h'.C, p, n);
  }

  /** Freeing x and merging it with the loose chunks around it. */
  lemma ReleaseInv(h: H, u: set<int>, x: int, p: int, n: int)
    requires Inv(h, u) && Run(h, u, x, p, n) && n in h.C && InUse(h.C[n].kind) && !(p <= h.top < n)
    requires x in h.C && h.C[x].kind == Live
    ensures Inv(Release(h, p, n), Outside(u, p, n) + {p})
    ensures LiveKept(h, Release(h, p, n), x)
    ensures Release(h, p, n).C[p] == Chunk(n - p, Free, true)
  {
    var h' := Release(h, p, n);
    ReleaseStep(h, u, x, p, n);
    assert TopOk(h');
    assert SegOk(h, 0);
    assert !(p <= h.dv < n) by { DvNotInRun(h, u, x, p, n); }
    hide TopOk, AllPlaced, Release;
    TagInv(h, u, h', p, n, Outside(u, p, n) + {p});
    forall q | q in h.C && p <= q < n && h.C[q].kind == Live ensures q == x { RunLive(h, u, x, p, n, q); }
    TagLive(h, h', p, n, x);
  }

  lemma DvNotInRun(h: H, u: set<int>, x: int, p: int, n: int)
    requires Inv(h, u) && Run(h, u, x, p, n) && x in h.C && h.C[x].kind == Live
    ensures !(p <= h.dv < n)
  {
    assert ChunkOk(h.m, h.C, p);
    if h.dv != 0 { assert h.dv in h.C; }
  }

  lemma RunLive(h: H, u: set<int>, x: int, p: int, n: int, q: int)
    requires Inv(h, u) && Run(h, u, x, p, n) && q in h.C && p <= q < n && h.C[q].kind == Live
    ensures q == x
  {
    assert q in h.C;
  }

  ghost function ReleaseTop(h: H, p: int): H {
    var n := h.top + h.tops;
    h.(m := h.m[p + 8 := n - p + 1], C := Merged(h.C, p, n, Top), top := p, tops := n - p)
  }

  lemma RunBelowTop(h: H, u: set<int>, x: int, p: int)
    requires Inv(h, u) && Run(h, u, x, p, h.top + h.tops)
    ensures p <= h.top
  {
    TopEnd(h);
    assert p in h.C;
  }

  lemma ReleaseTopOk(h: H, u: set<int>, x: int, p: int)
    requires Inv(h, u) && Run(h, u, x, p, h.top + h.tops)
    ensures TopOk(ReleaseTop(h, p))
    ensures forall q {:trigger q in ReleaseTop(h, p).C} :: q in ReleaseTop(h, p).C && p <= q < h.top + h.tops ==> q == p
  {
    RunBelowTop(h, u, x, p);
    TopEnd(h);
    var h', n := ReleaseTop(h, p), h.top + h.tops;
    hide BinsOk, SegsOk, AllPlaced, DvOk, Tiled;
    assert forall q {:trigger h'.C[q]} :: q in h'.C && q != p ==>
      q in h.C && h'.C[q].kind == h.C[q].kind && !(p <= q < n);
  }

  lemma ReleaseTopTiled(h: H, u: set<int>, x: int, p: int)
    requires Inv(h, u) && Run(h, u, x, p, h.top + h.tops)
    ensures var h', n := ReleaseTop(h, p), h.top + h.tops;
            Tiled(h'.m, h'.C) && SameOutside(h.m, h'.m, p + 8, n + 16) && h'.m.Keys == h.m.Keys
  {
    TopEnd(h);
    HeadMapped(h, p);
    MergeTop(h.m, h.C, p, h.top + h.tops);
  }

  lemma ReleaseTopStep(h: H, u: set<int>, x: int, p: int)
    requires Inv(h, u) && Run(h, u, x, p, h.top + h.tops)
    ensures TagStep(h, ReleaseTop(h, p), p, h.top + h.tops)
  {
    TopEnd(h);
    ReleaseTopTiled(h, u, x, p);
    ReleaseTopOk(h, u, x, p);
    var h', n := ReleaseTop(h, p), h.top + h.tops;
    hide BinsOk, SegsOk, AllPlaced, DvOk, Tiled, TopOk, Inv, HeapOk;
    assert Bounded(h'.C, p, n) && Followed(h'.C, p, n);
  }

  /** Freeing x and merging it, with loose chunks before it, into top. */
  lemma ReleaseTopInv(h: H, u: set<int>, x: int, p: int)
    requires Inv(h, u) && Run(h, u, x, p, h.top + h.tops) && x in h.C && h.C[x].kind == Live
    ensures Inv(ReleaseTop(h, p), Outside(u, p, h.top + h.tops))
    ensures LiveKept(h, ReleaseTop(h, p), x)
  {
    var n, h' := h.top + h.tops, ReleaseTop(h, p);
    ReleaseTopStep(h, u, x, p);
    ReleaseTopOk(h, u, x, p);
    assert h.segs[0].base <= h'.top by {
      assert SegOk(h, 0) && SpanSeg(h, 0, p, n);
      TopEnd(h);
    }
    assert !(p <= h.dv < n) by { DvNotInRun(h, u, x, p, n); }
    hide TopOk, AllPlaced, ReleaseTop;
    TagInv(h, u, h', p, n, Outside(u, p, n));
    forall q | q in h.C && p <= q < n && h.C[q].kind == Live ensures q == x { RunLive(h, u, x, p, n, q); }
    TagLive(h, h', p, n, x);
  }
}
