/** What malloc, free and realloc promise about live blocks, and the steps that make up those promises. */
module AllocBlocks {
  import opened AllocHeap
  import opened AllocIndex
  import opened AllocState
  import opened AllocLinks
  import opened AllocTags
  import opened AllocOps
  import opened AllocResize
  import opened AllocAccess
  import opened AllocSites
  import opened AllocCarve

  ghost function LiveSet(h: H): set<int> {
    set p | p in h.C && h.C[p].kind == Live
  }

  /** The same blocks are live, with the same sizes and contents. */
  ghost predicate Same(h: H, h': H) {
    Keeps(h, h') && LiveSet(h') == LiveSet(h) && h'.ms == h.ms
  }

  /** p is a new live block of at least nb bytes; all others are as before. */
  ghost predicate Grants(h: H, h': H, p: int, nb: int) {
    && Keeps(h, h') && p !in LiveSet(h) && LiveSet(h') == LiveSet(h) + {p} && h'.ms == h.ms
    && p in h'.C && h'.C[p].size >= nb
  }

  /** The live block x is gone; all others are as before. */
  ghost predicate Frees(h: H, h': H, x: int) {
    LiveKept(h, h', x) && LiveSet(h') == LiveSet(h) - {x} && h'.ms == h.ms
  }

  lemma SameIsSame(h: H, h': H)
    requires SameChunks(h, h')
    ensures Same(h, h')
  {
  }

  lemma SameTrans(h: H, h': H, h'': H)
    requires Same(h, h') && Same(h', h'')
    ensures Same(h, h'')
  {
    KeepsTrans(h, h', h'');
  }

  lemma SameGrants(h: H, h': H, h'': H, p: int, nb: int)
    requires Same(h, h') && Grants(h', h'', p, nb)
    ensures Grants(h, h'', p, nb)
  {
    KeepsTrans(h, h', h'');
  }

  lemma GrantsSame(h: H, h': H, h'': H, p: int, nb: int)
    requires Grants(h, h', p, nb) && Same(h', h'')
    ensures Grants(h, h'', p, nb)
  {
    KeepsTrans(h, h', h'');
    assert p in LiveSet(h');
    assert BlockKept(h', h'', p);
  }

  lemma SameFrees(h: H, h': H, h'': H, x: int)
    requires Same(h, h') && Frees(h', h'', x)
    ensures Frees(h, h'', x)
  {
    KeepsThenBut(h, h', h'', x);
  }

  lemma FreesSame(h: H, h': H, h'': H, x: int)
    requires Frees(h, h', x) && Same(h', h'')
    ensures Frees(h, h'', x)
  {
    ButThenKeeps(h, h', h'', x);
  }

  /** Different live blocks share no byte: the payload of a block p of size s is [p + 16, p + 8 + s). */
  lemma BlocksDisjoint(h: H, u: set<int>, p: int, q: int)
    requires Inv(h, u) && p in LiveSet(h) && q in LiveSet(h) && p != q
    ensures p + 8 + h.C[p].size <= q + 8 || q + 8 + h.C[q].size <= p + 8
    ensures p % 8 == 0 && h.C[p].size >= MIN_CHUNK_SIZE && h.C[p].size % 8 == 0
    ensures forall a {:trigger a in h.m} :: p <= a < p + 8 + h.C[p].size ==> a in h.m
  {
    ChunksAway(h, p, q);
    assert ChunkOk(h.m, h.C, p);
  }

  // The steps.

  lemma TakeGrants(h: H, u: set<int>, p: int)
    requires Inv(h, u) && p in u
    ensures p in h.C && p + h.C[p].size in h.C
    ensures Inv(Take(h, p), u - {p}) && Grants(h, Take(h, p), p, h.C[p].size)
    ensures Carves(h.C, Take(h, p).C, p) && Take(h, p).C[p].size == h.C[p].size
  {
    TakeInv(h, u, p);
    LooseSpan(h, u, p);
    TakenCarves(h.C, p);
    hide Parted;
    KeepsAll(h, Take(h, p));
    hide Inv, Keeps;
    assert LiveSet(Take(h, p)) == LiveSet(h) + {p};
  }

  lemma SplitGrants(h: H, u: set<int>, p: int, nb: int)
    requires Inv(h, u) && p in u && nb % 8 == 0 && MIN_CHUNK_SIZE <= nb
    requires p in h.C && nb + MIN_CHUNK_SIZE <= h.C[p].size
    ensures Inv(Split(h, p, nb), u - {p} + {p + nb}) && Grants(h, Split(h, p, nb), p, nb) && p + nb !in h.C
    ensures Split(h, p, nb).C[p + nb].size == h.C[p].size - nb
    ensures Carves(h.C, Split(h, p, nb).C, p) && Split(h, p, nb).C[p].size == nb
  {
    SplitInv(h, u, p, nb);
    LooseSpan(h, u, p);
    KeepsAll(h, Split(h, p, nb));
    assert p + nb !in h.C;
    SplitCarves(h.C, p, nb, Free);
    hide Parted;
    hide Inv, Keeps;
    assert LiveSet(Split(h, p, nb)) == LiveSet(h) + {p};
  }

  lemma TakeTopGrants(h: H, u: set<int>, nb: int)
    requires Inv(h, u) && nb % 8 == 0 && MIN_CHUNK_SIZE <= nb < h.tops
    ensures h.top in h.C && Inv(TakeTop(h, nb), u) && Grants(h, TakeTop(h, nb), h.top, nb)
    ensures Carves(h.C, TakeTop(h, nb).C, h.top) && TakeTop(h, nb).C[h.top].size == nb
  {
    TakeTopInv(h, u, nb);
    TopEnd(h);
    KeepsAll(h, TakeTop(h, nb));
    assert h.top + nb !in h.C;
    SplitCarves(h.C, h.top, nb, Top);
    hide Parted;
    hide Inv, Keeps;
    assert LiveSet(TakeTop(h, nb)) == LiveSet(h) + {h.top};
  }

  lemma DropDvSame(h: H, u: set<int>)
    requires Inv(h, u) && h.dv != 0
    ensures Inv(DropDv(h), u + {h.dv}) && Same(h, DropDv(h)) && h.dv in h.C && h.C[h.dv].size == h.dvs
  {
    DropDvInv(h, u);
    KeepsAll(h, DropDv(h));
  }

  lemma SetDvSame(h: H, u: set<int>, p: int)
    requires Inv(h, u) && h.dv == 0 && p in u
    ensures p in h.C && Inv(SetDv(h, p), u - {p}) && Same(h, SetDv(h, p))
  {
    SetDvInv(h, u, p);
    KeepsAll(h, SetDv(h, p));
  }

  lemma ReleaseFrees(h: H, u: set<int>, x: int, p: int, n: int)
    requires Inv(h, u) && Run(h, u, x, p, n) && n in h.C && InUse(h.C[n].kind) && !(p <= h.top < n)
    requires x in h.C && h.C[x].kind == Live && p <= x < n
    ensures Inv(Release(h, p, n), Outside(u, p, n) + {p}) && Frees(h, Release(h, p, n), x)
    ensures Release(h, p, n).C[p] == Chunk(n - p, Free, true)
  {
    ReleaseInv(h, u, x, p, n);
    forall q | q in h.C && p <= q < n && h.C[q].kind == Live ensures q == x { RunLive(h, u, x, p, n, q); }
    hide Inv, Run, LiveKept;
    assert LiveSet(Release(h, p, n)) == LiveSet(h) - {x};
  }

  lemma ReleaseTopFrees(h: H, u: set<int>, x: int, p: int)
    requires Inv(h, u) && Run(h, u, x, p, h.top + h.tops) && x in h.C && h.C[x].kind == Live && p <= x < h.top + h.tops
    ensures Inv(ReleaseTop(h, p), Outside(u, p, h.top + h.tops)) && Frees(h, ReleaseTop(h, p), x)
  {
    var n := h.top + h.tops;
    ReleaseTopInv(h, u, x, p);
    TopEnd(h);
    forall q | q in h.C && p <= q < n && h.C[q].kind == Live ensures q == x { RunLive(h, u, x, p, n, q); }
    hide Inv, Run, LiveKept;
    assert LiveSet(ReleaseTop(h, p)) == LiveSet(h) - {x};
  }

  lemma LinkedSmallSame(h: H, p: int, i: int)
    requires 0 <= i < |h.sb| && Keeps(h, LinkSmall(h, p, i))
    ensures Same(h, LinkSmall(h, p, i))
  {
  }

  /** Binning does not look at the designated victim. */
  lemma LinkSmallDropDv(h: H, p: int, i: int)
    requires 0 <= i < |h.sb|
    ensures LinkSmall(DropDv(h), p, i) == DropDv(LinkSmall(h, p, i))
    ensures LinkSmall(h, p, i).dv == h.dv && LinkSmall(h, p, i).dvs == h.dvs && LinkSmall(h, p, i).C == h.C
  {
  }

  lemma GrantsLess(h: H, h': H, p: int, nb: int, less: int)
    requires Grants(h, h', p, nb) && less <= nb
    ensures Grants(h, h', p, less)
  {
  }

  lemma GrantsNonZero(h: H, h': H, p: int, nb: int)
    requires Inv(h', {}) && Grants(h, h', p, nb)
    ensures p > 0 && p % 8 == 0
  {
    assert ChunkOk(h'.m, h'.C, p);
  }

  lemma SameRefl(h: H)
    ensures Same(h, h)
  {
  }
}
