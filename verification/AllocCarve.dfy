/** The free memory: what handing out and giving back chunks takes from it and adds to it. */
module AllocCarve {
  import opened AllocHeap

  ghost predicate InIdle(C: Chunks, p: int, a: int) {
    p in C && !InUse(C[p].kind) && p <= a < p + C[p].size
  }

  /** The byte at a belongs to a free chunk or to top. */
  ghost predicate FreeAt(C: Chunks, a: int) {
    exists p {:trigger InIdle(C, p, a)} :: InIdle(C, p, a)
  }

  /** The bytes [p, n) are free in C, not in C', and no other byte is in one only. */
  ghost predicate Parted(C: Chunks, C': Chunks, p: int, n: int) {
    && (forall a {:trigger FreeAt(C, a)} {:trigger FreeAt(C', a)} ::
      FreeAt(C', a) <==> FreeAt(C, a) && !(p <= a < n))
    && (forall a {:trigger FreeAt(C, a)} :: p <= a < n ==> FreeAt(C, a))
  }

  /** The chunk at p has been cut out of the free memory, and nothing else has changed there. */
  ghost predicate Carves(C: Chunks, C': Chunks, p: int) {
    p in C' && Parted(C, C', p, p + C'[p].size)
  }

  /** The chunk at x has become free memory, and nothing else has changed there. */
  ghost predicate Returns(C: Chunks, C': Chunks, x: int) {
    x in C && Parted(C', C, x, x + C[x].size)
  }

  /** The chunk at p is large enough for nb bytes, and what is too much would not make a chunk. */
  ghost predicate Tight(C: Chunks, p: int, nb: int) {
    p in C && nb <= C[p].size < nb + 32
  }

  lemma PartedOut(C: Chunks, C': Chunks, p: int, n: int)
    requires forall a {:trigger FreeAt(C, a)} {:trigger FreeAt(C', a)} ::
      FreeAt(C, a) <==> FreeAt(C', a) || p <= a < n
    requires NoOverlap(C') && p in C' && InUse(C'[p].kind) && p + C'[p].size == n
    ensures Parted(C, C', p, n)
  {
    forall a | p <= a < n ensures !FreeAt(C', a) {
      forall q ensures !InIdle(C', q, a) { if q in C' { assert Apart(C', q, p); } }
    }
  }

  /** Outside the chunk at p, the same bytes are free. */
  lemma TakenCarves(C: Chunks, p: int)
    requires NoOverlap(C) && p in C && C[p].kind == Free && C[p].size > 0 && p + C[p].size in C
    requires NoOverlap(TakenWhole(C, p))
    ensures Carves(C, TakenWhole(C, p), p)
  {
    var C' := TakenWhole(C, p);
    forall a {:trigger FreeAt(C, a)} {:trigger FreeAt(C', a)}
      ensures FreeAt(C, a) <==> FreeAt(C', a) || p <= a < p + C[p].size
    {
      if q :| InIdle(C, q, a) {
        if q == p { } else { assert InIdle(C', q, a); }
      }
      if q :| InIdle(C', q, a) { assert InIdle(C, q, a); }
      if p <= a < p + C[p].size { assert InIdle(C, p, a); }
    }
    PartedOut(C, C', p, p + C[p].size);
  }

  lemma SplitCarves(C: Chunks, p: int, nb: int, k: Kind)
    requires NoOverlap(C) && p in C && !InUse(C[p].kind) && 0 < nb < C[p].size && p + nb !in C && !InUse(k)
    requires NoOverlap(SplitTwo(C, p, nb, k))
    ensures Carves(C, SplitTwo(C, p, nb, k), p) && SplitTwo(C, p, nb, k)[p].size == nb
  {
    var C' := SplitTwo(C, p, nb, k);
    forall a {:trigger FreeAt(C, a)} {:trigger FreeAt(C', a)}
      ensures FreeAt(C, a) <==> FreeAt(C', a) || p <= a < p + nb
    {
      if q :| InIdle(C, q, a) {
        if q == p { assert a < p + nb || InIdle(C', p + nb, a); } else { assert InIdle(C', q, a); }
      }
      if q :| InIdle(C', q, a) {
        if q == p + nb { assert InIdle(C, p, a); } else { assert InIdle(C, q, a); }
      }
      if p <= a < p + nb { assert InIdle(C, p, a); }
    }
    PartedOut(C, C', p, p + nb);
  }

  /** x is merged with the idle chunks, if any, before and after it. */
  lemma MergeReturns(C: Chunks, x: int, p: int, hi: int, k: Kind)
    requires NoOverlap(C) && x in C && C[x].size > 0 && InUse(C[x].kind) && !InUse(k)
    requires p in C && (p == x || (p < x && !InUse(C[p].kind) && p + C[p].size == x))
    requires var n := x + C[x].size; n == hi || (n in C && n < hi && !InUse(C[n].kind) && hi == n + C[n].size)
    ensures Returns(C, Merged(C, p, hi, k), x)
  {
    var C', n := Merged(C, p, hi, k), x + C[x].size;
    forall a {:trigger FreeAt(C, a)} {:trigger FreeAt(C', a)}
      ensures FreeAt(C', a) <==> FreeAt(C, a) || x <= a < n
    {
      if q :| InIdle(C, q, a) {
        assert Apart(C, q, p) && Apart(C, q, x) && (n in C ==> Apart(C, q, n));
        if p <= q < hi { assert InIdle(C', p, a); } else { assert InIdle(C', q, a); }
      }
      if x <= a < n { assert InIdle(C', p, a); }
      if q :| InIdle(C', q, a) {
        if q != p { assert InIdle(C, q, a); }
        else if a < x { assert InIdle(C, p, a); }
        else if a >= n { assert InIdle(C, n, a); }
      }
    }
    PartedOut(C', C, x, n);
  }

  lemma SameTight(C: Chunks, C': Chunks, p: int, nb: int)
    requires Tight(C, p, nb) && p in C' && C'[p].size == C[p].size
    ensures Tight(C', p, nb)
  {
  }
}
