/** Shrinking a live block in place, and growing one into top. */
module AllocResize {
  import opened AllocHeap
  import opened AllocState
  import opened AllocTags
  import opened AllocOps

  function SetInuse(m: Mem, p: int, s: int): Mem {
    m[p + 8 := R(m, p + 8) % 2 + s + 2][p + s + 8 := OrPinuse(R(m, p + s + 8))]
  }

  ghost function Shrink(h: H, p: int, nb: int): H
    requires p in h.C
  {
    var s := h.C[p].size;
    h.(m := SetInuse(SetInuse(h.m, p, nb), p + nb, s - nb),
       C := h.C[p := Chunk(nb, Live, h.C[p].pin)][p + nb := Chunk(s - nb, Live, true)])
  }

  /** A live block is a span of its own. */
  lemma LiveSpan(h: H, u: set<int>, p: int)
    requires Inv(h, u) && p in h.C && h.C[p].kind == Live
    ensures Span(h, p, p + h.C[p].size) && p + h.C[p].size in h.C && p !in u && p != h.dv && p != h.top
    ensures forall q {:trigger q in h.C} :: q in h.C && p < q ==> p + h.C[p].size <= q
    ensures h.C[p + h.C[p].size].pin && ChunkOk(h.m, h.C, p) && ChunkOk(h.m, h.C, p + h.C[p].size)
    ensures !(p <= h.dv < p + h.C[p].size) && h.C[p].size >= MIN_CHUNK_SIZE && p > 0
  {
    var n := p + h.C[p].size;
    assert ChunkOk(h.m, h.C, p);
    assert ChunkOk(h.m, h.C, n);
    assert Movable(h, p) by { if Binned(h, p) { BinnedFree(h, p); } }
    SpanOne(h, p);
    NothingBetween(h.C, p);
    if h.dv != 0 { assert h.dv in h.C; }
  }

  /** Shrinking writes the two heads and leaves the next one as it is. */
  lemma ShrinkWords(m: Mem, p: int, s: int, nb: int, pin: bool)
    requires R(m, p + 8) == Head(s, true, pin) && s % 8 == 0 && nb % 8 == 0 && 0 < nb < s
    requires R(m, p + s + 8) % 2 == 1 && p + 8 in m && p + nb + 8 in m && p + s + 8 in m
    ensures var m' := SetInuse(SetInuse(m, p, nb), p + nb, s - nb);
            && R(m', p + 8) == Head(nb, true, pin) && R(m', p + nb + 8) == Head(s - nb, true, true)
            && (forall a {:trigger R(m', a)} :: a != p + 8 && a != p + nb + 8 ==> R(m', a) == R(m, a))
            && m'.Keys == m.Keys
  {
    HeadPin(s, true, pin);
  }

  lemma ShrinkTags(m: Mem, C: Chunks, m': Mem, C': Chunks, p: int, nb: int)
    requires p in C && C[p].kind == Live && nb % 8 == 0 && MIN_CHUNK_SIZE <= nb && nb + MIN_CHUNK_SIZE <= C[p].size
    requires p + C[p].size in C && ChunkOk(m, C, p) && ChunkOk(m, C, p + C[p].size) && p + nb !in C
    requires var n := p + C[p].size; n + C[n].size !in {p, p + nb}
    requires !C[p].pin ==> p - R(m, p) < p
    requires C' == C[p := Chunk(nb, Live, C[p].pin)][p + nb := Chunk(C[p].size - nb, Live, true)]
    requires R(m', p + 8) == Head(nb, true, C[p].pin) && R(m', p + nb + 8) == Head(C[p].size - nb, true, true)
    requires forall a {:trigger R(m', a)} :: a != p + 8 && a != p + nb + 8 ==> R(m', a) == R(m, a)
    ensures ChunkOk(m', C', p) && ChunkOk(m', C', p + nb) && ChunkOk(m', C', p + C[p].size)
  {
    assert (p + nb) % 8 == 0 && (C[p].size - nb) % 8 == 0;
  }

  lemma ShrinkRetile(m: Mem, C: Chunks, m': Mem, C': Chunks, p: int, nb: int)
    requires Tiled(m, C)
    requires p in C && C[p].kind == Live && nb % 8 == 0 && MIN_CHUNK_SIZE <= nb && nb + MIN_CHUNK_SIZE <= C[p].size
    requires C' == C[p := Chunk(nb, Live, C[p].pin)][p + nb := Chunk(C[p].size - nb, Live, true)]
    requires R(m', p + 8) == Head(nb, true, C[p].pin) && R(m', p + nb + 8) == Head(C[p].size - nb, true, true)
    requires forall a {:trigger R(m', a)} :: a != p + 8 && a != p + nb + 8 ==> R(m', a) == R(m, a)
    ensures var n := p + C[p].size;
            Tiled(m', C') && SameOutside(m, m', p + 8, n + 16) && Retiled(C, C', p, n) && Ends(C', p, n)
  {
    var n := p + C[p].size;
    assert ChunkOk(m, C, p) && ChunkOk(m, C, n);
    NothingBetween(C, p);
    if !C[p].pin { assert ChunkOk(m, C, p - R(m, p)); }
    ShrinkTags(m, C, m', C', p, nb);
    assert Bounded(C', p, n) && Bounded(C', p + nb, n);
    Retile(m, C, m', C', p, n);
  }

  lemma ShrinkTiled(h: H, u: set<int>, p: int, nb: int)
    requires Inv(h, u) && p in h.C && h.C[p].kind == Live && nb % 8 == 0 && MIN_CHUNK_SIZE <= nb
    requires nb + MIN_CHUNK_SIZE <= h.C[p].size
    ensures var h', n := Shrink(h, p, nb), p + h.C[p].size;
            && Tiled(h'.m, h'.C) && SameOutside(h.m, h'.m, p + 8, n + 16) && h'.m.Keys == h.m.Keys
            && Retiled(h.C, h'.C, p, n) && Ends(h'.C, p, n)
            && (forall a {:trigger R(h'.m, a)} :: p + 16 <= a < p + 8 + nb ==> R(h'.m, a) == R(h.m, a))
  {
    hide SetInuse;
    LiveSpan(h, u, p);
    var n := p + h.C[p].size;
    HeadFields(h.C[n]);
    HeadMapped(h, n);
    assert p + 8 in h.m && p + nb + 8 in h.m;
    ShrinkWords(h.m, p, h.C[p].size, nb, h.C[p].pin);
    assert Tiled(h.m, h.C);
    hide Inv, HeapOk, Tiled, Span, ChunkOk, Retiled, Ends, SameOutside;
    ShrinkRetile(h.m, h.C, Shrink(h, p, nb).m, Shrink(h, p, nb).C, p, nb);
  }

  lemma ShrinkDomain(C: Chunks, p: int, nb: int)
    requires p in C && 0 < nb < C[p].size
    requires forall q {:trigger q in C} :: q in C && p < q ==> p + C[p].size <= q
    ensures var C', n := C[p := Chunk(nb, Live, C[p].pin)][p + nb := Chunk(C[p].size - nb, Live, true)], p + C[p].size;
            && (forall q {:trigger q in C'} :: q in C' && p <= q < n ==> q == p || q == p + nb)
            && (forall q {:trigger C'[q]} :: q in C' && C'[q].kind == Top ==> q in C && C[q].kind == Top)
            && p in C' && p + nb in C' && (n in C ==> Followed(C', p, n) && Followed(C', p + nb, n))
  {
  }

  lemma ShrinkStep(h: H, u: set<int>, p: int, nb: int)
    requires Inv(h, u) && p in h.C && h.C[p].kind == Live && nb % 8 == 0 && MIN_CHUNK_SIZE <= nb
    requires nb + MIN_CHUNK_SIZE <= h.C[p].size
    ensures TagStep(h, Shrink(h, p, nb), p, p + h.C[p].size)
    ensures forall q {:trigger q in Shrink(h, p, nb).C} ::
              q in Shrink(h, p, nb).C && p <= q < p + h.C[p].size ==> q == p || q == p + nb
    ensures TopOk(Shrink(h, p, nb))
  {
    hide SetInuse;
    LiveSpan(h, u, p);
    var n, h' := p + h.C[p].size, Shrink(h, p, nb);
    ShrinkTiled(h, u, p, nb);
    ShrinkDomain(h.C, p, nb);
    hide BinsOk, SegsOk, AllPlaced, DvOk, Tiled, Mapped, Span, Retiled, Ends;
  }

  lemma ShrinkFacts(h: H, u: set<int>, p: int)
    requires Inv(h, u) && p in h.C && h.C[p].kind == Live
    ensures var n := p + h.C[p].size;
            && !(p <= h.dv < n) && h.segs[0].base <= h.top
            && (forall q {:trigger q in u} :: q in u ==> !(p <= q < n))
            && (forall q {:trigger h.C[q]} :: q in h.C && p <= q < n && h.C[q].kind == Live ==> q == p)
  {
    LiveSpan(h, u, p);
    forall q | q in u ensures !(p <= q < p + h.C[p].size) { assert q in h.C; }
  }

  /** Cutting a live block in two live ones. */
  lemma ShrinkInv(h: H, u: set<int>, p: int, nb: int)
    requires Inv(h, u) && p in h.C && h.C[p].kind == Live && nb % 8 == 0 && MIN_CHUNK_SIZE <= nb
    requires nb + MIN_CHUNK_SIZE <= h.C[p].size
    ensures Inv(Shrink(h, p, nb), u)
    ensures LiveKept(h, Shrink(h, p, nb), p)
    ensures forall a {:trigger R(Shrink(h, p, nb).m, a)} :: p + 16 <= a < p + 8 + nb ==>
      R(Shrink(h, p, nb).m, a) == R(h.m, a)
  {
    hide SetInuse;
    var n, h' := p + h.C[p].size, Shrink(h, p, nb);
    ShrinkStep(h, u, p, nb);
    ShrinkTiled(h, u, p, nb);
    ShrinkFacts(h, u, p);
    hide TagStep, TopOk, AllPlaced, SetInuse, Tiled;
    TagInv(h, u, h', p, n, u);
    TagLive(h, h', p, n, p);
  }

  ghost function GrowTop(h: H, p: int, nb: int): H
    requires p in h.C
  {
    var n := h.top + h.tops;
    h.(m := SetInuse(h.m, p, nb)[p + nb + 8 := n - p - nb + 1], top := p + nb, tops := n - p - nb,
       C := (map q | q in h.C && !(p <= q < n) :: h.C[q])[p := Chunk(nb, Live, h.C[p].pin)]
           [p + nb := Chunk(n - p - nb, Top, true)])
  }

  lemma GrowSpan(h: H, u: set<int>, p: int)
    requires Inv(h, u) && p in h.C && h.C[p].kind == Live && p + h.C[p].size == h.top
    ensures Span(h, p, h.top + h.tops)
    ensures forall q {:trigger q in h.C} :: q in h.C && p < q ==> q == h.top || h.top + h.tops + TOP_FOOT_SIZE <= q
  {
    LiveSpan(h, u, p);
    TopEnd(h);
    SpanJoin(h, p, h.top, h.top + h.tops);
  }

  lemma GrowWords(m: Mem, p: int, nb: int, rest: int, pin: bool, s: int)
    requires R(m, p + 8) == Head(s, true, pin) && s % 8 == 0 && nb > 0
    requires p + 8 in m && p + nb + 8 in m
    ensures var m' := SetInuse(m, p, nb)[p + nb + 8 := rest + 1];
            && R(m', p + 8) == Head(nb, true, pin) && R(m', p + nb + 8) == Head(rest, false, true)
            && (forall a {:trigger R(m', a)} :: a != p + 8 && a != p + nb + 8 ==> R(m', a) == R(m, a))
            && m'.Keys == m.Keys
  {
    HeadPin(s, true, pin);
  }

  lemma GrowTags(m: Mem, C: Chunks, m': Mem, C': Chunks, p: int, nb: int, n: int)
    requires p in C && C[p].kind == Live && nb % 8 == 0 && MIN_CHUNK_SIZE <= nb && p + nb < n && n % 8 == 0
    requires ChunkOk(m, C, p) && n !in C
    requires !C[p].pin ==> p - R(m, p) < p
    requires C' == (map q | q in C && !(p <= q < n) :: C[q])[p := Chunk(nb, Live, C[p].pin)]
             [p + nb := Chunk(n - p - nb, Top, true)]
    requires R(m', p + 8) == Head(nb, true, C[p].pin) && R(m', p + nb + 8) == Head(n - p - nb, false, true)
    requires forall a {:trigger R(m', a)} :: a != p + 8 && a != p + nb + 8 ==> R(m', a) == R(m, a)
    ensures ChunkOk(m', C', p) && ChunkOk(m', C', p + nb)
  {
    assert (p + nb) % 8 == 0 && (n - p - nb) % 8 == 0;
  }

  lemma GrowRetile(m: Mem, C: Chunks, m': Mem, C': Chunks, p: int, nb: int, n: int)
    requires Tiled(m, C) && p in C && C[p].kind == Live && nb % 8 == 0 && MIN_CHUNK_SIZE <= nb && p + nb < n
             && n % 8 == 0
    requires n !in C && Clear(C, n) && Ends(C, p, n)
    requires C' == (map q | q in C && !(p <= q < n) :: C[q])[p := Chunk(nb, Live, C[p].pin)]
             [p + nb := Chunk(n - p - nb, Top, true)]
    requires R(m', p + 8) == Head(nb, true, C[p].pin) && R(m', p + nb + 8) == Head(n - p - nb, false, true)
    requires forall a {:trigger R(m', a)} :: a != p + 8 && a != p + nb + 8 ==> R(m', a) == R(m, a)
    ensures Tiled(m', C') && SameOutside(m, m', p + 8, n + 16) && Retiled(C, C', p, n) && Ends(C', p, n)
  {
    assert ChunkOk(m, C, p);
    if !C[p].pin { assert ChunkOk(m, C, p - R(m, p)); }
    GrowTags(m, C, m', C', p, nb, n);
    assert Bounded(C', p, n) && Bounded(C', p + nb, n);
    Retile(m, C, m', C', p, n);
  }

  lemma GrowTiled(h: H, u: set<int>, p: int, nb: int)
    requires Inv(h, u) && p in h.C && h.C[p].kind == Live && p + h.C[p].size == h.top
    requires nb % 8 == 0 && h.C[p].size < nb < h.C[p].size + h.tops
    ensures var h', n := GrowTop(h, p, nb), h.top + h.tops;
            && Tiled(h'.m, h'.C) && SameOutside(h.m, h'.m, p + 8, n + 16) && h'.m.Keys == h.m.Keys
            && Retiled(h.C, h'.C, p, n) && Ends(h'.C, p, n)
            && (forall a {:trigger R(h'.m, a)} :: p + 16 <= a < p + 8 + h.C[p].size ==> R(h'.m, a) == R(h.m, a))
  {
    hide SetInuse, BinsOk, SegsOk, AllPlaced, DvOk;
    var n := h.top + h.tops;
    LiveSpan(h, u, p);
    TopEnd(h);
    GrowSpan(h, u, p);
    assert p + 8 in h.m && p + nb + 8 in h.m;
    GrowWords(h.m, p, nb, n - p - nb, h.C[p].pin, h.C[p].size);
    assert Tiled(h.m, h.C) && n % 8 == 0 && Ends(h.C, p, n);
    hide Inv, HeapOk, Tiled, Span, ChunkOk, Retiled, Ends, SameOutside, Clear;
    GrowRetile(h.m, h.C, GrowTop(h, p, nb).m, GrowTop(h, p, nb).C, p, nb, n);
  }

  lemma GrowStep(h: H, u: set<int>, p: int, nb: int)
    requires Inv(h, u) && p in h.C && h.C[p].kind == Live && p + h.C[p].size == h.top
    requires nb % 8 == 0 && h.C[p].size < nb < h.C[p].size + h.tops
    ensures TagStep(h, GrowTop(h, p, nb), p, h.top + h.tops)
    ensures forall q {:trigger q in GrowTop(h, p, nb).C} ::
              q in GrowTop(h, p, nb).C && p <= q < h.top + h.tops ==> q == p || q == p + nb
  {
    var n, h' := h.top + h.tops, GrowTop(h, p, nb);
    GrowTiled(h, u, p, nb);
    GrowSpan(h, u, p);
    TopEnd(h);
    hide BinsOk, SegsOk, AllPlaced, DvOk, SetInuse, Tiled, Inv;
    assert Followed(h'.C, p, n) && Followed(h'.C, p + nb, n);
  }

  lemma GrowTopOk(h: H, u: set<int>, p: int, nb: int)
    requires Inv(h, u) && p in h.C && h.C[p].kind == Live && p + h.C[p].size == h.top
    requires nb % 8 == 0 && h.C[p].size < nb < h.C[p].size + h.tops
    ensures TopOk(GrowTop(h, p, nb))
    ensures !(p <= h.dv < h.top + h.tops)
    ensures forall q {:trigger q in u} :: q in u ==> !(p <= q < h.top + h.tops)
    ensures forall q {:trigger h.C[q]} :: q in h.C && p <= q < h.top + h.tops && h.C[q].kind == Live ==> q == p
    ensures h.segs[0].base <= p
  {
    var n, h' := h.top + h.tops, GrowTop(h, p, nb);
    LiveSpan(h, u, p);
    GrowSpan(h, u, p);
    TopEnd(h);
    assert SpanSeg(h, 0, p, n);
    if h.dv != 0 { assert h.dv in h.C; }
    forall q | q in u ensures !(p <= q < n) { assert q in h.C; }
  }

  /** Growing the live block before top into top. */
  lemma GrowInv(h: H, u: set<int>, p: int, nb: int)
    requires Inv(h, u) && p in h.C && h.C[p].kind == Live && p + h.C[p].size == h.top
    requires nb % 8 == 0 && h.C[p].size < nb < h.C[p].size + h.tops
    ensures Inv(GrowTop(h, p, nb), u)
    ensures LiveKept(h, GrowTop(h, p, nb), p)
    ensures forall a {:trigger R(GrowTop(h, p, nb).m, a)} :: p + 16 <= a < p + 8 + h.C[p].size ==>
      R(GrowTop(h, p, nb).m, a) == R(h.m, a)
  {
    var n, h' := h.top + h.tops, GrowTop(h, p, nb);
    GrowStep(h, u, p, nb);
    GrowTiled(h, u, p, nb);
    GrowTopOk(h, u, p, nb);
    LiveSpan(h, u, p);
    hide TagStep, TopOk, AllPlaced, SetInuse;
    TagInv(h, u, h', p, n, u);
    TagLive(h, h', p, n, p);
  }
}
