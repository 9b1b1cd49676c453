/** free: what it reads, and the merges it makes. */
module AllocFree {
  import opened AllocHeap
  import opened AllocIndex
  import opened AllocState
  import opened AllocTags
  import opened AllocOps
  import opened AllocResize
  import opened AllocBlocks
  import opened AllocCarve

  lemma FreeReads(h: H, u: set<int>, x: int)
    requires Inv(h, u) && x in h.C && h.C[x].kind == Live
    ensures var n, w := x + h.C[x].size, R(h.m, x + 8);
            && x % 8 == 0 && x > 0 && x != h.dv && x + 8 in h.m && ChunkSize(w) == h.C[x].size
            && (Pinuse(w) <==> h.C[x].pin)
            && n in h.C && n % 8 == 0 && n + 8 in h.m && h.C[n].pin && R(h.m, n + 8) == HeadOf(h.C[n])
            && (Cinuse(R(h.m, n + 8)) <==> InUse(h.C[n].kind)) && Pinuse(R(h.m, n + 8))
            && ChunkSize(R(h.m, n + 8)) == h.C[n].size
            && (h.C[n].kind == Top <==> n == h.top) && n > x && h.C[n].size >= 8 && h.C[n].size % 8 == 0
            && h.C[x].size % 8 == 0 && h.C[x].size >= MIN_CHUNK_SIZE
    ensures !h.C[x].pin ==>
              var q := x - R(h.m, x);
              x in h.m && q in h.C && h.C[q].kind == Free && h.C[q].size == R(h.m, x) && q + h.C[q].size == x && q < x
              && R(h.m, x) % 8 == 0 && q % 8 == 0
  {
    var n := x + h.C[x].size;
    assert ChunkOk(h.m, h.C, x);
    assert ChunkOk(h.m, h.C, n);
    HeadFields(h.C[x]);
    HeadFields(h.C[n]);
    if !h.C[x].pin { assert ChunkOk(h.m, h.C, x - R(h.m, x)); }
  }

  /** p starts the run that x is merged into: x itself, or the free chunk just before it. */
  ghost predicate Starts(h: H, u: set<int>, x: int, p: int) {
    && x in h.C && h.C[x].kind == Live && p in h.C
    && if p == x then h.C[x].pin else p + h.C[p].size == x && p in u
  }

  /** hi ends that run: the chunk after x is in use, or taken along, or top. */
  ghost predicate EndsAt(h: H, u: set<int>, x: int, hi: int)
    requires x in h.C
  {
    var n := x + h.C[x].size;
    n in h.C && if hi == n then InUse(h.C[n].kind) else hi == n + h.C[n].size && (n in u || n == h.top)
  }

  lemma RunOf(h: H, u: set<int>, x: int, p: int, hi: int)
    requires Inv(h, u) && Starts(h, u, x, p) && EndsAt(h, u, x, hi)
    ensures Run(h, u, x, p, hi) && p <= x < hi
    ensures x + h.C[x].size != h.top ==> hi in h.C && InUse(h.C[hi].kind) && !(p <= h.top < hi)
  {
    var n := x + h.C[x].size;
    LiveSpan(h, u, x);
    if p != x {
      LooseSpan(h, u, p);
      SpanJoin(h, p, x, n);
    }
    if hi != n {
      if n == h.top { TopEnd(h); } else { LooseSpan(h, u, n); }
      SpanJoin(h, p, n, hi);
    }
    hide Inv, Span;
  }

  /** x is merged with free chunks before and after it. */
  lemma Joined(h: H, u: set<int>, x: int, p: int, hi: int)
    requires Inv(h, u) && Starts(h, u, x, p) && EndsAt(h, u, x, hi) && x + h.C[x].size != h.top
    requires forall q {:trigger q in u} :: q in u ==> p <= q < hi
    ensures hi in h.C
    ensures var h' := Release(h, p, hi);
            Inv(h', {p}) && Frees(h, h', x) && p in h'.C && h'.C[p] == Chunk(hi - p, Free, true)
  {
    RunOf(h, u, x, p, hi);
    ReleaseFrees(h, u, x, p, hi);
    assert Outside(u, p, hi) + {p} == {p};
  }

  /** ... and becomes the designated victim. */
  lemma JoinedDv(h: H, u: set<int>, x: int, p: int, hi: int)
    requires Inv(h, u) && h.dv == 0 && Starts(h, u, x, p) && EndsAt(h, u, x, hi) && x + h.C[x].size != h.top
    requires forall q {:trigger q in u} :: q in u ==> p <= q < hi
    ensures var h' := Release(h, p, hi).(dv := p, dvs := hi - p); Inv(h', {}) && Frees(h, h', x)
  {
    Joined(h, u, x, p, hi);
    var h1 := Release(h, p, hi);
    SetDvSame(h1, {p}, p);
    assert {p} - {p} == {};
    FreesSame(h, h1, SetDv(h1, p), x);
  }

  /** x, with a free chunk before it, is merged into top. */
  lemma JoinedTop(h: H, u: set<int>, x: int, p: int)
    requires Inv(h, u) && Starts(h, u, x, p) && x + h.C[x].size == h.top
    requires forall q {:trigger q in u} :: q in u ==> q == p
    ensures Inv(ReleaseTop(h, p), {}) && Frees(h, ReleaseTop(h, p), x)
  {
    assert h.top in h.C && h.C[h.top].size == h.tops;
    var n := h.top + h.tops;
    assert ChunkOk(h.m, h.C, h.top);
    RunOf(h, u, x, p, n);
    ReleaseTopFrees(h, u, x, p);
    assert Outside(u, p, n) == {};
  }

  /** The tag writes when the next chunk was free: its successor's pinuse bit is clear already. */
  lemma ReleaseMem(h: H, u: set<int>, x: int, p: int, n: int, hi: int)
    requires Inv(h, u) && n in h.C && h.C[n].kind == Free && hi == n + h.C[n].size
    ensures SetFreeChunk(h.m, p, hi - p) == Release(h, p, hi).m
    ensures hi in h.m && hi % 8 == 0
  {
    assert ChunkOk(h.m, h.C, n);
    assert ChunkOk(h.m, h.C, hi);
    HeadFields(h.C[hi]);
    HeadMapped(h, hi);
    assert h.m[hi + 8 := ClearPinuse(R(h.m, hi + 8))] == h.m;
  }

  lemma LooseMapped(h: H, u: set<int>, p: int)
    requires Inv(h, u) && p in h.C
    ensures p + 8 in h.m && p % 8 == 0 && p in h.m && p > 0
  {
    assert ChunkOk(h.m, h.C, p);
    HeadMapped(h, p);
  }

  lemma DvNonZero(h: H, u: set<int>, p: int)
    requires Inv(h, u) && p == h.dv && p in h.C
    ensures h.dv != 0 && h.C[p].size == h.dvs && h.C[p].kind == Free && h.dvs > 0
  {
    assert ChunkOk(h.m, h.C, p);
  }

  lemma ReleaseIs(h: H, p: int, n: int)
    ensures Release(h, p, n) == h.(m := SetFreeWithPinuse(h.m, p, n - p, n), C := Merged(h.C, p, n, Free))
  {
  }

  lemma StartsLow(h: H, u: set<int>, x: int, p: int)
    requires Inv(h, u) && p in h.C && (p == x || p + h.C[p].size == x)
    ensures p <= x
  {
    assert ChunkOk(h.m, h.C, p);
  }

  /** The state to merge in: without the designated victim when that is what x is merged with. */
  ghost function Yielded(h: H, p: int): H {
    if p == h.dv then DropDv(h) else h
  }

  /** Before x lies nothing to merge with, a chunk taken out of its bin, or the designated victim. */
  ghost predicate Ahead(h: H, u: set<int>, x: int, p: int) {
    if p == h.dv then u == {} && Starts(DropDv(h), {p}, x, p)
    else u == (if p == x then {} else {p}) && Starts(h, u, x, p)
  }

  lemma AheadYields(h: H, u: set<int>, x: int, p: int)
    requires Inv(h, u) && Ahead(h, u, x, p)
    ensures var g, v := Yielded(h, p), if p == x then {} else {p};
            Inv(g, v) && Starts(g, v, x, p) && Same(h, g) && p <= x && h.C[p].size > 0 && h.C[x].size > 0
  {
    if p == h.dv {
      DvNonZero(h, u, p);
      DropDvSame(h, u);
      assert {} + {p} == {p};
    } else {
      SameRefl(h);
    }
    assert ChunkOk(h.m, h.C, p);
    assert ChunkOk(h.m, h.C, x);
  }

  /** The chunk before a block, from which the merged chunk starts, is free. */
  lemma AheadIdle(h: H, u: set<int>, x: int, p: int)
    requires Inv(h, u) && Ahead(h, u, x, p)
    ensures x in h.C && h.C[x].kind == Live
    ensures p in h.C && (p == x || (p < x && h.C[p].kind == Free && p + h.C[p].size == x))
  {
    var g, v := Yielded(h, p), if p == x then {} else {p};
    AheadYields(h, u, x, p);
    if p != x { LooseSpan(g, v, p); }
  }

  /** Merged with what is free before and behind it, a block becomes free memory, and nothing else does. */
  lemma FreedReturns(h: H, u: set<int>, x: int, p: int, hi: int, k: Kind)
    requires Inv(h, u) && x in h.C && h.C[x].kind == Live && !InUse(k)
    requires p in h.C && (p == x || (p < x && h.C[p].kind == Free && p + h.C[p].size == x))
    requires var n := x + h.C[x].size; hi == n || (n in h.C && !InUse(h.C[n].kind) && hi == n + h.C[n].size)
    ensures Returns(h.C, Merged(h.C, p, hi, k), x)
  {
    var n := x + h.C[x].size;
    assert ChunkOk(h.m, h.C, x);
    if n in h.C { assert ChunkOk(h.m, h.C, n); }
    MergeReturns(h.C, x, p, hi, k);
  }

  lemma IntoTop(h: H, u: set<int>, x: int, p: int)
    requires Inv(h, u) && Ahead(h, u, x, p) && x + h.C[x].size == h.top
    ensures var h' := ReleaseTop(Yielded(h, p), p); Inv(h', {}) && Frees(h, h', x)
  {
    var g, v := Yielded(h, p), if p == x then {} else {p};
    AheadYields(h, u, x, p);
    JoinedTop(g, v, x, p);
    SameFrees(h, g, ReleaseTop(g, p), x);
  }

  lemma TopIdle(h: H, u: set<int>)
    requires Inv(h, u)
    ensures h.top in h.C && h.C[h.top].kind == Top && h.C[h.top].size == h.tops
  {
    TopEnd(h);
  }

  lemma TopReturns(h: H, u: set<int>, x: int, p: int)
    requires Inv(h, u) && Ahead(h, u, x, p) && x + h.C[x].size == h.top
    ensures Returns(h.C, Merged(h.C, p, h.top + h.tops, Top), x)
  {
    TopIdle(h, u);
    hide Inv, Merged, Returns, Starts, Ahead;
    AheadIdle(h, u, x, p);
    FreedReturns(h, u, x, p, h.top + h.tops, Top);
  }

  lemma DvReturns(h: H, u: set<int>, x: int, p: int)
    requires Inv(h, u) && x in h.C && h.C[x].kind == Live && h.dv == x + h.C[x].size && h.dv != h.top && p != h.dv
    requires u == (if p == x then {} else {p}) && Starts(h, u, x, p)
    ensures Returns(h.C, Merged(h.C, p, h.dv + h.dvs, Free), x)
  {
    assert Ahead(h, u, x, p);
    hide Inv, Merged, Returns, Starts, Ahead;
    AheadIdle(h, u, x, p);
    FreeReads(h, u, x);
    DvNonZero(h, u, h.dv);
    FreedReturns(h, u, x, p, h.dv + h.dvs, Free);
  }

  lemma SizePositive(h: H, u: set<int>, p: int)
    requires Inv(h, u) && p in h.C
    ensures h.C[p].size > 0
  {
    assert ChunkOk(h.m, h.C, p);
  }

  lemma JoinedReturns(h: H, u: set<int>, x: int, p: int, n: int)
    requires Ahead(h, u, x, p) && x in h.C && n == x + h.C[x].size && Inv(h, u + {n})
    requires n in h.C && h.C[n].kind == Free && n != h.top
    ensures Returns(h.C, Merged(h.C, p, n + h.C[n].size, Free), x)
  {
    hide Inv, Merged, Returns, Span;
    var v := u + {n};
    if p == h.dv { DvNonZero(h, v, p); } else if p != x { LooseSpan(h, v, p); }
    if p != x { SizePositive(h, v, p); }
    FreedReturns(h, v, x, p, n + h.C[n].size, Free);
  }

  lemma SizesUp(h: H, u: set<int>, x: int, p: int)
    requires Inv(h, u) && x in h.C && p in h.C && (p == x || p + h.C[p].size == x)
    requires x + h.C[x].size in h.C
    ensures p <= x < x + h.C[x].size < x + h.C[x].size + h.C[x + h.C[x].size].size
  {
    assert ChunkOk(h.m, h.C, p) && ChunkOk(h.m, h.C, x) && ChunkOk(h.m, h.C, x + h.C[x].size);
  }

  /** The block and the chunk n after it, taken out of its bin, make one free chunk. */
  lemma WithNext(h: H, u: set<int>, x: int, p: int, n: int)
    requires Inv(h, u) && Starts(h, u, x, p) && n == x + h.C[x].size && n in h.C && n != h.top
    requires u == (if p == x then {} else {p}) + {n}
    ensures var hi := n + h.C[n].size;
            Inv(Release(h, p, hi), {p}) && Frees(h, Release(h, p, hi), x)
            && p in Release(h, p, hi).C && Release(h, p, hi).C[p] == Chunk(hi - p, Free, true)
  {
    hide Inv, Frees, Release;
    SizesUp(h, u, x, p);
    Joined(h, u, x, p, n + h.C[n].size);
  }

  /** The designated victim p, the block, and the chunk n after it become the designated victim. */
  lemma WithBoth(h: H, x: int, p: int, n: int)
    requires Inv(h, {n}) && p == h.dv && Starts(DropDv(h), {p}, x, p) && n == x + h.C[x].size && n in h.C && n != h.top
    ensures var hi := n + h.C[n].size; var h' := Release(DropDv(h), p, hi).(dv := p, dvs := hi - p);
            Inv(h', {}) && Frees(h, h', x)
  {
    hide Inv, Frees, Release, Same;
    var g, hi := DropDv(h), n + h.C[n].size;
    DvNonZero(h, {n}, p);
    DropDvSame(h, {n});
    SizesUp(h, {n}, x, p);
    JoinedDv(g, {n} + {p}, x, p, hi);
    SameFrees(h, g, Release(g, p, hi).(dv := p, dvs := hi - p), x);
  }

  lemma NextNotLoose(h: H, u: set<int>, x: int, p: int)
    requires Inv(h, u) && Ahead(h, u, x, p)
    ensures x in h.C && p in h.C && x + h.C[x].size !in u
  {
    AheadYields(h, u, x, p);
  }

  // The designated victim.

  lemma VictimReads(h: H, nb: int, rsize: int)
    requires Inv(h, {}) && MIN_CHUNK_SIZE <= nb && nb % 8 == 0 && h.dvs == nb + rsize && rsize >= MIN_CHUNK_SIZE
    ensures var p := h.dv;
            p in h.C && p % 8 == 0 && rsize % 8 == 0 && p + 8 in h.m && p + nb + 8 in h.m && p + nb + rsize in h.m
            && p > 0
  {
    assert ChunkOk(h.m, h.C, h.dv);
    HeadMapped(h, h.dv);
    HeadMapped(h, h.dv + h.dvs);
    assert h.dv + nb + 8 in h.m;
  }

  /** The designated victim, cut in two: the front is handed out, the rest is the new victim. */
  lemma SplitVictim(h: H, nb: int, rsize: int)
    requires Inv(h, {}) && MIN_CHUNK_SIZE <= nb && nb % 8 == 0 && h.dvs == nb + rsize && rsize >= MIN_CHUNK_SIZE
    ensures h.dv in h.C
    ensures var p := h.dv;
            var v := h.(m := SetFreeChunk(SetInuseChunk(h.m, p, nb), p + nb, rsize), C := SplitTwo(h.C, p, nb, Free),
                        dv := p + nb, dvs := rsize);
            Inv(v, {}) && Grants(h, v, p, nb) && Carves(h.C, v.C, p) && v.C[p].size == nb
  {
    hide Inv, Grants, Same, Carves, SplitTwo, SetFreeChunk, SetInuseChunk;
    var p, r, h1 := h.dv, h.dv + nb, DropDv(h);
    assert h.dv != 0 by { VictimReads(h, nb, rsize); }
    DropDvSame(h, {});
    assert {} + {p} == {p} && {p} - {p} + {r} == {r} && {r} - {r} == {};
    SplitGrants(h1, {p}, p, nb);
    var h2 := Split(h1, p, nb);
    SetDvSame(h2, {r}, r);
    GrantsSame(h1, h2, SetDv(h2, r), p, nb);
    SameGrants(h, h1, SetDv(h2, r), p, nb);
  }

  /** The block x, with what is before it, is merged with the designated victim after it. */
  lemma VictimJoins(h: H, u: set<int>, x: int, p: int)
    requires Inv(h, u) && x in h.C && h.C[x].kind == Live && h.dv == x + h.C[x].size && h.dv != h.top && p != h.dv
    requires u == (if p == x then {} else {p}) && Starts(h, u, x, p)
    ensures var hi := h.dv + h.dvs;
            && p % 8 == 0 && hi % 8 == 0 && p + 8 in h.m && hi in h.m && (hi - p) % 8 == 0 && p <= x
            && var v := h.(m := SetFreeChunk(h.m, p, hi - p), C := Merged(h.C, p, hi, Free), dv := p, dvs := hi - p);
               Inv(v, {}) && Frees(h, v, x)
  {
    hide Inv, Frees, Same, SetFreeChunk, Merged, SetFreeWithPinuse;
    FreeReads(h, u, x);
    LooseMapped(h, u, p);
    StartsLow(h, u, x, p);
    DvNonZero(h, u, h.dv);
    DropDvSame(h, u);
    var h1, hi := DropDv(h), h.dv + h.dvs;
    JoinedDv(h1, u + {h.dv}, x, p, hi);
    SameFrees(h, h1, Release(h1, p, hi).(dv := p, dvs := hi - p), x);
    ReleaseMem(h, u, x, p, h.dv, hi);
  }

  // What the methods that write the tags of a merged chunk need.

  ghost function WithPinuse(h: H, p: int, hi: int): H {
    h.(m := SetFreeWithPinuse(h.m, p, hi - p, hi), C := Merged(h.C, p, hi, Free))
  }

  lemma JoinReady(h: H, u: set<int>, x: int, p: int, hi: int)
    requires Inv(h, u) && Starts(h, u, x, p) && EndsAt(h, u, x, hi) && x + h.C[x].size != h.top
    requires forall q {:trigger q in u} :: q in u ==> p <= q < hi
    ensures p % 8 == 0 && hi % 8 == 0 && (hi - p) % 8 == 0 && p + 8 in h.m && hi in h.m && hi + 8 in h.m
    ensures var h' := WithPinuse(h, p, hi); Inv(h', {p}) && Frees(h, h', x) && p in h'.C && h'.C[p].size == hi - p
  {
    hide Inv, Frees, SetFreeWithPinuse, Starts, EndsAt, Merged;
    Joined(h, u, x, p, hi);
    JoinedIn(h, u, x, p);
    LooseMapped(h, u, p);
    LooseMapped(h, u, hi);
    ReleaseIs(h, p, hi);
    Difference8(hi, p);
  }

  lemma JoinedIn(h: H, u: set<int>, x: int, p: int)
    requires Starts(h, u, x, p)
    ensures p in h.C && x in h.C
  {
  }

  lemma Difference8(a: int, b: int)
    requires a % 8 == 0 && b % 8 == 0
    ensures (a - b) % 8 == 0
  {
  }

  /** What is ahead of x and nothing behind it. */
  lemma AloneReady(h: H, u: set<int>, x: int, p: int)
    requires Inv(h, u) && Ahead(h, u, x, p) && p != h.dv && x in h.C
    requires var n := x + h.C[x].size; n in h.C && InUse(h.C[n].kind)
    ensures var n := x + h.C[x].size;
            && p % 8 == 0 && n % 8 == 0 && (n - p) % 8 == 0 && p + 8 in h.m && n in h.m && n + 8 in h.m
            && var h' := WithPinuse(h, p, n); Inv(h', {p}) && Frees(h, h', x) && p in h'.C && h'.C[p].size == n - p
  {
    hide Inv, Frees, WithPinuse, Starts;
    AheadYields(h, u, x, p);
    NotTop(h, u, x + h.C[x].size);
    JoinReady(h, u, x, p, x + h.C[x].size);
  }

  lemma NotTop(h: H, u: set<int>, n: int)
    requires Inv(h, u) && n in h.C && InUse(h.C[n].kind)
    ensures n != h.top
  {
  }

  /** What is ahead of x, and the chunk behind it, taken out of its bin. */
  lemma BehindReady(h: H, u: set<int>, x: int, p: int)
    requires Ahead(h, u, x, p) && x in h.C
    requires var n := x + h.C[x].size; Inv(h, u + {n}) && n in h.C && h.C[n].kind == Free && n != h.top
    ensures var n := x + h.C[x].size; var hi := n + h.C[n].size;
            var v := h.(m := SetFreeChunk(h.m, p, hi - p), C := Merged(h.C, p, hi, Free));
            && p % 8 == 0 && (hi - p) % 8 == 0 && p + 8 in h.m && hi in h.m
            && if p == h.dv then Inv(v.(dvs := hi - p), {}) && Frees(h, v.(dvs := hi - p), x)
               else Inv(v, {p}) && Frees(h, v, x) && p in v.C && v.C[p].size == hi - p
  {
    hide Inv, Frees, Starts, Merged, SetFreeWithPinuse, SetFreeChunk;
    var n := x + h.C[x].size;
    var v, hi := u + {n}, n + h.C[n].size;
    AheadIn(h, u, x, p);
    LooseMapped(h, v, p);
    FreeReads(h, v, x);
    SizesUp(h, v, x, p);
    ReleaseMem(h, v, x, p, n, hi);
    Difference8(hi, p);
    ReleaseIs(h, p, hi);
    ReleaseIs(DropDv(h), p, hi);
    if p == h.dv {
      assert v == {n};
      WithBoth(h, x, p, n);
    } else {
      LooseGrows(h, u, x, p, n);
      WithNext(h, v, x, p, n);
    }
  }

  lemma AheadIn(h: H, u: set<int>, x: int, p: int)
    requires Ahead(h, u, x, p)
    ensures p in h.C && x in h.C && h.C[x].kind == Live && (p == x || p + h.C[p].size == x)
  {
  }

  lemma LooseGrows(h: H, u: set<int>, x: int, p: int, n: int)
    requires Ahead(h, u, x, p) && p != h.dv
    ensures Starts(h, u + {n}, x, p) && u + {n} == (if p == x then {} else {p}) + {n}
  {
  }
}
