/** The best-fit search of tmalloc_large and tmalloc_small, with its unsigned remainders. */
module AllocFit {
  import opened AllocHeap
  import opened AllocIndex
  import opened AllocTrie
  import opened AllocTree
  import opened AllocSearch
  import opened AllocState
  import opened AllocLinks
  import opened AllocTags
  import opened AllocAccess
  import opened AllocSites

  /** The remainder that goes with the best size seen so far. */
  function RSize(nb: int, vs: int): int {
    if vs == 0 then TWO64 - nb else vs - nb
  }

  /** Comparing remainders modulo 2^64 picks the smallest size that fits. */
  lemma Trem(nb: int, vs: int, node: int)
    requires 0 < nb < TWO64 && 0 < node < SIZE_LIMIT && (vs == 0 || nb <= vs < SIZE_LIMIT)
    ensures var trem := (node - nb) % TWO64;
            && (trem < RSize(nb, vs) <==> Better(nb, vs, node) != vs)
            && (trem < RSize(nb, vs) ==> Better(nb, vs, node) == node && trem == RSize(nb, node))
  {
    if node >= nb { assert (node - nb) % TWO64 == node - nb; } else { assert (node - nb) % TWO64 == node - nb + TWO64; }
  }

  lemma AnyIndex(s: int)
    requires s >= 0
    ensures 0 <= TreeIndex(s) < NTREEBINS
  {
    var x := s / 256 % TWO32;
    if 0 < x <= 0xFFFF { FlsBound(x); }
  }

  /** The lowest index at or above i that is set, or NTREEBINS. */
  function Ffs(s: set<int>, i: int): (j: int)
    requires 0 <= i <= NTREEBINS
    ensures i <= j <= NTREEBINS && (j < NTREEBINS ==> j in s)
    ensures forall k {:trigger k in s} :: i <= k < j ==> k !in s
    decreases NTREEBINS - i
  {
    if i == NTREEBINS || i in s then i else Ffs(s, i + 1)
  }

  // The walk in the bin of nb. A request beyond any chunk size just runs through the trie.

  ghost predicate Walk(T: Trie, nb: int, node: int, K: int, rst: int, vs: int) {
    && node in T.tn && (rst == 0 || rst in T.tn) && vs != nb
    && if nb < SIZE_LIMIT then Descent(T, nb, node, K, rst, vs) else vs == 0
  }

  /** The sweep to the left that follows. */
  ghost predicate Scan(T: Trie, nb: int, t: int, vs: int) {
    && (t == 0 || t in T.tn) && SeenOk(T, nb, vs)
    && if nb < SIZE_LIMIT then Sweep(T, nb, t, vs) else vs == 0
  }

  /** Between the two: nothing is left of the bin but what rst and vs stand for. */
  ghost predicate Between(T: Trie, nb: int, rst: int, vs: int) {
    && (rst == 0 || rst in T.tn)
    && if nb < SIZE_LIMIT then AllCovered(T, nb, 0, rst, vs) && RestOk(T, nb, rst, 0) && SeenOk(T, nb, vs)
        && (vs != 0 ==> TreeIndex(vs) == TreeIndex(nb))
       else vs == 0
  }

  lemma WalkStart(T: Trie, nb: int)
    requires Shape(T) && MIN_LARGE_SIZE <= nb < TWO64
    ensures 0 <= TreeIndex(nb) < NTREEBINS && TreeIndex(nb) in T.rt
    ensures var i := TreeIndex(nb);
            if T.rt[i] != 0 then T.rt[i] in T.tn && Walk(T, nb, T.rt[i], SizeBits(nb, i), 0, 0)
            else Between(T, nb, 0, 0)
  {
    hide TreeIndex, Descent, AllCovered;
    AnyIndex(nb);
    var i := TreeIndex(nb);
    assert i in T.rt;
    assert RootOk(T, i);
    if nb < SIZE_LIMIT { DescentStart(T, nb); }
  }

  lemma VsIndex(T: Trie, nb: int, node: int, K: int, rst: int, vs: int)
    requires Shape(T) && Walk(T, nb, node, K, rst, vs)
    requires vs != 0 ==> TreeIndex(vs) == TreeIndex(nb)
    ensures nb < SIZE_LIMIT ==> var b := Better(nb, vs, node); b != 0 ==> TreeIndex(b) == TreeIndex(nb)
    ensures nb < SIZE_LIMIT ==> SeenOk(T, nb, vs)
    ensures MIN_LARGE_SIZE <= node < SIZE_LIMIT && T.tn[node].e >= 0 && (vs == 0 || nb <= vs < SIZE_LIMIT)
  {
    hide TreeIndex;
    assert ShapeOk(T, node);
    if vs != 0 { assert ShapeOk(T, vs); }
  }

  lemma WalkStep(T: Trie, nb: int, node: int, K: int, rst: int, vs: int)
    requires Shape(T) && Walk(T, nb, node, K, rst, vs) && node != nb && MIN_LARGE_SIZE <= nb < TWO64
    requires vs != 0 ==> TreeIndex(vs) == TreeIndex(nb)
    ensures var c, rst', vs' := Kid(T, node, Side(K)), NextRest(T, node, K, rst), Better(nb, vs, node);
            && (c != 0 ==> c in T.tn && Walk(T, nb, c, 2 * K % TWO64, rst', vs') && 0 <= T.tn[c].e < T.tn[node].e)
            && (c == 0 ==> Between(T, nb, rst', vs'))
            && (vs' != 0 ==> TreeIndex(vs') == TreeIndex(nb))
  {
    hide TreeIndex, Descent, AllCovered, Side;
    VsIndex(T, nb, node, K, rst, vs);
    assert ShapeOk(T, node);
    if Kid(T, node, Side(K)) != 0 { assert ShapeOk(T, Kid(T, node, Side(K))); }
    if nb < SIZE_LIMIT { DescentStep(T, nb, node, K, rst, vs); }
  }

  /** The walk meets a chunk of the very size. */
  lemma ExactFound(T: Trie, nb: int)
    requires Shape(T) && nb in T.tn
    ensures nb < SIZE_LIMIT && Scan(T, nb, nb, nb) && nb in T.tn
  {
    hide TreeIndex;
    assert ShapeOk(T, nb);
    forall a | a in T.tn && a >= nb ensures After(T, nb, nb, a) { }
  }

  lemma ScanFromRest(T: Trie, nb: int, rst: int, vs: int)
    requires Shape(T) && Between(T, nb, rst, vs) && MIN_LARGE_SIZE <= nb < TWO64 && (rst != 0 || vs != 0)
    ensures Scan(T, nb, rst, vs) && (rst != 0 ==> rst in T.tn) && (vs != 0 ==> vs in T.tn)
  {
    hide TreeIndex;
    if nb < SIZE_LIMIT { SweepRest(T, nb, rst, vs); }
  }

  /** Nothing in the bin of nb: go on with the next bin in use. */
  lemma ScanFromNext(T: Trie, nb: int, tm: set<int>)
    requires Shape(T) && Between(T, nb, 0, 0) && MIN_LARGE_SIZE <= nb < TWO64
    requires forall i {:trigger i in tm} :: i in tm <==> i in T.rt && T.rt[i] != 0
    ensures 0 <= TreeIndex(nb) < NTREEBINS
    ensures var j := Ffs(tm, TreeIndex(nb) + 1);
            if j == NTREEBINS then Scan(T, nb, 0, 0)
            else j in T.rt && Scan(T, nb, T.rt[j], 0) && T.rt[j] != 0 && T.rt[j] in T.tn
  {
    hide TreeIndex;
    AnyIndex(nb);
    var j := Ffs(tm, TreeIndex(nb) + 1);
    forall i | i in tm ensures 0 <= i < NTREEBINS { assert i in T.rt; }
    if j < NTREEBINS { assert RootOk(T, j); }
    if nb < SIZE_LIMIT { SweepNext(T, nb, tm, if j == NTREEBINS then 0 else j); }
  }

  lemma ScanStep(T: Trie, nb: int, t: int, vs: int)
    requires Shape(T) && Scan(T, nb, t, vs) && t != 0 && 0 < nb < TWO64
    ensures Scan(T, nb, Leftmost(T, t), Better(nb, vs, t))
    ensures Leftmost(T, t) != 0 ==> Leftmost(T, t) in T.tn && 0 <= T.tn[Leftmost(T, t)].e < T.tn[t].e
    ensures MIN_LARGE_SIZE <= t < SIZE_LIMIT && (vs == 0 || nb <= vs < SIZE_LIMIT) && T.tn[t].e >= 0
  {
    hide TreeIndex;
    assert ShapeOk(T, t);
    if vs != 0 { assert ShapeOk(T, vs); }
    if Leftmost(T, t) != 0 { assert ShapeOk(T, Leftmost(T, t)); }
    if nb < SIZE_LIMIT { SweepStep(T, nb, t, vs); }
  }

  lemma ScanEnd(T: Trie, nb: int, vs: int)
    requires Shape(T) && Scan(T, nb, 0, vs)
    ensures if vs == 0 then NoFit(T, nb) else Best(T, nb, vs) && nb <= vs < SIZE_LIMIT && vs in T.tn
  {
    hide TreeIndex;
    if nb < SIZE_LIMIT {
      SweepEnd(T, nb, vs);
      if vs != 0 { assert ShapeOk(T, vs); }
    } else {
      forall a | a in T.tn ensures a < nb { assert ShapeOk(T, a); }
    }
  }

  lemma ScanAll(T: Trie, nb: int, tm: set<int>)
    requires Shape(T) && 0 < nb < MIN_LARGE_SIZE && tm != {}
    requires forall k {:trigger k in tm} :: k in tm <==> k in T.rt && T.rt[k] != 0
    ensures var i := Ffs(tm, 0);
            i < NTREEBINS && i in T.rt && T.rt[i] != 0 && T.rt[i] in T.tn && Scan(T, nb, T.rt[i], 0)
  {
    hide TreeIndex;
    var k :| k in tm;
    assert k in T.rt;
    var i := Ffs(tm, 0);
    forall j | j in tm ensures i <= j { assert j in T.rt; }
    assert RootOk(T, i);
    SweepAll(T, nb, tm, i);
  }

  // What the search reads.

  lemma NodeReads(h: H, node: int)
    requires HeapOk(h) && BinsOk(h) && node in h.T.tn
    ensures var t := At(h.T, node);
            && t != 0 && TreeChunk(h.m, t) && ChunkSize(R(h.m, t + 8)) == node && node != 0
            && R(h.m, t + CHILD0) == At(h.T, h.T.tn[node].l) && R(h.m, t + CHILD1) == At(h.T, h.T.tn[node].r)
            && (h.T.tn[node].l == 0 <==> At(h.T, h.T.tn[node].l) == 0)
            && (h.T.tn[node].r == 0 <==> At(h.T, h.T.tn[node].r) == 0)
            && (At(h.T, h.T.tn[node].l) == 0 || At(h.T, h.T.tn[node].l) != At(h.T, h.T.tn[node].r))
  {
    NodeIsReady(h, node);
    FarNow(h);
    KidsDiffer(h.ms, h.T, node);
  }

  lemma TreeMapOf(h: H)
    requires HeapOk(h) && BinsOk(h)
    ensures forall i {:trigger i in h.tm} :: i in h.tm <==> i in h.T.rt && h.T.rt[i] != 0
    ensures forall i {:trigger i in h.T.rt} :: i in h.T.rt ==>
              TB(h.ms, i) in h.m && TB(h.ms, i) % 8 == 0 && R(h.m, TB(h.ms, i)) == At(h.T, h.T.rt[i])
              && (h.T.rt[i] == 0 <==> At(h.T, h.T.rt[i]) == 0)
  {
    hide TreeIndex;
    NoZero(h.T);
    forall i ensures i in h.tm <==> i in h.T.rt && h.T.rt[i] != 0 {
      if i in h.T.rt { assert BinStored(h.m, h.ms, h.T, h.tm, i); }
    }
    forall i | i in h.T.rt
      ensures TB(h.ms, i) in h.m && TB(h.ms, i) % 8 == 0 && R(h.m, TB(h.ms, i)) == At(h.T, h.T.rt[i])
              && (h.T.rt[i] == 0 <==> At(h.T, h.T.rt[i]) == 0)
    {
      assert BinStored(h.m, h.ms, h.T, h.tm, i) && RootOk(h.T, i);
      InnerState(h, TB(h.ms, i));
      if h.T.rt[i] != 0 { NodeReads(h, h.T.rt[i]); }
    }
  }

  // Where chunks are.

  lemma LinkedSame(h: H, h': H)
    requires Keeps(h, h')
    requires h'.C == h.C && h'.ms == h.ms && h'.top == h.top && h'.tops == h.tops && h'.dv == h.dv && h'.dvs == h.dvs
             && h'.segs == h.segs
    ensures SameChunks(h, h')
  {
  }

  lemma UnlinkedSame(h: H, i: int, k: int)
    requires 0 <= i < |h.sb| && 0 <= k < |h.sb[i]| && Keeps(h, UnlinkSmall(h, i, k))
    ensures SameChunks(h, UnlinkSmall(h, i, k))
  {
  }

  lemma PlacedNow(h: H, u: set<int>, p: int)
    requires Inv(h, u) && p in h.C && h.C[p].kind == Free && p !in u && p != h.dv
    ensures if IsSmall(h.C[p].size) then 0 <= h.C[p].size / 8 < NSMALLBINS == |h.sb| && p in h.sb[h.C[p].size / 8]
            else InTree(h, p)
  {
    assert Placed(h, p);
    assert ChunkOk(h.m, h.C, p);
  }

  lemma SmallMapOf(h: H, u: set<int>, i: int)
    requires Inv(h, u)
    ensures i in h.sm <==> 0 <= i < NSMALLBINS && i < |h.sb| && |h.sb[i]| > 0
  {
    if 0 <= i < NSMALLBINS { assert SmallBin(h.m, h.ms, h.sb, h.sm, i); }
  }

  lemma LooseNotDv(h: H, u: set<int>, p: int)
    requires Inv(h, u)
    ensures p == h.dv ==> p !in u
  {
  }

  lemma WithinMapped(h: H, p: int, d: int)
    requires HeapOk(h) && p in h.C && 0 <= d < h.C[p].size
    ensures p + d + 8 in h.m && p + 8 in h.m
  {
  }

  // Facts the methods use.

  lemma TrieOf(h: H)
    requires BinsOk(h)
    ensures Shape(h.T) && 0 !in h.T.tn
  {
    NoZero(h.T);
  }

  lemma AtZero(T: Trie)
    requires 0 !in T.tn
    ensures At(T, 0) == 0
  {
  }

  lemma NonZeroAt(h: H, node: int)
    requires HeapOk(h) && BinsOk(h)
    ensures node in h.T.tn ==> At(h.T, node) != 0
    ensures At(h.T, node) != 0 ==> node in h.T.tn && node != 0
  {
    NoZero(h.T);
    if node in h.T.tn { NodeReads(h, node); }
  }

  lemma NotExact(T: Trie, nb: int, node: int, K: int, rst: int, vs: int)
    requires Walk(T, nb, node, K, rst, vs) && 0 < nb < TWO64 && 0 < node < SIZE_LIMIT
             && (vs == 0 || nb <= vs < SIZE_LIMIT)
    requires (node - nb) % TWO64 >= RSize(nb, vs) || (node - nb) % TWO64 != 0
    ensures node != nb
  {
  }

  /** The unsigned comparison with what dv would leave over. */
  lemma FitCases(h: H, nb: int, best: int)
    requires HeapOk(h) && SegsOk(h) && DvOk(h) && 0 < nb < TWO64 && (best == 0 || nb <= best < SIZE_LIMIT)
    ensures 0 <= h.dvs < SIZE_LIMIT
    ensures best != 0 ==> (RSize(nb, best) < (h.dvs - nb) % TWO64 <==> !(nb <= h.dvs <= best))
  {
    if h.dv != 0 { SizeBound(h, h.dv); }
    if nb <= h.dvs {
      assert (h.dvs - nb) % TWO64 == h.dvs - nb;
    } else {
      assert (h.dvs - nb) % TWO64 == h.dvs - nb + TWO64;
    }
  }

  lemma FitExclusive(T: Trie, nb: int, best: int)
    ensures Best(T, nb, best) ==> !NoFit(T, nb)
  {
  }

  lemma BestOfAll(T: Trie, nb: int, best: int, node: int)
    requires node in T.tn && node >= nb && (if best == 0 then NoFit(T, nb) else Best(T, nb, best))
    ensures best != 0
  {
  }

  lemma BestChunk(h: H, nb: int, best: int)
    requires Inv(h, {}) && Best(h.T, nb, best)
    ensures var v := At(h.T, best);
            v in h.C && h.C[v].size == best && InTree(h, v) && best % 8 == 0
  {
    hide TreeIndex;
    assert ShapeOk(h.T, best);
    assert TreeHolds(h.C, h.T, best, 0);
    assert ChunkOk(h.m, h.C, h.T.tn[best].ring[0]);
  }

  lemma SameC(h: H, h': H)
    requires SameChunks(h, h')
    ensures h'.C == h.C && h'.dv == h.dv && h'.dvs == h.dvs && h'.top == h.top && h'.tops == h.tops
  {
  }

  lemma TopChunk(h: H)
    requires HeapOk(h)
    ensures h.top in h.C && h.C[h.top].size == h.tops
  {
  }
}
