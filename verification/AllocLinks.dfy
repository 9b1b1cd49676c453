/** Putting free chunks into their bins and taking them out keeps the invariant. */
module AllocLinks {
  import opened AllocHeap
  import opened AllocRing
  import opened AllocIndex
  import opened AllocTrie
  import opened AllocTree
  import opened AllocState

  // Frames: which words the bins depend on.

  ghost predicate OutSmall(sb: seq<seq<int>>, i: int, k: int, a: int)
    requires 0 <= i < |sb| && 0 <= k < |sb[i]|
  {
    a < sb[i][k] + 16 || sb[i][k] + 32 <= a
  }

  ghost predicate NotSmallWord(h: H, a: int) {
    && (forall i, k {:trigger OutSmall(h.sb, i, k, a)} :: 0 <= i < |h.sb| && 0 <= k < |h.sb[i]| ==>
        OutSmall(h.sb, i, k, a))
    && !(h.ms + SMALLBINS_OFS <= a < h.ms + TREEBINS_OFS)
  }

  ghost predicate OutTree(T: Trie, s: int, k: int, a: int)
    requires s in T.tn && 0 <= k < |T.tn[s].ring|
  {
    a < T.tn[s].ring[k] + 16 || T.tn[s].ring[k] + TCHUNK_SIZE <= a
  }

  ghost predicate NotTreeWord(h: H, a: int) {
    && (forall s, k {:trigger OutTree(h.T, s, k, a)} :: s in h.T.tn && 0 <= k < |h.T.tn[s].ring| ==>
        OutTree(h.T, s, k, a))
    && !(h.ms + TREEBINS_OFS <= a < h.ms + SEG_OFS)
  }

  lemma SmallFrame(h: H, m': Mem)
    requires SmallStored(h.m, h.ms, h.sb, h.sm)
    requires forall a {:trigger R(m', a)} :: R(m', a) != R(h.m, a) ==> NotSmallWord(h, a)
    ensures SmallStored(m', h.ms, h.sb, h.sm)
  {
    forall i | 0 <= i < NSMALLBINS ensures SmallBin(m', h.ms, h.sb, h.sm, i) {
      assert SmallBin(h.m, h.ms, h.sb, h.sm, i);
      if h.sb[i] != [] {
        var r := [SB(h.ms, i)] + h.sb[i];
        forall k | 0 <= k < |r| ensures R(m', r[k] + FD) == R(h.m, r[k] + FD) && R(m', r[k] + BK) == R(h.m, r[k] + BK) {
          SmallWordKept(h, m', i, k, FD);
          SmallWordKept(h, m', i, k, BK);
        }
        RingFrame(h.m, m', r);
      }
    }
  }

  lemma SmallWordKept(h: H, m': Mem, i: int, k: int, d: int)
    requires |h.sb| == NSMALLBINS && 0 <= i < NSMALLBINS && 0 <= k <= |h.sb[i]| && (d == FD || d == BK)
    requires forall a {:trigger R(m', a)} :: R(m', a) != R(h.m, a) ==> NotSmallWord(h, a)
    ensures var x := ([SB(h.ms, i)] + h.sb[i])[k]; R(m', x + d) == R(h.m, x + d)
  {
    var x := ([SB(h.ms, i)] + h.sb[i])[k];
    if k > 0 && NotSmallWord(h, x + d) { assert OutSmall(h.sb, i, k - 1, x + d); }
  }

  lemma TreeFrame(h: H, m': Mem)
    requires Stored(h.m, h.ms, h.T, h.tm)
    requires forall a {:trigger R(m', a)} :: R(m', a) != R(h.m, a) ==> NotTreeWord(h, a)
    ensures Stored(m', h.ms, h.T, h.tm)
  {
    hide TreeIndex;
    forall s | s in h.T.tn ensures NodeStored(m', h.ms, h.T, s) {
      assert NodeStored(h.m, h.ms, h.T, s);
      var r := h.T.tn[s].ring;
      forall k | 0 <= k < |r| ensures KeptAt(h.m, m', r, k) && SameLinks(h.m, m', r[k]) {
        TreeWordsKept(h, m', s, k);
      }
      NodeKept(h.m, h.ms, h.T, m', h.T, s);
    }
    forall i | i in h.T.rt ensures BinStored(m', h.ms, h.T, h.tm, i) {
      assert BinStored(h.m, h.ms, h.T, h.tm, i);
    }
  }

  lemma TreeWordsKept(h: H, m': Mem, s: int, k: int)
    requires s in h.T.tn && 0 <= k < |h.T.tn[s].ring|
    requires forall a {:trigger R(m', a)} :: R(m', a) != R(h.m, a) ==> NotTreeWord(h, a)
    ensures SameBody(h.m, m', h.T.tn[s].ring[k]) && SameLinks(h.m, m', h.T.tn[s].ring[k])
  {
    var y := h.T.tn[s].ring[k];
    NotTree(h, s, k, y + FD);
    NotTree(h, s, k, y + BK);
    NotTree(h, s, k, y + CHILD0);
    NotTree(h, s, k, y + CHILD1);
    NotTree(h, s, k, y + PARENT);
    NotTree(h, s, k, y + INDEX);
  }

  lemma NotTree(h: H, s: int, k: int, a: int)
    requires s in h.T.tn && 0 <= k < |h.T.tn[s].ring| && !OutTree(h.T, s, k, a)
    ensures !NotTreeWord(h, a)
  {
  }

  /** Words of a chunk outside the tree are no tree words. */
  lemma ChunkNotTree(h: H, y: int, d: int)
    requires HeapOk(h) && TreeHeld(h.C, h.T) && y in h.C && !InTree(h, y) && 8 <= d < h.C[y].size + 8
    requires forall s {:trigger h.T.tn[s]} :: s in h.T.tn ==> s >= MIN_LARGE_SIZE
    requires y != h.ms - 16
    ensures NotTreeWord(h, y + d)
  {
    hide TreeIndex;
    var w := y + d;
    forall s, k | s in h.T.tn && 0 <= k < |h.T.tn[s].ring| ensures OutTree(h.T, s, k, w) {
      assert TreeHolds(h.C, h.T, s, k);
      if y != h.T.tn[s].ring[k] { ChunksAway(h, y, h.T.tn[s].ring[k]); }
    }
    ChunksAway(h, y, h.ms - 16);
  }

  lemma StateNotTree(h: H, w: int)
    requires HeapOk(h) && TreeHeld(h.C, h.T) && h.ms <= w < h.ms + TREEBINS_OFS
    requires forall s {:trigger h.T.tn[s]} :: s in h.T.tn ==> s >= MIN_LARGE_SIZE
    ensures NotTreeWord(h, w)
  {
    forall s, k | s in h.T.tn && 0 <= k < |h.T.tn[s].ring| ensures OutTree(h.T, s, k, w) {
      assert TreeHolds(h.C, h.T, s, k);
      ChunksAway(h, h.ms - 16, h.T.tn[s].ring[k]);
    }
  }

  lemma ChunkNotSmall(h: H, y: int, d: int)
    requires HeapOk(h) && SmallHeld(h.C, h.sb) && y in h.C && !InSmall(h, y) && 8 <= d < h.C[y].size + 8
    requires y != h.ms - 16
    ensures NotSmallWord(h, y + d)
  {
    var w := y + d;
    forall i, k | 0 <= i < |h.sb| && 0 <= k < |h.sb[i]| ensures OutSmall(h.sb, i, k, w) {
      assert SmallHolds(h.C, h.sb, i, k);
      assert ChunkOk(h.m, h.C, h.sb[i][k]);
      if y != h.sb[i][k] { ChunksAway(h, y, h.sb[i][k]); }
    }
    ChunksAway(h, y, h.ms - 16);
  }

  lemma StateNotSmall(h: H, w: int)
    requires HeapOk(h) && SmallHeld(h.C, h.sb) && h.ms + TREEBINS_OFS <= w < h.ms + SEG_OFS
    ensures NotSmallWord(h, w)
  {
    forall i, k | 0 <= i < |h.sb| && 0 <= k < |h.sb[i]| ensures OutSmall(h.sb, i, k, w) {
      assert SmallHolds(h.C, h.sb, i, k);
      assert ChunkOk(h.m, h.C, h.sb[i][k]);
      ChunksAway(h, h.ms - 16, h.sb[i][k]);
    }
  }

  lemma TreeSizes(T: Trie)
    requires Shape(T)
    ensures forall s {:trigger T.tn[s]} :: s in T.tn ==> s >= MIN_LARGE_SIZE
  {
    hide TreeIndex;
    forall s | s in T.tn ensures s >= MIN_LARGE_SIZE { assert ShapeOk(T, s); }
  }

  // Small bins.

  ghost function UnlinkSmall(h: H, i: int, k: int): H
    requires 0 <= i < |h.sb| && 0 <= k < |h.sb[i]|
  {
    if |h.sb[i]| == 1 then h.(sm := h.sm - {i}, sb := h.sb[i := []])
    else h.(m := RingRemoveMem(h.m, h.sb[i][k]), sb := h.sb[i := Removed(h.sb[i], k)])
  }

  function LinkSmallMem(h: H, p: int, i: int): Mem {
    var b := SB(h.ms, i);
    var f := if i in h.sm then R(h.m, b + FD) else b;
    h.m[b + FD := p][f + BK := p][p + FD := f][p + BK := b]
  }

  ghost function LinkSmall(h: H, p: int, i: int): H
    requires 0 <= i < |h.sb|
  {
    h.(m := LinkSmallMem(h, p, i), sm := h.sm + {i}, sb := h.sb[i := [p] + h.sb[i]])
  }

  /** An element of a small bin's ring: its link words are idle words outside the trees. */
  lemma SmallElement(h: H, i: int, k: int, d: int)
    requires HeapOk(h) && BinsOk(h) && 0 <= i < NSMALLBINS && 0 <= k <= |h.sb[i]| && (d == FD || d == BK)
    ensures var x := ([SB(h.ms, i)] + h.sb[i])[k]; Inner(h, x + d) && NotTreeWord(h, x + d)
  {
    TreeSizes(h.T);
    var x := ([SB(h.ms, i)] + h.sb[i])[k];
    if k == 0 {
      InnerState(h, x + d);
      StateNotTree(h, x + d);
    } else {
      assert SmallHolds(h.C, h.sb, i, k - 1);
      assert ChunkOk(h.m, h.C, x);
      InnerFree(h, x, d);
      ChunkNotTree(h, x, d);
    }
  }

  lemma UnlinkSmallMem(h: H, i: int, k: int)
    requires HeapOk(h) && BinsOk(h) && 0 <= i < NSMALLBINS && 0 <= k < |h.sb[i]|
    ensures OnlyInner(h, UnlinkSmall(h, i, k).m)
    ensures forall a {:trigger R(UnlinkSmall(h, i, k).m, a)} :: R(UnlinkSmall(h, i, k).m, a) != R(h.m, a) ==>
      NotTreeWord(h, a)
  {
    if |h.sb[i]| > 1 {
      var r := [SB(h.ms, i)] + h.sb[i];
      assert SmallBin(h.m, h.ms, h.sb, h.sm, i);
      assert r[k + 1] == h.sb[i][k];
      RingNeighbours(h.m, r, k + 1);
      SmallElement(h, i, Next(k + 1, |r|), BK);
      SmallElement(h, i, k, FD);
    }
  }

  lemma UnlinkSmallBins(h: H, i: int, k: int)
    requires HeapOk(h) && BinsOk(h) && 0 <= i < NSMALLBINS && 0 <= k < |h.sb[i]|
    ensures var h' := UnlinkSmall(h, i, k); SmallStored(h'.m, h'.ms, h'.sb, h'.sm)
  {
    var h' := UnlinkSmall(h, i, k);
    assert SmallBin(h.m, h.ms, h.sb, h.sm, i);
    forall j | 0 <= j < NSMALLBINS ensures SmallBin(h'.m, h'.ms, h'.sb, h'.sm, j) {
      assert SmallBin(h.m, h.ms, h.sb, h.sm, j);
      if |h.sb[i]| > 1 {
        var r := [SB(h.ms, i)] + h.sb[i];
        assert r[k + 1] == h.sb[i][k];
        if j == i {
          RingRemove(h.m, r, k + 1);
          assert Removed(r, k + 1) == [SB(h.ms, i)] + h'.sb[i];
        } else if h.sb[j] != [] {
          UnlinkSmallOther(h, i, k, j);
        }
      }
    }
  }

  /** The rings of different small bins share no words. */
  lemma SmallRingsApart(h: H, i: int, k: int, j: int, l: int)
    requires HeapOk(h) && SmallHeld(h.C, h.sb) && |h.sb| == NSMALLBINS
    requires 0 <= i < NSMALLBINS && 0 <= j < NSMALLBINS && i != j && 0 <= k <= |h.sb[i]| && 0 <= l <= |h.sb[j]|
    ensures var x, y := ([SB(h.ms, i)] + h.sb[i])[k], ([SB(h.ms, j)] + h.sb[j])[l]; x + 16 <= y || y + 16 <= x
  {
    var x, y := ([SB(h.ms, i)] + h.sb[i])[k], ([SB(h.ms, j)] + h.sb[j])[l];
    if k > 0 { assert SmallHolds(h.C, h.sb, i, k - 1); assert ChunkOk(h.m, h.C, x); ChunksAway(h, h.ms - 16, x); }
    if l > 0 { assert SmallHolds(h.C, h.sb, j, l - 1); assert ChunkOk(h.m, h.C, y); ChunksAway(h, h.ms - 16, y); }
    if k > 0 && l > 0 { ChunksAway(h, x, y); }
  }

  lemma UnlinkSmallOther(h: H, i: int, k: int, j: int)
    requires HeapOk(h) && BinsOk(h) && 0 <= i < NSMALLBINS && 0 <= k < |h.sb[i]| && |h.sb[i]| > 1
    requires 0 <= j < NSMALLBINS && i != j && h.sb[j] != []
    ensures Ring(UnlinkSmall(h, i, k).m, [SB(h.ms, j)] + h.sb[j])
  {
    assert SmallBin(h.m, h.ms, h.sb, h.sm, i) && SmallBin(h.m, h.ms, h.sb, h.sm, j);
    var r, q := [SB(h.ms, i)] + h.sb[i], [SB(h.ms, j)] + h.sb[j];
    var m' := UnlinkSmall(h, i, k).m;
    assert r[k + 1] == h.sb[i][k];
    RingNeighbours(h.m, r, k + 1);
    forall l | 0 <= l < |q| ensures R(m', q[l] + FD) == R(h.m, q[l] + FD) && R(m', q[l] + BK) == R(h.m, q[l] + BK) {
      SmallRingsApart(h, i, k, j, l);
      SmallRingsApart(h, i, Next(k + 1, |r|), j, l);
    }
    RingFrame(h.m, m', q);
  }

  lemma RemovedMembers(r: seq<int>, k: int, p: int)
    requires 0 <= k < |r| && Distinct(r)
    ensures r[k] !in Removed(r, k)
    ensures p != r[k] ==> (p in Removed(r, k) <==> p in r)
  {
    var r' := Removed(r, k);
    forall j | 0 <= j < |r'| ensures r'[j] != r[k] { assert DistinctAt(r, if j < k then j else j + 1, k); }
    if p in r && p != r[k] {
      var j :| 0 <= j < |r| && r[j] == p;
      assert r'[if j < k then j else j - 1] == p;
    }
  }

  lemma SmallDistinct(h: H, i: int)
    requires SmallStored(h.m, h.ms, h.sb, h.sm) && 0 <= i < NSMALLBINS
    ensures Distinct(h.sb[i])
  {
    assert SmallBin(h.m, h.ms, h.sb, h.sm, i);
    if h.sb[i] != [] {
      var r := [SB(h.ms, i)] + h.sb[i];
      forall j, k | 0 <= j < |h.sb[i]| && 0 <= k < |h.sb[i]| ensures DistinctAt(h.sb[i], j, k) {
        if j != k { assert SpacedAt(r, j + 1, k + 1); }
      }
    }
  }

  /** Taking a chunk out of a small bin. */
  lemma UnlinkSmallInv(h: H, u: set<int>, i: int, k: int)
    requires Inv(h, u) && 0 <= i < NSMALLBINS && 0 <= k < |h.sb[i]|
    ensures Inv(UnlinkSmall(h, i, k), u + {h.sb[i][k]})
    ensures forall x {:trigger LiveKept(h, UnlinkSmall(h, i, k), x)} :: LiveKept(h, UnlinkSmall(h, i, k), x)
  {
    hide TreeIndex;
    var h', p := UnlinkSmall(h, i, k), h.sb[i][k];
    UnlinkSmallMem(h, i, k);
    InnerTiled(h, h');
    InnerSegs(h, h');
    forall x ensures LiveKept(h, h', x) { InnerLive(h, h', x); }
    UnlinkSmallBins(h, i, k);
    TreeFrame(h, h'.m);
    assert SmallHeld(h'.C, h'.sb) by { UnlinkSmallHeld(h, i, k); }
    UnlinkSmallPlaced(h, u, i, k);
  }

  lemma UnlinkSmallHeld(h: H, i: int, k: int)
    requires SmallHeld(h.C, h.sb) && 0 <= i < |h.sb| && 0 <= k < |h.sb[i]|
    ensures SmallHeld(h.C, UnlinkSmall(h, i, k).sb)
  {
    var sb' := UnlinkSmall(h, i, k).sb;
    forall j, l | 0 <= j < |sb'| && 0 <= l < |sb'[j]| ensures SmallHolds(h.C, sb', j, l) {
      assert SmallHolds(h.C, h.sb, j, if j == i && l >= k then l + 1 else l);
    }
  }

  lemma UnlinkSmallPlaced(h: H, u: set<int>, i: int, k: int)
    requires Inv(h, u) && 0 <= i < NSMALLBINS && 0 <= k < |h.sb[i]|
    ensures var h' := UnlinkSmall(h, i, k); AllPlaced(h', u + {h.sb[i][k]}) && DvOk(h')
  {
    hide TreeIndex;
    var h', p := UnlinkSmall(h, i, k), h.sb[i][k];
    SmallDistinct(h, i);
    TreeSizes(h.T);
    assert SmallHolds(h.C, h.sb, i, k);
    forall q ensures q != p ==> (q in h'.sb[i] <==> q in h.sb[i]) { RemovedMembers(h.sb[i], k, q); }
    RemovedMembers(h.sb[i], k, p);
    forall q | q in h'.C && h'.C[q].kind == Free && q !in u + {p} ensures Placed(h', q) { assert Placed(h, q); }
    forall q | q in u + {p} ensures q in h'.C && h'.C[q].kind == Free && !Binned(h', q) && q != h'.dv {
      if q == p { assert InSmall(h, p); assert ChunkOk(h.m, h.C, p); }
    }
  }

  ghost predicate Loose(h: H, u: set<int>, p: int) {
    p in u && p in h.C && h.C[p].kind == Free && !Binned(h, p) && p != h.dv
  }

  lemma LinkSmallMemOk(h: H, u: set<int>, p: int)
    requires HeapOk(h) && BinsOk(h) && Loose(h, u, p) && IsSmall(h.C[p].size) && h.C[p].size >= MIN_CHUNK_SIZE
    ensures var h' := LinkSmall(h, p, h.C[p].size / 8); OnlyInner(h, h'.m)
    ensures var h' := LinkSmall(h, p, h.C[p].size / 8);
            forall a {:trigger R(h'.m, a)} :: R(h'.m, a) != R(h.m, a) ==> NotTreeWord(h, a)
  {
    hide TreeIndex;
    TreeSizes(h.T);
    var i := h.C[p].size / 8;
    assert SmallBin(h.m, h.ms, h.sb, h.sm, i);
    SmallElement(h, i, 0, FD);
    SmallElement(h, i, 0, BK);
    if i in h.sm {
      var r := [SB(h.ms, i)] + h.sb[i];
      RingNeighbours(h.m, r, 0);
      SmallElement(h, i, Next(0, |r|), BK);
    }
    InnerFree(h, p, FD);
    InnerFree(h, p, BK);
    ChunkNotTree(h, p, FD);
    ChunkNotTree(h, p, BK);
  }

  lemma LinkSmallOwn(h: H, u: set<int>, p: int)
    requires HeapOk(h) && BinsOk(h) && Loose(h, u, p) && IsSmall(h.C[p].size) && h.C[p].size >= MIN_CHUNK_SIZE
    ensures var i := h.C[p].size / 8; Ring(LinkSmall(h, p, i).m, [SB(h.ms, i)] + ([p] + h.sb[i]))
  {
    hide TreeIndex;
    var i := h.C[p].size / 8;
    var b, h' := SB(h.ms, i), LinkSmall(h, p, i);
    assert SmallBin(h.m, h.ms, h.sb, h.sm, i);
    var r, r' := [b] + h.sb[i], [b, p] + h.sb[i];
    assert r' == [b] + ([p] + h.sb[i]);
    ChunksAway(h, h.ms - 16, p);
    forall j, k | 0 <= j < |r'| && 0 <= k < |r'| && j != k ensures SpacedAt(r', j, k) {
      LinkSmallSpaced(h, p, i, j, k);
    }
    if h.sb[i] == [] {
      assert r' == [b, p];
      assert Step(h'.m, r', 0) && Step(h'.m, r', 1);
    } else {
      assert Inserted(r, p) == r';
      RingInsert(h.m, r, p);
    }
  }

  lemma LinkSmallSpaced(h: H, p: int, i: int, j: int, k: int)
    requires HeapOk(h) && SmallStored(h.m, h.ms, h.sb, h.sm) && SmallHeld(h.C, h.sb) && 0 <= i < NSMALLBINS
    requires p in h.C && h.C[p].size >= MIN_CHUNK_SIZE && p !in h.sb[i] && p != h.ms - 16
    requires 0 <= j < |h.sb[i]| + 2 && 0 <= k < |h.sb[i]| + 2 && j != k
    ensures SpacedAt([SB(h.ms, i), p] + h.sb[i], j, k)
  {
    var r' := [SB(h.ms, i), p] + h.sb[i];
    assert SmallBin(h.m, h.ms, h.sb, h.sm, i);
    ChunksAway(h, h.ms - 16, p);
    if j >= 2 {
      assert SmallHolds(h.C, h.sb, i, j - 2);
      assert ChunkOk(h.m, h.C, r'[j]);
      ChunksAway(h, p, r'[j]);
      ChunksAway(h, h.ms - 16, r'[j]);
    }
    if k >= 2 {
      assert SmallHolds(h.C, h.sb, i, k - 2);
      assert ChunkOk(h.m, h.C, r'[k]);
      ChunksAway(h, p, r'[k]);
      ChunksAway(h, h.ms - 16, r'[k]);
    }
    if j >= 2 && k >= 2 {
      var r := [SB(h.ms, i)] + h.sb[i];
      assert SpacedAt(r, j - 1, k - 1);
    }
  }

  lemma LinkSmallOther(h: H, u: set<int>, p: int, j: int)
    requires HeapOk(h) && BinsOk(h) && Loose(h, u, p) && IsSmall(h.C[p].size) && h.C[p].size >= MIN_CHUNK_SIZE
    requires 0 <= j < NSMALLBINS && j != h.C[p].size / 8 && h.sb[j] != []
    ensures Ring(LinkSmall(h, p, h.C[p].size / 8).m, [SB(h.ms, j)] + h.sb[j])
  {
    hide TreeIndex;
    var i := h.C[p].size / 8;
    assert SmallBin(h.m, h.ms, h.sb, h.sm, i) && SmallBin(h.m, h.ms, h.sb, h.sm, j);
    var m', q := LinkSmall(h, p, i).m, [SB(h.ms, j)] + h.sb[j];
    var r := [SB(h.ms, i)] + h.sb[i];
    if i in h.sm { RingNeighbours(h.m, r, 0); }
    forall l | 0 <= l < |q| ensures R(m', q[l] + FD) == R(h.m, q[l] + FD) && R(m', q[l] + BK) == R(h.m, q[l] + BK) {
      SmallRingsApart(h, i, 0, j, l);
      if i in h.sm { SmallRingsApart(h, i, Next(0, |r|), j, l); }
      if l > 0 {
        assert SmallHolds(h.C, h.sb, j, l - 1);
        assert ChunkOk(h.m, h.C, q[l]);
        ChunksAway(h, p, q[l]);
      } else {
        ChunksAway(h, h.ms - 16, p);
      }
    }
    RingFrame(h.m, m', q);
  }

  lemma LinkSmallPlaced(h: H, u: set<int>, p: int)
    requires Inv(h, u) && p in u && MIN_CHUNK_SIZE <= h.C[p].size && IsSmall(h.C[p].size)
    ensures var h' := LinkSmall(h, p, h.C[p].size / 8); AllPlaced(h', u - {p}) && DvOk(h') && SmallHeld(h'.C, h'.sb)
  {
    hide TreeIndex;
    var i := h.C[p].size / 8;
    var h' := LinkSmall(h, p, i);
    TreeSizes(h.T);
    assert ChunkOk(h.m, h.C, p);
    assert forall q {:trigger q in h'.sb[i]} :: q in h'.sb[i] <==> q == p || q in h.sb[i];
    forall q | q in h'.C && h'.C[q].kind == Free && q !in u - {p} ensures Placed(h', q) {
      if q != p { assert Placed(h, q); }
    }
    forall q | q in u - {p} ensures q in h'.C && h'.C[q].kind == Free && !Binned(h', q) && q != h'.dv { }
    forall j, l | 0 <= j < |h'.sb| && 0 <= l < |h'.sb[j]| ensures SmallHolds(h'.C, h'.sb, j, l) {
      if j != i { assert SmallHolds(h.C, h.sb, j, l); }
      else if l > 0 { assert SmallHolds(h.C, h.sb, j, l - 1); }
    }
  }

  /** Putting a loose small chunk into its bin. */
  lemma LinkSmallInv(h: H, u: set<int>, p: int)
    requires Inv(h, u) && p in u && MIN_CHUNK_SIZE <= h.C[p].size && IsSmall(h.C[p].size)
    ensures Inv(LinkSmall(h, p, h.C[p].size / 8), u - {p})
    ensures forall x {:trigger LiveKept(h, LinkSmall(h, p, h.C[p].size / 8), x)} ::
      LiveKept(h, LinkSmall(h, p, h.C[p].size / 8), x)
  {
    hide TreeIndex;
    var i := h.C[p].size / 8;
    var h' := LinkSmall(h, p, i);
    assert ChunkOk(h.m, h.C, p);
    LinkSmallMemOk(h, u, p);
    InnerTiled(h, h');
    InnerSegs(h, h');
    forall x ensures LiveKept(h, h', x) { InnerLive(h, h', x); }
    TreeFrame(h, h'.m);
    LinkSmallPlaced(h, u, p);
    forall j | 0 <= j < NSMALLBINS ensures SmallBin(h'.m, h'.ms, h'.sb, h'.sm, j) {
      assert SmallBin(h.m, h.ms, h.sb, h.sm, j);
      if j == i { LinkSmallOwn(h, u, p); } else if h.sb[j] != [] { LinkSmallOther(h, u, p, j); }
    }
  }
}
