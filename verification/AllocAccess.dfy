/** When the words an operation touches can be read and written, and what they hold. */
module AllocAccess {
  import opened AllocHeap
  import opened AllocRing
  import opened AllocIndex
  import opened AllocTrie
  import opened AllocTree
  import opened AllocSearch
  import opened AllocState
  import opened AllocLinks
  import opened AllocLinksLarge
  import opened AllocUnlink
  import opened AllocTags
  import opened AllocOps
  import opened AllocResize

  /** Memory is read and written only where it is mapped, at aligned addresses. */
  function Peek(m: Mem, a: int): (w: int)
    requires a in m && a % 8 == 0
    ensures w == R(m, a)
  {
    m[a]
  }

  function Poke(m: Mem, a: int, w: int): (m': Mem)
    requires a in m && a % 8 == 0
    ensures R(m', a) == w
  {
    m[a := w]
  }

  /** The words the bins use are mapped and aligned. */
  lemma SmallWords(h: H, i: int, k: int)
    requires HeapOk(h) && BinsOk(h) && 0 <= i < NSMALLBINS && 0 <= k <= |h.sb[i]|
    ensures var x := ([SB(h.ms, i)] + h.sb[i])[k]; x % 8 == 0 && x + FD in h.m && x + BK in h.m
  {
    SmallElement(h, i, k, FD);
    SmallElement(h, i, k, BK);
    if k > 0 { assert SmallHolds(h.C, h.sb, i, k - 1); assert ChunkOk(h.m, h.C, h.sb[i][k - 1]); }
  }

  /** The chunk at p is a chunk whose list words can be read and written. */
  ghost predicate Linkable(m: Mem, p: int) {
    p % 8 == 0 && p + FD in m && p + BK in m
  }

  /** The words that inserting chunk p into small bin i touches can be touched. */
  ghost predicate InsertReady(h: H, p: int, i: int) {
    && 0 <= i < |h.sb| && Linkable(h.m, SB(h.ms, i)) && Linkable(h.m, p)
    && (i in h.sm ==> Linkable(h.m, R(h.m, SB(h.ms, i) + FD)))
  }

  lemma InsertSmallReady(h: H, u: set<int>, p: int)
    requires Inv(h, u) && p in u && IsSmall(h.C[p].size)
    ensures InsertReady(h, p, h.C[p].size / 8)
  {
    LooseSpan(h, u, p);
    var i := h.C[p].size / 8;
    InnerFree(h, p, FD);
    InnerFree(h, p, BK);
    SmallWords(h, i, 0);
    assert SmallBin(h.m, h.ms, h.sb, h.sm, i);
    if i in h.sm {
      RingNeighbours(h.m, [SB(h.ms, i)] + h.sb[i], 0);
      SmallWords(h, i, Next(0, |h.sb[i]| + 1));
    }
  }

  /** The same for unlinking the k-th chunk of small bin i; its neighbours coincide when it is the only one. */
  ghost predicate UnlinkReady(h: H, i: int, k: int) {
    && 0 <= i < |h.sb| && 0 <= k < |h.sb[i]|
    && var p := h.sb[i][k];
       var f, b := R(h.m, p + FD), R(h.m, p + BK);
       && Linkable(h.m, p) && Linkable(h.m, f) && Linkable(h.m, b)
       && (f == b <==> |h.sb[i]| == 1) && f + BK != b + FD
       && (k == 0 ==> b == SB(h.ms, i))
  }

  lemma UnlinkSmallReady(h: H, u: set<int>, i: int, k: int)
    requires Inv(h, u) && 0 <= i < NSMALLBINS && 0 <= k < |h.sb[i]|
    ensures UnlinkReady(h, i, k)
    ensures Linkable(h.m, SB(h.ms, i)) && R(h.m, SB(h.ms, i) + FD) == h.sb[i][0]
    ensures h.sb[i][k] in h.C && h.C[h.sb[i][k]].size == 8 * i && h.C[h.sb[i][k]].kind == Free
  {
    var r := [SB(h.ms, i)] + h.sb[i];
    var n := |r|;
    assert r[k + 1] == h.sb[i][k];
    assert SmallHolds(h.C, h.sb, i, k);
    assert SmallBin(h.m, h.ms, h.sb, h.sm, i);
    RingNeighbours(h.m, r, k + 1);
    SmallWords(h, i, 0);
    SmallWords(h, i, k + 1);
    SmallWords(h, i, Next(k + 1, n));
    SmallWords(h, i, k);
    if n > 2 { assert SpacedAt(r, Next(k + 1, n), k); }
    RingNeighbours(h.m, r, 0);
  }

  /** Every word of a tree chunk can be read and written. */
  ghost predicate TreeChunk(m: Mem, t: int) {
    && t > 0 && t % 8 == 0 && t + 8 in m && t + FD in m && t + BK in m
    && t + CHILD0 in m && t + CHILD1 in m && t + PARENT in m && t + INDEX in m
  }

  function HeadAddr(m: Mem, t: int): (a: int)
    requires TreeChunk(m, t)
    ensures a == t + 8 && a in m && a % 8 == 0
  {
    t + 8
  }

  /** The tree chunk of size s can be read and its words say what the trie says. */
  ghost predicate NodeReady(h: H, s: int) {
    && s in h.T.tn && s != 0
    && var t := At(h.T, s);
       && TreeChunk(h.m, t) && ChunkSize(R(h.m, t + 8)) == s
       && R(h.m, t + CHILD0) == At(h.T, h.T.tn[s].l) && R(h.m, t + CHILD1) == At(h.T, h.T.tn[s].r)
       && (h.T.tn[s].l == 0 <==> At(h.T, h.T.tn[s].l) == 0) && (h.T.tn[s].r == 0 <==> At(h.T, h.T.tn[s].r) == 0)
  }

  lemma LooseTreeChunk(h: H, y: int)
    requires HeapOk(h) && BinsOk(h) && y in h.C && h.C[y].kind == Free && h.C[y].size >= MIN_LARGE_SIZE
    ensures TreeChunk(h.m, y) && ChunkSize(R(h.m, y + 8)) == h.C[y].size
  {
    assert ChunkOk(h.m, h.C, y);
    HeadMapped(h, y);
    HeadFields(h.C[y]);
    InnerFree(h, y, FD); InnerFree(h, y, BK); InnerFree(h, y, CHILD0); InnerFree(h, y, CHILD1);
    InnerFree(h, y, PARENT); InnerFree(h, y, INDEX);
  }

  lemma NodeIsReady(h: H, s: int)
    requires HeapOk(h) && BinsOk(h) && s in h.T.tn
    ensures NodeReady(h, s)
  {
    hide TreeIndex;
    NoZero(h.T);
    TreeSizes(h.T);
    FarNow(h);
    var t := h.T.tn[s];
    assert ShapeOk(h.T, s) && NodeStored(h.m, h.ms, h.T, s);
    assert TreeHolds(h.C, h.T, s, 0);
    LooseTreeChunk(h, t.ring[0]);
    if t.l != 0 { assert ShapeOk(h.T, t.l); assert OffState(h.ms, h.T, t.l, 0); }
    if t.r != 0 { assert ShapeOk(h.T, t.r); assert OffState(h.ms, h.T, t.r, 0); }
  }

  lemma InsertSite(h: H, u: set<int>, x: int, node: int)
    requires Inv(h, u) && x in u && x in h.C && h.C[x].size >= MIN_LARGE_SIZE && node in h.T.tn
    ensures NodeReady(h, node) && Away(x, At(h.T, node))
    ensures node == h.C[x].size ==> var f := R(h.m, At(h.T, node) + FD); f % 8 == 0 && f + BK in h.m
  {
    hide TreeIndex;
    NodeIsReady(h, node);
    TreeSizes(h.T);
    assert ShapeOk(h.T, node) && NodeStored(h.m, h.ms, h.T, node);
    assert TreeHolds(h.C, h.T, node, 0);
    ChunksAway(h, x, At(h.T, node));
    var r := h.T.tn[node].ring;
    RingNeighbours(h.m, r, 0);
    assert TreeHolds(h.C, h.T, node, Next(0, |r|));
    LooseTreeChunk(h, r[Next(0, |r|)]);
  }

  lemma BinWords(h: H, i: int)
    requires Inv0(h) && 0 <= i < NTREEBINS
    ensures TB(h.ms, i) % 8 == 0 && TB(h.ms, i) in h.m && i in h.T.rt
    ensures R(h.m, TB(h.ms, i)) == At(h.T, h.T.rt[i]) && (i in h.tm <==> h.T.rt[i] != 0)
  {
    hide TreeIndex;
    InnerState(h, TB(h.ms, i));
    assert i in h.T.rt;
    assert BinStored(h.m, h.ms, h.T, h.tm, i);
  }

  lemma InsertStart(h: H, u: set<int>, x: int)
    requires Inv(h, u) && x in u && x in h.C && h.C[x].size >= MIN_LARGE_SIZE
    ensures var s := h.C[x].size; var i := TreeIndex(s);
            && TreeChunk(h.m, x) && 0 <= i < NTREEBINS && MIN_LARGE_SIZE <= s < SIZE_LIMIT && i in h.T.rt
            && (h.T.rt[i] == 0 ==> Slot(h.T, s, 0, false) && s !in h.T.tn)
            && (h.T.rt[i] != 0 ==> h.T.rt[i] in h.T.tn && OnPath(h.T, s, h.T.rt[i], SizeBits(s, i)))
            && TB(h.ms, i) % 8 == 0 && TB(h.ms, i) in h.m && (TB(h.ms, i) < x + 16 || x + TCHUNK_SIZE <= TB(h.ms, i))
            && R(h.m, TB(h.ms, i)) == At(h.T, h.T.rt[i]) && (i in h.tm <==> h.T.rt[i] != 0)
    ensures Shape(h.T)
  {
    hide TreeIndex;
    var s := h.C[x].size;
    SizeBound(h, x);
    LooseTreeChunk(h, x);
    PathStart(h.T, s);
    BinWords(h, TreeIndex(s));
    if s in h.T.tn { RootExists(h.T, s); }
    ChunksAway(h, x, h.ms - 16);
  }

  /** One step of the walk that looks for the place of x. */
  lemma InsertWalk(h: H, u: set<int>, x: int, node: int, K: int)
    requires Inv(h, u) && x in u && x in h.C && h.C[x].size >= MIN_LARGE_SIZE && OnPath(h.T, h.C[x].size, node, K)
    ensures NodeReady(h, node) && Away(x, At(h.T, node)) && |h.T.tn[node].ring| > 0
    ensures node == h.C[x].size ==> var f := R(h.m, At(h.T, node) + FD); f % 8 == 0 && f + BK in h.m
    ensures node != h.C[x].size ==>
              var s, c := h.C[x].size, Kid(h.T, node, Side(K));
              && (c != 0 ==> OnPath(h.T, s, c, 2 * K % TWO64) && c in h.T.tn && 0 <= h.T.tn[c].e < h.T.tn[node].e)
              && (c == 0 ==> Slot(h.T, s, node, Side(K)) && s !in h.T.tn && h.T.tn[node].e >= 1)
  {
    hide TreeIndex;
    SizeBound(h, x);
    assert ShapeOk(h.T, node);
    InsertSite(h, u, x, node);
    if node != h.C[x].size { PathStep(h.T, h.C[x].size, node, K); }
  }

  lemma NewChunkReads(m: Mem, x: int, i: int, t: int)
    requires Away(x, t) && TreeChunk(m, t) && TreeChunk(m, x)
    ensures var m' := NewChunkMem(m, x, i);
            && TreeChunk(m', t) && TreeChunk(m', x)
            && R(m', t + 8) == R(m, t + 8) && R(m', t + FD) == R(m, t + FD)
            && R(m', t + CHILD0) == R(m, t + CHILD0) && R(m', t + CHILD1) == R(m, t + CHILD1)
            && (forall a {:trigger a in m'} :: a in m ==> a in m')
  {
  }

  /** What the walk reads at node, after x has been prepared. */
  lemma WalkReads(h: H, u: set<int>, x: int, node: int, K: int)
    requires Inv(h, u) && x in u && x in h.C && h.C[x].size >= MIN_LARGE_SIZE && OnPath(h.T, h.C[x].size, node, K)
    ensures node in h.T.tn && node != 0 && |h.T.tn[node].ring| > 0
    ensures var s, t := h.C[x].size, At(h.T, node); var m := NewChunkMem(h.m, x, TreeIndex(s));
            && TreeChunk(m, x) && TreeChunk(m, t) && (t + 8) % 8 == 0 && ChunkSize(R(m, t + 8)) == node
            && (node == s ==> var f := R(m, t + FD); f % 8 == 0 && f + BK in m)
            && (node != s ==>
                  var a, c := t + (if Side(K) then CHILD1 else CHILD0), Kid(h.T, node, Side(K));
                  && a in m && a % 8 == 0 && R(m, a) == At(h.T, c)
                  && (c != 0 ==>
                      R(m, a) != 0 && OnPath(h.T, s, c, 2 * K % TWO64) && c in h.T.tn
                          && 0 <= h.T.tn[c].e < h.T.tn[node].e)
                  && (c == 0 ==> R(m, a) == 0 && Slot(h.T, s, node, Side(K)) && s !in h.T.tn && h.T.tn[node].e >= 1))
  {
    hide TreeIndex, OnPath, Inv, Slot, Side, NewChunkMem, Shape;
    InsertStart(h, u, x);
    InsertWalk(h, u, x, node, K);
    NewChunkReads(h.m, x, TreeIndex(h.C[x].size), At(h.T, node));
  }

  lemma NewChunkBin(h: H, u: set<int>, x: int)
    requires Inv(h, u) && x in u && x in h.C && h.C[x].size >= MIN_LARGE_SIZE
    ensures var i := TreeIndex(h.C[x].size); var m, b := NewChunkMem(h.m, x, i), TB(h.ms, i);
            b in m && b % 8 == 0 && R(m, b) == R(h.m, b) && TreeChunk(m, x)
  {
    hide TreeIndex, OnPath, Inv, Slot, Side;
    InsertStart(h, u, x);
  }

  lemma SiteIn(m: Mem, t: int)
    requires TreeChunk(m, t)
    ensures t != 0 && t + CHILD0 in m && (t + CHILD0) % 8 == 0 && t + CHILD1 in m && (t + CHILD1) % 8 == 0
  {
  }
}
