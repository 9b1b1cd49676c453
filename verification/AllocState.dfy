/** The whole allocator state as a value, and its invariant. */
module AllocState {
  import opened AllocHeap
  import opened AllocRing
  import opened AllocIndex
  import opened AllocTrie
  import opened AllocTree

  const NSMALLBINS := 32
  const SEG_WORDS := 24
  const SEG_CHUNK_SIZE := 32
  const GRANULARITY := 0x2_0000

  /** A segment and the address of its record. */
  datatype Seg = Seg(base: int, size: int, rec: int) {
    function End(): int {
      base + size
    }
  }

  /**
   * Memory and the fields of malloc_state, with the ghost views of both: the chunks, the chunks of
   * each small bin in list order, the tries, and the list of segments from the head on.
   */
  datatype H = H(m: Mem, ms: int, sm: set<int>, tm: set<int>, dv: int, dvs: int, top: int, tops: int,
                 C: Chunks, sb: seq<seq<int>>, T: Trie, segs: seq<Seg>)

  function SB(ms: int, i: int): int {
    ms + SMALLBINS_OFS + 16 * i
  }

  predicate IsSmall(s: int) {
    s / 8 < NSMALLBINS
  }

  // Small bins.

  ghost predicate SmallBin(m: Mem, ms: int, sb: seq<seq<int>>, sm: set<int>, i: int)
    requires 0 <= i < |sb|
  {
    && (i in sm <==> sb[i] != [])
    && (sb[i] != [] ==> Ring(m, [SB(ms, i)] + sb[i]))
  }

  ghost predicate SmallStored(m: Mem, ms: int, sb: seq<seq<int>>, sm: set<int>) {
    && |sb| == NSMALLBINS
    && (forall i {:trigger SmallBin(m, ms, sb, sm, i)} :: 0 <= i < NSMALLBINS ==> SmallBin(m, ms, sb, sm, i))
    && (forall i {:trigger i in sm} :: i in sm ==> 0 <= i < NSMALLBINS)
  }

  ghost predicate SmallHolds(C: Chunks, sb: seq<seq<int>>, i: int, k: int)
    requires 0 <= i < |sb| && 0 <= k < |sb[i]|
  {
    var p := sb[i][k];
    p in C && C[p].kind == Free && C[p].size == 8 * i
  }

  ghost predicate SmallHeld(C: Chunks, sb: seq<seq<int>>) {
    forall i, k {:trigger SmallHolds(C, sb, i, k)} :: 0 <= i < |sb| && 0 <= k < |sb[i]| ==> SmallHolds(C, sb, i, k)
  }

  // Tree bins.

  ghost predicate TreeHolds(C: Chunks, T: Trie, s: int, k: int)
    requires s in T.tn && 0 <= k < |T.tn[s].ring|
  {
    var p := T.tn[s].ring[k];
    p in C && C[p].kind == Free && C[p].size == s
  }

  ghost predicate TreeHeld(C: Chunks, T: Trie) {
    forall s, k {:trigger TreeHolds(C, T, s, k)} :: s in T.tn && 0 <= k < |T.tn[s].ring| ==> TreeHolds(C, T, s, k)
  }

  // Every free chunk is in one place.

  ghost predicate InSmall(h: H, p: int)
    requires p in h.C
  {
    var i := h.C[p].size / 8;
    0 <= i < |h.sb| && p in h.sb[i]
  }

  ghost predicate InTree(h: H, p: int)
    requires p in h.C
  {
    h.C[p].size in h.T.tn && p in h.T.tn[h.C[p].size].ring
  }

  ghost predicate Binned(h: H, p: int)
    requires p in h.C
  {
    InSmall(h, p) || InTree(h, p)
  }

  ghost predicate Placed(h: H, p: int)
    requires p in h.C
  {
    p == h.dv || (if IsSmall(h.C[p].size) then InSmall(h, p) else InTree(h, p))
  }

  /** Every free chunk outside u is placed; those in u are in no place. */
  ghost predicate AllPlaced(h: H, u: set<int>) {
    && (forall p {:trigger Placed(h, p)} :: p in h.C && h.C[p].kind == Free && p !in u ==> Placed(h, p))
    && (forall p {:trigger p in u} :: p in u ==> p in h.C && h.C[p].kind == Free && !Binned(h, p) && p != h.dv)
  }

  ghost predicate DvOk(h: H) {
    && (h.dv == 0 <==> h.dvs == 0)
    && (h.dv != 0 ==> h.dv in h.C && h.C[h.dv].kind == Free && h.C[h.dv].size == h.dvs && !Binned(h, h.dv))
  }

  ghost predicate TopOk(h: H) {
    && h.top in h.C && h.C[h.top].kind == Top && h.C[h.top].size == h.tops
    && (forall p {:trigger h.C[p]} :: p in h.C && h.C[p].kind == Top ==> p == h.top)
  }

  ghost predicate StateOk(h: H) {
    && h.ms > 0 && h.ms % 8 == 0 && h.ms - 16 in h.C
    && h.C[h.ms - 16].kind == Sys && h.C[h.ms - 16].size == MSTATE_CHUNK_SIZE
  }

  // Segments.

  /** Where the chunks of segment k end. */
  ghost function Limit(h: H, k: int): int
    requires 0 <= k < |h.segs|
  {
    if k == 0 then h.top + h.tops else h.segs[k].End() - 8
  }

  /** A chunk lies outside segment k, or inside and is followed by another chunk or the end of the chunks. */
  ghost predicate InSeg(h: H, k: int, p: int)
    requires 0 <= k < |h.segs| && p in h.C
  {
    var n := p + h.C[p].size;
    || n + 8 <= h.segs[k].base
    || h.segs[k].End() <= p
    || (h.segs[k].base <= p && n <= Limit(h, k) && (n in h.C || n == Limit(h, k)))
  }

  ghost predicate SegTail(h: H, k: int, p: int)
    requires 0 <= k < |h.segs| && p in h.C
  {
    h.segs[k].rec - 16 <= p < h.segs[k].End() ==> h.C[p].kind == Sys
  }

  ghost predicate SegRecord(h: H, k: int)
    requires 0 <= k < |h.segs|
  {
    var sg := h.segs[k];
    && R(h.m, sg.rec) == sg.base && R(h.m, sg.rec + 8) == sg.size
    && R(h.m, sg.rec + 16) == if k + 1 < |h.segs| then h.segs[k + 1].rec else 0
  }

  /** The record of an older segment lies in a chunk of its own after which nothing is free or live. */
  ghost predicate OldSeg(h: H, k: int)
    requires 0 <= k < |h.segs|
  {
    var sg, rp := h.segs[k], h.segs[k].rec - 16;
    && rp in h.C && h.C[rp].kind == Sys && h.C[rp].size == SEG_CHUNK_SIZE && rp != h.ms - 16
    && sg.base <= rp && rp + SEG_CHUNK_SIZE + 8 <= sg.End()
    && (forall p {:trigger SegTail(h, k, p)} :: p in h.C ==> SegTail(h, k, p))
  }

  ghost predicate SegOk(h: H, k: int)
    requires 0 <= k < |h.segs|
  {
    var sg := h.segs[k];
    && sg.base > 0 && sg.base % 8 == 0 && sg.size % GRANULARITY == 0 && 0 < sg.size < SIZE_LIMIT && sg.rec > 0
    && sg.base in h.C && h.C[sg.base].pin
    && SegRecord(h, k)
    && (forall a {:trigger a in h.m} :: sg.base <= a < sg.End() ==> a in h.m)
    && (forall p {:trigger InSeg(h, k, p)} :: p in h.C ==> InSeg(h, k, p))
    && (k > 0 ==> OldSeg(h, k))
  }

  ghost predicate SegApart(h: H, j: int, k: int)
    requires 0 <= j < |h.segs| && 0 <= k < |h.segs|
  {
    j != k ==> h.segs[j].End() <= h.segs[k].base || h.segs[k].End() <= h.segs[j].base
  }

  ghost predicate HeldBy(segs: seq<Seg>, k: int, a: int) {
    0 <= k < |segs| && segs[k].base <= a < segs[k].End()
  }

  ghost predicate InSome(segs: seq<Seg>, a: int) {
    exists k :: HeldBy(segs, k, a)
  }

  /** Segments are all the memory there is. */
  ghost predicate Covered(m: Mem, segs: seq<Seg>) {
    forall a {:trigger a in m} :: a in m ==> InSome(segs, a)
  }

  ghost predicate SegsOk(h: H) {
    && |h.segs| > 0 && h.segs[0].rec == h.ms + SEG_OFS
    && h.segs[0].base <= h.top && h.top + h.tops + TOP_FOOT_SIZE == h.segs[0].End()
    && (forall k {:trigger SegOk(h, k)} :: 0 <= k < |h.segs| ==> SegOk(h, k))
    && (forall j, k {:trigger SegApart(h, j, k)} :: 0 <= j < |h.segs| && 0 <= k < |h.segs| ==> SegApart(h, j, k))
    && Covered(h.m, h.segs)
  }

  ghost predicate Low(m: Mem) {
    forall a {:trigger a in m} :: a in m ==> 0 < a < TWO64
  }

  ghost predicate HeapOk(h: H) {
    Tiled(h.m, h.C) && Mapped(h.m, h.C) && Low(h.m) && StateOk(h) && TopOk(h)
  }

  ghost predicate BinsOk(h: H) {
    && SmallStored(h.m, h.ms, h.sb, h.sm) && SmallHeld(h.C, h.sb)
    && Shape(h.T) && Stored(h.m, h.ms, h.T, h.tm) && TreeHeld(h.C, h.T)
  }

  /** The invariant; u holds the free chunks that an operation has taken out of their places. */
  ghost predicate Inv(h: H, u: set<int>) {
    HeapOk(h) && BinsOk(h) && AllPlaced(h, u) && DvOk(h) && SegsOk(h)
  }

  lemma InvParts(h: H, u: set<int>)
    requires Inv(h, u)
    ensures HeapOk(h) && BinsOk(h) && AllPlaced(h, u) && DvOk(h) && SegsOk(h)
  {
  }

  // Addresses.

  lemma ChunkPositive(h: H, p: int)
    requires HeapOk(h) && p in h.C
    ensures h.C[p].size > 0 && p > 0 && p in h.m
  {
    assert ChunkOk(h.m, h.C, p);
  }

  /** A chunk lies inside a segment, so it has a size that the tree index can tell apart. */
  lemma SizeBound(h: H, p: int)
    requires HeapOk(h) && SegsOk(h) && p in h.C
    ensures 0 < h.C[p].size < SIZE_LIMIT && p > 0
  {
    ChunkPositive(h, p);
    assert InSome(h.segs, p);
    var k :| HeldBy(h.segs, k, p);
    assert SegOk(h, k) && InSeg(h, k, p);
  }

  ghost predicate DistinctAt(r: seq<int>, j: int, k: int)
    requires 0 <= j < |r| && 0 <= k < |r|
  {
    j != k ==> r[j] != r[k]
  }

  ghost predicate Distinct(r: seq<int>) {
    forall j, k {:trigger DistinctAt(r, j, k)} :: 0 <= j < |r| && 0 <= k < |r| ==> DistinctAt(r, j, k)
  }

  lemma RingDistinct(m: Mem, r: seq<int>)
    requires Ring(m, r)
    ensures Distinct(r)
  {
    forall j, k | 0 <= j < |r| && 0 <= k < |r| ensures DistinctAt(r, j, k) {
      if j != k { assert SpacedAt(r, j, k); }
    }
  }

  lemma ChunksAway(h: H, p: int, q: int)
    requires HeapOk(h) && p in h.C && q in h.C && p != q
    ensures if p < q then p + h.C[p].size <= q else q + h.C[q].size <= p
  {
    assert Apart(h.C, p, q);
  }

  /** Different free chunks of tree size are far apart, and far from the state record. */
  lemma FarFromHeld(h: H, T: Trie)
    requires HeapOk(h) && TreeHeld(h.C, T)
    requires forall s {:trigger T.tn[s]} :: s in T.tn ==> s >= MIN_LARGE_SIZE && Distinct(T.tn[s].ring)
    ensures Far(h.ms, T)
  {
    hide TreeIndex;
    forall a, j, b, k | a in T.tn && b in T.tn && 0 <= j < |T.tn[a].ring| && 0 <= k < |T.tn[b].ring|
      ensures FarAt(T, a, j, b, k)
    {
      assert TreeHolds(h.C, T, a, j) && TreeHolds(h.C, T, b, k);
      if a == b { assert DistinctAt(T.tn[a].ring, j, k); }
      if a != b || j != k { ChunksAway(h, T.tn[a].ring[j], T.tn[b].ring[k]); }
    }
    forall a, j | a in T.tn && 0 <= j < |T.tn[a].ring| ensures OffState(h.ms, T, a, j) {
      assert TreeHolds(h.C, T, a, j);
      var y := T.tn[a].ring[j];
      ChunksAway(h, y, h.ms - 16);
      assert ChunkOk(h.m, h.C, y);
    }
  }

  lemma FarNow(h: H)
    requires HeapOk(h) && BinsOk(h)
    ensures Far(h.ms, h.T)
  {
    hide TreeIndex;
    forall s | s in h.T.tn ensures s >= MIN_LARGE_SIZE && Distinct(h.T.tn[s].ring) {
      assert ShapeOk(h.T, s) && NodeStored(h.m, h.ms, h.T, s);
      RingDistinct(h.m, h.T.tn[s].ring);
    }
    FarFromHeld(h, h.T);
  }

  // Words that are neither tags nor payload nor segment records.

  ghost predicate Idle(h: H, p: int, w: int)
    requires p in h.C
  {
    var c := h.C[p];
    && w != p + 8
    && (c.kind == Free ==> w != p + c.size)
    && (c.kind == Live || (c.kind == Sys && p != h.ms - 16) ==> !(p + 16 <= w < p + 8 + c.size))
  }

  ghost predicate Inner(h: H, w: int) {
    && (forall p {:trigger Idle(h, p, w)} :: p in h.C ==> Idle(h, p, w))
    && !(h.ms + SEG_OFS <= w < h.ms + SEG_OFS + SEG_WORDS)
    && w in h.m
  }

  lemma InnerFree(h: H, y: int, d: int)
    requires HeapOk(h) && y in h.C && h.C[y].kind == Free && 16 <= d && d + 8 <= h.C[y].size
    ensures Inner(h, y + d)
  {
    forall p | p in h.C ensures Idle(h, p, y + d) {
      if p != y { ChunksAway(h, p, y); assert ChunkOk(h.m, h.C, p); }
    }
    ChunksAway(h, y, h.ms - 16);
  }

  /** The bin words of the state record. */
  lemma InnerState(h: H, w: int)
    requires HeapOk(h) && h.ms + SMALLBINS_OFS <= w < h.ms + SEG_OFS
    ensures Inner(h, w)
  {
    var y := h.ms - 16;
    forall p | p in h.C ensures Idle(h, p, w) {
      if p != y { ChunksAway(h, p, y); assert ChunkOk(h.m, h.C, p); }
    }
    assert y in h.C && w < y + 8 + h.C[y].size;
  }

  /** m' differs from the memory of h only in words without tags, payload or records. */
  ghost predicate OnlyInner(h: H, m': Mem) {
    && (forall a {:trigger R(m', a)} :: R(m', a) != R(h.m, a) ==> Inner(h, a))
    && m'.Keys == h.m.Keys
  }

  lemma NotInner(h: H, p: int, w: int)
    requires p in h.C && !Idle(h, p, w)
    ensures !Inner(h, w)
  {
  }

  /** h' has the chunks, top and segments of h, and differs in memory only in idle words. */
  ghost predicate SameHeap(h: H, h': H) {
    && h'.C == h.C && h'.ms == h.ms && h'.top == h.top && h'.tops == h.tops && h'.segs == h.segs
    && OnlyInner(h, h'.m)
  }

  lemma InnerTiled(h: H, h': H)
    requires HeapOk(h) && SameHeap(h, h')
    ensures HeapOk(h')
  {
    forall p | p in h.C ensures ChunkOk(h'.m, h.C, p) { InnerChunk(h, h'.m, p); }
  }

  lemma InnerChunk(h: H, m': Mem, p: int)
    requires HeapOk(h) && OnlyInner(h, m') && p in h.C
    ensures ChunkOk(m', h.C, p)
  {
    assert ChunkOk(h.m, h.C, p);
    NotInner(h, p, p + 8);
    if h.C[p].kind == Free { NotInner(h, p, p + h.C[p].size); }
    if !h.C[p].pin { NotInner(h, p - R(h.m, p), p); }
  }

  lemma InnerRecord(h: H, h': H, k: int)
    requires HeapOk(h) && SegsOk(h) && SameHeap(h, h') && 0 <= k < |h.segs|
    ensures SegRecord(h', k)
  {
    assert SegOk(h, k);
    var rec := h.segs[k].rec;
    if k > 0 {
      assert OldSeg(h, k);
      NotInner(h, rec - 16, rec);
      NotInner(h, rec - 16, rec + 8);
      NotInner(h, rec - 16, rec + 16);
    }
  }

  lemma InnerOldSeg(h: H, h': H, k: int)
    requires 0 <= k < |h.segs| && OldSeg(h, k) && SameHeap(h, h')
    ensures OldSeg(h', k)
  {
    forall p | p in h'.C ensures SegTail(h', k, p) { assert SegTail(h, k, p); }
  }

  lemma InnerSegs(h: H, h': H)
    requires HeapOk(h) && SegsOk(h) && SameHeap(h, h')
    ensures SegsOk(h')
  {
    forall k | 0 <= k < |h.segs| ensures SegOk(h', k) {
      assert SegOk(h, k);
      InnerRecord(h, h', k);
      forall p | p in h.C ensures InSeg(h', k, p) { assert InSeg(h, k, p); }
      if k > 0 { InnerOldSeg(h, h', k); }
    }
    forall j, k | 0 <= j < |h.segs| && 0 <= k < |h.segs| ensures SegApart(h', j, k) { assert SegApart(h, j, k); }
  }

  // Live blocks.

  /** The block at q is live in h' as in h, with the same size and the same payload words. */
  ghost predicate BlockKept(h: H, h': H, q: int) {
    && q in h.C && q in h'.C && h.C[q].kind == Live && h'.C[q].kind == Live && h'.C[q].size == h.C[q].size
    && (forall a {:trigger R(h'.m, a)} :: q + 16 <= a < q + 8 + h.C[q].size ==> R(h'.m, a) == R(h.m, a))
  }

  /** Every live block but x keeps its size and its payload. */
  ghost predicate LiveKept(h: H, h': H, x: int) {
    forall q {:trigger BlockKept(h, h', q)} :: q in h.C && h.C[q].kind == Live && q != x ==> BlockKept(h, h', q)
  }

  /** Every live block keeps its size and its payload. */
  ghost predicate Keeps(h: H, h': H) {
    forall q {:trigger BlockKept(h, h', q)} :: q in h.C && h.C[q].kind == Live ==> BlockKept(h, h', q)
  }

  lemma KeepsAll(h: H, h': H)
    requires forall x {:trigger LiveKept(h, h', x)} :: LiveKept(h, h', x)
    ensures Keeps(h, h')
  {
    forall q | q in h.C && h.C[q].kind == Live ensures BlockKept(h, h', q) {
      assert LiveKept(h, h', q + 1);
      assert BlockKept(h, h', q);
    }
  }

  lemma KeepsTrans(h: H, h': H, h'': H)
    requires Keeps(h, h') && Keeps(h', h'')
    ensures Keeps(h, h'')
  {
    forall q | q in h.C && h.C[q].kind == Live ensures BlockKept(h, h'', q) {
      assert BlockKept(h, h', q) && BlockKept(h', h'', q);
    }
  }

  lemma KeepsThenBut(h: H, h': H, h'': H, x: int)
    requires Keeps(h, h') && LiveKept(h', h'', x)
    ensures LiveKept(h, h'', x)
  {
    forall q | q in h.C && h.C[q].kind == Live && q != x ensures BlockKept(h, h'', q) {
      assert BlockKept(h, h', q) && BlockKept(h', h'', q);
    }
  }

  lemma ButThenKeeps(h: H, h': H, h'': H, x: int)
    requires LiveKept(h, h', x) && Keeps(h', h'')
    ensures LiveKept(h, h'', x)
  {
    forall q | q in h.C && h.C[q].kind == Live && q != x ensures BlockKept(h, h'', q) {
      assert BlockKept(h, h', q) && BlockKept(h', h'', q);
    }
  }

  lemma InnerLive(h: H, h': H, x: int)
    requires HeapOk(h) && SameHeap(h, h')
    ensures LiveKept(h, h', x)
  {
    forall q | q in h.C && h.C[q].kind == Live ensures BlockKept(h, h', q) {
      forall a | q + 16 <= a < q + 8 + h.C[q].size ensures R(h'.m, a) == R(h.m, a) { NotInner(h, q, a); }
    }
  }
}
