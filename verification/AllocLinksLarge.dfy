/** Putting large free chunks into the tries and taking them out keeps the invariant. */
module AllocLinksLarge {
  import opened AllocHeap
  import opened AllocRing
  import opened AllocIndex
  import opened AllocTrie
  import opened AllocTree
  import opened AllocState
  import opened AllocLinks

  ghost function SetOf(r: seq<int>): set<int> {
    set x | x in r
  }

  /** Words that the operations on the tries may write. */
  ghost predicate TreeSpot(h: H, a: int) {
    Inner(h, a) && NotSmallWord(h, a)
  }

  ghost predicate OnlyTree(h: H, m': Mem) {
    && (forall a {:trigger R(m', a)} :: R(m', a) != R(h.m, a) ==> TreeSpot(h, a))
    && m'.Keys == h.m.Keys
  }

  lemma LargeSpot(h: H, y: int, d: int)
    requires HeapOk(h) && SmallHeld(h.C, h.sb) && |h.sb| == NSMALLBINS && y in h.C && h.C[y].kind == Free
             && h.C[y].size >= MIN_LARGE_SIZE
    requires 16 <= d < TCHUNK_SIZE
    ensures TreeSpot(h, y + d)
  {
    InnerFree(h, y, d);
    ChunkNotSmall(h, y, d);
  }

  lemma BinSpot(h: H, i: int)
    requires HeapOk(h) && SmallHeld(h.C, h.sb) && 0 <= i < NTREEBINS
    ensures TreeSpot(h, TB(h.ms, i))
  {
    InnerState(h, TB(h.ms, i));
    StateNotSmall(h, TB(h.ms, i));
  }

  lemma MemberSpot(h: H, s: int, k: int, d: int)
    requires HeapOk(h) && BinsOk(h) && s in h.T.tn && 0 <= k < |h.T.tn[s].ring| && 16 <= d < TCHUNK_SIZE
    ensures TreeSpot(h, h.T.tn[s].ring[k] + d)
  {
    hide TreeIndex;
    TreeSizes(h.T);
    assert TreeHolds(h.C, h.T, s, k);
    LargeSpot(h, h.T.tn[s].ring[k], d);
  }

  lemma SlotSpot(h: H, s: int, up: int, right: bool)
    requires HeapOk(h) && BinsOk(h)
    requires if up == 0 then 0 <= TreeIndex(s) < NTREEBINS else up in h.T.tn && |h.T.tn[up].ring| > 0
    ensures TreeSpot(h, SlotAddr(h.ms, h.T, s, up, right))
  {
    hide TreeIndex;
    if up == 0 { BinSpot(h, TreeIndex(s)); } else { MemberSpot(h, up, 0, if right then CHILD1 else CHILD0); }
  }

  /** What survives any change confined to tree words. */
  lemma OnlyTreeKeeps(h: H, h': H)
    requires HeapOk(h) && BinsOk(h) && SegsOk(h) && OnlyTree(h, h'.m)
    requires h'.C == h.C && h'.ms == h.ms && h'.top == h.top && h'.tops == h.tops && h'.segs == h.segs
    requires h'.sb == h.sb && h'.sm == h.sm
    ensures HeapOk(h') && SegsOk(h') && SmallStored(h'.m, h'.ms, h'.sb, h'.sm)
    ensures forall x {:trigger LiveKept(h, h', x)} :: LiveKept(h, h', x)
  {
    hide TreeIndex;
    InnerTiled(h, h');
    InnerSegs(h, h');
    SmallFrame(h, h'.m);
    forall x ensures LiveKept(h, h', x) { InnerLive(h, h', x); }
  }

  // Insertion.

  ghost function LinkLeaf(h: H, p: int, up: int, right: bool): H
    requires p in h.C
    requires up == 0 ==> 0 <= TreeIndex(h.C[p].size) < NTREEBINS
    requires up != 0 ==> up in h.T.tn && h.T.tn[up].e >= 1
  {
    var s := h.C[p].size;
    h.(m := AddLeafMem(h.m, p, TreeIndex(s), SlotAddr(h.ms, h.T, s, up, right), ParentAddr(h.ms, h.T, s, up)),
       T := AddLeaf(h.T, s, p, up, right), tm := h.tm + {TreeIndex(s)})
  }

  lemma LinkLeafMem(h: H, u: set<int>, p: int, up: int, right: bool)
    requires HeapOk(h) && BinsOk(h) && Loose(h, u, p) && Slot(h.T, h.C[p].size, up, right)
    ensures OnlyTree(h, LinkLeaf(h, p, up, right).m)
  {
    hide TreeIndex;
    if up != 0 { assert ShapeOk(h.T, up); }
    SlotSpot(h, h.C[p].size, up, right);
    LargeSpot(h, p, FD); LargeSpot(h, p, BK);
    LargeSpot(h, p, CHILD0); LargeSpot(h, p, CHILD1);
    LargeSpot(h, p, PARENT); LargeSpot(h, p, INDEX);
  }

  lemma LinkLeafHeld(h: H, u: set<int>, p: int, up: int, right: bool)
    requires HeapOk(h) && BinsOk(h) && Loose(h, u, p) && Slot(h.T, h.C[p].size, up, right)
    ensures TreeHeld(h.C, LinkLeaf(h, p, up, right).T) && Far(h.ms, LinkLeaf(h, p, up, right).T)
  {
    hide TreeIndex;
    var s, T' := h.C[p].size, LinkLeaf(h, p, up, right).T;
    TreeSizes(h.T);
    AddLeafExtends(h.T, s, p, up, right);
    forall a, k | a in T'.tn && 0 <= k < |T'.tn[a].ring| ensures TreeHolds(h.C, T', a, k) {
      if a != s { assert T'.tn[a].ring == h.T.tn[a].ring; assert TreeHolds(h.C, h.T, a, k); }
    }
    forall a | a in T'.tn ensures a >= MIN_LARGE_SIZE && Distinct(T'.tn[a].ring) {
      if a != s {
        assert T'.tn[a].ring == h.T.tn[a].ring;
        assert NodeStored(h.m, h.ms, h.T, a);
        RingDistinct(h.m, h.T.tn[a].ring);
      }
    }
    FarFromHeld(h, T');
  }

  lemma LinkLeafPlaced(h: H, u: set<int>, p: int, up: int, right: bool)
    requires Inv(h, u) && p in u && Slot(h.T, h.C[p].size, up, right)
    ensures var h' := LinkLeaf(h, p, up, right); AllPlaced(h', u - {p}) && DvOk(h')
  {
    hide TreeIndex;
    var s, h' := h.C[p].size, LinkLeaf(h, p, up, right);
    AddLeafExtends(h.T, s, p, up, right);
    forall q | q in h'.C && h'.C[q].kind == Free && q !in u - {p} ensures Placed(h', q) {
      if q != p {
        assert Placed(h, q);
        assert h.C[q].size in h.T.tn ==> h'.T.tn[h.C[q].size].ring == h.T.tn[h.C[q].size].ring;
      }
    }
    forall q | q in h'.C && q != p ensures Binned(h', q) ==> Binned(h, q) {
      assert h.C[q].size in h.T.tn ==> h'.T.tn[h.C[q].size].ring == h.T.tn[h.C[q].size].ring;
    }
  }

  /** Putting a loose chunk into the tries as a new leaf. */
  lemma LinkLeafInv(h: H, u: set<int>, p: int, up: int, right: bool)
    requires Inv(h, u) && p in u && Slot(h.T, h.C[p].size, up, right)
    ensures Inv(LinkLeaf(h, p, up, right), u - {p})
    ensures forall x {:trigger LiveKept(h, LinkLeaf(h, p, up, right), x)} :: LiveKept(h, LinkLeaf(h, p, up, right), x)
  {
    hide TreeIndex;
    var s, h' := h.C[p].size, LinkLeaf(h, p, up, right);
    LinkLeafMem(h, u, p, up, right);
    OnlyTreeKeeps(h, h');
    LinkLeafHeld(h, u, p, up, right);
    AddLeafShape(h.T, s, p, up, right);
    AddLeafStored(h.m, h.ms, h.T, h.tm, s, p, up, right);
    LinkLeafPlaced(h, u, p, up, right);
  }

  ghost function LinkRing(h: H, p: int): H
    requires p in h.C && h.C[p].size in h.T.tn && |h.T.tn[h.C[p].size].ring| > 0
  {
    var s := h.C[p].size;
    h.(m := AddRingMem(h.m, p, TreeIndex(s), At(h.T, s)), T := SetRing(h.T, s, Inserted(h.T.tn[s].ring, p)))
  }

  lemma LinkRingMem(h: H, u: set<int>, p: int)
    requires HeapOk(h) && BinsOk(h) && Loose(h, u, p) && h.C[p].size in h.T.tn && |h.T.tn[h.C[p].size].ring| > 0
    ensures OnlyTree(h, LinkRing(h, p).m)
  {
    hide TreeIndex;
    TreeSizes(h.T);
    var s := h.C[p].size;
    var r := h.T.tn[s].ring;
    assert NodeStored(h.m, h.ms, h.T, s);
    RingNeighbours(h.m, r, 0);
    MemberSpot(h, s, 0, FD);
    MemberSpot(h, s, Next(0, |r|), BK);
    LargeSpot(h, p, FD); LargeSpot(h, p, BK);
    LargeSpot(h, p, CHILD0); LargeSpot(h, p, CHILD1);
    LargeSpot(h, p, PARENT); LargeSpot(h, p, INDEX);
    assert TreeHolds(h.C, h.T, s, 0);
    ChunksAway(h, p, r[0]);
    assert R(NewChunkMem(h.m, p, TreeIndex(s)), r[0] + FD) == R(h.m, r[0] + FD);
  }

  lemma LinkRingHeld(h: H, u: set<int>, p: int)
    requires HeapOk(h) && BinsOk(h) && Loose(h, u, p) && h.C[p].size in h.T.tn && |h.T.tn[h.C[p].size].ring| > 0
    ensures TreeHeld(h.C, LinkRing(h, p).T) && Far(h.ms, LinkRing(h, p).T)
  {
    hide TreeIndex;
    var s, T' := h.C[p].size, LinkRing(h, p).T;
    TreeSizes(h.T);
    var r, r' := h.T.tn[s].ring, T'.tn[s].ring;
    forall a, k | a in T'.tn && 0 <= k < |T'.tn[a].ring| ensures TreeHolds(h.C, T', a, k) {
      if a != s { assert TreeHolds(h.C, h.T, a, k); }
      else if k != 1 { assert TreeHolds(h.C, h.T, s, if k == 0 then 0 else k - 1); }
    }
    forall a | a in T'.tn ensures a >= MIN_LARGE_SIZE && Distinct(T'.tn[a].ring) {
      assert NodeStored(h.m, h.ms, h.T, a);
      RingDistinct(h.m, h.T.tn[a].ring);
      if a == s { InsertedDistinct(r, p); }
    }
    FarFromHeld(h, T');
  }

  lemma InsertedDistinct(r: seq<int>, p: int)
    requires Distinct(r) && |r| > 0 && p !in r
    ensures Distinct(Inserted(r, p))
  {
    var r' := Inserted(r, p);
    forall j, k | 0 <= j < |r'| && 0 <= k < |r'| ensures DistinctAt(r', j, k) {
      if j != 1 && k != 1 { assert DistinctAt(r, if j == 0 then 0 else j - 1, if k == 0 then 0 else k - 1); }
    }
  }

  lemma LinkRingPlaced(h: H, u: set<int>, p: int)
    requires Inv(h, u) && p in u && h.C[p].size in h.T.tn && |h.T.tn[h.C[p].size].ring| > 0
    ensures var h' := LinkRing(h, p); AllPlaced(h', u - {p}) && DvOk(h')
  {
    hide TreeIndex;
    var s, h' := h.C[p].size, LinkRing(h, p);
    TreeSizes(h.T);
    var r := h.T.tn[s].ring;
    assert forall q {:trigger q in h'.T.tn[s].ring} :: q in h'.T.tn[s].ring <==> q == p || q in r by {
      assert r == [r[0]] + r[1..];
    }
    forall q | q in h'.C && h'.C[q].kind == Free && q !in u - {p} ensures Placed(h', q) {
      if q != p { assert Placed(h, q); }
    }
    forall q | q in h'.C && q != p ensures Binned(h', q) ==> Binned(h, q) { }
  }

  /** Putting a loose chunk into the ring of the chunks of its size. */
  lemma LinkRingInv(h: H, u: set<int>, p: int)
    requires Inv(h, u) && p in u && h.C[p].size in h.T.tn && |h.T.tn[h.C[p].size].ring| > 0
    ensures Inv(LinkRing(h, p), u - {p})
    ensures forall x {:trigger LiveKept(h, LinkRing(h, p), x)} :: LiveKept(h, LinkRing(h, p), x)
  {
    hide TreeIndex;
    var s, h' := h.C[p].size, LinkRing(h, p);
    LinkRingMem(h, u, p);
    OnlyTreeKeeps(h, h');
    LinkRingHeld(h, u, p);
    SetRingShape(h.T, s, Inserted(h.T.tn[s].ring, p));
    AddRingStored(h.m, h.ms, h.T, h.tm, s, p);
    LinkRingPlaced(h, u, p);
  }

  // Removal.

  /** The node of size s is a leaf and leaves the trie with its whole ring. */
  ghost function Uproot(h: H, s: int): H
    requires s in h.T.tn
  {
    h.(m := h.m[SlotOf(h.ms, h.T, s) := 0], T := DropLeaf(h.T, s), tm := MapWithout(h.T, h.tm, s))
  }

  lemma UprootMem(h: H, s: int)
    requires HeapOk(h) && BinsOk(h) && s in h.T.tn
    ensures OnlyTree(h, Uproot(h, s).m)
  {
    hide TreeIndex;
    assert ShapeOk(h.T, s);
    var up := h.T.tn[s].up;
    if up != 0 { assert ShapeOk(h.T, up); }
    SlotSpot(h, s, up, up in h.T.tn && h.T.tn[up].r == s);
  }

  lemma RingMembers(h: H, s: int, p: int)
    requires HeapOk(h) && BinsOk(h) && s in h.T.tn && p in SetOf(h.T.tn[s].ring)
    ensures p in h.C && h.C[p].kind == Free && h.C[p].size == s && InTree(h, p) && !InSmall(h, p) && p > 0
  {
    hide TreeIndex;
    TreeSizes(h.T);
    var k :| 0 <= k < |h.T.tn[s].ring| && h.T.tn[s].ring[k] == p;
    assert TreeHolds(h.C, h.T, s, k);
    assert ChunkOk(h.m, h.C, p);
  }

  lemma UprootPlaced(h: H, u: set<int>, s: int)
    requires Inv(h, u) && IsLeaf(h.T, s)
    ensures var h' := Uproot(h, s); AllPlaced(h', u + SetOf(h.T.tn[s].ring)) && DvOk(h') && TreeHeld(h'.C, h'.T)
  {
    hide TreeIndex;
    var h', w := Uproot(h, s), SetOf(h.T.tn[s].ring);
    TreeSizes(h.T);
    forall a, k | a in h'.T.tn && 0 <= k < |h'.T.tn[a].ring| ensures TreeHolds(h.C, h'.T, a, k) {
      assert TreeHolds(h.C, h.T, a, k);
    }
    forall q | q in h'.C && h'.C[q].kind == Free && q !in u + w ensures Placed(h', q) { assert Placed(h, q); }
    forall q | q in u + w ensures q in h'.C && h'.C[q].kind == Free && !Binned(h', q) && q != h'.dv {
      if q in w { RingMembers(h, s, q); }
    }
    forall q | q in h'.C ensures Binned(h', q) ==> Binned(h, q) { }
  }

  lemma UprootInv(h: H, u: set<int>, s: int)
    requires Inv(h, u) && IsLeaf(h.T, s)
    ensures Inv(Uproot(h, s), u + SetOf(h.T.tn[s].ring))
    ensures forall x {:trigger LiveKept(h, Uproot(h, s), x)} :: LiveKept(h, Uproot(h, s), x)
  {
    hide TreeIndex;
    UprootMem(h, s);
    OnlyTreeKeeps(h, Uproot(h, s));
    FarNow(h);
    DropLeafShape(h.T, s);
    DropLeafStored(h.m, h.ms, h.T, h.tm, s);
    UprootPlaced(h, u, s);
  }

  /** The k-th chunk of a ring leaves it; the first one stays. */
  ghost function UnlinkRing(h: H, s: int, k: int): H
    requires s in h.T.tn && 0 < k < |h.T.tn[s].ring|
  {
    h.(m := RingRemoveMem(h.m, h.T.tn[s].ring[k]), T := SetRing(h.T, s, Removed(h.T.tn[s].ring, k)))
  }

  lemma RingRemoveSpots(h: H, s: int, k: int)
    requires HeapOk(h) && BinsOk(h) && s in h.T.tn && 0 <= k < |h.T.tn[s].ring|
    ensures OnlyTree(h, RingRemoveMem(h.m, h.T.tn[s].ring[k]))
  {
    hide TreeIndex;
    var r := h.T.tn[s].ring;
    assert NodeStored(h.m, h.ms, h.T, s);
    RingNeighbours(h.m, r, k);
    MemberSpot(h, s, Next(k, |r|), BK);
    MemberSpot(h, s, Prev(k, |r|), FD);
  }

  lemma UnlinkRingPlaced(h: H, u: set<int>, s: int, k: int)
    requires Inv(h, u) && s in h.T.tn && 0 < k < |h.T.tn[s].ring|
    ensures var h' := UnlinkRing(h, s, k); AllPlaced(h', u + {h.T.tn[s].ring[k]}) && DvOk(h') && TreeHeld(h'.C, h'.T)
  {
    hide TreeIndex;
    var h', r := UnlinkRing(h, s, k), h.T.tn[s].ring;
    var p := r[k];
    TreeSizes(h.T);
    RingMembers(h, s, p);
    assert NodeStored(h.m, h.ms, h.T, s);
    RingDistinct(h.m, r);
    forall q ensures q != p ==> (q in h'.T.tn[s].ring <==> q in r) { RemovedMembers(r, k, q); }
    RemovedMembers(r, k, p);
    forall a, j | a in h'.T.tn && 0 <= j < |h'.T.tn[a].ring| ensures TreeHolds(h.C, h'.T, a, j) {
      assert TreeHolds(h.C, h.T, a, if a == s && j >= k then j + 1 else j);
    }
    forall q | q in h'.C && h'.C[q].kind == Free && q !in u + {p} ensures Placed(h', q) { assert Placed(h, q); }
    forall q | q in u + {p} ensures q in h'.C && h'.C[q].kind == Free && !Binned(h', q) && q != h'.dv { }
  }

  lemma UnlinkRingInv(h: H, u: set<int>, s: int, k: int)
    requires Inv(h, u) && s in h.T.tn && 0 < k < |h.T.tn[s].ring|
    ensures Inv(UnlinkRing(h, s, k), u + {h.T.tn[s].ring[k]})
    ensures forall x {:trigger LiveKept(h, UnlinkRing(h, s, k), x)} :: LiveKept(h, UnlinkRing(h, s, k), x)
  {
    hide TreeIndex;
    RingRemoveSpots(h, s, k);
    OnlyTreeKeeps(h, UnlinkRing(h, s, k));
    FarNow(h);
    SetRingShape(h.T, s, Removed(h.T.tn[s].ring, k));
    RemoveRingStored(h.m, h.ms, h.T, h.tm, s, k);
    UnlinkRingPlaced(h, u, s, k);
  }
}
