/** What unlink_large_chunk reads and writes, and that it may. */
module AllocSites {
  import opened AllocHeap
  import opened AllocRing
  import opened AllocIndex
  import opened AllocTrie
  import opened AllocTree
  import opened AllocState
  import opened AllocLinks
  import opened AllocLinksLarge
  import opened AllocUnlink
  import opened AllocTags
  import opened AllocAccess

  /** The child word of y to follow: the right one when it is in use. */
  function LastKid(m: Mem, y: int): (a: int)
    requires TreeChunk(m, y)
    ensures a in m && a % 8 == 0
  {
    if Peek(m, y + CHILD1) != 0 then y + CHILD1 else y + CHILD0
  }

  /** The chunks and segments are the same, and so is every live block. */
  ghost predicate SameChunks(h: H, h': H) {
    && h'.C == h.C && h'.ms == h.ms && h'.top == h.top && h'.tops == h.tops && h'.dv == h.dv && h'.dvs == h.dvs
    && h'.segs == h.segs && Keeps(h, h')
  }

  /** x is a tree node, and slot is the word that points to it. */
  ghost predicate Pointed(m: Mem, ms: int, x: int, slot: int) {
    && TreeChunk(m, x) && (slot < x + 16 || x + TCHUNK_SIZE <= slot)
    && var xp, b := R(m, x + PARENT), TB(ms, R(m, x + INDEX));
       && xp != 0 && b in m && b % 8 == 0
       && (R(m, b) == x ==> slot == b)
       && (R(m, b) != x ==>
             xp % 8 == 0 && xp + CHILD0 in m && xp + CHILD1 in m
             && slot == xp + if R(m, xp + CHILD0) == x then CHILD0 else CHILD1)
  }

  ghost predicate KidMapped(m: Mem, x: int, d: int) {
    var c := R(m, x + d);
    c == 0 || (c % 8 == 0 && c + PARENT in m && Away(c, x))
  }

  /** y can take the place of x. */
  ghost predicate HeirOk(m: Mem, x: int, y: int) {
    TreeChunk(m, y) && Away(x, y) && KidMapped(m, x, CHILD0) && KidMapped(m, x, CHILD1)
  }

  lemma AtInjective(h: H, a: int, b: int)
    requires HeapOk(h) && BinsOk(h) && a in h.T.tn && b in h.T.tn && At(h.T, a) == At(h.T, b)
    ensures a == b
  {
    hide TreeIndex;
    FarNow(h);
    assert ShapeOk(h.T, a) && ShapeOk(h.T, b);
    assert FarAt(h.T, a, 0, b, 0);
  }

  lemma TreeChunkAt(h: H, s: int, k: int)
    requires HeapOk(h) && BinsOk(h) && s in h.T.tn && 0 <= k < |h.T.tn[s].ring|
    ensures TreeChunk(h.m, h.T.tn[s].ring[k])
  {
    hide TreeIndex;
    TreeSizes(h.T);
    assert TreeHolds(h.C, h.T, s, k);
    LooseTreeChunk(h, h.T.tn[s].ring[k]);
  }

  lemma SameKeys(m: Mem, m': Mem, t: int)
    requires TreeChunk(m, t) && m'.Keys == m.Keys
    ensures TreeChunk(m', t)
  {
    assert forall a {:trigger a in m} :: a in m ==> a in m';
  }

  ghost predicate LinksHold(h: H, m1: Mem, s: int)
    requires s in h.T.tn
  {
    && m1.Keys == h.m.Keys && BinsStored(m1, h.ms, h.T, h.tm) && Links(m1, h.ms, h.T, s)
    && (h.T.tn[s].up in h.T.tn ==> Links(m1, h.ms, h.T, h.T.tn[s].up))
    && R(m1, At(h.T, s) + INDEX) == TreeIndex(s)
  }

  /** The bin of s points to its chunk exactly when s is the root. */
  lemma RootPointed(h: H, m1: Mem, s: int)
    requires HeapOk(h) && BinsOk(h) && s in h.T.tn && LinksHold(h, m1, s)
    ensures R(m1, TB(h.ms, TreeIndex(s))) == At(h.T, s) <==> h.T.tn[s].up == 0
    ensures TB(h.ms, TreeIndex(s)) in m1 && TB(h.ms, TreeIndex(s)) % 8 == 0
  {
    hide TreeIndex;
    var i := TreeIndex(s);
    assert ShapeOk(h.T, s) && RootOk(h.T, i) && BinStored(m1, h.ms, h.T, h.tm, i);
    InnerState(h, TB(h.ms, i));
    RootExists(h.T, s);
    assert ShapeOk(h.T, h.T.rt[i]);
    if At(h.T, h.T.rt[i]) == At(h.T, s) { AtInjective(h, h.T.rt[i], s); }
  }

  /** The parent of s has exactly one child word that points to the chunk of s. */
  lemma ParentPointed(h: H, m1: Mem, s: int)
    requires HeapOk(h) && BinsOk(h) && s in h.T.tn && LinksHold(h, m1, s) && h.T.tn[s].up != 0
    ensures h.T.tn[s].up in h.T.tn
    ensures var xp := At(h.T, h.T.tn[s].up);
            && TreeChunk(m1, xp) && R(m1, At(h.T, s) + PARENT) == xp
            && SlotOf(h.ms, h.T, s) == xp + if R(m1, xp + CHILD0) == At(h.T, s) then CHILD0 else CHILD1
  {
    hide TreeIndex;
    var up := h.T.tn[s].up;
    NoZero(h.T);
    assert ShapeOk(h.T, s) && ShapeOk(h.T, up);
    TreeChunkAt(h, up, 0);
    SameKeys(h.m, m1, At(h.T, up));
    OnlyUpLinks(h.T, s, up);
    FarNow(h);
    assert OffState(h.ms, h.T, s, 0);
    if h.T.tn[up].l != s && h.T.tn[up].l != 0 {
      assert ShapeOk(h.T, h.T.tn[up].l);
      if At(h.T, h.T.tn[up].l) == At(h.T, s) { AtInjective(h, h.T.tn[up].l, s); }
    }
  }

  /** In any memory that still holds the links around s, they lead to its chunk. */
  lemma PointedNow(h: H, m1: Mem, s: int)
    requires HeapOk(h) && BinsOk(h) && s in h.T.tn && LinksHold(h, m1, s)
    ensures Pointed(m1, h.ms, At(h.T, s), SlotOf(h.ms, h.T, s))
    ensures R(m1, TB(h.ms, TreeIndex(s))) == At(h.T, s) <==> h.T.tn[s].up == 0
  {
    hide TreeIndex;
    FarNow(h);
    assert ShapeOk(h.T, s);
    TreeChunkAt(h, s, 0);
    SameKeys(h.m, m1, At(h.T, s));
    SlotAway(h.ms, h.T, s, s, 0);
    RootPointed(h, m1, s);
    assert h.ms > 0 && TB(h.ms, TreeIndex(s)) > 0;
    if h.T.tn[s].up != 0 { ParentPointed(h, m1, s); }
  }

  lemma KidMappedNow(h: H, m1: Mem, s: int, d: int)
    requires HeapOk(h) && BinsOk(h) && s in h.T.tn && m1.Keys == h.m.Keys && Links(m1, h.ms, h.T, s)
    requires d == CHILD0 || d == CHILD1
    ensures KidMapped(m1, At(h.T, s), d)
  {
    hide TreeIndex;
    FarNow(h);
    NoZero(h.T);
    assert ShapeOk(h.T, s);
    var c := if d == CHILD0 then h.T.tn[s].l else h.T.tn[s].r;
    if c != 0 {
      assert ShapeOk(h.T, c);
      TreeChunkAt(h, c, 0);
      SameKeys(h.m, m1, At(h.T, c));
      assert FarAt(h.T, c, 0, s, 0);
    }
  }

  /** When a swap is due, the words it needs are there. */
  lemma SwapSite(h: H, u: set<int>, m1: Mem, s: int, b: int, ring: seq<int>)
    requires Inv(h, u) && Swap(h, u, m1, s, b, ring) && R(m1, At(h.T, s) + INDEX) == TreeIndex(s)
    ensures Pointed(m1, h.ms, At(h.T, s), SlotOf(h.ms, h.T, s)) && HeirOk(m1, At(h.T, s), ring[0])
    ensures R(m1, TB(h.ms, TreeIndex(s))) == At(h.T, s) <==> h.T.tn[s].up == 0
  {
    hide TreeIndex;
    assert ShapeOk(h.T, s);
    var up := h.T.tn[s].up;
    if up in h.T.tn { NoUpLoop(h.T, s); assert NodeStored(m1, h.ms, h.T, up); }
    PointedNow(h, m1, s);
    KidMappedNow(h, m1, s, CHILD0);
    KidMappedNow(h, m1, s, CHILD1);
    CandidateFacts(h, u, s, b, ring, ring[0]);
    LooseTreeChunk(h, ring[0]);
    SameKeys(h.m, m1, ring[0]);
  }

  lemma NoUpLoop(T: Trie, s: int)
    requires Shape(T) && s in T.tn
    ensures T.tn[s].up != s
  {
    hide TreeIndex;
    NoZero(T);
    assert ShapeOk(T, s);
    if T.tn[s].up == s { UpIn(T, s); }
  }

  /** The chunk at place k of the ring of s, before it is unlinked. */
  lemma DetachStart(h: H, s: int, k: int)
    requires HeapOk(h) && BinsOk(h) && s in h.T.tn && 0 <= k < |h.T.tn[s].ring|
    ensures var r := h.T.tn[s].ring; var x := r[k]; var f, b := R(h.m, x + FD), R(h.m, x + BK);
            && TreeChunk(h.m, x) && f % 8 == 0 && f + BK in h.m && b % 8 == 0 && b + FD in h.m
            && (b == x <==> |r| == 1) && (k == 0 ==> b == r[|r| - 1])
            && (R(h.m, x + PARENT) == 0 <==> k > 0) && R(h.m, x + INDEX) == TreeIndex(s)
  {
    hide TreeIndex;
    var r := h.T.tn[s].ring;
    var n := |r|;
    assert NodeStored(h.m, h.ms, h.T, s) && ShapeOk(h.T, s);
    RingNeighbours(h.m, r, k);
    TreeChunkAt(h, s, k);
    TreeChunkAt(h, s, Next(k, n));
    TreeChunkAt(h, s, Prev(k, n));
    assert MemberOk(h.m, s, r[k], k);
    if n > 1 { assert SpacedAt(r, k, Prev(k, n)); }
    var up := h.T.tn[s].up;
    FarNow(h);
    if up != 0 { assert ShapeOk(h.T, up); assert OffState(h.ms, h.T, up, 0); }
  }

  /** The child the search for a leaf goes to. */
  function LastChild(T: Trie, node: int): int
    requires node in T.tn
  {
    if T.tn[node].r != 0 then T.tn[node].r else T.tn[node].l
  }

  lemma LeafWalk(h: H, node: int)
    requires HeapOk(h) && BinsOk(h) && node in h.T.tn
    ensures TreeChunk(h.m, At(h.T, node)) && h.T.tn[node].e >= 0
    ensures var c, a := LastChild(h.T, node), LastKid(h.m, At(h.T, node));
            && R(h.m, a) == At(h.T, c) && (c == 0 <==> At(h.T, c) == 0) && (c == 0 ==> IsLeaf(h.T, node))
            && (c != 0 ==> c in h.T.tn && h.T.tn[c].e < h.T.tn[node].e && h.T.tn[c].up == node && node != 0
                           && In(h.T, c, node) && a == SlotOf(h.ms, h.T, c))
  {
    hide TreeIndex;
    NodeIsReady(h, node);
    NoZero(h.T);
    assert ShapeOk(h.T, node);
    var c := LastChild(h.T, node);
    if c != 0 { assert ShapeOk(h.T, c); UpIn(h.T, c); OnlyUpLinks(h.T, c, node); }
  }

  // The four ways a chunk leaves the tries.

  lemma UnlinkedMember(h: H, u: set<int>, s: int, k: int)
    requires Inv(h, u) && s in h.T.tn && 0 < k < |h.T.tn[s].ring|
    ensures var h' := UnlinkRing(h, s, k); Inv(h', u + {h.T.tn[s].ring[k]}) && SameChunks(h, h')
  {
    UnlinkRingInv(h, u, s, k);
    KeepsAll(h, UnlinkRing(h, s, k));
  }

  lemma UnlinkedLeaf(h: H, u: set<int>, s: int)
    requires Inv(h, u) && IsLeaf(h.T, s) && |h.T.tn[s].ring| == 1
    ensures var h' := Uproot(h, s); Inv(h', u + {h.T.tn[s].ring[0]}) && SameChunks(h, h')
  {
    UprootInv(h, u, s);
    KeepsAll(h, Uproot(h, s));
    assert SetOf(h.T.tn[s].ring) == {h.T.tn[s].ring[0]};
  }

  lemma UnlinkedFirst(h: H, u: set<int>, s: int)
    requires Inv(h, u) && s in h.T.tn && |h.T.tn[s].ring| > 1
    ensures var r := h.T.tn[s].ring; var r' := Removed(Rotated(r), 1);
            && |r'| > 0 && r'[0] == r[|r| - 1] && Swap(h, u, RingRemoveMem(h.m, r[0]), s, s, r')
            && var h' := SwapIn(h, RingRemoveMem(h.m, r[0]), s, s, r');
               Inv(h', u + {r[0]}) && SameChunks(h, h')
  {
    hide TreeIndex;
    var r := h.T.tn[s].ring;
    var r' := Removed(Rotated(r), 1);
    RotateReady(h, u, s);
    assert NodeStored(h.m, h.ms, h.T, s);
    RingDistinct(h.m, r);
    RotateDistinct(r);
    var h' := SwapIn(h, RingRemoveMem(h.m, r[0]), s, s, r');
    SwapInv(h, u, RingRemoveMem(h.m, r[0]), s, s, r');
    KeepsAll(h, h');
    assert u - SetOf(r') == u by { forall q | q in u ensures q !in r' { LooseNotIn(h, u, s, q); } }
    assert (u - SetOf(r')) + (SetOf(r) - SetOf(r')) == u + {r[0]};
  }

  lemma LooseNotIn(h: H, u: set<int>, s: int, q: int)
    requires Inv(h, u) && s in h.T.tn && q in u
    ensures q !in h.T.tn[s].ring
  {
    if q in h.T.tn[s].ring { RingMembers(h, s, q); }
  }

  lemma UnlinkedNode(h: H, u: set<int>, s: int, b: int)
    requires Inv(h, u) && s in h.T.tn && |h.T.tn[s].ring| == 1 && IsLeaf(h.T, b) && b != s && In(h.T, b, s)
    ensures |h.T.tn[b].ring| > 0
    ensures var h1, r := Uproot(h, b), h.T.tn[b].ring;
            && s in h1.T.tn && Inv(h1, u + SetOf(r)) && Swap(h1, u + SetOf(r), h1.m, s, b, r)
            && var h' := SwapIn(h1, h1.m, s, b, r);
               Inv(h', u + {h.T.tn[s].ring[0]}) && SameChunks(h, h')
  {
    hide TreeIndex;
    var h1, r, x := Uproot(h, b), h.T.tn[b].ring, h.T.tn[s].ring[0];
    assert ShapeOk(h.T, b);
    UprootInv(h, u, b);
    KeepsAll(h, h1);
    LeafReady(h, u, s, b);
    LeafSets(h, u, s, b);
    hide Inv, Swap, Keeps, IsLeaf, In;
    var h' := SwapIn(h1, h1.m, s, b, r);
    SwapInv(h1, u + SetOf(r), h1.m, s, b, r);
    KeepsAll(h1, h');
    KeepsTrans(h, h1, h');
    assert SetOf(h1.T.tn[s].ring) == {x};
  }

  lemma LeafSets(h: H, u: set<int>, s: int, b: int)
    requires Inv(h, u) && s in h.T.tn && |h.T.tn[s].ring| == 1 && b in h.T.tn && b != s
    ensures var r, x := h.T.tn[b].ring, h.T.tn[s].ring[0]; (u + SetOf(r) - SetOf(r)) + ({x} - SetOf(r)) == u + {x}
  {
    var r, x := h.T.tn[b].ring, h.T.tn[s].ring[0];
    forall q | q in u ensures q !in r { LooseNotIn(h, u, b, q); }
    assert x !in r by { if x in r { RingMembers(h, b, x); assert x in SetOf(h.T.tn[s].ring); RingMembers(h, s, x); } }
  }

  /** The index and parent words of s's chunk are still there after the first step of unlinking. */
  lemma IndexKept(h: H, s: int)
    requires HeapOk(h) && BinsOk(h) && s in h.T.tn
    ensures var x := At(h.T, s);
            && R(h.m, x + INDEX) == TreeIndex(s)
            && R(RingRemoveMem(h.m, x), x + INDEX) == TreeIndex(s)
            && R(RingRemoveMem(h.m, x), x + PARENT) == R(h.m, x + PARENT)
  {
    hide TreeIndex;
    assert ShapeOk(h.T, s) && NodeStored(h.m, h.ms, h.T, s);
    var r := h.T.tn[s].ring;
    assert MemberOk(h.m, s, r[0], 0);
    FarNow(h);
    RingNeighbours(h.m, r, 0);
    assert FarAt(h.T, s, 0, s, Next(0, |r|)) && FarAt(h.T, s, 0, s, Prev(0, |r|));
    RingRemoveWords(h.m, r[0], r[0]);
  }

  lemma IndexKeptByLeaf(h: H, s: int, b: int)
    requires HeapOk(h) && BinsOk(h) && s in h.T.tn && b in h.T.tn && b != s
    ensures var x, m1 := At(h.T, s), Uproot(h, b).m;
            R(m1, x + INDEX) == TreeIndex(s) && R(m1, x + PARENT) == R(h.m, x + PARENT)
  {
    hide TreeIndex;
    assert ShapeOk(h.T, s) && NodeStored(h.m, h.ms, h.T, s);
    assert MemberOk(h.m, s, h.T.tn[s].ring[0], 0);
    FarNow(h);
    SlotAway(h.ms, h.T, b, s, 0);
  }

  // The step that unlinks a tree node, as a whole.

  /** What stands in for the node of s: its ring's last chunk, nothing, or the leaf of size b. */
  ghost function HeirOf(h: H, s: int, b: int): int
    requires s in h.T.tn
  {
    var r := h.T.tn[s].ring;
    if |r| > 1 then r[|r| - 1] else if IsLeaf(h.T, s) then 0 else At(h.T, b)
  }

  /** The state once the heir has left its own place. */
  ghost function Detached(h: H, s: int, b: int): H
    requires s in h.T.tn && (|h.T.tn[s].ring| <= 1 && !IsLeaf(h.T, s) ==> b in h.T.tn)
  {
    if |h.T.tn[s].ring| > 1 then h.(m := RingRemoveMem(h.m, At(h.T, s)))
    else if IsLeaf(h.T, s) then h else Uproot(h, b)
  }

  ghost predicate HeirLeaf(h: H, s: int, b: int) {
    && s in h.T.tn && |h.T.tn[s].ring| > 0
    && (|h.T.tn[s].ring| == 1 && !IsLeaf(h.T, s) ==>
        IsLeaf(h.T, b) && b != s && In(h.T, b, s) && s in Uproot(h, b).T.tn)
  }

  ghost function TrieWithout(h: H, s: int, b: int): Trie
    requires HeirLeaf(h, s, b)
  {
    var r := h.T.tn[s].ring;
    if |r| > 1 then Replace(h.T, s, s, Removed(Rotated(r), 1))
    else if IsLeaf(h.T, s) then DropLeaf(h.T, s) else Replace(Uproot(h, b).T, s, b, h.T.tn[b].ring)
  }

  /** The memory and the tree map after the heir has taken the place. */
  function PlaceMem(m: Mem, slot: int, x: int, r: int): Mem {
    if r != 0 then ReplaceMem(m, slot, x, r) else m[slot := 0]
  }

  function PlaceMap(m: Mem, ms: int, tm: set<int>, x: int, r: int): set<int> {
    var i := R(m, x + INDEX);
    if r == 0 && R(m, TB(ms, i)) == x then tm - {i} else tm
  }

  ghost function NodeGone(h: H, s: int, b: int): H
    requires HeirLeaf(h, s, b)
  {
    var d, x, r := Detached(h, s, b), At(h.T, s), HeirOf(h, s, b);
    d.(m := PlaceMem(d.m, SlotOf(h.ms, h.T, s), x, r), T := TrieWithout(h, s, b), tm := PlaceMap(d.m, h.ms, d.tm, x, r))
  }

  lemma SlotSame(h: H, s: int, b: int)
    requires HeapOk(h) && BinsOk(h) && s in h.T.tn && IsLeaf(h.T, b) && b != s
    ensures s in Uproot(h, b).T.tn && SlotOf(h.ms, Uproot(h, b).T, s) == SlotOf(h.ms, h.T, s)
    ensures At(Uproot(h, b).T, s) == At(h.T, s) && Uproot(h, b).T.tn[s].up == h.T.tn[s].up
  {
    hide TreeIndex;
    NoZero(h.T);
    assert ShapeOk(h.T, s);
    LeafNotUp(h.T, b, s);
  }

  ghost predicate PlaceReady(h: H, m1: Mem, s: int, r: int)
    requires s in h.T.tn
  {
    var x := At(h.T, s);
    && Pointed(m1, h.ms, x, SlotOf(h.ms, h.T, s)) && (r != 0 ==> HeirOk(m1, x, r))
    && R(m1, x + PARENT) == R(h.m, x + PARENT)
  }

  lemma FirstGone(h: H, u: set<int>, s: int, b: int)
    requires Inv(h, u) && HeirLeaf(h, s, b) && |h.T.tn[s].ring| > 1
    ensures PlaceReady(h, Detached(h, s, b).m, s, HeirOf(h, s, b))
    ensures Inv(NodeGone(h, s, b), u + {At(h.T, s)}) && SameChunks(h, NodeGone(h, s, b))
  {
    hide TreeIndex, SlotOf, RingRemoveMem, Replace, ReplaceMem;
    var r := h.T.tn[s].ring;
    var r' := Removed(Rotated(r), 1);
    UnlinkedFirst(h, u, s);
    assert HeapOk(h) && BinsOk(h);
    IndexKept(h, s);
    SwapSite(h, u, RingRemoveMem(h.m, r[0]), s, s, r');
    HeirPositive(h, s, |r| - 1);
    hide Inv, SameChunks, Pointed, HeirOk, Swap;
    assert NodeGone(h, s, b) == SwapIn(h, RingRemoveMem(h.m, r[0]), s, s, r');
  }

  lemma HeirPositive(h: H, s: int, k: int)
    requires HeapOk(h) && BinsOk(h) && s in h.T.tn && 0 <= k < |h.T.tn[s].ring|
    ensures h.T.tn[s].ring[k] > 0
  {
    TreeChunkAt(h, s, k);
  }

  lemma LeafGone(h: H, u: set<int>, s: int, b: int)
    requires Inv(h, u) && HeirLeaf(h, s, b) && |h.T.tn[s].ring| == 1 && IsLeaf(h.T, s)
    ensures PlaceReady(h, Detached(h, s, b).m, s, HeirOf(h, s, b))
    ensures Inv(NodeGone(h, s, b), u + {At(h.T, s)}) && SameChunks(h, NodeGone(h, s, b))
  {
    hide TreeIndex, SlotOf, DropLeaf;
    UnlinkedLeaf(h, u, s);
    IndexKept(h, s);
    var up := h.T.tn[s].up;
    assert NodeStored(h.m, h.ms, h.T, s);
    if up in h.T.tn { assert NodeStored(h.m, h.ms, h.T, up); }
    PointedNow(h, h.m, s);
    hide Inv, SameChunks, Pointed, HeirOk;
    assert NodeGone(h, s, b) == Uproot(h, s);
  }

  lemma InnerGone(h: H, u: set<int>, s: int, b: int)
    requires Inv(h, u) && HeirLeaf(h, s, b) && |h.T.tn[s].ring| == 1 && !IsLeaf(h.T, s)
    ensures PlaceReady(h, Detached(h, s, b).m, s, HeirOf(h, s, b))
    ensures Inv(NodeGone(h, s, b), u + {At(h.T, s)}) && SameChunks(h, NodeGone(h, s, b))
  {
    hide TreeIndex, SlotOf, Replace, ReplaceMem, Uproot;
    var h1, r := Uproot(h, b), h.T.tn[b].ring;
    UnlinkedNode(h, u, s, b);
    SlotSame(h, s, b);
    IndexKeptByLeaf(h, s, b);
    SwapSite(h1, u + SetOf(r), h1.m, s, b, r);
    HeirPositive(h, b, 0);
    assert h1.ms == h.ms by { assert h1 == Uproot(h, b); }
    hide Inv, SameChunks, Pointed, HeirOk, Swap;
    assert NodeGone(h, s, b) == SwapIn(h1, h1.m, s, b, r);
  }

  /** A tree node leaves: its chunk is loose, everything else stays in place. */
  lemma NodeGoneInv(h: H, u: set<int>, s: int, b: int)
    requires Inv(h, u) && HeirLeaf(h, s, b)
    ensures PlaceReady(h, Detached(h, s, b).m, s, HeirOf(h, s, b))
    ensures Inv(NodeGone(h, s, b), u + {At(h.T, s)}) && SameChunks(h, NodeGone(h, s, b))
  {
    hide TreeIndex, Inv, SameChunks, PlaceReady, NodeGone;
    if |h.T.tn[s].ring| > 1 {
      FirstGone(h, u, s, b);
    } else if IsLeaf(h.T, s) {
      LeafGone(h, u, s, b);
    } else {
      InnerGone(h, u, s, b);
    }
  }

  lemma HeirStays(m: Mem, x: int, y: int, slot: int)
    requires TreeChunk(m, x) && HeirOk(m, x, y) && slot in m && (slot < x + 16 || x + TCHUNK_SIZE <= slot)
    ensures TreeChunk(m[slot := y], x) && HeirOk(m[slot := y], x, y)
  {
    var m' := m[slot := y];
    assert forall a {:trigger a in m'} :: a in m' <==> a in m;
  }

  lemma PointedReads(m: Mem, ms: int, x: int, slot: int)
    requires Pointed(m, ms, x, slot)
    ensures (x + INDEX) % 8 == 0 && x + INDEX in m && TreeChunk(m, x) && slot in m && slot % 8 == 0
            && slot != x + INDEX && slot != x + PARENT
    ensures var xp, b := R(m, x + PARENT), TB(ms, R(m, x + INDEX));
            && b in m && b % 8 == 0 && (R(m, b) == x ==> slot == b) && (slot < x + 16 || x + TCHUNK_SIZE <= slot)
            && (R(m, b) != x ==>
                  && xp + CHILD0 in m && (xp + CHILD0) % 8 == 0 && xp + CHILD1 in m && (xp + CHILD1) % 8 == 0
                  && slot == if R(m, xp + CHILD0) == x then xp + CHILD0 else xp + CHILD1)
  {
    hide TB;
    assert (x + INDEX) % 8 == 0 by { assert x + INDEX == 8 * (x / 8 + 7); }
    var xp := R(m, x + PARENT);
    assert xp % 8 == 0 ==> xp + CHILD0 == 8 * (xp / 8 + 4) && xp + CHILD1 == 8 * (xp / 8 + 5);
  }
}
