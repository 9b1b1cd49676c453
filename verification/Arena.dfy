/** The allocator itself: malloc_state and the operations on it, working on memory in place. */
module Arena {
  import opened AllocHeap
  import opened AllocRing
  import opened AllocIndex
  import opened AllocTrie
  import opened AllocTree
  import opened AllocSearch
  import opened AllocState
  import opened AllocLinks
  import opened AllocLinksLarge
  import opened AllocUnlink
  import opened AllocTags
  import opened AllocOps
  import opened AllocResize
  import opened AllocAccess
  import opened AllocSites
  import opened AllocFit
  import opened AllocBlocks
  import opened AllocFree
  import opened AllocPayload
  import opened AllocSegs
  import opened AllocPrepend
  import opened AllocAddSeg
  import opened AllocDropSeg
  import opened AllocSystem
  import opened AllocCreate
  import opened AllocCarve

  class MState {
    const ms: int
    var m: Mem
    var smallmap: set<int>
    var treemap: set<int>
    var dv: int
    var dvsize: int
    var top: int
    var topsize: int
    var trimCheck: int
    var releaseChecks: int
    ghost var C: Chunks
    ghost var sb: seq<seq<int>>
    ghost var T: Trie
    ghost var segs: seq<Seg>
    /** How often the system has turned down a request for memory. */
    ghost var refusals: nat

    ghost function V(): H
      reads this
    {
      H(m, ms, smallmap, treemap, dv, dvsize, top, topsize, C, sb, T, segs)
    }

    /** lj_alloc_create in a region that the system has just mapped. */
    constructor (tbase: int)
      requires Fresh(map[], tbase, GRANULARITY)
      ensures Inv(V(), {}) && LiveSet(V()) == {} && ms == tbase + 16 && fresh(this)
    {
      ms := tbase + 16;
      m := MapIn(map[], tbase, GRANULARITY);
      smallmap, treemap, dv, dvsize := {}, {}, 0, 0;
      top, topsize, trimCheck, releaseChecks := 0, 0, 0, MAX_RELEASE_CHECK_RATE;
      C, sb, T, segs, refusals := map[], [], NewTrie(), [], 0;
      new;
      Create(tbase);
    }

    /** The state record at the start of the region. */
    method FirstWords(tbase: int)
      requires tbase % 8 == 0 && ms == tbase + 16 && tbase + 8 in m && ms + SEG_OFS in m && ms + SEG_OFS + 8 in m
      modifies this`m
      ensures m == old(m)[tbase + 8 := MSTATE_CHUNK_SIZE + 3][ms + SEG_OFS := tbase][ms + SEG_OFS + 8 := GRANULARITY]
    {
      m := Poke(m, tbase + 8, MSTATE_CHUNK_SIZE + 3);
      m := Poke(m, ms + SEG_OFS, tbase);
      m := Poke(m, ms + SEG_OFS + 8, GRANULARITY);
    }

    /** The state, and top, in a fresh region. */
    method Create(tbase: int)
      requires Fresh(map[], tbase, GRANULARITY) && m == MapIn(map[], tbase, GRANULARITY) && ms == tbase + 16
      requires smallmap == {} && treemap == {} && dv == 0 && dvsize == 0 && T == NewTrie()
      modifies this
      ensures Inv(V(), {}) && LiveSet(V()) == {}
    {
      hide Inv, NewMem, NewState, MapIn, TopMem, LiveSet, NewTrie;
      CreateReads(tbase);
      FirstWords(tbase);
      ghost var m1 := m;
      assert forall a {:trigger a in m} :: a in m <==> tbase <= a < tbase + GRANULARITY;
      InitBins(tbase);
      ghost var m2 := m;
      var mn := tbase + MSTATE_CHUNK_SIZE;
      InitTop(mn, tbase + GRANULARITY - mn - TOP_FOOT_SIZE);
      IsNewMem(tbase, m1, m2, m);
      C, sb, segs := NewState(m, tbase).C, NewState(m, tbase).sb, NewState(m, tbase).segs;
      NewInv(m, tbase);
      NewFields(m, tbase);
    }

    /** Every small bin starts as a ring of one. */
    method InitBins(ghost tbase: int)
      requires ms % 8 == 0 && forall a {:trigger a in m} :: ms <= a < ms + SEG_OFS ==> a in m
      modifies this`m
      ensures forall a {:trigger R(m, a)} :: !(ms + SMALLBINS_OFS <= a < ms + TREEBINS_OFS) ==> R(m, a) == R(old(m), a)
      ensures forall a {:trigger a in m} :: a in m <==> a in old(m)
      ensures forall i {:trigger SB(ms, i)} :: 0 <= i < NSMALLBINS ==>
        R(m, SB(ms, i) + FD) == SB(ms, i) && R(m, SB(ms, i) + BK) == SB(ms, i)
    {
      ghost var m0 := m;
      var i := 0;
      while i < NSMALLBINS
        invariant 0 <= i <= NSMALLBINS
        invariant forall a {:trigger R(m, a)} :: !(ms + SMALLBINS_OFS <= a < ms + TREEBINS_OFS) ==> R(m, a) == R(m0, a)
        invariant forall a {:trigger a in m} :: a in m <==> a in m0
        invariant forall j {:trigger SB(ms, j)} :: 0 <= j < i ==>
          R(m, SB(ms, j) + FD) == SB(ms, j) && R(m, SB(ms, j) + BK) == SB(ms, j)
      {
        ghost var m1 := m;
        var bin := SB(ms, i);
        m := Poke(m, bin + FD, bin);
        m := Poke(m, bin + BK, bin);
        assert forall a {:trigger R(m, a)} :: a != bin + FD && a != bin + BK ==> R(m, a) == R(m1, a);
        i := i + 1;
      }
    }

    // Small bins.

    method InsertSmallChunk(p: int, s: int)
      requires InsertReady(V(), p, s / 8)
      modifies this`m, this`smallmap, this`sb
      ensures V() == LinkSmall(old(V()), p, s / 8)
    {
      ghost var h := V();
      var i := s / 8;
      var b := SB(ms, i);
      var f := b;
      if i !in smallmap {
        smallmap := smallmap + {i};
      } else {
        f := Peek(m, b + FD);
      }
      assert smallmap == h.sm + {i};
      m := Poke(m, b + FD, p);
      m := Poke(m, f + BK, p);
      m := Poke(m, p + FD, f);
      m := Poke(m, p + BK, b);
      sb := LinkSmall(h, p, i).sb;
      assert m == LinkSmallMem(h, p, i);
    }

    method UnlinkSmallChunk(p: int, s: int, ghost k: int)
      requires UnlinkReady(V(), s / 8, k) && p == sb[s / 8][k]
      modifies this`m, this`smallmap, this`sb
      ensures V() == UnlinkSmall(old(V()), s / 8, k)
    {
      ghost var h := V();
      var f, b := Peek(m, p + FD), Peek(m, p + BK);
      var i := s / 8;
      if f == b {
        smallmap := smallmap - {i};
      } else {
        m := Poke(m, f + BK, b);
        m := Poke(m, b + FD, f);
      }
      sb := UnlinkSmall(h, i, k).sb;
    }

    method UnlinkFirstSmallChunk(b: int, p: int, i: int)
      requires UnlinkReady(V(), i, 0) && b == SB(ms, i) && p == sb[i][0]
      modifies this`m, this`smallmap, this`sb
      ensures V() == UnlinkSmall(old(V()), i, 0)
    {
      ghost var h := V();
      var f := Peek(m, p + FD);
      if b == f {
        smallmap := smallmap - {i};
      } else {
        m := Poke(m, b + FD, f);
        m := Poke(m, f + BK, b);
        assert m == h.m[f + BK := b][b + FD := f];
      }
      sb := UnlinkSmall(h, i, 0).sb;
    }

    // Tree bins.

    method HangLeaf(x: int, slot: int, par: int)
      requires TreeChunk(m, x) && slot in m && slot % 8 == 0
      modifies this`m
      ensures m == old(m)[slot := x][x + PARENT := par][x + FD := x][x + BK := x]
    {
      m := Poke(m, slot, x);
      m := Poke(m, x + PARENT, par);
      m := Poke(m, x + FD, x);
      m := Poke(m, x + BK, x);
    }

    method JoinRing(x: int, t: int)
      requires TreeChunk(m, x) && TreeChunk(m, t)
      requires var f := R(m, t + FD); f % 8 == 0 && f + BK in m
      modifies this`m
      ensures m == RingInsertMem(old(m), t, x)[x + PARENT := 0]
    {
      var f := Peek(m, t + FD);
      m := Poke(m, t + FD, x);
      m := Poke(m, f + BK, x);
      m := Poke(m, x + FD, f);
      m := Poke(m, x + BK, t);
      m := Poke(m, x + PARENT, 0);
    }

    method InsertLargeChunk(x: int, s: int, ghost u: set<int>) returns (ghost up: int, ghost right: bool)
      requires Inv(V(), u) && x in u && x in C && s == C[x].size && s >= MIN_LARGE_SIZE
      modifies this`m, this`treemap, this`T
      ensures if s in old(T).tn then |old(T).tn[s].ring| > 0 && V() == LinkRing(old(V()), x)
              else Slot(old(T), s, up, right) && V() == LinkLeaf(old(V()), x, up, right)
    {
      hide TreeIndex, Inv, OnPath, Shape, Slot;
      ghost var h := V();
      InsertStart(h, u, x);
      var i := TreeIndex(s);
      m := Poke(m, x + INDEX, i);
      m := Poke(m, x + CHILD0, 0);
      m := Poke(m, x + CHILD1, 0);
      if i !in treemap {
        up, right := 0, false;
        RootChunk(x, s, i, u, h);
      } else {
        up, right := PlaceChunk(x, s, i, u, h);
      }
    }

    /** x is the first chunk of its bin. */
    method RootChunk(x: int, s: int, i: int, ghost u: set<int>, ghost h: H)
      requires Inv(h, u) && x in u && x in h.C && s == h.C[x].size && s >= MIN_LARGE_SIZE
      requires i == TreeIndex(s) && i !in h.tm
      requires V() == h.(m := NewChunkMem(h.m, x, i))
      modifies this`m, this`treemap, this`T
      ensures s !in h.T.tn && Slot(h.T, s, 0, false) && V() == LinkLeaf(h, x, 0, false)
    {
      hide TreeIndex, Inv, OnPath, Shape, Slot;
      InsertStart(h, u, x);
      var b := TB(ms, i);
      treemap := treemap + {i};
      HangLeaf(x, b, b);
      T := AddLeaf(h.T, s, x, 0, false);
    }

    /** The search for the place of x in the trie of its bin. */
    method PlaceChunk(x: int, s: int, i: int, ghost u: set<int>, ghost h: H) returns (ghost up: int, ghost right: bool)
      requires Inv(h, u) && x in u && x in h.C && s == h.C[x].size && s >= MIN_LARGE_SIZE
      requires i == TreeIndex(s) && i in h.tm
      requires V() == h.(m := NewChunkMem(h.m, x, i))
      modifies this`m, this`T
      ensures if s in h.T.tn then |h.T.tn[s].ring| > 0 && V() == LinkRing(h, x)
              else Slot(h.T, s, up, right) && V() == LinkLeaf(h, x, up, right)
    {
      hide TreeIndex, Inv, OnPath, Shape, Slot, Side, NewChunkMem, At, TreeChunk;
      InsertStart(h, u, x);
      NewChunkBin(h, u, x);
      ghost var node := h.T.rt[i];
      up, right := 0, false;
      var t := Peek(m, TB(ms, i));
      var K := SizeBits(s, i);
      WalkReads(h, u, x, node, K);
      assert TreeChunk(m, t);
      while ChunkSize(Peek(m, HeadAddr(m, t))) != s
        invariant V() == h.(m := NewChunkMem(h.m, x, i))
        invariant node in h.T.tn && OnPath(h.T, s, node, K) && t == At(h.T, node)
        invariant TreeChunk(m, t) && ChunkSize(R(m, t + 8)) == node
        decreases h.T.tn[node].e
      {
        WalkReads(h, u, x, node, K);
        var c := t + if Side(K) then CHILD1 else CHILD0;
        var next := Peek(m, c);
        if next == 0 {
          up, right := node, Side(K);
          HangUnder(x, s, i, t, c, node, right, h);
          return;
        }
        t := next;
        node := Kid(h.T, node, Side(K));
        K := 2 * K % TWO64;
        WalkReads(h, u, x, node, K);
      }
      WalkReads(h, u, x, node, K);
      JoinNode(x, s, i, t, h);
    }

    /** x joins the ring of t, which has the same size. */
    method JoinNode(x: int, s: int, i: int, t: int, ghost h: H)
      requires x in h.C && s == h.C[x].size && s in h.T.tn && |h.T.tn[s].ring| > 0 && t == At(h.T, s)
               && i == TreeIndex(s)
      requires V() == h.(m := NewChunkMem(h.m, x, i)) && TreeChunk(m, x) && TreeChunk(m, t)
      requires var f := R(m, t + FD); f % 8 == 0 && f + BK in m
      modifies this`m, this`T
      ensures V() == LinkRing(h, x)
    {
      hide TreeIndex;
      JoinRing(x, t);
      T := SetRing(h.T, s, Inserted(h.T.tn[s].ring, x));
    }

    /** x becomes a child of t. */
    method HangUnder(x: int, s: int, i: int, t: int, c: int, ghost node: int, ghost right: bool, ghost h: H)
      requires node in h.T.tn && h.T.tn[node].e >= 1 && node != 0 && t == At(h.T, node) && x in h.C && s == h.C[x].size
      requires i == TreeIndex(s) && i in h.tm && c == t + if right then CHILD1 else CHILD0
      requires V() == h.(m := NewChunkMem(h.m, x, i)) && TreeChunk(m, x) && TreeChunk(m, t)
      modifies this`m, this`T
      ensures V() == LinkLeaf(h, x, node, right)
    {
      hide TreeIndex, TreeChunk, NewChunkMem, At, LeafNode;
      SiteIn(m, t);
      HangLeaf(x, c, t);
      T := AddLeaf(h.T, s, x, node, right);
      assert h.tm + {i} == h.tm;
    }

    method UnlinkLargeChunk(x: int, ghost u: set<int>)
      requires Inv(V(), u) && x in C && InTree(V(), x)
      modifies this`m, this`treemap, this`T
      ensures Inv(V(), u + {x}) && SameChunks(old(V()), V())
    {
      hide TreeIndex, Inv, UnlinkRing, SameChunks, Pointed, HeirOk, SlotOf, PlaceMem, PlaceMap, TrieWithout, HeirLeaf,
          Uproot;
      ghost var h, s := V(), C[x].size;
      ghost var k :| 0 <= k < |T.tn[s].ring| && T.tn[s].ring[k] == x;
      InvParts(h, u);
      DetachStart(h, s, k);
      var xp := Peek(m, x + PARENT);
      var r: int;
      ghost var b: int;
      r, b := Detach(x, u, s, k);
      if xp != 0 {
        NodeGoneInv(h, u, s, b);
        TakePlace(x, xp, r, SlotOf(ms, h.T, s));
        T := TrieWithout(h, s, b);
        assert V() == NodeGone(h, s, b);
      } else {
        UnlinkedMember(h, u, s, k);
      }
    }

    /** x leaves its ring, or else the leaf that is to take its place leaves the tree. */
    method Detach(x: int, ghost u: set<int>, ghost s: int, ghost k: int) returns (r: int, ghost b: int)
      requires HeapOk(V()) && BinsOk(V()) && s in T.tn && 0 <= k < |T.tn[s].ring| && x == T.tn[s].ring[k]
      modifies this`m, this`T
      ensures k > 0 ==> V() == UnlinkRing(old(V()), s, k)
      ensures k == 0 ==> HeirLeaf(old(V()), s, b) && V() == Detached(old(V()), s, b) && r == HeirOf(old(V()), s, b)
    {
      hide TreeIndex, HeapOk, BinsOk, SlotOf, Uproot;
      b := 0;
      DetachStart(V(), s, k);
      if Peek(m, x + BK) != x {
        var f := Peek(m, x + FD);
        r := Peek(m, x + BK);
        m := Poke(m, f + BK, r);
        m := Poke(m, r + FD, f);
        if k > 0 { T := SetRing(T, s, Removed(T.tn[s].ring, k)); }
      } else {
        r, b := DetachLeaf(x, s);
      }
    }

    /** The search for the leaf that is to take the place of x, the only chunk of size s. */
    method DetachLeaf(x: int, ghost s: int) returns (r: int, ghost b: int)
      requires HeapOk(V()) && BinsOk(V()) && s in T.tn && x == At(T, s)
      modifies this`m, this`T
      ensures IsLeaf(old(T), s) ==> V() == old(V()) && r == 0
      ensures !IsLeaf(old(T), s) ==>
                IsLeaf(old(T), b) && b != s && In(old(T), b, s) && s in Uproot(old(V()), b).T.tn
                && V() == Uproot(old(V()), b) && r == At(old(T), b)
    {
      hide TreeIndex, HeapOk, BinsOk, SlotOf, At;
      ghost var h := V();
      LeafWalk(h, s);
      b := LastChild(T, s);
      var rp := LastKid(m, x);
      r := Peek(m, rp);
      if r != 0 {
        LeafWalk(h, b);
        var cp := LastKid(m, r);
        while Peek(m, cp) != 0
          invariant V() == h && b in T.tn && b != s && In(T, b, s) && T.tn[b].up != 0 && T.tn[b].e < T.tn[s].e
          invariant r == At(T, b) && TreeChunk(m, r) && cp == LastKid(m, r) && rp == SlotOf(ms, T, b) && rp in m
                    && rp % 8 == 0
          decreases T.tn[b].e
        {
          LeafWalk(h, b);
          r := Peek(m, cp);
          rp := cp;
          b := LastChild(T, b);
          LeafWalk(h, b);
          cp := LastKid(m, r);
        }
        LeafWalk(h, b);
        SlotSame(h, s, b);
        m := Poke(m, rp, 0);
        T := DropLeaf(T, b);
      }
    }

    /** r, if any, takes the place of x in the tree. */
    method TakePlace(x: int, xp: int, r: int, ghost slot: int)
      requires Pointed(m, ms, x, slot) && xp == R(m, x + PARENT) && (r != 0 ==> HeirOk(m, x, r))
      modifies this`m, this`treemap
      ensures m == PlaceMem(old(m), slot, x, r) && treemap == PlaceMap(old(m), ms, old(treemap), x, r)
    {
      hide Pointed, HeirOk, TreeChunk, GiveChild, PlaceMap;
      ghost var m0 := m;
      PointSlot(x, xp, r, slot);
      if r != 0 {
        HeirStays(m0, x, r, slot);
        Inherit(x, xp, r);
      }
    }

    /** The word that points to x points to r; a bin left empty is cleared in the tree map. */
    method PointSlot(x: int, xp: int, r: int, ghost slot: int)
      requires Pointed(m, ms, x, slot) && xp == R(m, x + PARENT)
      modifies this`m, this`treemap
      ensures m == old(m)[slot := r] && slot in old(m) && treemap == PlaceMap(old(m), ms, old(treemap), x, r)
      ensures TreeChunk(old(m), x) && (slot < x + 16 || x + TCHUNK_SIZE <= slot) && R(m, x + PARENT) == xp
    {
      PointedReads(m, ms, x, slot);
      hide Pointed;
      var b := TB(ms, Peek(m, x + INDEX));
      if x == Peek(m, b) {
        m := Poke(m, b, r);
        if r == 0 { treemap := treemap - {Peek(m, x + INDEX)}; }
      } else if Peek(m, xp + CHILD0) == x {
        m := Poke(m, xp + CHILD0, r);
      } else {
        m := Poke(m, xp + CHILD1, r);
      }
    }

    /** r gets the parent and the children of x. */
    method Inherit(x: int, xp: int, r: int)
      requires TreeChunk(m, x) && HeirOk(m, x, r)
      modifies this`m
      ensures m == GiveChild(GiveChild(old(m)[r + PARENT := xp], x, r, CHILD0), x, r, CHILD1)
    {
      m := Poke(m, r + PARENT, xp);
      GiveKid(x, r, CHILD0);
      GiveKid(x, r, CHILD1);
    }

    method GiveKid(x: int, y: int, d: int)
      requires TreeChunk(m, x) && TreeChunk(m, y) && KidMapped(m, x, d) && (d == CHILD0 || d == CHILD1) && Away(x, y)
      modifies this`m
      ensures m == GiveChild(old(m), x, y, d)
      ensures forall a {:trigger a in m} :: a in old(m) ==> a in m
      ensures R(m, x + CHILD1) == R(old(m), x + CHILD1)
    {
      var c := Peek(m, x + d);
      if c != 0 {
        m := Poke(m, y + d, c);
        m := Poke(m, c + PARENT, y);
      }
    }

    // Either kind of bin.

    method InsertChunk(p: int, s: int, ghost u: set<int>)
      requires Inv(V(), u) && p in u && p in C && s == C[p].size
      modifies this`m, this`smallmap, this`treemap, this`sb, this`T
      ensures Inv(V(), u - {p}) && SameChunks(old(V()), V())
    {
      hide TreeIndex, Inv, LinkSmall, LinkRing, LinkLeaf, Slot, InsertReady;
      ghost var h := V();
      LooseSpan(h, u, p);
      if IsSmall(s) {
        InsertSmallReady(h, u, p);
        InsertSmallChunk(p, s);
        LinkSmallInv(h, u, p);
      } else {
        ghost var up, right := InsertLargeChunk(p, s, u);
        if s in h.T.tn { LinkRingInv(h, u, p); } else { LinkLeafInv(h, u, p, up, right); }
      }
      KeepsAll(h, V());
      LinkedSame(h, V());
    }

    method UnlinkChunk(p: int, s: int, ghost u: set<int>)
      requires Inv(V(), u) && p in C && C[p].kind == Free && p !in u && p != dv && s == C[p].size
      modifies this`m, this`smallmap, this`treemap, this`sb, this`T
      ensures Inv(V(), u + {p}) && SameChunks(old(V()), V())
    {
      hide TreeIndex, Inv, UnlinkSmall, UnlinkReady, Binned;
      ghost var h := V();
      PlacedNow(h, u, p);
      if IsSmall(s) {
        ghost var k :| 0 <= k < |h.sb[s / 8]| && h.sb[s / 8][k] == p;
        UnlinkSmallReady(h, u, s / 8, k);
        UnlinkSmallChunk(p, s, k);
        UnlinkSmallInv(h, u, s / 8, k);
        KeepsAll(h, V());
        UnlinkedSame(h, s / 8, k);
      } else {
        UnlinkLargeChunk(p, u);
      }
    }

    /** Takes the first chunk of small bin i. */
    method FirstOfBin(i: int, ghost u: set<int>) returns (p: int)
      requires Inv(V(), u) && i in smallmap
      modifies this`m, this`smallmap, this`sb
      ensures p in C && C[p].size == 8 * i && Inv(V(), u + {p}) && SameChunks(old(V()), V())
    {
      hide TreeIndex, Inv, UnlinkSmall, UnlinkReady, Binned;
      ghost var h := V();
      SmallMapOf(h, u, i);
      UnlinkSmallReady(h, u, i, 0);
      var b := SB(ms, i);
      p := Peek(m, b + FD);
      UnlinkFirstSmallChunk(b, p, i);
      UnlinkSmallInv(h, u, i, 0);
      KeepsAll(h, V());
      UnlinkedSame(h, i, 0);
    }

    /** p becomes the designated victim; the old one goes into a bin. It must be small. */
    method ReplaceDv(p: int, s: int, ghost u: set<int>)
      requires Inv(V(), u) && p in u && p in C && s == C[p].size && IsSmall(dvsize)
      modifies this`m, this`smallmap, this`sb, this`dv, this`dvsize
      ensures Inv(V(), u - {p}) && Same(old(V()), V()) && dv == p && dvsize == s && C == old(C)
    {
      hide TreeIndex, Inv, LinkSmall, InsertReady;
      ghost var h := V();
      InvParts(h, u);
      if dvsize != 0 {
        DropDvSame(h, u);
        ghost var h1, v := DropDv(h), u + {dv};
        LooseSpan(h1, v, dv);
        InsertSmallReady(h1, v, dv);
        InsertSmallChunk(dv, dvsize);
        LinkSmallInv(h1, v, h.dv);
        ghost var h2 := LinkSmall(h1, h.dv, h.dvs / 8);
        KeepsAll(h1, h2);
        LinkedSmallSame(h1, h.dv, h.dvs / 8);
        SameTrans(h, h1, h2);
        assert p != h.dv by { LooseNotDv(h, u, p); }
        assert v - {h.dv} == u by { LooseNotDv(h, u, h.dv); }
        LinkSmallDropDv(h, h.dv, h.dvs / 8);
        assert V() == h2.(dv := dv, dvs := dvsize);
        dvsize := s;
        dv := p;
        SetDvSame(h2, u, p);
        SameTrans(h, h2, V());
      } else {
        dvsize := s;
        dv := p;
        SetDvSame(h, u, p);
      }
    }

    // Tags.

    /** Hands out all of chunk p. */
    method TakeChunk(p: int, s: int, ghost u: set<int>)
      requires Inv(V(), u) && p in u && p in C && s == C[p].size
      modifies this`m, this`C
      ensures p + s in old(C) && V() == Take(old(V()), p)
      ensures Inv(V(), u - {p}) && Grants(old(V()), V(), p, s) && p in C && C[p].size == s && Carves(old(C), C, p)
    {
      hide Inv, Grants, Carves;
      ghost var h := V();
      InvParts(h, u);
      TakeGrants(h, u, p);
      LooseSpan(h, u, p);
      HeadMapped(h, p);
      HeadMapped(h, p + s);
      TagInuse(p, s);
      C := TakenWhole(C, p);
    }

    /** set_inuse_and_pinuse. */
    method TagInuse(p: int, s: int)
      requires p % 8 == 0 && s % 8 == 0 && s > 0 && p + 8 in m && p + s + 8 in m
      modifies this`m
      ensures m == SetInuseAndPinuse(old(m), p, s)
    {
      m := Poke(m, p + 8, s + 3);
      m := Poke(m, p + s + 8, OrPinuse(Peek(m, p + s + 8)));
    }

    /** The tags of a split: the front in use, the rest free. */
    method CutFront(p: int, nb: int, r: int, rsize: int)
      requires p % 8 == 0 && nb % 8 == 0 && rsize % 8 == 0 && r == p + nb && p + 8 in m && r + 8 in m && r + rsize in m
      modifies this`m
      ensures m == SetFreeChunk(SetInuseChunk(old(m), p, nb), r, rsize)
    {
      m := Poke(m, p + 8, nb + 3);
      m := Poke(m, r + 8, rsize + 1);
      m := Poke(m, r + rsize, rsize);
    }

    /** The same, the rest first. */
    method CutBack(p: int, nb: int, r: int, rsize: int)
      requires p % 8 == 0 && nb % 8 == 0 && rsize % 8 == 0 && r == p + nb && p + 8 in m && r + 8 in m && r + rsize in m
      requires nb > 8 && rsize > 8
      modifies this`m
      ensures m == SetFreeChunk(SetInuseChunk(old(m), p, nb), r, rsize)
    {
      m := Poke(m, r + 8, rsize + 1);
      m := Poke(m, r + rsize, rsize);
      m := Poke(m, p + 8, nb + 3);
    }

    /** Hands out the first nb bytes of chunk p; the rest, of size rsize, stays free. */
    method SplitChunk(p: int, nb: int, rsize: int, ghost u: set<int>)
      requires Inv(V(), u) && p in u && p in C && nb + rsize == C[p].size
      requires nb % 8 == 0 && MIN_CHUNK_SIZE <= nb && MIN_CHUNK_SIZE <= rsize
      modifies this`m, this`C
      ensures V() == Split(old(V()), p, nb) && p + nb in C && C[p + nb].size == rsize
      ensures Inv(V(), u - {p} + {p + nb}) && Grants(old(V()), V(), p, nb)
      ensures p in C && C[p].size == nb && Carves(old(C), C, p)
    {
      hide Inv, Grants, Span, Carves;
      ghost var h := V();
      InvParts(h, u);
      SplitGrants(h, u, p, nb);
      LooseSpan(h, u, p);
      HeadMapped(h, p);
      HeadMapped(h, p + nb + rsize);
      WithinMapped(h, p, nb);
      hide HeapOk, BinsOk, AllPlaced, DvOk, SegsOk;
      CutFront(p, nb, p + nb, rsize);
      C := SplitTwo(C, p, nb, Free);
    }

    // Best fit.

    /** The walk in the bin of nb: ends at a chunk of that very size, or with the deepest right subtree not taken. */
    method WalkBin(nb: int, idx: int, root: int) returns (t: int, v: int, rsize: int, ghost node: int, ghost vs: int)
      requires HeapOk(V()) && BinsOk(V()) && MIN_LARGE_SIZE <= nb < TWO64
      requires idx == TreeIndex(nb) && idx in T.rt && T.rt[idx] != 0 && root == At(T, T.rt[idx])
      ensures t == At(T, node) && v == At(T, vs) && rsize == RSize(nb, vs)
      ensures (node != 0 ==> node in T.tn) && (vs != 0 ==> vs in T.tn)
      ensures if node == 0 && vs == 0 then Between(T, nb, 0, 0) else Scan(T, nb, node, vs)
    {
      hide TreeIndex, HeapOk, BinsOk, Walk, Between, Scan, Shape, Side, At;
      ghost var h := V();
      assert Shape(T) && 0 !in T.tn by { TrieOf(h); }
      WalkStart(T, nb);
      AtZero(T);
      t, v, rsize, node, vs := root, 0, TWO64 - nb, T.rt[idx], 0;
      var K := SizeBits(nb, idx);
      var rst := 0;
      ghost var rn := 0;
      while true
        invariant Walk(T, nb, node, K, rn, vs) && node in T.tn && (vs != 0 ==> TreeIndex(vs) == TreeIndex(nb))
        invariant t == At(T, node) && rst == At(T, rn) && v == At(T, vs) && rsize == RSize(nb, vs)
        decreases T.tn[node].e
      {
        NodeReads(h, node);
        VsIndex(T, nb, node, K, rn, vs);
        Trem(nb, vs, node);
        ghost var seen := vs;
        var trem := (ChunkSize(Peek(m, HeadAddr(m, t))) - nb) % TWO64;
        if trem < rsize {
          v, rsize, vs := t, trem, node;
          if rsize == 0 {
            ExactFound(T, nb);
            return;
          }
        }
        assert vs == Better(nb, seen, node) && node != nb by { NotExact(T, nb, node, K, rn, seen); }
        WalkStep(T, nb, node, K, rn, seen);
        var rt := Peek(m, t + CHILD1);
        t := Peek(m, t + if Side(K) then CHILD1 else CHILD0);
        if rt != 0 && rt != t { rst := rt; }
        rn := NextRest(T, node, K, rn);
        node := Kid(T, node, Side(K));
        if t == 0 {
          t, node := rst, rn;
          if rn != 0 || vs != 0 { ScanFromRest(T, nb, rn, vs); }
          return;
        }
        K := 2 * K % TWO64;
      }
    }

    method FindLarge(nb: int) returns (v: int, rsize: int, ghost vs: int)
      requires HeapOk(V()) && BinsOk(V()) && MIN_LARGE_SIZE <= nb < TWO64
      ensures v == At(T, vs) && rsize == RSize(nb, vs)
      ensures if vs == 0 then v == 0 && NoFit(T, nb) else v != 0 && Best(T, nb, vs) && nb <= vs < SIZE_LIMIT
    {
      hide TreeIndex, HeapOk, BinsOk, Walk, Between, Scan, Shape, Side, At, Best;
      ghost var h := V();
      assert Shape(T) && 0 !in T.tn by { TrieOf(h); }
      WalkStart(T, nb);
      TreeMapOf(h);
      AtZero(T);
      v, rsize, vs := 0, TWO64 - nb, 0;
      var idx := TreeIndex(nb);
      var t := Peek(m, TB(ms, idx));
      ghost var node := T.rt[idx];
      if t != 0 {
        t, v, rsize, node, vs := WalkBin(nb, idx, t);
      }
      NonZeroAt(h, node);
      NonZeroAt(h, vs);
      if t == 0 && v == 0 {
        ScanFromNext(T, nb, treemap);
        var j := Ffs(treemap, idx + 1);
        if j < NTREEBINS {
          t := Peek(m, TB(ms, j));
          node := T.rt[j];
        }
      }
      v, rsize, vs := ScanLeft(t, v, rsize, nb, node, vs);
    }

    /** The sweep to the left from t, for something better than v. */
    method ScanLeft(t0: int, v0: int, rsize0: int, nb: int, ghost node0: int, ghost vs0: int) returns (v: int,
        rsize: int, ghost vs: int)
      requires HeapOk(V()) && BinsOk(V()) && 0 < nb < TWO64 && Scan(T, nb, node0, vs0) && (node0 != 0 ==> node0 in T.tn)
      requires t0 == At(T, node0) && v0 == At(T, vs0) && rsize0 == RSize(nb, vs0)
      ensures v == At(T, vs) && rsize == RSize(nb, vs)
      ensures if vs == 0 then v == 0 && NoFit(T, nb) else v != 0 && Best(T, nb, vs) && nb <= vs < SIZE_LIMIT
    {
      hide TreeIndex, HeapOk, BinsOk, Scan, Shape, At, Best;
      ghost var h := V();
      assert Shape(T) && 0 !in T.tn by { TrieOf(h); }
      AtZero(T);
      var t := t0;
      ghost var node := node0;
      v, rsize, vs := v0, rsize0, vs0;
      NonZeroAt(h, node);
      while t != 0
        invariant Scan(T, nb, node, vs) && t == At(T, node) && (node == 0 <==> t == 0) && v == At(T, vs)
                  && rsize == RSize(nb, vs)
        invariant node != 0 ==> node in T.tn
        decreases if node in T.tn then T.tn[node].e + 1 else 0
      {
        NodeReads(h, node);
        ScanStep(T, nb, node, vs);
        Trem(nb, vs, node);
        var trem := (ChunkSize(Peek(m, HeadAddr(m, t))) - nb) % TWO64;
        if trem < rsize { rsize, v, vs := trem, t, node; }
        t := if Peek(m, t + CHILD0) != 0 then Peek(m, t + CHILD0) else Peek(m, t + CHILD1);
        node := Leftmost(T, node);
      }
      ScanEnd(T, nb, vs);
      NonZeroAt(h, vs);
    }

    /**
     * A large request from the tries: the smallest chunk that fits, unless there is none or the
     * designated victim fits at least as well.
     */
    method TmallocLarge(nb: int) returns (p: int, ghost best: int)
      requires Inv(V(), {}) && MIN_LARGE_SIZE <= nb < TWO64 && nb % 8 == 0
      modifies this`m, this`smallmap, this`treemap, this`sb, this`T, this`C
      ensures p == 0 ==> V() == old(V())
      ensures p == 0 <==> NoFit(old(T), nb) || (Best(old(T), nb, best) && nb <= old(dvsize) <= best)
      ensures p != 0 ==> Best(old(T), nb, best) && p == At(old(T), best) && Inv(V(), {}) && Grants(old(V()), V(), p, nb)
      ensures p != 0 ==> Tight(C, p, nb) && Carves(old(C), C, p)
    {
      hide TreeIndex, Inv, Best, NoFit, Grants, Carves, SameChunks, Same, Take, Split;
      ghost var h := V();
      InvParts(h, {});
      var v, rsize;
      v, rsize, best := FindLarge(nb);
      FitCases(h, nb, best);
      FitExclusive(T, nb, best);
      if v != 0 && rsize < (dvsize - nb) % TWO64 {
        var r := v + nb;
        BestChunk(h, nb, best);
        UnlinkLargeChunk(v, {});
        SameIsSame(h, V());
        ghost var h1 := V();
        SameC(h, h1);
        assert {} + {v} == {v};
        if rsize < MIN_CHUNK_SIZE {
          TakeChunk(v, rsize + nb, {v});
          GrantsLess(h1, V(), v, rsize + nb, nb);
        } else {
          SplitChunk(v, nb, rsize, {v});
          ghost var h2 := V();
          assert {v} - {v} + {r} == {r};
          InsertChunk(r, rsize, {r});
          SameIsSame(h2, V());
          SameC(h2, V());
          GrantsSame(h1, h2, V(), v, nb);
        }
        SameGrants(h, h1, V(), v, nb);
        assert {v} - {v} == {} && {r} - {r} == {};
        p := v;
      } else {
        p := 0;
      }
    }

    /** A small request from the tries: the smallest chunk of all; the rest of it becomes the designated victim. */
    method TmallocSmall(nb: int) returns (p: int, ghost best: int)
      requires Inv(V(), {}) && MIN_CHUNK_SIZE <= nb < MIN_LARGE_SIZE && nb % 8 == 0 && treemap != {} && IsSmall(dvsize)
      modifies this`m, this`smallmap, this`treemap, this`sb, this`T, this`C, this`dv, this`dvsize
      ensures p != 0 && Best(old(T), nb, best) && p == At(old(T), best) && Inv(V(), {}) && Grants(old(V()), V(), p, nb)
      ensures Tight(C, p, nb) && Carves(old(C), C, p)
    {
      hide TreeIndex, Inv, Best, NoFit, Grants, Carves, SameChunks, Same, Take, Split, HeapOk, BinsOk, Scan, Shape, At;
      ghost var h := V();
      InvParts(h, {});
      assert Shape(T) && 0 !in T.tn by { TrieOf(h); }
      AtZero(T);
      TreeMapOf(h);
      ScanAll(T, nb, treemap);
      var i := Ffs(treemap, 0);
      var t := Peek(m, TB(ms, i));
      ghost var node := T.rt[i];
      NodeReads(h, node);
      ScanStep(T, nb, node, 0);
      var v := t;
      var rsize := ChunkSize(Peek(m, HeadAddr(m, t))) - nb;
      t := if Peek(m, t + CHILD0) != 0 then Peek(m, t + CHILD0) else Peek(m, t + CHILD1);
      v, rsize, best := ScanLeft(t, v, rsize, nb, Leftmost(T, node), node);
      BestOfAll(T, nb, best, node);
      BestChunk(h, nb, best);
      UnlinkLargeChunk(v, {});
      SameIsSame(h, V());
      ghost var h1 := V();
      SameC(h, h1);
      assert {} + {v} == {v} && {v} - {v} == {};
      if rsize < MIN_CHUNK_SIZE {
        TakeChunk(v, rsize + nb, {v});
        GrantsLess(h1, V(), v, rsize + nb, nb);
      } else {
        var r := v + nb;
        SplitChunk(v, nb, rsize, {v});
        ghost var h2 := V();
        assert {v} - {v} + {r} == {r} && {r} - {r} == {};
        ReplaceDv(r, rsize, {r});
        GrantsSame(h1, h2, V(), v, nb);
      }
      SameGrants(h, h1, V(), v, nb);
      p := v;
    }

    // malloc.

    /** A small request from the bins. */
    method MallocSmall(nb: int) returns (p: int)
      requires Inv(V(), {}) && MIN_CHUNK_SIZE <= nb < MIN_LARGE_SIZE && nb % 8 == 0
      modifies this`m, this`smallmap, this`treemap, this`sb, this`T, this`C, this`dv, this`dvsize
      ensures p == 0 ==> V() == old(V())
      ensures p != 0 ==> Inv(V(), {}) && Grants(old(V()), V(), p, nb) && Tight(C, p, nb) && Carves(old(C), C, p)
      ensures p == 0 <==> !(nb / 8 in old(smallmap)) && !(nb / 8 + 1 in old(smallmap))
                          && (nb <= old(dvsize) || (Ffs(old(smallmap), nb / 8) == NSMALLBINS && old(treemap) == {}))
    {
      hide TreeIndex, Inv, Best, Grants, Carves, Same, SameChunks, HeapOk, BinsOk, At;
      ghost var h := V();
      InvParts(h, {});
      p := 0;
      var idx := nb / 8;
      if idx in smallmap || idx + 1 in smallmap {
        idx := if idx in smallmap then idx else idx + 1;
        p := FirstOfBin(idx, {});
        ghost var h1 := V();
        assert {} + {p} == {p} && {p} - {p} == {};
        TakeChunk(p, 8 * idx, {p});
        SameIsSame(h, h1);
        SameC(h, h1);
        GrantsLess(h1, V(), p, 8 * idx, nb);
        SameGrants(h, h1, V(), p, nb);
        GrantsNonZero(h, V(), p, nb);
      } else if nb > dvsize {
        if Ffs(smallmap, idx) != NSMALLBINS {
          var i := Ffs(smallmap, idx + 1);
          assert nb + 16 <= 8 * i;
          p := NextBin(nb, i);
        } else if treemap != {} {
          ghost var best;
          p, best := TmallocSmall(nb);
        }
      }
    }

    /** The first chunk of a bin that is more than one size up: the rest may become the designated victim. */
    method NextBin(nb: int, i: int) returns (p: int)
      requires Inv(V(), {}) && MIN_CHUNK_SIZE <= nb < MIN_LARGE_SIZE && nb % 8 == 0 && i in smallmap && nb <= 8 * i
               && dvsize < nb
      modifies this`m, this`smallmap, this`sb, this`C, this`dv, this`dvsize
      ensures p != 0 && Inv(V(), {}) && Grants(old(V()), V(), p, nb) && Tight(C, p, nb) && Carves(old(C), C, p)
    {
      hide TreeIndex, Inv, Grants, Carves, Same, SameChunks, HeapOk, BinsOk, At, Split, Take;
      ghost var h := V();
      p := FirstOfBin(i, {});
      ghost var h1 := V();
      SameIsSame(h, h1);
      SameC(h, h1);
      assert {} + {p} == {p} && {p} - {p} == {};
      var rsize := 8 * i - nb;
      if rsize < MIN_CHUNK_SIZE {
        TakeChunk(p, 8 * i, {p});
        GrantsLess(h1, V(), p, 8 * i, nb);
      } else {
        var r := p + nb;
        SplitChunk(p, nb, rsize, {p});
        ghost var h2 := V();
        assert {p} - {p} + {r} == {r} && {r} - {r} == {};
        ReplaceDv(r, rsize, {r});
        GrantsSame(h1, h2, V(), p, nb);
      }
      SameGrants(h, h1, V(), p, nb);
      GrantsNonZero(h, V(), p, nb);
    }

    /** The designated victim, split or exhausted. */
    method FromDv(nb: int) returns (p: int)
      requires Inv(V(), {}) && MIN_CHUNK_SIZE <= nb <= dvsize && nb % 8 == 0
      modifies this`m, this`C, this`dv, this`dvsize
      ensures p != 0 && Inv(V(), {}) && Grants(old(V()), V(), p, nb) && Tight(C, p, nb) && Carves(old(C), C, p)
    {
      hide TreeIndex, Inv, Grants, Carves, Same, HeapOk, BinsOk, Span;
      ghost var h := V();
      InvParts(h, {});
      var rsize := dvsize - nb;
      p := dv;
      DropDvSame(h, {});
      assert {} + {p} == {p} && {p} - {p} == {};
      if rsize >= MIN_CHUNK_SIZE {
        SplitDv(nb, rsize);
      } else {
        var dvs := dvsize;
        dvsize := 0;
        dv := 0;
        TakeChunk(p, dvs, {p});
        GrantsLess(DropDv(h), V(), p, dvs, nb);
        SameGrants(h, DropDv(h), V(), p, nb);
      }
      GrantsNonZero(h, V(), p, nb);
    }

    method SplitDv(nb: int, rsize: int)
      requires Inv(V(), {}) && MIN_CHUNK_SIZE <= nb && nb % 8 == 0 && dvsize == nb + rsize && rsize >= MIN_CHUNK_SIZE
      modifies this`m, this`C, this`dv, this`dvsize
      ensures Inv(V(), {}) && Grants(old(V()), V(), old(dv), nb) && Tight(C, old(dv), nb) && Carves(old(C), C, old(dv))
    {
      hide TreeIndex, Inv, Grants, Carves;
      ghost var h := V();
      VictimReads(h, nb, rsize);
      var p := dv;
      dv := p + nb;
      var r := dv;
      dvsize := rsize;
      CutBack(p, nb, r, rsize);
      C := SplitTwo(C, p, nb, Free);
      SplitVictim(h, nb, rsize);
    }

    method FromTop(nb: int) returns (p: int)
      requires Inv(V(), {}) && MIN_CHUNK_SIZE <= nb < topsize && nb % 8 == 0
      modifies this`m, this`C, this`top, this`topsize
      ensures p != 0 && Inv(V(), {}) && Grants(old(V()), V(), p, nb) && Tight(C, p, nb) && Carves(old(C), C, p)
    {
      hide TreeIndex, Inv, Grants, Carves, HeapOk, BinsOk, Span;
      ghost var h := V();
      InvParts(h, {});
      TopEnd(h);
      TopChunk(h);
      TakeTopGrants(h, {}, nb);
      WithinMapped(h, top, nb);
      topsize := topsize - nb;
      var rsize := topsize;
      p := top;
      top := p + nb;
      var r := top;
      m := Poke(m, r + 8, rsize + 1);
      m := Poke(m, p + 8, nb + 3);
      C := SplitTwo(C, p, nb, Top);
      GrantsNonZero(h, V(), p, nb);
    }

    // free.

    method SetFreeChunkTags(p: int, s: int)
      requires p % 8 == 0 && s % 8 == 0 && p + 8 in m && p + s in m
      modifies this`m
      ensures m == SetFreeChunk(old(m), p, s)
    {
      m := Poke(m, p + 8, s + 1);
      m := Poke(m, p + s, s);
    }

    method SetFreeWithPinuseTags(p: int, s: int, n: int)
      requires p % 8 == 0 && s % 8 == 0 && n % 8 == 0 && p + 8 in m && p + s in m && n + 8 in m
      modifies this`m
      ensures m == SetFreeWithPinuse(old(m), p, s, n)
    {
      m := Poke(m, n + 8, ClearPinuse(Peek(m, n + 8)));
      m := Poke(m, p + 8, s + 1);
      m := Poke(m, p + s, s);
    }

    method FreeBlock(mem: int)
      requires Inv(V(), {}) && (mem != 0 ==> mem - 16 in LiveSet(V()))
      modifies this
      ensures Inv(V(), {}) && if mem == 0 then V() == old(V()) else Frees(old(V()), V(), mem - 16)
      ensures mem != 0 && segs == old(segs) ==> Returns(old(C), C, mem - 16)
    {
      hide TreeIndex, Inv, Frees, Returns, Same, SameChunks;
      if mem != 0 {
        ghost var h := V();
        var x := mem - 16;
        FreeReads(h, {}, x);
        var psize := ChunkSize(Peek(m, x + 8));
        var next := x + psize;
        var p := x;
        ghost var u: set<int> := {};
        if !Pinuse(Peek(m, x + 8)) {
          var prevsize := Peek(m, x);
          p := x - prevsize;
          psize := psize + prevsize;
          if p != dv {
            UnlinkChunk(p, prevsize, {});
            SameIsSame(h, V());
            SameC(h, V());
            u := {p};
            assert {} + {p} == u;
          } else if Cinuse(Peek(m, next + 8)) && Pinuse(Peek(m, next + 8)) {
            FreeIntoVictim(x, p, psize, next);
            return;
          }
        }
        SameRefl(h);
        ghost var h1 := V();
        FreeForward(x, p, psize, next, u);
        SameFrees(h, h1, V(), x);
      }
    }

    /** The block follows the designated victim and is followed by a chunk in use. */
    method FreeIntoVictim(x: int, p: int, psize: int, next: int)
      requires Inv(V(), {}) && x in C && C[x].kind == Live && dv in C && p == dv && p + C[p].size == x && p < x
               && C[p].kind == Free
      requires next == x + C[x].size && next in C && InUse(C[next].kind) && psize == next - p
      modifies this`m, this`dvsize, this`C
      ensures Inv(V(), {}) && Frees(old(V()), V(), x) && Returns(old(C), C, x)
    {
      hide TreeIndex, Inv, Frees, Returns, Same;
      ghost var h := V();
      FreeReads(h, {}, x);
      FreedReturns(h, {}, x, p, next, Free);
      LooseMapped(h, {}, p);
      LooseMapped(h, {}, next);
      LooseMapped(h, {}, x);
      DropDvSame(h, {});
      ghost var h1 := DropDv(h);
      assert {} + {p} == {p};
      JoinedDv(h1, {p}, x, p, next);
      SameFrees(h, h1, Release(h1, p, next).(dv := p, dvs := next - p), x);
      dvsize := psize;
      SetFreeWithPinuseTags(p, psize, next);
      C := Merged(C, p, next, Free);
    }

    /** Consolidation with what follows. */
    method FreeForward(x: int, p: int, psize: int, next: int, ghost u: set<int>)
      requires Inv(V(), u) && x in C && C[x].kind == Live && next == x + C[x].size && psize == next - p
      requires Ahead(V(), u, x, p) && (p == dv ==> next in C && !InUse(C[next].kind))
      modifies this
      ensures Inv(V(), {}) && Frees(old(V()), V(), x)
      ensures segs == old(segs) ==> Returns(old(C), C, x)
    {
      hide TreeIndex, Inv, Frees, Returns, Same, SameChunks, Release, ReleaseTop;
      ghost var h := V();
      FreeReads(h, u, x);
      AheadYields(h, u, x, p);
      if !Cinuse(Peek(m, next + 8)) {
        if next == top {
          FreeIntoTop(x, p, psize, u);
        } else if next == dv {
          FreeIntoDv(x, p, psize, u);
        } else {
          FreeWithNext(x, p, psize, next, u);
        }
      } else {
        FreeAlone(x, p, psize, next, u);
      }
    }

    /** What follows is in use. */
    method FreeAlone(x: int, p: int, psize: int, next: int, ghost u: set<int>)
      requires Inv(V(), u) && x in C && C[x].kind == Live && next == x + C[x].size && psize == next - p
      requires Ahead(V(), u, x, p) && p != dv && next in C && InUse(C[next].kind)
      modifies this
      ensures Inv(V(), {}) && Frees(old(V()), V(), x)
      ensures segs == old(segs) ==> Returns(old(C), C, x)
    {
      hide TreeIndex, Inv, Frees, Returns, Same, Merged, Ahead;
      ghost var h := V();
      AloneReady(h, u, x, p);
      AheadIdle(h, u, x, p);
      FreedReturns(h, u, x, p, next, Free);
      SetFreeWithPinuseTags(p, psize, next);
      C := Merged(C, p, next, Free);
      ghost var h1 := V();
      assert h1 == WithPinuse(h, p, next);
      FreeBin(p, psize);
      FreesSame(h, h1, V(), x);
    }

    /** The merged chunk goes into a bin. */
    method FreeBin(p: int, psize: int)
      requires Inv(V(), {p}) && p in C && C[p].size == psize
      modifies this
      ensures Inv(V(), {}) && Same(old(V()), V())
      ensures segs == old(segs) ==> C == old(C)
      ensures !IsSmall(psize) && old(releaseChecks) == 1 && refusals == old(refusals) ==> NoneUnused(C, segs)
    {
      hide TreeIndex, Inv, Same, SameChunks;
      ghost var h := V();
      InsertChunk(p, psize, {p});
      assert {p} - {p} == {};
      SameIsSame(h, V());
      SameC(h, V());
      if !IsSmall(psize) {
        releaseChecks := releaseChecks - 1;
        if releaseChecks == 0 {
          ghost var h1 := V();
          var _ := ReleaseUnusedSegments();
          SameTrans(h, h1, V());
        }
      }
    }

    method FreeIntoTop(x: int, p: int, psize: int, ghost u: set<int>)
      requires Inv(V(), u) && x in C && C[x].kind == Live && top == x + C[x].size && psize == top - p
      requires Ahead(V(), u, x, p)
      modifies this
      ensures Inv(V(), {}) && Frees(old(V()), V(), x)
      ensures segs == old(segs) ==> Returns(old(C), C, x)
      ensures old(topsize) + psize > old(trimCheck) && refusals == old(refusals) ==>
        NoneUnused(C, segs) && (Pinned(old(segs)) || topsize <= TOP_FOOT_SIZE + GRANULARITY)
    {
      hide TreeIndex, Inv, Frees, Returns, Same, NoneUnused, Pinned, Ahead;
      ghost var h := V();
      JoinTop(x, p, psize, u);
      if topsize > trimCheck {
        ghost var h1 := V();
        var r := AllocTrim(0);
        FreesSame(h, h1, V(), x);
      }
    }

    /** Top starts at p now. */
    method JoinTop(x: int, p: int, psize: int, ghost u: set<int>)
      requires Inv(V(), u) && x in C && C[x].kind == Live && top == x + C[x].size && psize == top - p
      requires Ahead(V(), u, x, p)
      modifies this`m, this`top, this`topsize, this`C, this`dv, this`dvsize
      ensures Inv(V(), {}) && Frees(old(V()), V(), x) && Returns(old(C), C, x) && topsize == old(topsize) + psize
    {
      hide TreeIndex, Inv, Frees, Returns, Same, Starts, Merged;
      ghost var h := V();
      AheadYields(h, u, x, p);
      AheadIdle(h, u, x, p);
      TopReturns(h, u, x, p);
      LooseMapped(h, u, p);
      IntoTop(h, u, x, p);
      topsize := topsize + psize;
      var tsize := topsize;
      top := p;
      m := Poke(m, p + 8, tsize + 1);
      C := Merged(C, p, h.top + h.tops, Top);
      if p == dv {
        dv := 0;
        dvsize := 0;
      }
      assert V() == ReleaseTop(Yielded(h, p), p);
    }

    /** The block is followed by the designated victim. */
    method FreeIntoDv(x: int, p: int, psize: int, ghost u: set<int>)
      requires Inv(V(), u) && x in C && C[x].kind == Live && dv == x + C[x].size && dv != top && psize == dv - p
               && p != dv
      requires u == (if p == x then {} else {p}) && Starts(V(), u, x, p)
      modifies this`m, this`C, this`dv, this`dvsize
      ensures Inv(V(), {}) && Frees(old(V()), V(), x) && Returns(old(C), C, x)
    {
      hide TreeIndex, Inv, Frees, Returns, Starts, Merged;
      ghost var h, hi := V(), dv + dvsize;
      DvReturns(h, u, x, p);
      VictimJoins(h, u, x, p);
      dvsize := dvsize + psize;
      var dsize := dvsize;
      dv := p;
      SetFreeChunkTags(p, dsize);
      C := Merged(C, p, hi, Free);
    }

    /** The block is followed by a binned chunk. */
    method FreeWithNext(x: int, p: int, psize0: int, next: int, ghost u: set<int>)
      requires Inv(V(), u) && x in C && C[x].kind == Live && next == x + C[x].size && psize0 == next - p
      requires next in C && !InUse(C[next].kind) && next != top && next != dv
      requires Ahead(V(), u, x, p)
      modifies this
      ensures Inv(V(), {}) && Frees(old(V()), V(), x)
      ensures segs == old(segs) ==> Returns(old(C), C, x)
    {
      hide TreeIndex, Inv, Frees, Returns, Same, SameChunks;
      ghost var h := V();
      FreeReads(h, u, x);
      var nsize := ChunkSize(Peek(m, next + 8));
      var psize := psize0 + nsize;
      NextNotLoose(h, u, x, p);
      UnlinkChunk(next, nsize, u);
      ghost var h1 := V();
      SameIsSame(h, h1);
      SameC(h, h1);
      FreeJoined(x, p, psize, next, next + nsize, u);
      SameFrees(h, h1, V(), x);
    }

    /** The chunk after the block has left its bin. */
    method FreeJoined(x: int, p: int, psize: int, next: int, ghost hi: int, ghost u: set<int>)
      requires Inv(V(), u + {next}) && x in C && C[x].kind == Live && next == x + C[x].size && psize == hi - p
      requires next in C && C[next].kind == Free && next != top && hi == next + C[next].size && Ahead(V(), u, x, p)
      modifies this
      ensures Inv(V(), {}) && Frees(old(V()), V(), x)
      ensures segs == old(segs) ==> Returns(old(C), C, x)
    {
      hide TreeIndex, Inv, Frees, Returns, Same, Merged, Ahead;
      ghost var h := V();
      BehindReady(h, u, x, p);
      JoinedReturns(h, u, x, p, next);
      SetFreeChunkTags(p, psize);
      C := Merged(C, p, hi, Free);
      if p == dv {
        dvsize := psize;
      } else {
        ghost var h1 := V();
        FreeBin(p, psize);
        FreesSame(h, h1, V(), x);
      }
    }

    // The operating system: success and addresses are its choice.

    /** New pages anywhere, except that no one segment grows to SIZE_LIMIT. */
    method CallMmap(size: int) returns (ok: bool, base: int)
      requires Inv(V(), {}) && size > 0
      modifies this`m, this`refusals
      ensures refusals == old(refusals) + if ok then 0 else 1
      ensures if ok then Fresh(old(m), base, size) && SegFits(segs, base, size) && m == MapIn(old(m), base, size)
              else m == old(m)
    {
      base := *;
      var willing: bool := *;
      var fits := SegmentFits(base, size);
      ok := willing && fits && Fresh(m, base, size);
      if ok { m := MapIn(m, base, size); } else { refusals := refusals + 1; }
    }

    method SegmentFits(base: int, size: int) returns (fits: bool)
      requires Inv(V(), {})
      ensures fits == SegFits(segs, base, size)
    {
      hide Inv, HeapOk, BinsOk, SegsOk;
      InvParts(V(), {});
      SegListOf(V());
      ListAt(V(), 0);
      var head := ms + SEG_OFS;
      if base == Peek(m, head) + Peek(m, head + 8) {
        fits := size < SIZE_LIMIT && Peek(m, head + 8) + size < SIZE_LIMIT;
      } else {
        var sp;
        ghost var k;
        sp, k := SegmentStarting(base + size);
        fits := size < SIZE_LIMIT;
        if sp != 0 {
          ListAt(V(), k);
          forall j {:trigger segs[j]} | 0 <= j < |segs| && segs[j].base == base + size
            ensures j == k
          {
            SegsDiffer(V(), j, k);
          }
          fits := fits && Peek(m, sp + 8) + size < SIZE_LIMIT;
        }
      }
    }

    method CallMunmap(base: int, size: int) returns (ok: bool)
      modifies this`m, this`refusals
      ensures refusals == old(refusals) + if ok then 0 else 1
      ensures m == if ok then MapOut(old(m), base, size) else old(m)
    {
      ok := *;
      if ok { m := MapOut(m, base, size); } else { refusals := refusals + 1; }
    }

    /** mremap that shrinks in place. */
    method CallMremap(base: int, osize: int, nsize: int) returns (ok: bool)
      requires nsize <= osize
      modifies this`m, this`refusals
      ensures refusals == old(refusals) + if ok then 0 else 1
      ensures m == if ok then MapOut(old(m), base + nsize, osize - nsize) else old(m)
    {
      ok := *;
      if ok { m := MapOut(m, base + nsize, osize - nsize); } else { refusals := refusals + 1; }
    }

    // Segments.

    /** The segment that holds an address. */
    method SegmentHolding(addr: int) returns (sp: int, ghost k: int)
      requires SegList(V())
      ensures if sp == 0 then
                forall j {:trigger segs[j]} :: 0 <= j < |segs| ==> !Holds(segs[j].base, segs[j].size, addr)
              else
                0 <= k < |segs| && sp == segs[k].rec && Holds(segs[k].base, segs[k].size, addr)
    {
      sp, k := ms + SEG_OFS, 0;
      while true
        invariant 0 <= k < |segs| && sp == segs[k].rec
        invariant forall j {:trigger segs[j]} :: 0 <= j < k ==> !Holds(segs[j].base, segs[j].size, addr)
        decreases |segs| - k
      {
        ListAt(V(), k);
        if addr >= Peek(m, sp) && addr < Peek(m, sp) + Peek(m, sp + 8) { return; }
        sp := Peek(m, sp + 16);
        if sp == 0 { return; }
        k := k + 1;
      }
    }

    /** The segment that ends at an address. */
    method SegmentEnding(addr: int) returns (sp: int, ghost k: int)
      requires SegList(V())
      ensures if sp == 0 then forall j {:trigger segs[j]} :: 0 <= j < |segs| ==> segs[j].End() != addr
              else 0 <= k < |segs| && sp == segs[k].rec && segs[k].End() == addr
    {
      sp, k := ms + SEG_OFS, 0;
      ListAt(V(), 0);
      while sp != 0 && addr != Peek(m, sp) + Peek(m, sp + 8)
        invariant sp != 0 ==>
          0 <= k < |segs| && sp == segs[k].rec && sp in m && sp + 8 in m && sp % 8 == 0 && R(m, sp) == segs[k].base
          && R(m, sp + 8) == segs[k].size
        invariant forall j {:trigger segs[j]} :: 0 <= j < (if sp == 0 then |segs| else k) ==> segs[j].End() != addr
        decreases if sp == 0 then 0 else |segs| - k
      {
        ListAt(V(), k);
        sp := Peek(m, sp + 16);
        k := k + 1;
        if sp != 0 { ListAt(V(), k); }
      }
    }

    /** The segment that starts at an address. */
    method SegmentStarting(addr: int) returns (sp: int, ghost k: int)
      requires SegList(V())
      ensures if sp == 0 then forall j {:trigger segs[j]} :: 0 <= j < |segs| ==> segs[j].base != addr
              else 0 <= k < |segs| && sp == segs[k].rec && segs[k].base == addr
    {
      sp, k := ms + SEG_OFS, 0;
      ListAt(V(), 0);
      while sp != 0 && Peek(m, sp) != addr
        invariant sp != 0 ==>
          0 <= k < |segs| && sp == segs[k].rec && sp in m && sp + 8 in m && sp % 8 == 0 && R(m, sp) == segs[k].base
          && R(m, sp + 8) == segs[k].size
        invariant forall j {:trigger segs[j]} :: 0 <= j < (if sp == 0 then |segs| else k) ==> segs[j].base != addr
        decreases if sp == 0 then 0 else |segs| - k
      {
        ListAt(V(), k);
        sp := Peek(m, sp + 16);
        k := k + 1;
        if sp != 0 { ListAt(V(), k); }
      }
    }

    /** Does a segment hold a segment record? */
    method HasSegmentLink(base: int, size: int) returns (r: bool)
      requires SegList(V())
      ensures r <==> exists k :: 0 <= k < |segs| && Holds(base, size, segs[k].rec)
    {
      var sp := ms + SEG_OFS;
      ghost var k := 0;
      while true
        invariant 0 <= k < |segs| && sp == segs[k].rec
        invariant forall j {:trigger segs[j]} :: 0 <= j < k ==> !Holds(base, size, segs[j].rec)
        decreases |segs| - k
      {
        ListAt(V(), k);
        if sp >= base && sp < base + size { return true; }
        sp := Peek(m, sp + 16);
        if sp == 0 { return false; }
        k := k + 1;
      }
    }

    method InitTop(p0: int, psize0: int)
      requires p0 % 8 == 0 && psize0 % 8 == 0 && p0 + 8 in m && p0 + psize0 + 8 in m
      modifies this`m, this`top, this`topsize, this`trimCheck
      ensures m == TopMem(old(m), p0, psize0) && top == p0 && topsize == psize0
    {
      var offset := AlignOffset(p0 + 16);
      var p, psize := p0 + offset, psize0 - offset;
      top := p;
      topsize := psize;
      m := Poke(m, p + 8, psize + 1);
      m := Poke(m, p + psize + 8, TOP_FOOT_SIZE);
      trimCheck := DEFAULT_TRIM_THRESHOLD;
    }

    /** The head segment grows at its end. */
    method AppendRegion(sp: int, base: int, size: int, ghost h: H)
      requires Inv(h, {}) && |h.segs| > 0 && sp == h.segs[0].rec && base == h.segs[0].End() && CanSeal(h, base, size)
               && h.segs[0].size + size < SIZE_LIMIT
      requires V() == h.(m := MapIn(h.m, base, size))
      modifies this`m, this`top, this`topsize, this`trimCheck, this`C, this`segs
      ensures Inv(V(), {}) && Same(h, V()) && topsize == h.tops + size
      ensures segs == h.segs[0 := h.segs[0].(size := h.segs[0].size + size)]
    {
      hide Inv, Same, HeapOk, BinsOk, SegsOk, TopMem, MapIn, CanSeal;
      Appended(h, base, size);
      AppendReads(h, base, size);
      m := Poke(m, sp + 8, Peek(m, sp + 8) + size);
      InitTop(top, topsize + size);
      C := C[top := Chunk(topsize, Top, true)];
      segs := segs[0 := segs[0].(size := segs[0].size + size)];
      assert V() == Resized(h, MapIn(h.m, base, size), h.tops + size);
    }

    /** Gives back the segments, other than the head, that hold nothing but one free chunk. */
    method ReleaseUnusedSegments() returns (released: int)
      requires Inv(V(), {})
      modifies this
      ensures Inv(V(), {}) && Same(old(V()), V()) && top == old(top) && topsize == old(topsize)
      ensures |segs| > 0 && |old(segs)| > 0 && segs[0] == old(segs)[0]
      ensures released == Bytes(old(segs)) - Bytes(segs) >= 0 && (released == 0 ==> segs == old(segs))
      ensures refusals >= old(refusals) && (refusals == old(refusals) ==> NoneUnused(C, segs))
      ensures segs == old(segs) ==> C == old(C)
    {
      hide TreeIndex, Inv, Same, Bytes;
      ghost var h := V();
      ListHead(h);
      SameRefl(h);
      released := 0;
      var nsegs := 0;
      var pred := ms + SEG_OFS;
      var sp := Peek(m, pred + 16);
      ghost var k := 1;
      while sp != 0
        invariant Inv(V(), {}) && Same(h, V()) && top == h.top && topsize == h.tops && nsegs >= 0
        invariant |segs| > 0 && segs[0] == h.segs[0] && 1 <= k <= |segs|
        invariant released == Bytes(h.segs) - Bytes(segs) >= 0 && (released == 0 ==> segs == h.segs)
        invariant pred == segs[k - 1].rec && sp == (if k < |segs| then segs[k].rec else 0)
        invariant refusals >= old(refusals) && |segs| <= |h.segs| && (|segs| == |h.segs| ==> C == h.C)
        invariant refusals == old(refusals) ==> NoneBelow(C, segs, k)
        decreases |segs| - k
      {
        ghost var h1 := V();
        nsegs := nsegs + 1;
        var size, next, gone := VisitSegment(sp, pred, k);
        SameTrans(h, h1, V());
        if gone {
          BytesAt(h1.segs, k, h1.segs[k]);
          SegPositive(h1, k);
          if refusals == old(refusals) { StillUsed(h1.C, h1.segs, C, segs, k); }
          released := released + size;
        } else {
          pred := sp;
          k := k + 1;
        }
        sp := next;
      }
      RecordPositive(V(), k);
      releaseChecks := if nsegs > MAX_RELEASE_CHECK_RATE then nsegs else MAX_RELEASE_CHECK_RATE;
    }

    /** Gives back one segment if its first chunk is free and takes up all of it. */
    method VisitSegment(sp: int, pred: int, ghost k: int) returns (size: int, next: int, gone: bool)
      requires Inv(V(), {}) && 1 <= k < |segs| && pred == segs[k - 1].rec && sp == segs[k].rec
      modifies this
      ensures Inv(V(), {}) && Same(old(V()), V()) && top == old(top) && topsize == old(topsize)
      ensures segs == if gone then old(segs)[..k] + old(segs)[k + 1..] else old(segs)
      ensures next == (if k + 1 < |old(segs)| then old(segs)[k + 1].rec else 0)
      ensures k + 1 < |old(segs)| ==> next != 0
      ensures size == old(segs)[k].size
      ensures refusals >= old(refusals) && (refusals == old(refusals) && !gone ==> !Unused(old(C), old(segs), k))
      ensures if gone then forall q {:trigger C[q]} :: q in C ==> q in old(C) && C[q] == old(C)[q] else C == old(C)
    {
      hide TreeIndex, Inv, Same, Droppable;
      ghost var h := V();
      VisitReads(h, k);
      SameRefl(h);
      var base := Peek(m, sp);
      size := Peek(m, sp + 8);
      next := Peek(m, sp + 16);
      var p := base + AlignOffset(base + 16);
      var psize := ChunkSize(Peek(m, p + 8));
      gone := false;
      if !Cinuse(Peek(m, p + 8)) && p + psize >= base + size - TOP_FOOT_SIZE {
        gone := ReleaseSegment(p, psize, pred, base, size, next, k);
      }
    }

    /** Takes the segment's chunk out of its place and unmaps the segment, or puts the chunk back. */
    method ReleaseSegment(p: int, psize: int, pred: int, base: int, size: int, next: int,
                          ghost k: int) returns (gone: bool)
      requires Inv(V(), {}) && Droppable(V(), k) && p == base == segs[k].base && size == segs[k].size
               && psize == C[p].size
      requires pred == segs[k - 1].rec && next == R(m, segs[k].rec + 16)
      modifies this
      ensures Inv(V(), {}) && Same(old(V()), V()) && top == old(top) && topsize == old(topsize)
      ensures segs == if gone then old(segs)[..k] + old(segs)[k + 1..] else old(segs)
      ensures refusals == old(refusals) + if gone then 0 else 1
      ensures if gone then forall q {:trigger C[q]} :: q in C ==> q in old(C) && C[q] == old(C)[q] else C == old(C)
    {
      hide TreeIndex, Inv, Same, SameChunks, Binned;
      ghost var h := V();
      Vacate(p, k);
      ghost var h1 := V();
      DropReads(h, h1, k);
      gone := CallMunmap(base, size);
      if gone {
        UnlinkSegment(pred, base, size, next, k, h1);
      } else {
        assert {p} - {p} == {};
        InsertChunk(p, psize, {p});
        SameIsSame(h1, V());
        SameC(h1, V());
      }
      SameTrans(h, h1, V());
    }

    /** The record before an unmapped segment skips it. */
    method UnlinkSegment(pred: int, base: int, size: int, next: int, ghost k: int, ghost h1: H)
      requires 0 < k < |h1.segs| && Inv(h1, {h1.segs[k].base}) && Droppable(h1, k) && h1.segs[k - 1].rec % 8 == 0
      requires base == h1.segs[k].base && size == h1.segs[k].size && pred == h1.segs[k - 1].rec
      requires next == R(h1.m, h1.segs[k].rec + 16) && V() == h1.(m := MapOut(h1.m, base, size)) && pred + 16 in m
      modifies this`m, this`C, this`segs
      ensures Inv(V(), {}) && Same(h1, V()) && segs == h1.segs[..k] + h1.segs[k + 1..]
      ensures forall q {:trigger C[q]} :: q in C ==> q in h1.C && C[q] == h1.C[q]
    {
      hide Inv, Same, HeapOk, BinsOk, SegsOk, MapOut;
      DropInv(h1, k);
      m := Poke(m, pred + 16, next);
      C := map q | q in C && !(base <= q < base + size) :: C[q];
      segs := segs[..k] + segs[k + 1..];
      assert V() == DropSeg(h1, k);
    }

    /** The only free chunk of a segment leaves its bin, or stops being the designated victim. */
    method Vacate(p: int, ghost k: int)
      requires Inv(V(), {}) && Droppable(V(), k) && p == segs[k].base
      modifies this`m, this`treemap, this`T, this`dv, this`dvsize
      ensures Inv(V(), {p}) && Same(old(V()), V())
    {
      hide TreeIndex, Inv, Same, SameChunks, HeapOk, BinsOk, SegsOk, Binned, InTree;
      ghost var h := V();
      InvParts(h, {});
      assert {} + {p} == {p};
      if p == dv {
        DvNonZero(h, {}, p);
        DropDvSame(h, {});
        dv := 0;
        dvsize := 0;
      } else {
        DropSize(h, k);
        InTreeNow(h, p);
        UnlinkLargeChunk(p, {});
        SameIsSame(h, V());
      }
    }

    /** Shrinks top in units of the granularity, and gives back unused segments. */
    method AllocTrim(pad0: int) returns (r: bool)
      requires Inv(V(), {}) && 0 <= pad0 < TWO64
      modifies this
      ensures Inv(V(), {}) && Same(old(V()), V())
      ensures Bytes(segs) <= Bytes(old(segs)) && (r <==> Bytes(segs) < Bytes(old(segs)))
      ensures topsize <= old(topsize) && (topsize < old(topsize) ==> topsize >= pad0 + TOP_FOOT_SIZE)
      ensures pad0 < MAX_REQUEST && refusals == old(refusals) ==>
        NoneUnused(C, segs) && (Pinned(old(segs)) || topsize <= pad0 + TOP_FOOT_SIZE + GRANULARITY)
      ensures segs == old(segs) ==> C == old(C)
    {
      hide TreeIndex, Inv, Same, HeapOk, BinsOk, SegsOk, SegList, Resized, Bytes;
      ghost var h := V();
      SameRefl(h);
      RecordPositive(h, 0);
      var released := 0;
      if pad0 < MAX_REQUEST && top != 0 {
        var pad := pad0 + TOP_FOOT_SIZE;
        if topsize > pad {
          released := TrimTop(pad);
        }
        ghost var h1 := V();
        var more := ReleaseUnusedSegments();
        SameTrans(h, h1, V());
        released := released + more;
        if released == 0 && topsize > trimCheck { trimCheck := MAX_SIZE_T; }
      }
      r := released != 0;
    }

    /** The part of alloc_trim that unmaps the end of the head segment. */
    method TrimTop(pad: int) returns (released: int)
      requires Inv(V(), {}) && TOP_FOOT_SIZE <= pad < topsize
      modifies this`m, this`top, this`topsize, this`trimCheck, this`C, this`segs, this`refusals
      ensures Inv(V(), {}) && Same(old(V()), V()) && released >= 0
      ensures refusals >= old(refusals) && (released == 0 ==> C == old(C))
      ensures refusals == old(refusals) && !Pinned(old(segs)) ==> topsize <= pad + GRANULARITY
      ensures topsize == old(topsize) - released && released % GRANULARITY == 0 && topsize >= pad
      ensures released == Bytes(old(segs)) - Bytes(segs)
    {
      hide TreeIndex, Inv, Same, HeapOk, BinsOk, SegsOk, SegList, TopMem, MapOut;
      ghost var h := V();
      InvParts(h, {});
      SegListOf(h);
      SameRefl(h);
      released := 0;
      var extra := ((topsize - pad + (GRANULARITY - 1)) / GRANULARITY - 1) * GRANULARITY;
      TrimUnits(topsize - pad);
      var sp;
      ghost var k;
      sp, k := SegmentHolding(top);
      TopHolder(h, k);
      assert sp != 0;
      ListAt(h, 0);
      if Peek(m, sp + 8) >= extra {
        var pinned := HasSegmentLink(Peek(m, sp), Peek(m, sp + 8));
        if !pinned {
          var newsize := Peek(m, sp + 8) - extra;
          var base := Peek(m, sp);
          var ok := CallMremap(base, newsize + extra, newsize);
          if !ok { ok := CallMunmap(base + newsize, extra); }
          if ok { released := extra; }
        }
      }
      if released != 0 {
        CutTop(sp, released, h);
        BytesAt(h.segs, 0, segs[0]);
      } else {
        NothingOut(h.m, h.segs[0].End() - extra);
      }
    }

    /** The end of the head segment is gone: its size and top follow. */
    method CutTop(sp: int, released: int, ghost h: H)
      requires Inv(h, {}) && |h.segs| > 0 && released > 0 && released % GRANULARITY == 0 && h.tops - released >= 8
      requires sp == h.segs[0].rec && V() == h.(m := MapOut(h.m, h.segs[0].End() - released, released))
      modifies this`m, this`top, this`topsize, this`trimCheck, this`C, this`segs
      ensures Inv(V(), {}) && Same(h, V()) && topsize == h.tops - released
      ensures segs == h.segs[0 := h.segs[0].(size := h.segs[0].size - released)]
    {
      hide Inv, Same, HeapOk, BinsOk, SegsOk, TopMem, MapOut;
      Trimmed(h, released);
      TrimReads(h, released);
      m := Poke(m, sp + 8, Peek(m, sp + 8) - released);
      InitTop(top, topsize - released);
      C := C[top := Chunk(topsize, Top, true)];
      segs := segs[0 := segs[0].(size := segs[0].size - released)];
      assert V() == Resized(h, MapOut(h.m, h.segs[0].End() - released, released), h.tops - released);
    }

    /** The region lies just below a segment: the block comes from its front, the rest joins the segment's first
        chunk. */
    method PrependAlloc(newbase: int, oldbase: int, nb: int, ghost h: H, ghost k: int, ghost size: int) returns (p: int)
      requires CanHalve(h, k, newbase, size, nb) && oldbase == newbase + size
      requires V() == h.(m := MapIn(h.m, newbase, size)[h.segs[k].rec := newbase]
               [h.segs[k].rec + 8 := h.segs[k].size + size],
                         segs := h.segs[k := Seg(newbase, h.segs[k].size + size, h.segs[k].rec)])
      modifies this
      ensures p == newbase && Inv(V(), {}) && Grants(h, V(), p, nb) && segs == old(segs) && refusals == old(refusals)
      ensures Tight(C, p, nb)
    {
      hide TreeIndex, Inv, Grants, Frees, Same, HeapOk, BinsOk, SegsOk, MapIn, CanHalve, CanPrepend, Starts, Halved;
      HalvedAligned(h, k, newbase, size, nb);
      HalvedSegs(h, k, newbase, size, nb);
      ghost var s := Halved(h, k, newbase, size, nb);
      HalvedMem(h, k, newbase, size, nb);
      p := newbase + AlignOffset(newbase + 16);
      var oldfirst := oldbase + AlignOffset(oldbase + 16);
      var psize := oldfirst - p;
      var q := p + nb;
      var qsize := psize - nb;
      m := Poke(m, p + 8, nb + 3);
      assert m == HalfMem(h.m, h.segs[k].rec, newbase, size, h.segs[k].size + size, nb);
      HalvedState(h, k, newbase, size, nb, V());
      if oldfirst == top {
        RestIntoTop(q, qsize, oldfirst, s);
      } else if oldfirst == dv {
        RestIntoDv(q, qsize, oldfirst, s);
      } else {
        RestIntoBin(q, qsize, oldfirst, s);
      }
      HalvedGrants(h, k, newbase, size, nb, V());
    }

    /** The rest of the region lies just below top. */
    method RestIntoTop(q: int, qsize: int, oldfirst: int, ghost s: H)
      requires RestReady(V(), s, q, qsize, oldfirst) && oldfirst == top
      modifies this`m, this`top, this`topsize, this`C, this`segs
      ensures Inv(V(), {}) && Frees(s, V(), q) && segs == s.segs
    {
      hide TreeIndex, Inv, Frees, Starts, Merged;
      JoinedTop(s, {}, q, q);
      topsize := topsize + qsize;
      var tsize := topsize;
      top := q;
      m := Poke(m, q + 8, tsize + 1);
      C := Merged(s.C, q, s.top + s.tops, Top);
      segs := s.segs;
      RestMem(s.m, m, q, qsize, tsize + 1);
      assert V() == ReleaseTop(s, q);
    }

    /** The rest of the region lies just below the designated victim. */
    method RestIntoDv(q: int, qsize: int, oldfirst: int, ghost s: H)
      requires RestReady(V(), s, q, qsize, oldfirst) && oldfirst == dv && dv != top
      modifies this`m, this`dv, this`dvsize, this`C, this`segs
      ensures Inv(V(), {}) && Frees(s, V(), q) && segs == s.segs
    {
      hide TreeIndex, Inv, Frees, Same, Starts, Merged;
      DvNonZero(s, {}, dv);
      DropDvSame(s, {});
      ghost var g, hi := DropDv(s), dv + dvsize;
      assert {} + {dv} == {dv};
      RestStarts(s, q);
      JoinedDv(g, {dv}, q, q, hi);
      SameFrees(s, g, Release(g, q, hi).(dv := q, dvs := hi - q), q);
      ReleaseMem(s, {}, q, q, dv, hi);
      HiMapped(m, s.m, q, qsize + 3, hi);
      ghost var m0 := m;
      dvsize := dvsize + qsize;
      var dsize := dvsize;
      dv := q;
      SetFreeChunkTags(q, dsize);
      C := Merged(s.C, q, hi, Free);
      segs := s.segs;
      RestFreeMem(s.m, m0, q, qsize, dsize);
      assert V() == Release(g, q, hi).(dv := q, dvs := hi - q);
    }

    /** The rest of the region goes into a bin, together with the segment's first chunk when that is free. */
    method RestIntoBin(q: int, qsize0: int, oldfirst0: int, ghost s: H)
      requires RestReady(V(), s, q, qsize0, oldfirst0) && oldfirst0 != dv && oldfirst0 != top
      modifies this
      ensures Inv(V(), {}) && Frees(s, V(), q) && segs == s.segs && refusals == old(refusals)
    {
      hide TreeIndex, Inv, Frees, Same, SameChunks, Merged;
      var qsize, oldfirst := qsize0, oldfirst0;
      // The head of the rest is written here as well as below, so that the chunks tile memory while a bin is changed.
      m := Poke(m, q + 8, qsize + 3);
      C := s.C;
      segs := s.segs;
      assert V() == s;
      ghost var u: set<int> := {};
      FreeReads(s, {}, q);
      if !Cinuse(Peek(m, oldfirst + 8)) {
        var nsize := ChunkSize(Peek(m, oldfirst + 8));
        UnlinkChunk(oldfirst, nsize, {});
        u := {oldfirst};
        assert {} + {oldfirst} == u;
        oldfirst := oldfirst + nsize;
        qsize := qsize + nsize;
        SameIsSame(s, V());
        SameC(s, V());
      } else {
        SameRefl(s);
      }
      ghost var h1 := V();
      BinRest(q, qsize, oldfirst, u);
      SameFrees(s, h1, V(), q);
    }

    /** Frees the block q, merged with loose chunks up to hi, into a bin. */
    method BinRest(q: int, qsize: int, hi: int, ghost u: set<int>)
      requires Inv(V(), u) && Starts(V(), u, q, q) && EndsAt(V(), u, q, hi) && q + C[q].size != top && qsize == hi - q
      requires forall x {:trigger x in u} :: x in u ==> q <= x < hi
      modifies this
      ensures Inv(V(), {}) && Frees(old(V()), V(), q) && segs == old(segs) && refusals == old(refusals)
    {
      hide TreeIndex, Inv, Frees, Same, SameChunks, Merged, Starts, EndsAt;
      ghost var h := V();
      JoinReady(h, u, q, q, hi);
      SetFreeWithPinuseTags(q, qsize, hi);
      C := Merged(C, q, hi, Free);
      ghost var h1 := V();
      assert h1 == WithPinuse(h, q, hi);
      InsertChunk(q, qsize, {q});
      assert {q} - {q} == {};
      SameIsSame(h1, V());
      FreesSame(h, h1, V(), q);
    }

    /** The end of the segment that holds top, and the place near it for a segment record. */
    method RecordPlace(ghost h: H, ghost base: int, ghost size: int) returns (end: int, csp: int)
      requires Inv(h, {}) && CanSeal(h, base, size) && V() == h.(m := MapIn(h.m, base, size))
      ensures end == h.top + h.tops + TOP_FOOT_SIZE && csp == RecordSite(h.top, h.tops)
    {
      hide TreeIndex, Inv, HeapOk, BinsOk, SegsOk, MapIn, CanSeal, SegList;
      InvParts(h, {});
      SealReads(h, base, size);
      var oldsp;
      ghost var k;
      oldsp, k := SegmentHolding(top);
      TopHolder(h, k);
      assert oldsp != 0;
      end := Peek(m, oldsp) + Peek(m, oldsp + 8);
      var rawsp := end - (SEG_CHUNK_SIZE + 32 + 7);
      var asp := rawsp + AlignOffset(rawsp + 16);
      csp := if asp < top + MIN_CHUNK_SIZE then top else asp;
      RawSite(h.top, h.tops, rawsp);
    }

    /** Top is the new region, and the old one ends with a segment record and fenceposts. */
    method SealTop(tbase: int, tsize: int, ghost h: H) returns (csp: int)
      requires Inv(h, {}) && CanSeal(h, tbase, tsize) && V() == h.(m := MapIn(h.m, tbase, tsize))
      modifies this`m, this`top, this`topsize, this`trimCheck
      ensures csp == RecordSite(h.top, h.tops) && top == tbase && topsize == tsize - TOP_FOOT_SIZE && |h.segs| > 0
      ensures m == SealMem(MapIn(h.m, tbase, tsize), h.top, h.tops, h.segs[0].rec, tbase, tsize)
    {
      hide TreeIndex, Inv, HeapOk, BinsOk, SegsOk, MapIn, CanSeal, SegList, TopMem, SealMem;
      InvParts(h, {});
      SealReads(h, tbase, tsize);
      var oldEnd;
      oldEnd, csp := RecordPlace(h, tbase, tsize);
      InitTop(tbase, tsize - TOP_FOOT_SIZE);
      WriteRecord(csp, tbase, tsize, oldEnd, h);
    }

    /** The region becomes the head segment; what is left of the old top goes into a bin. */
    method AddSegment(tbase: int, tsize: int, ghost h: H)
      requires Inv(h, {}) && CanSeal(h, tbase, tsize) && V() == h.(m := MapIn(h.m, tbase, tsize))
      modifies this
      ensures Inv(V(), {}) && Same(h, V()) && topsize == tsize - TOP_FOOT_SIZE && |h.segs| > 0
              && segs == SealedState(h, tbase, tsize).segs
      ensures refusals == old(refusals)
    {
      hide TreeIndex, Inv, Same, HeapOk, BinsOk, SegsOk, MapIn, CanSeal, SegList, SealedChunks, FenceMem, SealPlaces,
          Sealed, TopMem;
      InvParts(h, {});
      var oldTop := top;
      var csp := SealTop(tbase, tsize, h);
      StateSealed(h, tbase, tsize);
      SealedInv(h, {}, SealedState(h, tbase, tsize), tbase, tsize);
      C := SealedChunks(h.C, h.top, h.tops, tbase, tsize);
      segs := SealedState(h, tbase, tsize).segs;
      if csp != oldTop {
        RestOfTop(oldTop, csp, h, tbase, tsize);
      } else {
        assert V() == SealedState(h, tbase, tsize);
      }
    }

    /** The record of the old head segment, the new head record, and the fenceposts. */
    method WriteRecord(csp: int, tbase: int, tsize: int, oldEnd: int, ghost h: H)
      requires |h.segs| > 0 && ms + SEG_OFS == h.segs[0].rec && csp == RecordSite(h.top, h.tops)
               && oldEnd == h.top + h.tops + TOP_FOOT_SIZE
      requires m == TopMem(MapIn(h.m, tbase, tsize), tbase, tsize - TOP_FOOT_SIZE)
      requires csp % 8 == 0 && oldEnd % 8 == 0 && (ms + SEG_OFS) % 8 == 0 && csp + SEG_CHUNK_SIZE + 16 <= oldEnd
      requires forall a {:trigger a in m} :: csp + 8 <= a < oldEnd || ms + SEG_OFS <= a <= ms + SEG_OFS + 16 ==> a in m
      requires ms + SEG_OFS + SEG_WORDS <= csp + 8 || oldEnd <= ms + SEG_OFS
      modifies this`m
      ensures m == SealMem(MapIn(h.m, tbase, tsize), h.top, h.tops, h.segs[0].rec, tbase, tsize)
    {
      hide MapIn, TopMem;
      ghost var m0 := m;
      var rec := ms + SEG_OFS;
      Eights(csp, 8); Eights(csp, 16); Eights(csp, 24); Eights(csp, 32);
      Eights(rec, 8); Eights(rec, 16);
      m := Poke(m, csp + 8, SEG_CHUNK_SIZE + 3);
      var ss := csp + 16;
      m := Poke(m, ss, Peek(m, rec));
      m := Poke(m, ss + 8, Peek(m, rec + 8));
      m := Poke(m, ss + 16, Peek(m, rec + 16));
      m := Poke(m, rec, tbase);
      m := Poke(m, rec + 8, tsize);
      m := Poke(m, rec + 16, ss);
      assert m == SealRecord(m0, rec, csp, tbase, tsize);
      Fenceposts(csp + SEG_CHUNK_SIZE, oldEnd);
    }

    method Fenceposts(tnext: int, oldEnd: int)
      requires tnext % 8 == 0 && oldEnd % 8 == 0 && tnext + 16 <= oldEnd
      requires forall a {:trigger a in m} :: tnext <= a < oldEnd ==> a in m
      modifies this`m
      ensures m == FenceMem(old(m), tnext, oldEnd)
    {
      ghost var m0 := m;
      var p := tnext;
      while true
        invariant p % 8 == 0 && tnext <= p && p + 16 <= oldEnd
        invariant forall a {:trigger a in m} :: tnext <= a < oldEnd ==> a in m
        invariant FenceMem(m, p, oldEnd) == FenceMem(m0, tnext, oldEnd)
        decreases oldEnd - p
      {
        var nextp := p + 8;
        m := Poke(m, p + 8, FENCE_HEAD);
        if nextp + 8 < oldEnd { p := nextp; } else { break; }
      }
    }

    /** What is left of the old top becomes an ordinary free chunk. */
    method RestOfTop(oldTop: int, csp: int, ghost h: H, ghost tbase: int, ghost tsize: int)
      requires Inv(h, {}) && |h.segs| > 0 && oldTop == h.top && csp == RecordSite(h.top, h.tops) && csp != oldTop
      requires CanSeal(h, tbase, tsize)
      requires Inv(SealedState(h, tbase, tsize), {}) && SealedBlocks(h, SealedState(h, tbase, tsize))
      requires var sealed := SealMem(MapIn(h.m, tbase, tsize), h.top, h.tops, h.segs[0].rec, tbase, tsize);
               V() == SealedState(h, tbase, tsize).(m := sealed)
      modifies this`m, this`smallmap, this`treemap, this`sb, this`T, this`C
      ensures Inv(V(), {}) && Same(h, V()) && topsize == tsize - TOP_FOOT_SIZE
    {
      hide TreeIndex, Inv, Same, SameChunks, Frees, Grants, HeapOk, BinsOk, SegsOk, MapIn, CanSeal, SealedChunks,
          SealMem, Merged;
      ghost var s := SealedState(h, tbase, tsize);
      RestOfTopReady(h, tbase, tsize);
      var psize := csp - oldTop;
      Joined(s, {}, oldTop, oldTop, csp);
      SetFreeWithPinuseTags(oldTop, psize, csp);
      C := Merged(C, oldTop, csp, Free);
      ghost var h1 := V();
      assert h1 == Release(s, oldTop, csp);
      InsertChunk(oldTop, psize, {oldTop});
      assert {oldTop} - {oldTop} == {};
      SameIsSame(h1, V());
      SameC(h1, V());
      FreesSame(s, h1, V(), oldTop);
      GrantsFrees(h, s, V(), oldTop, h.tops);
    }

    /** Memory from the operating system; the request may be one that cannot be met. */
    method AllocSys(nb: int) returns (p: int)
      requires Inv(V(), {}) && MIN_CHUNK_SIZE <= nb < TWO64 && (nb % 8 == 0 || nb == MAX_SIZE_T)
      modifies this
      ensures p == 0 ==> V() == old(V())
      ensures p != 0 ==> Inv(V(), {}) && Grants(old(V()), V(), p, nb) && Bytes(segs) == Bytes(old(segs)) + RegionFor(nb)
      ensures p != 0 ==> Tight(C, p, nb)
      ensures p == 0 <==> RegionFor(nb) <= nb || refusals > old(refusals)
      ensures nb == MAX_SIZE_T ==> p == 0
    {
      hide TreeIndex, Inv, Grants, Same, HeapOk, BinsOk, SegsOk, SegList, MapIn, RegionFor;
      ghost var h := V();
      p := 0;
      var rsize := RegionFor(nb);
      RegionFits(nb);
      if rsize > nb {
        var ok, tbase := CallMmap(rsize);
        if ok {
          p := UseRegion(nb, tbase, rsize, h);
        }
      }
    }

    /** The region below a segment joins it and serves the request. */
    method PrependRegion(sp: int, tbase: int, tsize: int, nb: int, ghost h: H, ghost k: int) returns (p: int)
      requires CanHalve(h, k, tbase, tsize, nb) && SegsOk(h) && V() == h.(m := MapIn(h.m, tbase, tsize))
      requires SegList(V()) && sp == h.segs[k].rec
      modifies this
      ensures p != 0 && Inv(V(), {}) && Grants(h, V(), p, nb) && Bytes(segs) == Bytes(h.segs) + tsize
              && refusals == old(refusals) && Tight(C, p, nb)
    {
      hide TreeIndex, Inv, Grants, HeapOk, BinsOk, SegsOk, MapIn, Bytes;
      ListAt(V(), k);
      var oldbase := Peek(m, sp);
      m := Poke(m, sp, tbase);
      m := Poke(m, sp + 8, Peek(m, sp + 8) + tsize);
      segs := segs[k := Seg(tbase, segs[k].size + tsize, segs[k].rec)];
      BytesAt(h.segs, k, segs[k]);
      p := PrependAlloc(tbase, oldbase, nb, h, k, tsize);
      GrantsNonZero(h, V(), p, nb);
    }

    /** A fresh region: appended to the head segment, prepended to some segment, or a new head segment. */
    method UseRegion(nb: int, tbase: int, tsize: int, ghost h: H) returns (p: int)
      requires Inv(h, {}) && CanSeal(h, tbase, tsize) && SegFits(h.segs, tbase, tsize)
               && V() == h.(m := MapIn(h.m, tbase, tsize))
      requires MIN_CHUNK_SIZE <= nb && nb % 8 == 0 && nb + TOP_FOOT_SIZE < tsize
      modifies this
      ensures p != 0 && Inv(V(), {}) && Grants(h, V(), p, nb) && Bytes(segs) == Bytes(h.segs) + tsize
              && refusals == old(refusals) && Tight(C, p, nb)
    {
      hide TreeIndex, Inv, Grants, Same, HeapOk, BinsOk, SegsOk, SegList, MapIn, Bytes;
      InvParts(h, {});
      SealReads(h, tbase, tsize);
      TopHolder(h, 0);
      var sp;
      ghost var k;
      sp, k := SegmentEnding(tbase);
      if sp != 0 { ListAt(V(), k); HeadHolds(h, k); SegsDiffer(h, k, 0); }
      if sp != 0 && Holds(Peek(m, sp), Peek(m, sp + 8), top) {
        AppendRegion(sp, tbase, tsize, h);
        BytesAt(h.segs, 0, segs[0]);
      } else {
        sp, k := SegmentStarting(tbase + tsize);
        if sp != 0 {
          p := PrependRegion(sp, tbase, tsize, nb, h, k);
          return;
        } else {
          AddSegment(tbase, tsize, h);
          BytesSealed(h, tbase, tsize);
        }
      }
      ghost var h1 := V();
      TopsNow(h1);
      assert nb < topsize by { HeadTops(h); }
      p := FromTop(nb);
      SameGrants(h, h1, V(), p, nb);
    }

    // The interface.

    /** Null, or a new block of at least nsize bytes. */
    method Malloc(nsize: int) returns (mem: int)
      requires Inv(V(), {}) && 0 <= nsize < TWO64
      modifies this
      ensures Inv(V(), {})
      ensures mem == 0 ==> V() == old(V())
      ensures mem != 0 ==> mem % 8 == 0 && Grants(old(V()), V(), mem - 16, nsize + 8)
      ensures mem != 0 ==> Tight(C, mem - 16, Request(nsize))
      ensures mem != 0 && segs == old(segs) ==> Carves(old(C), C, mem - 16)
      ensures nsize >= MAX_REQUEST ==> mem == 0
      ensures mem == 0 && nsize < MAX_REQUEST ==> NoRoom(old(V()), Request(nsize))
      ensures mem == 0 && nsize < MAX_REQUEST ==>
        RegionFor(Request(nsize)) <= Request(nsize) || refusals > old(refusals)
    {
      hide TreeIndex, Inv, Grants, Carves, NoRoom, BinsFull, RegionFor;
      ghost var h := V();
      var p, nb := MallocBins(nsize);
      if p == 0 {
        p := MallocRest(nb);
        if nsize < MAX_REQUEST && nb > h.dvs && nb >= h.tops { NoRoomLeft(h, nb); }
      }
      if p == 0 {
        mem := 0;
      } else {
        if nsize < MAX_REQUEST { Padded(nsize); }
        GrantsNonZero(h, V(), p, nb);
        GrantsLess(h, V(), p, nb, nsize + 8);
        mem := p + 16;
      }
    }

    /** The chunk size for a request, and a chunk from the bins if they have one for it. */
    method MallocBins(nsize: int) returns (p: int, nb: int)
      requires Inv(V(), {}) && 0 <= nsize < TWO64
      modifies this`m, this`smallmap, this`treemap, this`sb, this`T, this`C, this`dv, this`dvsize
      ensures nb == if nsize >= MAX_REQUEST then MAX_SIZE_T else Request(nsize)
      ensures p == 0 ==> V() == old(V()) && (nsize < MAX_REQUEST ==> nb <= dvsize || BinsFull(V(), nb))
      ensures p != 0 ==> nsize < MAX_REQUEST && Inv(V(), {}) && Grants(old(V()), V(), p, nb)
      ensures p != 0 ==> Tight(C, p, nb) && Carves(old(C), C, p)
    {
      hide TreeIndex, Inv, Grants, Carves, Best, NoFit, BinsFull, Ffs;
      ghost var h := V();
      p := 0;
      if nsize <= MAX_SMALL_REQUEST {
        nb := Request(nsize);
        Padded(nsize);
        p := MallocSmall(nb);
        if p == 0 && nb > h.dvs { SmallBinsFull(h, nb); }
      } else if nsize >= MAX_REQUEST {
        nb := MAX_SIZE_T;
      } else {
        nb := PadRequest(nsize);
        Padded(nsize);
        if treemap != {} {
          ghost var best;
          p, best := TmallocLarge(nb);
        }
        if p == 0 && nb > h.dvs { LargeBinsFull(h, nb); }
      }
    }

    /** The designated victim, top, or the system. */
    method MallocRest(nb: int) returns (p: int)
      requires Inv(V(), {}) && MIN_CHUNK_SIZE <= nb < TWO64 && (nb % 8 == 0 || nb == MAX_SIZE_T)
      modifies this
      ensures p == 0 ==>
        V() == old(V()) && nb > dvsize && nb >= topsize && (RegionFor(nb) <= nb || refusals > old(refusals))
      ensures p != 0 ==> nb != MAX_SIZE_T && Inv(V(), {}) && Grants(old(V()), V(), p, nb) && Tight(C, p, nb)
      ensures p != 0 && segs == old(segs) ==> Carves(old(C), C, p)
    {
      hide TreeIndex, Inv, Grants, Carves, Bytes;
      DvSmall(V());
      if nb <= dvsize {
        p := FromDv(nb);
      } else if nb < topsize {
        p := FromTop(nb);
      } else {
        p := AllocSys(nb);
      }
    }

    /** Null, or the block moved or resized in place with its contents kept. */
    method Realloc(ptr: int, nsize: int) returns (mem: int)
      requires Inv(V(), {}) && ptr - 16 in LiveSet(V()) && 0 <= nsize < TWO64
      modifies this
      ensures Inv(V(), {}) && ptr - 16 in old(C)
      ensures mem == 0 ==> V() == old(V())
      ensures mem != 0 ==> mem % 8 == 0 && Reallocs(old(V()), V(), ptr - 16, mem - 16, nsize)
      ensures mem != 0 ==> Tight(C, mem - 16, Request(nsize))
      ensures nsize >= MAX_REQUEST ==> mem == 0
      ensures nsize < MAX_REQUEST && InPlace(old(V()), ptr - 16, Request(nsize)) ==> mem == ptr
      ensures nsize < MAX_REQUEST && mem == 0 ==> NoRoom(old(V()), Request(nsize))
      ensures mem == 0 && nsize < MAX_REQUEST ==>
        RegionFor(Request(nsize)) <= Request(nsize) || refusals > old(refusals)
    {
      hide TreeIndex, Inv, Grants, Frees, HeapOk, BinsOk, Reallocs, Shrink, GrowTop, NoRoom;
      ghost var h := V();
      mem := 0;
      if nsize < MAX_REQUEST {
        var oldp := ptr - 16;
        FreeReads(h, {}, oldp);
        var oldsize := ChunkSize(Peek(m, oldp + 8));
        var next := oldp + oldsize;
        var nb := Request(nsize);
        Padded(nsize);
        if oldsize >= nb {
          var rsize := oldsize - nb;
          if rsize >= MIN_CHUNK_SIZE {
            ShrinkBlock(oldp, nb, rsize, nsize);
          } else {
            StaysPut(h, oldp, nsize);
          }
          mem := ptr;
        } else if next == top && oldsize + topsize > nb {
          GrowBlock(oldp, nb, oldsize, nsize);
          mem := ptr;
        } else {
          mem := MoveBlock(ptr, oldp, oldsize, nsize);
        }
      }
    }

    method SetInuseTags(p: int, s: int)
      requires p % 8 == 0 && s % 8 == 0 && p + 8 in m && p + s + 8 in m && s > 0
      modifies this`m
      ensures m == SetInuse(old(m), p, s)
    {
      m := Poke(m, p + 8, Peek(m, p + 8) % 2 + s + 2);
      m := Poke(m, p + s + 8, OrPinuse(Peek(m, p + s + 8)));
    }

    /** Cuts off the end of a block and frees it. */
    method ShrinkBlock(p: int, nb: int, rsize: int, nsize: int)
      requires Inv(V(), {}) && p in LiveSet(V()) && C[p].size == nb + rsize && nb % 8 == 0 && MIN_CHUNK_SIZE <= nb
               && MIN_CHUNK_SIZE <= rsize
      requires 0 <= nsize <= nb - 8
      modifies this
      ensures Inv(V(), {}) && p in old(C) && Reallocs(old(V()), V(), p, p, nsize) && p in C && C[p].size == nb
    {
      hide TreeIndex, Inv, Frees, Reallocs, SetInuse, LiveSet;
      ghost var h := V();
      InLive(h, p);
      ShrinkReads(h, p, nb);
      var rem := p + nb;
      SetInuseTags(p, nb);
      KeysKept(h.m, p, nb, rem);
      SetInuseTags(rem, rsize);
      C := Shrink(h, p, nb).C;
      assert V() == Shrink(h, p, nb);
      RemLive(h, p, nb);
      FreeBlock(rem + 16);
      ShrunkFreed(h, p, nb, V(), nsize);
    }

    method GrowTags(p: int, nb: int, rest: int)
      requires p % 8 == 0 && nb % 8 == 0 && p + 8 in m && p + nb + 8 in m && nb > 0
      modifies this`m
      ensures m == SetInuse(old(m), p, nb)[p + nb + 8 := rest + 1]
    {
      KeysKept(m, p, nb, p + nb);
      SetInuseTags(p, nb);
      m := Poke(m, p + nb + 8, rest + 1);
    }

    /** Extends a block into top. */
    method GrowBlock(p: int, nb: int, oldsize: int, nsize: int)
      requires Inv(V(), {}) && p in LiveSet(V()) && C[p].size == oldsize && p + oldsize == top && nb % 8 == 0
      requires oldsize < nb < oldsize + topsize && 0 <= nsize <= nb - 8
      modifies this`m, this`top, this`topsize, this`C
      ensures Inv(V(), {}) && p in old(C) && Reallocs(old(V()), V(), p, p, nsize) && p in C && C[p].size == nb
    {
      hide TreeIndex, Inv, HeapOk, BinsOk, Reallocs, SetInuse;
      ghost var h := V();
      FreeReads(h, {}, p);
      Grown(h, p, nb, nsize);
      GrowReads(h, p, nb);
      var newsize := oldsize + topsize;
      var newtopsize := newsize - nb;
      var newtop := p + nb;
      GrowTags(p, nb, newtopsize);
      top := newtop;
      topsize := newtopsize;
      C := GrowTop(h, p, nb).C;
      assert V() == GrowTop(h, p, nb);
    }

    /** A new block, a copy, and the old block freed. */
    method MoveBlock(ptr: int, oldp: int, oldsize: int, nsize: int) returns (mem: int)
      requires Inv(V(), {}) && oldp == ptr - 16 && oldp in LiveSet(V()) && C[oldp].size == oldsize && 0 <= nsize < TWO64
      modifies this
      ensures Inv(V(), {}) && oldp in old(C)
      ensures mem == 0 ==> V() == old(V())
      ensures mem != 0 ==> mem % 8 == 0 && Reallocs(old(V()), V(), oldp, mem - 16, nsize)
      ensures mem != 0 ==> Tight(C, mem - 16, Request(nsize))
      ensures nsize < MAX_REQUEST && mem == 0 ==> NoRoom(old(V()), Request(nsize))
      ensures mem == 0 && nsize < MAX_REQUEST ==>
        RegionFor(Request(nsize)) <= Request(nsize) || refusals > old(refusals)
    {
      hide TreeIndex, Inv, Frees, HeapOk, BinsOk, Reallocs, Copied, Grants, NoRoom;
      ghost var h := V();
      FreeReads(h, {}, oldp);
      mem := Malloc(nsize);
      if mem != 0 {
        ghost var h1 := V();
        CopyReady(h, h1, oldp, mem - 16, nsize);
        var oc := oldsize - 8;
        m := Copied(m, mem, ptr, if oc < nsize then oc else nsize);
        ghost var h2 := V();
        FreeBlock(ptr);
        Moved(h, h1, h2, V(), oldp, mem - 16, nsize);
      }
    }

    /** The allocator function: size 0 frees, null allocates, anything else reallocates. */
    method AllocF(ptr: int, osize: int, nsize: int) returns (mem: int)
      requires Inv(V(), {}) && (ptr != 0 ==> ptr - 16 in LiveSet(V())) && 0 <= nsize < TWO64
      modifies this
      ensures Inv(V(), {}) && (ptr != 0 ==> ptr - 16 in old(C))
      ensures nsize == 0 ==> mem == 0 && if ptr == 0 then V() == old(V()) else Frees(old(V()), V(), ptr - 16)
      ensures nsize != 0 && mem == 0 ==> V() == old(V())
      ensures nsize != 0 && mem != 0 && ptr == 0 ==> mem % 8 == 0 && Grants(old(V()), V(), mem - 16, nsize + 8)
      ensures nsize >= MAX_REQUEST ==> mem == 0
      ensures 0 < nsize < MAX_REQUEST && mem == 0 ==> NoRoom(old(V()), Request(nsize))
      ensures 0 < nsize < MAX_REQUEST && mem == 0 ==>
        RegionFor(Request(nsize)) <= Request(nsize) || refusals > old(refusals)
      ensures 0 < nsize < MAX_REQUEST && ptr != 0 && InPlace(old(V()), ptr - 16, Request(nsize)) ==> mem == ptr
      ensures nsize != 0 && mem != 0 && ptr != 0 ==> mem % 8 == 0 && Reallocs(old(V()), V(), ptr - 16, mem - 16, nsize)
      ensures nsize != 0 && mem != 0 ==> Tight(C, mem - 16, Request(nsize))
    {
      hide TreeIndex, Inv, Frees, Grants, Reallocs;
      if nsize == 0 {
        FreeBlock(ptr);
        mem := 0;
      } else if ptr == 0 {
        mem := Malloc(nsize);
      } else {
        mem := Realloc(ptr, nsize);
      }
    }

    /** The program writes into one of its blocks. */
    method Write(x: int, a: int, w: int)
      requires Inv(V(), {}) && x in LiveSet(V()) && x + 16 <= a < x + 8 + C[x].size
      modifies this`m
      ensures Inv(V(), {}) && LiveKept(old(V()), V(), x) && LiveSet(V()) == LiveSet(old(V())) && m == old(m)[a := w]
              && C == old(C)
    {
      hide Inv;
      ghost var h := V();
      PayloadAt(h, x, a, w);
      m := m[a := w];
      PayloadInv(h, {}, m, x);
    }
  }
}
