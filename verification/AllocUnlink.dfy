/** unlink_large_chunk: another chunk takes the place of a tree node. */
module AllocUnlink {
  import opened AllocHeap
  import opened AllocRing
  import opened AllocIndex
  import opened AllocTrie
  import opened AllocTree
  import opened AllocState
  import opened AllocLinks
  import opened AllocLinksLarge

  ghost function SwapIn(h: H, m1: Mem, s: int, b: int, ring: seq<int>): H
    requires s in h.T.tn && |ring| > 0
  {
    h.(m := ReplaceMem(m1, SlotOf(h.ms, h.T, s), At(h.T, s), ring[0]), T := Replace(h.T, s, b, ring))
  }

  /** The chunks of `ring` may take the place of the node of s: they are its own, or loose ones of size b. */
  ghost predicate Candidates(h: H, u: set<int>, s: int, b: int, ring: seq<int>)
    requires s in h.T.tn
  {
    && |ring| > 0 && Distinct(ring)
    && if b == s then forall x {:trigger x in ring} :: x in ring ==> x in h.T.tn[s].ring
       else forall x {:trigger x in ring} :: x in ring ==> x in u && x in h.C && h.C[x].size == b
  }

  ghost predicate Swap(h: H, u: set<int>, m1: Mem, s: int, b: int, ring: seq<int>) {
    && OnlyTree(h, m1) && Ready(m1, h.ms, h.T, h.tm, s, b, ring) && Candidates(h, u, s, b, ring)
  }

  lemma CandidateFacts(h: H, u: set<int>, s: int, b: int, ring: seq<int>, x: int)
    requires Inv(h, u) && s in h.T.tn && CanReplace(h.T, s, b, ring) && Candidates(h, u, s, b, ring) && x in ring
    ensures x in h.C && h.C[x].kind == Free && h.C[x].size == b && x > 0 && x != h.dv && !InSmall(h, x)
  {
    hide TreeIndex;
    if b == s { RingMembers(h, s, x); } else { assert ChunkOk(h.m, h.C, x); }
  }

  lemma SwapHeld(h: H, u: set<int>, s: int, b: int, ring: seq<int>)
    requires Inv(h, u) && s in h.T.tn && CanReplace(h.T, s, b, ring) && Candidates(h, u, s, b, ring)
    ensures TreeHeld(h.C, Replace(h.T, s, b, ring)) && Far(h.ms, Replace(h.T, s, b, ring))
  {
    hide TreeIndex;
    var T' := Replace(h.T, s, b, ring);
    ReplaceAt(h.T, s, b, ring);
    TreeSizes(h.T);
    forall a, k | a in T'.tn && 0 <= k < |T'.tn[a].ring| ensures TreeHolds(h.C, T', a, k) {
      if a == b { CandidateFacts(h, u, s, b, ring, ring[k]); }
      else { assert T'.tn[a].ring == h.T.tn[a].ring; assert TreeHolds(h.C, h.T, a, k); }
    }
    forall a | a in T'.tn ensures a >= MIN_LARGE_SIZE && Distinct(T'.tn[a].ring) {
      if a != b {
        assert T'.tn[a].ring == h.T.tn[a].ring;
        assert NodeStored(h.m, h.ms, h.T, a);
        RingDistinct(h.m, h.T.tn[a].ring);
      }
    }
    FarFromHeld(h, T');
  }

  lemma ReplaceWrites(m: Mem, slot: int, x: int, y: int, a: int)
    requires Away(x, y) && (slot < x + 16 || x + TCHUNK_SIZE <= slot) && y != 0
    requires KidSite(m, x, y, y, CHILD0) && KidSite(m, x, y, y, CHILD1)
    requires R(ReplaceMem(m, slot, x, y), a) != R(m, a)
    ensures || a == slot || a == y + PARENT || a == y + CHILD0 || a == y + CHILD1
            || (R(m, x + CHILD0) != 0 && a == R(m, x + CHILD0) + PARENT)
            || (R(m, x + CHILD1) != 0 && a == R(m, x + CHILD1) + PARENT)
  {
    var m1 := m[slot := y][y + PARENT := R(m, x + PARENT)];
    assert R(m1, x + CHILD0) == R(m, x + CHILD0) && R(m1, x + CHILD1) == R(m, x + CHILD1);
    var m2 := GiveChild(m1, x, y, CHILD0);
    assert R(m2, x + CHILD1) == R(m, x + CHILD1);
  }

  lemma SwapMem(h: H, u: set<int>, m1: Mem, s: int, b: int, ring: seq<int>)
    requires Inv(h, u) && Swap(h, u, m1, s, b, ring)
    ensures OnlyTree(h, SwapIn(h, m1, s, b, ring).m)
  {
    hide TreeIndex;
    var x, y, slot := At(h.T, s), ring[0], SlotOf(h.ms, h.T, s);
    var m' := SwapIn(h, m1, s, b, ring).m;
    SwapSpots(h, u, m1, s, b, ring);
    forall a | R(m', a) != R(h.m, a) ensures TreeSpot(h, a) {
      if R(m', a) != R(m1, a) { ReplaceWrites(m1, slot, x, y, a); }
    }
    SwapKeys(m1, slot, x, y);
    assert slot in h.m.Keys && y + PARENT in h.m.Keys;
  }

  lemma SwapKeys(m: Mem, slot: int, x: int, y: int)
    requires Away(x, y) && (slot < x + 16 || x + TCHUNK_SIZE <= slot) && y != 0
    requires KidSite(m, x, y, y, CHILD0) && KidSite(m, x, y, y, CHILD1)
    requires slot in m && y + PARENT in m && y + CHILD0 in m && y + CHILD1 in m
    requires R(m, x + CHILD0) != 0 ==> R(m, x + CHILD0) + PARENT in m
    requires R(m, x + CHILD1) != 0 ==> R(m, x + CHILD1) + PARENT in m
    ensures ReplaceMem(m, slot, x, y).Keys == m.Keys
  {
    var m1 := m[slot := y][y + PARENT := R(m, x + PARENT)];
    assert m1.Keys == m.Keys;
    assert R(m1, x + CHILD0) == R(m, x + CHILD0) && R(m1, x + CHILD1) == R(m, x + CHILD1);
    var m2 := GiveChild(m1, x, y, CHILD0);
    assert m2.Keys == m.Keys;
    assert R(m2, x + CHILD1) == R(m, x + CHILD1);
  }

  lemma KidSpot(h: H, m1: Mem, u: set<int>, s: int, b: int, ring: seq<int>, c: int)
    requires Inv(h, u) && s in h.T.tn && CanReplace(h.T, s, b, ring) && Candidates(h, u, s, b, ring)
    requires c == h.T.tn[s].l || c == h.T.tn[s].r
    ensures var k, x, y := At(h.T, c), At(h.T, s), ring[0];
            && (k == 0 || (k != y && Away(k, x) && Away(k, y)))
            && (k != 0 ==> TreeSpot(h, k + PARENT))
  {
    hide TreeIndex;
    FarNow(h);
    SwapHeld(h, u, s, b, ring);
    ReplaceAt(h.T, s, b, ring);
    KidSiteOk(h.m, h.ms, h.T, s, b, ring, b, 0, c);
    assert ShapeOk(h.T, s);
    if c != 0 { assert ShapeOk(h.T, c); MemberSpot(h, c, 0, PARENT); } else { NoZero(h.T); }
  }

  /** The words the replacement writes are tree words. */
  lemma SwapSpots(h: H, u: set<int>, m1: Mem, s: int, b: int, ring: seq<int>)
    requires Inv(h, u) && Swap(h, u, m1, s, b, ring)
    ensures var x, y, slot := At(h.T, s), ring[0], SlotOf(h.ms, h.T, s);
            && (slot < x + 16 || x + TCHUNK_SIZE <= slot) && y != 0
            && KidSite(m1, x, y, y, CHILD0) && KidSite(m1, x, y, y, CHILD1)
            && TreeSpot(h, slot) && TreeSpot(h, y + PARENT) && TreeSpot(h, y + CHILD0) && TreeSpot(h, y + CHILD1)
            && (R(m1, x + CHILD0) != 0 ==> TreeSpot(h, R(m1, x + CHILD0) + PARENT))
            && (R(m1, x + CHILD1) != 0 ==> TreeSpot(h, R(m1, x + CHILD1) + PARENT))
  {
    hide TreeIndex, TreeSpot, Stored, AllPlaced, SegsOk, Members, Ring;
    var y, up := ring[0], h.T.tn[s].up;
    FarNow(h);
    assert ShapeOk(h.T, s);
    SlotAway(h.ms, h.T, s, s, 0);
    CandidateFacts(h, u, s, b, ring, y);
    LargeSpot(h, y, PARENT); LargeSpot(h, y, CHILD0); LargeSpot(h, y, CHILD1);
    KidSpot(h, m1, u, s, b, ring, h.T.tn[s].l);
    KidSpot(h, m1, u, s, b, ring, h.T.tn[s].r);
    if up != 0 { assert ShapeOk(h.T, up); }
    SlotSpot(h, s, up, up in h.T.tn && h.T.tn[up].r == s);
    hide Inv, Shape, Far;
  }

  lemma SwapPlaced(h: H, u: set<int>, m1: Mem, s: int, b: int, ring: seq<int>)
    requires Inv(h, u) && Swap(h, u, m1, s, b, ring)
    ensures var h' := SwapIn(h, m1, s, b, ring);
            AllPlaced(h', (u - SetOf(ring)) + (SetOf(h.T.tn[s].ring) - SetOf(ring))) && DvOk(h')
  {
    hide TreeIndex;
    var h' := SwapIn(h, m1, s, b, ring);
    var w := (u - SetOf(ring)) + (SetOf(h.T.tn[s].ring) - SetOf(ring));
    ReplaceAt(h.T, s, b, ring);
    TreeSizes(h.T);
    assert forall a {:trigger h'.T.tn[a]} :: a in h'.T.tn && a != b ==>
      a in h.T.tn && a != s && h'.T.tn[a].ring == h.T.tn[a].ring;
    forall q | q in h'.C && h'.C[q].kind == Free && q !in w ensures Placed(h', q) {
      if q in ring { CandidateFacts(h, u, s, b, ring, q); }
      else { assert Placed(h, q); }
    }
    forall q | q in w ensures q in h'.C && h'.C[q].kind == Free && !Binned(h', q) && q != h'.dv {
      if q in SetOf(h.T.tn[s].ring) { RingMembers(h, s, q); }
    }
    if h.dv != 0 {
      if h.dv in ring { CandidateFacts(h, u, s, b, ring, h.dv); }
      assert !Binned(h', h.dv);
    }
  }

  lemma SwapInv(h: H, u: set<int>, m1: Mem, s: int, b: int, ring: seq<int>)
    requires Inv(h, u) && Swap(h, u, m1, s, b, ring)
    ensures Inv(SwapIn(h, m1, s, b, ring), (u - SetOf(ring)) + (SetOf(h.T.tn[s].ring) - SetOf(ring)))
    ensures forall x {:trigger LiveKept(h, SwapIn(h, m1, s, b, ring), x)} :: LiveKept(h, SwapIn(h, m1, s, b, ring), x)
  {
    hide TreeIndex;
    var h' := SwapIn(h, m1, s, b, ring);
    SwapMem(h, u, m1, s, b, ring);
    OnlyTreeKeeps(h, h');
    FarNow(h);
    SwapHeld(h, u, s, b, ring);
    ReplaceShape(h.T, s, b, ring);
    ReplaceStored(m1, h.ms, h.T, h.tm, s, b, ring);
    SwapPlaced(h, u, m1, s, b, ring);
  }

  // The first chunk of a ring of several: the last one takes its place.

  lemma RotateDistinct(r: seq<int>)
    requires Distinct(r) && |r| > 1
    ensures var r' := Removed(Rotated(r), 1);
            && |r'| == |r| - 1 && r'[0] == r[|r| - 1] && Distinct(r')
            && (forall k {:trigger r'[k]} :: 0 < k < |r'| ==> r'[k] == r[k])
            && SetOf(r) - SetOf(r') == {r[0]}
            && (forall x {:trigger x in r'} :: x in r' ==> x in r)
  {
    var r' := Removed(Rotated(r), 1);
    var last := |r| - 1;
    assert forall k {:trigger r'[k]} :: 0 <= k < |r'| ==> r'[k] == r[if k == 0 then last else k];
    forall j, k | 0 <= j < |r'| && 0 <= k < |r'| ensures DistinctAt(r', j, k) {
      assert DistinctAt(r, if j == 0 then last else j, if k == 0 then last else k);
    }
    forall j | 0 <= j < |r'| ensures r'[j] != r[0] { assert DistinctAt(r, if j == 0 then last else j, 0); }
    forall x | x in r && x != r[0] ensures x in r' {
      var k :| 0 <= k < |r| && r[k] == x;
      assert r'[if k == last then 0 else k] == x;
    }
  }

  /** Other nodes and the bins stay stored. */
  lemma RotateOthers(h: H, u: set<int>, s: int)
    requires Inv(h, u) && s in h.T.tn && |h.T.tn[s].ring| > 1
    ensures forall a {:trigger NodeStored(RingRemoveMem(h.m, h.T.tn[s].ring[0]), h.ms, h.T, a)} ::
              a in h.T.tn && a != s ==> NodeStored(RingRemoveMem(h.m, h.T.tn[s].ring[0]), h.ms, h.T, a)
    ensures forall i {:trigger BinStored(RingRemoveMem(h.m, h.T.tn[s].ring[0]), h.ms, h.T, h.tm, i)} ::
              i in h.T.rt ==> BinStored(RingRemoveMem(h.m, h.T.tn[s].ring[0]), h.ms, h.T, h.tm, i)
  {
    hide TreeIndex;
    var r := h.T.tn[s].ring;
    var m1, n := RingRemoveMem(h.m, r[0]), |r|;
    assert NodeStored(h.m, h.ms, h.T, s) && ShapeOk(h.T, s);
    FarNow(h);
    RingRemoveSpots(h, s, 0);
    RingNeighbours(h.m, r, 0);
    forall a | a in h.T.tn && a != s ensures NodeStored(m1, h.ms, h.T, a) {
      assert NodeStored(h.m, h.ms, h.T, a) && ShapeOk(h.T, a);
      RemoveRingUntouched(h.m, h.ms, h.T, s, 0, a);
      NodeKept(h.m, h.ms, h.T, m1, h.T, a);
    }
    forall i | i in h.T.rt ensures BinStored(m1, h.ms, h.T, h.tm, i) {
      assert BinStored(h.m, h.ms, h.T, h.tm, i);
      assert OffState(h.ms, h.T, s, Next(0, n)) && OffState(h.ms, h.T, s, Prev(0, n));
    }
  }

  lemma RotateReady(h: H, u: set<int>, s: int)
    requires Inv(h, u) && s in h.T.tn && |h.T.tn[s].ring| > 1
    ensures var r := h.T.tn[s].ring; Swap(h, u, RingRemoveMem(h.m, r[0]), s, s, Removed(Rotated(r), 1))
  {
    hide TreeIndex;
    var r := h.T.tn[s].ring;
    var r', m1, n := Removed(Rotated(r), 1), RingRemoveMem(h.m, r[0]), |r|;
    assert NodeStored(h.m, h.ms, h.T, s) && ShapeOk(h.T, s);
    RingDistinct(h.m, r);
    RotateDistinct(r);
    RingRemoveSpots(h, s, 0);
    FarNow(h);
    RingNeighbours(h.m, r, 0);
    RotateOthers(h, u, s);
    RingRotate(h.m, r);
    assert Rotated(r)[1] == r[0];
    RingRemove(h.m, Rotated(r), 1);
    RotateMembers(h, s);
    assert FarAt(h.T, s, 0, s, n - 1);
  }

  /** Away from the two chunks whose links change, member words stay as they are. */
  lemma RotateMembers(h: H, s: int)
    requires HeapOk(h) && BinsOk(h) && s in h.T.tn && |h.T.tn[s].ring| > 1
    ensures var r := h.T.tn[s].ring; var m1, r' := RingRemoveMem(h.m, r[0]), Removed(Rotated(r), 1);
            && Links(m1, h.ms, h.T, s) && Members(m1, s, r') && |r'| > 0
            && R(m1, r'[0] + CHILD0) == 0 && R(m1, r'[0] + CHILD1) == 0
  {
    hide TreeIndex;
    var r := h.T.tn[s].ring;
    var r', m1, n := Removed(Rotated(r), 1), RingRemoveMem(h.m, r[0]), |r|;
    assert NodeStored(h.m, h.ms, h.T, s);
    FarNow(h);
    RingDistinct(h.m, r);
    RotateDistinct(r);
    RingNeighbours(h.m, r, 0);
    forall k | 0 <= k < n ensures SameLinks(h.m, m1, r[k]) && R(m1, r[k] + INDEX) == R(h.m, r[k] + INDEX) {
      assert FarAt(h.T, s, k, s, Next(0, n)) && FarAt(h.T, s, k, s, Prev(0, n));
      RingRemoveWords(h.m, r[0], r[k]);
    }
    forall k | 0 <= k < |r'| ensures MemberOk(m1, s, r'[k], k) {
      var j := if k == 0 then n - 1 else k;
      assert r'[k] == r[j];
      assert MemberOk(h.m, s, r[j], j);
    }
    assert MemberOk(h.m, s, r[n - 1], n - 1);
  }

  // A single chunk with children: a leaf below takes its place.

  /** The chunks of an uprooted leaf keep their words. */
  lemma LeafRing(h: H, b: int)
    requires HeapOk(h) && BinsOk(h) && IsLeaf(h.T, b)
    ensures var m1, r := Uproot(h, b).m, h.T.tn[b].ring;
            && Ring(m1, r) && Members(m1, b, r) && Distinct(r)
            && R(m1, r[0] + CHILD0) == 0 && R(m1, r[0] + CHILD1) == 0
  {
    hide TreeIndex;
    var m1, r := Uproot(h, b).m, h.T.tn[b].ring;
    assert ShapeOk(h.T, b);
    NoZero(h.T);
    FarNow(h);
    assert NodeStored(h.m, h.ms, h.T, b);
    RingDistinct(h.m, r);
    forall k | 0 <= k < |r| ensures KeptAt(h.m, m1, r, k) { SlotAway(h.ms, h.T, b, b, k); }
    RingKept(h.m, m1, b, r);
    SlotAway(h.ms, h.T, b, b, 0);
  }

  lemma LeafCan(h: H, s: int, b: int)
    requires HeapOk(h) && BinsOk(h) && s in h.T.tn && IsLeaf(h.T, b) && b != s && In(h.T, b, s)
    ensures s in Uproot(h, b).T.tn && h.T.tn[s].up != b && CanReplace(Uproot(h, b).T, s, b, h.T.tn[b].ring)
    ensures At(Uproot(h, b).T, s) == At(h.T, s) && Away(At(h.T, s), h.T.tn[b].ring[0])
  {
    hide TreeIndex;
    assert ShapeOk(h.T, s) && ShapeOk(h.T, b);
    LeafNotUp(h.T, b, s);
    FarNow(h);
    assert FarAt(h.T, s, 0, b, 0);
  }

  lemma LeafReady(h: H, u: set<int>, s: int, b: int)
    requires Inv(h, u) && s in h.T.tn && IsLeaf(h.T, b) && b != s && In(h.T, b, s)
    ensures s in Uproot(h, b).T.tn && h.T.tn[s].up != b
    ensures var r := h.T.tn[b].ring;
            Swap(Uproot(h, b), u + SetOf(r), Uproot(h, b).m, s, b, r)
  {
    hide TreeIndex;
    var h1, r := Uproot(h, b), h.T.tn[b].ring;
    UprootInv(h, u, b);
    LeafCan(h, s, b);
    LeafRing(h, b);
    assert NodeStored(h1.m, h1.ms, h1.T, s);
    forall x | x in r ensures x in h1.C && h1.C[x].size == b { RingMembers(h, b, x); }
    hide Shape, ShapeOk, Ring, Members, HeapOk, SegsOk, AllPlaced, Uproot;
    assert Ready(h1.m, h1.ms, h1.T, h1.tm, s, b, r);
  }
}
