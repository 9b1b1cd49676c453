/** How the tries lie in memory: child, parent, index and ring words of the tree chunks, and the tree bins. */
module AllocTree {
  import opened AllocHeap
  import opened AllocRing
  import opened AllocIndex
  import opened AllocTrie

  const CHILD0 := 32
  const CHILD1 := 40
  const PARENT := 48
  const INDEX := 56
  const TCHUNK_SIZE := 64

  // Layout of struct malloc_state.
  const SMALLBINS_OFS := 56
  const TREEBINS_OFS := 584
  const SEG_OFS := 840
  const MSTATE_CHUNK_SIZE := 880

  function TB(ms: int, i: int): int {
    ms + TREEBINS_OFS + 8 * i
  }

  /** The tree chunk of size s, or null. */
  function At(T: Trie, s: int): int {
    if s in T.tn && |T.tn[s].ring| > 0 then T.tn[s].ring[0] else 0
  }

  /** Words of the k-th chunk of size s: its bin index, and no tree links unless it is the node itself. */
  ghost predicate MemberOk(m: Mem, s: int, y: int, k: int) {
    && R(m, y + INDEX) == TreeIndex(s)
    && (k > 0 ==> R(m, y + PARENT) == 0 && R(m, y + CHILD0) == 0 && R(m, y + CHILD1) == 0)
  }

  ghost predicate Members(m: Mem, s: int, ring: seq<int>) {
    forall k {:trigger MemberOk(m, s, ring[k], k)} :: 0 <= k < |ring| ==> MemberOk(m, s, ring[k], k)
  }

  /** The tree links of the node of size s. */
  ghost predicate Links(m: Mem, ms: int, T: Trie, s: int)
    requires s in T.tn
  {
    var t, x := T.tn[s], At(T, s);
    && R(m, x + CHILD0) == At(T, t.l) && R(m, x + CHILD1) == At(T, t.r)
    && R(m, x + PARENT) == if t.up == 0 then TB(ms, TreeIndex(s)) else At(T, t.up)
  }

  ghost predicate NodeStored(m: Mem, ms: int, T: Trie, s: int)
    requires s in T.tn
  {
    Links(m, ms, T, s) && Ring(m, T.tn[s].ring) && Members(m, s, T.tn[s].ring)
  }

  ghost predicate BinStored(m: Mem, ms: int, T: Trie, tm: set<int>, i: int)
    requires i in T.rt
  {
    R(m, TB(ms, i)) == At(T, T.rt[i]) && (i in tm <==> T.rt[i] != 0)
  }

  ghost predicate BinsStored(m: Mem, ms: int, T: Trie, tm: set<int>) {
    && HasRoots(T)
    && (forall i {:trigger BinStored(m, ms, T, tm, i)} :: i in T.rt ==> BinStored(m, ms, T, tm, i))
    && (forall i {:trigger i in tm} :: i in tm ==> 0 <= i < NTREEBINS)
  }

  ghost predicate Stored(m: Mem, ms: int, T: Trie, tm: set<int>) {
    && BinsStored(m, ms, T, tm)
    && (forall s {:trigger NodeStored(m, ms, T, s)} :: s in T.tn ==> NodeStored(m, ms, T, s))
  }

  /** Distinct tree chunks do not share words, nor do they with the bins. */
  ghost predicate FarAt(T: Trie, a: int, j: int, b: int, k: int)
    requires a in T.tn && b in T.tn && 0 <= j < |T.tn[a].ring| && 0 <= k < |T.tn[b].ring|
  {
    a != b || j != k ==>
      T.tn[a].ring[j] + TCHUNK_SIZE <= T.tn[b].ring[k] || T.tn[b].ring[k] + TCHUNK_SIZE <= T.tn[a].ring[j]
  }

  ghost predicate OffState(ms: int, T: Trie, a: int, j: int)
    requires a in T.tn && 0 <= j < |T.tn[a].ring|
  {
    var y := T.tn[a].ring[j];
    y > 0 && (y + TCHUNK_SIZE <= ms || ms + MSTATE_CHUNK_SIZE - 16 <= y)
  }

  ghost predicate Far(ms: int, T: Trie) {
    && ms > 0
    && (forall a, j, b, k {:trigger FarAt(T, a, j, b, k)} ::
          a in T.tn && b in T.tn && 0 <= j < |T.tn[a].ring| && 0 <= k < |T.tn[b].ring| ==> FarAt(T, a, j, b, k))
    && (forall a, j {:trigger OffState(ms, T, a, j)} :: a in T.tn && 0 <= j < |T.tn[a].ring| ==> OffState(ms, T, a, j))
  }

  // Insertion as a new leaf.

  function SlotAddr(ms: int, T: Trie, s: int, up: int, right: bool): int {
    if up == 0 then TB(ms, TreeIndex(s)) else At(T, up) + if right then CHILD1 else CHILD0
  }

  function ParentAddr(ms: int, T: Trie, s: int, up: int): int {
    if up == 0 then TB(ms, TreeIndex(s)) else At(T, up)
  }

  function NewChunkMem(m: Mem, x: int, i: int): Mem {
    m[x + INDEX := i][x + CHILD0 := 0][x + CHILD1 := 0]
  }

  function AddLeafMem(m: Mem, x: int, i: int, slot: int, par: int): Mem {
    NewChunkMem(m, x, i)[slot := x][x + PARENT := par][x + FD := x][x + BK := x]
  }

  ghost predicate SameBody(m: Mem, m': Mem, y: int) {
    R(m', y + FD) == R(m, y + FD) && R(m', y + BK) == R(m, y + BK) && R(m', y + INDEX) == R(m, y + INDEX)
  }

  ghost predicate SameLinks(m: Mem, m': Mem, y: int) {
    R(m', y + CHILD0) == R(m, y + CHILD0) && R(m', y + CHILD1) == R(m, y + CHILD1)
        && R(m', y + PARENT) == R(m, y + PARENT)
  }

  ghost predicate KeptAt(m: Mem, m': Mem, ring: seq<int>, k: int)
    requires 0 <= k < |ring|
  {
    SameBody(m, m', ring[k]) && (k > 0 ==> SameLinks(m, m', ring[k]))
  }

  ghost predicate Kept(m: Mem, m': Mem, ring: seq<int>) {
    forall k {:trigger KeptAt(m, m', ring, k)} :: 0 <= k < |ring| ==> KeptAt(m, m', ring, k)
  }

  /** A node whose ring words are kept is stored if its tree links are. */
  lemma NodeKept(m: Mem, ms: int, T: Trie, m': Mem, T': Trie, a: int)
    requires a in T.tn && a in T'.tn && T'.tn[a].ring == T.tn[a].ring
    requires NodeStored(m, ms, T, a) && Kept(m, m', T.tn[a].ring) && Links(m', ms, T', a)
    ensures NodeStored(m', ms, T', a)
  {
    hide TreeIndex;
    RingKept(m, m', a, T.tn[a].ring);
  }

  ghost predicate Away(x: int, y: int) {
    x + TCHUNK_SIZE <= y || y + TCHUNK_SIZE <= x
  }

  lemma AddLeafWords(m: Mem, x: int, i: int, slot: int, par: int, y: int)
    requires Away(x, y) && (slot < y + 16 || y + TCHUNK_SIZE <= slot || slot == y + CHILD0 || slot == y + CHILD1)
    ensures var m' := AddLeafMem(m, x, i, slot, par);
            && SameBody(m, m', y) && R(m', y + PARENT) == R(m, y + PARENT)
            && (slot != y + CHILD0 ==> R(m', y + CHILD0) == R(m, y + CHILD0))
            && (slot != y + CHILD1 ==> R(m', y + CHILD1) == R(m, y + CHILD1))
  {
  }

  /** The new leaf and the slot it hangs from are away from chunk k of another node. */
  lemma LeafAway(ms: int, T: Trie, s: int, x: int, up: int, right: bool, a: int, k: int)
    requires Slot(T, s, up, right) && Far(ms, AddLeaf(T, s, x, up, right)) && a in T.tn && 0 <= k < |T.tn[a].ring|
    requires up != 0 ==> |T.tn[up].ring| > 0
    ensures Away(x, T.tn[a].ring[k])
    ensures var slot, y := SlotAddr(ms, T, s, up, right), T.tn[a].ring[k];
            if up != 0 && a == up && k == 0 then slot == y + if right then CHILD1 else CHILD0
            else slot < y + 16 || y + TCHUNK_SIZE <= slot
  {
    hide TreeIndex;
    var T' := AddLeaf(T, s, x, up, right);
    AddLeafExtends(T, s, x, up, right);
    assert T'.tn[a].ring == T.tn[a].ring && T'.tn[s].ring == [x];
    assert FarAt(T', a, k, s, 0) && OffState(ms, T', a, k);
    if up != 0 {
      assert T'.tn[up].ring == T.tn[up].ring;
      assert FarAt(T', a, k, up, 0);
    }
  }

  /** The words of other nodes' ring members stay, but for the slot. */
  lemma AddLeafKeeps(m: Mem, ms: int, T: Trie, s: int, x: int, up: int, right: bool, a: int)
    requires Slot(T, s, up, right) && Far(ms, AddLeaf(T, s, x, up, right)) && a in T.tn
             && (up != 0 ==> |T.tn[up].ring| > 0)
    ensures Kept(m, AddLeafMem(m, x, TreeIndex(s), SlotAddr(ms, T, s, up, right), ParentAddr(ms, T, s, up)),
                 T.tn[a].ring)
  {
    hide TreeIndex, Far, AddLeafMem, AddLeaf, Slot;
    var slot, par, ring := SlotAddr(ms, T, s, up, right), ParentAddr(ms, T, s, up), T.tn[a].ring;
    var m' := AddLeafMem(m, x, TreeIndex(s), slot, par);
    forall k | 0 <= k < |ring| ensures KeptAt(m, m', ring, k) {
      LeafAway(ms, T, s, x, up, right, a, k);
      AddLeafWords(m, x, TreeIndex(s), slot, par, ring[k]);
    }
  }

  lemma AddLeafStoredOther(m: Mem, ms: int, T: Trie, tm: set<int>, s: int, x: int, up: int, right: bool, a: int)
    requires Shape(T) && Stored(m, ms, T, tm) && Slot(T, s, up, right) && Far(ms, AddLeaf(T, s, x, up, right))
    requires a in T.tn
    ensures a in AddLeaf(T, s, x, up, right).tn
    ensures NodeStored(AddLeafMem(m, x, TreeIndex(s), SlotAddr(ms, T, s, up, right), ParentAddr(ms, T, s, up)), ms,
                       AddLeaf(T, s, x, up, right), a)
  {
    hide TreeIndex, Far, AddLeafMem;
    assert ShapeOk(T, a) && NodeStored(m, ms, T, a);
    if up != 0 { assert ShapeOk(T, up); }
    hide Shape, Stored;
    AddLeafKeeps(m, ms, T, s, x, up, right, a);
    AddLeafLinks(m, ms, T, s, x, up, right, a);
    NodeKept(m, ms, T, AddLeafMem(m, x, TreeIndex(s), SlotAddr(ms, T, s, up, right), ParentAddr(ms, T, s, up)),
             AddLeaf(T, s, x, up, right), a);
  }

  lemma AddLeafLinks(m: Mem, ms: int, T: Trie, s: int, x: int, up: int, right: bool, a: int)
    requires Slot(T, s, up, right) && a in T.tn && Links(m, ms, T, a) && Far(ms, AddLeaf(T, s, x, up, right))
    requires |T.tn[a].ring| > 0 && (up != 0 ==> |T.tn[up].ring| > 0)
    requires s != T.tn[a].l && s != T.tn[a].r && s != T.tn[a].up && a != 0
    ensures a in AddLeaf(T, s, x, up, right).tn
    ensures Links(AddLeafMem(m, x, TreeIndex(s), SlotAddr(ms, T, s, up, right), ParentAddr(ms, T, s, up)), ms,
                  AddLeaf(T, s, x, up, right), a)
  {
    hide TreeIndex;
    var T', y := AddLeaf(T, s, x, up, right), At(T, a);
    var slot, par := SlotAddr(ms, T, s, up, right), ParentAddr(ms, T, s, up);
    var m' := AddLeafMem(m, x, TreeIndex(s), slot, par);
    LeafAway(ms, T, s, x, up, right, a, 0);
    AddLeafWords(m, x, TreeIndex(s), slot, par, y);
    AddLeafAt(T, s, x, up, right);
    if a == up { assert R(m', slot) == x by { assert OffState(ms, T', s, 0); } }
    hide AddLeafMem, Far, At;
    if a != up { assert T'.tn[a] == T.tn[a]; }
  }

  /** Adding a leaf moves no chunk. */
  lemma AddLeafAt(T: Trie, s: int, x: int, up: int, right: bool)
    requires Slot(T, s, up, right)
    ensures At(AddLeaf(T, s, x, up, right), s) == x
    ensures forall b {:trigger At(AddLeaf(T, s, x, up, right), b)} :: b != s ==>
      At(AddLeaf(T, s, x, up, right), b) == At(T, b)
  {
    hide TreeIndex;
  }

  lemma AddLeafStoredNew(m: Mem, ms: int, T: Trie, s: int, x: int, up: int, right: bool)
    requires Slot(T, s, up, right) && Far(ms, AddLeaf(T, s, x, up, right)) && 0 !in T.tn
    requires up != 0 ==> |T.tn[up].ring| > 0
    ensures s in AddLeaf(T, s, x, up, right).tn
    ensures NodeStored(AddLeafMem(m, x, TreeIndex(s), SlotAddr(ms, T, s, up, right), ParentAddr(ms, T, s, up)), ms,
                       AddLeaf(T, s, x, up, right), s)
  {
    hide TreeIndex;
    var T' := AddLeaf(T, s, x, up, right);
    var slot, par, i := SlotAddr(ms, T, s, up, right), ParentAddr(ms, T, s, up), TreeIndex(s);
    var m' := AddLeafMem(m, x, i, slot, par);
    LeafSlot(ms, T, s, x, up, right);
    LeafWords(m, x, i, slot, par);
    AddLeafAt(T, s, x, up, right);
    assert T'.tn[s].ring == [x];
    hide AddLeafMem, Far;
    assert Step(m', [x], 0);
    assert MemberOk(m', s, x, 0);
  }

  /** The slot that a new leaf hangs from is not in the leaf. */
  lemma LeafSlot(ms: int, T: Trie, s: int, x: int, up: int, right: bool)
    requires Slot(T, s, up, right) && Far(ms, AddLeaf(T, s, x, up, right)) && (up != 0 ==> |T.tn[up].ring| > 0)
    ensures var slot := SlotAddr(ms, T, s, up, right); slot < x + 16 || x + TCHUNK_SIZE <= slot
  {
    hide TreeIndex;
    var T' := AddLeaf(T, s, x, up, right);
    AddLeafExtends(T, s, x, up, right);
    assert OffState(ms, T', s, 0);
    if up != 0 {
      assert T'.tn[up].ring == T.tn[up].ring;
      assert FarAt(T', s, 0, up, 0);
    }
  }

  lemma LeafWords(m: Mem, x: int, i: int, slot: int, par: int)
    requires slot < x + 16 || x + TCHUNK_SIZE <= slot
    ensures var m' := AddLeafMem(m, x, i, slot, par);
            && R(m', x + INDEX) == i && R(m', x + CHILD0) == 0 && R(m', x + CHILD1) == 0
            && R(m', x + PARENT) == par && R(m', x + FD) == x && R(m', x + BK) == x
  {
  }

  lemma AddLeafStored(m: Mem, ms: int, T: Trie, tm: set<int>, s: int, x: int, up: int, right: bool)
    requires Shape(T) && Stored(m, ms, T, tm) && Slot(T, s, up, right) && Far(ms, AddLeaf(T, s, x, up, right))
    ensures Stored(AddLeafMem(m, x, TreeIndex(s), SlotAddr(ms, T, s, up, right), ParentAddr(ms, T, s, up)), ms,
                   AddLeaf(T, s, x, up, right), tm + {TreeIndex(s)})
  {
    hide TreeIndex;
    var T', i := AddLeaf(T, s, x, up, right), TreeIndex(s);
    var m' := AddLeafMem(m, x, i, SlotAddr(ms, T, s, up, right), ParentAddr(ms, T, s, up));
    NoZero(T);
    if up != 0 { assert ShapeOk(T, up); }
    forall a | a in T'.tn ensures NodeStored(m', ms, T', a) {
      if a == s { AddLeafStoredNew(m, ms, T, s, x, up, right); }
      else { AddLeafStoredOther(m, ms, T, tm, s, x, up, right, a); }
    }
    forall j | j in T'.rt ensures BinStored(m', ms, T', tm + {i}, j) {
      AddLeafBin(m, ms, T, tm, s, x, up, right, j);
    }
    assert HasRoots(T');
  }

  lemma AddLeafBin(m: Mem, ms: int, T: Trie, tm: set<int>, s: int, x: int, up: int, right: bool, j: int)
    requires Shape(T) && BinsStored(m, ms, T, tm) && Slot(T, s, up, right) && Far(ms, AddLeaf(T, s, x, up, right))
             && j in T.rt
    ensures j in AddLeaf(T, s, x, up, right).rt
    ensures BinStored(AddLeafMem(m, x, TreeIndex(s), SlotAddr(ms, T, s, up, right), ParentAddr(ms, T, s, up)), ms,
                      AddLeaf(T, s, x, up, right), tm + {TreeIndex(s)}, j)
  {
    hide TreeIndex;
    var T' := AddLeaf(T, s, x, up, right);
    AddLeafAt(T, s, x, up, right);
    assert BinStored(m, ms, T, tm, j) && RootOk(T, j);
    assert T'.tn[s].ring == [x];
    assert OffState(ms, T', s, 0);
    if up != 0 {
      assert ShapeOk(T, up);
      RootExists(T, up);
      assert T'.tn[up].ring == T.tn[up].ring;
      assert OffState(ms, T', up, 0);
    }
  }

  // Changes of a ring that leave its first chunk in the tree.

  ghost predicate Untouched(m: Mem, m': Mem, ring: seq<int>) {
    Kept(m, m', ring) && (|ring| > 0 ==> SameLinks(m, m', ring[0]))
  }

  lemma SetRingAt(T: Trie, s: int, ring: seq<int>)
    requires s in T.tn && |ring| > 0 && |T.tn[s].ring| > 0 && ring[0] == T.tn[s].ring[0]
    ensures forall b {:trigger At(SetRing(T, s, ring), b)} :: At(SetRing(T, s, ring), b) == At(T, b)
  {
    hide TreeIndex;
  }

  lemma SetRingLinks(m: Mem, ms: int, T: Trie, s: int, ring: seq<int>, m': Mem, a: int)
    requires s in T.tn && |ring| > 0 && |T.tn[s].ring| > 0 && ring[0] == T.tn[s].ring[0]
    requires a in T.tn && Links(m, ms, T, a) && SameLinks(m, m', At(T, a))
    ensures Links(m', ms, SetRing(T, s, ring), a)
  {
    hide TreeIndex;
    SetRingAt(T, s, ring);
    hide At;
  }

  /** Only the ring of s changes, behind the same first chunk. */
  lemma SetRingStored(m: Mem, ms: int, T: Trie, tm: set<int>, s: int, ring: seq<int>, m': Mem)
    requires Shape(T) && Stored(m, ms, T, tm) && s in T.tn
    requires |ring| > 0 && ring[0] == At(T, s)
    requires forall a {:trigger T.tn[a]} :: a in T.tn && a != s ==> Untouched(m, m', T.tn[a].ring)
    requires forall i {:trigger TB(ms, i)} :: 0 <= i < NTREEBINS ==> R(m', TB(ms, i)) == R(m, TB(ms, i))
    requires SameLinks(m, m', ring[0]) && Ring(m', ring) && Members(m', s, ring)
    ensures Stored(m', ms, SetRing(T, s, ring), tm)
  {
    hide TreeIndex;
    var T' := SetRing(T, s, ring);
    assert ShapeOk(T, s);
    forall a | a in T'.tn ensures NodeStored(m', ms, T', a) {
      assert NodeStored(m, ms, T, a) && ShapeOk(T, a);
      SetRingLinks(m, ms, T, s, ring, m', a);
      if a != s { NodeKept(m, ms, T, m', T', a); }
    }
    SetRingAt(T, s, ring);
    hide ShapeOk, NodeStored, At;
    forall i | i in T'.rt ensures BinStored(m', ms, T', tm, i) {
      assert BinStored(m, ms, T, tm, i);
    }
    assert HasRoots(T');
  }

  function AddRingMem(m: Mem, x: int, i: int, t: int): Mem {
    RingInsertMem(NewChunkMem(m, x, i), t, x)[x + PARENT := 0]
  }

  lemma AddRingWords(m: Mem, x: int, i: int, t: int, y: int)
    requires Away(x, y) && Away(x, t) && (Away(t, y) || t == y)
    requires var f := R(m, t + FD); (Away(f, y) || f == y) && (Away(x, f) || x == f)
    ensures var m' := AddRingMem(m, x, i, t);
            && SameLinks(m, m', y) && R(m', y + INDEX) == R(m, y + INDEX)
            && (t != y && R(m, t + FD) != y ==> SameBody(m, m', y))
  {
    var m1 := NewChunkMem(m, x, i);
    assert SameBody(m, m1, y) && SameLinks(m, m1, y);
    var f := R(m, t + FD);
    assert R(m1, t + FD) == f;
    RingInsertWords(m1, t, x, f, y);
  }

  lemma RingInsertWords(m: Mem, t: int, x: int, f: int, y: int)
    requires f == R(m, t + FD) && Away(x, y) && (Away(t, y) || t == y) && (Away(f, y) || f == y)
    ensures var m' := RingInsertMem(m, t, x);
            && SameLinks(m, m', y) && R(m', y + INDEX) == R(m, y + INDEX)
            && (t != y && f != y ==> SameBody(m, m', y))
  {
  }

  lemma AddRingStored(m: Mem, ms: int, T: Trie, tm: set<int>, s: int, x: int)
    requires Shape(T) && Stored(m, ms, T, tm) && s in T.tn
    requires |T.tn[s].ring| > 0 && Far(ms, SetRing(T, s, Inserted(T.tn[s].ring, x)))
    ensures Stored(AddRingMem(m, x, TreeIndex(s), At(T, s)), ms, SetRing(T, s, Inserted(T.tn[s].ring, x)), tm)
  {
    hide TreeIndex;
    var r := T.tn[s].ring;
    var r' := Inserted(r, x);
    var m' := AddRingMem(m, x, TreeIndex(s), r[0]);
    forall a | a in T.tn && a != s ensures Untouched(m, m', T.tn[a].ring) {
      AddRingUntouched(m, ms, T, tm, s, x, a);
    }
    forall i | 0 <= i < NTREEBINS ensures R(m', TB(ms, i)) == R(m, TB(ms, i)) {
      AddRingBins(m, ms, T, tm, s, x, i);
    }
    AddRingOwn(m, ms, T, tm, s, x);
    SetRingStored(m, ms, T, tm, s, r', m');
  }

  lemma RingFd(m: Mem, ms: int, T: Trie, s: int)
    requires s in T.tn && NodeStored(m, ms, T, s)
    ensures R(m, T.tn[s].ring[0] + FD) == T.tn[s].ring[Next(0, |T.tn[s].ring|)]
  {
    assert Step(m, T.tn[s].ring, 0);
  }

  lemma AddRingUntouched(m: Mem, ms: int, T: Trie, tm: set<int>, s: int, x: int, a: int)
    requires Stored(m, ms, T, tm) && s in T.tn && a in T.tn && a != s
    requires |T.tn[s].ring| > 0 && Far(ms, SetRing(T, s, Inserted(T.tn[s].ring, x)))
    ensures Untouched(m, AddRingMem(m, x, TreeIndex(s), At(T, s)), T.tn[a].ring)
  {
    hide TreeIndex;
    var r, ring := T.tn[s].ring, T.tn[a].ring;
    var r' := Inserted(r, x);
    var T' := SetRing(T, s, r');
    assert NodeStored(m, ms, T, s);
    RingFd(m, ms, T, s);
    var fi := if |r| == 1 then 0 else 2;
    assert r'[fi] == r[Next(0, |r|)] && r'[1] == x && r'[0] == r[0];
    assert FarAt(T', s, 0, s, 1) && FarAt(T', s, 1, s, fi);
    assert T'.tn[a].ring == ring;
    forall k | 0 <= k < |ring|
      ensures KeptAt(m, AddRingMem(m, x, TreeIndex(s), r[0]), ring, k)
              && SameLinks(m, AddRingMem(m, x, TreeIndex(s), r[0]), ring[k])
    {
      assert FarAt(T', a, k, s, 0) && FarAt(T', a, k, s, 1) && FarAt(T', a, k, s, fi);
      AddRingWords(m, x, TreeIndex(s), r[0], ring[k]);
    }
  }

  lemma AddRingBins(m: Mem, ms: int, T: Trie, tm: set<int>, s: int, x: int, i: int)
    requires Stored(m, ms, T, tm) && s in T.tn && 0 <= i < NTREEBINS
    requires |T.tn[s].ring| > 0 && Far(ms, SetRing(T, s, Inserted(T.tn[s].ring, x)))
    ensures var m' := AddRingMem(m, x, TreeIndex(s), At(T, s)); R(m', TB(ms, i)) == R(m, TB(ms, i))
  {
    hide TreeIndex;
    var r := T.tn[s].ring;
    var T' := SetRing(T, s, Inserted(r, x));
    assert NodeStored(m, ms, T, s);
    RingFd(m, ms, T, s);
    var fi := if |r| == 1 then 0 else 2;
    assert T'.tn[s].ring[fi] == r[Next(0, |r|)];
    assert OffState(ms, T', s, 0) && OffState(ms, T', s, 1) && OffState(ms, T', s, fi);
    assert R(NewChunkMem(m, x, TreeIndex(s)), r[0] + FD) == R(m, r[0] + FD) by { assert FarAt(T', s, 0, s, 1); }
  }

  lemma AddRingOwn(m: Mem, ms: int, T: Trie, tm: set<int>, s: int, x: int)
    requires Stored(m, ms, T, tm) && s in T.tn
    requires |T.tn[s].ring| > 0 && Far(ms, SetRing(T, s, Inserted(T.tn[s].ring, x)))
    ensures var r', m' := Inserted(T.tn[s].ring, x), AddRingMem(m, x, TreeIndex(s), At(T, s));
            SameLinks(m, m', r'[0]) && Ring(m', r') && Members(m', s, r')
  {
    hide TreeIndex;
    var r := T.tn[s].ring;
    var r' := Inserted(r, x);
    var T' := SetRing(T, s, r');
    assert NodeStored(m, ms, T, s);
    var m1 := NewChunkMem(m, x, TreeIndex(s));
    var m2 := RingInsertMem(m1, r[0], x);
    var m' := m2[x + PARENT := 0];
    forall k | 0 <= k < |r| ensures R(m1, r[k] + FD) == R(m, r[k] + FD) && R(m1, r[k] + BK) == R(m, r[k] + BK) {
      assert r'[if k == 0 then 0 else k + 1] == r[k];
      assert FarAt(T', s, if k == 0 then 0 else k + 1, s, 1);
    }
    RingFrame(m, m1, r);
    FarSpaced(ms, T', s);
    RingInsert(m1, r, x);
    forall k | 0 <= k < |r'| ensures R(m', r'[k] + FD) == R(m2, r'[k] + FD) && R(m', r'[k] + BK) == R(m2, r'[k] + BK) {
      assert FarAt(T', s, k, s, 1);
    }
    RingFrame(m2, m', r');
    forall k | 0 <= k < |r'| ensures MemberOk(m', s, r'[k], k) && (k == 0 ==> SameLinks(m, m', r'[0])) {
      AddRingMember(m, ms, T, s, x, k);
    }
  }

  /** Where the first chunk, the new one and the one after stand in the longer ring. */
  lemma AddRingSites(m: Mem, ms: int, T: Trie, s: int, x: int, k: int)
    requires s in T.tn && NodeStored(m, ms, T, s) && 0 <= k <= |T.tn[s].ring| && k != 1
    requires Far(ms, SetRing(T, s, Inserted(T.tn[s].ring, x)))
    ensures var r := T.tn[s].ring; var t, f, y := r[0], R(m, r[0] + FD), Inserted(r, x)[k];
            && Away(x, y) && Away(x, t) && (Away(t, y) || t == y) && (Away(f, y) || f == y) && Away(x, f)
  {
    hide TreeIndex;
    var r := T.tn[s].ring;
    var r', T' := Inserted(r, x), SetRing(T, s, Inserted(r, x));
    RingFd(m, ms, T, s);
    var fi := if |r| == 1 then 0 else 2;
    assert r'[fi] == r[Next(0, |r|)] && r'[1] == x && r'[0] == r[0];
    assert FarAt(T', s, 0, s, 1) && FarAt(T', s, 1, s, fi);
    assert FarAt(T', s, k, s, 0) && FarAt(T', s, k, s, 1) && FarAt(T', s, k, s, fi);
  }

  lemma AddRingMember(m: Mem, ms: int, T: Trie, s: int, x: int, k: int)
    requires s in T.tn && NodeStored(m, ms, T, s) && 0 <= k <= |T.tn[s].ring|
    requires Far(ms, SetRing(T, s, Inserted(T.tn[s].ring, x)))
    ensures var r', m' := Inserted(T.tn[s].ring, x), AddRingMem(m, x, TreeIndex(s), At(T, s));
            MemberOk(m', s, r'[k], k) && (k == 0 ==> SameLinks(m, m', r'[0]))
  {
    hide TreeIndex;
    var r := T.tn[s].ring;
    var r' := Inserted(r, x);
    if k != 1 {
      AddRingSites(m, ms, T, s, x, k);
      AddRingWords(m, x, TreeIndex(s), r[0], r'[k]);
      var j := if k == 0 then 0 else k - 1;
      assert r'[k] == r[j];
      assert MemberOk(m, s, r[j], j);
      hide Far, Ring, AddRingMem;
    } else {
      AddRingSites(m, ms, T, s, x, 0);
      assert R(NewChunkMem(m, x, TreeIndex(s)), r[0] + FD) == R(m, r[0] + FD);
    }
  }

  lemma FarSpaced(ms: int, T: Trie, s: int)
    requires Far(ms, T) && s in T.tn
    ensures Spaced(T.tn[s].ring)
  {
    var r := T.tn[s].ring;
    forall j, k | 0 <= j < |r| && 0 <= k < |r| && j != k ensures SpacedAt(r, j, k) { assert FarAt(T, s, j, s, k); }
  }

  lemma RingRemoveWords(m: Mem, p: int, y: int)
    requires var f, b := R(m, p + FD), R(m, p + BK); (Away(f, y) || f == y) && (Away(b, y) || b == y)
    ensures var m' := RingRemoveMem(m, p);
            && SameLinks(m, m', y) && R(m', y + INDEX) == R(m, y + INDEX)
            && (R(m, p + FD) != y && R(m, p + BK) != y ==> SameBody(m, m', y))
  {
  }

  /** Unlinking any chunk but the first from the ring of s. */
  lemma RemoveRingStored(m: Mem, ms: int, T: Trie, tm: set<int>, s: int, k: int)
    requires Shape(T) && Stored(m, ms, T, tm) && s in T.tn && 0 < k < |T.tn[s].ring| && Far(ms, T)
    ensures Stored(RingRemoveMem(m, T.tn[s].ring[k]), ms, SetRing(T, s, Removed(T.tn[s].ring, k)), tm)
  {
    hide TreeIndex;
    var r := T.tn[s].ring;
    var r', m' := Removed(r, k), RingRemoveMem(m, r[k]);
    assert NodeStored(m, ms, T, s);
    RingNeighbours(m, r, k);
    var f, b := Next(k, |r|), Prev(k, |r|);
    forall a | a in T.tn && a != s ensures Untouched(m, m', T.tn[a].ring) {
      RemoveRingUntouched(m, ms, T, s, k, a);
    }
    forall i | 0 <= i < NTREEBINS ensures R(m', TB(ms, i)) == R(m, TB(ms, i)) {
      assert OffState(ms, T, s, f) && OffState(ms, T, s, b);
    }
    RingRemove(m, r, k);
    forall j | 0 <= j < |r'| ensures MemberOk(m', s, r'[j], j) && (j == 0 ==> SameLinks(m, m', r'[0])) {
      var i := if j < k then j else j + 1;
      assert r'[j] == r[i];
      assert MemberOk(m, s, r[i], i);
      assert FarAt(T, s, i, s, f) && FarAt(T, s, i, s, b);
      RingRemoveWords(m, r[k], r[i]);
    }
    SetRingStored(m, ms, T, tm, s, r', m');
  }

  lemma RemoveRingUntouched(m: Mem, ms: int, T: Trie, s: int, k: int, a: int)
    requires s in T.tn && NodeStored(m, ms, T, s) && 0 <= k < |T.tn[s].ring| && Far(ms, T) && a in T.tn && a != s
    ensures Untouched(m, RingRemoveMem(m, T.tn[s].ring[k]), T.tn[a].ring)
  {
    hide TreeIndex;
    var r, ring := T.tn[s].ring, T.tn[a].ring;
    RingNeighbours(m, r, k);
    var m' := RingRemoveMem(m, r[k]);
    forall j | 0 <= j < |ring| ensures KeptAt(m, m', ring, j) && SameLinks(m, m', ring[j]) {
      assert FarAt(T, a, j, s, Next(k, |r|)) && FarAt(T, a, j, s, Prev(k, |r|));
      RingRemoveWords(m, r[k], ring[j]);
    }
  }

  // Taking a leaf out of the tree.

  /** The word that points to the node of size s. */
  ghost function SlotOf(ms: int, T: Trie, s: int): int
    requires s in T.tn
  {
    var up := T.tn[s].up;
    SlotAddr(ms, T, s, up, up in T.tn && T.tn[up].r == s)
  }

  ghost function MapWithout(T: Trie, tm: set<int>, s: int): set<int>
    requires s in T.tn
  {
    if T.tn[s].up == 0 then tm - {TreeIndex(s)} else tm
  }

  /** The slot of s is no other word of a stored chunk than the child word it should be. */
  lemma SlotAway(ms: int, T: Trie, s: int, a: int, k: int)
    requires Shape(T) && s in T.tn && Far(ms, T) && a in T.tn && 0 <= k < |T.tn[a].ring|
    ensures var slot, y, up := SlotOf(ms, T, s), T.tn[a].ring[k], T.tn[s].up;
            if up != 0 && a == up && k == 0 then slot == y + if T.tn[up].r == s then CHILD1 else CHILD0
            else slot < y + 16 || y + TCHUNK_SIZE <= slot
  {
    hide TreeIndex;
    assert ShapeOk(T, s);
    var up := T.tn[s].up;
    assert OffState(ms, T, a, k);
    if up != 0 {
      assert ShapeOk(T, up);
      assert FarAt(T, a, k, up, 0);
    }
  }

  lemma OnlyUpLinks(T: Trie, s: int, a: int)
    requires Shape(T) && s in T.tn && a in T.tn
    ensures a != T.tn[s].up ==> T.tn[a].l != s && T.tn[a].r != s
    ensures a == T.tn[s].up ==> (T.tn[a].l == s) != (T.tn[a].r == s)
  {
    hide TreeIndex;
    NoZero(T);
    assert ShapeOk(T, a) && ShapeOk(T, s);
  }

  lemma DropLeafStoredNode(m: Mem, ms: int, T: Trie, tm: set<int>, s: int, a: int)
    requires Shape(T) && Stored(m, ms, T, tm) && IsLeaf(T, s) && Far(ms, T) && a in T.tn && a != s
    ensures NodeStored(m[SlotOf(ms, T, s) := 0], ms, DropLeaf(T, s), a)
  {
    hide TreeIndex;
    var T', m' := DropLeaf(T, s), m[SlotOf(ms, T, s) := 0];
    assert NodeStored(m, ms, T, a);
    OnlyUpLinks(T, s, a);
    var ring := T.tn[a].ring;
    forall k | 0 <= k < |ring| ensures KeptAt(m, m', ring, k) { SlotAway(ms, T, s, a, k); }
    SlotAway(ms, T, s, a, 0);
    LeafNotUp(T, s, a);
    NoZero(T);
    assert forall b {:trigger At(T', b)} :: b != s ==> At(T', b) == At(T, b);
    hide Shape;
    assert Links(m', ms, T', a);
    NodeKept(m, ms, T, m', T', a);
  }

  lemma LeafNotUp(T: Trie, s: int, a: int)
    requires Shape(T) && IsLeaf(T, s) && a in T.tn
    ensures T.tn[a].up != s
  {
    hide TreeIndex;
    NoZero(T);
    assert ShapeOk(T, a);
  }

  lemma DropLeafStored(m: Mem, ms: int, T: Trie, tm: set<int>, s: int)
    requires Shape(T) && Stored(m, ms, T, tm) && IsLeaf(T, s) && Far(ms, T)
    ensures Stored(m[SlotOf(ms, T, s) := 0], ms, DropLeaf(T, s), MapWithout(T, tm, s))
  {
    hide TreeIndex;
    var T', m' := DropLeaf(T, s), m[SlotOf(ms, T, s) := 0];
    forall a | a in T'.tn ensures NodeStored(m', ms, T', a) { DropLeafStoredNode(m, ms, T, tm, s, a); }
    forall i | i in T'.rt ensures BinStored(m', ms, T', MapWithout(T, tm, s), i) { DropLeafBin(m, ms, T, tm, s, i); }
    assert HasRoots(T');
  }

  lemma DropLeafBin(m: Mem, ms: int, T: Trie, tm: set<int>, s: int, i: int)
    requires Shape(T) && BinsStored(m, ms, T, tm) && IsLeaf(T, s) && Far(ms, T) && i in T.rt
    ensures BinStored(m[SlotOf(ms, T, s) := 0], ms, DropLeaf(T, s), MapWithout(T, tm, s), i)
  {
    hide TreeIndex;
    var T' := DropLeaf(T, s);
    assert BinStored(m, ms, T, tm, i) && ShapeOk(T, s) && RootOk(T, i);
    NoZero(T);
    var up := T.tn[s].up;
    if up != 0 {
      assert ShapeOk(T, up);
      assert OffState(ms, T, up, 0);
    }
    assert forall b {:trigger At(T', b)} :: b != s ==> At(T', b) == At(T, b);
  }

  // Another chunk takes the place of a node.

  function GiveChild(m: Mem, x: int, y: int, d: int): Mem {
    var c := R(m, x + d);
    if c == 0 then m else m[y + d := c][c + PARENT := y]
  }

  /** The tail of unlink_large_chunk: y gets the slot, the parent and the children of x. */
  function ReplaceMem(m: Mem, slot: int, x: int, y: int): Mem {
    GiveChild(GiveChild(m[slot := y][y + PARENT := R(m, x + PARENT)], x, y, CHILD0), x, y, CHILD1)
  }

  /** m holds the trie but for the node of s, whose place the chunks `ring` of size b are to take. */
  ghost predicate Ready(m: Mem, ms: int, T: Trie, tm: set<int>, s: int, b: int, ring: seq<int>) {
    && CanReplace(T, s, b, ring) && BinsStored(m, ms, T, tm)
    && (forall a {:trigger NodeStored(m, ms, T, a)} :: a in T.tn && a != s ==> NodeStored(m, ms, T, a))
    && Links(m, ms, T, s) && Ring(m, ring) && Members(m, b, ring)
    && R(m, ring[0] + CHILD0) == 0 && R(m, ring[0] + CHILD1) == 0
    && Away(At(T, s), ring[0])
  }

  lemma GiveChildWords(m: Mem, x: int, y: int, d: int, z: int)
    requires (d == CHILD0 || d == CHILD1) && (Away(y, z) || y == z) && y != R(m, x + d)
    requires var c := R(m, x + d); c == 0 || c == z || Away(c, z)
    ensures var m', c := GiveChild(m, x, y, d), R(m, x + d);
            && SameBody(m, m', z)
            && R(m', z + PARENT) == (if c != 0 && z == c then y else R(m, z + PARENT))
            && R(m', z + CHILD0) == (if c != 0 && d == CHILD0 && z == y then c else R(m, z + CHILD0))
            && R(m', z + CHILD1) == (if c != 0 && d == CHILD1 && z == y then c else R(m, z + CHILD1))
  {
  }

  lemma SlotWords(m: Mem, slot: int, y: int, par: int, z: int)
    requires (Away(y, z) || y == z)
             && (slot < z + 16 || z + TCHUNK_SIZE <= slot || slot == z + CHILD0 || slot == z + CHILD1)
    ensures var m' := m[slot := y][y + PARENT := par];
            && SameBody(m, m', z)
            && R(m', z + PARENT) == (if z == y then par else R(m, z + PARENT))
            && R(m', z + CHILD0) == (if slot == z + CHILD0 then y else R(m, z + CHILD0))
            && R(m', z + CHILD1) == (if slot == z + CHILD1 then y else R(m, z + CHILD1))
  {
  }

  ghost predicate KidSite(m: Mem, x: int, y: int, z: int, d: int) {
    var c := R(m, x + d);
    c == 0 || (c != y && Away(c, x) && (c == z || Away(c, z)))
  }

  ghost predicate Site(m: Mem, slot: int, x: int, y: int, z: int) {
    && Away(x, y) && (Away(y, z) || y == z) && (slot < x + 16 || x + TCHUNK_SIZE <= slot)
    && (slot < z + 16 || z + TCHUNK_SIZE <= slot || slot == z + CHILD0 || slot == z + CHILD1)
    && KidSite(m, x, y, z, CHILD0) && KidSite(m, x, y, z, CHILD1)
    && (R(m, x + CHILD0) == 0 || R(m, x + CHILD0) != R(m, x + CHILD1))
    && (z == y ==> R(m, z + CHILD0) == 0 && R(m, z + CHILD1) == 0 && slot != z + CHILD0 && slot != z + CHILD1)
    && y != 0 && z != 0
  }

  /** What the replacement of x by y does to the words of chunk z. */
  ghost predicate Effect(m: Mem, m': Mem, slot: int, x: int, y: int, z: int) {
    var c0, c1 := R(m, x + CHILD0), R(m, x + CHILD1);
    && SameBody(m, m', z)
    && R(m', z + PARENT) == (if z == c0 || z == c1 then y else if z == y then R(m, x + PARENT) else R(m, z + PARENT))
    && R(m', z + CHILD0) == (if z == y then c0 else if slot == z + CHILD0 then y else R(m, z + CHILD0))
    && R(m', z + CHILD1) == (if z == y then c1 else if slot == z + CHILD1 then y else R(m, z + CHILD1))
  }

  lemma ReplaceWords(m: Mem, slot: int, x: int, y: int, z: int)
    requires Site(m, slot, x, y, z)
    ensures Effect(m, ReplaceMem(m, slot, x, y), slot, x, y, z)
  {
    var m1 := m[slot := y][y + PARENT := R(m, x + PARENT)];
    SlotWords(m, slot, y, R(m, x + PARENT), z);
    SlotWords(m, slot, y, R(m, x + PARENT), x);
    var m2 := GiveChild(m1, x, y, CHILD0);
    GiveChildWords(m1, x, y, CHILD0, z);
    GiveChildWords(m1, x, y, CHILD0, x);
    GiveChildWords(m2, x, y, CHILD1, z);
  }

  /** Replace only renames s to b and changes the ring there. */
  lemma ReplaceAt(T: Trie, s: int, b: int, ring: seq<int>)
    requires CanReplace(T, s, b, ring)
    ensures At(Replace(T, s, b, ring), b) == ring[0]
    ensures Replace(T, s, b, ring).tn[b].ring == ring
    ensures forall a {:trigger Replace(T, s, b, ring).tn[a]} :: a in T.tn && a != s ==>
              a in Replace(T, s, b, ring).tn && Replace(T, s, b, ring).tn[a] == RenamedNode(T.tn[a], s, b)
    ensures forall a {:trigger At(Replace(T, s, b, ring), a)} :: a != s && a != b ==>
      At(Replace(T, s, b, ring), a) == At(T, a)
  {
    hide TreeIndex;
  }

  lemma KidSiteOk(m: Mem, ms: int, T: Trie, s: int, b: int, ring: seq<int>, a: int, k: int, c: int)
    requires Shape(T) && CanReplace(T, s, b, ring) && Far(ms, T) && Far(ms, Replace(T, s, b, ring))
    requires a in Replace(T, s, b, ring).tn && 0 <= k < |Replace(T, s, b, ring).tn[a].ring|
    requires c == T.tn[s].l || c == T.tn[s].r
    ensures var x, z := At(T, s), Replace(T, s, b, ring).tn[a].ring[k];
            At(T, c) == 0 || (At(T, c) != ring[0] && Away(At(T, c), x) && (At(T, c) == z || Away(At(T, c), z)))
    ensures c != 0 ==> At(T, c) != 0
  {
    hide TreeIndex;
    NoZero(T);
    assert ShapeOk(T, s);
    var T' := Replace(T, s, b, ring);
    ReplaceAt(T, s, b, ring);
    if c != 0 {
      assert ShapeOk(T, c);
      assert c != s;
      assert FarAt(T, c, 0, s, 0) && OffState(ms, T, c, 0);
      assert T'.tn[c].ring == T.tn[c].ring;
      assert FarAt(T', c, 0, b, 0) && FarAt(T', a, k, c, 0);
    }
  }

  /** The slot that points to the old node is away from every chunk that stays, but for the parent's links. */
  lemma ReplaceSlot(ms: int, T: Trie, s: int, b: int, ring: seq<int>, a: int, k: int)
    requires Shape(T) && CanReplace(T, s, b, ring) && Far(ms, T) && Far(ms, Replace(T, s, b, ring))
    requires a in Replace(T, s, b, ring).tn && 0 <= k < |Replace(T, s, b, ring).tn[a].ring|
    ensures var slot, z, up := SlotOf(ms, T, s), Replace(T, s, b, ring).tn[a].ring[k], T.tn[s].up;
            if up in T.tn && a == up && k == 0 then slot == z + if T.tn[up].r == s then CHILD1 else CHILD0
            else slot < z + 16 || z + TCHUNK_SIZE <= slot
    ensures T.tn[s].up != b
  {
    hide TreeIndex;
    NoZero(T);
    assert ShapeOk(T, s);
    var T', up := Replace(T, s, b, ring), T.tn[s].up;
    ReplaceAt(T, s, b, ring);
    assert OffState(ms, T', a, k);
    if up != 0 {
      assert ShapeOk(T, up);
      assert up != s && T'.tn[up].ring == T.tn[up].ring;
      assert FarAt(T', a, k, up, 0);
    }
    hide Shape, Far;
  }

  /** The new node's chunk is another than the one looked at, or is it. */
  lemma ReplaceApart(ms: int, T: Trie, s: int, b: int, ring: seq<int>, a: int, k: int)
    requires CanReplace(T, s, b, ring) && Far(ms, Replace(T, s, b, ring))
    requires a in Replace(T, s, b, ring).tn && 0 <= k < |Replace(T, s, b, ring).tn[a].ring|
    ensures var y, z := ring[0], Replace(T, s, b, ring).tn[a].ring[k];
            y > 0 && z > 0 && (Away(y, z) || (y == z && a == b && k == 0))
  {
    hide TreeIndex;
    var T' := Replace(T, s, b, ring);
    ReplaceAt(T, s, b, ring);
    assert FarAt(T', a, k, b, 0) && OffState(ms, T', a, k) && OffState(ms, T', b, 0);
  }

  lemma ReplaceSite(m: Mem, ms: int, T: Trie, tm: set<int>, s: int, b: int, ring: seq<int>, a: int, k: int)
    requires Shape(T) && Ready(m, ms, T, tm, s, b, ring) && Far(ms, T) && Far(ms, Replace(T, s, b, ring))
    requires a in Replace(T, s, b, ring).tn && 0 <= k < |Replace(T, s, b, ring).tn[a].ring|
    ensures Site(m, SlotOf(ms, T, s), At(T, s), ring[0], Replace(T, s, b, ring).tn[a].ring[k])
    ensures var slot, z, up := SlotOf(ms, T, s), Replace(T, s, b, ring).tn[a].ring[k], T.tn[s].up;
            if up in T.tn && a == up && k == 0 then slot == z + if T.tn[up].r == s then CHILD1 else CHILD0
            else slot < z + 16 || z + TCHUNK_SIZE <= slot
  {
    hide TreeIndex, BinsStored, Ring, Members, LevelApart;
    assert ShapeOk(T, s);
    KidSiteOk(m, ms, T, s, b, ring, a, k, T.tn[s].l);
    KidSiteOk(m, ms, T, s, b, ring, a, k, T.tn[s].r);
    SlotAway(ms, T, s, s, 0);
    ReplaceSlot(ms, T, s, b, ring, a, k);
    ReplaceApart(ms, T, s, b, ring, a, k);
    KidsDiffer(ms, T, s);
    hide Shape, Far, ShapeOk, Replace, SlotOf;
  }

  lemma KidsDiffer(ms: int, T: Trie, s: int)
    requires Shape(T) && s in T.tn && Far(ms, T)
    ensures At(T, T.tn[s].l) == 0 || At(T, T.tn[s].l) != At(T, T.tn[s].r)
  {
    hide TreeIndex;
    NoZero(T);
    assert ShapeOk(T, s);
    var l, r := T.tn[s].l, T.tn[s].r;
    if l != 0 && r != 0 {
      assert ShapeOk(T, l) && ShapeOk(T, r);
      assert FarAt(T, l, 0, r, 0);
    }
  }

  lemma AtRenamed(T: Trie, s: int, b: int, ring: seq<int>, c: int)
    requires CanReplace(T, s, b, ring) && (c in T.tn || c == 0)
    ensures At(Replace(T, s, b, ring), Renamed(c, s, b)) == if c == s then ring[0] else At(T, c)
  {
    hide TreeIndex;
  }

  /** The new node's chunk is no child of the old one. */
  lemma ReplaceNotKid(ms: int, T: Trie, s: int, b: int, ring: seq<int>)
    requires Shape(T) && CanReplace(T, s, b, ring) && Far(ms, T) && Far(ms, Replace(T, s, b, ring))
    ensures ring[0] > 0 && ring[0] != At(T, T.tn[s].l) && ring[0] != At(T, T.tn[s].r)
    ensures T.tn[s].l in T.tn || T.tn[s].l == 0
    ensures T.tn[s].r in T.tn || T.tn[s].r == 0
    ensures T.tn[s].up in T.tn || T.tn[s].up == 0
    ensures s !in {T.tn[s].l, T.tn[s].r, T.tn[s].up}
  {
    hide TreeIndex;
    ReplaceAt(T, s, b, ring);
    NoZero(T);
    assert ShapeOk(T, s);
    KidSiteOk(map[], ms, T, s, b, ring, b, 0, T.tn[s].l);
    KidSiteOk(map[], ms, T, s, b, ring, b, 0, T.tn[s].r);
    assert OffState(ms, Replace(T, s, b, ring), b, 0);
  }

  lemma ReplaceLinksNew(m: Mem, ms: int, T: Trie, tm: set<int>, s: int, b: int, ring: seq<int>)
    requires Shape(T) && Ready(m, ms, T, tm, s, b, ring) && Far(ms, T) && Far(ms, Replace(T, s, b, ring))
    ensures b in Replace(T, s, b, ring).tn
    ensures Links(ReplaceMem(m, SlotOf(ms, T, s), At(T, s), ring[0]), ms, Replace(T, s, b, ring), b)
  {
    hide TreeIndex;
    var T' := Replace(T, s, b, ring);
    ReplaceAt(T, s, b, ring);
    ReplaceSite(m, ms, T, tm, s, b, ring, b, 0);
    ReplaceWords(m, SlotOf(ms, T, s), At(T, s), ring[0], ring[0]);
    ReplaceNotKid(ms, T, s, b, ring);
    AtRenamed(T, s, b, ring, T.tn[s].l);
    AtRenamed(T, s, b, ring, T.tn[s].r);
    AtRenamed(T, s, b, ring, T.tn[s].up);
    assert T'.tn[b] == T.tn[s].(ring := ring);
    hide Shape, Far, Replace, ReplaceMem, Ring, Members, At, BinsStored, NodeStored, SlotOf;
  }

  lemma ReplaceEffect(m: Mem, ms: int, T: Trie, tm: set<int>, s: int, b: int, ring: seq<int>, a: int)
    requires Shape(T) && Ready(m, ms, T, tm, s, b, ring) && Far(ms, T) && Far(ms, Replace(T, s, b, ring))
    requires a in T.tn && a != s && |T.tn[a].ring| > 0
    ensures Effect(m, ReplaceMem(m, SlotOf(ms, T, s), At(T, s), ring[0]), SlotOf(ms, T, s), At(T, s), ring[0], At(T, a))
    ensures At(T, a) != ring[0]
    ensures var slot, z, up := SlotOf(ms, T, s), At(T, a), T.tn[s].up;
            if up in T.tn && a == up then slot == z + if T.tn[up].r == s then CHILD1 else CHILD0
            else slot < z + 16 || z + TCHUNK_SIZE <= slot
  {
    hide TreeIndex;
    var T', z := Replace(T, s, b, ring), T.tn[a].ring[0];
    ReplaceAt(T, s, b, ring);
    ReplaceSite(m, ms, T, tm, s, b, ring, a, 0);
    ReplaceWords(m, SlotOf(ms, T, s), At(T, s), ring[0], z);
    assert z != ring[0] by { assert FarAt(T', a, 0, b, 0); }
  }

  lemma ReplaceWordsOther(m: Mem, ms: int, T: Trie, tm: set<int>, s: int, b: int, ring: seq<int>, a: int)
    requires Shape(T) && Ready(m, ms, T, tm, s, b, ring) && Far(ms, T) && Far(ms, Replace(T, s, b, ring))
    requires a in T.tn && a != s && |T.tn[a].ring| > 0
    ensures var m', z, up := ReplaceMem(m, SlotOf(ms, T, s), At(T, s), ring[0]), At(T, a), T.tn[s].up;
            && R(m', z + CHILD0) == (if up in T.tn && a == up && T.tn[up].r != s then ring[0] else R(m, z + CHILD0))
            && R(m', z + CHILD1) == (if up in T.tn && a == up && T.tn[up].r == s then ring[0] else R(m, z + CHILD1))
            && R(m', z + PARENT) == (if T.tn[a].up == s then ring[0] else R(m, z + PARENT))
  {
    hide TreeIndex;
    ReplaceEffect(m, ms, T, tm, s, b, ring, a);
    ReplaceParent(ms, T, s, a);
    assert Links(m, ms, T, s);
    hide Shape, Far, Replace, ReplaceMem, Ring, Members, BinsStored, NodeStored, SlotOf, At;
  }

  lemma ReplaceLinksOther(m: Mem, ms: int, T: Trie, tm: set<int>, s: int, b: int, ring: seq<int>, a: int)
    requires Shape(T) && Ready(m, ms, T, tm, s, b, ring) && Far(ms, T) && Far(ms, Replace(T, s, b, ring))
    requires a in T.tn && a != s && |T.tn[a].ring| > 0
    ensures a in Replace(T, s, b, ring).tn
    ensures Links(ReplaceMem(m, SlotOf(ms, T, s), At(T, s), ring[0]), ms, Replace(T, s, b, ring), a)
  {
    hide TreeIndex, Far, BinsStored, Ring, Members, ReplaceMem, SlotOf, LevelApart;
    var T', t := Replace(T, s, b, ring), T.tn[a];
    ReplaceAt(T, s, b, ring);
    ReplaceWordsOther(m, ms, T, tm, s, b, ring, a);
    NoZero(T);
    assert NodeStored(m, ms, T, a) && ShapeOk(T, a);
    OnlyUpLinks(T, s, a);
    AtRenamed(T, s, b, ring, t.l);
    AtRenamed(T, s, b, ring, t.r);
    AtRenamed(T, s, b, ring, t.up);
    assert T'.tn[a] == RenamedNode(t, s, b);
    hide Shape, ShapeOk, Far, Replace, ReplaceMem, Ring, Members, BinsStored, SlotOf;
  }

  /** a's chunk is a child of s's chunk exactly when a's parent is s. */
  lemma ReplaceParent(ms: int, T: Trie, s: int, a: int)
    requires Shape(T) && s in T.tn && a in T.tn && Far(ms, T)
    ensures T.tn[a].up == s <==> At(T, a) == At(T, T.tn[s].l) || At(T, a) == At(T, T.tn[s].r)
  {
    hide TreeIndex;
    NoZero(T);
    assert ShapeOk(T, s) && ShapeOk(T, a);
    assert OffState(ms, T, a, 0);
    var l, r := T.tn[s].l, T.tn[s].r;
    if l != 0 { assert ShapeOk(T, l); assert FarAt(T, a, 0, l, 0); }
    if r != 0 { assert ShapeOk(T, r); assert FarAt(T, a, 0, r, 0); }
  }

  lemma ReplaceKept(m: Mem, ms: int, T: Trie, tm: set<int>, s: int, b: int, ring: seq<int>, a: int, k: int)
    requires Shape(T) && Ready(m, ms, T, tm, s, b, ring) && Far(ms, T) && Far(ms, Replace(T, s, b, ring))
    requires a in Replace(T, s, b, ring).tn && 0 <= k < |Replace(T, s, b, ring).tn[a].ring|
    ensures KeptAt(m, ReplaceMem(m, SlotOf(ms, T, s), At(T, s), ring[0]), Replace(T, s, b, ring).tn[a].ring, k)
  {
    hide TreeIndex;
    var z := Replace(T, s, b, ring).tn[a].ring[k];
    ReplaceSite(m, ms, T, tm, s, b, ring, a, k);
    ReplaceWords(m, SlotOf(ms, T, s), At(T, s), ring[0], z);
    if k > 0 {
      ReplaceNoKid(ms, T, s, b, ring, a, k);
    }
    assert Links(m, ms, T, s);
    hide Shape, Far, FarAt, Replace, ReplaceMem, Ring, Members, BinsStored, NodeStored, SlotOf, Site;
  }

  lemma ReplaceStoredNode(m: Mem, ms: int, T: Trie, tm: set<int>, s: int, b: int, ring: seq<int>, a: int)
    requires Shape(T) && Ready(m, ms, T, tm, s, b, ring) && Far(ms, T) && Far(ms, Replace(T, s, b, ring))
    requires a in Replace(T, s, b, ring).tn
    ensures NodeStored(ReplaceMem(m, SlotOf(ms, T, s), At(T, s), ring[0]), ms, Replace(T, s, b, ring), a)
  {
    hide TreeIndex;
    var T' := Replace(T, s, b, ring);
    var m' := ReplaceMem(m, SlotOf(ms, T, s), At(T, s), ring[0]);
    ReplaceAt(T, s, b, ring);
    var r := T'.tn[a].ring;
    if a == b {
      ReplaceLinksNew(m, ms, T, tm, s, b, ring);
    } else {
      assert NodeStored(m, ms, T, a) && ShapeOk(T, a);
      ReplaceLinksOther(m, ms, T, tm, s, b, ring, a);
    }
    assert Ring(m, r) && Members(m, a, r);
    forall k | 0 <= k < |r| ensures KeptAt(m, m', r, k) { ReplaceKept(m, ms, T, tm, s, b, ring, a, k); }
    hide Shape, Far, Replace, ReplaceMem, BinsStored, SlotOf, Links, Ready;
    RingKept(m, m', a, r);
  }

  lemma RingKept(m: Mem, m': Mem, a: int, r: seq<int>)
    requires Ring(m, r) && Members(m, a, r) && Kept(m, m', r)
    ensures Ring(m', r) && Members(m', a, r)
  {
    hide TreeIndex;
    forall k | 0 <= k < |r|
      ensures MemberOk(m', a, r[k], k)
      ensures R(m', r[k] + FD) == R(m, r[k] + FD) && R(m', r[k] + BK) == R(m, r[k] + BK)
    {
      assert MemberOk(m, a, r[k], k) && KeptAt(m, m', r, k);
    }
    RingFrame(m, m', r);
  }

  /** Chunks that are not in the tree themselves are neither the new node nor a child. */
  lemma ReplaceNoKid(ms: int, T: Trie, s: int, b: int, ring: seq<int>, a: int, k: int)
    requires Shape(T) && CanReplace(T, s, b, ring) && Far(ms, Replace(T, s, b, ring))
    requires a in Replace(T, s, b, ring).tn && 0 < k < |Replace(T, s, b, ring).tn[a].ring|
    ensures var z := Replace(T, s, b, ring).tn[a].ring[k];
            z != ring[0] && z != At(T, T.tn[s].l) && z != At(T, T.tn[s].r)
  {
    hide TreeIndex;
    NoZero(T);
    var T' := Replace(T, s, b, ring);
    ReplaceAt(T, s, b, ring);
    assert ShapeOk(T, s);
    var l, r := T.tn[s].l, T.tn[s].r;
    assert FarAt(T', a, k, b, 0) && OffState(ms, T', a, k);
    if l != 0 { assert ShapeOk(T, l); assert T'.tn[l].ring == T.tn[l].ring; assert FarAt(T', a, k, l, 0); }
    if r != 0 { assert ShapeOk(T, r); assert T'.tn[r].ring == T.tn[r].ring; assert FarAt(T', a, k, r, 0); }
  }

  lemma ReplaceBin(m: Mem, ms: int, T: Trie, tm: set<int>, s: int, b: int, ring: seq<int>, i: int)
    requires Shape(T) && Ready(m, ms, T, tm, s, b, ring) && Far(ms, T) && Far(ms, Replace(T, s, b, ring)) && i in T.rt
    ensures i in Replace(T, s, b, ring).rt
    ensures BinStored(ReplaceMem(m, SlotOf(ms, T, s), At(T, s), ring[0]), ms, Replace(T, s, b, ring), tm, i)
  {
    hide TreeIndex;
    NoZero(T);
    var T', x, y := Replace(T, s, b, ring), At(T, s), ring[0];
    var slot, l, r, up := SlotOf(ms, T, s), T.tn[s].l, T.tn[s].r, T.tn[s].up;
    assert BinStored(m, ms, T, tm, i) && RootOk(T, i) && ShapeOk(T, s);
    ReplaceAt(T, s, b, ring);
    AtRenamed(T, s, b, ring, T.rt[i]);
    assert OffState(ms, T', b, 0) && OffState(ms, T, s, 0);
    if l != 0 { assert ShapeOk(T, l); assert OffState(ms, T, l, 0); }
    if r != 0 { assert ShapeOk(T, r); assert OffState(ms, T, r, 0); }
    if up != 0 { assert ShapeOk(T, up); assert OffState(ms, T, up, 0); }
    KidSiteOk(m, ms, T, s, b, ring, b, 0, l);
    KidSiteOk(m, ms, T, s, b, ring, b, 0, r);
    KidsDiffer(ms, T, s);
    SlotAway(ms, T, s, s, 0);
    hide Shape, Far, Ready, Ring, Members, ShapeOk;
    ReplaceBinWord(m, slot, x, y, TB(ms, i));
  }

  lemma ReplaceBinWord(m: Mem, slot: int, x: int, y: int, w: int)
    requires Away(x, y) && y != 0 && (slot < x + 16 || x + TCHUNK_SIZE <= slot)
    requires w < y + 16 || y + TCHUNK_SIZE <= w
    requires forall d {:trigger R(m, x + d)} :: d == CHILD0 || d == CHILD1 ==>
               var c := R(m, x + d); c == 0 || (c != y && Away(c, x) && (w < c + 16 || c + TCHUNK_SIZE <= w))
    ensures R(ReplaceMem(m, slot, x, y), w) == if slot == w then y else R(m, w)
  {
    var m1 := m[slot := y][y + PARENT := R(m, x + PARENT)];
    assert R(m1, x + CHILD0) == R(m, x + CHILD0) && R(m1, x + CHILD1) == R(m, x + CHILD1);
    var m2 := GiveChild(m1, x, y, CHILD0);
    assert R(m2, x + CHILD1) == R(m, x + CHILD1);
  }

  lemma ReplaceStored(m: Mem, ms: int, T: Trie, tm: set<int>, s: int, b: int, ring: seq<int>)
    requires Shape(T) && Ready(m, ms, T, tm, s, b, ring) && Far(ms, T) && Far(ms, Replace(T, s, b, ring))
    ensures Stored(ReplaceMem(m, SlotOf(ms, T, s), At(T, s), ring[0]), ms, Replace(T, s, b, ring), tm)
  {
    hide TreeIndex;
    var T' := Replace(T, s, b, ring);
    var m' := ReplaceMem(m, SlotOf(ms, T, s), At(T, s), ring[0]);
    forall a | a in T'.tn ensures NodeStored(m', ms, T', a) { ReplaceStoredNode(m, ms, T, tm, s, b, ring, a); }
    forall i | i in T'.rt ensures BinStored(m', ms, T', tm, i) { ReplaceBin(m, ms, T, tm, s, b, ring, i); }
    assert HasRoots(T');
  }
}
