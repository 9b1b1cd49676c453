/** The bitwise tries of the tree bins, as a map from the chunk sizes present to their nodes. */
module AllocTrie {
  import opened AllocIndex

  /**
   * The node of one chunk size: the ring of chunks of that size (the first one is in the tree),
   * the range [lo, lo + 2^e) of sizes its subtree may hold, and the sizes of its parent and
   * children (0 where there is none).
   */
  datatype TNode = TNode(ring: seq<int>, lo: int, e: int, up: int, l: int, r: int)

  /** The nodes by size, and the size at the root of each bin (0 when the bin is empty). */
  datatype Trie = Trie(tn: map<int, TNode>, rt: map<int, int>)

  function Hi(t: TNode): int {
    if t.e < 0 then t.lo else t.lo + Pow2(t.e)
  }

  /** c is the left or right child of the node of size s. */
  ghost predicate KidOk(T: Trie, s: int, c: int, right: bool)
    requires s in T.tn
  {
    var t := T.tn[s];
    c != 0 ==>
      && c in T.tn && TreeIndex(c) == TreeIndex(s) && T.tn[c].up == s && t.e >= 1 && T.tn[c].e == t.e - 1
      && T.tn[c].lo == if right then t.lo + Pow2(t.e - 1) else t.lo
  }

  ghost predicate ShapeOk(T: Trie, s: int)
    requires s in T.tn
  {
    var t := T.tn[s];
    && MIN_LARGE_SIZE <= s < SIZE_LIMIT && |t.ring| > 0
    && 0 <= TreeIndex(s) < NTREEBINS && TreeIndex(s) in T.rt
    && 0 <= t.e <= BinExp(TreeIndex(s)) && t.lo <= s < t.lo + Pow2(t.e)
    && (t.up == 0 ==> t.e == BinExp(TreeIndex(s)) && t.lo == BinLo(TreeIndex(s)) && T.rt[TreeIndex(s)] == s)
    && (t.up != 0 ==> t.up in T.tn && TreeIndex(t.up) == TreeIndex(s) && (T.tn[t.up].l == s || T.tn[t.up].r == s))
    && KidOk(T, s, t.l, false) && KidOk(T, s, t.r, true)
  }

  ghost predicate RootOk(T: Trie, i: int)
    requires i in T.rt
  {
    T.rt[i] != 0 ==> T.rt[i] in T.tn && TreeIndex(T.rt[i]) == i && T.tn[T.rt[i]].up == 0
  }

  /** Different nodes on one level of a bin stand for disjoint size ranges. */
  ghost predicate LevelApart(T: Trie, a: int, b: int)
    requires a in T.tn && b in T.tn
  {
    a != b && TreeIndex(a) == TreeIndex(b) && T.tn[a].e == T.tn[b].e ==>
      Hi(T.tn[a]) <= T.tn[b].lo || Hi(T.tn[b]) <= T.tn[a].lo
  }

  ghost predicate HasRoots(T: Trie) {
    forall i {:trigger i in T.rt} :: 0 <= i < NTREEBINS <==> i in T.rt
  }

  ghost predicate Shape(T: Trie) {
    && HasRoots(T)
    && (forall s {:trigger ShapeOk(T, s)} :: s in T.tn ==> ShapeOk(T, s))
    && (forall i {:trigger RootOk(T, i)} :: i in T.rt ==> RootOk(T, i))
    && (forall a, b {:trigger LevelApart(T, a, b)} :: a in T.tn && b in T.tn ==> LevelApart(T, a, b))
  }

  /** The size range of a lies within that of b. */
  ghost predicate In(T: Trie, a: int, b: int)
    requires a in T.tn && b in T.tn
  {
    TreeIndex(a) == TreeIndex(b) && T.tn[b].lo <= T.tn[a].lo && Hi(T.tn[a]) <= Hi(T.tn[b])
  }

  lemma NoZero(T: Trie)
    requires Shape(T)
    ensures 0 !in T.tn
  {
    hide TreeIndex;
    forall s | s in T.tn ensures s != 0 { assert ShapeOk(T, s); }
  }

  lemma UpIn(T: Trie, a: int)
    requires Shape(T) && a in T.tn && T.tn[a].up != 0
    ensures var u := T.tn[a].up; u in T.tn && T.tn[u].e == T.tn[a].e + 1 <= BinExp(TreeIndex(a)) && In(T, a, u)
  {
    hide TreeIndex;
    assert ShapeOk(T, a);
    assert ShapeOk(T, T.tn[a].up);
  }

  /** The node above a (or a itself) on level k. */
  lemma Ancestor(T: Trie, a: int, k: int) returns (c: int)
    requires Shape(T) && a in T.tn && T.tn[a].e <= k <= BinExp(TreeIndex(a))
    ensures c in T.tn && T.tn[c].e == k && In(T, a, c)
    decreases k - T.tn[a].e
  {
    hide TreeIndex;
    assert ShapeOk(T, a);
    if T.tn[a].e == k {
      c := a;
    } else {
      UpIn(T, a);
      assert ShapeOk(T, T.tn[a].up);
      c := Ancestor(T, T.tn[a].up, k);
    }
  }

  lemma SameLevel(T: Trie, a: int, b: int, c: int)
    requires Shape(T) && a in T.tn && b in T.tn && c in T.tn && In(T, c, a) && In(T, c, b) && T.tn[a].e == T.tn[b].e
    ensures a == b
  {
    hide TreeIndex;
    assert LevelApart(T, a, b) && ShapeOk(T, c);
  }

  /** A node of a subtree is its root or lies below one of the root's children. */
  lemma Below(T: Trie, s: int, a: int)
    requires Shape(T) && s in T.tn && a in T.tn && In(T, a, s) && a != s
    ensures var t := T.tn[s];
            || (t.l != 0 && t.l in T.tn && In(T, a, t.l))
            || (t.r != 0 && t.r in T.tn && In(T, a, t.r))
  {
    hide TreeIndex;
    assert ShapeOk(T, s) && ShapeOk(T, a);
    var ea, es := T.tn[a].e, T.tn[s].e;
    if es < ea { Pow2Mono(es, ea); }
    if ea == es { SameLevel(T, a, s, a); }
    var c := Ancestor(T, a, es - 1);
    assert ShapeOk(T, c);
    UpIn(T, c);
    SameLevel(T, T.tn[c].up, s, a);
  }

  // The shape changes made by insertion and removal.

  function LeafNode(T: Trie, s: int, x: int, up: int, right: bool): TNode
    requires up == 0 ==> 0 <= TreeIndex(s) < NTREEBINS
    requires up != 0 ==> up in T.tn && T.tn[up].e >= 1
  {
    if up == 0 then TNode([x], BinLo(TreeIndex(s)), BinExp(TreeIndex(s)), 0, 0, 0)
    else
      var t := T.tn[up];
      TNode([x], if right then t.lo + Pow2(t.e - 1) else t.lo, t.e - 1, up, 0, 0)
  }

  function AddLeaf(T: Trie, s: int, x: int, up: int, right: bool): Trie
    requires up == 0 ==> 0 <= TreeIndex(s) < NTREEBINS
    requires up != 0 ==> up in T.tn && T.tn[up].e >= 1
  {
    var n := LeafNode(T, s, x, up, right);
    var T1 := if up == 0 then T.(rt := T.rt[TreeIndex(s) := s])
              else if right then T.(tn := T.tn[up := T.tn[up].(r := s)])
              else T.(tn := T.tn[up := T.tn[up].(l := s)]);
    T1.(tn := T1.tn[s := n])
  }

  /** The free slot under `up` on the given side is where s belongs. */
  ghost predicate Slot(T: Trie, s: int, up: int, right: bool) {
    && s !in T.tn && MIN_LARGE_SIZE <= s < SIZE_LIMIT && 0 <= TreeIndex(s) < NTREEBINS
    && if up == 0 then TreeIndex(s) in T.rt && T.rt[TreeIndex(s)] == 0
       else
         && up in T.tn && TreeIndex(up) == TreeIndex(s) && T.tn[up].e >= 1
         && (if right then T.tn[up].r == 0 else T.tn[up].l == 0)
         && var lo := if right then T.tn[up].lo + Pow2(T.tn[up].e - 1) else T.tn[up].lo;
            lo <= s < lo + Pow2(T.tn[up].e - 1)
  }

  /** A bin with a node has a root. */
  lemma RootExists(T: Trie, a: int)
    requires Shape(T) && a in T.tn
    ensures TreeIndex(a) in T.rt && T.rt[TreeIndex(a)] != 0
  {
    hide TreeIndex;
    assert ShapeOk(T, a);
    var c := Ancestor(T, a, BinExp(TreeIndex(a)));
    assert ShapeOk(T, c);
    if T.tn[c].up != 0 { UpIn(T, c); }
  }

  /** T' has the nodes of T, with the same parents and ranges. */
  ghost predicate Extends(T: Trie, T': Trie) {
    && (forall i {:trigger i in T'.rt} :: i in T.rt <==> i in T'.rt)
    && (forall a {:trigger T'.tn[a]} :: a in T.tn ==>
          a in T'.tn && T'.tn[a].lo == T.tn[a].lo && T'.tn[a].e == T.tn[a].e && T'.tn[a].up == T.tn[a].up)
  }

  lemma AddLeafExtends(T: Trie, s: int, x: int, up: int, right: bool)
    requires Slot(T, s, up, right)
    ensures var T' := AddLeaf(T, s, x, up, right);
            && Extends(T, T') && T'.tn[s] == LeafNode(T, s, x, up, right)
            && (forall a {:trigger a in T'.tn} :: a in T'.tn <==> a in T.tn || a == s)
  {
    hide TreeIndex;
  }

  lemma AddLeafNode(T: Trie, s: int, x: int, up: int, right: bool, a: int)
    requires Shape(T) && Slot(T, s, up, right) && a in T.tn
    ensures ShapeOk(AddLeaf(T, s, x, up, right), a)
  {
    hide TreeIndex;
    var T' := AddLeaf(T, s, x, up, right);
    assert ShapeOk(T, a);
    if up != 0 { assert ShapeOk(T, up); }
    if up == 0 { RootExists(T, a); }
    hide Shape;
    if a == up { AddLeafParent(T, s, x, up, right); } else { AddLeafOther(T, s, x, up, right, a); }
  }

  /** The parent of a new leaf gets a child. */
  lemma AddLeafParent(T: Trie, s: int, x: int, up: int, right: bool)
    requires Slot(T, s, up, right) && up in T.tn && ShapeOk(T, up) && up != 0
    ensures ShapeOk(AddLeaf(T, s, x, up, right), up)
  {
    hide TreeIndex;
    var T' := AddLeaf(T, s, x, up, right);
    assert KidOk(T', up, T'.tn[up].l, false) && KidOk(T', up, T'.tn[up].r, true);
  }

  lemma AddLeafOther(T: Trie, s: int, x: int, up: int, right: bool, a: int)
    requires Slot(T, s, up, right) && a in T.tn && ShapeOk(T, a) && a != up && (up == 0 ==> TreeIndex(a) in T.rt)
    requires up != 0 ==> up in T.tn && ShapeOk(T, up)
    ensures ShapeOk(AddLeaf(T, s, x, up, right), a)
  {
    hide TreeIndex;
    var T' := AddLeaf(T, s, x, up, right);
    assert T'.tn[a] == T.tn[a];
    assert KidOk(T', a, T.tn[a].l, false) && KidOk(T', a, T.tn[a].r, true);
  }

  lemma AddLeafNew(T: Trie, s: int, x: int, up: int, right: bool)
    requires Shape(T) && Slot(T, s, up, right)
    ensures ShapeOk(AddLeaf(T, s, x, up, right), s)
  {
    hide TreeIndex;
    if up == 0 { IndexRange(s); } else { assert ShapeOk(T, up); }
  }

  lemma AddLeafShape(T: Trie, s: int, x: int, up: int, right: bool)
    requires Shape(T) && Slot(T, s, up, right)
    ensures Shape(AddLeaf(T, s, x, up, right))
  {
    hide TreeIndex;
    var T' := AddLeaf(T, s, x, up, right);
    AddLeafExtends(T, s, x, up, right);
    forall a | a in T'.tn ensures ShapeOk(T', a) {
      if a == s { AddLeafNew(T, s, x, up, right); } else { AddLeafNode(T, s, x, up, right, a); }
    }
    forall i | i in T'.rt ensures RootOk(T', i) { AddLeafRoot(T, s, x, up, right, i); }
    forall a, b | a in T'.tn && b in T'.tn ensures LevelApart(T', a, b) {
      AddLeafLevels(T, s, x, up, right, a, b);
    }
    assert HasRoots(T');
  }

  lemma AddLeafRoot(T: Trie, s: int, x: int, up: int, right: bool, i: int)
    requires Shape(T) && Slot(T, s, up, right) && i in T.rt
    ensures i in AddLeaf(T, s, x, up, right).rt && RootOk(AddLeaf(T, s, x, up, right), i)
  {
    hide TreeIndex;
    assert RootOk(T, i);
  }

  lemma AddLeafLevels(T: Trie, s: int, x: int, up: int, right: bool, a: int, b: int)
    requires Shape(T) && Slot(T, s, up, right)
    requires a in AddLeaf(T, s, x, up, right).tn && b in AddLeaf(T, s, x, up, right).tn
    ensures LevelApart(AddLeaf(T, s, x, up, right), a, b)
  {
    hide TreeIndex;
    AddLeafExtends(T, s, x, up, right);
    hide AddLeaf;
    if a != s && b != s {
      assert LevelApart(T, a, b);
    } else if a != b {
      var c := if a == s then b else a;
      if TreeIndex(c) == TreeIndex(s) && T.tn[c].e == LeafNode(T, s, x, up, right).e {
        LeafApart(T, s, x, up, right, c);
      }
    }
  }

  /** A new leaf does not overlap any node of its level. */
  lemma LeafApart(T: Trie, s: int, x: int, up: int, right: bool, b: int)
    requires Shape(T) && Slot(T, s, up, right) && b in T.tn
    requires TreeIndex(b) == TreeIndex(s) && T.tn[b].e == LeafNode(T, s, x, up, right).e
    ensures var n := LeafNode(T, s, x, up, right); Hi(n) <= T.tn[b].lo || Hi(T.tn[b]) <= n.lo
  {
    hide TreeIndex;
    assert ShapeOk(T, b);
    if up == 0 {
      RootExists(T, b);
    } else {
      assert ShapeOk(T, up);
      if T.tn[b].up != 0 {
        var u := T.tn[b].up;
        UpIn(T, b);
        assert LevelApart(T, u, up) && ShapeOk(T, u);
      }
    }
  }

  ghost predicate IsLeaf(T: Trie, s: int) {
    s in T.tn && T.tn[s].l == 0 && T.tn[s].r == 0
  }

  function Renamed(x: int, s: int, b: int): int {
    if x == s then b else x
  }

  function RenamedNode(t: TNode, s: int, b: int): TNode {
    t.(up := Renamed(t.up, s, b), l := Renamed(t.l, s, b), r := Renamed(t.r, s, b))
  }

  /** The node of size s is gone; links to it are empty. */
  function DropLeaf(T: Trie, s: int): Trie {
    Trie(map a | a in T.tn && a != s :: RenamedNode(T.tn[a], s, 0), map i | i in T.rt :: Renamed(T.rt[i], s, 0))
  }

  lemma DropLeafNode(T: Trie, s: int, a: int)
    requires Shape(T) && IsLeaf(T, s) && a in T.tn && a != s
    ensures ShapeOk(DropLeaf(T, s), a)
  {
    hide TreeIndex;
    assert ShapeOk(T, s) && ShapeOk(T, a);
    if T.tn[a].up != 0 { assert ShapeOk(T, T.tn[a].up); }
  }

  /** Dropping a leaf keeps the trie order. */
  lemma DropLeafShape(T: Trie, s: int)
    requires Shape(T) && IsLeaf(T, s)
    ensures Shape(DropLeaf(T, s))
  {
    hide TreeIndex;
    var T' := DropLeaf(T, s);
    forall a | a in T'.tn ensures ShapeOk(T', a) { DropLeafNode(T, s, a); }
    forall i | i in T'.rt
      ensures RootOk(T', i)
    {
      assert RootOk(T, i);
      if i in T.rt && T.rt[i] != 0 { assert ShapeOk(T, T.rt[i]); }
    }
    forall a, b | a in T'.tn && b in T'.tn ensures LevelApart(T', a, b) { assert LevelApart(T, a, b); }
    assert HasRoots(T');
  }

  /** The node of size b, whose ring is `ring`, takes the place of the node of size s. */
  function Replace(T: Trie, s: int, b: int, ring: seq<int>): Trie
    requires s in T.tn
  {
    Trie(map a | a in T.tn.Keys + {b} && (a != s || b == s) ::
           if a == b then T.tn[s].(ring := ring) else RenamedNode(T.tn[a], s, b),
         map i | i in T.rt :: Renamed(T.rt[i], s, b))
  }

  ghost predicate CanReplace(T: Trie, s: int, b: int, ring: seq<int>) {
    && s in T.tn && (b == s || b !in T.tn) && |ring| > 0
    && MIN_LARGE_SIZE <= b < SIZE_LIMIT && TreeIndex(b) == TreeIndex(s)
    && T.tn[s].lo <= b < Hi(T.tn[s])
  }

  lemma ReplaceKid(T: Trie, s: int, b: int, ring: seq<int>, a: int, c: int, right: bool)
    requires CanReplace(T, s, b, ring) && a in T.tn && a != s && KidOk(T, a, c, right) && s != 0
    ensures KidOk(Replace(T, s, b, ring), a, Renamed(c, s, b), right)
  {
    hide TreeIndex;
  }

  lemma ReplaceNode(T: Trie, s: int, b: int, ring: seq<int>, a: int)
    requires Shape(T) && CanReplace(T, s, b, ring) && a in T.tn && a != s
    ensures ShapeOk(Replace(T, s, b, ring), a)
  {
    hide TreeIndex;
    assert ShapeOk(T, s) && ShapeOk(T, a);
    ReplaceKid(T, s, b, ring, a, T.tn[a].l, false);
    ReplaceKid(T, s, b, ring, a, T.tn[a].r, true);
    hide KidOk;
    if T.tn[a].up != 0 { assert ShapeOk(T, T.tn[a].up); }
  }

  lemma ReplaceNew(T: Trie, s: int, b: int, ring: seq<int>)
    requires Shape(T) && CanReplace(T, s, b, ring)
    ensures ShapeOk(Replace(T, s, b, ring), b)
  {
    hide TreeIndex;
    assert ShapeOk(T, s);
    if T.tn[s].up != 0 { assert ShapeOk(T, T.tn[s].up); }
  }

  lemma ReplaceRoot(T: Trie, s: int, b: int, ring: seq<int>, i: int)
    requires Shape(T) && CanReplace(T, s, b, ring) && i in T.rt
    ensures RootOk(Replace(T, s, b, ring), i)
  {
    hide TreeIndex;
    assert RootOk(T, i) && ShapeOk(T, s);
  }

  lemma ReplaceLevels(T: Trie, s: int, b: int, ring: seq<int>, a: int, c: int)
    requires Shape(T) && CanReplace(T, s, b, ring)
    requires a in Replace(T, s, b, ring).tn && c in Replace(T, s, b, ring).tn
    ensures LevelApart(Replace(T, s, b, ring), a, c)
  {
    hide TreeIndex;
    assert LevelApart(T, if a == b then s else a, if c == b then s else c);
  }

  lemma ReplaceShape(T: Trie, s: int, b: int, ring: seq<int>)
    requires Shape(T) && CanReplace(T, s, b, ring)
    ensures Shape(Replace(T, s, b, ring))
  {
    hide TreeIndex;
    var T' := Replace(T, s, b, ring);
    forall a | a in T'.tn ensures ShapeOk(T', a) {
      if a == b { ReplaceNew(T, s, b, ring); } else { ReplaceNode(T, s, b, ring, a); }
    }
    forall i | i in T'.rt ensures RootOk(T', i) { ReplaceRoot(T, s, b, ring, i); }
    forall a, c | a in T'.tn && c in T'.tn ensures LevelApart(T', a, c) {
      ReplaceLevels(T, s, b, ring, a, c);
    }
    hide RootOk, ShapeOk, LevelApart;
    assert HasRoots(T');
  }

  function SetRing(T: Trie, s: int, ring: seq<int>): Trie
    requires s in T.tn
  {
    T.(tn := T.tn[s := T.tn[s].(ring := ring)])
  }

  lemma SetRingNode(T: Trie, s: int, ring: seq<int>, a: int)
    requires Shape(T) && s in T.tn && |ring| > 0 && a in T.tn
    ensures ShapeOk(SetRing(T, s, ring), a)
  {
    hide TreeIndex;
    assert ShapeOk(T, a);
    hide Shape;
  }

  lemma SetRingShape(T: Trie, s: int, ring: seq<int>)
    requires Shape(T) && s in T.tn && |ring| > 0
    ensures Shape(SetRing(T, s, ring))
  {
    hide TreeIndex;
    var T' := SetRing(T, s, ring);
    forall a | a in T'.tn ensures ShapeOk(T', a) { SetRingNode(T, s, ring, a); }
    forall i | i in T'.rt ensures RootOk(T', i) { assert RootOk(T, i); }
    hide ShapeOk, RootOk;
    forall a, b | a in T'.tn && b in T'.tn ensures LevelApart(T', a, b) { assert LevelApart(T, a, b); }
  }
}
