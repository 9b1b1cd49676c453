/** Walking the tries: where a size belongs, and which chunk fits best. */
module AllocSearch {
  import opened AllocIndex
  import opened AllocTrie

  /** The walk for size s has reached `node`, and K holds the size bits not yet used, left-aligned. */
  ghost predicate OnPath(T: Trie, s: int, node: int, K: int) {
    && node in T.tn && TreeIndex(node) == TreeIndex(s)
    && 0 <= T.tn[node].e <= 64 && T.tn[node].lo <= s < Hi(T.tn[node])
    && K == (s - T.tn[node].lo) * Pow2(64 - T.tn[node].e)
    && (s in T.tn ==> In(T, s, node))
  }

  lemma PathStart(T: Trie, s: int)
    requires Shape(T) && MIN_LARGE_SIZE <= s < SIZE_LIMIT
    ensures 0 <= TreeIndex(s) < NTREEBINS && TreeIndex(s) in T.rt
    ensures var i := TreeIndex(s); T.rt[i] != 0 ==> OnPath(T, s, T.rt[i], SizeBits(s, i))
  {
    hide TreeIndex;
    IndexRange(s);
    SizeBitsStart(s);
    var i := TreeIndex(s);
    assert i in T.rt;
    if T.rt[i] != 0 {
      assert RootOk(T, i) && ShapeOk(T, T.rt[i]);
      if s in T.tn { UnderRoot(T, s); }
      hide Shape, Shr, MinSize;
    }
  }

  lemma UnderRoot(T: Trie, s: int)
    requires Shape(T) && s in T.tn
    ensures TreeIndex(s) in T.rt && T.rt[TreeIndex(s)] in T.tn && In(T, s, T.rt[TreeIndex(s)])
  {
    hide TreeIndex;
    assert ShapeOk(T, s);
    var c := Ancestor(T, s, BinExp(TreeIndex(s)));
    assert ShapeOk(T, c);
    if T.tn[c].up != 0 { UpIn(T, c); }
  }

  /** The side of `node` that s belongs to. */
  function Side(K: int): bool {
    K / TWO63 % 2 == 1
  }

  function Kid(T: Trie, node: int, right: bool): int
    requires node in T.tn
  {
    if right then T.tn[node].r else T.tn[node].l
  }

  /** If s is present below node, it is below the child on its side. */
  lemma PathPresent(T: Trie, s: int, node: int, right: bool)
    requires Shape(T) && node in T.tn && s in T.tn && In(T, s, node) && s != node && T.tn[node].e >= 1
    requires right <==> T.tn[node].lo + Pow2(T.tn[node].e - 1) <= s
    ensures var c := Kid(T, node, right); c != 0 && c in T.tn && In(T, s, c)
  {
    hide TreeIndex;
    assert ShapeOk(T, node) && ShapeOk(T, s);
    Below(T, node, s);
    var t := T.tn[node];
    if t.l != 0 { assert ShapeOk(T, t.l); }
    if t.r != 0 { assert ShapeOk(T, t.r); }
    hide Shape;
  }

  lemma Pow2Zero(e: nat)
    ensures e == 0 ==> Pow2(e) == 1
  {
  }

  lemma RangeNonempty(T: Trie, s: int, node: int)
    requires Shape(T) && node in T.tn && T.tn[node].lo <= s < Hi(T.tn[node]) && s != node
    ensures 1 <= T.tn[node].e <= 64
  {
    hide TreeIndex;
    assert ShapeOk(T, node);
    Pow2Zero(T.tn[node].e);
  }

  lemma PathStep(T: Trie, s: int, node: int, K: int)
    requires Shape(T) && OnPath(T, s, node, K) && s != node && node != 0 && MIN_LARGE_SIZE <= s < SIZE_LIMIT
    ensures T.tn[node].e >= 1
    ensures Side(K) <==> T.tn[node].lo + Pow2(T.tn[node].e - 1) <= s
    ensures var c := Kid(T, node, Side(K));
            && (c != 0 ==> OnPath(T, s, c, 2 * K % TWO64) && T.tn[c].e < T.tn[node].e)
            && (c == 0 ==> Slot(T, s, node, Side(K)))
  {
    hide TreeIndex, Side;
    var right := Side(K);
    PathSide(T, s, node, K);
    if s in T.tn { PathPresent(T, s, node, right); }
    PathShape(T, s, node, K, right);
    IndexRange(s);
    hide Shape, SizeBits, InBin, ShapeOk, OnPath, Slot, KidOk;
    PathKid(T, s, node, right, 2 * K % TWO64);
  }

  /** The next size bit tells which half s lies in. */
  lemma PathSide(T: Trie, s: int, node: int, K: int)
    requires Shape(T) && OnPath(T, s, node, K) && s != node && node != 0 && MIN_LARGE_SIZE <= s < SIZE_LIMIT
    ensures node in T.tn && 1 <= T.tn[node].e <= 64 && (Side(K) <==> T.tn[node].lo + Pow2(T.tn[node].e - 1) <= s)
    ensures 2 * K % TWO64 == (s - if Side(K) then T.tn[node].lo + Pow2(T.tn[node].e - 1)
                              else T.tn[node].lo) * Pow2(64 - (T.tn[node].e - 1))
  {
    hide TreeIndex;
    RangeNonempty(T, s, node);
    assert ShapeOk(T, node);
    hide Shape, InBin, ShapeOk;
    SizeBitStep(s, T.tn[node].lo, T.tn[node].e, K);
  }

  lemma PathShape(T: Trie, s: int, node: int, K: int, right: bool)
    requires Shape(T) && OnPath(T, s, node, K) && node != 0
    ensures node in T.tn && KidOk(T, node, Kid(T, node, right), right)
    ensures TreeIndex(node) == TreeIndex(s) && T.tn[node].lo <= s < Hi(T.tn[node])
    ensures s in T.tn ==> In(T, s, node)
  {
    hide TreeIndex;
    assert ShapeOk(T, node);
    assert KidOk(T, node, Kid(T, node, right), right);
  }

  lemma PathKid(T: Trie, s: int, node: int, right: bool, K: int)
    requires node in T.tn && 1 <= T.tn[node].e <= 64 && KidOk(T, node, Kid(T, node, right), right)
    requires TreeIndex(node) == TreeIndex(s) && T.tn[node].lo <= s < Hi(T.tn[node])
    requires right <==> T.tn[node].lo + Pow2(T.tn[node].e - 1) <= s
    requires K == (s - if right then T.tn[node].lo + Pow2(T.tn[node].e - 1)
                   else T.tn[node].lo) * Pow2(64 - (T.tn[node].e - 1))
    requires s in T.tn ==> Kid(T, node, right) in T.tn && In(T, s, Kid(T, node, right))
    requires Kid(T, node, right) == 0 ==> s !in T.tn
    requires MIN_LARGE_SIZE <= s < SIZE_LIMIT && 0 <= TreeIndex(s) < NTREEBINS
    ensures var c := Kid(T, node, right);
            && (c != 0 ==> OnPath(T, s, c, K) && T.tn[c].e < T.tn[node].e)
            && (c == 0 && node != 0 ==> Slot(T, s, node, right))
  {
    hide TreeIndex;
    var c := Kid(T, node, right);
    if c != 0 {
      assert T.tn[c].e == T.tn[node].e - 1;
      hide Slot;
    } else {
      hide OnPath;
    }
  }

  // Best fit. vs is the size of the best chunk seen so far, 0 when there is none.

  /** v is the smallest chunk size in the tries that fits nb. */
  ghost predicate Best(T: Trie, nb: int, v: int) {
    v in T.tn && v >= nb && forall a {:trigger a in T.tn} :: a in T.tn && a >= nb ==> v <= a
  }

  ghost predicate NoFit(T: Trie, nb: int) {
    forall a {:trigger a in T.tn} :: a in T.tn ==> a < nb
  }

  ghost predicate SeenOk(T: Trie, nb: int, vs: int) {
    vs != 0 ==> vs in T.tn && vs >= nb
  }

  /** The better of the best seen so far and `node`. */
  function Better(nb: int, vs: int, node: int): int {
    if node >= nb && (vs == 0 || node < vs) then node else vs
  }

  /** A fitting size a of nb's bin lies below node, below or beyond rst, or is no better than vs. */
  ghost predicate Covered(T: Trie, node: int, rst: int, vs: int, a: int)
    requires a in T.tn
  {
    || (node in T.tn && In(T, a, node))
    || (rst in T.tn && (In(T, a, rst) || T.tn[a].lo >= Hi(T.tn[rst])))
    || (vs != 0 && vs <= a)
  }

  ghost predicate AllCovered(T: Trie, nb: int, node: int, rst: int, vs: int) {
    forall a {:trigger Covered(T, node, rst, vs, a)} ::
      a in T.tn && TreeIndex(a) == TreeIndex(nb) && a >= nb ==> Covered(T, node, rst, vs, a)
  }

  /** rst is the deepest right subtree not taken: its sizes exceed nb and those below node. */
  ghost predicate RestOk(T: Trie, nb: int, rst: int, hi: int) {
    rst != 0 ==> rst in T.tn && TreeIndex(rst) == TreeIndex(nb) && hi <= T.tn[rst].lo && nb < T.tn[rst].lo
  }

  ghost predicate Descent(T: Trie, nb: int, node: int, K: int, rst: int, vs: int) {
    && OnPath(T, nb, node, K) && RestOk(T, nb, rst, Hi(T.tn[node])) && SeenOk(T, nb, vs)
    && AllCovered(T, nb, node, rst, vs)
  }

  function NextRest(T: Trie, node: int, K: int, rst: int): int
    requires node in T.tn
  {
    var rt := T.tn[node].r;
    if rt != 0 && rt != Kid(T, node, Side(K)) then rt else rst
  }

  lemma DescentStart(T: Trie, nb: int)
    requires Shape(T) && MIN_LARGE_SIZE <= nb < SIZE_LIMIT
    ensures TreeIndex(nb) in T.rt
    ensures var root := T.rt[TreeIndex(nb)];
            if root != 0 then Descent(T, nb, root, SizeBits(nb, TreeIndex(nb)), 0, 0) else AllCovered(T, nb, 0, 0, 0)
  {
    hide TreeIndex;
    PathStart(T, nb);
    NoZero(T);
    var root := T.rt[TreeIndex(nb)];
    forall a | a in T.tn && TreeIndex(a) == TreeIndex(nb) && a >= nb
      ensures Covered(T, root, 0, 0, a)
    {
      UnderRoot(T, a);
    }
  }

  lemma DescentStep(T: Trie, nb: int, node: int, K: int, rst: int, vs: int)
    requires Shape(T) && Descent(T, nb, node, K, rst, vs) && node != nb && MIN_LARGE_SIZE <= nb < SIZE_LIMIT
    ensures var c, rst', vs' := Kid(T, node, Side(K)), NextRest(T, node, K, rst), Better(nb, vs, node);
            && (c != 0 ==> Descent(T, nb, c, 2 * K % TWO64, rst', vs') && T.tn[c].e < T.tn[node].e)
            && (c == 0 ==> AllCovered(T, nb, 0, rst', vs') && RestOk(T, nb, rst', 0) && SeenOk(T, nb, vs'))
  {
    hide TreeIndex;
    NoZero(T);
    PathStep(T, nb, node, K);
    var c, rst', vs' := Kid(T, node, Side(K)), NextRest(T, node, K, rst), Better(nb, vs, node);
    DescentRest(T, nb, node, K, rst, vs);
    forall a | a in T.tn && TreeIndex(a) == TreeIndex(nb) && a >= nb ensures Covered(T, c, rst', vs', a) {
      DescentCovered(T, nb, node, K, rst, vs, a);
    }
  }

  lemma DescentRest(T: Trie, nb: int, node: int, K: int, rst: int, vs: int)
    requires Shape(T) && Descent(T, nb, node, K, rst, vs) && node != nb && MIN_LARGE_SIZE <= nb < SIZE_LIMIT
    ensures var c, rst' := Kid(T, node, Side(K)), NextRest(T, node, K, rst);
            RestOk(T, nb, rst', if c != 0 && c in T.tn then Hi(T.tn[c]) else 0)
  {
    hide TreeIndex;
    NoZero(T);
    PathStep(T, nb, node, K);
    assert ShapeOk(T, node);
    assert T.tn[node].lo >= 0 by { LoNonNegative(T, node); }
    hide Side, Shape;
  }

  lemma LoNonNegative(T: Trie, a: int)
    requires Shape(T) && a in T.tn
    ensures T.tn[a].lo >= 0 && Hi(T.tn[a]) > T.tn[a].lo
    decreases BinExp(TreeIndex(a)) - T.tn[a].e
  {
    hide TreeIndex;
    assert ShapeOk(T, a);
    if T.tn[a].up != 0 {
      UpIn(T, a);
      LoNonNegative(T, T.tn[a].up);
    }
  }

  /** What the walk leaves behind at node is no better than what it keeps. */
  lemma BelowCovered(T: Trie, nb: int, node: int, K: int, rst: int, vs: int, a: int)
    requires Shape(T) && node in T.tn && node != 0 && a in T.tn && a >= nb && In(T, a, node)
    requires T.tn[node].e >= 1 && (Side(K) <==> T.tn[node].lo + Pow2(T.tn[node].e - 1) <= nb)
    ensures Covered(T, Kid(T, node, Side(K)), NextRest(T, node, K, rst), Better(nb, vs, node), a)
  {
    hide TreeIndex, Side;
    NoZero(T);
    assert ShapeOk(T, node) && ShapeOk(T, a);
    if a != node { Below(T, node, a); }
    var t := T.tn[node];
    if t.l != 0 { assert ShapeOk(T, t.l); }
    if t.r != 0 { assert ShapeOk(T, t.r); }
    hide Shape;
  }

  lemma DescentCovered(T: Trie, nb: int, node: int, K: int, rst: int, vs: int, a: int)
    requires Shape(T) && Descent(T, nb, node, K, rst, vs) && node != nb && MIN_LARGE_SIZE <= nb < SIZE_LIMIT
    requires a in T.tn && TreeIndex(a) == TreeIndex(nb) && a >= nb
    ensures Covered(T, Kid(T, node, Side(K)), NextRest(T, node, K, rst), Better(nb, vs, node), a)
  {
    hide TreeIndex, Side;
    assert Covered(T, node, rst, vs, a);
    NoZero(T);
    PathStep(T, nb, node, K);
    if In(T, a, node) {
      BelowCovered(T, nb, node, K, rst, vs, a);
    } else {
      assert ShapeOk(T, node);
      hide Shape, OnPath;
    }
  }

  /** The leftmost child, or the right one when there is no left one. */
  function Leftmost(T: Trie, node: int): int
    requires node in T.tn
  {
    if T.tn[node].l != 0 then T.tn[node].l else T.tn[node].r
  }

  /** A fitting size lies below t, beyond it, in a later bin, or is no better than vs. */
  ghost predicate After(T: Trie, t: int, vs: int, a: int)
    requires a in T.tn
  {
    || (t in T.tn && (In(T, a, t) || (TreeIndex(a) == TreeIndex(t) && Hi(T.tn[t]) <= T.tn[a].lo)
                      || TreeIndex(t) < TreeIndex(a)))
    || (vs != 0 && vs <= a)
  }

  ghost predicate Sweep(T: Trie, nb: int, t: int, vs: int) {
    && SeenOk(T, nb, vs) && (t != 0 ==> t in T.tn)
    && (forall a {:trigger After(T, t, vs, a)} :: a in T.tn && a >= nb ==> After(T, t, vs, a))
    && (t != 0 && vs != nb ==> nb <= T.tn[t].lo || TreeIndex(nb) < TreeIndex(t) || nb < MIN_LARGE_SIZE)
  }

  lemma SweepStep(T: Trie, nb: int, t: int, vs: int)
    requires Shape(T) && Sweep(T, nb, t, vs) && t != 0 && 0 < nb < SIZE_LIMIT
    ensures Sweep(T, nb, Leftmost(T, t), Better(nb, vs, t))
    ensures Leftmost(T, t) != 0 ==> T.tn[Leftmost(T, t)].e < T.tn[t].e
    ensures vs == nb || nb <= t
  {
    hide TreeIndex;
    NoZero(T);
    var t', vs' := Leftmost(T, t), Better(nb, vs, t);
    assert ShapeOk(T, t);
    SweepFits(T, nb, t, vs);
    if t' != 0 { assert ShapeOk(T, t'); assert T.tn[t].lo <= T.tn[t'].lo; }
    forall a | a in T.tn && a >= nb ensures After(T, t', vs', a) { SweepAfter(T, nb, t, vs, a); }
  }

  lemma SweepFits(T: Trie, nb: int, t: int, vs: int)
    requires Shape(T) && Sweep(T, nb, t, vs) && t != 0 && 0 < nb < SIZE_LIMIT
    ensures vs == nb || nb <= t
  {
    hide TreeIndex;
    assert ShapeOk(T, t);
    if nb >= MIN_LARGE_SIZE && TreeIndex(nb) < TreeIndex(t) { IndexOrder(nb, t); }
  }

  lemma SweepAfter(T: Trie, nb: int, t: int, vs: int, a: int)
    requires Shape(T) && Sweep(T, nb, t, vs) && t != 0 && 0 < nb < SIZE_LIMIT && a in T.tn && a >= nb
    ensures After(T, Leftmost(T, t), Better(nb, vs, t), a)
  {
    hide TreeIndex;
    NoZero(T);
    assert After(T, t, vs, a);
    SweepFits(T, nb, t, vs);
    assert ShapeOk(T, t) && ShapeOk(T, a);
    if In(T, a, t) && a != t { Below(T, t, a); }
    if TreeIndex(t) < TreeIndex(a) { IndexOrder(t, a); }
    var n := T.tn[t];
    if n.l != 0 { assert ShapeOk(T, n.l); }
    if n.r != 0 { assert ShapeOk(T, n.r); }
    hide Shape, Sweep;
  }

  lemma SweepEnd(T: Trie, nb: int, vs: int)
    requires Shape(T) && Sweep(T, nb, 0, vs)
    ensures if vs == 0 then NoFit(T, nb) else Best(T, nb, vs)
  {
    hide TreeIndex;
    NoZero(T);
    forall a | a in T.tn && a >= nb ensures vs != 0 && vs <= a { assert After(T, 0, vs, a); }
  }

  /** After the walk in nb's bin: sweep the rest, if any. */
  lemma SweepRest(T: Trie, nb: int, rst: int, vs: int)
    requires Shape(T) && AllCovered(T, nb, 0, rst, vs) && RestOk(T, nb, rst, 0) && SeenOk(T, nb, vs)
    requires MIN_LARGE_SIZE <= nb < SIZE_LIMIT && (rst != 0 || vs != 0)
    requires vs != 0 ==> TreeIndex(vs) == TreeIndex(nb)
    ensures Sweep(T, nb, rst, vs)
  {
    hide TreeIndex;
    NoZero(T);
    forall a | a in T.tn && a >= nb ensures After(T, rst, vs, a) {
      assert ShapeOk(T, a);
      if TreeIndex(a) < TreeIndex(nb) { IndexOrder(a, nb); }
      if TreeIndex(a) == TreeIndex(nb) { assert Covered(T, 0, rst, vs, a); }
      else if vs != 0 && TreeIndex(nb) < TreeIndex(a) { assert ShapeOk(T, vs); IndexOrder(vs, a); }
    }
  }

  lemma NotCovered(T: Trie, a: int)
    requires a in T.tn && 0 !in T.tn
    ensures !Covered(T, 0, 0, 0, a)
  {
  }

  /** After an empty walk in nb's bin: sweep the next bin in use. */
  lemma SweepNext(T: Trie, nb: int, tm: set<int>, j: int)
    requires Shape(T) && AllCovered(T, nb, 0, 0, 0) && MIN_LARGE_SIZE <= nb < SIZE_LIMIT
    requires forall i {:trigger i in tm} :: i in tm <==> i in T.rt && T.rt[i] != 0
    requires if j == 0 then forall i {:trigger i in tm} :: i in tm ==> i <= TreeIndex(nb)
             else j in tm && TreeIndex(nb) < j && forall i {:trigger i in tm} :: i in tm && TreeIndex(nb) < i ==> j <= i
    ensures Sweep(T, nb, if j == 0 then 0 else T.rt[j], 0)
  {
    hide TreeIndex;
    NoZero(T);
    var t := if j == 0 then 0 else T.rt[j];
    if j != 0 { assert RootOk(T, j); }
    forall a | a in T.tn && a >= nb ensures After(T, t, 0, a) {
      assert ShapeOk(T, a);
      UnderRoot(T, a);
      RootExists(T, a);
      assert TreeIndex(a) in tm;
      if TreeIndex(a) < TreeIndex(nb) { IndexOrder(a, nb); }
      NotCovered(T, a);
    }
  }

  /** A sweep from the first bin in use covers all tries. */
  lemma SweepAll(T: Trie, nb: int, tm: set<int>, i: int)
    requires Shape(T) && 0 < nb < MIN_LARGE_SIZE
    requires forall k {:trigger k in tm} :: k in tm <==> k in T.rt && T.rt[k] != 0
    requires i in tm && forall k {:trigger k in tm} :: k in tm ==> i <= k
    ensures i in T.rt && Sweep(T, nb, T.rt[i], 0)
  {
    hide TreeIndex;
    assert RootOk(T, i);
    forall a | a in T.tn && a >= nb ensures After(T, T.rt[i], 0, a) {
      assert ShapeOk(T, a);
      UnderRoot(T, a);
      RootExists(T, a);
      assert TreeIndex(a) in tm;
    }
  }
}
