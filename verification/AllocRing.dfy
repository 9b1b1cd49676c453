/** Circular doubly linked lists of chunks (the fd/bk words), as used by small bins and by equal-size tree chunks. */
module AllocRing {
  import opened AllocHeap

  const FD := 16
  const BK := 24

  function Next(k: int, n: int): int {
    if k + 1 == n then 0 else k + 1
  }

  function Prev(k: int, n: int): int {
    if k == 0 then n - 1 else k - 1
  }

  /** fd of r[k] is the element after it, whose bk is r[k]. */
  ghost predicate Step(m: Mem, r: seq<int>, k: int)
    requires 0 <= k < |r|
  {
    R(m, r[k] + FD) == r[Next(k, |r|)] && R(m, r[Next(k, |r|)] + BK) == r[k]
  }

  /** Following fd from r[0] visits r in order and returns to r[0]; bk goes the other way. */
  ghost predicate Ring(m: Mem, r: seq<int>) {
    && |r| > 0 && Spaced(r)
    && forall k {:trigger Step(m, r, k)} :: 0 <= k < |r| ==> Step(m, r, k)
  }

  /** No two link pairs of the ring share a word; in particular no element occurs twice. */
  ghost predicate Spaced(r: seq<int>) {
    forall j, k {:trigger SpacedAt(r, j, k)} :: 0 <= j < |r| && 0 <= k < |r| && j != k ==> SpacedAt(r, j, k)
  }

  ghost predicate SpacedAt(r: seq<int>, j: int, k: int)
    requires 0 <= j < |r| && 0 <= k < |r|
  {
    r[j] + 16 <= r[k] || r[k] + 16 <= r[j]
  }

  function RingInsertMem(m: Mem, b: int, p: int): Mem {
    var f := R(m, b + FD);
    m[b + FD := p][f + BK := p][p + FD := f][p + BK := b]
  }

  function RingRemoveMem(m: Mem, p: int): Mem {
    var f, b := R(m, p + FD), R(m, p + BK);
    m[f + BK := b][b + FD := f]
  }

  ghost function Inserted(r: seq<int>, p: int): seq<int>
    requires |r| > 0
  {
    [r[0], p] + r[1..]
  }

  ghost function Removed(r: seq<int>, k: int): seq<int>
    requires 0 <= k < |r|
  {
    r[..k] + r[k + 1..]
  }

  lemma RingNeighbours(m: Mem, r: seq<int>, k: int)
    requires Ring(m, r) && 0 <= k < |r|
    ensures R(m, r[k] + FD) == r[Next(k, |r|)]
    ensures R(m, r[k] + BK) == r[Prev(k, |r|)]
  {
    assert Step(m, r, k) && Step(m, r, Prev(k, |r|));
  }

  lemma RingInsert(m: Mem, r: seq<int>, p: int)
    requires Ring(m, r) && Spaced(Inserted(r, p))
    ensures Ring(RingInsertMem(m, r[0], p), Inserted(r, p))
  {
    var m', r' := RingInsertMem(m, r[0], p), Inserted(r, p);
    forall k | 0 <= k < |r'| ensures Step(m', r', k) { RingInsertStep(m, r, p, k); }
  }

  lemma RingInsertStep(m: Mem, r: seq<int>, p: int, k: int)
    requires Ring(m, r) && Spaced(Inserted(r, p)) && 0 <= k <= |r|
    ensures Step(RingInsertMem(m, r[0], p), Inserted(r, p), k)
  {
    var r' := Inserted(r, p);
    var n := |r'|;
    assert Step(m, r, 0);
    assert SpacedAt(r', 0, 1);
    var s := Next(1, n);
    assert r'[s] == r[Next(0, |r|)];
    if s != 0 { assert SpacedAt(r', 0, s) && SpacedAt(r', 1, s); }
    if k >= 2 {
      var j := Next(k, n);
      assert Step(m, r, k - 1) && r'[k] == r[k - 1] && r'[j] == r[Next(k - 1, |r|)];
      assert SpacedAt(r', 0, k) && SpacedAt(r', 1, k) && SpacedAt(r', 1, j);
      if k > 2 { assert SpacedAt(r', 2, k); }
      assert SpacedAt(r', 2, j);
      if j != 0 { assert SpacedAt(r', 0, j); }
    }
  }

  lemma RingRemove(m: Mem, r: seq<int>, k: int)
    requires Ring(m, r) && 0 < k < |r|
    ensures Ring(RingRemoveMem(m, r[k]), Removed(r, k))
  {
    var m', r' := RingRemoveMem(m, r[k]), Removed(r, k);
    forall i, j | 0 <= i < |r'| && 0 <= j < |r'| && i != j ensures SpacedAt(r', i, j) {
      assert SpacedAt(r, if i < k then i else i + 1, if j < k then j else j + 1);
    }
    forall j | 0 <= j < |r'| ensures Step(m', r', j) { RingRemoveStep(m, r, k, j); }
  }

  lemma RingRemoveStep(m: Mem, r: seq<int>, k: int, j: int)
    requires Ring(m, r) && 0 < k < |r| && 0 <= j < |r| - 1
    ensures Step(RingRemoveMem(m, r[k]), Removed(r, k), j)
  {
    var r' := Removed(r, k);
    RingNeighbours(m, r, k);
    var b, s := k - 1, Next(k, |r|);
    var i := if j < k then j else j + 1;
    var i' := if i == b then s else Next(i, |r|);
    assert r'[j] == r[i] && r'[Next(j, |r'|)] == r[i'];
    if b != s { assert SpacedAt(r, b, s); }
    if i != b {
      assert Step(m, r, i) && SpacedAt(r, i, b) && SpacedAt(r, i', s);
      if i != s { assert SpacedAt(r, i, s); }
      if i' != b { assert SpacedAt(r, i', b); }
    }
  }

  /** The ring with its last element first. */
  ghost function Rotated(r: seq<int>): seq<int>
    requires |r| > 0
  {
    [r[|r| - 1]] + r[..|r| - 1]
  }

  lemma RingRotate(m: Mem, r: seq<int>)
    requires Ring(m, r)
    ensures Ring(m, Rotated(r))
  {
    var r', n := Rotated(r), |r|;
    forall i, j | 0 <= i < n && 0 <= j < n && i != j ensures SpacedAt(r', i, j) {
      assert SpacedAt(r, Prev(i, n), Prev(j, n));
    }
    forall k | 0 <= k < n ensures Step(m, r', k) {
      assert Step(m, r, Prev(k, n)) && r'[k] == r[Prev(k, n)] && r'[Next(k, n)] == r[k];
    }
  }

  lemma RingFrame(m: Mem, m': Mem, r: seq<int>)
    requires Ring(m, r)
    requires forall k {:trigger r[k]} :: 0 <= k < |r| ==>
      R(m', r[k] + FD) == R(m, r[k] + FD) && R(m', r[k] + BK) == R(m, r[k] + BK)
    ensures Ring(m', r)
  {
    forall k | 0 <= k < |r| ensures Step(m', r, k) { assert Step(m, r, k); }
  }
}
