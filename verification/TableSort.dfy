/** table.sort: quicksort in place, with any comparator. */
module TableSort {

  // Orders.

  /** x may stand before y. */
  predicate Le<T>(lt: (T, T) -> bool, x: T, y: T) {
    !lt(y, x)
  }

  /** A strict weak order: asymmetric, and "may stand before" is transitive. */
  ghost predicate StrictWeak<T(!new)>(lt: (T, T) -> bool) {
    && (forall x, y {:trigger lt(x, y)} :: lt(x, y) ==> Le(lt, x, y))
    && (forall x, y, z {:trigger Le(lt, x, y), Le(lt, y, z)} :: Le(lt, x, y) && Le(lt, y, z) ==> Le(lt, x, z))
  }

  ghost predicate Sorted<T(!new)>(lt: (T, T) -> bool, s: seq<T>) {
    forall x, y {:trigger s[x], s[y]} :: 0 <= x < y < |s| ==> Le(lt, s[x], s[y])
  }

  /** Every element of s may stand before every element of t. */
  ghost predicate Below<T(!new)>(lt: (T, T) -> bool, s: seq<T>, t: seq<T>) {
    forall x, y {:trigger Le(lt, x, y)} :: x in s && y in t ==> Le(lt, x, y)
  }

  ghost predicate Same<T>(s: seq<T>, t: seq<T>) {
    |s| == |t| && multiset(s) == multiset(t)
  }

  lemma SameMembers<T>(s: seq<T>, t: seq<T>)
    requires Same(s, t)
    ensures forall x {:trigger x in s} {:trigger x in t} :: x in s <==> x in t
  {
    forall x ensures x in s <==> x in t { assert x in multiset(s) <==> x in multiset(t); }
  }

  lemma BelowSame<T(!new)>(lt: (T, T) -> bool, s: seq<T>, t: seq<T>, s': seq<T>, t': seq<T>)
    requires Below(lt, s, t) && Same(s, s') && Same(t, t')
    ensures Below(lt, s', t')
  {
    SameMembers(s, s');
    SameMembers(t, t');
  }

  lemma SameSum<T>(s: seq<T>, t: seq<T>, s': seq<T>, t': seq<T>)
    requires Same(s, s') && Same(t, t')
    ensures Same(s + t, s' + t')
  {
  }

  lemma SwapSame<T>(s: seq<T>, i: nat, j: nat)
    requires i < |s| && j < |s|
    ensures Same(s, s[i := s[j]][j := s[i]])
  {
    var t := s[i := s[j]];
    assert multiset(t) == multiset(s) - multiset{s[i]} + multiset{s[j]};
    assert multiset(t[j := s[i]]) == multiset(t) - multiset{t[j]} + multiset{s[i]};
  }

  lemma SortedJoin<T(!new)>(lt: (T, T) -> bool, s: seq<T>, t: seq<T>)
    requires Sorted(lt, s) && Sorted(lt, t) && Below(lt, s, t)
    ensures Sorted(lt, s + t)
  {
    var r := s + t;
    forall x, y {:trigger r[x], r[y]} | 0 <= x < y < |r| ensures Le(lt, r[x], r[y]) {
      if y < |s| { assert Le(lt, s[x], s[y]); }
      else if x >= |s| { assert Le(lt, t[x - |s|], t[y - |s|]); }
      else { assert s[x] in s && t[y - |s|] in t; }
    }
  }

  // Nesting.

  function Log2(n: int): nat {
    if n <= 1 then 0 else 1 + Log2(n / 2)
  }

  function Power2(k: nat): nat {
    if k == 0 then 1 else 2 * Power2(k - 1)
  }

  /** n lies between this power of two and the next. */
  lemma {:induction false} Log2Meaning(n: int)
    requires n >= 1
    ensures Power2(Log2(n)) <= n < Power2(Log2(n) + 1)
  {
    if n > 1 { Log2Meaning(n / 2); }
  }

  lemma {:induction false} Log2Mono(m: int, n: int)
    requires m <= n
    ensures Log2(m) <= Log2(n)
  {
    if m > 1 { Log2Mono(m / 2, n / 2); }
  }

  /** The smaller half of a range without its pivot nests one level less. */
  lemma HalfNests(m: int, n: int)
    requires 2 * m < n && n >= 2
    ensures 1 + Log2(m) <= Log2(n)
  {
    Log2Mono(m, n / 2);
  }

  // The algorithm.

  /** From s to t only the range [j, e] is rearranged. */
  ghost predicate Kept<T>(s: seq<T>, t: seq<T>, j: int, e: int)
    requires 0 <= j <= e + 1 <= |s| == |t|
  {
    t[..j] == s[..j] && t[e + 1..] == s[e + 1..] && Same(s[j..e + 1], t[j..e + 1])
  }

  lemma KeptRefl<T>(s: seq<T>, l: int, u: int)
    requires 0 <= l <= u + 1 <= |s|
    ensures Kept(s, s, l, u)
  {
  }

  /** A change within [l, u] that keeps its elements is one within [l0, u0] as well. */
  lemma Widened<T>(s: seq<T>, t: seq<T>, l0: int, l: int, u: int, u0: int)
    requires 0 <= l0 <= l <= u + 1 <= u0 + 1 <= |s| == |t| && Kept(s, t, l, u)
    ensures Kept(s, t, l0, u0)
    ensures t[l0..l] == s[l0..l] && t[u + 1..u0 + 1] == s[u + 1..u0 + 1]
  {
    assert t[..l0] == t[..l][..l0] && s[..l0] == s[..l][..l0];
    assert t[l0..l] == t[..l][l0..] && s[l0..l] == s[..l][l0..];
    var n := u0 - u;
    assert t[u + 1..u0 + 1] == t[u + 1..][..n] && s[u + 1..u0 + 1] == s[u + 1..][..n];
    assert t[u0 + 1..] == t[u + 1..][n..] && s[u0 + 1..] == s[u + 1..][n..];
    Three(s, l0, l, u, u0);
    Three(t, l0, l, u, u0);
    SameRefl(s[l0..l]);
    SameRefl(s[u + 1..u0 + 1]);
    SameSum(s[l0..l], s[l..u + 1], t[l0..l], t[l..u + 1]);
    SameSum(s[l0..l] + s[l..u + 1], s[u + 1..u0 + 1], t[l0..l] + t[l..u + 1], t[u + 1..u0 + 1]);
  }

  lemma Three<T>(s: seq<T>, l0: int, l: int, u: int, u0: int)
    requires 0 <= l0 <= l <= u + 1 <= u0 + 1 <= |s|
    ensures s[l0..u0 + 1] == s[l0..l] + s[l..u + 1] + s[u + 1..u0 + 1]
  {
    assert s[l0..u + 1] == s[l0..l] + s[l..u + 1];
  }

  /** Changes within a range add up. */
  lemma KeptStep<T>(s: seq<T>, t: seq<T>, r: seq<T>, l0: int, l: int, u: int, u0: int)
    requires 0 <= l0 <= l <= u + 1 <= u0 + 1 <= |s| == |t| == |r| && Kept(s, t, l0, u0) && Kept(t, r, l, u)
    ensures Kept(s, r, l0, u0)
  {
    Widened(t, r, l0, l, u, u0);
  }

  lemma SwapSlice<T>(s: seq<T>, i: nat, j: nat, l: nat, n: nat)
    requires l <= i < n <= |s| && l <= j < n
    ensures s[i := s[j]][j := s[i]][l..n] == s[l..n][i - l := s[l..n][j - l]][j - l := s[l..n][i - l]]
  {
    assert s[l..n][j - l] == s[j] && s[l..n][i - l] == s[i];
  }

  lemma SwapOutside<T>(s: seq<T>, i: nat, j: nat, l: nat, n: nat)
    requires l <= i < n <= |s| && l <= j < n
    ensures s[i := s[j]][j := s[i]][..l] == s[..l] && s[i := s[j]][j := s[i]][n..] == s[n..]
  {
  }

  /** Exchanging two elements within a range keeps what it should. */
  lemma SwapKept<T>(s: seq<T>, i: nat, j: nat, l: nat, u: nat)
    requires l <= i <= u < |s| && l <= j <= u
    ensures Kept(s, s[i := s[j]][j := s[i]], l, u)
  {
    var n := u + 1;
    SwapOutside(s, i, j, l, n);
    SwapSlice(s, i, j, l, n);
    SwapSame(s[l..n], i - l, j - l);
    hide Same;
  }

  /** set2 after two reads: exchanges two elements. */
  method Exchange<T>(a: array<T>, i: nat, j: nat, ghost l: nat, ghost u: nat)
    requires l <= i <= u < a.Length && l <= j <= u
    modifies a
    ensures a[..] == old(a[..])[i := old(a[j])][j := old(a[i])]
    ensures Kept(old(a[..]), a[..], l, u)
  {
    hide Kept, Same;
    SwapKept(a[..], i, j, l, u);
    a[i], a[j] := a[j], a[i];
  }

  lemma BeforeIs<T(!new)>(lt: (T, T) -> bool, x: T, y: T)
    requires StrictWeak(lt) && lt(x, y)
    ensures Le(lt, x, y)
  {
  }

  lemma LeTrans<T(!new)>(lt: (T, T) -> bool, x: T, y: T, z: T)
    requires StrictWeak(lt) && Le(lt, x, y) && Le(lt, y, z)
    ensures Le(lt, x, z)
  {
  }

  /** Orders two elements. */
  method OrderTwo<T(!new)>(a: array<T>, lt: (T, T) -> bool, i: nat, j: nat, ghost l: nat,
                           ghost u: nat) returns (swapped: bool)
    requires l <= i < j <= u < a.Length
    modifies a
    ensures swapped == lt(old(a[j]), old(a[i])) && Kept(old(a[..]), a[..], l, u)
    ensures a[..] == if swapped then old(a[..])[i := old(a[j])][j := old(a[i])] else old(a[..])
    ensures StrictWeak(lt) ==> Le(lt, a[i], a[j])
  {
    hide Kept, StrictWeak;
    KeptRefl(a[..], l, u);
    swapped := lt(a[j], a[i]);
    if swapped {
      if StrictWeak(lt) { BeforeIs(lt, a[j], a[i]); }
      Exchange(a, j, i, l, u);
    }
  }

  /** Orders a[l], the middle element and a[u] among themselves; stops early for ranges of two. */
  method OrderThree<T(!new)>(a: array<T>, lt: (T, T) -> bool, l: nat, u: nat) returns (i: nat)
    requires l < u < a.Length
    modifies a
    ensures Kept(old(a[..]), a[..], l, u)
    ensures l <= i < u && (u - l >= 2 ==> l < i)
    ensures StrictWeak(lt) ==> Le(lt, a[l], a[u])
    ensures StrictWeak(lt) && u - l >= 2 ==> Le(lt, a[l], a[i]) && Le(lt, a[i], a[u])
  {
    hide Kept, StrictWeak, Same, Le;
    ghost var s := a[..];
    var swapped := OrderTwo(a, lt, l, u, l, u);
    i := (l + u) / 2;
    if u - l == 1 { return; }
    ghost var t := a[..];
    swapped := OrderTwo(a, lt, l, i, l, u);
    KeptStep(s, t, a[..], l, l, u, u);
    if swapped {
      if StrictWeak(lt) { Middle(lt, t[l], t[i], t[u]); }
      return;
    }
    assert a[..] == t;
    swapped := OrderTwo(a, lt, i, u, l, u);
    KeptStep(s, t, a[..], l, l, u, u);
    if StrictWeak(lt) && swapped { LastMoved(lt, t[l], t[i], t[u]); }
  }

  /** The middle element stood wrongly before the first of two ordered ones. */
  lemma Middle<T(!new)>(lt: (T, T) -> bool, x: T, m: T, y: T)
    requires StrictWeak(lt) && lt(m, x) && Le(lt, x, y)
    ensures Le(lt, m, x) && Le(lt, m, y)
  {
    BeforeIs(lt, m, x);
    LeTrans(lt, m, x, y);
  }

  lemma LastMoved<T(!new)>(lt: (T, T) -> bool, x: T, m: T, y: T)
    requires StrictWeak(lt) && lt(y, m) && Le(lt, x, m) && Le(lt, x, y)
    ensures Le(lt, x, m) && Le(lt, y, m)
  {
    BeforeIs(lt, y, m);
  }

  /** Nothing before i belongs after the pivot, nothing after j before it. */
  ghost predicate Split<T>(s: seq<T>, lt: (T, T) -> bool, p: T, l: int, u: int, i: int, j: int)
    requires 0 <= l && u < |s|
  {
    && (forall k {:trigger s[k]} :: l <= k <= i && k <= u ==> Le(lt, s[k], p))
    && (forall k {:trigger s[k]} :: j <= k <= u && l <= k ==> Le(lt, p, s[k]))
  }

  /** The next i with a[i] not before the pivot. */
  method ScanUp<T(!new)>(a: array<T>, lt: (T, T) -> bool, p: T, l: nat, u: nat, i0: nat) returns (ok: bool, i: nat)
    requires l <= i0 < u < a.Length
    ensures i0 < i <= u && (forall k :: i0 < k < i ==> lt(a[k], p))
    ensures ok ==> !lt(a[i], p)
    ensures !ok ==> i == u && lt(a[u], p)
  {
    i := i0 + 1;
    while lt(a[i], p)
      invariant i0 < i <= u
      invariant forall k :: i0 < k < i ==> lt(a[k], p)
      decreases u - i
    {
      if i >= u { return false, i; }
      i := i + 1;
    }
    ok := true;
  }

  /** The next j below with a[j] not after the pivot. */
  method ScanDown<T(!new)>(a: array<T>, lt: (T, T) -> bool, p: T, l: nat, u: nat, j0: nat) returns (ok: bool, j: nat)
    requires l < j0 <= u < a.Length
    ensures l <= j < j0 && (forall k :: j < k < j0 ==> lt(p, a[k]))
    ensures ok ==> !lt(p, a[j])
    ensures !ok ==> j == l && lt(p, a[l])
  {
    j := j0 - 1;
    while lt(p, a[j])
      invariant l <= j < j0
      invariant forall k :: j < k < j0 ==> lt(p, a[k])
      decreases j
    {
      if j <= l { return false, j; }
      j := j - 1;
    }
    ok := true;
  }

  /** The two scans have stopped at i and j. */
  ghost predicate Scanned<T>(s: seq<T>, lt: (T, T) -> bool, p: T, l: int, u: int, i: int, j: int)
    requires 0 <= l && u < |s|
  {
    && (forall k {:trigger s[k]} :: l <= k < i && k <= u ==> Le(lt, s[k], p))
    && (forall k {:trigger s[k]} :: j < k <= u && l <= k ==> Le(lt, p, s[k]))
  }

  lemma AfterScans<T(!new)>(s: seq<T>, lt: (T, T) -> bool, p: T, l: int, u: int, i0: int, j0: int, i: int, j: int)
    requires 0 <= l && u < |s| && l <= i0 < i <= u && l <= j < j0 <= u && StrictWeak(lt)
             && Split(s, lt, p, l, u, i0, j0)
    requires forall k :: i0 < k < i ==> lt(s[k], p)
    requires forall k :: j < k < j0 ==> lt(p, s[k])
    ensures Scanned(s, lt, p, l, u, i, j)
  {
    forall k {:trigger s[k]} | l <= k < i && k <= u ensures Le(lt, s[k], p) { }
    forall k {:trigger s[k]} | j < k <= u && l <= k ensures Le(lt, p, s[k]) { }
  }

  lemma AfterSwap<T(!new)>(s: seq<T>, lt: (T, T) -> bool, p: T, l: int, u: int, i: int, j: int)
    requires 0 <= l <= i <= j <= u < |s| && Scanned(s, lt, p, l, u, i, j) && Le(lt, p, s[i]) && Le(lt, s[j], p)
    ensures Split(s[i := s[j]][j := s[i]], lt, p, l, u, i, j)
  {
  }

  lemma AfterPivot<T(!new)>(s: seq<T>, lt: (T, T) -> bool, l: int, u: int, i: int, j: int)
    requires 0 <= l <= j < i < u < |s| && Scanned(s, lt, s[u - 1], l, u, i, j) && Le(lt, s[u - 1], s[i])
             && StrictWeak(lt)
    ensures Split(s[u - 1 := s[i]][i := s[u - 1]], lt, s[u - 1], l, u, i, i)
  {
    var p, t := s[u - 1], s[u - 1 := s[i]][i := s[u - 1]];
    assert Le(lt, p, p);
    forall k {:trigger t[k]} | i <= k <= u ensures Le(lt, p, t[k]) { }
    forall k {:trigger t[k]} | l <= k <= i ensures Le(lt, t[k], p) { }
  }

  /** With a strict weak order the pivot at u - 1 stops the scan up. */
  lemma PivotStops<T(!new)>(lt: (T, T) -> bool, p: T)
    requires StrictWeak(lt)
    ensures !lt(p, p)
  {
    assert lt(p, p) ==> Le(lt, p, p);
  }

  lemma FirstSplit<T(!new)>(s: seq<T>, lt: (T, T) -> bool, l: int, u: int)
    requires 0 <= l < u - 1 && u < |s| && Le(lt, s[l], s[u - 1]) && Le(lt, s[u - 1], s[u]) && StrictWeak(lt)
    ensures Split(s, lt, s[u - 1], l, u, l, u - 1)
  {
    PivotStops(lt, s[u - 1]);
  }

  /** The ends of the range stop the scans of a strict weak order. */
  lemma Sentinels<T(!new)>(s: seq<T>, lt: (T, T) -> bool, p: T, l: int, u: int, i: int, j: int)
    requires 0 <= l <= i && j <= u < |s| && l <= u && Split(s, lt, p, l, u, i, j)
    ensures !lt(s[u], p) && !lt(p, s[l])
  {
    assert Le(lt, p, s[u]) && Le(lt, s[l], p);
  }

  /** The state between two scans: the pivot waits at u - 1. */
  ghost predicate Between<T(!new)>(s: seq<T>, lt: (T, T) -> bool, p: T, l: int, u: int, i: int, j: int) {
    && 0 <= l <= i <= j < u < |s| && i < u - 1 && l < j && s[u - 1] == p
    && (StrictWeak(lt) ==> Split(s, lt, p, l, u, i, j))
  }

  /** Both scans, and the exchange of the two elements they stop at; done when they have crossed. */
  method Turn<T(!new)>(a: array<T>, lt: (T, T) -> bool, p: T, l: nat, u: nat, i0: nat, j0: nat) returns (ok: bool,
      done: bool, i: nat, j: nat)
    requires u < a.Length && Between(a[..], lt, p, l, u, i0, j0)
    modifies a
    ensures Kept(old(a[..]), a[..], l, u)
    ensures i0 < i <= u && (StrictWeak(lt) ==> ok)
    ensures ok && !done ==> Between(a[..], lt, p, l, u, i, j)
    ensures ok && done ==>
      a[u - 1] == p && (StrictWeak(lt) ==> l <= j < i < u && Scanned(a[..], lt, p, l, u, i, j) && Le(lt, p, a[i]))
  {
    hide StrictWeak, Same, Split, Scanned;
    ghost var s := a[..];
    KeptRefl(s, l, u);
    j, done := j0, false;
    if StrictWeak(lt) { PivotStops(lt, p); Sentinels(s, lt, p, l, u, i0, j0); }
    ok, i := ScanUp(a, lt, p, l, u, i0);
    if !ok { return; }
    ok, j := ScanDown(a, lt, p, l, u, j0);
    if !ok { return; }
    if StrictWeak(lt) { AfterScans(s, lt, p, l, u, i0, j0, i, j); }
    done := j < i;
    if !done {
      if StrictWeak(lt) { AfterSwap(s, lt, p, l, u, i, j); }
      Exchange(a, i, j, l, u);
    }
  }

  lemma SameRefl<T>(s: seq<T>)
    ensures Same(s, s)
  {
  }

  /** Moves the pivot to its final place i. An invalid order may be noticed on the way. */
  method Partition<T(!new)>(a: array<T>, lt: (T, T) -> bool, l: nat, u: nat, mid: nat) returns (ok: bool, i: nat)
    requires l < mid < u < a.Length && u - l >= 3
    requires StrictWeak(lt) ==> Le(lt, a[l], a[mid]) && Le(lt, a[mid], a[u])
    modifies a
    ensures Kept(old(a[..]), a[..], l, u)
    ensures l < i <= u
    ensures StrictWeak(lt) ==> ok && i < u && Split(a[..], lt, a[i], l, u, i, i)
  {
    hide StrictWeak, Same, Split, Scanned;
    ghost var s0 := a[..];
    var p := a[mid];
    Exchange(a, mid, u - 1, l, u);
    i := l;
    var j, done := u - 1, false;
    if StrictWeak(lt) { FirstSplit(a[..], lt, l, u); }
    while true
      invariant Between(a[..], lt, p, l, u, i, j) && Kept(s0, a[..], l, u)
      decreases u - i
    {
      ghost var s1 := a[..];
      ok, done, i, j := Turn(a, lt, p, l, u, i, j);
      KeptStep(s0, s1, a[..], l, l, u, u);
      if !ok { return; }
      if done { break; }
    }
    if StrictWeak(lt) { AfterPivot(a[..], lt, l, u, i, j); }
    ghost var s1 := a[..];
    Exchange(a, u - 1, i, l, u);
    KeptStep(s0, s1, a[..], l, l, u, u);
  }

  /** One round on a[l..u]: sorts a range of at most three, or places a pivot. */
  method Place<T(!new)>(a: array<T>, lt: (T, T) -> bool, l: nat, u: nat) returns (ok: bool, i: nat)
    requires l < u < a.Length
    modifies a
    ensures Kept(old(a[..]), a[..], l, u) && (u - l <= 2 || ok ==> l <= i <= u) && (StrictWeak(lt) ==> ok)
    ensures u - l <= 2 ==> ok && (StrictWeak(lt) ==> Sorted(lt, a[l..u + 1]))
    ensures u - l >= 3 && ok ==> l < i <= u && (StrictWeak(lt) ==> i < u && Split(a[..], lt, a[i], l, u, i, i))
  {
    hide StrictWeak, Split, Sorted, Kept;
    ghost var s0 := a[..];
    ok := true;
    i := OrderThree(a, lt, l, u);
    if u - l <= 2 {
      if StrictWeak(lt) { SortedFew(a[l..u + 1], lt); }
      return;
    }
    ghost var s1 := a[..];
    ok, i := Partition(a, lt, l, u, i);
    KeptStep(s0, s1, a[..], l, l, u, u);
  }

  // Sorting a range.

  /** Of p + m + q all is sorted but m, which is in the right place as a whole. */
  ghost predicate Remaining<T(!new)>(lt: (T, T) -> bool, p: seq<T>, m: seq<T>, q: seq<T>) {
    Sorted(lt, p) && Sorted(lt, q) && Below(lt, p, q) && Below(lt, p, m) && Below(lt, m, q)
  }

  /** Rearranging the part leaves it in the right place. */
  lemma RemainingSame<T(!new)>(lt: (T, T) -> bool, p: seq<T>, m: seq<T>, q: seq<T>, m': seq<T>)
    requires Remaining(lt, p, m, q) && Same(m, m')
    ensures Remaining(lt, p, m', q)
  {
    SameRefl(p);
    SameRefl(q);
    BelowSame(lt, p, m, p, m');
    BelowSame(lt, m, q, m', q);
  }

  lemma SortedWhole<T(!new)>(lt: (T, T) -> bool, p: seq<T>, m: seq<T>, q: seq<T>)
    requires Remaining(lt, p, m, q) && Sorted(lt, m)
    ensures Sorted(lt, p + m + q)
  {
    SortedJoin(lt, p, m);
    SortedJoin(lt, p + m, q);
  }

  /** The parts around a pivot. */
  lemma SplitParts<T(!new)>(s: seq<T>, lt: (T, T) -> bool, l: int, u: int, i: int)
    requires 0 <= l <= i <= u < |s| && Split(s, lt, s[i], l, u, i, i) && StrictWeak(lt)
    ensures Below(lt, s[l..i], [s[i]]) && Below(lt, [s[i]], s[i + 1..u + 1]) && Below(lt, s[l..i], s[i + 1..u + 1])
  {
    forall x | x in s[l..i] ensures Le(lt, x, s[i]) { var k :| l <= k < i && s[k] == x; }
    forall y | y in s[i + 1..u + 1] ensures Le(lt, s[i], y) { var k :| i < k <= u && s[k] == y; }
    forall x, y | x in s[l..i] && y in s[i + 1..u + 1]
      ensures Le(lt, x, y)
    {
      assert Le(lt, x, s[i]) && Le(lt, s[i], y);
    }
  }

  /** With the part below the pivot x sorted, the part above it remains, or the other way round. */
  lemma HalfDone<T(!new)>(lt: (T, T) -> bool, p: seq<T>, m: seq<T>, x: seq<T>, r: seq<T>, q: seq<T>)
    requires Remaining(lt, p, m + x + r, q) && Sorted(lt, x)
    requires Below(lt, m, x) && Below(lt, x, r) && Below(lt, m, r)
    ensures Sorted(lt, m) ==> Remaining(lt, p + m + x, r, q)
    ensures Sorted(lt, r) ==> Remaining(lt, p, m, x + r + q)
  {
    BelowParts(lt, p, m, x, r, q);
    if Sorted(lt, m) {
      SortedJoin(lt, p, m);
      SortedJoin(lt, p + m, x);
    }
    if Sorted(lt, r) {
      SortedJoin(lt, x, r);
      SortedJoin(lt, x + r, q);
    }
  }

  lemma BelowParts<T(!new)>(lt: (T, T) -> bool, p: seq<T>, m: seq<T>, x: seq<T>, r: seq<T>, q: seq<T>)
    requires Below(lt, p, m + x + r) && Below(lt, m + x + r, q) && Below(lt, p, q)
    requires Below(lt, m, x) && Below(lt, x, r) && Below(lt, m, r)
    ensures Below(lt, p, m) && Below(lt, p + m, x) && Below(lt, p + m + x, r) && Below(lt, p + m + x, q)
    ensures Below(lt, p, x + r + q) && Below(lt, m, x + r + q) && Below(lt, x + r, q) && Below(lt, r, q)
  {
    forall y ensures y in m + x + r <==> y in m || y in x || y in r { }
    forall y ensures y in p + m + x <==> y in p || y in m || y in x { }
    forall y ensures y in x + r + q <==> y in x || y in r || y in q { }
  }

  lemma SortedFew<T(!new)>(s: seq<T>, lt: (T, T) -> bool)
    requires |s| == 2 || |s| == 3
    requires Le(lt, s[0], s[|s| - 1]) && (|s| == 3 ==> Le(lt, s[0], s[1]) && Le(lt, s[1], s[2]))
    ensures Sorted(lt, s)
  {
  }

  /** The range [l0, u0] of s is sorted but for [l, u]. */
  ghost predicate Left<T(!new)>(s: seq<T>, lt: (T, T) -> bool, l0: int, l: int, u: int, u0: int)
    requires 0 <= l0 <= l <= u + 1 <= u0 + 1 <= |s|
  {
    Remaining(lt, s[l0..l], s[l..u + 1], s[u + 1..u0 + 1])
  }

  lemma LastSorted<T(!new)>(s: seq<T>, lt: (T, T) -> bool, l0: int, l: int, u: int, u0: int)
    requires 0 <= l0 <= l <= u + 1 <= u0 + 1 <= |s| && Left(s, lt, l0, l, u, u0) && Sorted(lt, s[l..u + 1])
    ensures Sorted(lt, s[l0..u0 + 1])
  {
    SortedWhole(lt, s[l0..l], s[l..u + 1], s[u + 1..u0 + 1]);
    Three(s, l0, l, u, u0);
  }

  lemma NothingLeft<T(!new)>(s: seq<T>, lt: (T, T) -> bool, l0: int, l: int, u: int, u0: int)
    requires 0 <= l0 <= l <= u + 1 <= u0 + 1 <= |s| && Left(s, lt, l0, l, u, u0) && l >= u
    ensures Sorted(lt, s[l0..u0 + 1])
  {
    LastSorted(s, lt, l0, l, u, u0);
  }

  lemma AllLeft<T(!new)>(s: seq<T>, lt: (T, T) -> bool, l0: int, u0: int)
    requires 0 <= l0 <= u0 + 1 <= |s|
    ensures Left(s, lt, l0, l0, u0, u0)
  {
  }

  /** The parts of t around its pivot are apart as those of s are. */
  lemma PivotParts<T(!new)>(s: seq<T>, t: seq<T>, lt: (T, T) -> bool, l: int, u: int, i: int, lower: bool)
    requires 0 <= l <= i <= u < |s| == |t| && StrictWeak(lt) && Split(s, lt, s[i], l, u, i, i)
    requires Kept(s, t, if lower then l else i + 1, if lower then i - 1 else u)
    ensures Below(lt, t[l..i], [t[i]]) && Below(lt, [t[i]], t[i + 1..u + 1]) && Below(lt, t[l..i], t[i + 1..u + 1])
  {
    hide StrictWeak, Split, Same, Below, Kept;
    SplitParts(s, lt, l, u, i);
    HalfSlices(s, t, l, u, i, lower);
    SameRefl([s[i]]);
    BelowSame(lt, s[l..i], [s[i]], t[l..i], [t[i]]);
    BelowSame(lt, [s[i]], s[i + 1..u + 1], [t[i]], t[i + 1..u + 1]);
    BelowSame(lt, s[l..i], s[i + 1..u + 1], t[l..i], t[i + 1..u + 1]);
  }

  /** Rearranging a part of what is left. */
  lemma LeftKept<T(!new)>(s: seq<T>, t: seq<T>, lt: (T, T) -> bool, l0: int, l: int, u: int, u0: int, j: int, e: int)
    requires 0 <= l0 <= l <= j <= e + 1 <= u + 1 <= u0 + 1 <= |s| == |t| && Kept(s, t, j, e)
    requires Left(s, lt, l0, l, u, u0)
    ensures Left(t, lt, l0, l, u, u0)
  {
    hide Same, Remaining;
    Widened(s, t, l, j, e, u);
    Widened(s, t, l0, l, u, u0);
    RemainingSame(lt, s[l0..l], s[l..u + 1], s[u + 1..u0 + 1], t[l..u + 1]);
  }

  /** After the pivot has been placed in s, sorting either half leaves the other. */
  lemma HalfLeft<T(!new)>(s: seq<T>, t: seq<T>, lt: (T, T) -> bool, l0: int, l: int, u: int, u0: int, i: int,
                          lower: bool)
    requires 0 <= l0 <= l <= i <= u <= u0 < |s| == |t| && StrictWeak(lt)
    requires Left(s, lt, l0, l, u, u0) && Split(s, lt, s[i], l, u, i, i)
    requires Kept(s, t, if lower then l else i + 1, if lower then i - 1 else u)
    requires Sorted(lt, if lower then t[l..i] else t[i + 1..u + 1])
    ensures if lower then Left(t, lt, l0, i + 1, u, u0) else Left(t, lt, l0, l, i - 1, u0)
  {
    hide StrictWeak, Split, Same, Below, Sorted, Remaining, Kept;
    PivotParts(s, t, lt, l, u, i, lower);
    LeftKept(s, t, lt, l0, l, u, u0, if lower then l else i + 1, if lower then i - 1 else u);
    Pieces(t, l0, l, u, u0, i);
    SortedOne(lt, t[i]);
    HalfDone(lt, t[l0..l], t[l..i], [t[i]], t[i + 1..u + 1], t[u + 1..u0 + 1]);
  }

  lemma SortedOne<T(!new)>(lt: (T, T) -> bool, x: T)
    ensures Sorted(lt, [x])
  {
  }

  lemma Pieces<T>(t: seq<T>, l0: int, l: int, u: int, u0: int, i: int)
    requires 0 <= l0 <= l <= i <= u <= u0 < |t|
    ensures t[l..u + 1] == t[l..i] + [t[i]] + t[i + 1..u + 1]
    ensures t[l0..i + 1] == t[l0..l] + t[l..i] + [t[i]]
    ensures t[i..u0 + 1] == [t[i]] + t[i + 1..u + 1] + t[u + 1..u0 + 1]
  {
    assert t[l0..i] == t[l0..l] + t[l..i];
    assert t[i + 1..u0 + 1] == t[i + 1..u + 1] + t[u + 1..u0 + 1];
  }

  lemma HalfSlices<T>(s: seq<T>, t: seq<T>, l: int, u: int, i: int, lower: bool)
    requires 0 <= l <= i <= u < |s| == |t|
    requires Kept(s, t, if lower then l else i + 1, if lower then i - 1 else u)
    ensures t[i] == s[i] && Same(s[l..i], t[l..i]) && Same(s[i + 1..u + 1], t[i + 1..u + 1])
  {
    hide Same;
    if lower {
      KeptAbove(s, t, i, i + 1, u + 1);
      SameRefl(s[i + 1..u + 1]);
      assert s[i] == s[i..][0] && t[i] == t[i..][0];
    } else {
      KeptBelow(s, t, i + 1, l, i);
      SameRefl(s[l..i]);
      assert s[i] == s[..i + 1][i] && t[i] == t[..i + 1][i];
    }
  }

  lemma KeptAbove<T>(s: seq<T>, t: seq<T>, n: int, x: int, y: int)
    requires 0 <= n <= x <= y <= |s| == |t| && t[n..] == s[n..]
    ensures t[x..y] == s[x..y]
  {
    forall k {:trigger t[x..y][k]} | 0 <= k < y - x ensures t[x..y][k] == s[x..y][k] {
      assert t[x + k] == t[n..][x + k - n] && s[x + k] == s[n..][x + k - n];
    }
  }

  lemma KeptBelow<T>(s: seq<T>, t: seq<T>, n: int, x: int, y: int)
    requires 0 <= x <= y <= n <= |s| == |t| && t[..n] == s[..n]
    ensures t[x..y] == s[x..y]
  {
    assert t[x..y] == t[..n][x..y];
    assert s[x..y] == s[..n][x..y];
  }

  /**
   * Sorts a[l0..u0]. For any comparator at all, only that range is touched and its elements are kept;
   * a strict weak order is never rejected. limit is how deep calls may nest: about log2 of the length suffices.
   */
  method Auxsort<T(!new)>(a: array<T>, lt: (T, T) -> bool, l0: int, u0: int, ghost limit: nat) returns (ok: bool)
    requires 0 <= l0 <= u0 + 1 <= a.Length && Log2(u0 - l0 + 1) <= limit
    modifies a
    ensures Kept(old(a[..]), a[..], l0, u0)
    ensures StrictWeak(lt) ==> ok && Sorted(lt, a[l0..u0 + 1])
    decreases limit
  {
    hide StrictWeak, Kept, Split, Sorted, Left;
    var l, u := l0, u0;
    ok := true;
    ghost var s0 := a[..];
    KeptRefl(s0, l0, u0);
    AllLeft(s0, lt, l0, u0);
    while l < u
      invariant l0 <= l <= u + 1 <= u0 + 1 && ok
      invariant Kept(s0, a[..], l0, u0)
      invariant StrictWeak(lt) ==> Left(a[..], lt, l0, l, u, u0)
      decreases u - l
    {
      ghost var s1 := a[..];
      var i: nat;
      ok, i := Place(a, lt, l, u);
      ghost var s2, l1, u1, pivot := a[..], l, u, i;
      KeptStep(s0, s1, s2, l0, l, u, u0);
      if StrictWeak(lt) { LeftKept(s1, s2, lt, l0, l, u, u0, l, u); }
      if u - l <= 2 {
        if StrictWeak(lt) { LastSorted(s2, lt, l0, l, u, u0); }
        return;
      }
      if !ok { return; }
      var j, k := l, i - 1;
      ghost var lower := i - l < u - i;
      if i - l < u - i {
        l := i + 1;
      } else {
        j, k := i + 1, u;
        u := i - 1;
      }
      HalfNests(k - j + 1, u1 - l1 + 1);
      Log2Mono(u1 - l1 + 1, u0 - l0 + 1);
      ok := Auxsort(a, lt, j, k, limit - 1);
      KeptStep(s0, s2, a[..], l0, j, k, u0);
      if StrictWeak(lt) { HalfLeft(s2, a[..], lt, l0, l1, u1, u0, pivot, lower); }
      if !ok { return; }
    }
    if StrictWeak(lt) { NothingLeft(a[..], lt, l0, l, u, u0); }
  }
}
