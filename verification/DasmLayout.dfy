/** Byte positions: what pass 2 decides and what pass 3 must reach. */
module DasmLayout {
  import opened DasmActions
  import opened Rounding

  // All sections in layout order.

  function Upto(prog: seq<seq<Item>>, s: nat): seq<Item>
    requires s <= |prog|
  {
    if s == 0 then [] else Upto(prog, s - 1) + prog[s - 1]
  }

  function All(prog: seq<seq<Item>>): seq<Item> { Upto(prog, |prog|) }

  lemma {:induction false} UptoPrefix(prog: seq<seq<Item>>, s: nat, n: nat)
    requires s <= n <= |prog|
    ensures |Upto(prog, s)| <= |Upto(prog, n)| && Upto(prog, n)[..|Upto(prog, s)|] == Upto(prog, s)
    decreases n
  {
    if s < n {
      UptoPrefix(prog, s, n - 1);
      assert Upto(prog, n)[..|Upto(prog, s)|] == Upto(prog, n - 1)[..|Upto(prog, s)|];
    }
  }

  /** Item j of section s in the whole. */
  lemma AllAt(prog: seq<seq<Item>>, s: nat, j: nat)
    requires s < |prog| && j < |prog[s]|
    ensures |Upto(prog, s)| + j < |All(prog)| && All(prog)[|Upto(prog, s)| + j] == prog[s][j]
    ensures |Upto(prog, s + 1)| == |Upto(prog, s)| + |prog[s]| <= |All(prog)|
  {
    UptoPrefix(prog, s + 1, |prog|);
    assert All(prog)[|Upto(prog, s)| + j] == All(prog)[..|Upto(prog, s + 1)|][|Upto(prog, s)| + j];
  }

  ghost predicate Lies(prog: seq<seq<Item>>, k: int, s: int, j: int) {
    && 0 <= s < |prog| && 0 <= j < |prog[s]| && 0 <= k < |All(prog)|
    && k == |Upto(prog, s)| + j && All(prog)[k] == prog[s][j]
  }

  /** Where item k of the whole lies. */
  lemma {:induction false} Locate(prog: seq<seq<Item>>, n: nat, k: nat) returns (s: nat, j: nat)
    requires n <= |prog| && k < |Upto(prog, n)|
    ensures s < n && Lies(prog, k, s, j)
    decreases n
  {
    if k < |Upto(prog, n - 1)| {
      s, j := Locate(prog, n - 1, k);
    } else {
      s, j := n - 1, k - |Upto(prog, n - 1)|;
      AllAt(prog, s, j);
    }
  }

  function Sum(ofs: seq<int>, s: nat): int
    requires s <= |ofs|
  {
    if s == 0 then 0 else Sum(ofs, s - 1) + ofs[s - 1]
  }

  /** The sections are complete, and their ends are what pass 1 has recorded. */
  ghost predicate Closed(al: seq<int>, prog: seq<seq<Item>>, pos: seq<int>, ofs: seq<int>) {
    && |prog| == |pos| == |ofs|
    && (forall s {:trigger prog[s]} :: 0 <= s < |prog| ==> Finished(al, prog[s], s, pos[s], ofs[s]))
  }

  ghost predicate Finished(al: seq<int>, list: seq<Item>, s: int, pos: int, ofs: int) {
    && Traced(al, list, s) && End(al, list, s) == Cursor(-1, pos, ofs, 0, []) && s * BIAS <= pos < (s + 1) * BIAS
  }

  /** The pass 1 estimate of an item's distance from the start of the code. */
  function Abs(ofs: seq<int>, it: Item): int {
    if 0 <= Sec(it.c.pos) <= |ofs| then Sum(ofs, Sec(it.c.pos)) + it.c.est else 0
  }

  lemma ItemSec(al: seq<int>, prog: seq<seq<Item>>, pos: seq<int>, ofs: seq<int>, s: nat, j: nat)
    requires Closed(al, prog, pos, ofs) && s < |prog| && j < |prog[s]|
    ensures Sec(prog[s][j].c.pos) == s && s * BIAS <= prog[s][j].c.pos
            && prog[s][j].c.pos + Cells(prog[s][j].act) <= pos[s] < (s + 1) * BIAS
    ensures Genuine(al, prog[s][j])
  {
    assert Finished(al, prog[s], s, pos[s], ofs[s]);
    TracedStart(al, prog[s], s, j);
  }

  /** Items stand behind one another's cells in layout order. */
  ghost predicate Ordered(items: seq<Item>) {
    forall i, j {:trigger items[i], items[j]} :: 0 <= i < j < |items| ==>
      items[i].c.pos + Cells(items[i].act) <= items[j].c.pos
  }

  lemma {:induction false} UptoMono(prog: seq<seq<Item>>, s: nat, n: nat)
    requires s <= n <= |prog|
    ensures |Upto(prog, s)| <= |Upto(prog, n)|
    decreases n
  {
    if s < n { UptoMono(prog, s, n - 1); }
  }

  lemma LiesApart(prog: seq<seq<Item>>, i: int, s: int, a: int, j: int, t: int, b: int)
    requires Lies(prog, i, s, a) && Lies(prog, j, t, b) && i < j
    ensures s < t || (s == t && a < b)
  {
    if t < s { UptoMono(prog, t + 1, s); }
  }

  lemma AllOrdered(al: seq<int>, prog: seq<seq<Item>>, pos: seq<int>, ofs: seq<int>)
    requires Closed(al, prog, pos, ofs)
    ensures Ordered(All(prog))
  {
    var items := All(prog);
    forall i, j {:trigger items[i], items[j]} | 0 <= i < j < |items|
      ensures items[i].c.pos + Cells(items[i].act) <= items[j].c.pos
    {
      var s, a := Locate(prog, |prog|, i);
      var t, b := Locate(prog, |prog|, j);
      LiesApart(prog, i, s, a, j, t, b);
      ItemSec(al, prog, pos, ofs, s, a);
      ItemSec(al, prog, pos, ofs, t, b);
      if s == t {
        assert Finished(al, prog[s], s, pos[s], ofs[s]);
        TracedOrder(al, prog[s], s, a, b);
      }
    }
  }

  /** The estimates grow by each item's greatest size, over section boundaries as well. */
  ghost predicate Stepped(items: seq<Item>, ofs: seq<int>, k: int)
    requires 0 < k < |items|
  {
    Abs(ofs, items[k]) == Abs(ofs, items[k - 1]) + Max(items[k - 1])
  }

  ghost predicate Estimated(items: seq<Item>, ofs: seq<int>) {
    && (items != [] ==>
        Abs(ofs, items[0]) == 0 && Abs(ofs, items[|items| - 1]) + Max(items[|items| - 1]) == Sum(ofs, |ofs|))
    && (forall k {:trigger Stepped(items, ofs, k)} :: 0 < k < |items| ==> Stepped(items, ofs, k))
  }

  lemma {:induction false} EmptyUpto(al: seq<int>, prog: seq<seq<Item>>, pos: seq<int>, ofs: seq<int>, s: nat, n: nat)
    requires Closed(al, prog, pos, ofs) && s <= n <= |prog| && |Upto(prog, s)| == |Upto(prog, n)|
    ensures Sum(ofs, s) == Sum(ofs, n)
    decreases n
  {
    hide After, Traced;
    if s < n {
      UptoMono(prog, s, n - 1);
      assert Finished(al, prog[n - 1], n - 1, pos[n - 1], ofs[n - 1]);
      EmptyUpto(al, prog, pos, ofs, s, n - 1);
    }
  }

  lemma StepInside(al: seq<int>, prog: seq<seq<Item>>, pos: seq<int>, ofs: seq<int>, s: nat, j: nat)
    requires Closed(al, prog, pos, ofs) && s < |prog| && 0 < j < |prog[s]|
    ensures Abs(ofs, prog[s][j]) == Abs(ofs, prog[s][j - 1]) + Max(prog[s][j - 1])
  {
    assert Finished(al, prog[s], s, pos[s], ofs[s]);
    ItemSec(al, prog, pos, ofs, s, j);
    ItemSec(al, prog, pos, ofs, s, j - 1);
    assert Follows(al, prog[s], j);
  }

  lemma FirstAbs(al: seq<int>, prog: seq<seq<Item>>, pos: seq<int>, ofs: seq<int>, s: nat)
    requires Closed(al, prog, pos, ofs) && s < |prog| && prog[s] != []
    ensures Abs(ofs, prog[s][0]) == Sum(ofs, s)
    ensures var it := prog[s][|prog[s]| - 1]; Abs(ofs, it) + Max(it) == Sum(ofs, s + 1)
  {
    assert Finished(al, prog[s], s, pos[s], ofs[s]);
    ItemSec(al, prog, pos, ofs, s, 0);
    ItemSec(al, prog, pos, ofs, s, |prog[s]| - 1);
  }

  lemma StepAt(al: seq<int>, prog: seq<seq<Item>>, pos: seq<int>, ofs: seq<int>, k: int)
    requires Closed(al, prog, pos, ofs) && 0 < k < |All(prog)|
    ensures Stepped(All(prog), ofs, k)
  {
    hide Closed, Abs, Finished;
    var s, a := Locate(prog, |prog|, k - 1);
    var t, b := Locate(prog, |prog|, k);
    LiesApart(prog, k - 1, s, a, k, t, b);
    if s == t { StepInside(al, prog, pos, ofs, s, b); }
    else {
      Consecutive(prog, k, s, a, t, b);
      FirstAbs(al, prog, pos, ofs, s);
      FirstAbs(al, prog, pos, ofs, t);
      EmptyUpto(al, prog, pos, ofs, s + 1, t);
    }
  }

  lemma Consecutive(prog: seq<seq<Item>>, k: int, s: nat, a: nat, t: nat, b: nat)
    requires 0 < k && Lies(prog, k - 1, s, a) && Lies(prog, k, t, b) && s < t
    ensures a == |prog[s]| - 1 && b == 0 && |Upto(prog, s + 1)| == |Upto(prog, t)|
  {
    UptoMono(prog, s + 1, t);
  }

  lemma AllEstimated(al: seq<int>, prog: seq<seq<Item>>, pos: seq<int>, ofs: seq<int>)
    requires Closed(al, prog, pos, ofs)
    ensures Estimated(All(prog), ofs)
  {
    hide Closed, Abs, Finished, Stepped;
    var items := All(prog);
    forall k {:trigger Stepped(items, ofs, k)} | 0 < k < |items| ensures Stepped(items, ofs, k) {
      StepAt(al, prog, pos, ofs, k);
    }
    if items != [] { Extremes(al, prog, pos, ofs); }
  }

  lemma Extremes(al: seq<int>, prog: seq<seq<Item>>, pos: seq<int>, ofs: seq<int>)
    requires Closed(al, prog, pos, ofs) && All(prog) != []
    ensures |prog| == |ofs| && Abs(ofs, All(prog)[0]) == 0
    ensures var it := All(prog)[|All(prog)| - 1]; Abs(ofs, it) + Max(it) == Sum(ofs, |ofs|)
  {
    hide Abs, Finished;
    var items := All(prog);
    var s, a := Locate(prog, |prog|, 0);
    FirstAbs(al, prog, pos, ofs, s);
    EmptyUpto(al, prog, pos, ofs, 0, s);
    var t, b := Locate(prog, |prog|, |items| - 1);
    FirstAbs(al, prog, pos, ofs, t);
    UptoMono(prog, t + 1, |prog|);
    EmptyUpto(al, prog, pos, ofs, t + 1, |prog|);
  }

  // Final sizes and positions.

  function Pad(at: int, mask: int): int
    requires mask >= 0
  {
    (mask + 1 - at % (mask + 1)) % (mask + 1)
  }

  /** The bytes an item adds to the code before it; a shortened branch may add fewer than its displacement. */
  function Size(it: Item, d: int, at: int): int {
    if it.act.Rel() then 4 - d
    else if it.act.Align? then (if it.act.mask >= 0 then Pad(at, it.act.mask) else 0)
    else Max(it)
  }

  ghost predicate Placed(items: seq<Item>, d: seq<int>, at: seq<int>, k: int)
    requires 0 <= k < |d| <= |items| && |at| == |d| + 1
  {
    at[k + 1] == at[k] + Size(items[k], d[k], at[k])
  }

  /** at holds the positions of the first items, with the savings d. */
  ghost predicate Laid(items: seq<Item>, d: seq<int>, at: seq<int>) {
    && |d| <= |items| && |at| == |d| + 1 && at[0] == 0
    && (forall k {:trigger Placed(items, d, at, k)} :: 0 <= k < |d| ==> Placed(items, d, at, k))
  }

  lemma LaidMore(items: seq<Item>, d: seq<int>, at: seq<int>, save: int)
    requires Laid(items, d, at) && |d| < |items|
    ensures Laid(items, d + [save], at + [at[|d|] + Size(items[|d|], save, at[|d|])])
  {
    var d', at' := d + [save], at + [at[|d|] + Size(items[|d|], save, at[|d|])];
    forall k {:trigger Placed(items, d', at', k)} | 0 <= k < |d'| ensures Placed(items, d', at', k) {
      assert k < |d| ==> Placed(items, d, at, k);
    }
  }

  /** Masking off the low bits rounds the padded position up. */
  lemma AlignUp(at: int, mask: int)
    requires mask >= 0
    ensures at + mask - (at + mask) % (mask + 1) == at + Pad(at, mask) && 0 <= Pad(at, mask) <= mask
    ensures (at + Pad(at, mask)) % (mask + 1) == 0
  {
    var m := mask + 1;
    var q, r := at / m, at % m;
    assert at == m * q + r;
    if r == 0 {
      ModOf(m, m, 1, 0);
      ModOf(at + mask, m, q, mask);
    } else {
      ModOf(m - r, m, 0, m - r);
      assert m * (q + 1) == m * q + m;
      ModOf(at + mask, m, q + 1, r - 1);
      ModOf(at + m - r, m, q + 1, 0);
    }
  }

  lemma PadRange(at: int, mask: int)
    requires mask >= 0
    ensures 0 <= Pad(at, mask) <= mask
  {
    AlignUp(at, mask);
  }

  /** No fewer bytes reach the next multiple. */
  lemma PadLeast(at: int, mask: int, k: int)
    requires mask >= 0 && 0 <= k < Pad(at, mask)
    ensures (at + k) % (mask + 1) != 0
  {
    var m := mask + 1;
    var q, r := at / m, at % m;
    assert at == m * q + r;
    if r == 0 { ModOf(m, m, 1, 0); } else { ModOf(m - r, m, 0, m - r); ModOf(at + k, m, q, r + k); }
  }

  lemma SizeBounds(al: seq<int>, it: Item, d: int, at: int)
    requires Genuine(al, it) && 0 <= d <= 4
    ensures 0 <= Size(it, d, at) <= Max(it)
  {
    GenuineMax(al, it);
    hide Pad;
    if it.act.Align? { PadRange(at, it.act.mask); }
  }

  ghost predicate AllGenuine(al: seq<int>, items: seq<Item>) {
    forall k {:trigger items[k]} :: 0 <= k < |items| ==> Genuine(al, items[k])
  }

  ghost predicate Savings(d: seq<int>) {
    forall k {:trigger d[k]} :: 0 <= k < |d| ==> d[k] == 0 || d[k] == 3 || d[k] == 4
  }

  /** Final distances never exceed the estimated ones. */
  lemma {:induction false} Distance(al: seq<int>, items: seq<Item>, ofs: seq<int>, d: seq<int>, at: seq<int>, j: int,
                                    k: int)
    requires AllGenuine(al, items) && Estimated(items, ofs) && Laid(items, d, at) && Savings(d) && 0 <= j <= k <= |d|
             && k < |items|
    ensures 0 <= at[k] - at[j] <= Abs(ofs, items[k]) - Abs(ofs, items[j])
    decreases k
  {
    if j < k {
      Distance(al, items, ofs, d, at, j, k - 1);
      assert Placed(items, d, at, k - 1) && Stepped(items, ofs, k);
      SizeBounds(al, items[k - 1], d[k - 1], at[k - 1]);
    }
  }

  // Pass 2's rule.

  /** goal[k] is the label item that reference k leads to, or -1 for a global that is not defined here. */
  ghost predicate Aimed(items: seq<Item>, goal: seq<int>) {
    && |goal| == |items|
    && (forall k {:trigger goal[k]} :: 0 <= k < |items| && items[k].act.Ref() ==>
        goal[k] == -1 || (0 <= goal[k] < |items| && items[goal[k]].act.Def()))
  }

  /** The saving chosen for branch k: exact backwards, by the estimated distance forwards. */
  function Choice(items: seq<Item>, ofs: seq<int>, goal: seq<int>, at: seq<int>, k: int): int
    requires 0 <= k < |items| == |goal| && k < |at|
  {
    var save, m := Saves(items[k].c.op), goal[k];
    if !items[k].act.Rel() || m < 0 || m >= |items| then 0
    else if m > k then
      var dist := Abs(ofs, items[m]) - (Abs(ofs, items[k]) + 4);
      if -128 - save <= dist <= 127 then save else 0
    else if m < |at| && -128 - save <= at[m] - (at[k] + 4) <= 127 then save else 0
  }

  ghost predicate Chosen(items: seq<Item>, ofs: seq<int>, goal: seq<int>, d: seq<int>, at: seq<int>, k: int)
    requires 0 <= k < |d| <= |items| == |goal| && |at| == |d| + 1
  {
    d[k] == Choice(items, ofs, goal, at[..k + 1], k)
  }

  /** The layout that pass 2 computes. */
  ghost predicate Shrunk(items: seq<Item>, ofs: seq<int>, goal: seq<int>, d: seq<int>, at: seq<int>) {
    && |goal| == |items| && Laid(items, d, at)
    && (forall k {:trigger Chosen(items, ofs, goal, d, at, k)} :: 0 <= k < |d| ==> Chosen(items, ofs, goal, d, at, k))
  }

  lemma ShrunkSavings(items: seq<Item>, ofs: seq<int>, goal: seq<int>, d: seq<int>, at: seq<int>)
    requires Shrunk(items, ofs, goal, d, at)
    ensures Savings(d)
  {
    forall k {:trigger d[k]} | 0 <= k < |d| ensures d[k] == 0 || d[k] == 3 || d[k] == 4 {
      assert Chosen(items, ofs, goal, d, at, k);
    }
  }

  lemma ShrunkMore(items: seq<Item>, ofs: seq<int>, goal: seq<int>, d: seq<int>, at: seq<int>, save: int)
    requires Shrunk(items, ofs, goal, d, at) && |d| < |items| && save == Choice(items, ofs, goal, at, |d|)
    ensures Shrunk(items, ofs, goal, d + [save], at + [at[|d|] + Size(items[|d|], save, at[|d|])])
  {
    var d', at' := d + [save], at + [at[|d|] + Size(items[|d|], save, at[|d|])];
    LaidMore(items, d, at, save);
    forall k {:trigger Chosen(items, ofs, goal, d', at', k)} | 0 <= k < |d'|
      ensures Chosen(items, ofs, goal, d', at', k)
    {
      assert at'[..k + 1] == at[..k + 1];
      if k < |d| { assert Chosen(items, ofs, goal, d, at, k); } else { assert at[..k + 1] == at; }
    }
  }

  /** Every branch that pass 2 shortens reaches its label with a signed byte. */
  lemma ShortReaches(al: seq<int>, items: seq<Item>, ofs: seq<int>, goal: seq<int>, d: seq<int>, at: seq<int>, k: int)
    requires AllGenuine(al, items) && Estimated(items, ofs) && Aimed(items, goal) && Shrunk(items, ofs, goal, d, at)
             && |d| == |items|
    requires 0 <= k < |items| && d[k] > 0
    ensures items[k].act.Rel() && 0 <= goal[k] < |items| && Small(at[goal[k]] - at[k + 1])
  {
    ShrunkSavings(items, ofs, goal, d, at);
    assert Chosen(items, ofs, goal, d, at, k) && Placed(items, d, at, k);
    var m := goal[k];
    if m > k {
      assert Stepped(items, ofs, k + 1);
      Distance(al, items, ofs, d, at, k + 1, m);
    } else {
      Distance(al, items, ofs, d, at, m, k);
    }
  }

  /** A backward branch is short exactly where a signed byte reaches from the end of the short form. */
  lemma BackwardExact(items: seq<Item>, ofs: seq<int>, goal: seq<int>, d: seq<int>, at: seq<int>, k: int)
    requires Shrunk(items, ofs, goal, d, at) && |d| == |items| && 0 <= k < |items|
    requires items[k].act.Rel() && Saves(items[k].c.op) > 0 && 0 <= goal[k] < k && at[goal[k]] <= at[k]
    ensures d[k] > 0 <==> at[goal[k]] - (at[k] + 4 - Saves(items[k].c.op)) >= -128
  {
    assert Chosen(items, ofs, goal, d, at, k);
  }

  /** The most bytes that items j to k - 1 can take. */
  ghost function Most(items: seq<Item>, j: int, k: int): int
    requires 0 <= j <= |items| && k <= |items|
    decreases k
  {
    if j >= k then 0 else Most(items, j, k - 1) + Max(items[k - 1])
  }

  lemma {:induction false} MostEstimated(al: seq<int>, items: seq<Item>, ofs: seq<int>, j: int, k: int)
    requires AllGenuine(al, items) && Estimated(items, ofs) && 0 <= j <= k < |items|
    ensures Abs(ofs, items[k]) - Abs(ofs, items[j]) == Most(items, j, k) >= 0
    decreases k
  {
    if j < k {
      MostEstimated(al, items, ofs, j, k - 1);
      assert Stepped(items, ofs, k);
      GenuineMax(al, items[k - 1]);
    }
  }

  /** A forward branch is short exactly where a signed byte would reach over all that may come between. */
  lemma ForwardExact(al: seq<int>, items: seq<Item>, ofs: seq<int>, goal: seq<int>, d: seq<int>, at: seq<int>, k: int)
    requires AllGenuine(al, items) && Estimated(items, ofs) && Shrunk(items, ofs, goal, d, at) && |d| == |items|
    requires 0 <= k < |items| && items[k].act.Rel() && Saves(items[k].c.op) > 0 && k < goal[k] < |items|
    ensures d[k] > 0 <==> Most(items, k + 1, goal[k]) <= 127
  {
    assert Chosen(items, ofs, goal, d, at, k) && Stepped(items, ofs, k + 1);
    MostEstimated(al, items, ofs, k + 1, goal[k]);
  }

  /** A jump over 121 bytes and an alignment to 8. */
  function JumpOverAt(k: int): Item {
    match k
    case 0 => Item(Cursor(-1, 0, 0, 0, []), Start, 0)
    case 1 => Item(Cursor(0, 1, 0, 0, []), Esc(JMP), 0)
    case 2 => Item(Cursor(2, 1, 1, JMP, [JMP]), RelLg(20), 0)
    case 3 => Item(Cursor(4, 3, 5, JMP, []), Space(NOP), 121)
    case 4 => Item(Cursor(6, 4, 126, JMP, []), Align(7), 0)
    case 5 => Item(Cursor(8, 5, 133, JMP, []), LabelLg(20), 0)
    case _ => Item(Cursor(10, 6, 133, JMP, []), Stop, 0)
  }

  function JumpOver(): seq<Item> { seq(7, k => JumpOverAt(k)) }

  const JumpOverCode := [ESC, JMP, REL_LG, 20, SPACE, NOP, ALIGN, 7, LABEL_LG, 20, 255]

  /** Its layout by pass 2, and the one with a short jump: the label is within a byte in both. */
  lemma LeftLong(goal: seq<int>, d: seq<int>, at: seq<int>, d': seq<int>, at': seq<int>)
    requires goal == [-1, -1, 5, -1, -1, -1, -1]
    requires d == [0, 0, 0, 0, 0, 0, 0] && at == [0, 0, 1, 5, 126, 128, 128, 128]
    requires d' == d[2 := 3] && at' == [0, 0, 1, 2, 123, 128, 128, 128]
    ensures Closed(JumpOverCode, [JumpOver()], [6], [133]) && Aimed(JumpOver(), goal)
    ensures JumpOver()[2].act.Rel() && Saves(JumpOver()[2].c.op) == 3
    ensures Shrunk(JumpOver(), [133], goal, d, at) && Small(at[goal[2]] - at[3])
    ensures Laid(JumpOver(), d', at') && Small(at'[goal[2]] - at'[3])
  {
    var items := JumpOver();
    JumpOverTraced();
    forall k {:trigger Placed(items, d, at, k)} | 0 <= k < 7
      ensures Placed(items, d, at, k)
    {
      JumpOverPlaced(d, at, d', at', k);
    }
    forall k {:trigger Placed(items, d', at', k)} | 0 <= k < 7
      ensures Placed(items, d', at', k)
    {
      JumpOverPlaced(d, at, d', at', k);
    }
    forall k {:trigger Chosen(items, [133], goal, d, at, k)} | 0 <= k < 7 ensures Chosen(items, [133], goal, d, at, k) {
      assert items[k] == JumpOverAt(k);
      if k == 2 { assert items[5] == JumpOverAt(5); }
    }
  }

  lemma JumpOverPlaced(d: seq<int>, at: seq<int>, d': seq<int>, at': seq<int>, k: int)
    requires d == [0, 0, 0, 0, 0, 0, 0] && at == [0, 0, 1, 5, 126, 128, 128, 128]
    requires d' == d[2 := 3] && at' == [0, 0, 1, 2, 123, 128, 128, 128]
    requires 0 <= k < 7
    ensures Placed(JumpOver(), d, at, k) && Placed(JumpOver(), d', at', k)
  {
    assert JumpOver()[k] == JumpOverAt(k);
  }

  lemma JumpOverTraced()
    ensures Closed(JumpOverCode, [JumpOver()], [6], [133])
  {
    hide After, Genuine;
    var items := JumpOver();
    forall k {:trigger Follows(JumpOverCode, items, k)} | 0 < k < |items|
      ensures Follows(JumpOverCode, items, k)
    {
      JumpOverStep(k);
    }
    forall k {:trigger items[k]} | 0 <= k < |items| ensures Genuine(JumpOverCode, items[k]) { JumpOverStep(k); }
    JumpOverStep(7);
    assert Finished(JumpOverCode, items, 0, 6, 133);
  }

  lemma JumpOverStep(k: int)
    requires 0 <= k <= 7
    ensures k < 7 ==> Genuine(JumpOverCode, JumpOverAt(k))
    ensures 0 < k < 7 ==> JumpOverAt(k).c == After(JumpOverCode, JumpOverAt(k - 1))
    ensures k == 7 ==> After(JumpOverCode, JumpOverAt(6)) == Cursor(-1, 6, 133, 0, [])
  {
    hide Genuine, After;
    JumpOverKnown();
    JumpOverMore(JumpOverCode, k);
  }

  lemma JumpOverMore(al: seq<int>, k: int)
    requires 0 <= k <= 7 && JumpOverRead(al)
    ensures k < 7 ==> Genuine(al, JumpOverAt(k))
    ensures 0 < k < 7 ==> JumpOverAt(k).c == After(al, JumpOverAt(k - 1))
    ensures k == 7 ==> After(al, JumpOverAt(6)) == Cursor(-1, 6, 133, 0, [])
  {
    hide Known, Fetch, Width;
  }

  ghost predicate JumpOverRead(al: seq<int>) {
    && Known(al, 0) && Known(al, 2) && Known(al, 4) && Known(al, 6) && Known(al, 8) && Known(al, 10)
    && Width(al, 0) == Width(al, 2) == Width(al, 4) == Width(al, 6) == Width(al, 8) == 2
    && Fetch(al, 0) == Esc(JMP) && Fetch(al, 2) == RelLg(20) && Fetch(al, 4) == Space(NOP)
    && Fetch(al, 6) == Align(7) && Fetch(al, 8) == LabelLg(20) && Fetch(al, 10) == Stop
  }

  lemma JumpOverKnown()
    ensures JumpOverRead(JumpOverCode)
  {
  }
}
