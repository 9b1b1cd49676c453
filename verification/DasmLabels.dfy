/** What every reference to a label must resolve to, told from the history of the puts. */
module DasmLabels {
  import opened DasmActions

  /** A local (1..9) or global (10..) label, or a PC label. */
  datatype Label = Lg(i: int) | Pc(i: int)

  /** Forward references to local labels are numbered from 247. */
  predicate Forward(it: Item) {
    (it.act.RelLg? || it.act.ImmLg?) && it.act.n > 246
  }

  function Of(it: Item): Label {
    match it.act
    case RelLg(n) => Lg(if n > 246 then n - 246 else n)
    case ImmLg(n) => Lg(if n > 246 then n - 246 else n)
    case LabelLg(n) => Lg(n)
    case _ => Pc(it.arg)
  }

  predicate Local(l: Label) { l.Lg? && 1 <= l.i <= 9 }

  function Front(log: seq<Item>): seq<Item> requires log != [] { log[..|log| - 1] }
  function Last(log: seq<Item>): Item requires log != [] { log[|log| - 1] }

  /** The position of the latest definition; a checked step forgets local labels. */
  ghost function Latest(log: seq<Item>, l: Label): int
    decreases |log|
  {
    if log == [] then 0
    else if Last(log).act.Def() && Of(Last(log)) == l then Last(log).c.pos
    else if Last(log).act.Step? && Local(l) then 0
    else Latest(Front(log), l)
  }

  /** The references that wait for the next definition, newest first. */
  ghost function Pending(log: seq<Item>, l: Label): seq<int>
    decreases |log|
  {
    if log == [] then []
    else
      var it, rest := Last(log), Pending(Front(log), l);
      if it.act.Def() && Of(it) == l then []
      else if it.act.Ref() && Of(it) == l
          && (Forward(it) || rest != [] || Latest(Front(log), l) == 0) then [it.c.pos] + rest
      else rest
  }

  /** A reference made now finds its label's latest definition. */
  ghost predicate Visible(log: seq<Item>, it: Item) {
    !Forward(it) && Pending(log, Of(it)) == [] && Latest(log, Of(it)) != 0
  }

  /** What reference r resolves to: the definition visible to it, or else the next one; 0 as long as there is none. */
  ghost function Target(log: seq<Item>, r: nat): int
    requires r < |log|
    decreases |log|
  {
    var front, it := Front(log), Last(log);
    if r == |log| - 1 then (if Visible(front, it) then Latest(front, Of(it)) else 0)
    else if Target(front, r) != 0 then Target(front, r)
    else if it.act.Def() && Of(it) == Of(log[r]) then it.c.pos else 0
  }

  /** Positions of cells are positive, and no two references share one. */
  ghost predicate Apart(log: seq<Item>) {
    && (forall i {:trigger log[i]} :: 0 <= i < |log| && (log[i].act.Ref() || log[i].act.Def()) ==> log[i].c.pos > 0)
    && (forall i, j {:trigger log[i], log[j]} :: 0 <= i < j < |log| && log[i].act.Ref() && log[j].act.Ref() ==>
        log[i].c.pos != log[j].c.pos)
  }

  lemma OneRef(log: seq<Item>, i: int, j: int)
    requires Apart(log) && 0 <= i < |log| && 0 <= j < |log| && log[i].act.Ref() && log[j].act.Ref()
             && log[i].c.pos == log[j].c.pos
    ensures i == j
  {
  }

  lemma ApartFront(log: seq<Item>)
    requires log != [] && Apart(log)
    ensures Apart(Front(log))
  {
  }

  ghost predicate Waits(log: seq<Item>, l: Label, i: int, q: int) {
    0 <= i < |log| && log[i].act.Ref() && Of(log[i]) == l && log[i].c.pos == q
  }

  lemma {:induction false} PendingRef(log: seq<Item>, l: Label, q: int) returns (i: int)
    requires q in Pending(log, l)
    ensures Waits(log, l, i, q)
    decreases |log|
  {
    if q in Pending(Front(log), l) {
      i := PendingRef(Front(log), l, q);
    } else {
      i := |log| - 1;
    }
  }

  ghost predicate Distinct(w: seq<int>) {
    forall i, j {:trigger w[i], w[j]} :: 0 <= i < j < |w| ==> w[i] != w[j]
  }

  lemma {:induction false} PendingDistinct(log: seq<Item>, l: Label)
    requires Apart(log)
    ensures Distinct(Pending(log, l)) && (forall q {:trigger q in Pending(log, l)} :: q in Pending(log, l) ==> q > 0)
    decreases |log|
  {
    if log != [] {
      ApartFront(log);
      PendingDistinct(Front(log), l);
      var w := Pending(Front(log), l);
      if Last(log).c.pos in w && Last(log).act.Ref() {
        var i := PendingRef(Front(log), l, Last(log).c.pos);
        OneRef(log, i, |log| - 1);
      }
    }
  }

  lemma PendingDisjoint(log: seq<Item>, l: Label, k: Label, q: int)
    requires Apart(log) && q in Pending(log, l) && q in Pending(log, k)
    ensures l == k
  {
    var i := PendingRef(log, l, q);
    var j := PendingRef(log, k, q);
    OneRef(log, i, j);
  }

  /** A reference waits exactly as long as it has no target. */
  lemma {:induction false} TargetPending(log: seq<Item>, r: nat)
    requires r < |log| && log[r].act.Ref() && Apart(log)
    ensures Target(log, r) == 0 <==> log[r].c.pos in Pending(log, Of(log[r]))
    decreases |log|
  {
    var front, it, l := Front(log), Last(log), Of(log[r]);
    ApartFront(log);
    if r == |log| - 1 {
      if it.c.pos in Pending(front, l) {
        var i := PendingRef(front, l, it.c.pos);
        OneRef(log, i, r);
      }
    } else {
      assert front[r] == log[r];
      TargetPending(front, r);
      LatestPositive(log, l);
      assert it.act.Ref() ==> it.c.pos != log[r].c.pos;
    }
  }

  lemma {:induction false} LatestPositive(log: seq<Item>, l: Label)
    requires Apart(log)
    ensures Latest(log, l) >= 0
    decreases |log|
  {
    if log != [] { ApartFront(log); LatestPositive(Front(log), l); }
  }

  // What targets mean.

  predicate Defines(it: Item, l: Label) { it.act.Def() && Of(it) == l }

  /** No definition of l, and for a local label no checked step, in log[i..j]. */
  ghost predicate Quiet(log: seq<Item>, l: Label, i: int, j: int)
    requires 0 <= i && j <= |log|
  {
    forall k {:trigger log[k]} :: i <= k < j ==> !Defines(log[k], l) && !(log[k].act.Step? && Local(l))
  }

  ghost predicate Undefined(log: seq<Item>, l: Label, i: int, j: int)
    requires 0 <= i && j <= |log|
  {
    forall k {:trigger log[k]} :: i <= k < j ==> !Defines(log[k], l)
  }

  lemma {:induction false} LatestMeaning(log: seq<Item>, l: Label) returns (m: int)
    requires Apart(log)
    ensures Latest(log, l) != 0 ==>
      0 <= m < |log| && Defines(log[m], l) && log[m].c.pos == Latest(log, l) && Quiet(log, l, m + 1, |log|)
    ensures Latest(log, l) == 0 && !Local(l) ==> Undefined(log, l, 0, |log|)
    decreases |log|
  {
    m := 0;
    if log != [] {
      ApartFront(log);
      m := LatestMeaning(Front(log), l);
      if Defines(Last(log), l) { m := |log| - 1; }
      assert forall k {:trigger log[k]} :: 0 <= k < |log| - 1 ==> Front(log)[k] == log[k];
    }
  }

  lemma TargetNow(log: seq<Item>)
    requires log != []
    ensures Target(log, |log| - 1) == if Visible(Front(log), Last(log)) then Latest(Front(log), Of(Last(log))) else 0
    ensures Visible(Front(log), Last(log)) ==> Latest(Front(log), Of(Last(log))) != 0
  {
  }

  lemma TargetLater(log: seq<Item>, r: nat)
    requires r < |log| - 1 && Apart(log)
    ensures Target(log, r) == (if Target(Front(log), r) != 0 then Target(Front(log), r)
                               else if Defines(Last(log), Of(log[r])) then Last(log).c.pos else 0)
    ensures Defines(Last(log), Of(log[r])) ==> Last(log).c.pos > 0
    ensures Front(log)[r] == log[r] && Front(log)[..r] == log[..r]
  {
    hide Visible, Latest;
  }

  lemma UndefinedLater(log: seq<Item>, l: Label, i: nat)
    requires i < |log| && Undefined(Front(log), l, i, |log| - 1) && !Defines(Last(log), l)
    ensures Undefined(log, l, i, |log|)
  {
    forall k {:trigger log[k]} | i <= k < |log|
      ensures !Defines(log[k], l)
    {
      assert k < |log| - 1 ==> Front(log)[k] == log[k];
    }
  }

  lemma FrontParts(log: seq<Item>, l: Label, i: nat, j: nat)
    requires log != [] && j < |log|
    ensures Undefined(Front(log), l, i, j) ==> Undefined(log, l, i, j)
    ensures Quiet(Front(log), l, i, j) ==> Quiet(log, l, i, j)
  {
    assert forall k {:trigger log[k]} :: i <= k < j ==> Front(log)[k] == log[k];
  }

  /**
   * A reference that finds a visible definition has the latest one before it as its target;
   * any other has the first definition after it, or waits.
   */
  lemma {:induction false} TargetMeaning(log: seq<Item>, r: nat) returns (m: int)
    requires r < |log| && Apart(log) && log[r].act.Ref()
    ensures Visible(log[..r], log[r]) ==>
              0 <= m < r && Defines(log[m], Of(log[r])) && Target(log, r) == log[m].c.pos
                  && Quiet(log, Of(log[r]), m + 1, r)
    ensures !Visible(log[..r], log[r]) && Target(log, r) != 0 ==>
              r < m < |log| && Defines(log[m], Of(log[r])) && Target(log, r) == log[m].c.pos
                  && Undefined(log, Of(log[r]), r + 1, m)
    ensures Target(log, r) == 0 ==> !Visible(log[..r], log[r]) && Undefined(log, Of(log[r]), r + 1, |log|)
    decreases |log|
  {
    hide Target, Latest, Visible, Apart, Defines, Quiet, Undefined;
    var l := Of(log[r]);
    ApartFront(log);
    if r == |log| - 1 {
      TargetNow(log);
      assert log[..r] == Front(log);
      m := LatestMeaning(Front(log), l);
      LatestPositive(Front(log), l);
      NothingAfter(log, l);
      if 0 <= m < r { FrontParts(log, l, m + 1, r); }
    } else {
      TargetLater(log, r);
      m := TargetMeaning(Front(log), r);
      FrontParts(log, l, r + 1, |log| - 1);
      if 0 <= m < |log| - 1 { FrontParts(log, l, m + 1, r); FrontParts(log, l, r + 1, m); }
      if Target(Front(log), r) == 0 {
        if Defines(Last(log), l) { m := |log| - 1; } else { UndefinedLater(log, l, r + 1); }
      }
    }
  }

  lemma NothingAfter(log: seq<Item>, l: Label)
    ensures Undefined(log, l, |log|, |log|)
  {
  }

  /** A global or PC label that has been defined is visible ever after. */
  lemma {:induction false} DefinedStays(log: seq<Item>, l: Label)
    requires !Local(l) && Latest(log, l) != 0
             && (forall i {:trigger log[i]} :: 0 <= i < |log| && Forward(log[i]) ==> Local(Of(log[i])))
    ensures Pending(log, l) == []
    decreases |log|
  {
    if !Defines(Last(log), l) {
      assert forall i {:trigger Front(log)[i]} :: 0 <= i < |log| - 1 ==> Front(log)[i] == log[i];
      DefinedStays(Front(log), l);
    }
  }

  // Chains through the section buffers.

  /** From head the cells link the positions w, the last one to 0. */
  ghost predicate Chained(cells: map<int, int>, head: int, w: seq<int>)
    decreases |w|
  {
    if w == [] then head == 0 else head == w[0] && w[0] in cells && Chained(cells, cells[w[0]], w[1..])
  }

  lemma {:induction false} ChainFrame(cells: map<int, int>, cells': map<int, int>, head: int, w: seq<int>)
    requires Chained(cells, head, w) && forall q {:trigger q in w} :: q in w && q in cells ==>
      q in cells' && cells'[q] == cells[q]
    ensures Chained(cells', head, w)
    decreases |w|
  {
    if w != [] {
      assert w[0] in w;
      forall q {:trigger q in w[1..]} | q in w[1..] && q in cells
        ensures q in cells' && cells'[q] == cells[q]
      {
        assert q in w;
      }
      ChainFrame(cells, cells', cells[w[0]], w[1..]);
    }
  }

  lemma {:induction false} ChainIn(cells: map<int, int>, head: int, w: seq<int>, q: int)
    requires Chained(cells, head, w) && q in w
    ensures q in cells
    decreases |w|
  {
    if q != w[0] { ChainIn(cells, cells[w[0]], w[1..], q); }
  }

  /** All cells of a collapsed chain hold v. */
  function Overwrite(cells: map<int, int>, w: seq<int>, v: int): map<int, int> {
    map q {:trigger cells[q]} | q in cells :: if q in w then v else cells[q]
  }

  /** A label's table entry: its pending chain, minus its position, or 0. */
  ghost predicate Entered(log: seq<Item>, cells: map<int, int>, l: Label, n: int) {
    if Pending(log, l) != [] then n > 0 && Chained(cells, n, Pending(log, l)) else n == -Latest(log, l)
  }

  ghost predicate Resolved(log: seq<Item>, cells: map<int, int>, r: nat)
    requires r < |log|
  {
    log[r].act.Ref() ==> log[r].c.pos in cells && (Target(log, r) != 0 ==> cells[log[r].c.pos] == Target(log, r))
  }

  function Table(lg: seq<int>, pc: seq<int>, l: Label): int
    requires InTable(lg, pc, l)
  {
    if l.Lg? then lg[l.i] else pc[l.i]
  }

  predicate InTable(lg: seq<int>, pc: seq<int>, l: Label) {
    0 <= l.i < if l.Lg? then |lg| else |pc|
  }

  ghost predicate Tabled(log: seq<Item>, cells: map<int, int>, lg: seq<int>, pc: seq<int>, l: Label) {
    InTable(lg, pc, l) ==> Entered(log, cells, l, Table(lg, pc, l))
  }

  /** Every table entry and every resolved reference is right. */
  ghost predicate Linked(log: seq<Item>, cells: map<int, int>, lg: seq<int>, pc: seq<int>) {
    && (forall l {:trigger Tabled(log, cells, lg, pc, l)} :: Tabled(log, cells, lg, pc, l))
    && (forall r: nat {:trigger Resolved(log, cells, r)} :: r < |log| ==> Resolved(log, cells, r))
  }
}
