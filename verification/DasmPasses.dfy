/** What pass 2 finds in the section buffers, what it leaves there, and what references come to mean. */
module DasmPasses {
  import opened DasmActions
  import opened DasmLabels
  import opened DasmLayout
  import opened DasmState

  /** The cell of reference k leads to its goal, or marks a global that is not defined here. */
  ghost predicate Leads(cells: map<int, int>, items: seq<Item>, goal: seq<int>, k: int)
    requires 0 <= k < |items| == |goal|
  {
    items[k].act.Ref() ==>
      && items[k].c.pos in cells
      && (goal[k] == -1 || (0 <= goal[k] < |items| && items[goal[k]].act.Def()))
      && cells[items[k].c.pos] == (if goal[k] == -1 then -Of(items[k]).i else items[goal[k]].c.pos)
      && (goal[k] == -1 ==> Of(items[k]).Lg? && Of(items[k]).i >= 10)
  }

  /** The other cells of item k: final where pass 2 has been, estimates elsewhere. */
  ghost predicate Shows(cells: map<int, int>, items: seq<Item>, d: seq<int>, at: seq<int>, k: int)
    requires 0 <= k < |items| && |at| == |d| + 1
  {
    var it, q := items[k], items[k].c.pos;
    if it.act.Value() then q in cells && cells[q] == it.arg
    else if it.act.Def() then q in cells && cells[q] == (if k < |d| then at[k] else it.c.est)
    else if it.act.Align? then q in cells && (k < |d| || cells[q] == it.c.est + it.act.mask)
    else it.act.Rel() ==> q + 1 in cells && cells[q + 1] == if k < |d| then d[k] else it.c.est + 4
  }

  /** Pass 2 has fixed the first |d| items. */
  ghost predicate Passed(cells: map<int, int>, items: seq<Item>, goal: seq<int>, d: seq<int>, at: seq<int>) {
    && |goal| == |items| && |d| <= |items| && |at| == |d| + 1
    && (forall k {:trigger Leads(cells, items, goal, k)} :: 0 <= k < |items| ==> Leads(cells, items, goal, k))
    && (forall k {:trigger Shows(cells, items, d, at, k)} :: 0 <= k < |items| ==> Shows(cells, items, d, at, k))
  }

  /** What pass 2 writes for item |d|. */
  function Fix(cells: map<int, int>, it: Item, save: int, at: int): map<int, int> {
    if it.act.Def() then cells[it.c.pos := at] else if it.act.Rel() then cells[it.c.pos + 1 := save] else cells
  }

  lemma PassMore(cells: map<int, int>, items: seq<Item>, goal: seq<int>, d: seq<int>, at: seq<int>, save: int,
                 next: int)
    requires Passed(cells, items, goal, d, at) && |d| < |items| && Ordered(items)
    ensures Passed(Fix(cells, items[|d|], save, at[|d|]), items, goal, d + [save], at + [next])
  {
    var n, cells' := |d|, Fix(cells, items[|d|], save, at[|d|]);
    forall k {:trigger Leads(cells', items, goal, k)} | 0 <= k < |items| ensures Leads(cells', items, goal, k) {
      assert Leads(cells, items, goal, k);
      Apart2(items, k, n);
    }
    forall k {:trigger Shows(cells', items, d + [save], at + [next], k)} | 0 <= k < |items|
      ensures Shows(cells', items, d + [save], at + [next], k)
    {
      assert Shows(cells, items, d, at, k);
      Apart2(items, k, n);
    }
  }

  /** The cells of two items are apart. */
  lemma Apart2(items: seq<Item>, k: int, n: int)
    requires Ordered(items) && 0 <= k < |items| && 0 <= n < |items|
    ensures k < n ==> items[k].c.pos + Cells(items[k].act) <= items[n].c.pos
    ensures n < k ==> items[n].c.pos + Cells(items[n].act) <= items[k].c.pos
  {
  }

  // From the end of pass 1.

  /** All pending references to the globals below n are marked, and nothing else has changed. */
  ghost predicate Marked(cells0: map<int, int>, cells: map<int, int>, log: seq<Item>, n: int) {
    && cells.Keys == cells0.Keys
    && (forall i, q {:trigger q in Pending(log, Lg(i))} :: 10 <= i < n && q in Pending(log, Lg(i)) ==>
        q in cells && cells[q] == -i)
    && (forall q {:trigger cells[q]} :: q in cells && cells[q] != cells0[q] ==> exists i {:trigger Lg(i)} ::
        10 <= i < n && q in Pending(log, Lg(i)))
  }

  lemma MarkMore(cells0: map<int, int>, cells: map<int, int>, cells': map<int, int>, log: seq<Item>, n: int)
    requires Marked(cells0, cells, log, n) && n >= 10 && Apart(log)
             && cells' == Overwrite(cells, Pending(log, Lg(n)), -n)
    requires forall q {:trigger q in Pending(log, Lg(n))} :: q in Pending(log, Lg(n)) ==> q in cells
    ensures Marked(cells0, cells', log, n + 1)
  {
    assert cells'.Keys == cells.Keys;
    forall i, q {:trigger q in Pending(log, Lg(i))} | 10 <= i < n + 1 && q in Pending(log, Lg(i))
      ensures q in cells' && cells'[q] == -i
    {
      if i < n && q in Pending(log, Lg(n)) { PendingDisjoint(log, Lg(i), Lg(n), q); }
    }
    forall q {:trigger cells'[q]} | q in cells' && cells'[q] != cells0[q]
      ensures exists i {:trigger Lg(i)} :: 10 <= i < n + 1 && q in Pending(log, Lg(i))
    {
      if q in Pending(log, Lg(n)) { assert 10 <= n < n + 1; } else { assert cells'[q] == cells[q]; }
    }
  }

  /** A chain that is still to be marked has not been touched. */
  lemma StillChained(cells0: map<int, int>, cells: map<int, int>, log: seq<Item>, n: int, head: int)
    requires Marked(cells0, cells, log, n) && n >= 10 && Apart(log) && Chained(cells0, head, Pending(log, Lg(n)))
    ensures Chained(cells, head, Pending(log, Lg(n)))
  {
    var w := Pending(log, Lg(n));
    forall q {:trigger q in w} | q in w && q in cells0 ensures q in cells && cells[q] == cells0[q] {
      if cells[q] != cells0[q] {
        var i :| 10 <= i < n && q in Pending(log, Lg(i));
        PendingDisjoint(log, Lg(i), Lg(n), q);
      }
    }
    ChainFrame(cells0, cells, head, w);
  }

  /** Reference k of the whole is reference r of the history, with the same target. */
  ghost predicate MeantBy(log: seq<Item>, items: seq<Item>, goal: seq<int>, k: int, r: int)
    requires 0 <= k < |items| == |goal|
  {
    && 0 <= r < |log| && log[r] == items[k]
    && Target(log, r) == if 0 <= goal[k] < |items| then items[goal[k]].c.pos else 0
  }

  ghost predicate MeantAt(log: seq<Item>, items: seq<Item>, goal: seq<int>, k: int)
    requires 0 <= k < |items| == |goal|
  {
    items[k].act.Ref() ==> exists r :: MeantBy(log, items, goal, k, r)
  }

  ghost predicate Meant(log: seq<Item>, items: seq<Item>, goal: seq<int>) {
    && |goal| == |items|
    && (forall k {:trigger MeantAt(log, items, goal, k)} :: 0 <= k < |items| ==> MeantAt(log, items, goal, k))
  }

  /** Nothing waits but references to globals. */
  ghost predicate OnlyGlobals(log: seq<Item>, lg: seq<int>, pc: seq<int>) {
    forall l {:trigger Pending(log, l)} :: InTable(lg, pc, l) && Pending(log, l) != [] ==> l.Lg? && l.i >= 10
  }

  lemma InAll(prog: seq<seq<Item>>, it: Item) returns (m: int)
    requires Recorded(prog, it) && !it.act.Step?
    ensures 0 <= m < |All(prog)| && All(prog)[m] == it
  {
    var s := Sec(it.c.pos);
    var j :| 0 <= j < |prog[s]| && prog[s][j] == it;
    AllAt(prog, s, j);
    m := |Upto(prog, s)| + j;
  }

  /** The goal of one reference. */
  lemma FindGoal(al: seq<int>, cells0: map<int, int>, cells: map<int, int>, links: set<int>, prog: seq<seq<Item>>,
                 log: seq<Item>,
                 lg: seq<int>, pc: seq<int>, it: Item) returns (m: int, r: int)
    requires Inv(al, cells0, links, prog, log, lg, pc) && Marked(cells0, cells, log, |lg|) && OnlyGlobals(log, lg, pc)
    requires it in log && it.act.Ref()
    ensures 0 <= r < |log| && log[r] == it && -1 <= m < |All(prog)| && it.c.pos in cells
    ensures m == -1 ==> Target(log, r) == 0 && Of(it).Lg? && Of(it).i >= 10 && cells[it.c.pos] == -Of(it).i
    ensures m >= 0 ==> var def := All(prog)[m]; def.act.Def() && Target(log, r) == def.c.pos == cells[it.c.pos]
  {
    r :| 0 <= r < |log| && log[r] == it;
    assert Mentioned(lg, pc, log[r]) && Resolved(log, cells0, r);
    TargetPending(log, r);
    var t := TargetMeaning(log, r);
    if Target(log, r) == 0 {
      m := -1;
    } else {
      assert Recorded(prog, log[t]);
      m := InAll(prog, log[t]);
      if cells[it.c.pos] != cells0[it.c.pos] {
        var i :| 10 <= i < |lg| && it.c.pos in Pending(log, Lg(i));
        var j := PendingRef(log, Lg(i), it.c.pos);
        OneRef(log, j, r);
      }
    }
  }

  /** The goals of the first n items. */
  lemma {:induction false} FindGoals(al: seq<int>, cells0: map<int, int>, cells: map<int, int>, links: set<int>,
                                     prog: seq<seq<Item>>, log: seq<Item>,
                                     lg: seq<int>, pc: seq<int>, n: nat) returns (goal: seq<int>)
    requires Inv(al, cells0, links, prog, log, lg, pc) && Marked(cells0, cells, log, |lg|) && OnlyGlobals(log, lg, pc)
             && n <= |All(prog)|
    requires forall k {:trigger All(prog)[k]} :: 0 <= k < |All(prog)| ==> All(prog)[k] in log
    ensures |goal| == n
    ensures forall k {:trigger goal[k]} :: 0 <= k < n && All(prog)[k].act.Ref() ==>
      GoalAt(cells, All(prog), log, k, goal[k])
    decreases n
  {
    hide Inv, Marked, OnlyGlobals, Upto;
    if n == 0 { return []; }
    goal := FindGoals(al, cells0, cells, links, prog, log, lg, pc, n - 1);
    var it, m := All(prog)[n - 1], -1;
    if it.act.Ref() {
      var r;
      m, r := FindGoal(al, cells0, cells, links, prog, log, lg, pc, it);
      assert Met(cells, All(prog), log, n - 1, m, r);
    }
    goal := goal + [m];
  }

  ghost predicate Met(cells: map<int, int>, items: seq<Item>, log: seq<Item>, k: int, m: int, r: int)
    requires 0 <= k < |items|
  {
    var it := items[k];
    && 0 <= r < |log| && log[r] == it && -1 <= m < |items| && it.c.pos in cells
    && (m == -1 ==> Target(log, r) == 0 && Of(it).Lg? && Of(it).i >= 10 && cells[it.c.pos] == -Of(it).i)
    && (m >= 0 ==> items[m].act.Def() && Target(log, r) == items[m].c.pos == cells[it.c.pos])
  }

  ghost predicate GoalAt(cells: map<int, int>, items: seq<Item>, log: seq<Item>, k: int, m: int)
    requires 0 <= k < |items|
  {
    exists r :: Met(cells, items, log, k, m, r)
  }

  lemma AllIn(al: seq<int>, cells: map<int, int>, links: set<int>, prog: seq<seq<Item>>, log: seq<Item>, lg: seq<int>,
              pc: seq<int>)
    requires Inv(al, cells, links, prog, log, lg, pc)
    ensures forall k {:trigger All(prog)[k]} :: 0 <= k < |All(prog)| ==>
      All(prog)[k] in log && Held(cells, links, All(prog)[k])
  {
    forall k {:trigger All(prog)[k]} | 0 <= k < |All(prog)|
      ensures All(prog)[k] in log && Held(cells, links, All(prog)[k])
    {
      var s, j := Locate(prog, |prog|, k);
      assert All(prog)[k] in prog[s] && Filled(al, cells, links, prog[s], s);
    }
  }

  /** After the globals have been marked, pass 2 can start. */
  lemma StartPass(al: seq<int>, cells0: map<int, int>, cells: map<int, int>, links: set<int>, prog: seq<seq<Item>>,
                  log: seq<Item>,
                  lg: seq<int>, pc: seq<int>) returns (goal: seq<int>)
    requires Inv(al, cells0, links, prog, log, lg, pc) && Marked(cells0, cells, log, |lg|) && OnlyGlobals(log, lg, pc)
    ensures Passed(cells, All(prog), goal, [], [0]) && Aimed(All(prog), goal) && Meant(log, All(prog), goal)
  {
    var items := All(prog);
    AllIn(al, cells0, links, prog, log, lg, pc);
    goal := FindGoals(al, cells0, cells, links, prog, log, lg, pc, |items|);
    forall k {:trigger Leads(cells, items, goal, k)} | 0 <= k < |items| ensures Leads(cells, items, goal, k) {
      if items[k].act.Ref() { assert GoalAt(cells, items, log, k, goal[k]); }
    }
    forall k {:trigger Shows(cells, items, [], [0], k)} | 0 <= k < |items| ensures Shows(cells, items, [], [0], k) {
      assert Held(cells0, links, items[k]);
      MarkKeeps(al, cells0, cells, links, prog, log, lg, pc, items[k]);
    }
    MeantAll(cells, items, log, goal);
  }

  lemma MeantAll(cells: map<int, int>, items: seq<Item>, log: seq<Item>, goal: seq<int>)
    requires |goal| == |items| && forall k {:trigger goal[k]} :: 0 <= k < |items| && items[k].act.Ref() ==>
      GoalAt(cells, items, log, k, goal[k])
    ensures Aimed(items, goal) && Meant(log, items, goal)
  {
    forall k {:trigger MeantAt(log, items, goal, k)} | 0 <= k < |items| ensures MeantAt(log, items, goal, k) {
      if items[k].act.Ref() {
        var r :| Met(cells, items, log, k, goal[k], r);
        assert MeantBy(log, items, goal, k, r);
      }
    }
  }

  /** Marking globals touches no cell but links. */
  lemma MarkKeeps(al: seq<int>, cells0: map<int, int>, cells: map<int, int>, links: set<int>, prog: seq<seq<Item>>,
                  log: seq<Item>,
                  lg: seq<int>, pc: seq<int>, it: Item)
    requires Inv(al, cells0, links, prog, log, lg, pc) && Marked(cells0, cells, log, |lg|) && Held(cells0, links, it)
    ensures Held(cells, links, it)
  {
    forall q {:trigger cells[q]} | q in cells0 && q !in links ensures q in cells && cells[q] == cells0[q] {
      if cells[q] != cells0[q] {
        var i :| 10 <= i < |lg| && q in Pending(log, Lg(i));
        PendingLinks(cells0, links, log, lg, pc, Lg(i));
      }
    }
  }

  // After pass 2.

  /** What the history and the sections say of each other, whatever the cells hold. */
  ghost predicate Chronicle(prog: seq<seq<Item>>, log: seq<Item>, lg: seq<int>, pc: seq<int>) {
    && Told(prog, log) && Apart(log) && (forall i {:trigger log[i]} :: 0 <= i < |log| ==> Mentioned(lg, pc, log[i]))
  }

  ghost predicate NoDef(items: seq<Item>, l: Label) {
    forall m {:trigger items[m]} :: 0 <= m < |items| ==> !Defines(items[m], l)
  }

  /** A global whose references were marked has no definition in the whole program. */
  lemma Foreign(cells: map<int, int>, prog: seq<seq<Item>>, log: seq<Item>, lg: seq<int>, pc: seq<int>,
                goal: seq<int>, k: int)
    requires Chronicle(prog, log, lg, pc) && Meant(log, All(prog), goal) && 0 <= k < |All(prog)|
    requires All(prog)[k].act.Ref() && goal[k] == -1 && Leads(cells, All(prog), goal, k)
    ensures var l := Of(All(prog)[k]); l.Lg? && 10 <= l.i < |lg| && NoDef(All(prog), l)
  {
    var items, l := All(prog), Of(All(prog)[k]);
    assert MeantAt(log, items, goal, k);
    var r :| MeantBy(log, items, goal, k, r);
    assert Mentioned(lg, pc, log[r]);
    var m := TargetMeaning(log, r);
    NeverDefined(log, lg, pc, r);
    forall m {:trigger items[m]} | 0 <= m < |items| ensures !Defines(items[m], l) {
      var s, j := Locate(prog, |prog|, m);
      assert items[m] in prog[s];
      var i :| 0 <= i < |log| && log[i] == items[m];
    }
  }

  lemma NeverDefined(log: seq<Item>, lg: seq<int>, pc: seq<int>, r: nat)
    requires r < |log| && Apart(log) && log[r].act.Ref() && !Local(Of(log[r])) && Target(log, r) == 0
    requires forall i {:trigger log[i]} :: 0 <= i < |log| ==> Mentioned(lg, pc, log[i])
    ensures Undefined(log, Of(log[r]), 0, |log|)
  {
    var l, front := Of(log[r]), log[..r];
    assert Mentioned(lg, pc, log[r]);
    var m := TargetMeaning(log, r);
    assert Apart(front);
    var n := LatestMeaning(front, l);
    if Latest(front, l) != 0 {
      forall i {:trigger front[i]} | 0 <= i < |front| && Forward(front[i])
        ensures Local(Of(front[i]))
      {
        assert front[i] == log[i];
      }
      DefinedStays(front, l);
    }
    forall k {:trigger log[k]} | 0 <= k < |log| ensures !Defines(log[k], l) {
      assert k < r ==> front[k] == log[k];
    }
  }

  /** A global's address once the first n items are encoded: that of its last definition, if there is one. */
  function Global(was: int, items: seq<Item>, at: seq<int>, base: int, n: int, idx: int): int
    requires n <= |items| <= |at|
  {
    if n <= 0 then was else if Defines(items[n - 1], Lg(idx)) then base + at[n - 1]
    else Global(was, items, at, base, n - 1, idx)
  }

  lemma {:induction false} GlobalKept(was: int, items: seq<Item>, at: seq<int>, base: int, n: int, idx: int)
    requires n <= |items| <= |at| && NoDef(items, Lg(idx))
    ensures Global(was, items, at, base, n, idx) == was
    decreases n
  {
    if n > 0 { GlobalKept(was, items, at, base, n - 1, idx); }
  }
}
