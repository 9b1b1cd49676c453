/** The walk of passes 2 and 3 over the sections. */
module DasmLink {
  import opened DasmActions
  import opened DasmLabels
  import opened DasmLayout
  import opened DasmPasses

  /** Where the walk of a section stands before its item j. */
  function CursorAt(al: seq<int>, list: seq<Item>, s: int, j: int): Cursor {
    if 0 < j <= |list| then After(al, list[j - 1]) else Begin(s)
  }

  /** What the walk meets before item j of section s. */
  lemma WalkReads(al: seq<int>, prog: seq<seq<Item>>, pos: seq<int>, ofs: seq<int>, s: int, j: int)
    requires Closed(al, prog, pos, ofs) && 0 <= s < |prog| && 0 <= j <= |prog[s]|
    ensures var c, n := CursorAt(al, prog[s], s, j), |Upto(prog, s)| + j;
            if j == |prog[s]| then c == Cursor(-1, pos[s], ofs[s], 0, []) else
              && prog[s][j].c == c && Genuine(al, prog[s][j]) && n < |All(prog)| && All(prog)[n] == prog[s][j]
              && Sec(c.pos) == s && (c.p == -1 ==> c.pos < pos[s])
              && CursorAt(al, prog[s], s, j + 1) == After(al, prog[s][j])
    ensures CursorAt(al, prog[s], s, j).p == -1 ==>
      CursorAt(al, prog[s], s, j).op == 0 && CursorAt(al, prog[s], s, j).lead == []
  {
    WalkAt(al, prog, pos, ofs, s, j);
    if j < |prog[s]| {
      AllAt(prog, s, j);
      ItemSec(al, prog, pos, ofs, s, j);
      if prog[s][j].c.p == -1 { StartCell(al, prog[s][j]); }
    }
    NextAt(al, prog[s], s, j);
    hide Closed, After, CursorAt, Genuine, Cells, Upto, All, Sec;
    if 0 < j { AfterLast(al, prog[s][j - 1]); }
  }

  lemma NextAt(al: seq<int>, list: seq<Item>, s: int, j: int)
    requires 0 <= j <= |list|
    ensures j < |list| ==> CursorAt(al, list, s, j + 1) == After(al, list[j])
    ensures 0 < j ==> CursorAt(al, list, s, j) == After(al, list[j - 1])
    ensures j == 0 ==> CursorAt(al, list, s, j).op == 0 && CursorAt(al, list, s, j).lead == []
  {
    hide After;
  }

  lemma StartCell(al: seq<int>, it: Item)
    requires Genuine(al, it) && it.c.p == -1
    ensures Cells(it.act) >= 1
  {
  }

  lemma WalkAt(al: seq<int>, prog: seq<seq<Item>>, pos: seq<int>, ofs: seq<int>, s: int, j: int)
    requires Closed(al, prog, pos, ofs) && 0 <= s < |prog| && 0 <= j <= |prog[s]|
    ensures CursorAt(al, prog[s], s, j) == if j == |prog[s]| then Cursor(-1, pos[s], ofs[s], 0, []) else prog[s][j].c
    ensures 0 < j ==> Genuine(al, prog[s][j - 1])
  {
    hide After, Genuine, Cells;
    assert Finished(al, prog[s], s, pos[s], ofs[s]);
    if 0 < j {
      ItemSec(al, prog, pos, ofs, s, j - 1);
      if j < |prog[s]| { assert Follows(al, prog[s], j); }
    }
  }

  lemma AfterLast(al: seq<int>, it: Item)
    requires Genuine(al, it)
    ensures After(al, it).p == -1 ==> it.act.Last() && After(al, it).op == 0 && After(al, it).lead == []
  {
  }

  /** A genuine item's action as the walk decodes it. */
  lemma ActReads(al: seq<int>, it: Item)
    requires Genuine(al, it) && it.c.p != -1
    ensures Known(al, it.c.p) && it.act == Fetch(al, it.c.p) && !it.act.Start? && !it.act.Step?
    ensures After(al, it).p == (if it.act.Last() then -1 else it.c.p + Width(al, it.c.p)) && it.c.p < |al|
    ensures After(al, it).pos == it.c.pos + Cells(it.act) && After(al, it).est == it.c.est + Max(it)
    ensures After(al, it).op == if it.act.Plain() then it.act.b else if it.act.Last() then 0 else it.c.op
  {
  }

  /** What pass 2 knows of the program and never changes. */
  ghost predicate Plan(al: seq<int>, prog: seq<seq<Item>>, pos: seq<int>, ofs: seq<int>, log: seq<Item>,
                       goal: seq<int>) {
    && Closed(al, prog, pos, ofs) && AllGenuine(al, All(prog)) && Ordered(All(prog)) && Estimated(All(prog), ofs)
    && Aimed(All(prog), goal) && Meant(log, All(prog), goal)
  }

  lemma PlanHolds(al: seq<int>, prog: seq<seq<Item>>, pos: seq<int>, ofs: seq<int>, log: seq<Item>, goal: seq<int>)
    requires Closed(al, prog, pos, ofs) && Aimed(All(prog), goal) && Meant(log, All(prog), goal)
    ensures Plan(al, prog, pos, ofs, log, goal)
  {
    AllOrdered(al, prog, pos, ofs);
    AllEstimated(al, prog, pos, ofs);
    forall k {:trigger All(prog)[k]} | 0 <= k < |All(prog)| ensures Genuine(al, All(prog)[k]) {
      var s, j := Locate(prog, |prog|, k);
      ItemSec(al, prog, pos, ofs, s, j);
    }
  }

  /** Pass 2 stands before item j of section s, with acc added to the section's estimates. */
  ghost predicate Linking(al: seq<int>, cells: map<int, int>, prog: seq<seq<Item>>, ofs: seq<int>, goal: seq<int>,
                          d: seq<int>, at: seq<int>,
                          s: int, j: int, acc: int) {
    && Shrunk(All(prog), ofs, goal, d, at) && Passed(cells, All(prog), goal, d, at)
    && 0 <= s <= |prog| && 0 <= j && (if s == |prog| then j == 0 else j <= |prog[s]|)
    && |d| == |Upto(prog, s)| + j
    && at[|d|] == acc + if s == |prog| then 0 else CursorAt(al, prog[s], s, j).est
  }

  /** The change of acc at an item. */
  function Shift(it: Item, save: int, acc: int): int {
    if it.act.Align? && it.act.mask >= 0 then acc - (it.c.est + it.act.mask + acc) % (it.act.mask + 1)
    else if it.act.Rel() then acc - save
    else acc
  }

  lemma LinkStep(al: seq<int>, cells: map<int, int>, prog: seq<seq<Item>>, pos: seq<int>, ofs: seq<int>,
                 log: seq<Item>, goal: seq<int>,
                 d: seq<int>, at: seq<int>, s: int, j: int, acc: int, save: int)
    requires Plan(al, prog, pos, ofs, log, goal) && Linking(al, cells, prog, ofs, goal, d, at, s, j, acc)
             && s < |prog| && j < |prog[s]|
    requires |d| < |All(prog)| && save == Choice(All(prog), ofs, goal, at, |d|)
    ensures var it, n := prog[s][j], |d|;
            Linking(al, Fix(cells, it, save, at[n]), prog, ofs, goal, d + [save],
                    at + [at[n] + Size(it, save, at[n])], s, j + 1, Shift(it, save, acc))
  {
    hide Closed, AllGenuine, Estimated, Meant, Passed, Aimed, Ordered, Choice, Shrunk, Upto;
    WalkReads(al, prog, pos, ofs, s, j);
    var it, n := prog[s][j], |d|;
    ShrunkIsLaid(All(prog), ofs, goal, d, at);
    PassMore(cells, All(prog), goal, d, at, save, at[n] + Size(it, save, at[n]));
    ShrunkMore(All(prog), ofs, goal, d, at, save);
    ShiftFits(al, it, save, acc, at[n]);
  }

  lemma ShrunkIsLaid(items: seq<Item>, ofs: seq<int>, goal: seq<int>, d: seq<int>, at: seq<int>)
    requires Shrunk(items, ofs, goal, d, at)
    ensures |at| == |d| + 1 && |goal| == |items| && |d| <= |items|
  {
  }

  lemma ShiftFits(al: seq<int>, it: Item, save: int, acc: int, at: int)
    requires Genuine(al, it) && at == it.c.est + acc
    ensures After(al, it).est + Shift(it, save, acc) == at + Size(it, save, at)
  {
    GenuineMax(al, it);
    if it.act.Align? { AlignUp(at, it.act.mask); }
  }

  lemma NextSection(al: seq<int>, cells: map<int, int>, prog: seq<seq<Item>>, pos: seq<int>, ofs: seq<int>,
                    goal: seq<int>,
                    d: seq<int>, at: seq<int>, s: int, acc: int)
    requires Closed(al, prog, pos, ofs) && 0 <= s < |prog|
             && Linking(al, cells, prog, ofs, goal, d, at, s, |prog[s]|, acc)
    ensures Linking(al, cells, prog, ofs, goal, d, at, s + 1, 0, acc + ofs[s])
  {
    hide Shrunk, Passed;
    WalkReads(al, prog, pos, ofs, s, |prog[s]|);
  }

  /** The decision about a branch, from what the buffers hold. */
  ghost predicate Reads(items: seq<Item>, ofs: seq<int>, cells: map<int, int>, n: int, s: int, acc: int, save: int,
                        choice: int)
    requires 0 <= n < |items|
  {
    var q := items[n].c.pos;
    && q in cells && q + 1 in cells
    && (cells[q] < 0 ==> choice == 0)
    && (cells[q] >= 0 ==>
          && cells[q] in cells && 0 <= Sec(cells[q]) < |ofs| && 0 <= s <= |ofs|
          && (cells[q] > q ==> s <= Sec(cells[q]))
          && var lofs := cells[cells[q]] - cells[q + 1] + if cells[q] > q then Sum(ofs, Sec(cells[q])) - Sum(ofs, s)
              else -acc;
          choice == if -128 - save <= lofs <= 127 then save else 0)
  }

  lemma ChoiceReads(al: seq<int>, cells: map<int, int>, prog: seq<seq<Item>>, pos: seq<int>, ofs: seq<int>,
                    log: seq<Item>, goal: seq<int>,
                    d: seq<int>, at: seq<int>, s: int, j: int, acc: int)
    requires Plan(al, prog, pos, ofs, log, goal) && Linking(al, cells, prog, ofs, goal, d, at, s, j, acc)
             && s < |prog| && j < |prog[s]|
    requires prog[s][j].act.Rel() && |d| < |All(prog)|
    ensures All(prog)[|d|] == prog[s][j]
    ensures Reads(All(prog), ofs, cells, |d|, s, acc, Saves(prog[s][j].c.op), Choice(All(prog), ofs, goal, at, |d|))
  {
    hide Estimated, Meant, Shrunk, AllGenuine, Upto, Linked;
    var items, n := All(prog), |d|;
    WalkReads(al, prog, pos, ofs, s, j);
    ShrunkIsLaid(items, ofs, goal, d, at);
    assert Leads(cells, items, goal, n) && Shows(cells, items, d, at, n);
    var m := goal[n];
    if m >= 0 {
      assert Shows(cells, items, d, at, m);
      Apart2(items, m, n);
      GoalSection(al, prog, pos, ofs, m, n, s);
    }
  }

  lemma GoalSection(al: seq<int>, prog: seq<seq<Item>>, pos: seq<int>, ofs: seq<int>, m: int, n: int, s: int)
    requires Closed(al, prog, pos, ofs) && 0 <= m < |All(prog)| && 0 <= n < |All(prog)|
             && Sec(All(prog)[n].c.pos) == s && 0 <= s < |prog|
    ensures 0 <= Sec(All(prog)[m].c.pos) < |ofs| && All(prog)[m].c.pos >= 0
    ensures All(prog)[m].c.pos > All(prog)[n].c.pos ==> s <= Sec(All(prog)[m].c.pos)
  {
    var t, b := Locate(prog, |prog|, m);
    ItemSec(al, prog, pos, ofs, t, b);
  }
}
