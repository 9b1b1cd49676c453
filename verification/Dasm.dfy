/** The x86 encoding engine: pass 1 collects, pass 2 links and shrinks, pass 3 encodes. */
module Dasm {
  import opened DasmActions
  import opened DasmLabels
  import opened DasmChains
  import opened DasmLayout
  import opened DasmState
  import opened DasmPasses
  import opened DasmLink
  import opened DasmCode

  datatype Status =
    | Ok | Phase
    | RangeI(at: int) | RangeSec(at: int) | RangeLg(at: int) | RangePc(at: int)
    | MatchSec(sec: int) | UndefL(i: int) | UndefPc(i: int)

  class Encoder {
    const al: seq<int>
    var lg: seq<int>
    var pc: seq<int>
    var globals: seq<int>
    var cells: map<int, int>
    var pos: seq<int>
    var ofs: seq<int>
    var section: int
    var status: Status
    var codesize: int
    ghost var links: set<int>
    ghost var prog: seq<seq<Item>>
    ghost var log: seq<Item>
    ghost var goal: seq<int>
    ghost var d: seq<int>
    ghost var at: seq<int>

    ghost predicate Intact()
      reads this
    {
      Inv(al, cells, links, prog, log, lg, pc) && |globals| + 10 == |lg| && 0 <= section < |prog| == |pos| == |ofs|
    }

    /** Between puts. */
    ghost predicate Ready()
      reads this
    {
      Intact() && status == Ok && Closed(al, prog, pos, ofs)
    }

    /** Within a put to section s that has come to c. */
    ghost predicate At(s: int, c: Cursor)
      reads this
    {
      Intact() && 0 <= s < |prog| && End(al, prog[s], s) == c
    }

    /** One item has been added to section s. */
    twostate predicate Added(s: int, it: Item)
      reads this
    {
      && old(0 <= s < |prog|) && prog == old(prog)[s := old(prog)[s] + [it]] && log == old(log) + [it]
      && |lg| == old(|lg|) && |pc| == old(|pc|)
    }

    /** An encoder with maxsection empty sections, maxgl globals and maxpc PC labels. */
    constructor (actionlist: seq<int>, maxsection: nat, maxgl: nat, maxpc: nat)
      requires maxsection > 0
      ensures Ready() && al == actionlist && section == 0 && log == []
      ensures |prog| == maxsection && |lg| == 10 + maxgl && |pc| == maxpc && |globals| == maxgl
    {
      al := actionlist;
      lg, pc, globals := seq(10 + maxgl, _ => 0), seq(maxpc, _ => 0), seq(maxgl, _ => 0);
      cells, links := map[], {};
      pos, ofs := seq(maxsection, (s: int) => s * BIAS), seq(maxsection, _ => 0);
      section, status, codesize := 0, Ok, 0;
      prog, log := seq(maxsection, _ => []), [];
      goal, d, at := [], [], [];
      new;
      EmptyInv(al, prog, lg, pc, pos, ofs);
    }

    /** Makes room for maxpc PC labels. */
    method GrowPc(maxpc: nat)
      requires Ready()
      modifies this`pc
      ensures Ready() && |pc| == (if maxpc > |old(pc)| then maxpc else |old(pc)|) && pc[..|old(pc)|] == old(pc)
    {
      hide Inv, Closed;
      ghost var before := pc;
      if maxpc > |pc| {
        pc := pc + seq(maxpc - |pc|, _ => 0);
        MorePc(al, cells, links, prog, log, lg, before, pc);
      }
    }

    /** Between isolated steps no local label may be pending; the next step starts without local labels. */
    method CheckStep(secmatch: int) returns (st: Status)
      requires status == Ok ==> Ready()
      modifies this`lg, this`status, this`log
      ensures st == status && (old(status) != Ok ==> status == old(status))
      ensures var clean := forall i {:trigger Lg(i)} :: 1 <= i <= 9 ==> Pending(old(log), Lg(i)) == [];
              old(status) == Ok ==> (status == Ok <==> clean && (secmatch < 0 || section == secmatch))
      ensures status == Ok ==>
        Ready() && log == old(log) + [Item(Begin(0), Step, 0)] && forall i :: 1 <= i <= 9 ==> lg[i] == 0
    {
      hide Inv, Closed;
      if status != Ok { return status; }
      ghost var lg0 := lg;
      LocalsRead(al, cells, links, prog, log, lg, pc);
      var i := 1;
      while i <= 9
        invariant 1 <= i <= 10 && |lg| == |lg0| && status == Ok && log == old(log)
        invariant forall k {:trigger lg[k]} {:trigger lg0[k]} :: 0 <= k < |lg| ==>
          if 1 <= k < i then lg0[k] <= 0 && lg[k] == 0 else lg[k] == lg0[k]
      {
        if lg[i] > 0 {
          status := UndefL(i);
          assert Pending(log, Lg(i)) != [];
          return status;
        }
        lg := lg[i := 0];
        i := i + 1;
      }
      if secmatch >= 0 && section != secmatch { status := MatchSec(section); }
      StepInv(al, cells, links, prog, log, lg0, lg, pc);
      log := log + [Item(Begin(0), Step, 0)];
      return status;
    }

    // Pass 1.

    /** A cell with a value that the later passes read again. */
    method PutCell(s: int, ghost it: Item, q: int, value: int)
      requires At(s, it.c) && Open(al, prog, s, it) && q == it.c.pos
      requires (it.act.Value() && value == it.arg) || (it.act.Align? && value == it.c.est + it.act.mask)
      modifies this`cells, this`prog, this`log
      ensures At(s, After(al, it)) && Added(s, it)
    {
      hide Inv, Open;
      ghost var before := cells;
      cells := cells[q := value];
      FixedJoins(al, before, links, prog, log, lg, pc, s, it, cells);
      prog, log := With(prog, s, it), log + [it];
    }

    /** An item without a cell. */
    ghost method PutNone(s: int, it: Item)
      requires At(s, it.c) && Open(al, prog, s, it) && Cells(it.act) == 0
      modifies this`prog, this`log
      ensures At(s, After(al, it)) && Added(s, it)
    {
      hide Inv, Open;
      FixedJoins(al, cells, links, prog, log, lg, pc, s, it, cells);
      prog, log := With(prog, s, it), log + [it];
    }

    /** A reference: the position of the label if it is visible, or else a new head of the label's chain. */
    method PutRef(s: int, ghost it: Item, q: int, est: int, l: Label, forward: bool, rel: bool)
      requires At(s, it.c) && Open(al, prog, s, it) && q == it.c.pos && est == it.c.est
      requires it.act.Ref() && l == Of(it) && Mentioned(lg, pc, it) && forward == Forward(it) && rel == it.act.Rel()
      modifies this`cells, this`prog, this`log, this`links, this`lg, this`pc
      ensures At(s, After(al, it)) && Added(s, it)
    {
      hide Inv, Open, Forward, Of;
      ghost var before := cells;
      var n := Table(lg, pc, l);
      cells := cells[q := RefCell(forward, n)];
      if rel { cells := cells[q + 1 := est + 4]; }
      RefJoins(al, before, links, prog, log, lg, pc, s, it, cells);
      if forward || n >= 0 {
        lg, pc := SetLg(lg, l, q), SetPc(pc, l, q);
      }
      prog, log, links := With(prog, s, it), log + [it], LinksWith(links, it);
    }

    /** All cells of the chain from n take the value v. */
    method Collapse(n: int, v: int, ghost w: seq<int>)
      requires Chained(cells, n, w) && Distinct(w) && (forall q {:trigger q in w} :: q in w ==> q > 0)
      modifies this`cells
      ensures cells == Overwrite(old(cells), w, v)
    {
      var m := n;
      ghost var i := 0;
      assert w[..0] == [];
      while m > 0
        invariant 0 <= i <= |w| && Chained(cells, m, w[i..]) && cells == Overwrite(old(cells), w[..i], v)
        decreases |w| - i
      {
        assert w[i..][1..] == w[i + 1..] && w[i] == m && w[..i + 1] == w[..i] + [w[i]];
        var next := cells[m];
        ghost var before := cells;
        cells := cells[m := v];
        forall q {:trigger q in w[i + 1..]} | q in w[i + 1..] && q in before
          ensures q in cells && cells[q] == before[q]
        {
          var j :| i + 1 <= j < |w| && w[j] == q;
          assert w[i] != w[j];
        }
        ChainFrame(before, cells, next, w[i + 1..]);
        m, i := next, i + 1;
      }
      ChainEnds(cells, m, w, i);
    }

    /** A definition: the pending references learn its position. */
    method PutLabel(s: int, ghost it: Item, q: int, est: int, l: Label)
      requires At(s, it.c) && Open(al, prog, s, it) && q == it.c.pos && est == it.c.est
      requires it.act.Def() && l == Of(it) && Mentioned(lg, pc, it)
      modifies this`cells, this`prog, this`log, this`lg, this`pc
      ensures At(s, After(al, it)) && Added(s, it)
    {
      hide Inv, Open;
      ghost var before := cells;
      var n := Table(lg, pc, l);
      TableReads(al, cells, links, prog, log, lg, pc, l);
      if n > 0 { Collapse(n, q, Pending(log, l)); }
      cells := cells[q := est];
      DefJoins(al, before, links, prog, log, lg, pc, s, it, cells);
      lg, pc := SetLg(lg, l, -q), SetPc(pc, l, -q);
      prog, log := With(prog, s, it), log + [it];
    }

    /** The check of one action whose code is at p. */
    method Check(act: Act, arg: int, p: int, ghost it: Item) returns (st: Status)
      requires Intact() && it.act == act && it.arg == arg && Numbered(act)
      ensures st == Ok <==> Passes(log, it, |lg|, |pc|, |prog|)
    {
      hide Inv;
      TableReads(al, cells, links, prog, log, lg, pc, Of(it));
      st := Ok;
      if act.ImmS? && !Small(arg) { return RangeI(p); }
      if act.ImmB? && !(0 <= arg < 256) { return RangeI(p); }
      if act.ImmW? && !(0 <= arg < 65536) { return RangeI(p); }
      if act.ImmWB? && !Small(arg) && !(0 <= arg < 65536) { return RangeI(p); }
      if (act.RelLg? || act.ImmLg?) && act.n <= 246 {
        if (act.n < 10 && lg[act.n] >= 0) || act.n >= |lg| { return RangeLg(p + 1); }
      }
      if act.LabelLg? && act.n >= |lg| { return RangeLg(p + 1); }
      if (act.RelPc? || act.ImmPc? || act.LabelPc?) && !(0 <= arg < |pc|) { return RangePc(p); }
      if act.Section? && act.n >= |ofs| { return RangeSec(p); }
    }

    /** Stores the cells of an action that has passed its check. */
    method Store(s: int, ghost it: Item, act: Act, arg: int, q: int, est: int)
      requires At(s, it.c) && Open(al, prog, s, it) && it.act == act && it.arg == arg && q == it.c.pos
               && est == it.c.est
      requires Mentioned(lg, pc, it) && !act.Start?
      modifies this`cells, this`prog, this`log, this`links, this`lg, this`pc
      ensures At(s, After(al, it)) && Added(s, it)
    {
      hide Inv, Open;
      if act.RelLg? || act.ImmLg? {
        PutRef(s, it, q, est, Lg(if act.n > 246 then act.n - 246 else act.n), act.n > 246, act.RelLg?);
      } else if act.RelPc? || act.ImmPc? {
        PutRef(s, it, q, est, Pc(arg), false, act.RelPc?);
      } else if act.Def() {
        PutLabel(s, it, q, est, if act.LabelLg? then Lg(act.n) else Pc(arg));
      } else if act.Value() {
        PutCell(s, it, q, arg);
      } else if act.Align? {
        PutCell(s, it, q, est + act.mask);
      } else {
        PutNone(s, it);
      }
    }

    /** One action: its check, its cells, and for a section action the section of the next put. */
    method PutAction(s: int, act: Act, arg: int, p: int, q: int, est: int, ghost c: Cursor,
                     ghost args: seq<int>) returns (ok: bool)
      requires At(s, c) && DasmActions.Sound(al, c, args, (s + 1) * BIAS - 1) && status == Ok && q == c.pos
               && est == c.est
      requires act == Fetch(al, c.p) && arg == Next(al, c, args).arg
      modifies this`cells, this`prog, this`log, this`links, this`lg, this`pc, this`status, this`section
      ensures ok == (status == Ok) == Passes(old(log), Next(al, c, args), |old(lg)|, |old(pc)|, |old(prog)|)
      ensures ok ==> var it := Next(al, c, args);
                     At(s, After(al, it)) && Added(s, it) && section == if act.Section? then act.n else old(section)
    {
      hide Inv, Passes, Open, Mentioned, Fetch, After, Proper;
      ghost var it := Next(al, c, args);
      ItemOpens(al, prog, s, c, args, (s + 1) * BIAS - 1);
      status := Check(act, arg, p, it);
      if status != Ok { return false; }
      PassMentioned(log, it, lg, pc, |prog|);
      Store(s, it, act, arg, q, est);
      if act.Section? {
        section := act.n;
      }
      ok := true;
    }

    /** Adds one run of the action list to the active section; fails exactly when a check does. */
    method Put(start: int, args: seq<int>)
      requires Ready()
      requires DasmActions.Sound(al, After(al, Head(pos[section], ofs[section], start)), args, (section + 1) * BIAS - 1)
      modifies this
      ensures var s := old(section);
              var head := Head(old(pos)[s], old(ofs)[s], start);
              var chunk := Chunk(al, After(al, head), args, (s + 1) * BIAS - 1);
              && (status == Ok <==> AllPass(old(log) + [head], chunk, |old(lg)|, |old(pc)|, |old(prog)|))
              && (status == Ok ==>
                  Ready() && log == old(log) + ([head] + chunk)
                      && prog == old(prog)[s := old(prog)[s] + ([head] + chunk)])
              && (status == Ok ==> section == var last := chunk[|chunk| - 1].act; if last.Section? then last.n else s)
    {
      hide Inv, AllPass, Passes, Open, Closed, With, After, Next, Fetch, Chunk, DasmActions.Sound;
      var s, p, q, est := section, start, pos[section], ofs[section];
      ghost var limit, head := (s + 1) * BIAS - 1, Head(q, est, start);
      ghost var c, done := After(al, head), [head];
      ghost var chunk, todo := Chunk(al, c, args, limit), Chunk(al, c, args, limit);
      HeadOpens(al, prog, pos, ofs, s, start, args);
      PutCell(s, head, q, start);
      q := q + 1;
      var rest, last := args, false;
      while !last
        invariant At(s, c) && status == Ok && 0 <= s < |old(prog)|
        invariant if last then c == Cursor(-1, q, est, 0, []) && todo == [] else
                    DasmActions.Sound(al, c, rest, limit) && p == c.p && q == c.pos && est == c.est
                        && todo == Chunk(al, c, rest, limit)
        invariant pos == old(pos) && ofs == old(ofs) && |lg| == |old(lg)| && |pc| == |old(pc)|
        invariant done + todo == [head] + chunk && log == old(log) + done && prog == Grew(old(prog), s, done)
        invariant section == if last && done[|done| - 1].act.Section? then done[|done| - 1].act.n else s
        invariant AllPass(log, todo, |lg|, |pc|, |prog|) == AllPass(old(log) + [head], chunk, |lg|, |pc|, |prog|)
        decreases !last, |al| - p
      {
        SoundReads(al, c, rest, limit);
        var act := Fetch(al, p);
        var arg := if act.TakesArg() then rest[0] else 0;
        PassStep(log, todo, |lg|, |pc|, |prog|);
        var ok := PutAction(s, act, arg, p, q, est, c, rest);
        if !ok { return; }
        GrewStep(old(prog), s, done, todo[0]);
        MoveOne(done, todo, old(log));
        done, todo := done + [todo[0]], todo[1..];
        c := After(al, Next(al, c, rest));
        p, q, est, rest, last := p + Width(al, p), q + Cells(act), est + MaxOf(act, arg), Rest(act, rest), act.Last();
      }
      Closes(al, cells, links, old(prog), prog, log, lg, pc, pos, ofs, s, c);
      pos, ofs := pos[s := q], ofs[s := est];
      PassNone(log, |lg|, |pc|, |prog|);
      assert done == [head] + chunk;
    }

    // Pass 2.

    /** Marks the pending references to globals that are not defined here. */
    method MarkGlobals()
      requires Intact()
      modifies this`cells
      ensures Marked(old(cells), cells, log, |lg|)
    {
      hide Inv;
      ghost var cells0 := cells;
      InvReads(al, cells, links, prog, log, lg, pc);
      var idx := 10;
      while idx < |lg|
        invariant 10 <= idx <= |lg| && Marked(cells0, cells, log, idx)
      {
        ghost var before := cells;
        var n := lg[idx];
        TableReads(al, cells0, links, prog, log, lg, pc, Lg(idx));
        PendingIn(al, cells0, links, prog, log, lg, pc, Lg(idx));
        if n > 0 {
          StillChained(cells0, cells, log, idx, n);
          Collapse(n, -idx, Pending(log, Lg(idx)));
        } else {
          OverwriteNothing(cells, -idx);
        }
        MarkMore(cells0, before, cells, log, idx);
        idx := idx + 1;
      }
    }

    /** Whether, and by how much, the branch with these cells can be shortened. */
    method LinkRel(s: int, q: int, acc: int, op: int, ghost n: int, ghost choice: int) returns (shrink: int)
      requires 0 <= n < |All(prog)| && All(prog)[n].c.pos == q
               && Reads(All(prog), ofs, cells, n, s, acc, Saves(op), choice)
      ensures Saves(op) > 0 ==> shrink == choice
      ensures Saves(op) == 0 ==> shrink == 0
    {
      shrink := Saves(op);
      if shrink > 0 {
        var lpos := cells[q];
        if lpos < 0 { return 0; }
        var lofs := cells[lpos];
        if lpos > q {
          var i := s;
          while i < Sec(lpos)
            invariant s <= i <= Sec(lpos) && lofs == cells[lpos] + Sum(ofs, i) - Sum(ofs, s)
          {
            lofs := lofs + ofs[i];
            i := i + 1;
          }
        } else {
          lofs := lofs - acc;
        }
        lofs := lofs - cells[q + 1];
        if !(-128 - shrink <= lofs <= 127) { shrink := 0; }
      }
    }

    /** One action of section s: fixes a label, shrinks a branch or an alignment. */
    method LinkAction(s: int, ghost j: int, act: Act, q: int, acc: int, op: int) returns (acc': int)
      requires Plan(al, prog, pos, ofs, log, goal) && Linking(al, cells, prog, ofs, goal, d, at, s, j, acc)
      requires 0 <= s < |prog| && 0 <= j < |prog[s]| && prog[s][j].act == act && prog[s][j].c.pos == q
               && prog[s][j].c.op == op
      modifies this`cells, this`d, this`at
      ensures Linking(al, cells, prog, ofs, goal, d, at, s, j + 1, acc')
    {
      hide Plan, Linking, Fix, Choice, Reads;
      ActionReady(al, cells, prog, pos, ofs, log, goal, d, at, s, j, acc);
      ghost var it, save, n := prog[s][j], Choice(All(prog), ofs, goal, at, |d|), |d|;
      LinkStep(al, cells, prog, pos, ofs, log, goal, d, at, s, j, acc, save);
      acc' := acc;
      if act.Rel() {
        var shrink := LinkRel(s, q, acc, op, n, save);
        cells := cells[q + 1 := shrink];
        acc' := acc - shrink;
      } else if act.Def() {
        cells := cells[q := cells[q] + acc];
      } else if act.Align? {
        acc' := acc - (cells[q] + acc) % (act.mask + 1);
      }
      d, at := d + [save], at + [at[n] + Size(it, save, at[n])];
    }

    /** One put of section s. */
    method LinkRun(s: int, ghost j: int, q: int, acc: int) returns (ghost j': int, q': int, acc': int)
      requires Plan(al, prog, pos, ofs, log, goal) && Linking(al, cells, prog, ofs, goal, d, at, s, j, acc)
      requires 0 <= s < |prog| && 0 <= j < |prog[s]| && prog[s][j].act.Start? && prog[s][j].c.pos == q
      modifies this`cells, this`d, this`at
      ensures Linking(al, cells, prog, ofs, goal, d, at, s, j', acc') && j < j' <= |prog[s]|
      ensures CursorAt(al, prog[s], s, j').p == -1 && CursorAt(al, prog[s], s, j').pos == q'
    {
      hide Plan, Linking, After, Fetch;
      StartReads(al, cells, prog, pos, ofs, log, goal, d, at, s, j, acc);
      var p, op, last := cells[q], 0, false;
      acc' := LinkAction(s, j, Start, q, acc, 0);
      q', j' := q + 1, j + 1;
      while !last
        invariant Linking(al, cells, prog, ofs, goal, d, at, s, j', acc') && j < j' <= |prog[s]|
        invariant CursorAt(al, prog[s], s, j').pos == q' && last == (CursorAt(al, prog[s], s, j').p == -1)
        invariant !last ==> CursorAt(al, prog[s], s, j').p == p && CursorAt(al, prog[s], s, j').op == op
        decreases |prog[s]| - j'
      {
        ActionReads(al, prog, pos, ofs, log, goal, s, j');
        var act := Fetch(al, p);
        acc' := LinkAction(s, j', act, q', acc', op);
        op := if act.Plain() then act.b else op;
        p, q', last, j' := p + Width(al, p), q' + Cells(act), act.Last(), j' + 1;
      }
    }

    /** One section, from its start to the position where pass 1 ended. */
    method LinkSection(s: int, acc: int) returns (acc': int)
      requires Plan(al, prog, pos, ofs, log, goal) && Linking(al, cells, prog, ofs, goal, d, at, s, 0, acc)
               && 0 <= s < |pos|
      modifies this`cells, this`d, this`at
      ensures Linking(al, cells, prog, ofs, goal, d, at, s + 1, 0, acc' + ofs[s]) && |ofs| == |pos|
    {
      hide Plan, Linking, After;
      PlanReads(al, prog, pos, ofs, log, goal);
      var q := s * BIAS;
      ghost var j := 0;
      acc' := acc;
      RunReads(al, prog, pos, ofs, log, goal, s, j);
      while q != pos[s]
        invariant Linking(al, cells, prog, ofs, goal, d, at, s, j, acc') && 0 <= j <= |prog[s]|
        invariant CursorAt(al, prog[s], s, j).p == -1 && CursorAt(al, prog[s], s, j).pos == q
        invariant q == pos[s] <==> j == |prog[s]|
        invariant j < |prog[s]| ==> prog[s][j].act.Start? && prog[s][j].c.pos == q
        decreases |prog[s]| - j
      {
        j, q, acc' := LinkRun(s, j, q, acc');
        RunReads(al, prog, pos, ofs, log, goal, s, j);
      }
      SectionEnds(al, cells, prog, pos, ofs, log, goal, d, at, s, acc');
    }

    method LinkSections() returns (acc: int)
      requires Plan(al, prog, pos, ofs, log, goal) && Linking(al, cells, prog, ofs, goal, d, at, 0, 0, 0)
               && |pos| == |prog|
      modifies this`cells, this`d, this`at
      ensures Linking(al, cells, prog, ofs, goal, d, at, |prog|, 0, acc)
    {
      hide Plan, Linking;
      var s := 0;
      acc := 0;
      while s < |pos|
        invariant 0 <= s <= |pos| && Linking(al, cells, prog, ofs, goal, d, at, s, 0, acc)
      {
        acc := LinkSection(s, acc);
        acc := acc + ofs[s];
        s := s + 1;
      }
    }

    /** After pass 2: every label's cell holds its final offset, every branch knows its size. */
    ghost predicate Fixed()
      reads this
    {
      && Plan(al, prog, pos, ofs, log, goal) && Shrunk(All(prog), ofs, goal, d, at)
      && Passed(cells, All(prog), goal, d, at)
      && |d| == |All(prog)| && codesize == at[|d|] && Chronicle(prog, log, lg, pc) && |globals| + 10 == |lg|
      && PcNamed(log, pc)
    }

    /** The first PC label that is referred to and not defined. */
    method PendingPc() returns (i: nat)
      requires Intact()
      ensures i <= |pc| && (forall k {:trigger Pc(k)} :: 0 <= k < i ==> Pending(log, Pc(k)) == [])
      ensures i < |pc| ==> Pending(log, Pc(i)) != []
    {
      hide Inv;
      i := 0;
      while i < |pc|
        invariant 0 <= i <= |pc| && forall k {:trigger Pc(k)} :: 0 <= k < i ==> Pending(log, Pc(k)) == []
      {
        TableReads(al, cells, links, prog, log, lg, pc, Pc(i));
        if pc[i] > 0 { return; }
        i := i + 1;
      }
    }

    /** Marks the references to globals; from here on the plan of pass 2 holds. */
    method StartLink()
      requires Ready() && forall i {:trigger lg[i]} :: 0 <= i < 10 ==> lg[i] <= 0
      requires forall i {:trigger Pc(i)} :: 0 <= i < |pc| ==> Pending(log, Pc(i)) == []
      modifies this`cells, this`goal, this`d, this`at
      ensures Plan(al, prog, pos, ofs, log, goal) && Linking(al, cells, prog, ofs, goal, d, at, 0, 0, 0)
              && |pos| == |prog|
      ensures Chronicle(prog, log, lg, pc) && |globals| + 10 == |lg| && PcNamed(log, pc)
    {
      hide Inv, Closed, Plan, Linking, Marked, Chronicle, PcNamed;
      GlobalsOnly(al, cells, links, prog, log, lg, pc);
      ghost var before := cells;
      MarkGlobals();
      goal := StartPass(al, before, cells, links, prog, log, lg, pc);
      d, at := [], [0];
      PlanHolds(al, prog, pos, ofs, log, goal);
      FirstLinking(al, cells, prog, ofs, goal);
      PlanReads(al, prog, pos, ofs, log, goal);
    }

    /** Links all sections, unless a put has failed or a PC label is still undefined. */
    method Link() returns (st: Status, size: int)
      requires status == Ok ==> Ready()
      requires status == Ok ==> forall i {:trigger lg[i]} :: 0 <= i < 10 ==> lg[i] <= 0
      modifies this`cells, this`goal, this`d, this`at, this`codesize
      ensures status != Ok ==> st == status
      ensures status == Ok && st != Ok ==> st.UndefPc? && InTable(lg, pc, Pc(st.i)) && Pending(log, Pc(st.i)) != []
      ensures st == Ok ==>
        (forall i {:trigger Pc(i)} :: 0 <= i < |pc| ==> Pending(log, Pc(i)) == []) && Fixed() && size == codesize
    {
      hide Inv, Closed, Plan, Linking, Marked, Chronicle, PcNamed;
      size := 0;
      if status != Ok { return status, size; }
      var i := PendingPc();
      if i < |pc| { return UndefPc(i), size; }
      StartLink();
      var acc := LinkSections();
      AllLinked(al, cells, prog, ofs, goal, d, at, acc);
      codesize, size := acc, acc;
      return Ok, size;
    }

    // Pass 3.

    /** What pass 3 has written before item j of section s. */
    ghost predicate Encoding(out: seq<int>, base: int, was: seq<int>, s: int, j: int)
      reads this
    {
      && Fixed() && 0 <= s <= |prog| && 0 <= j && (if s == |prog| then j == 0 else j <= |prog[s]|)
      && var n := |Upto(prog, s)| + j;
         && n <= |All(prog)|
         && Written(All(prog), d, at, Targets(All(prog), goal, at, was, base), base, out, n,
                    if s < |prog| then CursorAt(al, prog[s], s, j).lead else [])
         && Globals(was, globals, All(prog), at, base, n)
    }

    /** Encodes a relative branch: rewrites the opcode of a short one. */
    method EncodeRel(out: seq<int>, op: int, shrink: int, disp: int, ghost lead: seq<int>) returns (out': seq<int>)
      requires Tail(out, lead) && (op == JMP ==> Tail(lead, [JMP])) && (Saves(op) == 4 ==> Tail(lead, [TWO_BYTE, op]))
      requires shrink == 0 || shrink == Saves(op)
      requires shrink > 0 ==> Small(disp)
      ensures var back := if Saves(op) == 4 then 2 else if Saves(op) == 3 then 1 else 0;
              back <= |out| && out' == out[..|out| - back] + Branch(op, shrink, disp)
    {
      hide LE, Branch, Tail;
      OpcodeReads(out, op, lead, disp);
      if shrink == 0 { return out + LE(disp, 4); }
      var n := |out|;
      if shrink == 4 {
        out' := out[..n - 1];
        out' := out'[n - 2 := out[n - 1] - 0x10];
      } else {
        out' := out[n - 1 := JMP_SHORT];
      }
      out' := out' + [disp % 256];
    }

    /** Encodes an immediate value; a short one may switch the opcode to its short form. */
    method EncodeValue(out: seq<int>, act: Act, arg: int, base: int, ghost it: Item) returns (out': seq<int>)
      requires it.act == act && it.arg == arg && Proper(it) && Tail(out, it.c.lead) && act.Value() && !act.Space?
               && !act.Start?
      ensures Back(it) <= |out| && out' == out[..|out| - Back(it)] + Code(it, 0, |out|, 0, base)
    {
      hide LE, Tail, Code, Pad, Copies;
      var n := |out|;
      ValueReads(out, it, base);
      if (act.ImmDB? || act.ImmWB?) && Small(arg) {
        out' := out[n - 2 := (out[n - 2] + 2) % 256] + [arg % 256];
      } else if act.ImmS? || act.ImmB? {
        out' := out + [arg % 256];
      } else if act.ImmW? || act.ImmWB? {
        out' := out + LE(arg, 2);
      } else if act.RelA? {
        out' := out + LE(arg - (base + n + 4), 4);
      } else {
        out' := out + LE(arg, 4);
      }
    }

    /** Pads with nops to a multiple of the alignment. */
    method EncodeAlign(out: seq<int>, mask: int) returns (out': seq<int>)
      requires mask >= 0
      ensures out' == out + Copies(Pad(|out|, mask), NOP)
    {
      out' := out;
      ghost var k := 0;
      AlignUp(|out|, mask);
      while |out'| % (mask + 1) != 0
        invariant 0 <= k <= Pad(|out|, mask) && out' == out + Copies(k, NOP)
        decreases Pad(|out|, mask) - k
      {
        out', k := out' + [NOP], k + 1;
      }
      if k < Pad(|out|, mask) { PadLeast(|out|, mask, k); }
    }

    /** Appends the code of one item, whose cells are as pass 2 has left them. */
    method EncodeItem(out: seq<int>, act: Act, q: int, op: int, base: int, ghost it: Item, ghost save: int,
                      ghost to: int) returns (out': seq<int>)
      requires it.act == act && it.c.pos == q && it.c.op == op && Supplied(cells, globals, it, save, |out|, to, base)
               && Tail(out, it.c.lead)
      modifies this`globals
      ensures Back(it) <= |out| && out' == out[..|out| - Back(it)] + Code(it, save, |out|, to, base)
      ensures globals == if act.LabelLg? && act.n >= 10 then old(globals)[act.n - 10 := base + |out|] else old(globals)
    {
      hide LE, Pad, Copies, Code, Branch;
      CodeReads(it, save, |out|, to, base);
      assert out[..|out|] == out && out + [] == out;
      out' := out;
      if act.Rel() {
        var lab, shrink := cells[q], cells[q + 1];
        var target := if lab >= 0 then cells[lab] else globals[-lab - 10] - base;
        out' := EncodeRel(out, op, shrink, target - (|out| + 4 - shrink), it.c.lead);
      } else if act.Addr() {
        var lab := cells[q];
        out' := out + LE(if lab >= 0 then base + cells[lab] else globals[-lab - 10], 8);
      } else if act.LabelLg? {
        if act.n >= 10 { globals := globals[act.n - 10 := base + cells[q]]; }
      } else if act.Align? {
        out' := EncodeAlign(out, act.mask);
      } else if act.Plain() {
        out' := out + [act.b];
      } else if act.Space? {
        out' := out + Copies(cells[q], act.fill);
      } else if act.Value() && !act.Start? {
        out' := EncodeValue(out, act, cells[q], base, it);
      }
    }

    /** One action of section s. */
    method EncodeAction(out: seq<int>, base: int, ghost was: seq<int>, s: int, ghost j: int, act: Act, q: int,
                        op: int) returns (out': seq<int>)
      requires Encoding(out, base, was, s, j) && 0 <= s < |prog| && 0 <= j < |prog[s]|
      requires prog[s][j].act == act && prog[s][j].c.pos == q && prog[s][j].c.op == op
      modifies this`globals
      ensures Encoding(out', base, was, s, j + 1)
    {
      hide PcNamed, Plan, Shrunk, Passed, Chronicle, Written, Globals, Targets, Supplied, Code, Back, CursorAt, All,
          Upto;
      ghost var it, n, to := prog[s][j], |Upto(prog, s)| + j, Targets(All(prog), goal, at, was, base);
      ghost var before := globals;
      EncodeReads(al, cells, prog, pos, ofs, log, lg, pc, goal, d, at, was, globals, base, out, s, j);
      out' := EncodeItem(out, act, q, op, base, it, d[n], to[n]);
      EncodeStep(al, prog, pos, ofs, log, goal, d, at, was, before, base, out, s, j);
    }

    /** One put of section s. */
    method EncodeRun(out: seq<int>, base: int, ghost was: seq<int>, s: int, ghost j: int, q: int)
      returns (out': seq<int>, ghost j': int, q': int)
      requires Encoding(out, base, was, s, j) && 0 <= s < |prog| && 0 <= j < |prog[s]| && prog[s][j].act.Start?
               && prog[s][j].c.pos == q
      modifies this`globals
      ensures Encoding(out', base, was, s, j') && j < j' <= |prog[s]|
      ensures CursorAt(al, prog[s], s, j').p == -1 && CursorAt(al, prog[s], s, j').pos == q'
    {
      hide PcNamed, Plan, Shrunk, Passed, Chronicle, Written, Globals, Targets, All, Upto, After, Fetch;
      FixedStart(al, cells, prog, pos, ofs, log, goal, d, at, s, j);
      var p, op, last := cells[q], 0, false;
      out' := EncodeAction(out, base, was, s, j, Start, q, 0);
      q', j' := q + 1, j + 1;
      while !last
        invariant Encoding(out', base, was, s, j') && j < j' <= |prog[s]|
        invariant CursorAt(al, prog[s], s, j').pos == q' && last == (CursorAt(al, prog[s], s, j').p == -1)
        invariant !last ==> CursorAt(al, prog[s], s, j').p == p && CursorAt(al, prog[s], s, j').op == op
        decreases |prog[s]| - j'
      {
        ActionReads(al, prog, pos, ofs, log, goal, s, j');
        var act := Fetch(al, p);
        out' := EncodeAction(out', base, was, s, j', act, q', op);
        op := if act.Plain() then act.b else op;
        p, q', last, j' := p + Width(al, p), q' + Cells(act), act.Last(), j' + 1;
      }
    }

    /** One section. */
    method EncodeSection(out: seq<int>, base: int, ghost was: seq<int>, s: int) returns (out': seq<int>)
      requires Encoding(out, base, was, s, 0) && 0 <= s < |pos|
      modifies this`globals
      ensures Encoding(out', base, was, s + 1, 0)
    {
      hide PcNamed, Plan, Shrunk, Passed, Chronicle, Written, Globals, Targets, All, Upto, After;
      PlanReads(al, prog, pos, ofs, log, goal);
      var q := s * BIAS;
      ghost var j := 0;
      out' := out;
      RunReads(al, prog, pos, ofs, log, goal, s, j);
      while q != pos[s]
        invariant Encoding(out', base, was, s, j) && 0 <= j <= |prog[s]|
        invariant CursorAt(al, prog[s], s, j).p == -1 && CursorAt(al, prog[s], s, j).pos == q
        invariant q == pos[s] <==> j == |prog[s]|
        invariant j < |prog[s]| ==> prog[s][j].act.Start? && prog[s][j].c.pos == q
        decreases |prog[s]| - j
      {
        out', j, q := EncodeRun(out', base, was, s, j, q);
        RunReads(al, prog, pos, ofs, log, goal, s, j);
      }
      SectionWritten(al, prog, pos, ofs, log, goal, d, at, was, globals, base, out', s);
    }

    /**
     * Writes the code for address base. Pass 3 ends exactly where pass 2 said, so the phase error is never
     * returned; every item's code stands at its position, and every global label has its address.
     */
    method Encode(base: int) returns (st: Status, out: seq<int>)
      requires Fixed()
      modifies this`globals
      ensures st == Ok && |out| == codesize && Fixed()
      ensures Written(All(prog), d, at, Targets(All(prog), goal, at, old(globals), base), base, out, |All(prog)|, [])
      ensures Globals(old(globals), globals, All(prog), at, base, |All(prog)|)
    {
      hide PcNamed, Plan, Shrunk, Passed, Chronicle;
      PlanReads(al, prog, pos, ofs, log, goal);
      ghost var was := globals;
      out := [];
      var s := 0;
      FirstWritten(al, prog, pos, ofs, log, goal, d, at, was, base);
      while s < |pos|
        invariant 0 <= s <= |pos| == |prog| && Encoding(out, base, was, s, 0)
      {
        out := EncodeSection(out, base, was, s);
        s := s + 1;
      }
      st := if codesize == |out| then Ok else Phase;
    }

    /** The offset of a PC label's latest definition, within its section's estimate before linking and final behind
        it. */
    method GetPcLabel(i: nat) returns (r: int)
      requires Intact() || Fixed()
      ensures Fixed() ==>
        r == if i < |pc| && Latest(log, Pc(i)) != 0 then OffsetOf(All(prog), at, Latest(log, Pc(i)), Pc(i)) else -2
      ensures Fixed() && i < |pc| && Latest(log, Pc(i)) != 0 ==> Labels(All(prog), Latest(log, Pc(i)), Pc(i))
      ensures Intact() ==> if i < |pc| then Answered(log, Pc(i), r) else r == -2
    {
      hide Plan, Shrunk, Passed, Chronicle, All, Inv, Answered;
      r := -2;
      if i < |pc| {
        var n := pc[i];
        if Fixed() { PcReads(al, cells, prog, pos, ofs, log, lg, pc, goal, d, at, i); }
        if Intact() { PcAnswers(al, cells, links, prog, log, lg, pc, i); }
        if n < 0 { return cells[-n]; }
        if n > 0 { return -1; }
      }
    }
  }

  /** -1 for a label that is waited for, -2 for an unknown one, else the estimate that its latest definition has. */
  ghost predicate Answered(log: seq<Item>, l: Label, r: int) {
    if Pending(log, l) != [] then r == -1
    else if Latest(log, l) == 0 then r == -2
    else exists m :: 0 <= m < |log| && Defines(log[m], l) && log[m].c.pos == Latest(log, l) && r == log[m].c.est
  }

  lemma PcAnswers(al: seq<int>, cells: map<int, int>, links: set<int>, prog: seq<seq<Item>>, log: seq<Item>,
                  lg: seq<int>, pc: seq<int>, i: nat)
    requires Inv(al, cells, links, prog, log, lg, pc) && i < |pc|
    ensures pc[i] < 0 ==> -pc[i] in cells
    ensures Answered(log, Pc(i), if pc[i] < 0 then cells[-pc[i]] else if pc[i] > 0 then -1 else -2)
  {
    var l := Pc(i);
    assert Tabled(log, cells, lg, pc, l);
    LatestPositive(log, l);
    if pc[i] < 0 {
      var m := LatestMeaning(log, l);
      assert Recorded(prog, log[m]);
      var s := Sec(log[m].c.pos);
      assert Filled(al, cells, links, prog[s], s);
      assert Held(cells, links, log[m]);
    }
  }

  /** A definition of l stands at position q. */
  ghost predicate Labels(items: seq<Item>, q: int, l: Label) {
    exists m :: LabelAt(items, q, l, m)
  }

  ghost predicate LabelAt(items: seq<Item>, q: int, l: Label, m: int) {
    0 <= m < |items| && Defines(items[m], l) && items[m].c.pos == q
  }

  /** The byte offset of that definition. */
  ghost function OffsetOf(items: seq<Item>, at: seq<int>, q: int, l: Label): int {
    if Labels(items, q, l) then var m :| LabelAt(items, q, l, m); if m < |at| then at[m] else 0 else 0
  }

  /** The table of PC labels after pass 2. */
  ghost predicate PcNamed(log: seq<Item>, pc: seq<int>) {
    forall i {:trigger pc[i]} :: 0 <= i < |pc| ==> Pending(log, Pc(i)) == [] && pc[i] == -Latest(log, Pc(i))
  }

  /** A position has one definition at most. */
  lemma OneDef(al: seq<int>, prog: seq<seq<Item>>, pos: seq<int>, ofs: seq<int>, log: seq<Item>, goal: seq<int>,
               k: int, m: int)
    requires Plan(al, prog, pos, ofs, log, goal) && 0 <= k < |All(prog)| && 0 <= m < |All(prog)|
    requires All(prog)[k].act.Def() && All(prog)[m].act.Def() && All(prog)[k].c.pos == All(prog)[m].c.pos
    ensures k == m
  {
    hide Closed, Estimated, Meant, Aimed, AllGenuine, Upto;
    Apart2(All(prog), k, m);
  }

  lemma PcReads(al: seq<int>, cells: map<int, int>, prog: seq<seq<Item>>, pos: seq<int>, ofs: seq<int>,
                log: seq<Item>, lg: seq<int>, pc: seq<int>,
                goal: seq<int>, d: seq<int>, at: seq<int>, i: nat)
    requires Plan(al, prog, pos, ofs, log, goal) && Shrunk(All(prog), ofs, goal, d, at)
             && Passed(cells, All(prog), goal, d, at) && |d| == |All(prog)|
    requires Chronicle(prog, log, lg, pc) && PcNamed(log, pc) && i < |pc|
    ensures Latest(log, Pc(i)) >= 0 && pc[i] == -Latest(log, Pc(i))
    ensures var q := Latest(log, Pc(i)); q != 0 ==>
      Labels(All(prog), q, Pc(i)) && q in cells && cells[q] == OffsetOf(All(prog), at, q, Pc(i))
  {
    hide Plan, Shrunk, Passed, Upto;
    var l, q := Pc(i), Latest(log, Pc(i));
    LatestPositive(log, l);
    if q != 0 {
      var r := LatestMeaning(log, l);
      assert Recorded(prog, log[r]);
      var m := InAll(prog, log[r]);
      assert LabelAt(All(prog), q, l, m);
      PassedReads(al, cells, prog, pos, ofs, log, goal, d, at, m);
      ShrunkIsLaid(All(prog), ofs, goal, d, at);
      forall k | LabelAt(All(prog), q, l, k) ensures k == m { OneDef(al, prog, pos, ofs, log, goal, k, m); }
    }
  }

  lemma FixedStart(al: seq<int>, cells: map<int, int>, prog: seq<seq<Item>>, pos: seq<int>, ofs: seq<int>,
                   log: seq<Item>, goal: seq<int>,
                   d: seq<int>, at: seq<int>, s: int, j: int)
    requires Plan(al, prog, pos, ofs, log, goal) && Passed(cells, All(prog), goal, d, at)
    requires 0 <= s < |prog| && 0 <= j < |prog[s]| && prog[s][j].act.Start?
    ensures prog[s][j].c.pos in cells && prog[s][j].c.op == 0
    ensures CursorAt(al, prog[s], s, j + 1) == Cursor(cells[prog[s][j].c.pos], prog[s][j].c.pos + 1, prog[s][j].c.est,
                                                      0, [])
    ensures cells[prog[s][j].c.pos] != -1
  {
    hide Closed, Estimated, Ordered, Aimed, Meant;
    WalkReads(al, prog, pos, ofs, s, j);
    assert Shows(cells, All(prog), d, at, |Upto(prog, s)| + j);
  }

  lemma FirstWritten(al: seq<int>, prog: seq<seq<Item>>, pos: seq<int>, ofs: seq<int>, log: seq<Item>, goal: seq<int>,
                     d: seq<int>, at: seq<int>, was: seq<int>, base: int)
    requires Plan(al, prog, pos, ofs, log, goal) && Shrunk(All(prog), ofs, goal, d, at) && |d| == |All(prog)|
    ensures Written(All(prog), d, at, Targets(All(prog), goal, at, was, base), base, [], 0, [])
    ensures Globals(was, was, All(prog), at, base, 0) && (|prog| > 0 ==> CursorAt(al, prog[0], 0, 0).lead == [])
  {
  }

  lemma SectionWritten(al: seq<int>, prog: seq<seq<Item>>, pos: seq<int>, ofs: seq<int>, log: seq<Item>, goal: seq<int>,
                       d: seq<int>, at: seq<int>, was: seq<int>, globals: seq<int>, base: int, out: seq<int>, s: int)
    requires Plan(al, prog, pos, ofs, log, goal) && 0 <= s < |prog|
    ensures |Upto(prog, s + 1)| == |Upto(prog, s)| + |prog[s]| <= |All(prog)|
    ensures CursorAt(al, prog[s], s, |prog[s]|).lead == []
    ensures s + 1 < |prog| ==> CursorAt(al, prog[s + 1], s + 1, 0).lead == []
  {
    hide Estimated, Ordered, Aimed, Meant, AllGenuine;
    WalkReads(al, prog, pos, ofs, s, |prog[s]|);
    UptoPrefix(prog, s + 1, |prog|);
  }

  /** What pass 3 needs before item j of section s. */
  lemma EncodeReads(al: seq<int>, cells: map<int, int>, prog: seq<seq<Item>>, pos: seq<int>, ofs: seq<int>,
                    log: seq<Item>, lg: seq<int>, pc: seq<int>,
                    goal: seq<int>, d: seq<int>, at: seq<int>, was: seq<int>, globals: seq<int>, base: int,
                        out: seq<int>, s: int, j: int)
    requires Plan(al, prog, pos, ofs, log, goal) && Shrunk(All(prog), ofs, goal, d, at)
             && Passed(cells, All(prog), goal, d, at) && |d| == |All(prog)|
    requires Chronicle(prog, log, lg, pc) && |globals| + 10 == |lg| && 0 <= s < |prog| && 0 <= j < |prog[s]|
    requires |Upto(prog, s)| + j <= |All(prog)|
    requires Written(All(prog), d, at, Targets(All(prog), goal, at, was, base), base, out, |Upto(prog, s)| + j,
                     CursorAt(al, prog[s], s, j).lead)
    requires Globals(was, globals, All(prog), at, base, |Upto(prog, s)| + j)
    ensures var n := |Upto(prog, s)| + j;
            n < |All(prog)| && All(prog)[n] == prog[s][j] && |out| == at[n] && Tail(out, prog[s][j].c.lead)
    ensures prog[s][j].act.LabelLg? ==> prog[s][j].act.n < |globals| + 10
    ensures var n := |Upto(prog, s)| + j;
            Supplied(cells, globals, prog[s][j], d[n], |out|, Targets(All(prog), goal, at, was, base)[n], base)
  {
    hide Closed, Estimated, Ordered, Meant, Stays, Plainly, Globals, Written, Passed, Shrunk, Chronicle, Targets, Upto;
    var it, n, to := prog[s][j], |Upto(prog, s)| + j, Targets(All(prog), goal, at, was, base);
    WalkReads(al, prog, pos, ofs, s, j);
    ShrunkIsLaid(All(prog), ofs, goal, d, at);
    WrittenReads(All(prog), d, at, to, base, out, n, it.c.lead);
    PassedReads(al, cells, prog, pos, ofs, log, goal, d, at, n);
    if it.act.Ref() { RefReads(al, cells, prog, pos, ofs, log, lg, pc, goal, d, at, was, globals, base, n); }
    if it.act.LabelLg? { GlobalInTable(prog, log, lg, pc, n); }
  }

  lemma WrittenReads(items: seq<Item>, d: seq<int>, at: seq<int>, to: seq<int>, base: int, out: seq<int>, n: int,
                     lead: seq<int>)
    requires 0 <= n < |items| == |d| == |to| && |at| == |d| + 1 && Written(items, d, at, to, base, out, n, lead)
    ensures |out| == at[n] && Tail(out, lead)
  {
  }

  lemma GlobalInTable(prog: seq<seq<Item>>, log: seq<Item>, lg: seq<int>, pc: seq<int>, n: int)
    requires Chronicle(prog, log, lg, pc) && 0 <= n < |All(prog)| && All(prog)[n].act.LabelLg?
    ensures 0 <= All(prog)[n].act.n < |lg|
  {
    var s, j := Locate(prog, |prog|, n);
    assert All(prog)[n] in prog[s];
    var i :| 0 <= i < |log| && log[i] == All(prog)[n];
    assert Mentioned(lg, pc, log[i]);
  }

  /** The cells of item n after pass 2. */
  lemma PassedReads(al: seq<int>, cells: map<int, int>, prog: seq<seq<Item>>, pos: seq<int>, ofs: seq<int>,
                    log: seq<Item>, goal: seq<int>,
                    d: seq<int>, at: seq<int>, n: int)
    requires Plan(al, prog, pos, ofs, log, goal) && Shrunk(All(prog), ofs, goal, d, at)
             && Passed(cells, All(prog), goal, d, at) && |d| == |All(prog)|
    requires 0 <= n < |All(prog)|
    ensures var it, q := All(prog)[n], All(prog)[n].c.pos;
            && Leads(cells, All(prog), goal, n) && Genuine(al, it) && (it.act.Align? ==> it.act.mask >= 0)
            && (it.act.Value() || it.act.Def() ==> q in cells) && (it.act.Value() ==> cells[q] == it.arg)
            && (it.act.Def() ==> cells[q] == at[n])
            && (!it.act.Rel() ==> d[n] == 0)
            && (it.act.Rel() ==> q + 1 in cells && cells[q + 1] == d[n] && (d[n] == 0 || d[n] == Saves(it.c.op)))
            && (goal[n] == -1 ==> d[n] == 0)
            && (d[n] > 0 ==> 0 <= goal[n] < |d| && Small(at[goal[n]] - (at[n] + 4 - d[n])))
    ensures forall m {:trigger All(prog)[m]} :: 0 <= m < |All(prog)| && All(prog)[m].act.Def() ==>
              All(prog)[m].c.pos in cells && cells[All(prog)[m].c.pos] == at[m]
  {
    hide Closed, Meant, Estimated, Upto, Ordered;
    var items, it := All(prog), All(prog)[n];
    assert Shows(cells, items, d, at, n) && Leads(cells, items, goal, n) && Chosen(items, ofs, goal, d, at, n);
    GenuineMax(al, it);
    if d[n] > 0 {
      ShortReaches(al, items, ofs, goal, d, at, n);
      assert Placed(items, d, at, n);
    }
    forall m {:trigger items[m]} | 0 <= m < |items| && items[m].act.Def()
      ensures items[m].c.pos in cells && cells[items[m].c.pos] == at[m]
    {
      assert Shows(cells, items, d, at, m);
    }
  }

  /** The offset that reference n finds through its cell. */
  lemma RefReads(al: seq<int>, cells: map<int, int>, prog: seq<seq<Item>>, pos: seq<int>, ofs: seq<int>,
                 log: seq<Item>, lg: seq<int>, pc: seq<int>,
                 goal: seq<int>, d: seq<int>, at: seq<int>, was: seq<int>, globals: seq<int>, base: int, n: int)
    requires Plan(al, prog, pos, ofs, log, goal) && Shrunk(All(prog), ofs, goal, d, at)
             && Passed(cells, All(prog), goal, d, at) && |d| == |All(prog)|
    requires Chronicle(prog, log, lg, pc) && |globals| + 10 == |lg| && 0 <= n < |All(prog)| && All(prog)[n].act.Ref()
    requires exists k :: 0 <= k <= |All(prog)| && Globals(was, globals, All(prog), at, base, k)
    ensures var q, to := All(prog)[n].c.pos, Targets(All(prog), goal, at, was, base)[n];
            && q in cells
            && (cells[q] >= 0 ==>
                cells[q] in cells && cells[cells[q]] == to && 0 <= goal[n] < |at| && to == at[goal[n]])
            && (cells[q] < 0 ==>
                goal[n] == -1 && 0 <= -cells[q] - 10 < |globals| && globals[-cells[q] - 10] - base == to)
  {
    hide Closed, Estimated, Upto, Ordered, Shrunk, Passed, Chronicle;
    var items, it := All(prog), All(prog)[n];
    PassedReads(al, cells, prog, pos, ofs, log, goal, d, at, n);
    if goal[n] == -1 {
      Foreign(cells, prog, log, lg, pc, goal, n);
      var k :| 0 <= k <= |items| && Globals(was, globals, items, at, base, k);
      var i := Of(it).i;
      GlobalKept(was[i - 10], items, at, base, k, i);
    } else {
      DefPositive(al, prog, pos, ofs, goal[n]);
    }
  }

  lemma DefPositive(al: seq<int>, prog: seq<seq<Item>>, pos: seq<int>, ofs: seq<int>, m: int)
    requires Closed(al, prog, pos, ofs) && 0 <= m < |All(prog)|
    ensures All(prog)[m].c.pos >= 0 && (!All(prog)[m].act.Start? ==> All(prog)[m].c.pos > 0)
  {
    var s, j := Locate(prog, |prog|, m);
    assert Finished(al, prog[s], s, pos[s], ofs[s]);
    TracedStart(al, prog[s], s, j);
  }

  /** Item j of section s has been written. */
  lemma EncodeStep(al: seq<int>, prog: seq<seq<Item>>, pos: seq<int>, ofs: seq<int>, log: seq<Item>, goal: seq<int>,
                   d: seq<int>, at: seq<int>, was: seq<int>, globals: seq<int>, base: int, out: seq<int>, s: int,
                       j: int)
    requires Plan(al, prog, pos, ofs, log, goal) && Shrunk(All(prog), ofs, goal, d, at) && |d| == |All(prog)|
    requires 0 <= s < |prog| && 0 <= j < |prog[s]| && |Upto(prog, s)| + j < |All(prog)|
    requires Written(All(prog), d, at, Targets(All(prog), goal, at, was, base), base, out, |Upto(prog, s)| + j,
                     CursorAt(al, prog[s], s, j).lead)
    requires Globals(was, globals, All(prog), at, base, |Upto(prog, s)| + j)
    ensures var it, n, to := prog[s][j], |Upto(prog, s)| + j, Targets(All(prog), goal, at, was, base);
            && |out| == at[n] && 0 <= Back(it) <= |out|
            && Written(All(prog), d, at, to, base, out[..|out| - Back(it)] + Code(it, d[n], |out|, to[n], base), n + 1,
                       CursorAt(al, prog[s], s, j + 1).lead)
            && (it.act.LabelLg? && 10 <= it.act.n < |globals| + 10 ==>
                Globals(was, globals[it.act.n - 10 := base + |out|], All(prog), at, base, n + 1))
            && (!(it.act.LabelLg? && it.act.n >= 10) ==> Globals(was, globals, All(prog), at, base, n + 1))
  {
    hide Closed, Estimated, Ordered, Aimed, Meant, Written, Upto, Targets, Code;
    var it, n, to := prog[s][j], |Upto(prog, s)| + j, Targets(All(prog), goal, at, was, base);
    WalkReads(al, prog, pos, ofs, s, j);
    assert Chosen(All(prog), ofs, goal, d, at, n);
    WrittenReads(All(prog), d, at, to, base, out, n, it.c.lead);
    WrittenMore(al, All(prog), d, at, to, base, out, n);
  }

  lemma CodeReads(it: Item, save: int, at: int, to: int, base: int)
    ensures var code := Code(it, save, at, to, base);
            && (it.act.Rel() ==> code == Branch(it.c.op, save, to - (at + 4 - save)))
            && (it.act.Addr() ==> code == LE(base + to, 8))
            && (it.act.Align? && it.act.mask >= 0 ==> code == Copies(Pad(at, it.act.mask), NOP))
            && (it.act.Plain() ==> code == [it.act.b])
            && (it.act.Space? ==> code == Copies(it.arg, it.act.fill))
            && (it.act.Start? || it.act.Step? || it.act.Last() || it.act.Def() ==> code == [])
            && (it.act.Value() && !it.act.Start? && !it.act.Space? && save == 0 ==> code == Code(it, 0, at, 0, base))
  {
  }

  /** The cells, and the addresses of globals, that pass 3 needs for an item. */
  ghost predicate Supplied(cells: map<int, int>, globals: seq<int>, it: Item, save: int, at: int, to: int, base: int) {
    var q := it.c.pos;
    && Proper(it)
    && (it.act.Value() || it.act.Ref() || it.act.Def() ==> q in cells)
    && (it.act.Value() ==> cells[q] == it.arg)
    && (it.act.Def() ==> cells[q] == at)
    && (it.act.LabelLg? && it.act.n >= 10 ==> it.act.n - 10 < |globals|)
    && (it.act.Ref() && cells[q] >= 0 ==> cells[q] in cells && cells[cells[q]] == to)
    && (it.act.Ref() && cells[q] < 0 ==> 0 <= -cells[q] - 10 < |globals| && globals[-cells[q] - 10] - base == to)
    && (it.act.Align? ==> it.act.mask >= 0)
    && (!it.act.Rel() ==> save == 0)
    && (it.act.Rel() ==> q + 1 in cells && cells[q + 1] == save && (save == 0 || save == Saves(it.c.op)))
    && (it.act.Rel() && save > 0 ==> Small(to - (at + 4 - save)))
  }

  ghost function Targets(items: seq<Item>, goal: seq<int>, at: seq<int>, globals: seq<int>, base: int): (r: seq<int>)
    ensures |r| == |items|
  {
    seq(|items|, k requires 0 <= k < |items| => TargetAt(items, goal, at, globals, base, k))
  }

  /** The offset that reference k must lead to; globals hold addresses. */
  ghost function TargetAt(items: seq<Item>, goal: seq<int>, at: seq<int>, globals: seq<int>, base: int, k: int): int
    requires 0 <= k < |items|
  {
    if k >= |goal| || !items[k].act.Ref() then 0
    else if 0 <= goal[k] < |at| then at[goal[k]]
    else if Of(items[k]).Lg? && 0 <= Of(items[k]).i - 10 < |globals| then globals[Of(items[k]).i - 10] - base
    else 0
  }

  /** After n items each global has the address of its last definition so far. */
  ghost predicate Globals(was: seq<int>, globals: seq<int>, items: seq<Item>, at: seq<int>, base: int, n: int)
    requires n <= |items|
  {
    |was| == |globals| && |items| <= |at| && forall i {:trigger globals[i]} :: 0 <= i < |globals| ==>
      globals[i] == Global(was[i], items, at, base, n, i + 10)
  }

  /** The opcode of a branch ends the output; what its long and short forms make of it. */
  lemma OpcodeReads(out: seq<int>, op: int, lead: seq<int>, disp: int)
    requires Tail(out, lead) && (op == JMP ==> Tail(lead, [JMP])) && (Saves(op) == 4 ==> Tail(lead, [TWO_BYTE, op]))
    ensures Saves(op) == 0 ==> out + LE(disp, 4) == out[..|out|] + Branch(op, 0, disp)
    ensures Saves(op) == 3 ==> |out| >= 1 && out + LE(disp, 4) == out[..|out| - 1] + Branch(op, 0, disp)
    ensures Saves(op) == 3 ==> out[|out| - 1 := JMP_SHORT] + [disp % 256] == out[..|out| - 1] + Branch(op, 3, disp)
    ensures Saves(op) == 4 ==>
      |out| >= 2 && out[|out| - 1] == op && out + LE(disp, 4) == out[..|out| - 2] + Branch(op, 0, disp)
    ensures Saves(op) == 4 ==>
      out[..|out| - 1][|out| - 2 := op - 0x10] + [disp % 256] == out[..|out| - 2] + Branch(op, 4, disp)
  {
    hide LE, Tail, Branch;
    if op == JMP { JmpReads(out, lead, disp); }
    else if Saves(op) == 4 { JccReads(out, lead, op, disp); }
    else { OtherReads(out, op, disp); }
  }

  lemma OtherReads(out: seq<int>, op: int, disp: int)
    requires Saves(op) == 0
    ensures out + LE(disp, 4) == out[..|out|] + Branch(op, 0, disp)
  {
    hide LE;
  }

  lemma LastOf(out: seq<int>, lead: seq<int>, t: seq<int>)
    requires Tail(out, lead) && Tail(lead, t)
    ensures |t| <= |out| && out == out[..|out| - |t|] + t
  {
    TailReads(out, lead);
    TailReads(lead, t);
    forall k | 0 <= k < |t| ensures out[|out| - |t| + k] == t[k] { assert lead[|lead| - |t| + k] == t[k]; }
  }

  lemma JmpReads(out: seq<int>, lead: seq<int>, disp: int)
    requires Tail(out, lead) && Tail(lead, [JMP])
    ensures |out| >= 1 && out + LE(disp, 4) == out[..|out| - 1] + Branch(JMP, 0, disp)
    ensures out[|out| - 1 := JMP_SHORT] + [disp % 256] == out[..|out| - 1] + Branch(JMP, 3, disp)
  {
    hide LE, Tail;
    LastOf(out, lead, [JMP]);
    var front := out[..|out| - 1];
    assert front + [JMP] + LE(disp, 4) == front + ([JMP] + LE(disp, 4));
    assert (front + [JMP])[|out| - 1 := JMP_SHORT] == front + [JMP_SHORT];
    assert front + [JMP_SHORT] + [disp % 256] == front + [JMP_SHORT, disp % 256];
  }

  lemma JccReads(out: seq<int>, lead: seq<int>, op: int, disp: int)
    requires Tail(out, lead) && Tail(lead, [TWO_BYTE, op]) && Saves(op) == 4
    ensures |out| >= 2 && out[|out| - 1] == op && out + LE(disp, 4) == out[..|out| - 2] + Branch(op, 0, disp)
    ensures out[..|out| - 1][|out| - 2 := op - 0x10] + [disp % 256] == out[..|out| - 2] + Branch(op, 4, disp)
  {
    hide LE, Tail;
    LastOf(out, lead, [TWO_BYTE, op]);
    var front, t := out[..|out| - 2], [TWO_BYTE, op];
    assert out[|out| - 1] == (front + t)[|out| - 1] == op;
    assert front + t + LE(disp, 4) == front + (t + LE(disp, 4));
    assert out[..|out| - 1][|out| - 2 := op - 0x10] == front + [op - 0x10];
    assert front + [op - 0x10] + [disp % 256] == front + [op - 0x10, disp % 256];
  }

  lemma ValueReads(out: seq<int>, it: Item, base: int)
    requires Proper(it) && Tail(out, it.c.lead) && it.act.Value() && !it.act.Space? && !it.act.Start?
    ensures var n, code := |out|, Code(it, 0, |out|, 0, base);
            && 0 <= Back(it) <= n
            && (Back(it) == 2 ==> out[n - 2 := (out[n - 2] + 2) % 256] + [it.arg % 256] == out[..n - 2] + code)
            && (Back(it) == 0 ==> out[..n - 0] + code == out + code)
    ensures ValueCode(it, |out|, base, Code(it, 0, |out|, 0, base))
  {
    hide Code, LE, ShortImm, Tail, Pad, Copies;
    ValueCoded(it, |out|, base);
    if Back(it) == 2 { ShortImmReads(out, it.c.lead, it.arg); }
  }

  ghost predicate ValueCode(it: Item, at: int, base: int, code: seq<int>) {
    && (it.act.ImmS? || it.act.ImmB? ==> code == [it.arg % 256])
    && (it.act.ImmW? || (it.act.ImmWB? && Back(it) == 0) ==> code == LE(it.arg, 2))
    && (it.act.RelA? ==> code == LE(it.arg - (base + at + 4), 4))
    && (it.act.ImmD? || (it.act.ImmDB? && Back(it) == 0) ==> code == LE(it.arg, 4))
  }

  lemma ValueCoded(it: Item, at: int, base: int)
    requires Proper(it) && it.act.Value() && !it.act.Space? && !it.act.Start?
    ensures ValueCode(it, at, base, Code(it, 0, at, 0, base))
    ensures Back(it) == 0 || (Back(it) == 2 && |it.c.lead| >= 2
                              && Code(it, 0, at, 0, base) == ShortImm(it.c.lead, it.arg))
  {
    hide LE, ShortImm, Pad, Copies;
  }

  lemma ShortImmReads(out: seq<int>, lead: seq<int>, arg: int)
    requires |lead| >= 2 && Tail(out, lead)
    ensures var n := |out|;
            n >= 2 && out[n - 2 := (out[n - 2] + 2) % 256] + [arg % 256] == out[..n - 2] + ShortImm(lead, arg)
  {
    TailReads(out, lead);
    assert lead[|lead| - 2] == out[|out| - 2] && lead[|lead| - 1] == out[|out| - 1];
  }

  lemma PlanReads(al: seq<int>, prog: seq<seq<Item>>, pos: seq<int>, ofs: seq<int>, log: seq<Item>, goal: seq<int>)
    requires Plan(al, prog, pos, ofs, log, goal)
    ensures |prog| == |pos| == |ofs|
  {
  }

  lemma FirstLinking(al: seq<int>, cells: map<int, int>, prog: seq<seq<Item>>, ofs: seq<int>, goal: seq<int>)
    requires Passed(cells, All(prog), goal, [], [0])
    ensures Linking(al, cells, prog, ofs, goal, [], [0], 0, 0, 0)
  {
  }

  lemma AllLinked(al: seq<int>, cells: map<int, int>, prog: seq<seq<Item>>, ofs: seq<int>, goal: seq<int>,
                  d: seq<int>, at: seq<int>, acc: int)
    requires Linking(al, cells, prog, ofs, goal, d, at, |prog|, 0, acc)
    ensures Shrunk(All(prog), ofs, goal, d, at) && Passed(cells, All(prog), goal, d, at) && |d| == |All(prog)|
            && at[|d|] == acc
  {
  }

  lemma GlobalsOnly(al: seq<int>, cells: map<int, int>, links: set<int>, prog: seq<seq<Item>>, log: seq<Item>,
                    lg: seq<int>, pc: seq<int>)
    requires Inv(al, cells, links, prog, log, lg, pc)
    requires forall i {:trigger lg[i]} :: 0 <= i < 10 ==> lg[i] <= 0
    requires forall k {:trigger Pc(k)} :: 0 <= k < |pc| ==> Pending(log, Pc(k)) == []
    ensures OnlyGlobals(log, lg, pc) && Chronicle(prog, log, lg, pc) && PcNamed(log, pc)
  {
    forall i {:trigger pc[i]} | 0 <= i < |pc| ensures Pending(log, Pc(i)) == [] && pc[i] == -Latest(log, Pc(i)) {
      assert Tabled(log, cells, lg, pc, Pc(i));
    }
    forall l {:trigger Pending(log, l)} | InTable(lg, pc, l) && Pending(log, l) != [] ensures l.Lg? && l.i >= 10 {
      assert Tabled(log, cells, lg, pc, l);
      assert l.Pc? ==> l == Pc(l.i);
    }
  }

  lemma SectionEnds(al: seq<int>, cells: map<int, int>, prog: seq<seq<Item>>, pos: seq<int>, ofs: seq<int>,
                    log: seq<Item>, goal: seq<int>,
                    d: seq<int>, at: seq<int>, s: int, acc: int)
    requires Plan(al, prog, pos, ofs, log, goal) && 0 <= s < |prog|
             && Linking(al, cells, prog, ofs, goal, d, at, s, |prog[s]|, acc)
    ensures Linking(al, cells, prog, ofs, goal, d, at, s + 1, 0, acc + ofs[s])
  {
    hide Linking, Closed;
    NextSection(al, cells, prog, pos, ofs, goal, d, at, s, acc);
  }

  /** Between two puts of a section. */
  lemma RunReads(al: seq<int>, prog: seq<seq<Item>>, pos: seq<int>, ofs: seq<int>, log: seq<Item>, goal: seq<int>,
                 s: int, j: int)
    requires Plan(al, prog, pos, ofs, log, goal) && 0 <= s < |prog| && 0 <= j <= |prog[s]|
             && CursorAt(al, prog[s], s, j).p == -1
    ensures CursorAt(al, prog[s], s, j).pos == pos[s] <==> j == |prog[s]|
    ensures j < |prog[s]| ==> prog[s][j].act.Start? && prog[s][j].c.pos == CursorAt(al, prog[s], s, j).pos
  {
    hide Closed, Estimated, Ordered, Aimed, Meant;
    WalkReads(al, prog, pos, ofs, s, j);
  }

  /** The head of a put. */
  lemma StartReads(al: seq<int>, cells: map<int, int>, prog: seq<seq<Item>>, pos: seq<int>, ofs: seq<int>,
                   log: seq<Item>, goal: seq<int>,
                   d: seq<int>, at: seq<int>, s: int, j: int, acc: int)
    requires Plan(al, prog, pos, ofs, log, goal) && Linking(al, cells, prog, ofs, goal, d, at, s, j, acc)
    requires 0 <= s < |prog| && 0 <= j < |prog[s]| && prog[s][j].act.Start?
    ensures prog[s][j].c.pos in cells && prog[s][j].c.op == 0
    ensures CursorAt(al, prog[s], s, j + 1) == Cursor(cells[prog[s][j].c.pos], prog[s][j].c.pos + 1, prog[s][j].c.est,
                                                      0, [])
    ensures cells[prog[s][j].c.pos] != -1
  {
    hide Closed, Estimated, Ordered, Aimed, Meant, Shrunk;
    WalkReads(al, prog, pos, ofs, s, j);
    assert Shows(cells, All(prog), d, at, |d|);
  }

  /** An action within a put. */
  lemma ActionReads(al: seq<int>, prog: seq<seq<Item>>, pos: seq<int>, ofs: seq<int>, log: seq<Item>, goal: seq<int>,
                    s: int, j: int)
    requires Plan(al, prog, pos, ofs, log, goal) && 0 <= s < |prog| && 0 <= j <= |prog[s]|
             && CursorAt(al, prog[s], s, j).p != -1
    ensures j < |prog[s]| && prog[s][j].c == CursorAt(al, prog[s], s, j) && Genuine(al, prog[s][j])
    ensures var it, c := prog[s][j], CursorAt(al, prog[s], s, j + 1);
            && Known(al, it.c.p) && it.act == Fetch(al, it.c.p) && c.pos == it.c.pos + Cells(it.act) && it.c.p < |al|
            && Width(al, it.c.p) > 0
            && !it.act.Start? && (c.p == -1 <==> it.act.Last())
            && (!it.act.Last() ==> c.p == it.c.p + Width(al, it.c.p))
            && (!it.act.Last() ==> c.op == if it.act.Plain() then it.act.b else it.c.op)
  {
    hide Closed, Estimated, Ordered, Aimed, Meant, After;
    WalkReads(al, prog, pos, ofs, s, j);
    ActReads(al, prog[s][j]);
  }

  /** The cells that pass 2 needs for one action. */
  lemma ActionReady(al: seq<int>, cells: map<int, int>, prog: seq<seq<Item>>, pos: seq<int>, ofs: seq<int>,
                    log: seq<Item>, goal: seq<int>,
                    d: seq<int>, at: seq<int>, s: int, j: int, acc: int)
    requires Plan(al, prog, pos, ofs, log, goal) && Linking(al, cells, prog, ofs, goal, d, at, s, j, acc)
             && 0 <= s < |prog| && 0 <= j < |prog[s]|
    ensures |d| < |All(prog)| && All(prog)[|d|] == prog[s][j] && |goal| == |All(prog)| && |at| == |d| + 1 && s < |ofs|
    ensures var it, n, save := prog[s][j], |d|, Choice(All(prog), ofs, goal, at, |d|);
            && (it.act.Rel() ==> Reads(All(prog), ofs, cells, n, s, acc, Saves(it.c.op), save))
            && (it.act.Rel() ==>
                (Saves(it.c.op) == 0 ==> save == 0) && Fix(cells, it, save, at[n]) == cells[it.c.pos + 1 := save])
            && (it.act.Def() ==>
                it.c.pos in cells && Fix(cells, it, save, at[n]) == cells[it.c.pos := cells[it.c.pos] + acc])
            && (it.act.Align? ==> it.c.pos in cells && it.act.mask >= 0 && cells[it.c.pos] == it.c.est + it.act.mask)
            && (!it.act.Rel() && !it.act.Def() ==> Fix(cells, it, save, at[n]) == cells)
            && Shift(it, save, acc) == if it.act.Rel() then acc - save
                 else if it.act.Align? then acc - (cells[it.c.pos] + acc) % (it.act.mask + 1) else acc
  {
    hide Estimated, Meant, Shrunk, AllGenuine, Upto, Leads, Ordered, Reads;
    WalkReads(al, prog, pos, ofs, s, j);
    ShrunkIsLaid(All(prog), ofs, goal, d, at);
    GenuineMax(al, prog[s][j]);
    assert Shows(cells, All(prog), d, at, |d|);
    if prog[s][j].act.Rel() { ChoiceReads(al, cells, prog, pos, ofs, log, goal, d, at, s, j, acc); }
  }

  lemma InvReads(al: seq<int>, cells: map<int, int>, links: set<int>, prog: seq<seq<Item>>, log: seq<Item>,
                 lg: seq<int>, pc: seq<int>)
    requires Inv(al, cells, links, prog, log, lg, pc)
    ensures |lg| >= 10 && Apart(log) && Marked(cells, cells, log, 10)
  {
  }

  lemma PendingIn(al: seq<int>, cells: map<int, int>, links: set<int>, prog: seq<seq<Item>>, log: seq<Item>,
                  lg: seq<int>, pc: seq<int>, l: Label)
    requires Inv(al, cells, links, prog, log, lg, pc)
    ensures forall q {:trigger q in Pending(log, l)} :: q in Pending(log, l) ==> q in cells
  {
    PendingLinks(cells, links, log, lg, pc, l);
  }

  lemma OverwriteNothing(cells: map<int, int>, v: int)
    ensures Overwrite(cells, [], v) == cells
  {
  }

  ghost function Grew(prog: seq<seq<Item>>, s: int, done: seq<Item>): seq<seq<Item>> {
    if 0 <= s < |prog| then prog[s := prog[s] + done] else prog
  }

  lemma GrewStep(prog: seq<seq<Item>>, s: int, done: seq<Item>, it: Item)
    requires 0 <= s < |prog|
    ensures var now := Grew(prog, s, done); now[s := now[s] + [it]] == Grew(prog, s, done + [it]) && |now| == |prog|
  {
    assert prog[s] + done + [it] == prog[s] + (done + [it]);
  }

  lemma MoveOne(done: seq<Item>, todo: seq<Item>, log: seq<Item>)
    requires todo != []
    ensures done + [todo[0]] + todo[1..] == done + todo && log + done + [todo[0]] == log + (done + [todo[0]])
  {
  }

  lemma PassNone(log: seq<Item>, locals: nat, pcs: nat, sections: nat)
    ensures AllPass(log, [], locals, pcs, sections)
  {
  }

  lemma Closes(al: seq<int>, cells: map<int, int>, links: set<int>, prog0: seq<seq<Item>>, prog: seq<seq<Item>>,
               log: seq<Item>, lg: seq<int>,
               pc: seq<int>, pos: seq<int>, ofs: seq<int>, s: int, c: Cursor)
    requires Inv(al, cells, links, prog, log, lg, pc) && Closed(al, prog0, pos, ofs) && |prog| == |prog0|
             && 0 <= s < |prog|
    requires forall t {:trigger prog[t]} :: 0 <= t < |prog| && t != s ==> prog[t] == prog0[t]
    requires End(al, prog[s], s) == c == Cursor(-1, c.pos, c.est, 0, [])
    ensures Closed(al, prog, pos[s := c.pos], ofs[s := c.est])
  {
    var pos', ofs' := pos[s := c.pos], ofs[s := c.est];
    forall t {:trigger prog[t]} | 0 <= t < |prog| ensures Finished(al, prog[t], t, pos'[t], ofs'[t]) {
      assert Filled(al, cells, links, prog[t], t);
      if t == s { TracedEnd(al, prog[s], s); } else { assert Finished(al, prog0[t], t, pos[t], ofs[t]); }
    }
  }

  /** The next action and what it leaves of a sound run. */
  lemma SoundReads(al: seq<int>, c: Cursor, args: seq<int>, limit: int)
    requires DasmActions.Sound(al, c, args, limit)
    ensures Known(al, c.p) && Width(al, c.p) > 0 && c.p < |al|
    ensures var it, r := Next(al, c, args), Chunk(al, c, args, limit);
            && it.act == Fetch(al, c.p) && it.arg == (if it.act.TakesArg() then args[0] else 0)
            && (it.act.TakesArg() ==> |args| > 0)
            && r != [] && r[0] == it
            && After(al, it).pos == c.pos + Cells(it.act) && After(al, it).est == c.est + MaxOf(it.act, it.arg)
            && if it.act.Last() then
              r[1..] == [] && After(al, it) == Cursor(-1, After(al, it).pos, After(al, it).est, 0, []) else
              && After(al, it).p == c.p + Width(al, c.p)
              && DasmActions.Sound(al, After(al, it), Rest(it.act, args), limit)
              && r[1..] == Chunk(al, After(al, it), Rest(it.act, args), limit)
  {
  }

  lemma HeadOpens(al: seq<int>, prog: seq<seq<Item>>, pos: seq<int>, ofs: seq<int>, s: int, start: int, args: seq<int>)
    requires Closed(al, prog, pos, ofs) && 0 <= s < |prog|
    requires DasmActions.Sound(al, After(al, Head(pos[s], ofs[s], start)), args, (s + 1) * BIAS - 1)
    ensures Open(al, prog, s, Head(pos[s], ofs[s], start))
    ensures After(al, Head(pos[s], ofs[s], start)) == Cursor(start, pos[s] + 1, ofs[s], 0, [])
  {
    assert Finished(al, prog[s], s, pos[s], ofs[s]);
  }

  lemma ItemOpens(al: seq<int>, prog: seq<seq<Item>>, s: int, c: Cursor, args: seq<int>, limit: int)
    requires 0 <= s < |prog| && End(al, prog[s], s) == c && DasmActions.Sound(al, c, args, limit)
             && limit < (s + 1) * BIAS
    ensures Open(al, prog, s, Next(al, c, args)) && Numbered(Next(al, c, args).act)
    ensures var it := Next(al, c, args); !it.act.Start? && !it.act.Step? && it.c == c && it.act == Fetch(al, c.p)
  {
  }

  lemma ChainEnds(cells: map<int, int>, m: int, w: seq<int>, i: int)
    requires 0 <= i <= |w| && Chained(cells, m, w[i..]) && m <= 0 && (forall q {:trigger q in w} :: q in w ==> q > 0)
    ensures w[..i] == w
  {
    forall k {:trigger w[k]} | 0 <= k < |w| ensures w[k] > 0 { assert w[k] in w; }
  }

  /** Operands are bytes. */
  predicate Numbered(act: Act) {
    act.RelLg? || act.ImmLg? || act.LabelLg? || act.Section? ==> 0 <= act.n <= 255
  }

  lemma PassStep(log: seq<Item>, chunk: seq<Item>, locals: nat, pcs: nat, sections: nat)
    requires chunk != []
    ensures AllPass(log, chunk, locals, pcs, sections) <==>
              Passes(log, chunk[0], locals, pcs, sections)
                  && AllPass(log + [chunk[0]], chunk[1..], locals, pcs, sections)
  {
  }

  lemma PassMentioned(log: seq<Item>, it: Item, lg: seq<int>, pc: seq<int>, sections: nat)
    requires Passes(log, it, |lg|, |pc|, sections) && |lg| >= 10 && !it.act.Start?
    requires Numbered(it.act)
    ensures Mentioned(lg, pc, it) && (it.act.Section? ==> it.act.n < sections)
  {
  }

  /** A positive table entry heads the chain of the pending references; otherwise there are none. */
  lemma TableReads(al: seq<int>, cells: map<int, int>, links: set<int>, prog: seq<seq<Item>>, log: seq<Item>,
                   lg: seq<int>, pc: seq<int>, l: Label)
    requires Inv(al, cells, links, prog, log, lg, pc)
    ensures InTable(lg, pc, l) ==> var n, w := Table(lg, pc, l), Pending(log, l);
            if n > 0 then Chained(cells, n, w) && Distinct(w) && (forall q {:trigger q in w} :: q in w ==> q > 0)
            else w == [] && (forall v {:trigger Overwrite(cells, [], v)} :: Overwrite(cells, [], v) == cells)
    ensures InTable(lg, pc, l) ==> (Table(lg, pc, l) < 0 <==> Pending(log, l) == [] && Latest(log, l) != 0)
    ensures InTable(lg, pc, l) ==> (Table(lg, pc, l) > 0 <==> Pending(log, l) != [])
    ensures |lg| >= 10
  {
    assert Tabled(log, cells, lg, pc, l);
    PendingDistinct(log, l);
    LatestPositive(log, l);
    forall v {:trigger Overwrite(cells, [], v)} ensures Overwrite(cells, [], v) == cells { }
  }

  lemma EmptyInv(al: seq<int>, prog: seq<seq<Item>>, lg: seq<int>, pc: seq<int>, pos: seq<int>, ofs: seq<int>)
    requires (forall s :: 0 <= s < |prog| ==> prog[s] == []) && |prog| == |pos| == |ofs| && |lg| >= 10
    requires (forall s :: 0 <= s < |pos| ==> pos[s] == s * BIAS && ofs[s] == 0)
    requires (forall i :: 0 <= i < |lg| ==> lg[i] == 0) && (forall i :: 0 <= i < |pc| ==> pc[i] == 0)
    ensures Inv(al, map[], {}, prog, [], lg, pc) && Closed(al, prog, pos, ofs)
  {
  }

  lemma {:induction false} Unmentioned(log: seq<Item>, lg: seq<int>, pc: seq<int>, l: Label)
    requires !InTable(lg, pc, l) && forall i {:trigger log[i]} :: 0 <= i < |log| ==> Mentioned(lg, pc, log[i])
    requires l.Pc?
    ensures Pending(log, l) == [] && Latest(log, l) == 0
    decreases |log|
  {
    if log != [] {
      assert Mentioned(lg, pc, Last(log));
      assert forall i {:trigger Front(log)[i]} :: 0 <= i < |log| - 1 ==> Front(log)[i] == log[i];
      Unmentioned(Front(log), lg, pc, l);
    }
  }

  lemma MorePc(al: seq<int>, cells: map<int, int>, links: set<int>, prog: seq<seq<Item>>, log: seq<Item>,
               lg: seq<int>, pc: seq<int>, pc': seq<int>)
    requires Inv(al, cells, links, prog, log, lg, pc) && |pc| <= |pc'| && pc'[..|pc|] == pc
             && (forall i :: |pc| <= i < |pc'| ==> pc'[i] == 0)
    ensures Inv(al, cells, links, prog, log, lg, pc')
  {
    forall l {:trigger Tabled(log, cells, lg, pc', l)} ensures Tabled(log, cells, lg, pc', l) {
      assert Tabled(log, cells, lg, pc, l);
      if l.Pc? && InTable(lg, pc', l) {
        if l.i < |pc| { assert pc'[l.i] == pc'[..|pc|][l.i]; } else { Unmentioned(log, lg, pc, l); }
      }
    }
    forall r: nat {:trigger Resolved(log, cells, r)} | r < |log| ensures Resolved(log, cells, r) { }
    forall i {:trigger log[i]} | 0 <= i < |log| ensures Mentioned(lg, pc', log[i]) { assert Mentioned(lg, pc, log[i]); }
  }

  lemma LocalsRead(al: seq<int>, cells: map<int, int>, links: set<int>, prog: seq<seq<Item>>, log: seq<Item>,
                   lg: seq<int>, pc: seq<int>)
    requires Inv(al, cells, links, prog, log, lg, pc)
    ensures |lg| >= 10 && forall i {:trigger Lg(i)} :: 0 <= i < 10 ==> (lg[i] > 0 <==> Pending(log, Lg(i)) != [])
  {
    forall i {:trigger Lg(i)} | 0 <= i < 10 ensures lg[i] > 0 <==> Pending(log, Lg(i)) != [] {
      TableReads(al, cells, links, prog, log, lg, pc, Lg(i));
    }
  }

  lemma StepInv(al: seq<int>, cells: map<int, int>, links: set<int>, prog: seq<seq<Item>>, log: seq<Item>,
                lg: seq<int>, lg': seq<int>, pc: seq<int>)
    requires Inv(al, cells, links, prog, log, lg, pc) && |lg'| == |lg| && |prog| > 0
    requires forall i {:trigger lg[i]} {:trigger lg'[i]} :: 0 <= i < |lg| ==>
      if 1 <= i <= 9 then lg[i] <= 0 && lg'[i] == 0 else lg'[i] == lg[i]
    ensures Inv(al, cells, links, prog, log + [Item(Begin(0), Step, 0)], lg', pc)
  {
    var it := Item(Begin(0), Step, 0);
    AddStep(log, it, cells, lg, lg', pc);
    ToldMore(prog, log, 0, it);
    LabelledRest(cells, links, log, lg, pc, it, cells, lg', pc);
  }

  // The encoded program.

  /**
   * In the final code every jump to a label, however pass 2 has sized it, leads to the label's definition: the
   * latest before the jump if one is visible there, and else the next after it.
   */
  lemma JumpsMean(al: seq<int>, prog: seq<seq<Item>>, pos: seq<int>, ofs: seq<int>, log: seq<Item>, goal: seq<int>,
                  d: seq<int>, at: seq<int>,
                  was: seq<int>, base: int, out: seq<int>, k: int) returns (r: int, m: int)
    requires Plan(al, prog, pos, ofs, log, goal) && Shrunk(All(prog), ofs, goal, d, at) && |d| == |All(prog)|
             && Apart(log)
    requires Written(All(prog), d, at, Targets(All(prog), goal, at, was, base), base, out, |All(prog)|, [])
    requires 0 <= k < |All(prog)| && All(prog)[k].act.Rel() && goal[k] >= 0
             && Near(at[goal[k]] - at[k + 1])
    requires All(prog)[k].c.op == 0xe9 || 0x80 <= All(prog)[k].c.op < 0x90
    ensures 0 <= r < |log| && log[r] == All(prog)[k] && 0 <= m < |log| && Defines(log[m], Of(log[r]))
    ensures if Visible(log[..r], log[r]) then m < r && Quiet(log, Of(log[r]), m + 1, r)
            else r < m && Undefined(log, Of(log[r]), r + 1, m)
    ensures log[m].c.pos == All(prog)[goal[k]].c.pos
    ensures var op, to := All(prog)[k].c.op, at[goal[k]];
            Decode(out, at[k] - Back(All(prog)[k])) == if op == 0xe9 then Always(to) else When(op - 0x80, to)
  {
    hide Closed, Ordered, Shrunk, Stands, Branch, Estimated, Upto;
    var items, to := All(prog), Targets(All(prog), goal, at, was, base);
    assert MeantAt(log, items, goal, k);
    r :| MeantBy(log, items, goal, k, r);
    m := TargetMeaning(log, r);
    ShrunkIsLaid(items, ofs, goal, d, at);
    assert Stays(items, d, at, to, base, out, k, |items|, []);
    DefPositive(al, prog, pos, ofs, goal[k]);
    BranchReaches(al, items, ofs, goal, d, at, to, base, out, k);
  }
}
