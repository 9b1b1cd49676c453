/** Each step of pass 1 keeps label tables and chains in line with the history. */
module DasmChains {
  import opened DasmActions
  import opened DasmLabels

  function SetLg(lg: seq<int>, l: Label, n: int): seq<int> {
    if l.Lg? && 0 <= l.i < |lg| then lg[l.i := n] else lg
  }

  function SetPc(pc: seq<int>, l: Label, n: int): seq<int> {
    if l.Pc? && 0 <= l.i < |pc| then pc[l.i := n] else pc
  }

  /** The new cells agree with the old ones where those exist. */
  ghost predicate Extends(cells: map<int, int>, cells': map<int, int>) {
    forall q {:trigger cells'[q]} {:trigger q in cells} :: q in cells ==> q in cells' && cells'[q] == cells[q]
  }

  lemma FrontMore(log: seq<Item>, it: Item)
    ensures Front(log + [it]) == log && Last(log + [it]) == it
  {
  }

  lemma EnteredFrame(log: seq<Item>, log': seq<Item>, cells: map<int, int>, cells': map<int, int>, l: Label, n: int)
    requires Entered(log, cells, l, n) && Pending(log', l) == Pending(log, l) && Latest(log', l) == Latest(log, l)
    requires forall q {:trigger q in Pending(log, l)} :: q in Pending(log, l) && q in cells ==>
      q in cells' && cells'[q] == cells[q]
    ensures Entered(log', cells', l, n)
  {
    if Pending(log, l) != [] { ChainFrame(cells, cells', n, Pending(log, l)); }
  }

  /** An item that is no reference, definition or checked step. */
  lemma AddNeutral(log: seq<Item>, it: Item, cells: map<int, int>, cells': map<int, int>, lg: seq<int>, pc: seq<int>)
    requires Linked(log, cells, lg, pc) && Extends(cells, cells') && !it.act.Ref() && !it.act.Def() && !it.act.Step?
    ensures Linked(log + [it], cells', lg, pc)
  {
    var more := log + [it];
    FrontMore(log, it);
    forall l {:trigger Tabled(more, cells', lg, pc, l)} ensures Tabled(more, cells', lg, pc, l) {
      assert Tabled(log, cells, lg, pc, l);
      if InTable(lg, pc, l) { EnteredFrame(log, more, cells, cells', l, Table(lg, pc, l)); }
    }
    forall r: nat {:trigger Resolved(more, cells', r)} | r < |more| ensures Resolved(more, cells', r) {
      if r < |log| { assert Resolved(log, cells, r); }
    }
  }

  /** A checked step without pending local labels. */
  lemma AddStep(log: seq<Item>, it: Item, cells: map<int, int>, lg: seq<int>, lg': seq<int>, pc: seq<int>)
    requires Linked(log, cells, lg, pc) && it.act.Step? && |lg| == |lg'| >= 10
    requires forall i {:trigger lg[i]} {:trigger lg'[i]} :: 0 <= i < |lg| ==>
      if 1 <= i <= 9 then lg[i] <= 0 && lg'[i] == 0 else lg'[i] == lg[i]
    ensures Linked(log + [it], cells, lg', pc)
  {
    var more := log + [it];
    FrontMore(log, it);
    forall l {:trigger Tabled(more, cells, lg', pc, l)} ensures Tabled(more, cells, lg', pc, l) {
      assert Tabled(log, cells, lg, pc, l);
      if InTable(lg, pc, l) && !Local(l) { EnteredFrame(log, more, cells, cells, l, Table(lg, pc, l)); }
    }
    forall r: nat {:trigger Resolved(more, cells, r)} | r < |more| ensures Resolved(more, cells, r) {
      if r < |log| { assert Resolved(log, cells, r); }
    }
  }

  /** What a new reference stores. */
  function RefCell(forward: bool, n: int): int {
    if forward && n < 0 then 0 else if n < 0 then -n else n
  }

  /** A new reference takes the label's position or becomes the head of its chain. */
  lemma AddRef(log: seq<Item>, it: Item, cells: map<int, int>, cells': map<int, int>, lg: seq<int>, pc: seq<int>)
    requires Linked(log, cells, lg, pc) && Apart(log) && it.act.Ref() && it.c.pos > 0 && it.c.pos !in cells
    requires InTable(lg, pc, Of(it)) && Extends(cells, cells') && it.c.pos in cells'
    requires cells'[it.c.pos] == RefCell(Forward(it), Table(lg, pc, Of(it)))
    ensures var l, n := Of(it), Table(lg, pc, Of(it));
            if n < 0 && !Forward(it) then Visible(log, it) && Linked(log + [it], cells', lg, pc)
            else !Visible(log, it) && Linked(log + [it], cells', SetLg(lg, l, it.c.pos), SetPc(pc, l, it.c.pos))
  {
    var more, k, n := log + [it], Of(it), Table(lg, pc, Of(it));
    FrontMore(log, it);
    assert Tabled(log, cells, lg, pc, k);
    LatestPositive(log, k);
    var lg', pc' := if Visible(log, it) then lg else SetLg(lg, k, it.c.pos), if Visible(log, it) then pc
        else SetPc(pc, k, it.c.pos);
    forall l {:trigger Tabled(more, cells', lg', pc', l)} ensures Tabled(more, cells', lg', pc', l) {
      assert Tabled(log, cells, lg, pc, l);
      if InTable(lg, pc, l) {
        if l != k || Visible(log, it) { EnteredFrame(log, more, cells, cells', l, Table(lg, pc, l)); }
        else { AddWaiting(log, it, cells, cells', n); }
      }
    }
    forall r: nat {:trigger Resolved(more, cells', r)} | r < |more| ensures Resolved(more, cells', r) {
      if r < |log| { assert Resolved(log, cells, r); }
    }
  }

  lemma AddWaiting(log: seq<Item>, it: Item, cells: map<int, int>, cells': map<int, int>, n: int)
    requires Entered(log, cells, Of(it), n) && it.act.Ref() && !Visible(log, it) && it.c.pos > 0
             && Latest(log, Of(it)) >= 0
    requires Extends(cells, cells') && it.c.pos in cells' && cells'[it.c.pos] == RefCell(Forward(it), n)
    ensures Entered(log + [it], cells', Of(it), it.c.pos)
  {
    FrontMore(log, it);
    var w := Pending(log, Of(it));
    if w != [] { ChainFrame(cells, cells', n, w); }
    assert ([it.c.pos] + w)[1..] == w;
  }

  /** A definition collapses the label's chain. */
  lemma AddDef(log: seq<Item>, it: Item, cells: map<int, int>, cells': map<int, int>, lg: seq<int>, pc: seq<int>)
    requires Linked(log, cells, lg, pc) && Apart(log) && it.act.Def() && it.c.pos > 0 && it.c.pos !in cells
    requires InTable(lg, pc, Of(it)) && Extends(Overwrite(cells, Pending(log, Of(it)), it.c.pos), cells')
    ensures Linked(log + [it], cells', SetLg(lg, Of(it), -it.c.pos), SetPc(pc, Of(it), -it.c.pos))
  {
    var more, k, w := log + [it], Of(it), Pending(log, Of(it));
    var lg', pc' := SetLg(lg, k, -it.c.pos), SetPc(pc, k, -it.c.pos);
    FrontMore(log, it);
    forall l {:trigger Tabled(more, cells', lg', pc', l)} ensures Tabled(more, cells', lg', pc', l) {
      assert Tabled(log, cells, lg, pc, l);
      if InTable(lg, pc, l) && l != k {
        forall q {:trigger q in Pending(log, l)} | q in Pending(log, l) && q in cells
          ensures q in cells' && cells'[q] == cells[q]
        {
          if q in w { PendingDisjoint(log, l, k, q); }
          assert q in Overwrite(cells, w, it.c.pos);
        }
        EnteredFrame(log, more, cells, cells', l, Table(lg, pc, l));
      }
    }
    forall r: nat {:trigger Resolved(more, cells', r)} | r < |more| ensures Resolved(more, cells', r) {
      if r < |log| && log[r].act.Ref() { DefResolves(log, it, cells, cells', r); }
    }
  }

  lemma DefResolves(log: seq<Item>, it: Item, cells: map<int, int>, cells': map<int, int>, r: nat)
    requires r < |log| && log[r].act.Ref() && Resolved(log, cells, r) && Apart(log) && it.act.Def()
    requires Extends(Overwrite(cells, Pending(log, Of(it)), it.c.pos), cells')
    ensures Resolved(log + [it], cells', r)
  {
    FrontMore(log, it);
    var q, w := log[r].c.pos, Pending(log, Of(it));
    TargetPending(log, r);
    assert q in Overwrite(cells, w, it.c.pos);
    if q in w {
      var i := PendingRef(log, Of(it), q);
      OneRef(log, i, r);
    }
  }
}
