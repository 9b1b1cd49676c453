/** What holds of the encoder's state between the actions of pass 1. */
module DasmState {
  import opened DasmActions
  import opened DasmLabels
  import opened DasmChains

  /** links holds the cells that refer to labels; all others keep what was put there. */
  ghost predicate Held(cells: map<int, int>, links: set<int>, it: Item) {
    var q := it.c.pos;
    if it.act.Value() then q in cells && q !in links && cells[q] == it.arg
    else if it.act.Def() then q in cells && q !in links && cells[q] == it.c.est
    else if it.act.Align? then q in cells && q !in links && cells[q] == it.c.est + it.act.mask
    else if it.act.Rel() then q in cells && q in links && q + 1 in cells && q + 1 !in links
        && cells[q + 1] == it.c.est + 4
    else it.act.Addr() ==> q in cells && q in links
  }

  ghost predicate Within(al: seq<int>, cells: map<int, int>, prog: seq<seq<Item>>) {
    forall q {:trigger q in cells} :: q in cells ==> 0 <= Sec(q) < |prog| && q < End(al, prog[Sec(q)], Sec(q)).pos
  }

  ghost predicate Filled(al: seq<int>, cells: map<int, int>, links: set<int>, list: seq<Item>, s: int) {
    && Traced(al, list, s) && End(al, list, s).pos < (s + 1) * BIAS
    && (forall it {:trigger Held(cells, links, it)} :: it in list ==> Held(cells, links, it))
  }

  /** The buffers hold exactly the items of each section. */
  ghost predicate Buffered(al: seq<int>, cells: map<int, int>, links: set<int>, prog: seq<seq<Item>>) {
    && Within(al, cells, prog) && (forall q {:trigger q in links} :: q in links ==> q in cells)
    && (forall s {:trigger prog[s]} :: 0 <= s < |prog| ==> Filled(al, cells, links, prog[s], s))
  }

  ghost predicate Recorded(prog: seq<seq<Item>>, it: Item) {
    it.act.Step? || (0 <= Sec(it.c.pos) < |prog| && it in prog[Sec(it.c.pos)])
  }

  /** The history tells of the same items as the sections. */
  ghost predicate Told(prog: seq<seq<Item>>, log: seq<Item>) {
    && (forall i {:trigger log[i]} :: 0 <= i < |log| ==> Recorded(prog, log[i]))
    && (forall s, it {:trigger it in prog[s]} :: 0 <= s < |prog| && it in prog[s] ==> it in log)
  }

  ghost predicate Mentioned(lg: seq<int>, pc: seq<int>, it: Item) {
    && (it.act.Ref() || it.act.Def() ==> InTable(lg, pc, Of(it)))
    && (Forward(it) ==> Local(Of(it)))
  }

  ghost predicate Labelled(cells: map<int, int>, links: set<int>, log: seq<Item>, lg: seq<int>, pc: seq<int>) {
    && Apart(log) && Linked(log, cells, lg, pc)
    && (forall i {:trigger log[i]} :: 0 <= i < |log| ==>
        Mentioned(lg, pc, log[i]) && (log[i].act.Ref() ==> log[i].c.pos in links))
  }

  ghost predicate Inv(al: seq<int>, cells: map<int, int>, links: set<int>, prog: seq<seq<Item>>, log: seq<Item>,
                      lg: seq<int>, pc: seq<int>) {
    && Buffered(al, cells, links, prog) && Told(prog, log) && Labelled(cells, links, log, lg, pc) && |lg| >= 10
  }

  /** The cells of a new item join those there are, whose values only change in links. */
  ghost predicate Grown(cells: map<int, int>, cells': map<int, int>, links: set<int>, it: Item) {
    && (forall q {:trigger q in cells} :: q in cells ==> q in cells' && (q in links || cells'[q] == cells[q]))
    && (forall q {:trigger q in cells'} :: q in cells' && q !in cells ==> it.c.pos <= q < it.c.pos + Cells(it.act))
  }

  function LinksWith(links: set<int>, it: Item): set<int> {
    if it.act.Ref() then links + {it.c.pos} else links
  }

  /** Behind the end of a section there are no cells. */
  lemma FreshCells(al: seq<int>, cells: map<int, int>, links: set<int>, prog: seq<seq<Item>>, s: int, q: int)
    requires Buffered(al, cells, links, prog) && 0 <= s < |prog| && End(al, prog[s], s).pos <= q < (s + 1) * BIAS
    ensures q !in cells && q !in links
  {
    TracedEnd(al, prog[s], s);
    assert Sec(q) == s;
  }

  lemma TracedEnd(al: seq<int>, list: seq<Item>, s: int)
    requires Traced(al, list, s)
    ensures s * BIAS <= End(al, list, s).pos && (list != [] ==> s * BIAS < End(al, list, s).pos)
  {
    if list != [] { TracedStart(al, list, s, |list| - 1); }
  }

  lemma HeldOn(cells: map<int, int>, cells': map<int, int>, links: set<int>, it: Item, other: Item)
    requires Held(cells, links, other) && Grown(cells, cells', links, it) && it.c.pos !in cells
    requires forall q {:trigger q in links} :: q in links ==> q in cells
    ensures Held(cells', LinksWith(links, it), other)
  {
  }

  lemma SectionOn(al: seq<int>, cells: map<int, int>, cells': map<int, int>, links: set<int>, it: Item,
                  list: seq<Item>, s: int)
    requires Filled(al, cells, links, list, s) && Grown(cells, cells', links, it) && it.c.pos !in cells
    requires forall q {:trigger q in links} :: q in links ==> q in cells
    ensures Filled(al, cells', LinksWith(links, it), list, s)
  {
    forall other {:trigger Held(cells', LinksWith(links, it), other)} | other in list
      ensures Held(cells', LinksWith(links, it), other)
    {
      assert Held(cells, links, other);
      HeldOn(cells, cells', links, it, other);
    }
  }

  /** One more item in section s. */
  lemma BufferMore(al: seq<int>, cells: map<int, int>, cells': map<int, int>, links: set<int>, prog: seq<seq<Item>>,
                   s: int, it: Item)
    requires Buffered(al, cells, links, prog) && 0 <= s < |prog| && it.c == End(al, prog[s], s) && Genuine(al, it)
    requires After(al, it).pos < (s + 1) * BIAS && Grown(cells, cells', links, it)
             && Held(cells', LinksWith(links, it), it)
    ensures Buffered(al, cells', LinksWith(links, it), prog[s := prog[s] + [it]])
  {
    var prog', links' := prog[s := prog[s] + [it]], LinksWith(links, it);
    FreshCells(al, cells, links, prog, s, it.c.pos);
    forall t {:trigger prog'[t]} | 0 <= t < |prog'| ensures Filled(al, cells', links', prog'[t], t) {
      SectionOn(al, cells, cells', links, it, prog[t], t);
      if t == s { SectionMore(al, cells', links', prog[s], s, it); }
    }
    assert Filled(al, cells, links, prog[s], s);
    TracedEnd(al, prog[s], s);
    WithinMore(al, cells, cells', links, prog, s, it);
    hide Filled, Within, End, After, Genuine;
    forall q {:trigger q in links'} | q in links' ensures q in cells' { assert q in links ==> q in cells; }
  }

  lemma SectionMore(al: seq<int>, cells: map<int, int>, links: set<int>, list: seq<Item>, s: int, it: Item)
    requires Filled(al, cells, links, list, s) && it.c == End(al, list, s) && Genuine(al, it)
    requires After(al, it).pos < (s + 1) * BIAS && Held(cells, links, it)
    ensures Filled(al, cells, links, list + [it], s)
  {
    hide Held, After, Genuine;
    TracedMore(al, list, s, it);
    forall x {:trigger Held(cells, links, x)} | x in list + [it] ensures Held(cells, links, x) { }
  }

  lemma WithinMore(al: seq<int>, cells: map<int, int>, cells': map<int, int>, links: set<int>, prog: seq<seq<Item>>,
                   s: int, it: Item)
    requires Within(al, cells, prog) && 0 <= s < |prog| && it.c == End(al, prog[s], s) && s * BIAS <= it.c.pos
    requires After(al, it).pos < (s + 1) * BIAS && Grown(cells, cells', links, it)
    ensures Within(al, cells', prog[s := prog[s] + [it]])
  {
    var prog' := prog[s := prog[s] + [it]];
    assert End(al, prog'[s], s) == After(al, it);
    forall q {:trigger q in cells'} | q in cells'
      ensures 0 <= Sec(q) < |prog'| && q < End(al, prog'[Sec(q)], Sec(q)).pos
    {
      if q !in cells { assert Sec(q) == s; }
    }
  }

  lemma ToldMore(prog: seq<seq<Item>>, log: seq<Item>, s: int, it: Item)
    requires Told(prog, log) && 0 <= s < |prog| && (it.act.Step? || Sec(it.c.pos) == s)
    ensures !it.act.Step? ==> Told(prog[s := prog[s] + [it]], log + [it])
    ensures it.act.Step? ==> Told(prog, log + [it])
  {
    var prog', more := if it.act.Step? then prog else prog[s := prog[s] + [it]], log + [it];
    forall i {:trigger more[i]} | 0 <= i < |more| ensures Recorded(prog', more[i]) {
      assert i < |log| ==> Recorded(prog, log[i]);
    }
    forall t, x {:trigger x in prog'[t]} | 0 <= t < |prog'| && x in prog'[t] ensures x in more {
      assert x in prog[t] || x == it;
    }
  }

  /** Everything but the label tables and chains. */
  lemma LabelledRest(cells: map<int, int>, links: set<int>, log: seq<Item>, lg: seq<int>, pc: seq<int>, it: Item,
                     cells': map<int, int>, lg': seq<int>, pc': seq<int>)
    requires Labelled(cells, links, log, lg, pc) && Linked(log + [it], cells', lg', pc') && Mentioned(lg, pc, it)
    requires |lg'| == |lg| && |pc'| == |pc| && (it.act.Ref() || it.act.Def() ==> it.c.pos > 0 && it.c.pos !in links)
    ensures Labelled(cells', LinksWith(links, it), log + [it], lg', pc')
  {
    var more := log + [it];
    forall i {:trigger more[i]} | 0 <= i < |more|
      ensures Mentioned(lg', pc', more[i]) && (more[i].act.Ref() ==> more[i].c.pos in LinksWith(links, it)) { }
  }

  lemma SecOf(al: seq<int>, list: seq<Item>, s: int, it: Item)
    requires Traced(al, list, s) && it.c == End(al, list, s) && it.c.pos < (s + 1) * BIAS
    ensures Sec(it.c.pos) == s && s * BIAS <= it.c.pos && (!it.act.Start? && Genuine(al, it) ==> s * BIAS < it.c.pos)
  {
    TracedEnd(al, list, s);
  }

  /** Item it can join section s. */
  ghost predicate Open(al: seq<int>, prog: seq<seq<Item>>, s: int, it: Item) {
    0 <= s < |prog| && End(al, prog[s], s) == it.c && Genuine(al, it) && it.c.pos <= After(al, it).pos < (s + 1) * BIAS
  }

  function With(prog: seq<seq<Item>>, s: int, it: Item): seq<seq<Item>> {
    if 0 <= s < |prog| then prog[s := prog[s] + [it]] else prog
  }

  /** An item with its cells, links and table entries joins section s and the history. */
  lemma Joins(al: seq<int>, cells: map<int, int>, links: set<int>, prog: seq<seq<Item>>, log: seq<Item>, lg: seq<int>,
              pc: seq<int>,
              s: int, it: Item, cells': map<int, int>, lg': seq<int>, pc': seq<int>)
    requires Inv(al, cells, links, prog, log, lg, pc) && Open(al, prog, s, it) && Mentioned(lg, pc, it)
    requires Grown(cells, cells', links, it) && Held(cells', LinksWith(links, it), it)
    requires Linked(log + [it], cells', lg', pc') && |lg'| == |lg| && |pc'| == |pc|
    ensures Inv(al, cells', LinksWith(links, it), With(prog, s, it), log + [it], lg', pc')
    ensures End(al, With(prog, s, it)[s], s) == After(al, it)
  {
    hide Linked, Told, Held, Apart, Mentioned;
    assert Filled(al, cells, links, prog[s], s);
    SecOf(al, prog[s], s, it);
    hide Filled, Within, Told, Genuine, Linked, Apart;
    FreshCells(al, cells, links, prog, s, it.c.pos);
    BufferMore(al, cells, cells', links, prog, s, it);
    ToldMore(prog, log, s, it);
    LabelledRest(cells, links, log, lg, pc, it, cells', lg', pc');
  }

  /** The cells from the end of a section on are free. */
  lemma Free(al: seq<int>, cells: map<int, int>, links: set<int>, prog: seq<seq<Item>>, log: seq<Item>, lg: seq<int>,
             pc: seq<int>, s: int, it: Item)
    requires Inv(al, cells, links, prog, log, lg, pc) && Open(al, prog, s, it)
    ensures it.c.pos !in cells && it.c.pos !in links && it.c.pos >= 0 && (!it.act.Start? ==> it.c.pos > 0)
    ensures Cells(it.act) == 2 ==> it.c.pos + 1 !in cells && it.c.pos + 1 !in links
    ensures Apart(log) && Linked(log, cells, lg, pc)
  {
    hide Linked, Told, Apart, Mentioned;
    assert Filled(al, cells, links, prog[s], s);
    SecOf(al, prog[s], s, it);
    hide Filled, Within, Genuine;
    FreshCells(al, cells, links, prog, s, it.c.pos);
    if Cells(it.act) == 2 { FreshCells(al, cells, links, prog, s, it.c.pos + 1); }
  }

  lemma PendingLinks(cells: map<int, int>, links: set<int>, log: seq<Item>, lg: seq<int>, pc: seq<int>, l: Label)
    requires Labelled(cells, links, log, lg, pc)
    ensures forall q {:trigger q in Pending(log, l)} :: q in Pending(log, l) ==> q in links
  {
    forall q {:trigger q in Pending(log, l)} | q in Pending(log, l)
      ensures q in links
    {
      var i := PendingRef(log, l, q);
    }
  }

  /** An item that stores at most a fixed value. */
  lemma FixedJoins(al: seq<int>, cells: map<int, int>, links: set<int>, prog: seq<seq<Item>>, log: seq<Item>,
                   lg: seq<int>, pc: seq<int>,
                   s: int, it: Item, cells': map<int, int>)
    requires Inv(al, cells, links, prog, log, lg, pc) && Open(al, prog, s, it) && !it.act.Ref() && !it.act.Def()
    requires cells' == if Cells(it.act) == 0 then cells
             else cells[it.c.pos := if it.act.Align? then it.c.est + it.act.mask else it.arg]
    ensures Inv(al, cells', links, With(prog, s, it), log + [it], lg, pc)
    ensures End(al, With(prog, s, it)[s], s) == After(al, it)
  {
    hide Inv, Linked;
    Free(al, cells, links, prog, log, lg, pc, s, it);
    AddNeutral(log, it, cells, cells', lg, pc);
    Joins(al, cells, links, prog, log, lg, pc, s, it, cells', lg, pc);
  }

  lemma RefJoins(al: seq<int>, cells: map<int, int>, links: set<int>, prog: seq<seq<Item>>, log: seq<Item>,
                 lg: seq<int>, pc: seq<int>,
                 s: int, it: Item, cells': map<int, int>)
    requires Inv(al, cells, links, prog, log, lg, pc) && Open(al, prog, s, it) && it.act.Ref() && Mentioned(lg, pc, it)
    requires var c := cells[it.c.pos := RefCell(Forward(it), Table(lg, pc, Of(it)))];
             cells' == if it.act.Rel() then c[it.c.pos + 1 := it.c.est + 4] else c
    ensures var l, n, q := Of(it), Table(lg, pc, Of(it)), it.c.pos;
            Inv(al, cells', LinksWith(links, it), With(prog, s, it), log + [it],
                if Forward(it) || n >= 0 then SetLg(lg, l, q) else lg, if Forward(it) || n >= 0 then SetPc(pc, l, q)
                else pc)
    ensures End(al, With(prog, s, it)[s], s) == After(al, it)
  {
    hide Inv, Linked;
    Free(al, cells, links, prog, log, lg, pc, s, it);
    AddRef(log, it, cells, cells', lg, pc);
    var l, n, q := Of(it), Table(lg, pc, Of(it)), it.c.pos;
    Joins(al, cells, links, prog, log, lg, pc, s, it, cells',
          if Forward(it) || n >= 0 then SetLg(lg, l, q) else lg, if Forward(it) || n >= 0 then SetPc(pc, l, q) else pc);
  }

  lemma DefJoins(al: seq<int>, cells: map<int, int>, links: set<int>, prog: seq<seq<Item>>, log: seq<Item>,
                 lg: seq<int>, pc: seq<int>,
                 s: int, it: Item, cells': map<int, int>)
    requires Inv(al, cells, links, prog, log, lg, pc) && Open(al, prog, s, it) && it.act.Def() && Mentioned(lg, pc, it)
    requires cells' == Overwrite(cells, Pending(log, Of(it)), it.c.pos)[it.c.pos := it.c.est]
    ensures Inv(al, cells', links, With(prog, s, it), log + [it], SetLg(lg, Of(it), -it.c.pos),
                SetPc(pc, Of(it), -it.c.pos))
    ensures End(al, With(prog, s, it)[s], s) == After(al, it)
  {
    hide Linked;
    Free(al, cells, links, prog, log, lg, pc, s, it);
    PendingLinks(cells, links, log, lg, pc, Of(it));
    hide Inv;
    AddDef(log, it, cells, cells', lg, pc);
    Joins(al, cells, links, prog, log, lg, pc, s, it, cells', SetLg(lg, Of(it), -it.c.pos),
          SetPc(pc, Of(it), -it.c.pos));
  }

  // The checks of pass 1.

  /** The check that pass 1 makes of an item. */
  ghost predicate Passes(log: seq<Item>, it: Item, locals: nat, pcs: nat, sections: nat) {
    match it.act
    case ImmS => Small(it.arg)
    case ImmB => 0 <= it.arg < 256
    case ImmW => 0 <= it.arg < 65536
    case ImmWB => Small(it.arg) || 0 <= it.arg < 65536
    case RelLg(n) => Forward(it) || ((n >= 10 || Visible(log, it)) && n < locals)
    case ImmLg(n) => Forward(it) || ((n >= 10 || Visible(log, it)) && n < locals)
    case RelPc | ImmPc | LabelPc => 0 <= it.arg < pcs
    case LabelLg(n) => n < locals
    case Section(n) => n < sections
    case _ => true
  }

  ghost predicate AllPass(log: seq<Item>, chunk: seq<Item>, locals: nat, pcs: nat, sections: nat)
    decreases |chunk|
  {
    chunk == [] || (Passes(log, chunk[0], locals, pcs, sections)
                    && AllPass(log + [chunk[0]], chunk[1..], locals, pcs, sections))
  }
}
