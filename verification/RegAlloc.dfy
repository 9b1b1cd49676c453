/** The trace register allocator, which generates code backwards. */
module RegAlloc {
  import opened RegCode
  import opened RegState

  const PHI_WEIGHT := 64
  const RID_BASE := 2
  const MAX_SPILL := 256

  /** The lowest register of a set. */
  function Bot(s: set<int>, r: int): (b: int)
    requires 0 <= r <= NREGS && exists q :: q in s && r <= q < NREGS
    ensures b in s && r <= b < NREGS && forall q :: q in s && r <= q < NREGS ==> b <= q
    decreases NREGS - r
  {
    if r in s then r else assert exists q :: q in s && r + 1 <= q < NREGS; Bot(s, r + 1)
  }

  /** The highest register of a set below r. */
  function Top(s: set<int>, r: int): (b: int)
    requires 0 <= r <= NREGS && exists q :: q in s && 0 <= q < r
    ensures b in s && 0 <= b < r && forall q :: q in s && 0 <= q < r ==> q <= b
    decreases r
  {
    if r - 1 in s then r - 1 else assert exists q :: q in s && 0 <= q < r - 1; Top(s, r - 1)
  }

  predicate Less(a: Cost, b: Cost) { a.weight < b.weight || (a.weight == b.weight && a.ref < b.ref) }

  predicate CanRemat(x: int) { x <= REF_BASE }
  predicate IsConst(x: int) { x < REF_BASE }

  /** No allowed register of its kind holds a reference of less cost; floating point registers go first. */
  ghost predicate Cheapest(v: View, allow: set<int>, r: int) {
    && r in v.cost && (r >= MAX_GPR || forall p {:trigger p in allow} :: p in allow ==> p < MAX_GPR)
    && forall p {:trigger p in allow} :: p in allow && (p >= MAX_GPR) == (r >= MAX_GPR) ==>
      p in v.cost && !Less(v.cost[p], v.cost[r])
  }

  class ASMState {
    const all: set<int>
    const scratch: set<int>
    const loopref: int
    var freeset: set<int>
    var modset: set<int>
    var weakset: set<int>
    var cost: map<int, Cost>
    var ir: map<int, Ins>
    var evenspill: int
    var oddspill: int
    var code: seq<Instr>
    ghost var need: Need
    ghost var pend: Need

    ghost function V(): View
      reads this
    {
      View(all, freeset, weakset, cost, ir, evenspill, oddspill, need, pend, code)
    }

    constructor (all: set<int>, scratch: set<int>, loopref: int, ir: map<int, Ins>)
      requires forall r :: r in all ==> 0 <= r < NREGS
      requires forall x {:trigger ir[x]} :: x in ir ==> !ir[x].home.InReg? && ir[x].s == 0
      ensures forall cur {:trigger Good(V(), cur)} :: Good(V(), cur)
      ensures this.all == all && this.ir == ir && code == [] && need == map[] && pend == map[] && freeset == all
    {
      this.all, this.scratch, this.loopref, this.ir := all, scratch, loopref, ir;
      freeset, modset, weakset, cost := all, {}, {}, map[];
      evenspill, oddspill, code := SPS_FIRST, 0, [];
      need, pend := map[], map[];
      new;
      EmptyGood(V());
    }

    /** Gives x a spill slot if it has none. Fails when the slots run out. */
    method Spill(x: int, ghost cur: int) returns (ok: bool)
      requires Good(V(), cur) && x in ir && x > REF_BASE
      modifies this`ir, this`evenspill, this`oddspill
      ensures !ok ==> evenspill > 256 && old(Budget(V())) > 256
      ensures ok ==> Spilled(old(ir)[x]) || evenspill <= 256
      ensures evenspill == old(evenspill) + if Spilled(old(ir)[x]) || (old(oddspill) != 0 && !old(ir)[x].wide) then 0
              else 2
      ensures ok ==> Good(V(), cur) && x in ir && Spilled(ir[x]) && Spares(old(V()), V(), {})
      ensures ok ==> ir == old(ir)[x := old(ir)[x].(s := ir[x].s)] && (Spilled(old(ir)[x]) ==> ir == old(ir))
      ensures ok ==> forall y, q :: Lives(old(V()), y, q) ==> Lives(V(), y, q)
    {
      hide Good, Spares, Lives, Budget;
      SparesSelf(V(), {});
      if !Spilled(ir[x]) {
        SpillGood(V(), x, cur);
        BudgetSpill(V(), x);
        var slot := evenspill;
        if ir[x].wide {
          evenspill := evenspill + 2;
        } else if oddspill != 0 {
          slot := oddspill;
          oddspill := 0;
        } else {
          oddspill := slot + 1;
          evenspill := evenspill + 2;
        }
        if evenspill > MAX_SPILL { return false; }
        ir := ir[x := ir[x].(s := slot)];
        assert V() == WithSlot(old(V()), x);
      }
      ok := true;
    }

    /** Frees the register of a constant, to be loaded anew by the code. */
    method Rematk(x: int, ghost cur: int) returns (r: int)
      requires Good(V(), cur) && x in ir && ir[x].home.InReg? && Lives(V(), x, ir[x].home.reg)
               && Clear(V(), ir[x].home.reg)
      requires CanRemat(x)
      modifies this`freeset, this`modset, this`ir, this`code, this`need
      ensures r == old(ir)[x].home.reg && Good(V(), cur) && freeset == old(freeset) + {r} && Spares(old(V()), V(), {r})
    {
      r := ir[x].home.reg;
      var home := if x == REF_BASE then Hint(RID_BASE) else NoHome;
      RematGood(V(), x, r, home, cur);
      freeset, modset := freeset + {r}, modset + {r};
      ir := ir[x := ir[x].(home := home)];
      code, need := [Const(r, x)] + code, NeedConst(need, r);
    }

    /** Frees the register of x: the code gets the value from its slot, or anew. */
    method Restore(x: int, ghost cur: int) returns (ok: bool, r: int)
      requires Good(V(), cur) && x in ir && ir[x].home.InReg? && Lives(V(), x, ir[x].home.reg)
               && Clear(V(), ir[x].home.reg)
      modifies this`freeset, this`modset, this`ir, this`code, this`need, this`evenspill, this`oddspill
      ensures r == old(ir)[x].home.reg
      ensures !ok ==> evenspill > MAX_SPILL && old(Budget(V())) > MAX_SPILL
      ensures ok ==> Good(V(), cur) && freeset == old(freeset) + {r} && Spares(old(V()), V(), {r})
    {
      hide Good, Spares, Lives, Budget;
      r := ir[x].home.reg;
      if CanRemat(x) {
        r := Rematk(x, cur);
        return true, r;
      }
      ok := Spill(x, cur);
      if !ok { return; }
      ghost var v := V();
      SparesReads(old(V()), v, {});
      RestoreGood(v, x, r, cur);
      var slot, wide := ir[x].s, ir[x].wide;
      ir := ir[x := ir[x].(home := Hint(r))];
      freeset := freeset + {r};
      if r !in weakset {
        modset := modset + {r};
        code, need := [Load(r, slot, wide)] + code, NeedLoad(need, r, slot, wide, x);
      }
      assert V() == Restored(v, x, r);
      SparesWider(old(V()), v, {}, {r});
      SparesTwo(old(V()), v, V(), {r});
    }

    /** The reference of least cost among the allowed registers, all in use; floating point registers go first. */
    method MinCost(allow: set<int>) returns (x: int)
      requires Registers(V()) && allow != {} && allow <= all && allow !! freeset
      ensures x in ir && ir[x].home.InReg? && ir[x].home.reg in allow && Lives(V(), x, ir[x].home.reg)
      ensures Cheapest(V(), allow, ir[x].home.reg)
    {
      SomeReg(allow);
      var fpr := exists p :: p in allow && p >= MAX_GPR;
      var i, end := if fpr then MAX_GPR else 0, if fpr then NREGS else MAX_GPR;
      ghost var start := i;
      var best, found := Cost(0, 0), false;
      ghost var reg := -1;
      while i < end
        invariant start <= i <= end
        invariant found ==> reg in allow && reg in cost && best == cost[reg]
        invariant !found ==> forall p :: p in allow ==> !(start <= p < i)
        invariant found ==> start <= reg < i && forall p {:trigger p in allow} :: p in allow && start <= p < i ==>
          p in cost && !Less(cost[p], best)
      {
        if i in allow {
          OwnerLives(V(), i);
          if !found || Less(cost[i], best) { best, found, reg := cost[i], true, i; }
        }
        i := i + 1;
      }
      assert found by { var q :| q in allow && (fpr ==> q >= MAX_GPR); assert q in all; }
      OwnerLives(V(), reg);
      x := best.ref;
      forall p {:trigger p in allow} | p in allow && (p >= MAX_GPR) == fpr
        ensures p in cost && !Less(cost[p], cost[reg])
      {
        assert p in all && start <= p < end;
      }
    }

    /** Frees the register of least cost, or of a weak reference, among those allowed. */
    method Evict(allow: set<int>, ghost cur: int) returns (ok: bool, r: int)
      requires Good(V(), cur) && allow != {} && allow <= all && allow !! freeset
               && (forall q :: q in allow ==> Clear(V(), q))
      modifies this`freeset, this`modset, this`ir, this`code, this`need, this`evenspill, this`oddspill
      ensures !ok ==> evenspill > MAX_SPILL && old(Budget(V())) > MAX_SPILL
      ensures ok ==> r in allow && Good(V(), cur) && freeset == old(freeset) + {r} && Spares(old(V()), V(), allow)
      ensures ok ==> r in old(weakset) || Cheapest(old(V()), allow, r)
      ensures ok && r !in old(weakset) ==>
        old(weakset) * allow == {} || (r in old(cost) && IsConst(old(cost)[r].ref))
    {
      var x := MinCost(allow);
      if !IsConst(x) && weakset * allow != {} && ir[x].home.reg !in weakset {
        SomeReg(weakset * allow);
        var w := Bot(weakset * allow, 0);
        OwnerLives(V(), w);
        x := cost[w].ref;
      }
      ok, r := Restore(x, cur);
      if ok { SparesWider(old(V()), V(), {r}, allow); }
    }

    lemma SomeReg(s: set<int>)
      requires s != {} && s <= all && Registers(V())
      ensures exists q :: q in s && 0 <= q < NREGS
    {
      assert (forall q :: q !in s) ==> s == {};
      assert forall q :: q in s ==> q in all;
    }

    /** A register that may be clobbered at this point; another one's value is evicted if none is free. */
    method Scratch(allow: set<int>, ghost cur: int) returns (ok: bool, r: int)
      requires Good(V(), cur) && allow != {} && allow <= all && (forall q :: q in allow - freeset ==> Clear(V(), q))
      modifies this`freeset, this`modset, this`ir, this`code, this`need, this`evenspill, this`oddspill
      ensures !ok ==> evenspill > MAX_SPILL && old(Budget(V())) > MAX_SPILL
      ensures ok ==> r in allow && r in freeset && Good(V(), cur) && Spares(old(V()), V(), allow)
      ensures ok ==> freeset == old(freeset) + {r}
    {
      SparesSelf(V(), allow);
      var pick := freeset * allow;
      if pick == {} {
        NoneFree(allow, freeset);
        ok, r := Evict(allow, cur);
        if !ok { return; }
      } else {
        SomeReg(pick);
        ok, r := true, Top(pick, NREGS);
      }
      modset := modset + {r};
      assert old(freeset) + {r} == freeset;
    }

    /** A register from allow for x, which has none; prefers the hint, and keeps invariants out of modified
        registers. */
    method AllocRef(x: int, allow: set<int>, ghost cur: int) returns (ok: bool, r: int)
      requires Good(V(), cur) && x in ir && !ir[x].home.InReg? && x < cur
      requires allow != {} && allow <= all && (forall q :: q in allow - freeset ==> Clear(V(), q))
      requires forall q :: q in allow ==> (q >= MAX_GPR) == ir[x].fp
      modifies this`freeset, this`modset, this`weakset, this`ir, this`cost, this`code, this`need, this`evenspill,
               this`oddspill
      ensures !ok ==> evenspill > MAX_SPILL && old(Budget(V())) > MAX_SPILL
      ensures ok ==> r in allow && Good(V(), cur) && Lives(V(), x, r) && Spares(old(V()), V(), allow)
      ensures ok ==> freeset + {r} == old(freeset) + {r} && R(r) !in need
    {
      hide Good, Spares, Lives, Budget;
      SparesSelf(V(), allow);
      ok, r := PickReg(x, allow, cur);
      if !ok { return; }
      ghost var v := V();
      SparesKind(old(V()), v, allow, x);
      Take(x, r);
      ghost var weight :| V() == Given(v, x, r, Cost(weight, x));
      GiveGood(v, x, r, weight, cur);
      SparesWider(v, V(), {r}, allow);
      SparesTwo(old(V()), v, V(), allow);
    }

    /** The choice of AllocRef: the register it frees or finds free. */
    method PickReg(x: int, allow: set<int>, ghost cur: int) returns (ok: bool, r: int)
      requires Good(V(), cur) && x in ir && !ir[x].home.InReg? && x < cur
      requires allow != {} && allow <= all && (forall q :: q in allow - freeset ==> Clear(V(), q))
      modifies this`freeset, this`modset, this`ir, this`code, this`need, this`evenspill, this`oddspill
      ensures !ok ==> evenspill > MAX_SPILL && old(Budget(V())) > MAX_SPILL
      ensures ok ==>
        r in allow && r in freeset && Good(V(), cur) && Spares(old(V()), V(), allow) && x in ir && !ir[x].home.InReg?
      ensures ok ==> freeset == old(freeset) + {r}
    {
      ok := true;
      SparesSelf(V(), allow);
      var pick := freeset * allow;
      if pick == {} {
        NoneFree(allow, freeset);
        ok, r := Evict(allow, cur);
        if ok { NotHome(old(V()), V(), x, cur, r); }
        return;
      }
      if ir[x].home.Hint? {
        r := ir[x].home.hint;
        if r in pick { return; }
        if r in allow {
          OwnerLives(V(), r);
          if CanRemat(cost[r].ref) {
            r := Rematk(cost[r].ref, cur);
            SparesWider(old(V()), V(), {r}, allow);
            NotHome(old(V()), V(), x, cur, r);
            return;
          }
        }
      }
      r := Choose(x, pick);
    }

    /** The register of x for a use at this point; allow counts only if x has none yet. */
    method Alloc1(x: int, allow: set<int>, ghost cur: int) returns (ok: bool, r: int)
      requires Good(V(), cur) && x in ir && x < cur && allow <= all
      requires !ir[x].home.InReg? ==> allow != {} && forall q :: q in allow - freeset ==> Clear(V(), q)
      requires forall q :: q in allow ==> (q >= MAX_GPR) == ir[x].fp
      modifies this`freeset, this`modset, this`weakset, this`ir, this`cost, this`code, this`need, this`evenspill,
               this`oddspill
      ensures !ok ==> evenspill > MAX_SPILL && old(Budget(V())) > MAX_SPILL
      ensures ok ==>
        Good(V(), cur) && Lives(V(), x, r) && R(r) in need && need[R(r)] == x && Spares(old(V()), V(), allow)
      ensures ok ==> (r >= MAX_GPR) == old(ir)[x].fp
      ensures ok ==> forall q :: q in old(freeset) ==> q in freeset || q == r
    {
      hide Good, Spares, Lives, Budget;
      SparesSelf(V(), allow);
      HonestOne(V(), x, cur);
      ok := true;
      if ir[x].home.InReg? { r := ir[x].home.reg; } else { ok, r := AllocRef(x, allow, cur); }
      if !ok { return; }
      ghost var v := V();
      NeedGood(v, x, r, cur);
      weakset := weakset - {r};
      need := need[R(r) := x];
      SparesWider(v, V(), {}, allow);
      SparesTwo(old(V()), v, V(), allow);
      assert old(freeset) + {r} == freeset + {r};
    }

    /** A use that only exits need: the register may be given up without a reload. */
    method SnapAlloc(x: int, allow: set<int>, ghost cur: int) returns (ok: bool)
      requires Good(V(), cur) && x in ir && x < cur && x > REF_BASE && !ir[x].home.InReg? && !Spilled(ir[x])
               && allow <= all
      modifies this`freeset, this`modset, this`weakset, this`ir, this`cost, this`code, this`need, this`evenspill,
               this`oddspill
      requires forall q :: q in allow - freeset ==> Clear(V(), q)
      requires forall q :: q in allow ==> (q >= MAX_GPR) == ir[x].fp
      ensures !ok ==> evenspill > MAX_SPILL && old(Budget(V())) > MAX_SPILL
      ensures ok ==> Good(V(), cur) && Spares(old(V()), V(), allow) && x in ir && (ir[x].home.InReg? || Spilled(ir[x]))
      ensures ok ==> forall q :: q !in allow && q in old(freeset) ==> q in freeset
      ensures ok && old(freeset * allow) != {} ==>
        ir[x].home.InReg? && ir[x].home.reg in allow && (ir[x].phi || ir[x].home.reg in weakset)
      ensures ok && old(freeset * allow) == {} ==> Spilled(ir[x])
    {
      SparesSelf(V(), allow);
      if freeset * allow != {} {
        var r;
        ok, r := AllocRef(x, allow, cur);
        if ok && !ir[x].phi {
          ghost var v := V();
          WeakGood(v, r, cur);
          weakset := weakset + {r};
          SparesTwo(old(V()), v, V(), allow);
        }
      } else {
        ok := Spill(x, cur);
        if ok { SparesWider(old(V()), V(), {}, allow); }
      }
    }

    /** Moves the value in down to up for all code before this point. */
    method Rename(down: int, up: int)
      requires down in cost && cost[down].ref in ir && down != up
      modifies this`freeset, this`modset, this`weakset, this`ir, this`cost, this`code, this`need
      ensures V() == Renamed(old(V()), old(cost)[down].ref, down, up) && Grows(old(code), code)
      ensures forall cur {:trigger Good(V(), cur)} :: old(Renames(V(), down, up)) && Good(old(V()), cur) ==>
                Good(V(), cur) && Lives(V(), old(cost)[down].ref, up)
    {
      var x := cost[down].ref;
      ghost var v := V();
      cost := cost[up := cost[down]];
      ir := ir[x := ir[x].(home := InReg(up))];
      cost := cost[down := Cost(0, 0)];
      freeset, modset := freeset + {down}, modset + {down};
      freeset, weakset := freeset - {up}, weakset - {up};
      GrowsOne(Move(down, up), code);
      code, need := [Move(down, up)] + code, NeedMove(need, down, up, x);
      assert V() == Renamed(v, x, down, up);
      forall cur {:trigger Good(V(), cur)} | Renames(v, down, up) && Good(v, cur)
        ensures Good(V(), cur) && Lives(V(), x, up)
      {
        RenameGood(v, x, down, up, cur);
      }
    }

    /** Stores register r to the slot of x. */
    method Save(x: int, r: int)
      requires x in ir
      modifies this`code, this`need
      ensures V() == Filled(old(V()), x, r) && Grows(old(code), code)
    {
      GrowsOne(Store(ir[x].s, ir[x].wide, r), code);
      code, need := [Store(ir[x].s, ir[x].wide, r)] + code, NeedStore(need, ir[x].s, ir[x].wide, r, x);
    }

    /** Loads the value of x to register r, which is free before that. */
    method SpLoad(ghost x: int, r: int, a: int, wide: bool)
      modifies this`freeset, this`code, this`need
      ensures V() == Loaded(old(V()), x, r, a, wide) && Grows(old(code), code)
    {
      GrowsOne(RegCode.Load(r, a, wide), code);
      freeset := freeset + {r};
      code, need := [RegCode.Load(r, a, wide)] + code, NeedLoad(need, r, a, wide, x);
    }

    /** Moves the value of x from rp to r, which is free before that. */
    method MoveTo(ghost x: int, r: int, rp: int)
      modifies this`freeset, this`code, this`need
      ensures V() == Coalesced(old(V()), x, r, rp) && Grows(old(code), code)
    {
      GrowsOne(Move(r, rp), code);
      freeset := freeset + {r};
      code, need := [Move(r, rp)] + code, NeedMove(need, r, rp, x);
    }

    method SetHint(x: int, hint: int)
      requires x in ir
      modifies this`ir
      ensures V() == old(V()).(ir := old(ir)[x := old(ir)[x].(home := Hint(hint))])
    {
      ir := ir[x := ir[x].(home := Hint(hint))];
    }

    method Free(r: int)
      modifies this`freeset
      ensures V() == old(V()).(free := old(freeset) + {r})
    {
      freeset := freeset + {r};
    }

    /** Gives the free register r to x. */
    method Take(x: int, r: int)
      requires x in ir
      modifies this`freeset, this`weakset, this`ir, this`cost
      ensures exists weight {:trigger Cost(weight, x)} :: V() == Given(old(V()), x, r, Cost(weight, x))
    {
      var weight := x + if ir[x].phi then PHI_WEIGHT else 0;
      ir := ir[x := ir[x].(home := InReg(r))];
      freeset, weakset := freeset - {r}, weakset - {r};
      cost := cost[r := Cost(weight, x)];
      assert V() == Given(old(V()), x, r, Cost(weight, x));
    }

    /** Picks a free register for x: invariants avoid modified registers, others prefer those that calls keep. */
    method Choose(x: int, free: set<int>) returns (r: int)
      requires x in ir && free != {} && free <= all && Registers(V())
      ensures r in free
    {
      var pick := free;
      if x < loopref && !ir[x].phi {
        if pick - modset != {} { pick := pick - modset; }
        SomeReg(pick);
        r := Bot(pick, 0);
      } else {
        if pick - scratch != {} { pick := pick - scratch; }
        SomeReg(pick);
        r := Top(pick, NREGS);
      }
    }

    /** The register that the instruction of x will write; before it nothing of x is in play any more. */
    method Dest(x: int, allow: set<int>) returns (ok: bool, r: int)
      requires Good(V(), x + 1) && x in ir && allow != {} && allow <= all && pend == map[]
      requires forall q :: q in allow ==> (q >= MAX_GPR) == ir[x].fp
      modifies this`freeset, this`modset, this`ir, this`code, this`need, this`evenspill, this`oddspill, this`pend
      ensures !ok ==> evenspill > MAX_SPILL && old(Budget(V())) > MAX_SPILL
      ensures ok ==>
        r in all && r in freeset && Good(V(), x) && pend == map[R(r) := x] && ir.Keys == old(ir).Keys
        && Grows(old(code), code)
      ensures ok ==> Carries(old(V()), V()) && forall y {:trigger ir[y]} :: y in ir ==> Similar(ir[y], old(ir)[y])
      ensures ok ==> (r >= MAX_GPR) == old(ir)[x].fp
    {
      hide Good, Lives, Spares, Grows, Carries;
      ok, r := DestReg(x, allow);
      if !ok { return; }
      ghost var v := V();
      CarriesFrame(v, Defined(v, x, r));
      CarriesTwo(old(V()), v, Defined(v, x, r));
      DefineGood(v, x, r);
      Define(x, r);
      GrowsTwo(old(code), v.code, code);
    }

    /** From here on nothing of x is in play; r is free until the instruction writes it. */
    method Define(x: int, r: int)
      requires x in ir
      modifies this`freeset, this`modset, this`ir, this`code, this`need, this`pend
      ensures V() == Defined(old(V()), x, r) && Grows(old(code), code)
    {
      hide Grows;
      GrowsSelf(code);
      ir := ir[x := ir[x].(home := InReg(r))];
      freeset, modset := freeset + {r}, modset + {r};
      need, pend := need - {R(r)} - SlotOf(ir[x]), map[R(r) := x];
      if Spilled(ir[x]) {
        GrowsOne(Store(ir[x].s, ir[x].wide, r), code);
        code := [Store(ir[x].s, ir[x].wide, r)] + code;
      }
    }

    /** The choice of Dest: the register of x, its hint or a scratch register. */
    method DestReg(x: int, allow: set<int>) returns (ok: bool, r: int)
      requires Good(V(), x + 1) && x in ir && allow != {} && allow <= all && pend == map[]
      requires forall q :: q in allow ==> (q >= MAX_GPR) == ir[x].fp
      modifies this`freeset, this`modset, this`ir, this`code, this`need, this`evenspill, this`oddspill
      ensures !ok ==> evenspill > MAX_SPILL && old(Budget(V())) > MAX_SPILL
      ensures ok ==>
        r in all && Good(V(), x + 1) && pend == map[] && ir.Keys == old(ir).Keys && (Lives(V(), x, r) || r in freeset)
      ensures ok ==> Grows(old(code), code)
      ensures ok ==> (ir[x].home.InReg? ==> Lives(V(), x, r))
      ensures ok ==> Carries(old(V()), V()) && forall y {:trigger ir[y]} :: y in ir ==> Similar(ir[y], old(ir)[y])
      ensures ok ==> (r >= MAX_GPR) == old(ir)[x].fp
    {
      hide Inv, Grows, Budget;
      CarriesSelf(V());
      GrowsSelf(code);
      HonestOne(V(), x, x + 1);
      ok := true;
      if ir[x].home.InReg? {
        r := ir[x].home.reg;
      } else if ir[x].home.Hint? && ir[x].home.hint in freeset * allow {
        r := ir[x].home.hint;
        FreeIn(V(), r);
      } else {
        ok, r := Scratch(allow, x + 1);
        if !ok { return; }
        NotHome(old(V()), V(), x, x + 1, r);
      }
    }

    /** Frees all registers of a set that are in use. */
    method EvictAll(drop: set<int>, ghost cur: int) returns (ok: bool)
      requires Good(V(), cur) && drop <= all && (forall q :: q in drop - freeset ==> Clear(V(), q))
      modifies this`freeset, this`modset, this`ir, this`code, this`need, this`evenspill, this`oddspill
      ensures !ok ==> evenspill > MAX_SPILL && old(Budget(V())) > MAX_SPILL
      ensures ok ==>
        Good(V(), cur) && drop <= freeset && Spares(old(V()), V(), drop) && old(freeset) <= freeset && pend == old(pend)
    {
      hide Good, Spares, Lives, Budget;
      var work := drop - freeset;
      ok := true;
      SparesSelf(V(), drop);
      while work != {}
        invariant Good(V(), cur) && work == drop - freeset && Spares(old(V()), V(), drop) && old(freeset) <= freeset
                  && pend == old(pend)
        invariant forall q :: q in work ==> Clear(V(), q)
        decreases |work|
      {
        GoodRegisters(V(), cur);
        SomeReg(work);
        var r := Bot(work, 0);
        OwnerReads(V(), r);
        ghost var v := V();
        SparesReads(old(V()), v, drop);
        ok, r := Restore(cost[r].ref, cur);
        if !ok { return; }
        SparesWider(v, V(), {r}, drop);
        SparesTwo(old(V()), v, V(), drop);
        work := work - {r};
      }
      assert forall q :: q in drop && q !in freeset ==> q in work;
    }

    /** Evicts a set of registers, floating point registers first. */
    method EvictSet(drop: set<int>, ghost cur: int) returns (ok: bool)
      requires Good(V(), cur) && drop <= all && (forall q :: q in drop - freeset ==> Clear(V(), q))
      modifies this`freeset, this`modset, this`ir, this`code, this`need, this`evenspill, this`oddspill
      ensures !ok ==> evenspill > MAX_SPILL && old(Budget(V())) > MAX_SPILL
      ensures ok ==> Good(V(), cur) && drop <= freeset && Spares(old(V()), V(), drop) && old(freeset) <= freeset
    {
      hide Good, Spares, Lives, Budget;
      modset := modset + drop;
      var fprs := set q | q in drop && q >= MAX_GPR;
      ghost var v0 := V();
      ok := EvictAll(fprs, cur);
      if !ok { return; }
      ghost var v := V();
      SparesReads(v0, v, fprs);
      SparesWider(v0, v, fprs, drop);
      forall q | q in drop - freeset ensures Clear(v, q) { assert q in drop - old(freeset) && Clear(v0, q); }
      ok := EvictAll(drop, cur);
      if ok { SparesTwo(v0, v, V(), drop); }
    }

    /** Rematerializes all constants that are still in registers. */
    method EvictK(ghost cur: int)
      requires Good(V(), cur) && pend == map[]
      modifies this`freeset, this`modset, this`ir, this`code, this`need
      ensures Good(V(), cur) && pend == map[] && old(freeset) <= freeset && Grows(old(code), code)
      ensures forall r {:trigger r in freeset} :: r in all && r !in freeset && r in cost ==> !IsConst(cost[r].ref)
    {
      hide Good, Spares, Lives, Grows;
      GrowsSelf(code);
      var i := 0;
      GoodRegisters(V(), cur);
      while i < NREGS
        invariant 0 <= i <= NREGS && Good(V(), cur) && pend == map[] && old(freeset) <= freeset && cost == old(cost)
                  && Grows(old(code), code)
        invariant forall r {:trigger r in freeset} :: r in all && r !in freeset && r in cost && Order(r) < i ==>
          !IsConst(cost[r].ref)
      {
        GoodRegisters(V(), cur);
        var r := if i < NREGS - MAX_GPR then i + MAX_GPR else i - MAX_GPR;
        if r in all && r !in freeset {
          OwnerReads(V(), r);
          if IsConst(cost[r].ref) {
            ghost var before := V();
            var q := Rematk(cost[r].ref, cur);
            SparesReads(before, V(), {q});
            GrowsTwo(old(code), before.code, code);
          }
        }
        i := i + 1;
      }
      GoodRegisters(V(), cur);
    }

    /** Emits the instruction that reads uses and writes what it was expected to write. */
    method EmitOp(d: int, x: int, uses: seq<Operand>, ghost cur: int)
      requires Good(V(), cur) && pend == (if d >= 0 then map[R(d) := x] else map[])
      requires forall k {:trigger uses[k]} :: 0 <= k < |uses| ==>
        R(uses[k].r) in need && need[R(uses[k].r)] == uses[k].ref
      modifies this`code, this`pend
      ensures Good(V(), cur) && pend == map[] && code == [Op(d, x, uses)] + old(code)
    {
      ghost var v := V();
      GoodSafe(v, cur);
      OpSafe(need, d, x, uses, code);
      code, pend := [Op(d, x, uses)] + code, map[];
      CodeGood(v, V(), cur);
    }

    /** Emits a call, which destroys free registers. */
    method EmitClobber(junk: map<int, int>, ghost cur: int)
      requires Good(V(), cur) && pend == map[] && junk.Keys <= freeset
      modifies this`code
      ensures Good(V(), cur) && code == [Clobber(junk)] + old(code)
    {
      ghost var v := V();
      GoodSafe(v, cur);
      ClobberLeads(need, junk);
      SafeStep(Clobber(junk), need, need, pend, code);
      code := [Clobber(junk)] + code;
      CodeGood(v, V(), cur);
    }
  }

  /** The order in which EvictK visits registers. */
  function Order(r: int): int { if r >= MAX_GPR then r - MAX_GPR else r + MAX_GPR }

  lemma GoodRegisters(v: View, cur: int)
    requires Good(v, cur)
    ensures Registers(v)
  {
  }

  lemma OwnerReads(v: View, r: int)
    requires Registers(v) && r in v.all && r !in v.free
    ensures r in v.cost && v.cost[r].ref in v.ir && v.ir[v.cost[r].ref].home == InReg(r) && Lives(v, v.cost[r].ref, r)
  {
    OwnerLives(v, r);
  }

  /** Needed registers are in use. */
  lemma GoodSafe(v: View, cur: int)
    requires Good(v, cur)
    ensures Safe(v.need, v.pend, v.code) && forall r {:trigger R(r) in v.need} :: R(r) in v.need ==> r !in v.free
  {
    forall r {:trigger R(r) in v.need} | R(r) in v.need ensures r !in v.free { assert NeedOk(v, R(r)); }
  }

  lemma CodeGood(v: View, w: View, cur: int)
    requires Good(v, cur) && w == v.(code := w.code, pend := w.pend) && Safe(w.need, w.pend, w.code) && PendOk(w)
    ensures Good(w, cur)
  {
    RegistersFrame(v, w);
    forall l {:trigger NeedOk(w, l)} ensures NeedOk(w, l) { assert NeedOk(v, l); }
    forall y {:trigger Honest(w, y)} | y < cur ensures Honest(w, y) { assert Honest(v, y); }
  }

  lemma FreeIn(v: View, r: int)
    requires Inv(v) && r in v.free
    ensures r in v.all
  {
  }

  lemma HonestOne(v: View, x: int, cur: int)
    requires Good(v, cur) && x < cur && x in v.ir
    ensures v.ir[x].home.InReg? ==> Lives(v, x, v.ir[x].home.reg) && (v.ir[x].home.reg >= MAX_GPR) == v.ir[x].fp
  {
    assert Honest(v, x);
    if v.ir[x].home.InReg? { assert Owned(v, v.ir[x].home.reg); }
  }

  lemma WeakGood(v: View, r: int, cur: int)
    requires Good(v, cur) && R(r) !in v.need
    ensures var w := v.(weak := v.weak + {r}); Good(w, cur) && forall allow :: Spares(v, w, allow)
  {
    WeakInv(v, r);
    var w := v.(weak := v.weak + {r});
    CarriesFrame(v, w);
    GrowsSelf(v.code);
    forall y {:trigger Honest(w, y)} | y < cur ensures Honest(w, y) { assert Honest(v, y); }
  }

  /** Register down is in use, up is free, and no instruction is about to write either. */
  ghost predicate Renames(v: View, down: int, up: int) {
    && down in v.cost && Lives(v, v.cost[down].ref, down) && up in v.free && Clear(v, down) && Clear(v, up)
    && (down >= MAX_GPR) == (up >= MAX_GPR)
  }

  lemma RenameGood(v: View, x: int, down: int, up: int, cur: int)
    requires Good(v, cur) && Lives(v, x, down) && up in v.free && Clear(v, down) && Clear(v, up)
    requires (down >= MAX_GPR) == (up >= MAX_GPR)
    ensures Good(Renamed(v, x, down, up), cur) && Lives(Renamed(v, x, down, up), x, up)
  {
    RenameInv(v, x, down, up);
    var w := Renamed(v, x, down, up);
    assert down !in v.free;
    forall y {:trigger Honest(w, y)} | y < cur ensures Honest(w, y) { assert Honest(v, y); }
  }

  lemma DefineGood(v: View, x: int, r: int)
    requires Good(v, x + 1) && v.pend == map[] && x in v.ir && r in v.all && (Lives(v, x, r) || r in v.free)
    requires v.ir[x].home.InReg? ==> Lives(v, x, r)
    ensures Good(Defined(v, x, r), x)
  {
    DefineInv(v, x, r);
    var w := Defined(v, x, r);
    forall q {:trigger q in w.free} | q in w.all && q !in w.free && q in w.cost ensures w.cost[q].ref < x {
      assert q !in v.free;
      if v.cost[q].ref == x { DefinedOnce(v, x, r, q); }
    }
    forall l {:trigger l in w.need} | l in w.need ensures w.need[l] < x {
      assert NeedOk(v, l);
      if v.need[l] == x && l.R? { DefinedOnce(v, x, r, l.r); }
    }
    forall y {:trigger Honest(w, y)} | y < x ensures Honest(w, y) {
      assert Honest(v, y);
    }
  }

  /** An operation that takes a register away gives none to x. */
  lemma NotHome(v: View, w: View, x: int, cur: int, r: int)
    requires x in v.ir && !v.ir[x].home.InReg? && x < cur && w.free == v.free + {r} && Good(w, cur)
             && w.ir.Keys == v.ir.Keys && v.all == w.all
    requires w.cost == v.cost && Good(v, cur)
    ensures x in w.ir && !w.ir[x].home.InReg?
  {
    assert Honest(w, x);
    assert w.ir[x].home.InReg? ==> Owned(v, w.ir[x].home.reg);
  }

  lemma EmptyGood(v: View)
    requires v.free == v.all && (forall r :: r in v.all ==> 0 <= r < NREGS) && v.need == map[] && v.pend == map[]
             && v.code == []
    requires (forall x {:trigger v.ir[x]} :: x in v.ir ==> !v.ir[x].home.InReg? && v.ir[x].s == 0)
             && v.even == SPS_FIRST && v.odd == 0
    ensures forall cur {:trigger Good(v, cur)} :: Good(v, cur)
  {
    SafeEnd();
    forall x {:trigger SlotOk(v, x)} ensures SlotOk(v, x) { }
    forall x, y {:trigger SlotsApart(v, x, y)} ensures SlotsApart(v, x, y) { }
    forall l {:trigger NeedOk(v, l)} ensures NeedOk(v, l) { }
    forall r {:trigger Owned(v, r)} ensures Owned(v, r) { }
    forall y {:trigger Honest(v, y)} ensures Honest(v, y) { }
  }

  lemma NoneFree(allow: set<int>, free: set<int>)
    requires free * allow == {}
    ensures allow !! free && allow - free == allow
  {
    forall q | q in allow ensures q !in free { assert q in free ==> q in free * allow; }
  }

  lemma SparesReads(v: View, w: View, allow: set<int>)
    requires Spares(v, w, allow)
    ensures w.pend == v.pend && w.ir.Keys == v.ir.Keys && w.all == v.all && Grows(v.code, w.code) && Carries(v, w)
            && Budget(w) <= Budget(v)
  {
  }

  lemma SparesKind(v: View, w: View, allow: set<int>, x: int)
    requires Spares(v, w, allow) && x in v.ir
    ensures x in w.ir && w.ir[x].fp == v.ir[x].fp
  {
    assert x in w.ir.Keys && Similar(w.ir[x], v.ir[x]);
  }

  lemma SparesWider(v: View, w: View, allow: set<int>, more: set<int>)
    requires Spares(v, w, allow) && allow <= more
    ensures Spares(v, w, more)
  {
  }
}
