/** The register allocator's state and its invariant. */
module RegState {
  import opened RegCode

  const MAX_GPR := 16
  const REF_BASE := 0x8000
  const SPS_FIRST := 2
  const NREGS := 32

  /** Where a reference's value is: in no register, with or without a hint for one, or in a register. */
  datatype Home = NoHome | Hint(hint: int) | InReg(reg: int)

  /** What the allocator keeps of an IR instruction; slot 0 means no spill slot. */
  datatype Ins = Ins(home: Home, s: int, wide: bool, fp: bool, phi: bool)

  datatype Cost = Cost(weight: int, ref: int)

  /** free: registers without a value; need: what must hold before the code; pend: what the next instruction will
      write. */
  datatype View = View(all: set<int>, free: set<int>, weak: set<int>, cost: map<int, Cost>, ir: map<int, Ins>,
                       even: int, odd: int,
                       need: Need, pend: Need, code: seq<Instr>)

  predicate Spilled(x: Ins) { x.s != 0 }

  /** Used references are those that later code has asked for. */
  predicate Used(x: Ins) { x.home.InReg? || Spilled(x) }

  function SlotOf(x: Ins): set<Loc> {
    if Spilled(x) then Units(x.s, x.wide) else {}
  }

  /** The registers of one kind. */
  function Regs(all: set<int>, fp: bool): set<int> { set r | r in all && (r >= MAX_GPR) == fp }

  /** A register in use belongs to a reference that says so, and that is of its kind. */
  ghost predicate Owned(v: View, r: int) {
    r in v.all && r !in v.free ==>
      && r in v.cost && v.cost[r].ref in v.ir && v.ir[v.cost[r].ref].home == InReg(r)
      && v.ir[v.cost[r].ref].fp == (r >= MAX_GPR)
  }

  /** Slots of two units are even, and all slots lie below the next free ones. */
  ghost predicate SlotOk(v: View, x: int) {
    x in v.ir && Spilled(v.ir[x]) ==>
      var s := v.ir[x].s;
      && x > REF_BASE && SPS_FIRST <= s < v.even && (v.ir[x].wide ==> s % 2 == 0)
      && (v.odd != 0 ==> s != v.odd && (v.ir[x].wide ==> s + 1 != v.odd))
  }

  /** Slots of different references do not overlap. */
  ghost predicate SlotsApart(v: View, x: int, y: int) {
    x in v.ir && y in v.ir && x != y ==> SlotOf(v.ir[x]) !! SlotOf(v.ir[y])
  }

  ghost predicate Slots(v: View) {
    && v.even % 2 == 0 && v.even >= SPS_FIRST
    && (v.odd == 0 || (v.odd % 2 == 1 && SPS_FIRST < v.odd < v.even))
    && (forall x {:trigger SlotOk(v, x)} :: SlotOk(v, x))
    && (forall x, y {:trigger SlotsApart(v, x, y)} :: SlotsApart(v, x, y))
  }

  /** A needed register is in use for that reference and not weak; a needed unit is in that reference's slot. */
  ghost predicate NeedOk(v: View, l: Loc) {
    l in v.need ==>
      match l
      case R(r) => r in v.all && r !in v.free && r !in v.weak && r in v.cost && v.cost[r].ref == v.need[l]
      case S(a) => v.need[l] in v.ir && l in SlotOf(v.ir[v.need[l]])
  }

  ghost predicate PendOk(v: View) {
    forall l {:trigger l in v.pend} :: l in v.pend ==> l.R?
  }

  ghost predicate Registers(v: View) {
    && v.free <= v.all
    && (forall r {:trigger r in v.all} :: r in v.all ==> 0 <= r < NREGS)
    && (forall r {:trigger Owned(v, r)} :: Owned(v, r))
  }

  ghost predicate Needs(v: View) {
    && (forall l {:trigger NeedOk(v, l)} :: NeedOk(v, l)) && PendOk(v) && Safe(v.need, v.pend, v.code)
  }

  ghost predicate Inv(v: View) {
    Registers(v) && Slots(v) && Needs(v)
  }

  /** Reference x lives in register r. */
  ghost predicate Lives(v: View, x: int, r: int) {
    r in v.all && r !in v.free && r in v.cost && v.cost[r].ref == x && x in v.ir && v.ir[x].home == InReg(r)
  }

  /** Two registers in use never have the same owner. */
  lemma OneHome(v: View, r: int, q: int)
    requires Registers(v) && r in v.all - v.free && q in v.all - v.free && r in v.cost && q in v.cost
             && v.cost[r].ref == v.cost[q].ref
    ensures r == q
  {
    assert Owned(v, r) && Owned(v, q);
  }

  lemma OwnerLives(v: View, r: int)
    requires Registers(v) && r in v.all && r !in v.free
    ensures r in v.cost && Lives(v, v.cost[r].ref, r)
  {
    assert Owned(v, r);
  }

  // Spill slots.

  /** The next slot for a value. */
  function NewSlot(v: View, wide: bool): int {
    if !wide && v.odd != 0 then v.odd else v.even
  }

  function WithSlot(v: View, x: int): View
    requires x in v.ir
  {
    var wide := v.ir[x].wide;
    v.(ir := v.ir[x := v.ir[x].(s := NewSlot(v, wide))],
       even := if !wide && v.odd != 0 then v.even else v.even + 2,
       odd := if wide then v.odd else if v.odd != 0 then 0 else v.even + 1)
  }

  lemma SpillInv(v: View, x: int)
    requires Inv(v) && x in v.ir && !Spilled(v.ir[x]) && x > REF_BASE
    ensures Inv(WithSlot(v, x)) && Spilled(WithSlot(v, x).ir[x])
  {
    var w := WithSlot(v, x);
    forall y {:trigger SlotOk(w, y)} ensures SlotOk(w, y) { assert SlotOk(v, y); }
    forall y, z {:trigger SlotsApart(w, y, z)} ensures SlotsApart(w, y, z) {
      assert SlotsApart(v, y, z) && SlotOk(v, y) && SlotOk(v, z);
    }
    forall r {:trigger Owned(w, r)} ensures Owned(w, r) { assert Owned(v, r); }
    forall l {:trigger NeedOk(w, l)} ensures NeedOk(w, l) { assert NeedOk(v, l); }
  }

  // Registers.

  function Freed(v: View, x: int, r: int, home: Home): View
    requires x in v.ir
  {
    v.(free := v.free + {r}, ir := v.ir[x := v.ir[x].(home := home)])
  }

  /** Freeing a register takes its owner out of it. */
  lemma FreedRegisters(v: View, x: int, r: int, home: Home)
    requires Registers(v) && Lives(v, x, r) && !home.InReg?
    ensures Registers(Freed(v, x, r, home))
  {
    var w := Freed(v, x, r, home);
    forall q {:trigger Owned(w, q)} ensures Owned(w, q) {
      assert Owned(v, q);
      if q in v.all - v.free && q != r { if v.cost[q].ref == x { OneHome(v, q, r); } }
    }
  }

  lemma FreedSlots(v: View, x: int, r: int, home: Home)
    requires Slots(v) && x in v.ir
    ensures Slots(Freed(v, x, r, home))
  {
    var w := Freed(v, x, r, home);
    forall y {:trigger SlotOk(w, y)} ensures SlotOk(w, y) { assert SlotOk(v, y); }
    forall y, z {:trigger SlotsApart(w, y, z)} ensures SlotsApart(w, y, z) { assert SlotsApart(v, y, z); }
  }

  /** What the pending instruction writes is not touched by code that comes after it. */
  ghost predicate Clear(v: View, r: int) { R(r) !in v.pend }

  /** Evicting a reference that is a constant, or BASE: it is loaded anew. */
  lemma RematInv(v: View, x: int, r: int, home: Home)
    requires Inv(v) && Lives(v, x, r) && !home.InReg? && Clear(v, r)
    ensures Inv(Freed(v, x, r, home).(need := NeedConst(v.need, r), code := [Const(r, x)] + v.code))
  {
    var w := Freed(v, x, r, home).(need := NeedConst(v.need, r), code := [Const(r, x)] + v.code);
    FreedRegisters(v, x, r, home);
    FreedSlots(v, x, r, home);
    assert NeedOk(v, R(r));
    ConstLeads(v.need, r, x);
    SafeStep(Const(r, x), w.need, v.need, v.pend, v.code);
    RegistersFrame(Freed(v, x, r, home), w);
    forall l {:trigger NeedOk(w, l)} ensures NeedOk(w, l) { assert NeedOk(v, l); }
  }

  /** Registers and slots do not depend on need and code. */
  lemma RegistersFrame(v: View, w: View)
    requires w == v.(need := w.need, pend := w.pend, code := w.code)
    ensures Registers(v) ==> Registers(w)
    ensures Slots(v) ==> Slots(w)
  {
    if Registers(v) { forall q {:trigger Owned(w, q)} ensures Owned(w, q) { assert Owned(v, q); } }
    if Slots(v) {
      forall y {:trigger SlotOk(w, y)} ensures SlotOk(w, y) { assert SlotOk(v, y); }
      forall y, z {:trigger SlotsApart(w, y, z)} ensures SlotsApart(w, y, z) { assert SlotsApart(v, y, z); }
    }
  }

  /** Evicting another reference: the code reloads it from its slot, unless the use was weak. */
  function Restored(v: View, x: int, r: int): View
    requires x in v.ir
  {
    var w := Freed(v, x, r, Hint(r));
    if r in v.weak then w
    else w.(need := NeedLoad(v.need, r, v.ir[x].s, v.ir[x].wide, x),
            code := [Load(r, v.ir[x].s, v.ir[x].wide)] + v.code)
  }

  lemma RestoreInv(v: View, x: int, r: int)
    requires Inv(v) && Lives(v, x, r) && Spilled(v.ir[x]) && Clear(v, r)
    ensures Inv(Restored(v, x, r))
  {
    var w, s, wide := Restored(v, x, r), v.ir[x].s, v.ir[x].wide;
    FreedRegisters(v, x, r, Hint(r));
    FreedSlots(v, x, r, Hint(r));
    RegistersFrame(Freed(v, x, r, Hint(r)), w);
    assert NeedOk(v, R(r));
    UnitsAgree(v, x);
    LoadLeads(v.need, r, s, wide, x);
    SafeStep(Load(r, s, wide), NeedLoad(v.need, r, s, wide, x), v.need, v.pend, v.code);
    forall l {:trigger NeedOk(w, l)} ensures NeedOk(w, l) { assert NeedOk(v, l); }
  }

  /** The units of a slot are needed for its reference only. */
  lemma UnitsAgree(v: View, x: int)
    requires Slots(v) && Needs(v) && x in v.ir && Spilled(v.ir[x])
    ensures forall l {:trigger l in SlotOf(v.ir[x])} :: l in SlotOf(v.ir[x]) ==> Agrees(v.need, l, x)
    ensures Agrees(v.need, S(v.ir[x].s), x) && (v.ir[x].wide ==> Agrees(v.need, S(v.ir[x].s + 1), x))
  {
    forall l {:trigger l in SlotOf(v.ir[x])} | l in SlotOf(v.ir[x]) ensures Agrees(v.need, l, x) {
      assert NeedOk(v, l);
      if l in v.need { assert SlotsApart(v, x, v.need[l]); }
    }
    assert S(v.ir[x].s) in SlotOf(v.ir[x]) && (v.ir[x].wide ==> S(v.ir[x].s + 1) in SlotOf(v.ir[x]));
  }

  /** A free register is given to x. */
  function Given(v: View, x: int, r: int, cost: Cost): View
    requires x in v.ir
  {
    v.(free := v.free - {r}, weak := v.weak - {r}, cost := v.cost[r := cost],
       ir := v.ir[x := v.ir[x].(home := InReg(r))])
  }

  lemma GiveInv(v: View, x: int, r: int, weight: int)
    requires Inv(v) && r in v.free && x in v.ir && !v.ir[x].home.InReg? && v.ir[x].fp == (r >= MAX_GPR)
    ensures Inv(Given(v, x, r, Cost(weight, x))) && Lives(Given(v, x, r, Cost(weight, x)), x, r)
  {
    var w := Given(v, x, r, Cost(weight, x));
    forall q {:trigger Owned(w, q)} ensures Owned(w, q) { assert Owned(v, q); }
    forall y {:trigger SlotOk(w, y)} ensures SlotOk(w, y) { assert SlotOk(v, y); }
    forall y, z {:trigger SlotsApart(w, y, z)} ensures SlotsApart(w, y, z) { assert SlotsApart(v, y, z); }
    forall l {:trigger NeedOk(w, l)} ensures NeedOk(w, l) { assert NeedOk(v, l); }
  }

  /** The value of x is needed in its register from now on. */
  lemma NeedInv(v: View, x: int, r: int)
    requires Inv(v) && Lives(v, x, r)
    ensures Inv(v.(weak := v.weak - {r}, need := v.need[R(r) := x]))
  {
    var w := v.(weak := v.weak - {r}, need := v.need[R(r) := x]);
    assert NeedOk(v, R(r));
    SafeMore(v.need, w.need, v.pend, v.code);
    forall q {:trigger Owned(w, q)} ensures Owned(w, q) { assert Owned(v, q); }
    forall y {:trigger SlotOk(w, y)} ensures SlotOk(w, y) { assert SlotOk(v, y); }
    forall y, z {:trigger SlotsApart(w, y, z)} ensures SlotsApart(w, y, z) { assert SlotsApart(v, y, z); }
    forall l {:trigger NeedOk(w, l)} ensures NeedOk(w, l) { assert NeedOk(v, l); }
  }

  /** A register whose need has been dropped may become weak. */
  lemma WeakInv(v: View, r: int)
    requires Inv(v) && R(r) !in v.need
    ensures Inv(v.(weak := v.weak + {r}))
  {
    var w := v.(weak := v.weak + {r});
    forall q {:trigger Owned(w, q)} ensures Owned(w, q) { assert Owned(v, q); }
    forall y {:trigger SlotOk(w, y)} ensures SlotOk(w, y) { assert SlotOk(v, y); }
    forall y, z {:trigger SlotsApart(w, y, z)} ensures SlotsApart(w, y, z) { assert SlotsApart(v, y, z); }
    forall l {:trigger NeedOk(w, l)} ensures NeedOk(w, l) { assert NeedOk(v, l); }
  }

  /** The value in register down is kept in register up before this point. */
  function Renamed(v: View, x: int, down: int, up: int): View
    requires x in v.ir && down in v.cost
  {
    v.(free := v.free + {down} - {up}, weak := v.weak - {up}, cost := v.cost[up := v.cost[down]][down := Cost(0, 0)],
       ir := v.ir[x := v.ir[x].(home := InReg(up))],
       need := NeedMove(v.need, down, up, x), code := [Move(down, up)] + v.code)
  }

  lemma RenameInv(v: View, x: int, down: int, up: int)
    requires Inv(v) && Lives(v, x, down) && up in v.free && Clear(v, down) && Clear(v, up)
    requires (down >= MAX_GPR) == (up >= MAX_GPR)
    ensures Inv(Renamed(v, x, down, up)) && Lives(Renamed(v, x, down, up), x, up)
  {
    var w := Renamed(v, x, down, up);
    assert NeedOk(v, R(down)) && NeedOk(v, R(up)) && Owned(v, down);
    MoveLeads(v.need, down, up, x);
    SafeStep(Move(down, up), w.need, v.need, v.pend, v.code);
    forall q {:trigger Owned(w, q)} ensures Owned(w, q) {
      assert Owned(v, q);
      if q in v.all - v.free && q != down { if v.cost[q].ref == x { OneHome(v, q, down); } }
    }
    forall y {:trigger SlotOk(w, y)} ensures SlotOk(w, y) { assert SlotOk(v, y); }
    forall y, z {:trigger SlotsApart(w, y, z)} ensures SlotsApart(w, y, z) { assert SlotsApart(v, y, z); }
    forall l {:trigger NeedOk(w, l)} ensures NeedOk(w, l) { assert NeedOk(v, l); }
  }

  // Definitions.

  /** x is about to be computed into r: its register is free before that, and its slot is filled right after. */
  function Defined(v: View, x: int, r: int): View
    requires x in v.ir
  {
    v.(free := v.free + {r}, ir := v.ir[x := v.ir[x].(home := InReg(r))],
       need := v.need - {R(r)} - SlotOf(v.ir[x]), pend := map[R(r) := x],
       code := if Spilled(v.ir[x]) then [Store(v.ir[x].s, v.ir[x].wide, r)] + v.code else v.code)
  }

  lemma DefineInv(v: View, x: int, r: int)
    requires Inv(v) && v.pend == map[] && x in v.ir && r in v.all && (Lives(v, x, r) || r in v.free)
    requires v.ir[x].home.InReg? ==> Lives(v, x, r)
    ensures Inv(Defined(v, x, r))
  {
    var w := Defined(v, x, r);
    assert NeedOk(v, R(r));
    if Spilled(v.ir[x]) {
      var s, wide := v.ir[x].s, v.ir[x].wide;
      UnitsAgree(v, x);
      StoreLeads(v.need, s, wide, r, x);
      SafeStep(Store(s, wide, r), NeedStore(v.need, s, wide, r, x), v.need, map[], v.code);
      Expects(NeedStore(v.need, s, wide, r, x), r, x, w.code);
      assert NeedStore(v.need, s, wide, r, x) - {R(r)} == w.need;
    } else {
      Expects(v.need, r, x, v.code);
      assert v.need - {R(r)} == w.need;
    }
    forall q {:trigger Owned(w, q)} ensures Owned(w, q) {
      assert Owned(v, q);
      if q in v.all - v.free && q != r && v.cost[q].ref == x { DefinedOnce(v, x, r, q); }
    }
    forall y {:trigger SlotOk(w, y)} ensures SlotOk(w, y) { assert SlotOk(v, y); }
    forall y, z {:trigger SlotsApart(w, y, z)} ensures SlotsApart(w, y, z) { assert SlotsApart(v, y, z); }
    forall l {:trigger NeedOk(w, l)} ensures NeedOk(w, l) { assert NeedOk(v, l); }
  }

  lemma DefinedOnce(v: View, x: int, r: int, q: int)
    requires Registers(v) && q in v.all - v.free && q in v.cost && v.cost[q].ref == x && x in v.ir
             && (v.ir[x].home.InReg? ==> Lives(v, x, r))
    ensures q == r
  {
    assert Owned(v, q);
  }

  // The references still in play.

  /** Registers in use and needed values are of references below cur only. */
  ghost predicate Below(v: View, cur: int) {
    && (forall r {:trigger r in v.free} :: r in v.all && r !in v.free && r in v.cost ==> v.cost[r].ref < cur)
    && (forall l {:trigger l in v.need} :: l in v.need ==> v.need[l] < cur)
  }

  /** A reference below cur that claims a register has it. */
  ghost predicate Honest(v: View, y: int) {
    y in v.ir && v.ir[y].home.InReg? ==> Lives(v, y, v.ir[y].home.reg)
  }

  ghost predicate Good(v: View, cur: int) {
    Inv(v) && Below(v, cur) && forall y {:trigger Honest(v, y)} :: y < cur ==> Honest(v, y)
  }

  /** The references to floating point values. */
  function FpRefs(ir: map<int, Ins>): set<int> {
    set x | x in ir && ir[x].fp
  }

  predicate Similar(x: Ins, y: Ins) { x.fp == y.fp && x.wide == y.wide && x.phi == y.phi }

  function Unspilled(ir: map<int, Ins>): set<int> {
    set y | y in ir && y > REF_BASE && !Spilled(ir[y])
  }

  /** The slots that are taken, and those that can still be. */
  function Budget(v: View): int {
    v.even + 2 * |Unspilled(v.ir)|
  }

  /** No more slots are taken than there was budget for, and references that were asked for still are. */
  ghost predicate Carries(v: View, w: View) {
    Budget(w) <= Budget(v) && forall y {:trigger StaysUsed(v, w, y)} :: StaysUsed(v, w, y)
  }

  predicate StaysUsed(v: View, w: View, y: int) {
    y in v.ir && y > REF_BASE && Used(v.ir[y]) ==> y in w.ir && Used(w.ir[y])
  }

  lemma CarriesSelf(v: View)
    ensures Carries(v, v)
  {
  }

  lemma CarriesTwo(u: View, v: View, w: View)
    requires Carries(u, v) && Carries(v, w)
    ensures Carries(u, w)
  {
    forall y {:trigger StaysUsed(u, w, y)}
      ensures StaysUsed(u, w, y)
    {
      assert StaysUsed(u, v, y) && StaysUsed(v, w, y);
    }
  }

  lemma CarriesFrame(v: View, w: View)
    requires w.even == v.even && w.ir.Keys == v.ir.Keys
    requires forall y {:trigger w.ir[y]} :: y in v.ir ==>
      Spilled(w.ir[y]) == Spilled(v.ir[y]) && (y > REF_BASE && Used(v.ir[y]) ==> Used(w.ir[y]))
    ensures Carries(v, w)
  {
    assert Unspilled(w.ir) == Unspilled(v.ir);
  }

  lemma BudgetSpill(v: View, x: int)
    requires x in v.ir && x > REF_BASE && !Spilled(v.ir[x])
    ensures Budget(v) >= v.even + 2
  {
    assert Unspilled(v.ir) == {x} + (Unspilled(v.ir) - {x});
  }

  lemma CarriesSpill(v: View, w: View, x: int)
    requires x in v.ir && x > REF_BASE && !Spilled(v.ir[x]) && w.even <= v.even + 2
    requires x in w.ir && w.ir == v.ir[x := w.ir[x]] && Spilled(w.ir[x])
    ensures Carries(v, w)
  {
    assert Unspilled(v.ir) == Unspilled(w.ir) + {x} && x !in Unspilled(w.ir);
  }

  /** What lives in a register outside allow still does, and is needed there if it was. */
  ghost predicate Spares(v: View, w: View, allow: set<int>) {
    && v.all == w.all && v.pend == w.pend && w.ir.Keys == v.ir.Keys && Grows(v.code, w.code) && Carries(v, w)
    && (forall y, q {:trigger Lives(w, y, q)} :: q !in allow && Lives(v, y, q) ==> Lives(w, y, q))
    && (forall q {:trigger R(q) in w.need} :: q !in allow && R(q) in v.need ==>
        R(q) in w.need && w.need[R(q)] == v.need[R(q)])
    && (forall q {:trigger q in w.free} :: q !in allow ==> (q in w.free <==> q in v.free))
    && (forall y {:trigger w.ir[y]} :: y in v.ir ==> Similar(w.ir[y], v.ir[y]))
  }

  lemma SparesSelf(v: View, allow: set<int>)
    ensures Spares(v, v, allow)
  {
    GrowsSelf(v.code);
    CarriesSelf(v);
  }

  lemma SparesTwo(u: View, v: View, w: View, allow: set<int>)
    requires Spares(u, v, allow) && Spares(v, w, allow)
    ensures Spares(u, w, allow)
  {
    GrowsTwo(u.code, v.code, w.code);
    CarriesTwo(u, v, w);
    hide Grows, Carries;
    forall y, q {:trigger Lives(w, y, q)} | q !in allow && Lives(u, y, q)
      ensures Lives(w, y, q)
    {
      assert Lives(v, y, q);
    }
    forall q {:trigger R(q) in w.need} | q !in allow && R(q) in u.need
      ensures R(q) in w.need && w.need[R(q)] == u.need[R(q)]
    {
      assert R(q) in v.need;
    }
    forall q {:trigger q in w.free} | q !in allow
      ensures q in w.free <==> q in u.free
    {
      assert q in v.free <==> q in u.free;
    }
    forall y {:trigger w.ir[y]} | y in u.ir ensures Similar(w.ir[y], u.ir[y]) { assert Similar(v.ir[y], u.ir[y]); }
  }

  // The operations.

  lemma SpillGood(v: View, x: int, cur: int)
    requires Good(v, cur) && x in v.ir && !Spilled(v.ir[x]) && x > REF_BASE
    ensures Good(WithSlot(v, x), cur) && Spares(v, WithSlot(v, x), {}) && Spilled(WithSlot(v, x).ir[x])
    ensures forall y, q :: Lives(v, y, q) ==> Lives(WithSlot(v, x), y, q)
  {
    SpillInv(v, x);
    var w := WithSlot(v, x);
    CarriesSpill(v, w, x);
    GrowsSelf(v.code);
    hide Carries, Grows;
    forall y {:trigger Honest(w, y)} | y < cur ensures Honest(w, y) { assert Honest(v, y); }
  }

  lemma RematGood(v: View, x: int, r: int, home: Home, cur: int)
    requires Good(v, cur) && Lives(v, x, r) && !home.InReg? && Clear(v, r) && x <= REF_BASE
    ensures var w := Freed(v, x, r, home).(need := NeedConst(v.need, r), code := [Const(r, x)] + v.code);
            Good(w, cur) && Spares(v, w, {r})
  {
    var w := Freed(v, x, r, home).(need := NeedConst(v.need, r), code := [Const(r, x)] + v.code);
    RematInv(v, x, r, home);
    GrowsOne(Const(r, x), v.code);
    CarriesFrame(v, w);
    FreedElsewhere(v, w, x, r, cur);
  }

  lemma RestoreGood(v: View, x: int, r: int, cur: int)
    requires Good(v, cur) && Lives(v, x, r) && Spilled(v.ir[x]) && Clear(v, r)
    ensures Good(Restored(v, x, r), cur) && Spares(v, Restored(v, x, r), {r})
  {
    RestoreInv(v, x, r);
    UnitsAgree(v, x);
    assert r !in v.free && NeedOk(v, R(r));
    CarriesFrame(v, Restored(v, x, r));
    GrowsSelf(v.code);
    GrowsOne(Load(r, v.ir[x].s, v.ir[x].wide), v.code);
    FreedElsewhere(v, Restored(v, x, r), x, r, cur);
  }

  /** Freeing x's register r leaves the others alone. */
  lemma FreedElsewhere(v: View, w: View, x: int, r: int, cur: int)
    requires Good(v, cur) && Lives(v, x, r)
    requires w.free == v.free + {r} && w.cost == v.cost && w.all == v.all && w.pend == v.pend
    requires w.ir.Keys == v.ir.Keys
             && (forall y {:trigger w.ir[y]} :: y in v.ir ==>
                 Similar(w.ir[y], v.ir[y]) && (y != x ==> w.ir[y] == v.ir[y]))
    requires !w.ir[x].home.InReg? && Grows(v.code, w.code) && Carries(v, w)
    requires forall l {:trigger l in w.need} :: l in w.need ==>
      l != R(r) && (if l in v.need then w.need[l] == v.need[l] else l.S? && w.need[l] == x)
    requires forall l {:trigger l in w.need} :: l in v.need && l != R(r) ==> l in w.need
    ensures Below(w, cur) && Spares(v, w, {r}) && forall y {:trigger Honest(w, y)} :: y < cur ==> Honest(w, y)
  {
    assert Owned(v, r);
    forall y, q {:trigger Lives(w, y, q)} | q !in {r} && Lives(v, y, q) ensures Lives(w, y, q) {
      if y == x { OneHome(v, q, r); }
    }
    forall y {:trigger Honest(w, y)} | y < cur ensures Honest(w, y) {
      assert Honest(v, y);
    }
  }

  lemma GiveGood(v: View, x: int, r: int, weight: int, cur: int)
    requires Good(v, cur) && r in v.free && x in v.ir && !v.ir[x].home.InReg? && x < cur
    requires v.ir[x].fp == (r >= MAX_GPR)
    ensures var w := Given(v, x, r, Cost(weight, x));
            Good(w, cur) && Lives(w, x, r) && Spares(v, w, {r}) && R(r) !in w.need
  {
    assert NeedOk(v, R(r));
    GiveInv(v, x, r, weight);
    var w := Given(v, x, r, Cost(weight, x));
    CarriesFrame(v, w);
    GrowsSelf(v.code);
    forall y, q {:trigger Lives(w, y, q)} | q !in {r} && Lives(v, y, q) ensures Lives(w, y, q) { }
    forall y {:trigger Honest(w, y)} | y < cur ensures Honest(w, y) { assert Honest(v, y); }
  }

  lemma NeedGood(v: View, x: int, r: int, cur: int)
    requires Good(v, cur) && Lives(v, x, r) && x < cur
    ensures var w := v.(weak := v.weak - {r}, need := v.need[R(r) := x]);
            Good(w, cur) && Lives(w, x, r) && Spares(v, w, {})
  {
    NeedInv(v, x, r);
    var w := v.(weak := v.weak - {r}, need := v.need[R(r) := x]);
    assert NeedOk(v, R(r));
    CarriesFrame(v, w);
    GrowsSelf(v.code);
    forall y, q {:trigger Lives(w, y, q)} | Lives(v, y, q) ensures Lives(w, y, q) { }
    forall y {:trigger Honest(w, y)} | y < cur ensures Honest(w, y) { assert Honest(v, y); }
  }

  // Single steps of the head of a side trace.

  function Filled(v: View, x: int, r: int): View
    requires x in v.ir
  {
    v.(need := NeedStore(v.need, v.ir[x].s, v.ir[x].wide, r, x), code := [Store(v.ir[x].s, v.ir[x].wide, r)] + v.code)
  }

  /** Register r gets the value of x from the parent's slot. */
  function Loaded(v: View, x: int, r: int, a: int, wide: bool): View {
    v.(free := v.free + {r}, need := NeedLoad(v.need, r, a, wide, x), code := [Load(r, a, wide)] + v.code)
  }

  /** A free parent register's value moves to its target. */
  function Coalesced(v: View, x: int, r: int, rp: int): View {
    v.(free := v.free + {r}, need := NeedMove(v.need, r, rp, x), code := [Move(r, rp)] + v.code)
  }
}
