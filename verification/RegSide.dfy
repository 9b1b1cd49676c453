/** The head of a side trace: matches the values that it inherits with the places where the parent leaves them. */
module RegSide {
  import opened RegCode
  import opened RegState
  import opened RegAlloc
  import opened RegHead

  /** The frame that a trace adds for its spill slots, in units. */
  function StackAdjust(even: int): int {
    if even <= SPS_FIXED then 0 else (even - SPS_FIXED + 3) / 4 * 4
  }

  ghost predicate InFrame(v: View, adjust: int, x: int) {
    x in v.ir && Spilled(v.ir[x]) ==> v.ir[x].s + (if v.ir[x].wide then 2 else 1) <= SPS_FIXED + adjust
  }

  /** All slots of the trace lie within a frame of this adjustment. */
  ghost predicate Framed(v: View, adjust: int) {
    forall x {:trigger InFrame(v, adjust, x)} :: InFrame(v, adjust, x)
  }

  lemma FrameHolds(v: View, adjust: int)
    requires Slots(v) && adjust >= StackAdjust(v.even)
    ensures Framed(v, adjust)
  {
    forall x {:trigger InFrame(v, adjust, x)} ensures InFrame(v, adjust, x) { assert SlotOk(v, x); }
  }

  /** The frame grows by whole steps, and by no step too many. */
  lemma FrameLeast(even: int)
    ensures StackAdjust(even) >= 0 && StackAdjust(even) % 4 == 0
    ensures StackAdjust(even) > 0 ==> SPS_FIXED + StackAdjust(even) - 4 < even
  {
  }

  /** The values are where the parent leaves them; its stack pointer is that of the trace plus down units. */
  ghost predicate LeftBy(par: map<int, Parent>, down: int, m: Machine, val: Values) {
    forall x {:trigger par[x]} :: x in par ==>
      match par[x]
      case InParent(r) => m(R(r)) == val(x)
      case OnStack(s, wide) => m(S(down + s)) == val(x) && (wide ==> m(S(down + s + 1)) == val(x))
  }

  lemma LeftInherits(par: map<int, Parent>, down: int, m: Machine, val: Values)
    requires LeftBy(par, down, m, val)
    ensures Inherits(Entry(par, down), m, val)
  {
  }

  lemma ShiftedApart(par: map<int, Parent>, down: int, x: int, y: int)
    requires PlacesApart(Entry(par, 0), x, y)
    ensures PlacesApart(Entry(par, down), x, y)
  {
    var e, g := Entry(par, 0), Entry(par, down);
    if x in par && y in par && x != y && par[x].OnStack? && par[y].OnStack? {
      var i, j := par[x].s, par[y].s;
      assert S(i) in Places(e, x) && S(j) in Places(e, y);
      assert par[x].wide ==> S(i + 1) in Places(e, x);
      assert par[y].wide ==> S(j + 1) in Places(e, y);
    }
  }

  /** Whether the parent's places are apart does not depend on where its frame is. */
  lemma ShiftedOk(par: map<int, Parent>, down: int, v: View, stop: int)
    requires EntryOk(Entry(par, 0), v, stop)
    ensures EntryOk(Entry(par, down), v, stop)
  {
    forall x, y {:trigger PlacesApart(Entry(par, down), x, y)} ensures PlacesApart(Entry(par, down), x, y) {
      ShiftedApart(par, down, x, y);
    }
  }

  // BASE.

  /** What is left when BASE has given up its register; pr is the parent's register of it. */
  function BaseView(v: View, modified: bool, pr: int): View {
    if REF_BASE !in v.ir || !v.ir[REF_BASE].home.InReg? then v
    else
      var r := v.ir[REF_BASE].home.reg;
      var w := v.(free := v.free + {r}, ir := if modified then v.ir[REF_BASE := v.ir[REF_BASE].(home := NoHome)]
                  else v.ir);
      if pr == r then w
      else if pr in w.free then w.(need := NeedMove(v.need, r, pr, REF_BASE), code := [Move(r, pr)] + v.code)
      else w.(need := NeedConst(v.need, r), code := [Const(r, REF_BASE)] + v.code)
  }

  /** The register that BASE shares with the parent, or -1. */
  function BaseReg(v: View, pr: int): int {
    if REF_BASE in v.ir && v.ir[REF_BASE].home.InReg? && (pr == v.ir[REF_BASE].home.reg || pr in v.free) then pr else -1
  }

  method HeadBase(ra: ASMState, pr: int) returns (pbase: int)
    requires REF_BASE in ra.ir
    modifies ra
    ensures exists m {:trigger BaseView(old(ra.V()), m, pr)} :: ra.V() == BaseView(old(ra.V()), m, pr)
    ensures pbase == BaseReg(old(ra.V()), pr) && Grows(old(ra.code), ra.code) && ra.evenspill == old(ra.evenspill)
  {
    GrowsSelf(ra.code);
    pbase := -1;
    ghost var modified := false;
    if ra.ir[REF_BASE].home.InReg? {
      var r := ra.ir[REF_BASE].home.reg;
      ra.Free(r);
      if r in ra.modset {
        modified := true;
        ra.ir := ra.ir[REF_BASE := ra.ir[REF_BASE].(home := NoHome)];
      }
      if pr == r {
        pbase := r;
      } else if pr in ra.freeset {
        ra.MoveTo(REF_BASE, r, pr);
        pbase := pr;
      } else {
        GrowsOne(Const(r, REF_BASE), ra.code);
        ra.code, ra.need := [Const(r, REF_BASE)] + ra.code, NeedConst(ra.need, r);
      }
    }
    assert ra.V() == BaseView(old(ra.V()), modified, pr);
  }

  ghost predicate NoConsts(v: View) {
    forall r {:trigger r in v.free} :: r in v.all && r !in v.free && r in v.cost ==> !IsConst(v.cost[r].ref)
  }

  lemma BaseSafe(v: View, modified: bool, pr: int, stop: int)
    requires Good(v, stop + 1) && stop >= REF_BASE && v.pend == map[]
    ensures var w := BaseView(v, modified, pr); Safe(w.need, map[], w.code)
  {
    if REF_BASE in v.ir && v.ir[REF_BASE].home.InReg? {
      var r := v.ir[REF_BASE].home.reg;
      assert Honest(v, REF_BASE) && NeedOk(v, R(r)) && NeedOk(v, R(pr));
      if pr == r {
      } else if pr in v.free {
        MoveLeads(v.need, r, pr, REF_BASE);
        SafeStep(Move(r, pr), NeedMove(v.need, r, pr, REF_BASE), v.need, map[], v.code);
      } else {
        ConstLeads(v.need, r, REF_BASE);
        SafeStep(Const(r, REF_BASE), NeedConst(v.need, r), v.need, map[], v.code);
      }
    }
  }

  /** The scan can start: with BASE and the constants gone, only inherited references are in play. */
  lemma StartInv(v: View, e: Entry, modified: bool, pr: int, stop: int)
    requires Good(v, stop + 1) && EntryOk(e, v, stop) && v.pend == map[] && NoConsts(v)
    requires (pr in v.all ==> REF_BASE in e.par && e.par[REF_BASE] == InParent(pr)) && (pr !in v.all ==> pr == -1)
    ensures var w, h := BaseView(v, modified, pr), Head(stop, v.all - {BaseReg(v, pr)}, {}, map[], {}, false, false);
            HeadInv(w, e, h) && EntryOk(e, w, stop)
  {
    var w, h := BaseView(v, modified, pr), Head(stop, v.all - {BaseReg(v, pr)}, {}, map[], {}, false, false);
    BaseSafe(v, modified, pr, stop);
    BaseRegisters(v, modified, pr, stop);
    StartNeeds(v, e, modified, pr, stop);
    StartUnits(v, e, modified, pr, stop);
    StartUses(v, e, modified, pr, stop);
    EntryStill(v, e, modified, pr, stop);
  }

  lemma EntryStill(v: View, e: Entry, modified: bool, pr: int, stop: int)
    requires Good(v, stop + 1) && EntryOk(e, v, stop)
    ensures var w, h := BaseView(v, modified, pr), Head(stop, v.all - {BaseReg(v, pr)}, {}, map[], {}, false, false);
            EntryOk(e, w, stop) && forall y {:trigger Waiting(w, e, h, y)} :: Waiting(w, e, h, y)
  {
    hide Inv, Below, PlacesApart;
    var w, h := BaseView(v, modified, pr), Head(stop, v.all - {BaseReg(v, pr)}, {}, map[], {}, false, false);
    assert Honest(v, REF_BASE);
    BaseKinds(v, modified, pr);
    forall y {:trigger Waiting(w, e, h, y)} ensures Waiting(w, e, h, y) { if y <= stop { assert Honest(v, y); } }
  }

  lemma BaseKinds(v: View, modified: bool, pr: int)
    ensures var w := BaseView(v, modified, pr);
            w.all == v.all && w.cost == v.cost && w.ir.Keys == v.ir.Keys && forall y {:trigger w.ir[y]} :: y in v.ir ==>
              w.ir[y].wide == v.ir[y].wide && (y != REF_BASE ==> w.ir[y] == v.ir[y])
  {
  }

  lemma StartNeeds(v: View, e: Entry, modified: bool, pr: int, stop: int)
    requires Good(v, stop + 1) && EntryOk(e, v, stop) && NoConsts(v)
    requires (pr in v.all ==> REF_BASE in e.par && e.par[REF_BASE] == InParent(pr)) && (pr !in v.all ==> pr == -1)
    ensures var w, h := BaseView(v, modified, pr), Head(stop, v.all - {BaseReg(v, pr)}, {}, map[], {}, false, false);
            forall q {:trigger RegNeed(w, e, h, q)} :: RegNeed(w, e, h, q)
  {
    var w, h := BaseView(v, modified, pr), Head(stop, v.all - {BaseReg(v, pr)}, {}, map[], {}, false, false);
    assert Honest(v, REF_BASE);
    forall q {:trigger RegNeed(w, e, h, q)} ensures RegNeed(w, e, h, q) {
      assert NeedOk(v, R(q)) && Owned(v, q);
      assert q in v.free || q !in v.free;
    }
  }

  lemma StartUnits(v: View, e: Entry, modified: bool, pr: int, stop: int)
    requires Good(v, stop + 1) && EntryOk(e, v, stop)
    ensures var w, h := BaseView(v, modified, pr), Head(stop, v.all - {BaseReg(v, pr)}, {}, map[], {}, false, false);
            forall a {:trigger UnitNeed(w, e, h, a)} :: UnitNeed(w, e, h, a)
  {
    var w, h := BaseView(v, modified, pr), Head(stop, v.all - {BaseReg(v, pr)}, {}, map[], {}, false, false);
    forall a {:trigger UnitNeed(w, e, h, a)} ensures UnitNeed(w, e, h, a) {
      assert NeedOk(v, S(a));
      if S(a) in v.need { assert SlotOk(v, v.need[S(a)]); assert v.need[S(a)] in e.par; }
    }
  }

  /** BASE's register is free afterwards, so its home no longer matters; nothing else changes. */
  lemma BaseParts(v: View, modified: bool, pr: int)
    ensures var w := BaseView(v, modified, pr);
            w.all == v.all && w.cost == v.cost && w.even == v.even && w.odd == v.odd && v.free <= w.free
    ensures var w := BaseView(v, modified, pr); forall y {:trigger w.ir[y]} {:trigger y in w.ir} ::
      (y in w.ir <==> y in v.ir) && (y in v.ir && y != REF_BASE ==> w.ir[y] == v.ir[y])
    ensures var w := BaseView(v, modified, pr); REF_BASE in v.ir ==>
      w.ir[REF_BASE].s == v.ir[REF_BASE].s && w.ir[REF_BASE].wide == v.ir[REF_BASE].wide
    ensures var w := BaseView(v, modified, pr);
            w.free - v.free <= v.all + w.free
            && (REF_BASE in v.ir && w.ir[REF_BASE] != v.ir[REF_BASE] ==>
                v.ir[REF_BASE].home.InReg? && v.ir[REF_BASE].home.reg in w.free)
    ensures var w := BaseView(v, modified, pr);
            w.free == v.free || (REF_BASE in v.ir && v.ir[REF_BASE].home.InReg?
                                 && w.free == v.free + {v.ir[REF_BASE].home.reg})
  {
  }

  lemma BaseRegisters(v: View, modified: bool, pr: int, stop: int)
    requires Good(v, stop + 1) && stop >= REF_BASE
    ensures Registers(BaseView(v, modified, pr)) && Slots(BaseView(v, modified, pr))
  {
    var w := BaseView(v, modified, pr);
    BaseParts(v, modified, pr);
    assert Honest(v, REF_BASE);
    hide BaseView;
    forall q {:trigger Owned(w, q)} ensures Owned(w, q) {
      assert Owned(v, q);
    }
    hide Owned, Honest;
    forall y {:trigger SlotOk(w, y)} ensures SlotOk(w, y) { assert SlotOk(v, y); }
    forall y, z {:trigger SlotsApart(w, y, z)} ensures SlotsApart(w, y, z) { assert SlotsApart(v, y, z); }
  }

  lemma StartUses(v: View, e: Entry, modified: bool, pr: int, stop: int)
    requires Good(v, stop + 1) && EntryOk(e, v, stop) && NoConsts(v)
    ensures var w, h := BaseView(v, modified, pr), Head(stop, v.all - {BaseReg(v, pr)}, {}, map[], {}, false, false);
            forall q {:trigger UseOk(w, e, h, q)} :: UseOk(w, e, h, q)
  {
    var w, h := BaseView(v, modified, pr), Head(stop, v.all - {BaseReg(v, pr)}, {}, map[], {}, false, false);
    assert Honest(v, REF_BASE);
    forall q {:trigger UseOk(w, e, h, q)} ensures UseOk(w, e, h, q) {
      assert Owned(v, q);
      if q in w.all && q !in w.free {
        assert q !in v.free;
        assert v.cost[q].ref in e.par;
      }
    }
  }

  // The passes.

  /** Scans all inherited references, from the last to the first: saves, matches and collects dependencies. */
  method Scan(ra: ASMState, e: Entry, stop: int, pbase: int) returns (h: Head)
    requires pbase in ra.all ==> pbase in Parents(e)
    requires HeadInv(ra.V(), e, Head(stop, ra.all - {pbase}, {}, map[], {}, false, false)) && EntryOk(e, ra.V(), stop)
    modifies ra
    ensures HeadInv(ra.V(), e, h) && Claims(ra.V(), e, h) && EntryOk(e, ra.V(), stop) && h.low == REF_BASE && !h.loading
    ensures Grows(old(ra.code), ra.code) && ra.evenspill == old(ra.evenspill)
    ensures forall x {:trigger x in h.marked} :: x in h.marked ==> x <= stop
  {
    hide HeadInv, Claims, Grows;
    GrowsSelf(ra.code);
    h := Head(stop, ra.all - {pbase}, {}, map[], {}, false, false);
    ClaimsStart(ra.V(), e, h, pbase);
    while h.low > REF_BASE
      invariant REF_BASE <= h.low <= stop && HeadInv(ra.V(), e, h) && Claims(ra.V(), e, h) && EntryOk(e, ra.V(), stop)
                && !h.loading
      invariant Grows(old(ra.code), ra.code) && ra.evenspill == old(ra.evenspill)
                && forall x {:trigger x in h.marked} :: x in h.marked ==> x <= stop
      decreases h.low
    {
      ghost var code := ra.code;
      h := ScanOne(ra, e, h, stop);
      GrowsTwo(old(ra.code), code, ra.code);
    }
  }

  /** The next reference of the scan. */
  method ScanOne(ra: ASMState, e: Entry, h0: Head, stop: int) returns (h: Head)
    requires REF_BASE < h0.low <= stop && HeadInv(ra.V(), e, h0) && Claims(ra.V(), e, h0) && EntryOk(e, ra.V(), stop)
             && !h0.loading
    requires forall x {:trigger x in h0.marked} :: x in h0.marked ==> x <= stop
    modifies ra
    ensures HeadInv(ra.V(), e, h) && Claims(ra.V(), e, h) && EntryOk(e, ra.V(), stop) && h.low == h0.low - 1
            && !h.loading
    ensures Grows(old(ra.code), ra.code) && ra.evenspill == old(ra.evenspill) && forall x {:trigger x in h.marked} ::
      x in h.marked ==> x <= stop
  {
    hide HeadInv, Claims, Grows;
    var x := h0.low;
    assert x in e.par && x in ra.ir;
    ScanInv(ra.V(), e, h0, x, stop);
    ClaimsScan(ra.V(), e, h0, x);
    hide EntryOk;
    h := ScanMatch(ra, e, h0, x);
  }

  /** What the scan does for x: saves its register to its slot, and matches it with the parent's place. */
  method ScanMatch(ra: ASMState, e: Entry, h0: Head, x: int) returns (h: Head)
    requires x in ra.ir && x in e.par && !h0.loading
    modifies ra
    ensures ra.V() == Scanned(old(ra.V()), e, x) && h == ScannedHead(old(ra.V()), e, h0, x)
            && Grows(old(ra.code), ra.code) && ra.evenspill == old(ra.evenspill)
  {
    hide Filled, Grows;
    GrowsSelf(ra.code);
    var i, p := ra.ir[x], e.par[x];
    var allow, live, sload, marked, pass3 := h0.allow, h0.live, h0.sload, h0.marked, h0.pass3;
    if i.home.InReg? {
      allow := allow - {i.home.reg};
      if Spilled(i) { ra.Save(x, i.home.reg); }
    } else if Spilled(i) {
      marked := marked + {x};
    }
    if p.InParent? && i.home == InReg(p.r) {
      ra.Free(p.r);
    } else if p.OnStack? {
      if i.home.InReg? { pass3 := true; }
    } else if i.home.InReg? || Spilled(i) {
      sload := sload[p.r := x];
      live := live + {p.r};
    }
    h := Head(x - 1, allow, live, sload, marked, pass3, false);
  }

  /** The head gives up in a state like any other, but with all registers of one kind taken. */
  ghost predicate Stuck(v: View, e: Entry, h: Head) {
    HeadInv(v, e, h) && Claims(v, e, h) && (Full(v, h, false) || Full(v, h, true))
  }

  lemma NoneLeft(v: View, h: Head, fp: bool, s: set<int>)
    requires s == {} && forall q {:trigger q in h.allow} ::
      q in v.free && q !in h.live && q in h.allow && (q >= MAX_GPR) == fp ==> q in s
    ensures Full(v, h, fp)
  {
  }

  /** Gives every spilled reference a register for the head, unless the parent has it in the same slot already. */
  method Reload(ra: ASMState, e: Entry, h0: Head, stop: int) returns (ok: bool, h: Head)
    requires HeadInv(ra.V(), e, h0) && Claims(ra.V(), e, h0) && EntryOk(e, ra.V(), stop) && h0.low == REF_BASE
             && !h0.loading
    requires forall x {:trigger x in h0.marked} :: x in h0.marked ==> x <= stop
    modifies ra
    ensures !ok ==> Stuck(ra.V(), e, h)
    ensures ok ==>
      HeadInv(ra.V(), e, h) && Claims(ra.V(), e, h) && EntryOk(e, ra.V(), stop) && h.low == REF_BASE && !h.loading
      && h.marked == {}
    ensures Grows(old(ra.code), ra.code) && ra.evenspill == old(ra.evenspill)
  {
    hide HeadInv, Claims, Grows;
    GrowsSelf(ra.code);
    h, ok := h0, true;
    var x := stop;
    while x > REF_BASE
      invariant Grows(old(ra.code), ra.code) && ra.evenspill == old(ra.evenspill)
      invariant REF_BASE <= x <= stop && HeadInv(ra.V(), e, h) && Claims(ra.V(), e, h) && EntryOk(e, ra.V(), stop)
                && h.low == REF_BASE && !h.loading
      invariant forall y {:trigger y in h.marked} :: y in h.marked ==> y <= x
    {
      if x in h.marked {
        ghost var code := ra.code;
        ok, h := ReloadOne(ra, e, h, x, stop);
        GrowsTwo(old(ra.code), code, ra.code);
        if !ok { return; }
      }
      x := x - 1;
    }
    MarkedAbove(ra.V(), e, h);
  }

  method ReloadOne(ra: ASMState, e: Entry, h0: Head, x: int, stop: int) returns (ok: bool, h: Head)
    requires HeadInv(ra.V(), e, h0) && Claims(ra.V(), e, h0) && EntryOk(e, ra.V(), stop) && h0.low == REF_BASE
             && !h0.loading && x in h0.marked
    modifies ra
    ensures !ok ==> Stuck(ra.V(), e, h)
    ensures ok ==>
      HeadInv(ra.V(), e, h) && Claims(ra.V(), e, h) && EntryOk(e, ra.V(), stop) && h.low == REF_BASE && !h.loading
      && h.marked == h0.marked - {x}
    ensures Grows(old(ra.code), ra.code) && ra.evenspill == old(ra.evenspill)
  {
    hide HeadInv, EntryOk, Registers, Claims, Grows;
    GrowsSelf(ra.code);
    h, ok := h0, true;
    MarkReads(ra.V(), e, h, x);
    var p := e.par[x];
    if p.InParent? {
      HintInv(ra.V(), e, h, x, p.r, stop);
      ClaimsHint(ra.V(), e, h, x, p.r);
      ra.SetHint(x, p.r);
      MarkReads(ra.V(), e, h, x);
    } else if p.s + e.delta == ra.ir[x].s {
      SameSlotInv(ra.V(), e, h, x, stop);
      ClaimsSame(ra.V(), ra.V(), e, h, h.(marked := h.marked - {x}));
      h := h.(marked := h.marked - {x});
      return;
    }
    ok, h := ReloadReg(ra, e, h, x, stop);
  }

  /** Gives the marked reference x a register that no match has claimed: its hint, if it can. */
  method ReloadReg(ra: ASMState, e: Entry, h0: Head, x: int, stop: int) returns (ok: bool, h: Head)
    requires HeadInv(ra.V(), e, h0) && Claims(ra.V(), e, h0) && EntryOk(e, ra.V(), stop) && h0.low == REF_BASE
             && !h0.loading && x in h0.marked
    requires x in e.par && x in ra.ir && (e.par[x].InParent? ==> ra.ir[x].home == Hint(e.par[x].r))
    modifies ra
    ensures !ok ==> Stuck(ra.V(), e, h)
    ensures ok ==>
      HeadInv(ra.V(), e, h) && Claims(ra.V(), e, h) && EntryOk(e, ra.V(), stop) && h.low == REF_BASE && !h.loading
      && h.marked == h0.marked - {x}
    ensures Grows(old(ra.code), ra.code) && ra.evenspill == old(ra.evenspill)
  {
    hide HeadInv, EntryOk, Registers, Claims, Grows;
    GrowsSelf(ra.code);
    h, ok := h0, true;
    MarkReads(ra.V(), e, h, x);
    var mask := set q | q in h.allow && (q >= MAX_GPR) == ra.ir[x].fp;
    if mask == {} {
      NoneLeft(ra.V(), h, ra.ir[x].fp, mask);
      return false, h;
    }
    AllowFree(ra.V(), e, h);
    var r;
    if ra.ir[x].home.Hint? && ra.ir[x].home.hint in mask { r := ra.ir[x].home.hint; } else { r := ra.Choose(x, mask); }
    ghost var v := ra.V();
    h := ReloadTo(ra, e, h, x, r);
    ghost var weight :| ra.V() == Reloaded(v, e, x, r, Cost(weight, x));
    ReloadInv(v, e, h0, x, r, weight, stop);
    ClaimsReload(v, e, h0, x, r, Cost(weight, x));
  }

  /** Gives register r to x, stores it to x's slot before that, and matches it with the parent's place. */
  method ReloadTo(ra: ASMState, e: Entry, h0: Head, x: int, r: int) returns (h: Head)
    requires x in ra.ir && x in e.par
    modifies ra
    ensures exists weight {:trigger Cost(weight, x)} :: ra.V() == Reloaded(old(ra.V()), e, x, r, Cost(weight, x))
    ensures h == ReloadedHead(e, h0, x, r) && Grows(old(ra.code), ra.code) && ra.evenspill == old(ra.evenspill)
  {
    ghost var v := ra.V();
    ra.Take(x, r);
    ghost var weight :| ra.V() == Given(v, x, r, Cost(weight, x));
    ra.Save(x, r);
    h := h0.(allow := h0.allow - {r}, marked := h0.marked - {x});
    var p := e.par[x];
    if p == InParent(r) {
      ra.Free(r);
      h := h.(live := h.live - {r});
    } else if p.OnStack? {
      h := h.(pass3 := true);
    }
    assert ra.V() == Reloaded(v, e, x, r, Cost(weight, x));
  }

  lemma MarkReads(v: View, e: Entry, h: Head, x: int)
    requires HeadInv(v, e, h) && x in h.marked
    ensures x in e.par && x in v.ir && !v.ir[x].home.InReg? && Registers(v) && h.allow <= v.all
  {
    assert MarkOk(v, e, h, x);
  }

  lemma MarkedAbove(v: View, e: Entry, h: Head)
    requires HeadInv(v, e, h) && forall y {:trigger y in h.marked} :: y in h.marked ==> y <= REF_BASE
    ensures h.marked == {}
  {
    forall y ensures y !in h.marked { assert MarkOk(v, e, h, y); }
  }

  /** Every register still in use waits for a parent register. */
  ghost predicate FromRegisters(v: View, e: Entry) {
    forall r {:trigger r in v.free} :: r in v.all && r !in v.free && r in v.cost && v.cost[r].ref in e.par ==>
      e.par[v.cost[r].ref].InParent?
  }

  /** Register r is free, or its value is not in a spill slot of the parent. */
  ghost predicate Settled(v: View, e: Entry, r: int) {
    r in v.all && r !in v.free && r in v.cost && v.cost[r].ref in e.par ==> e.par[v.cost[r].ref].InParent?
  }

  /** Loads register r if its value is in a spill slot of the parent. */
  method LoadOne(ra: ASMState, e: Entry, h: Head, r: int, stop: int)
    requires HeadInv(ra.V(), e, h) && Claims(ra.V(), e, h) && EntryOk(e, ra.V(), stop) && h.loading && r in ra.all
             && r !in ra.freeset
    modifies ra
    ensures HeadInv(ra.V(), e, h) && Claims(ra.V(), e, h) && EntryOk(e, ra.V(), stop) && Settled(ra.V(), e, r)
    ensures Grows(old(ra.code), ra.code) && ra.evenspill == old(ra.evenspill)
    ensures ra.cost == old(ra.cost) && old(ra.freeset) <= ra.freeset <= old(ra.freeset) + {r}
  {
    ghost var v := ra.V();
    UseReads(v, e, h, r);
    hide HeadInv, EntryOk, Claims, Grows;
    GrowsSelf(ra.code);
    var x := ra.cost[r].ref;
    if e.par[x].OnStack? {
      LoadInv(v, e, h, x, r, stop);
      EntryFrame(e, v, Loaded(v, x, r, e.par[x].s + e.delta, ra.ir[x].wide), stop);
      ra.SpLoad(x, r, e.par[x].s + e.delta, ra.ir[x].wide);
    }
  }

  /** Loads the registers whose values are in spill slots of the parent. */
  method LoadSpilled(ra: ASMState, e: Entry, h: Head, stop: int)
    requires HeadInv(ra.V(), e, h) && Claims(ra.V(), e, h) && EntryOk(e, ra.V(), stop) && h.loading
    modifies ra
    ensures HeadInv(ra.V(), e, h) && Claims(ra.V(), e, h) && EntryOk(e, ra.V(), stop) && FromRegisters(ra.V(), e)
            && Grows(old(ra.code), ra.code) && ra.evenspill == old(ra.evenspill)
  {
    hide HeadInv, EntryOk, Claims, Grows;
    GrowsSelf(ra.code);
    if !h.pass3 {
      NoSlots(ra.V(), e, h);
      return;
    }
    HeadRegisters(ra.V(), e, h);
    var work := ra.all - ra.freeset;
    while work != {}
      invariant HeadInv(ra.V(), e, h) && Claims(ra.V(), e, h) && EntryOk(e, ra.V(), stop)
                && work <= ra.all - ra.freeset && Grows(old(ra.code), ra.code) && ra.evenspill == old(ra.evenspill)
      invariant forall q {:trigger Settled(ra.V(), e, q)} :: q !in work ==> Settled(ra.V(), e, q)
      decreases |work|
    {
      HeadRegisters(ra.V(), e, h);
      ra.SomeReg(work);
      var r := Bot(work, 0);
      ghost var v := ra.V();
      LoadOne(ra, e, h, r, stop);
      GrowsTwo(old(ra.code), v.code, ra.code);
      StaySettled(v, ra.V(), e, r, work);
      work := work - {r};
    }
    assert FromRegisters(ra.V(), e) by {
      forall q {:trigger q in ra.V().free} ensures Settled(ra.V(), e, q) { }
    }
  }

  lemma StaySettled(v: View, w: View, e: Entry, r: int, work: set<int>)
    requires w.all == v.all && w.cost == v.cost && v.free <= w.free && Settled(w, e, r)
    requires forall q {:trigger Settled(v, e, q)} :: q !in work ==> Settled(v, e, q)
    ensures forall q {:trigger Settled(w, e, q)} :: q !in work - {r} ==> Settled(w, e, q)
  {
    forall q {:trigger Settled(w, e, q)} | q !in work - {r} ensures Settled(w, e, q) {
      assert q != r ==> Settled(v, e, q);
    }
  }

  lemma NoSlots(v: View, e: Entry, h: Head)
    requires HeadInv(v, e, h) && h.loading && !h.pass3
    ensures FromRegisters(v, e)
  {
    forall r {:trigger r in v.free} | r in v.all && r !in v.free && r in v.cost && v.cost[r].ref in e.par
      ensures e.par[v.cost[r].ref].InParent?
    {
      assert UseOk(v, e, h, r);
    }
  }

  lemma HeadRegisters(v: View, e: Entry, h: Head)
    requires HeadInv(v, e, h)
    ensures Registers(v) && Slots(v)
  {
  }

  lemma UseReads(v: View, e: Entry, h: Head, r: int)
    requires HeadInv(v, e, h) && r in v.all && r !in v.free
    ensures r in v.cost && v.cost[r].ref in e.par && Lives(v, v.cost[r].ref, r) && v.cost[r].ref in v.ir
  {
    assert UseOk(v, e, h, r) && Owned(v, r);
  }

  /** Moves all live parent registers to their targets, breaking cycles with a free register; gives up if there is
      none. */
  method Shuffle(ra: ASMState, e: Entry, h0: Head, stop: int) returns (ok: bool, ghost h: Head)
    requires HeadInv(ra.V(), e, h0) && Claims(ra.V(), e, h0) && EntryOk(e, ra.V(), stop) && h0.loading
             && FromRegisters(ra.V(), e)
    modifies ra
    ensures !ok ==> Stuck(ra.V(), e, h)
    ensures ok ==> forall m, val {:trigger Correct(ra.code, m, val)} :: Inherits(e, m, val) ==> Correct(ra.code, m, val)
    ensures Grows(old(ra.code), ra.code) && ra.evenspill == old(ra.evenspill)
    ensures ok ==> ra.freeset == ra.all && Slots(ra.V())
  {
    hide HeadInv, EntryOk, Full, Claims, Grows;
    GrowsSelf(ra.code);
    var g := h0;
    ok, h := true, h0;
    while true
      invariant Grows(old(ra.code), ra.code) && ra.evenspill == old(ra.evenspill)
      invariant h == g && HeadInv(ra.V(), e, h) && Claims(ra.V(), e, h) && EntryOk(e, ra.V(), stop) && h.loading
                && FromRegisters(ra.V(), e) && ok
      decreases |h.live|, ra.freeset * h.live == {}
    {
      ghost var live, stuck := h.live, ra.freeset * h.live == {};
      ghost var code := ra.code;
      g := Coalesce(ra, e, g, stop);
      h := g;
      GrowsTwo(old(ra.code), code, ra.code);
      if g.live == {} { break; }
      CardLess(h.live, live);
      var gprs, fprs := (set q | q in g.live && q < MAX_GPR), (set q | q in g.live && q >= MAX_GPR);
      AnyKind(h.live, gprs, fprs);
      assert forall q :: q in ra.freeset && q in h.live ==> q in ra.freeset * h.live;
      if gprs != {} {
        code := ra.code;
        ok := Break(ra, e, g, gprs, false, stop);
        GrowsTwo(old(ra.code), code, ra.code);
        if !ok { return; }
      }
      if fprs != {} {
        code := ra.code;
        ok := Break(ra, e, g, fprs, true, stop);
        GrowsTwo(old(ra.code), code, ra.code);
        if !ok { return; }
      }
    }
    HeadDone(ra.V(), e, h, stop);
    AllFree(ra.V(), e, h);
    HeadRegisters(ra.V(), e, h);
  }

  /** With no parent register left to move, no register is in use. */
  lemma AllFree(v: View, e: Entry, h: Head)
    requires HeadInv(v, e, h) && h.loading && h.live == {} && FromRegisters(v, e)
    ensures v.free == v.all
  {
    forall r | r in v.all ensures r in v.free { assert UseOk(v, e, h, r); }
  }

  lemma AnyKind(live: set<int>, gprs: set<int>, fprs: set<int>)
    requires live != {} && (forall q :: q in live ==> q in gprs || q in fprs)
    ensures gprs != {} || fprs != {}
  {
    assert (forall q :: q !in live) ==> live == {};
  }

  lemma CardLess(s: set<int>, t: set<int>)
    requires s <= t
    ensures |s| <= |t| && (s != t ==> |s| < |t|)
  {
    assert t == s + (t - s);
    assert s != t ==> t - s != {};
  }

  /** Moves the values of free live registers to their targets until none is left. */
  method Coalesce(ra: ASMState, e: Entry, h0: Head, stop: int) returns (h: Head)
    requires HeadInv(ra.V(), e, h0) && Claims(ra.V(), e, h0) && EntryOk(e, ra.V(), stop) && h0.loading
             && FromRegisters(ra.V(), e)
    modifies ra
    ensures HeadInv(ra.V(), e, h) && Claims(ra.V(), e, h) && EntryOk(e, ra.V(), stop) && h.loading
            && FromRegisters(ra.V(), e)
    ensures Grows(old(ra.code), ra.code) && ra.evenspill == old(ra.evenspill)
    ensures h.live <= h0.live && ra.freeset * h.live == {} && (old(ra.freeset) * h0.live != {} ==> h.live != h0.live)
  {
    hide HeadInv, EntryOk, Claims, Grows;
    GrowsSelf(ra.code);
    h := h0;
    var work := ra.freeset * h.live;
    while work != {}
      invariant Grows(old(ra.code), ra.code) && ra.evenspill == old(ra.evenspill)
      invariant HeadInv(ra.V(), e, h) && Claims(ra.V(), e, h) && EntryOk(e, ra.V(), stop) && h.loading
                && FromRegisters(ra.V(), e)
      invariant work == ra.freeset * h.live && h.live <= h0.live
                && (h.live != h0.live || work == old(ra.freeset) * h0.live)
      decreases |h.live|
    {
      ghost var v := ra.V();
      HeadRegisters(v, e, h);
      ra.SomeReg(work);
      var rp := Bot(work, 0);
      CoalesceInv(v, e, h, rp, stop);
      ClaimsCoalesce(v, e, h, rp);
      ghost var g := h.(live := h.live - {rp}, allow := h.allow - {rp});
      var x := h.sload[rp];
      var r := ra.ir[x].home.reg;
      EntryFrame(e, v, Coalesced(v, x, r, rp), stop);
      ClaimsSame(v, Coalesced(v, x, r, rp), e, g, g);
      CardLess(h.live - {rp}, h.live);
      h := h.(live := h.live - {rp}, allow := h.allow - {rp});
      ra.MoveTo(x, r, rp);
      GrowsTwo(old(ra.code), v.code, ra.code);
      work := ra.freeset * h.live;
    }
  }

  /** Renames the target in one of the live registers down to a register that is free and not spoken for. */
  method Break(ra: ASMState, e: Entry, h: Head, down: set<int>, fp: bool, stop: int) returns (ok: bool)
    requires HeadInv(ra.V(), e, h) && Claims(ra.V(), e, h) && EntryOk(e, ra.V(), stop) && h.loading
             && FromRegisters(ra.V(), e)
    requires down != {} && down <= h.live && down !! ra.freeset && (forall q :: q in down ==> (q >= MAX_GPR) == fp)
    modifies ra
    ensures !ok ==> Stuck(ra.V(), e, h)
    ensures ok ==> HeadInv(ra.V(), e, h) && Claims(ra.V(), e, h) && EntryOk(e, ra.V(), stop) && FromRegisters(ra.V(), e)
    ensures Grows(old(ra.code), ra.code) && ra.evenspill == old(ra.evenspill)
    ensures ok ==> ra.freeset * h.live != {} && forall q {:trigger q in ra.freeset} :: (q >= MAX_GPR) != fp ==>
      (q in ra.freeset <==> q in old(ra.freeset))
  {
    hide HeadInv, EntryOk, Claims, Grows;
    GrowsSelf(ra.code);
    var tmpset := set q | q in ra.freeset && q !in h.live && q in h.allow && (q >= MAX_GPR) == fp;
    if tmpset == {} {
      NoneLeft(ra.V(), h, fp, tmpset);
      return false;
    }
    ghost var v := ra.V();
    HeadRegisters(v, e, h);
    LiveRegisters(v, e, h);
    ra.SomeReg(down);
    ra.SomeReg(tmpset);
    var d, u := Bot(down, 0), Bot(tmpset, 0);
    BreakInv(v, e, h, d, u, stop);
    ClaimsBreak(v, e, h, d, u);
    StillFrom(v, e, h, d, u);
    ra.Rename(d, u);
    assert d in ra.freeset * h.live;
    ok := true;
  }

  lemma LiveRegisters(v: View, e: Entry, h: Head)
    requires HeadInv(v, e, h)
    ensures h.live <= v.all && v.free <= v.all
  {
    forall q | q in h.live ensures q in v.all { assert LiveOk(v, e, h, q); }
  }

  lemma StillFrom(v: View, e: Entry, h: Head, down: int, up: int)
    requires FromRegisters(v, e) && HeadInv(v, e, h) && down in v.all - v.free && down in v.cost
             && v.cost[down].ref in v.ir && up in v.free
    ensures FromRegisters(Renamed(v, v.cost[down].ref, down, up), e)
  {
    assert UseOk(v, e, h, down);
    var w := Renamed(v, v.cost[down].ref, down, up);
    forall r {:trigger r in w.free} | r in w.all && r !in w.free && r in w.cost && w.cost[r].ref in e.par
      ensures e.par[w.cost[r].ref].InParent?
    {
      assert down !in v.free;
      if r != up { assert r !in v.free; }
    }
  }

  /**
   * The head of a side trace. Unless it gives up because the registers of one kind are all taken, running its code
   * where the parent leaves off puts every inherited value into the register and the slot where the trace expects it:
   * the whole code is correct from any state in which the parent's places hold the values.
   */
  method HeadSide(ra: ASMState, par: map<int, Parent>, stop: int, pr: int, parentAdjust: int)
      returns (ok: bool, spadj: int, ghost h: Head)
    requires Good(ra.V(), stop + 1) && ra.pend == map[] && NoConsts(ra.V()) && REF_BASE in ra.ir
    requires EntryOk(Entry(par, 0), ra.V(), stop)
    requires (pr in ra.all ==> REF_BASE in par && par[REF_BASE] == InParent(pr)) && (pr !in ra.all ==> pr == -1)
    modifies ra
    ensures !ok ==> Stuck(ra.V(), Entry(par, spadj - parentAdjust), h)
    ensures 2 * |par| < |Regs(ra.all, false)| && 2 * |par| < |Regs(ra.all, true)| ==> ok
    ensures spadj >= parentAdjust && Framed(ra.V(), spadj)
    ensures spadj > parentAdjust ==> spadj % 4 == 0 && SPS_FIXED + spadj - 4 < old(ra.evenspill)
    ensures ok ==> forall m, val {:trigger Correct(ra.code, m, val)} ::
      LeftBy(par, spadj - parentAdjust, m, val) ==> Correct(ra.code, m, val)
    ensures Grows(old(ra.code), ra.code) && (ok ==> ra.freeset == ra.all)
  {
    hide HeadInv, EntryOk, Good, Claims, Grows, Regs, LeftBy, Inherits, Framed, Correct;
    ghost var v := ra.V();
    spadj := StackAdjust(ra.evenspill);
    var spdelta := spadj - parentAdjust;
    if spdelta < 0 { spadj, spdelta := parentAdjust, 0; }
    FrameLeast(ra.evenspill);
    ShiftedOk(par, spdelta, v, stop);
    ok, h := HeadCode(ra, Entry(par, spdelta), stop, pr);
    FrameHolds(ra.V(), spadj);
    forall m, val | ok && LeftBy(par, spdelta, m, val) ensures Correct(ra.code, m, val) {
      LeftInherits(par, spdelta, m, val);
    }
  }

  /** The head's code, with the parent's frame where e has it. */
  method HeadCode(ra: ASMState, e: Entry, stop: int, pr: int) returns (ok: bool, ghost h: Head)
    requires Good(ra.V(), stop + 1) && ra.pend == map[] && NoConsts(ra.V()) && REF_BASE in ra.ir
    requires EntryOk(e, ra.V(), stop)
    requires (pr in ra.all ==> REF_BASE in e.par && e.par[REF_BASE] == InParent(pr)) && (pr !in ra.all ==> pr == -1)
    modifies ra
    ensures !ok ==> Stuck(ra.V(), e, h)
    ensures 2 * |e.par| < |Regs(ra.all, false)| && 2 * |e.par| < |Regs(ra.all, true)| ==> ok
    ensures ok ==> forall m, val {:trigger Correct(ra.code, m, val)} :: Inherits(e, m, val) ==> Correct(ra.code, m, val)
    ensures Grows(old(ra.code), ra.code) && ra.evenspill == old(ra.evenspill) && Slots(ra.V())
    ensures ok ==> ra.freeset == ra.all
  {
    hide HeadInv, EntryOk, Good, Claims, Grows, Regs;
    ghost var v := ra.V();
    var pbase := HeadBase(ra, pr);
    ghost var modified :| ra.V() == BaseView(v, modified, pr);
    StartInv(v, e, modified, pr, stop);
    BaseKinds(v, modified, pr);
    ghost var code := ra.code;
    BaseParent(v, e, pr, stop);
    var g := Scan(ra, e, stop, pbase);
    GrowsTwo(v.code, code, ra.code);
    code := ra.code;
    ok, g := Reload(ra, e, g, stop);
    GrowsTwo(v.code, code, ra.code);
    h := g;
    if !ok {
      StuckMany(ra.V(), e, h);
      return;
    }
    StartLoading(ra.V(), e, g, stop);
    ClaimsSame(ra.V(), ra.V(), e, g, g.(loading := true));
    g := g.(loading := true);
    code := ra.code;
    LoadSpilled(ra, e, g, stop);
    GrowsTwo(v.code, code, ra.code);
    code := ra.code;
    ok, h := Shuffle(ra, e, g, stop);
    GrowsTwo(v.code, code, ra.code);
    if !ok { StuckMany(ra.V(), e, h); }
  }

  lemma BaseParent(v: View, e: Entry, pr: int, stop: int)
    requires Good(v, stop + 1) && (pr in v.all ==> REF_BASE in e.par && e.par[REF_BASE] == InParent(pr))
    ensures BaseReg(v, pr) in v.all ==> BaseReg(v, pr) in Parents(e)
  {
    if pr in v.all { assert e.par[REF_BASE].r in Parents(e); }
  }

  lemma StuckMany(v: View, e: Entry, h: Head)
    requires Stuck(v, e, h)
    ensures Slots(v) && (|Regs(v.all, false)| <= 2 * |e.par| || |Regs(v.all, true)| <= 2 * |e.par|)
  {
    HeadRegisters(v, e, h);
    hide HeadInv, Claims, Full, Regs;
    if Full(v, h, false) { FullMany(v, e, h, false); } else { FullMany(v, e, h, true); }
  }
}
