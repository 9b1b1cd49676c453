/** The state of the head of a side trace: which inherited values have been matched with the parent. */
module RegHead {
  import opened RegCode
  import opened RegState

  const SPS_FIXED := 2

  /** Where the parent trace leaves a value: in a register or in a spill slot of its frame. */
  datatype Parent = InParent(r: int) | OnStack(s: int, wide: bool)

  /** The parent's places of BASE and of the references up to stop; its frame starts delta units above the new one. */
  datatype Entry = Entry(par: map<int, Parent>, delta: int)

  function Places(e: Entry, x: int): set<Loc>
    requires x in e.par
  {
    match e.par[x]
    case InParent(r) => {R(r)}
    case OnStack(s, wide) => Units(s + e.delta, wide)
  }

  ghost predicate PlacesApart(e: Entry, x: int, y: int) {
    x in e.par && y in e.par && x != y ==> Places(e, x) !! Places(e, y)
  }

  /** The parent has its values in different places, registers among those that are allocated. */
  ghost predicate EntryOk(e: Entry, v: View, stop: int) {
    && stop >= REF_BASE
    && (forall x {:trigger x in e.par} :: x in e.par ==> REF_BASE <= x <= stop && x in v.ir)
    && (forall x {:trigger x in e.par} :: REF_BASE < x <= stop ==> x in e.par)
    && (forall x {:trigger e.par[x]} :: x in e.par && e.par[x].InParent? ==> e.par[x].r in v.all)
    && (forall x {:trigger v.ir[x]} :: x in e.par && x in v.ir && e.par[x].OnStack? ==> v.ir[x].wide == e.par[x].wide)
    && (forall x, y {:trigger PlacesApart(e, x, y)} :: PlacesApart(e, x, y))
    && (REF_BASE in e.par ==> e.par[REF_BASE].InParent?)
  }

  /** All values are where the parent leaves them. */
  ghost predicate Inherits(e: Entry, m: Machine, val: Values) {
    forall x, l {:trigger l in Places(e, x)} :: x in e.par && l in Places(e, x) ==> m(l) == val(x)
  }

  /** low: the references above it have been scanned. allow: registers that no match has claimed. live: parent registers
      whose values wait in sload; marked: spilled references without a register; pass3: some slot must be loaded. */
  datatype Head = Head(low: int, allow: set<int>, live: set<int>, sload: map<int, int>, marked: set<int>, pass3: bool,
                       loading: bool)

  /** A needed register is in use for its reference, or free and the parent's register of it. */
  ghost predicate RegNeed(v: View, e: Entry, h: Head, r: int) {
    R(r) in v.need ==>
      var x := v.need[R(r)];
      && r in v.all && x in e.par
      && (if r in v.free then r !in h.allow && r !in h.live && e.par[x] == InParent(r) && (x > h.low || x == REF_BASE)
          else r in v.cost && v.cost[r].ref == x)
  }

  /** A needed unit is in the slot of its reference, which is still to be filled unless the parent has filled it. */
  ghost predicate UnitNeed(v: View, e: Entry, h: Head, a: int) {
    S(a) in v.need ==>
      var x := v.need[S(a)];
      && x in e.par && x in v.ir
      && if h.loading then S(a) in Places(e, x)
         else S(a) in SlotOf(v.ir[x]) && (x <= h.low || x in h.marked || S(a) in Places(e, x))
  }

  /** Where the value of a scanned reference in register r comes from. */
  ghost predicate Sourced(v: View, e: Entry, h: Head, x: int) {
    x in e.par &&
    match e.par[x]
    case OnStack(_, _) => h.pass3
    case InParent(rp) => rp in h.live && rp in h.sload && h.sload[rp] == x
  }

  ghost predicate UseOk(v: View, e: Entry, h: Head, r: int) {
    r in v.all && r !in v.free ==>
      && r in v.cost && v.cost[r].ref in e.par && v.cost[r].ref > REF_BASE
      && (v.cost[r].ref > h.low ==> (h.loading || r !in h.allow) && Sourced(v, e, h, v.cost[r].ref))
  }

  ghost predicate LiveOk(v: View, e: Entry, h: Head, rp: int) {
    rp in h.live ==>
      && rp in v.all && rp in h.sload && h.sload[rp] in e.par && h.sload[rp] in v.ir && h.sload[rp] > h.low
      && h.sload[rp] > REF_BASE
      && e.par[h.sload[rp]] == InParent(rp)
      && (h.sload[rp] in h.marked || (v.ir[h.sload[rp]].home.InReg?
                                      && Lives(v, h.sload[rp], v.ir[h.sload[rp]].home.reg)))
  }

  ghost predicate MarkOk(v: View, e: Entry, h: Head, x: int) {
    x in h.marked ==>
      && x > h.low && x > REF_BASE && x in e.par && x in v.ir && !v.ir[x].home.InReg? && Spilled(v.ir[x])
      && (e.par[x].InParent? ==> Sourced(v, e, h, x))
  }

  ghost predicate Waiting(v: View, e: Entry, h: Head, x: int) {
    x in e.par && x in v.ir && REF_BASE < x <= h.low && v.ir[x].home.InReg? ==> Lives(v, x, v.ir[x].home.reg)
  }

  ghost predicate HeadInv(v: View, e: Entry, h: Head) {
    && Registers(v) && Slots(v) && v.pend == map[] && Safe(v.need, map[], v.code)
    && (forall r {:trigger RegNeed(v, e, h, r)} :: RegNeed(v, e, h, r))
    && (forall a {:trigger UnitNeed(v, e, h, a)} :: UnitNeed(v, e, h, a))
    && (forall r {:trigger UseOk(v, e, h, r)} :: UseOk(v, e, h, r))
    && (forall rp {:trigger LiveOk(v, e, h, rp)} :: LiveOk(v, e, h, rp))
    && (forall x {:trigger MarkOk(v, e, h, x)} :: MarkOk(v, e, h, x))
    && (forall x {:trigger Waiting(v, e, h, x)} :: Waiting(v, e, h, x))
    && h.allow <= v.all && (h.loading ==> h.low == REF_BASE && h.marked == {})
  }

  // Which registers are spoken for.

  function Homes(v: View, e: Entry): set<int> {
    set x | x in e.par && x in v.ir && v.ir[x].home.InReg? :: v.ir[x].home.reg
  }

  function Parents(e: Entry): set<int> {
    set x | x in e.par && e.par[x].InParent? :: e.par[x].r
  }

  /** Only homes and parent registers of inherited references are not allowed. */
  ghost predicate Claims(v: View, e: Entry, h: Head) {
    forall q {:trigger q in h.allow} :: q in v.all && q !in h.allow ==> q in Homes(v, e) || q in Parents(e)
  }

  lemma ClaimsStart(v: View, e: Entry, h: Head, pbase: int)
    requires h.allow == v.all - {pbase} && (pbase in v.all ==> pbase in Parents(e))
    ensures Claims(v, e, h)
  {
  }

  lemma ClaimsSame(v: View, w: View, e: Entry, h: Head, g: Head)
    requires Claims(v, e, h) && w.all == v.all && w.ir == v.ir && g.allow == h.allow
    ensures Claims(w, e, g)
  {
    assert Homes(w, e) == Homes(v, e);
    assert forall q :: q in g.allow <==> q in h.allow;
  }

  lemma ClaimsScan(v: View, e: Entry, h: Head, x: int)
    requires Claims(v, e, h) && x in v.ir && x in e.par
    ensures Claims(Scanned(v, e, x), e, ScannedHead(v, e, h, x))
  {
    assert Homes(Scanned(v, e, x), e) == Homes(v, e);
  }

  lemma ClaimsHint(v: View, e: Entry, h: Head, x: int, hint: int)
    requires Claims(v, e, h) && x in v.ir && !v.ir[x].home.InReg?
    ensures Claims(v.(ir := v.ir[x := v.ir[x].(home := Hint(hint))]), e, h)
  {
    assert forall q :: q in Homes(v, e) ==> q in Homes(v.(ir := v.ir[x := v.ir[x].(home := Hint(hint))]), e);
  }

  lemma ClaimsReload(v: View, e: Entry, h: Head, x: int, r: int, cost: Cost)
    requires Claims(v, e, h) && x in v.ir && x in e.par && !v.ir[x].home.InReg?
    ensures Claims(Reloaded(v, e, x, r, cost), e, ReloadedHead(e, h, x, r))
  {
    var w := Reloaded(v, e, x, r, cost);
    assert w.ir[x].home == InReg(r);
    assert r in Homes(w, e);
    forall q | q in Homes(v, e) ensures q in Homes(w, e) {
      var y :| y in e.par && y in v.ir && v.ir[y].home.InReg? && v.ir[y].home.reg == q;
      assert w.ir[y] == v.ir[y];
    }
  }

  lemma ClaimsCoalesce(v: View, e: Entry, h: Head, rp: int)
    requires HeadInv(v, e, h) && Claims(v, e, h) && rp in h.live
    ensures Claims(v, e, h.(live := h.live - {rp}, allow := h.allow - {rp}))
  {
    assert LiveOk(v, e, h, rp);
    assert e.par[h.sload[rp]].r in Parents(e);
  }

  lemma ClaimsBreak(v: View, e: Entry, h: Head, down: int, up: int)
    requires HeadInv(v, e, h) && Claims(v, e, h) && down in h.live && down !in v.free && down in v.cost
             && v.cost[down].ref in v.ir
    ensures Claims(Renamed(v, v.cost[down].ref, down, up), e, h)
  {
    assert LiveOk(v, e, h, down) && Owned(v, down);
    assert e.par[h.sload[down]].r in Parents(e);
    var x := v.cost[down].ref;
    var w := Renamed(v, x, down, up);
    forall q | q in Homes(v, e) && q != down ensures q in Homes(w, e) {
      var y :| y in e.par && y in v.ir && v.ir[y].home.InReg? && v.ir[y].home.reg == q;
      assert w.ir[y] == v.ir[y];
    }
  }

  lemma {:induction false} ImageSize(xs: set<int>, f: int -> int)
    ensures |set x | x in xs :: f(x)| <= |xs|
    decreases |xs|
  {
    if x :| x in xs {
      ImageSize(xs - {x}, f);
      assert (set y | y in xs :: f(y)) == (set y | y in xs - {x} :: f(y)) + {f(x)};
    } else {
      assert (set y | y in xs :: f(y)) == {};
    }
  }

  /** A set of places, no more than one for each inherited reference. */
  lemma FewPlaces(v: View, e: Entry)
    ensures |Homes(v, e)| <= |e.par| && |Parents(e)| <= |e.par|
  {
    var f := (x: int) => if x in v.ir && v.ir[x].home.InReg? then v.ir[x].home.reg else 0;
    var g := (x: int) => if x in e.par && e.par[x].InParent? then e.par[x].r else 0;
    Smaller(Homes(v, e), e.par.Keys, f);
    Smaller(Parents(e), e.par.Keys, g);
  }

  lemma Smaller(s: set<int>, xs: set<int>, f: int -> int)
    requires forall q :: q in s ==> exists x :: x in xs && f(x) == q
    ensures |s| <= |xs|
  {
    var image := set x | x in xs :: f(x);
    ImageSize(xs, f);
    forall q | q in s ensures q in image { var x :| x in xs && f(x) == q; }
    SubsetSize(s, image);
  }

  lemma SubsetSize(s: set<int>, t: set<int>)
    requires s <= t
    ensures |s| <= |t|
  {
    assert t == s + (t - s);
  }

  /** No register of one kind is left: each is in use, waits as a parent's register, or is spoken for. */
  ghost predicate Full(v: View, h: Head, fp: bool) {
    forall q {:trigger q in h.allow} :: q in v.all && (q >= MAX_GPR) == fp ==>
      q !in v.free || q in h.live || q !in h.allow
  }

  /** Then two registers for every inherited reference are as many as there are of that kind. */
  lemma FullMany(v: View, e: Entry, h: Head, fp: bool)
    requires HeadInv(v, e, h) && Claims(v, e, h) && Full(v, h, fp)
    ensures |Regs(v.all, fp)| <= 2 * |e.par|
  {
    forall q | q in Regs(v.all, fp) ensures q in Homes(v, e) + Parents(e) {
      assert UseOk(v, e, h, q) && Owned(v, q) && LiveOk(v, e, h, q);
      assert q in h.allow || q !in h.allow;
    }
    FewPlaces(v, e);
    SubsetSize(Regs(v.all, fp), Homes(v, e) + Parents(e));
    assert |Homes(v, e) + Parents(e)| <= |Homes(v, e)| + |Parents(e)|;
  }

  // Scanning.

  /** Slot units are needed for their own reference only. */
  lemma HeadUnits(v: View, e: Entry, h: Head, x: int)
    requires HeadInv(v, e, h) && !h.loading && x in v.ir && Spilled(v.ir[x])
    ensures Agrees(v.need, S(v.ir[x].s), x) && (v.ir[x].wide ==> Agrees(v.need, S(v.ir[x].s + 1), x))
  {
    var s := v.ir[x].s;
    assert UnitNeed(v, e, h, s) && UnitNeed(v, e, h, s + 1);
    assert S(s) in SlotOf(v.ir[x]) && (v.ir[x].wide ==> S(s + 1) in SlotOf(v.ir[x]));
    assert S(s) in v.need ==> SlotsApart(v, x, v.need[S(s)]);
    assert S(s + 1) in v.need ==> SlotsApart(v, x, v.need[S(s + 1)]);
  }

  /** Saving x from its register r to its slot. */
  lemma FillSafe(v: View, e: Entry, h: Head, x: int, r: int)
    requires HeadInv(v, e, h) && !h.loading && Lives(v, x, r) && Spilled(v.ir[x])
    ensures Safe(Filled(v, x, r).need, map[], Filled(v, x, r).code)
  {
    HeadUnits(v, e, h, x);
    assert RegNeed(v, e, h, r);
    StoreLeads(v.need, v.ir[x].s, v.ir[x].wide, r, x);
    SafeStep(Store(v.ir[x].s, v.ir[x].wide, r), Filled(v, x, r).need, v.need, map[], v.code);
  }

  /** The scan of reference x: its new view. */
  function Scanned(v: View, e: Entry, x: int): View
    requires x in v.ir && x in e.par
  {
    var w := if v.ir[x].home.InReg? && Spilled(v.ir[x]) then Filled(v, x, v.ir[x].home.reg) else v;
    if v.ir[x].home.InReg? && e.par[x] == InParent(v.ir[x].home.reg) then w.(free := w.free + {v.ir[x].home.reg}) else w
  }

  function ScannedHead(v: View, e: Entry, h: Head, x: int): Head
    requires x in v.ir && x in e.par
  {
    var i, p := v.ir[x], e.par[x];
    Head(x - 1,
         if i.home.InReg? then h.allow - {i.home.reg} else h.allow,
         if p.InParent? && (i.home.InReg? || Spilled(i)) && i.home != InReg(p.r) then h.live + {p.r} else h.live,
         if p.InParent? && (i.home.InReg? || Spilled(i)) && i.home != InReg(p.r) then h.sload[p.r := x] else h.sload,
         if !i.home.InReg? && Spilled(i) then h.marked + {x} else h.marked,
         h.pass3 || (p.OnStack? && i.home.InReg?),
         false)
  }

  /** No scanned reference has claimed the parent's register of x yet. */
  lemma NewLive(v: View, e: Entry, h: Head, x: int, stop: int)
    requires HeadInv(v, e, h) && EntryOk(e, v, stop) && x in e.par && REF_BASE < x <= h.low && e.par[x].InParent?
    ensures e.par[x].r !in h.live && (R(e.par[x].r) in v.need ==> e.par[x].r !in v.free)
    ensures forall y {:trigger Sourced(v, e, h, y)} :: Sourced(v, e, h, y) && e.par[y].InParent? && y > h.low ==>
      e.par[y].r != e.par[x].r
  {
    var rp := e.par[x].r;
    assert LiveOk(v, e, h, rp) && RegNeed(v, e, h, rp);
    var y := if rp in h.sload then h.sload[rp] else x;
    assert PlacesApart(e, x, y);
    var z := if R(rp) in v.need then v.need[R(rp)] else x;
    assert PlacesApart(e, x, z);
    forall y {:trigger Sourced(v, e, h, y)} | Sourced(v, e, h, y) && e.par[y].InParent? && y > h.low
      ensures e.par[y].r != rp
    {
      assert PlacesApart(e, x, y);
    }
  }

  lemma FilledInv(v: View, e: Entry, h: Head, x: int, r: int)
    requires HeadInv(v, e, h) && !h.loading && Lives(v, x, r) && Spilled(v.ir[x]) && x in e.par
    ensures HeadInv(Filled(v, x, r), e, h)
            && (forall a {:trigger S(a) in Filled(v, x, r).need} :: S(a) in Filled(v, x, r).need ==>
                Filled(v, x, r).need[S(a)] != x)
  {
    var w := Filled(v, x, r);
    FillSafe(v, e, h, x, r);
    RegistersFrame(v, w);
    forall q {:trigger RegNeed(w, e, h, q)} ensures RegNeed(w, e, h, q) { assert RegNeed(v, e, h, q); }
    forall a {:trigger UnitNeed(w, e, h, a)}
      ensures UnitNeed(w, e, h, a) && (S(a) in w.need ==> w.need[S(a)] != x)
    {
      assert UnitNeed(v, e, h, a);
    }
    forall a {:trigger S(a) in w.need} | S(a) in w.need ensures w.need[S(a)] != x { assert UnitNeed(v, e, h, a); }
    forall q {:trigger UseOk(w, e, h, q)}
      ensures UseOk(w, e, h, q)
    {
      assert UseOk(v, e, h, q);
      SourcedSame(v, w, e, h);
    }
    forall q {:trigger LiveOk(w, e, h, q)} ensures LiveOk(w, e, h, q) { assert LiveOk(v, e, h, q); }
    forall y {:trigger MarkOk(w, e, h, y)}
      ensures MarkOk(w, e, h, y)
    {
      assert MarkOk(v, e, h, y);
      SourcedSame(v, w, e, h);
    }
    forall y {:trigger Waiting(w, e, h, y)} ensures Waiting(w, e, h, y) { assert Waiting(v, e, h, y); }
  }

  lemma SourcedSame(v: View, w: View, e: Entry, h: Head)
    ensures forall x {:trigger Sourced(w, e, h, x)} {:trigger Sourced(v, e, h, x)} ::
      Sourced(w, e, h, x) == Sourced(v, e, h, x)
  {
  }

  /** One step of the scan. */
  lemma ScanInv(v: View, e: Entry, h: Head, x: int, stop: int)
    requires HeadInv(v, e, h) && EntryOk(e, v, stop) && !h.loading && x == h.low && x > REF_BASE && x in e.par
    ensures HeadInv(Scanned(v, e, x), e, ScannedHead(v, e, h, x)) && EntryOk(e, Scanned(v, e, x), stop)
  {
    var i := v.ir[x];
    assert Waiting(v, e, h, x);
    EntryFrame(e, v, Scanned(v, e, x), stop);
    if i.home.InReg? && Spilled(i) {
      FilledInv(v, e, h, x, i.home.reg);
      MatchInv(Filled(v, x, i.home.reg), e, h, x, stop);
    } else {
      forall a {:trigger S(a) in v.need} | S(a) in v.need && !Spilled(i)
        ensures v.need[S(a)] != x
      {
        assert UnitNeed(v, e, h, a);
      }
      MatchInv(v, e, h, x, stop);
    }
  }

  lemma EntryFrame(e: Entry, v: View, w: View, stop: int)
    requires EntryOk(e, v, stop) && w.all == v.all && w.ir == v.ir
    ensures EntryOk(e, w, stop)
  {
  }

  /** The scan of x once its slot, if it has one and a register, is filled. */
  lemma MatchInv(v: View, e: Entry, h: Head, x: int, stop: int)
    requires HeadInv(v, e, h) && EntryOk(e, v, stop) && !h.loading && x == h.low && x > REF_BASE && x in e.par
    requires v.ir[x].home.InReg? || !Spilled(v.ir[x]) ==> forall a {:trigger S(a) in v.need} :: S(a) in v.need ==>
      v.need[S(a)] != x
    ensures var i, p := v.ir[x], e.par[x];
            HeadInv(if i.home.InReg? && p == InParent(i.home.reg) then v.(free := v.free + {i.home.reg})
                    else v, e, ScannedHead(v, e, h, x))
  {
    var i, p := v.ir[x], e.par[x];
    var w, g := if i.home.InReg? && p == InParent(i.home.reg) then v.(free := v.free + {i.home.reg})
        else v, ScannedHead(v, e, h, x);
    assert Waiting(v, e, h, x);
    if p.InParent? { NewLive(v, e, h, x, stop); }
    forall q {:trigger Owned(w, q)} ensures Owned(w, q) { assert Owned(v, q); }
    forall y {:trigger SlotOk(w, y)} ensures SlotOk(w, y) { assert SlotOk(v, y); }
    forall y, z {:trigger SlotsApart(w, y, z)} ensures SlotsApart(w, y, z) { assert SlotsApart(v, y, z); }
    forall q {:trigger RegNeed(w, e, g, q)} ensures RegNeed(w, e, g, q) { assert RegNeed(v, e, h, q); }
    forall a {:trigger UnitNeed(w, e, g, a)} ensures UnitNeed(w, e, g, a) { assert UnitNeed(v, e, h, a); }
    MatchUses(v, e, h, x, stop, w, g);
    MatchRest(v, e, h, x, stop, w, g);
  }

  lemma MatchUses(v: View, e: Entry, h: Head, x: int, stop: int, w: View, g: Head)
    requires HeadInv(v, e, h) && EntryOk(e, v, stop) && !h.loading && x == h.low && x > REF_BASE && x in e.par
    requires w == (if v.ir[x].home.InReg?
                   && e.par[x] == InParent(v.ir[x].home.reg) then v.(free := v.free + {v.ir[x].home.reg}) else v)
    requires g == ScannedHead(v, e, h, x)
    ensures forall q {:trigger UseOk(w, e, g, q)} :: UseOk(w, e, g, q)
  {
    assert Waiting(v, e, h, x);
    if e.par[x].InParent? { NewLive(v, e, h, x, stop); }
    forall q {:trigger UseOk(w, e, g, q)} ensures UseOk(w, e, g, q) {
      assert UseOk(v, e, h, q) && Owned(v, q);
    }
  }

  lemma MatchRest(v: View, e: Entry, h: Head, x: int, stop: int, w: View, g: Head)
    requires HeadInv(v, e, h) && EntryOk(e, v, stop) && !h.loading && x == h.low && x > REF_BASE && x in e.par
    requires w == (if v.ir[x].home.InReg?
                   && e.par[x] == InParent(v.ir[x].home.reg) then v.(free := v.free + {v.ir[x].home.reg}) else v)
    requires g == ScannedHead(v, e, h, x)
    ensures forall q {:trigger LiveOk(w, e, g, q)} :: LiveOk(w, e, g, q)
    ensures forall y {:trigger MarkOk(w, e, g, y)} :: MarkOk(w, e, g, y)
    ensures forall y {:trigger Waiting(w, e, g, y)} :: Waiting(w, e, g, y)
  {
    assert Waiting(v, e, h, x);
    if e.par[x].InParent? { NewLive(v, e, h, x, stop); }
    forall q {:trigger LiveOk(w, e, g, q)} ensures LiveOk(w, e, g, q) {
      assert LiveOk(v, e, h, q);
    }
    forall y {:trigger MarkOk(w, e, g, y)} ensures MarkOk(w, e, g, y) {
      assert MarkOk(v, e, h, y);
      assert Sourced(v, e, h, y) || !Sourced(v, e, h, y);
    }
    forall y {:trigger Waiting(w, e, g, y)} ensures Waiting(w, e, g, y) { assert Waiting(v, e, h, y); }
  }

  // Spilled references.

  /** After the scan no register in allow is in use. */
  lemma AllowFree(v: View, e: Entry, h: Head)
    requires HeadInv(v, e, h) && h.low == REF_BASE && !h.loading
    ensures h.allow <= v.free
  {
    forall r | r in h.allow ensures r in v.free { assert UseOk(v, e, h, r); }
  }

  /** A hint for a reference without a register. */
  lemma HintInv(v: View, e: Entry, h: Head, x: int, hint: int, stop: int)
    requires HeadInv(v, e, h) && EntryOk(e, v, stop) && x in v.ir && !v.ir[x].home.InReg?
    ensures var w := v.(ir := v.ir[x := v.ir[x].(home := Hint(hint))]); HeadInv(w, e, h) && EntryOk(e, w, stop)
  {
    var w := v.(ir := v.ir[x := v.ir[x].(home := Hint(hint))]);
    SameFrame(v, w, e, h, x, stop);
    forall q {:trigger LiveOk(w, e, h, q)} ensures LiveOk(w, e, h, q) { assert LiveOk(v, e, h, q); }
    forall y {:trigger MarkOk(w, e, h, y)}
      ensures MarkOk(w, e, h, y)
    {
      assert MarkOk(v, e, h, y);
      SourcedSame(v, w, e, h);
    }
    forall q {:trigger RegNeed(w, e, h, q)} ensures RegNeed(w, e, h, q) { assert RegNeed(v, e, h, q); }
    forall a {:trigger UnitNeed(w, e, h, a)} ensures UnitNeed(w, e, h, a) { assert UnitNeed(v, e, h, a); }
    forall q {:trigger UseOk(w, e, h, q)}
      ensures UseOk(w, e, h, q)
    {
      assert UseOk(v, e, h, q);
      SourcedSame(v, w, e, h);
    }
    forall y {:trigger Waiting(w, e, h, y)} ensures Waiting(w, e, h, y) { assert Waiting(v, e, h, y); }
  }

  /** Changing where one reference lives, none of the registers in use being its. */
  lemma SameFrame(v: View, w: View, e: Entry, h: Head, x: int, stop: int)
    requires HeadInv(v, e, h) && EntryOk(e, v, stop) && x in v.ir && !v.ir[x].home.InReg?
    requires w == v.(ir := w.ir) && x in w.ir && w.ir == v.ir[x := v.ir[x].(home := w.ir[x].home)]
    ensures Registers(w) && Slots(w) && EntryOk(e, w, stop)
  {
    forall q {:trigger Owned(w, q)} ensures Owned(w, q) { assert Owned(v, q); }
    forall y {:trigger SlotOk(w, y)} ensures SlotOk(w, y) { assert SlotOk(v, y); }
    forall y, z {:trigger SlotsApart(w, y, z)} ensures SlotsApart(w, y, z) { assert SlotsApart(v, y, z); }
  }

  /** The parent has the value in the very units of the new slot. */
  predicate SameSlot(v: View, e: Entry, x: int) {
    x in e.par && x in v.ir && e.par[x].OnStack? && e.par[x].s + e.delta == v.ir[x].s
  }

  lemma SameSlotInv(v: View, e: Entry, h: Head, x: int, stop: int)
    requires HeadInv(v, e, h) && EntryOk(e, v, stop) && !h.loading && x in h.marked && SameSlot(v, e, x)
    ensures HeadInv(v, e, h.(marked := h.marked - {x}))
  {
    var g := h.(marked := h.marked - {x});
    assert MarkOk(v, e, h, x);
    forall q {:trigger RegNeed(v, e, g, q)} ensures RegNeed(v, e, g, q) { assert RegNeed(v, e, h, q); }
    forall a {:trigger UnitNeed(v, e, g, a)} ensures UnitNeed(v, e, g, a) { assert UnitNeed(v, e, h, a); }
    forall q {:trigger UseOk(v, e, g, q)} ensures UseOk(v, e, g, q) { assert UseOk(v, e, h, q); }
    forall q {:trigger LiveOk(v, e, g, q)} ensures LiveOk(v, e, g, q) { assert LiveOk(v, e, h, q); }
    forall y {:trigger MarkOk(v, e, g, y)} ensures MarkOk(v, e, g, y) { assert MarkOk(v, e, h, y); }
    forall y {:trigger Waiting(v, e, g, y)} ensures Waiting(v, e, g, y) { assert Waiting(v, e, h, y); }
  }

  function ReloadedHead(e: Entry, h: Head, x: int, r: int): Head
    requires x in e.par
  {
    var g := h.(allow := h.allow - {r}, marked := h.marked - {x});
    if e.par[x] == InParent(r) then g.(live := g.live - {r}) else if e.par[x].OnStack? then g.(pass3 := true) else g
  }

  /** A spilled reference gets register r for the head, and fills its slot from there. */
  function Reloaded(v: View, e: Entry, x: int, r: int, cost: Cost): View
    requires x in v.ir && x in e.par
  {
    var w := Filled(Given(v, x, r, cost), x, r);
    if e.par[x] == InParent(r) then w.(free := w.free + {r}) else w
  }

  lemma ReloadSafe(v: View, e: Entry, h: Head, x: int, r: int, weight: int)
    requires HeadInv(v, e, h) && !h.loading && x in h.marked && r in h.allow && r in v.free && x in v.ir
    ensures var w := Filled(Given(v, x, r, Cost(weight, x)), x, r); Safe(w.need, map[], w.code)
  {
    assert MarkOk(v, e, h, x) && RegNeed(v, e, h, r);
    HeadUnits(v, e, h, x);
    StoreLeads(v.need, v.ir[x].s, v.ir[x].wide, r, x);
    SafeStep(Store(v.ir[x].s, v.ir[x].wide, r), NeedStore(v.need, v.ir[x].s, v.ir[x].wide, r, x), v.need, map[],
             v.code);
  }

  lemma ReloadInv(v: View, e: Entry, h: Head, x: int, r: int, weight: int, stop: int)
    requires HeadInv(v, e, h) && EntryOk(e, v, stop) && !h.loading && x in h.marked && r in h.allow && r in v.free
             && h.low == REF_BASE
    requires x in v.ir && x in e.par && v.ir[x].fp == (r >= MAX_GPR)
    ensures HeadInv(Reloaded(v, e, x, r, Cost(weight, x)), e, ReloadedHead(e, h, x, r))
            && EntryOk(e, Reloaded(v, e, x, r, Cost(weight, x)), stop)
  {
    var w, g := Reloaded(v, e, x, r, Cost(weight, x)), ReloadedHead(e, h, x, r);
    ReloadSafe(v, e, h, x, r, weight);
    ReloadRegisters(v, e, h, x, r, weight);
    ReloadNeeds(v, e, h, x, r, weight, w, g);
    ReloadRest(v, e, h, x, r, weight, w, g);
  }

  lemma ReloadRegisters(v: View, e: Entry, h: Head, x: int, r: int, weight: int)
    requires HeadInv(v, e, h) && x in h.marked && r in v.free && x in v.ir && x in e.par && v.ir[x].fp == (r >= MAX_GPR)
    ensures Registers(Reloaded(v, e, x, r, Cost(weight, x))) && Slots(Reloaded(v, e, x, r, Cost(weight, x)))
  {
    var w := Reloaded(v, e, x, r, Cost(weight, x));
    assert MarkOk(v, e, h, x);
    forall q {:trigger Owned(w, q)} ensures Owned(w, q) { assert Owned(v, q); }
    forall y {:trigger SlotOk(w, y)} ensures SlotOk(w, y) { assert SlotOk(v, y); }
    forall y, z {:trigger SlotsApart(w, y, z)} ensures SlotsApart(w, y, z) { assert SlotsApart(v, y, z); }
  }

  lemma ReloadNeeds(v: View, e: Entry, h: Head, x: int, r: int, weight: int, w: View, g: Head)
    requires HeadInv(v, e, h) && !h.loading && x in h.marked && r in h.allow && r in v.free && h.low == REF_BASE
             && x in v.ir && x in e.par
    requires w == Reloaded(v, e, x, r, Cost(weight, x)) && g == ReloadedHead(e, h, x, r)
    ensures forall q {:trigger RegNeed(w, e, g, q)} :: RegNeed(w, e, g, q)
    ensures forall a {:trigger UnitNeed(w, e, g, a)} :: UnitNeed(w, e, g, a)
  {
    assert MarkOk(v, e, h, x) && RegNeed(v, e, h, r);
    forall q {:trigger RegNeed(w, e, g, q)} ensures RegNeed(w, e, g, q) { assert RegNeed(v, e, h, q); }
    forall a {:trigger UnitNeed(w, e, g, a)} ensures UnitNeed(w, e, g, a) { assert UnitNeed(v, e, h, a); }
  }

  lemma ReloadRest(v: View, e: Entry, h: Head, x: int, r: int, weight: int, w: View, g: Head)
    requires HeadInv(v, e, h) && !h.loading && x in h.marked && r in h.allow && r in v.free && h.low == REF_BASE
             && x in v.ir && x in e.par
    requires w == Reloaded(v, e, x, r, Cost(weight, x)) && g == ReloadedHead(e, h, x, r)
    ensures forall q {:trigger UseOk(w, e, g, q)} :: UseOk(w, e, g, q)
    ensures forall q {:trigger LiveOk(w, e, g, q)} :: LiveOk(w, e, g, q)
    ensures forall y {:trigger MarkOk(w, e, g, y)} :: MarkOk(w, e, g, y)
    ensures forall y {:trigger Waiting(w, e, g, y)} :: Waiting(w, e, g, y)
  {
    assert MarkOk(v, e, h, x);
    forall q {:trigger UseOk(w, e, g, q)} ensures UseOk(w, e, g, q) {
      assert UseOk(v, e, h, q) && Owned(v, q);
    }
    forall q {:trigger LiveOk(w, e, g, q)} ensures LiveOk(w, e, g, q) {
      assert LiveOk(v, e, h, q);
    }
    forall y {:trigger MarkOk(w, e, g, y)} ensures MarkOk(w, e, g, y) { assert MarkOk(v, e, h, y); }
    forall y {:trigger Waiting(w, e, g, y)} ensures Waiting(w, e, g, y) { assert Waiting(v, e, h, y); }
  }

  // Loading from the parent's slots.

  lemma StartLoading(v: View, e: Entry, h: Head, stop: int)
    requires HeadInv(v, e, h) && EntryOk(e, v, stop) && h.low == REF_BASE && h.marked == {}
    ensures HeadInv(v, e, h.(loading := true))
  {
    var g := h.(loading := true);
    forall q {:trigger RegNeed(v, e, g, q)} ensures RegNeed(v, e, g, q) { assert RegNeed(v, e, h, q); }
    forall a {:trigger UnitNeed(v, e, g, a)} ensures UnitNeed(v, e, g, a) {
      assert UnitNeed(v, e, h, a);
      assert S(a) in v.need ==> SlotOk(v, v.need[S(a)]);
    }
    forall q {:trigger UseOk(v, e, g, q)} ensures UseOk(v, e, g, q) { assert UseOk(v, e, h, q); }
    forall q {:trigger LiveOk(v, e, g, q)} ensures LiveOk(v, e, g, q) { assert LiveOk(v, e, h, q); }
    forall y {:trigger MarkOk(v, e, g, y)} ensures MarkOk(v, e, g, y) { assert MarkOk(v, e, h, y); }
    forall y {:trigger Waiting(v, e, g, y)} ensures Waiting(v, e, g, y) { assert Waiting(v, e, h, y); }
  }

  lemma LoadInv(v: View, e: Entry, h: Head, x: int, r: int, stop: int)
    requires HeadInv(v, e, h) && EntryOk(e, v, stop) && h.loading && Lives(v, x, r) && x in e.par && e.par[x].OnStack?
    ensures HeadInv(Loaded(v, x, r, e.par[x].s + e.delta, v.ir[x].wide), e, h)
  {
    var a, wide := e.par[x].s + e.delta, v.ir[x].wide;
    var w := Loaded(v, x, r, a, wide);
    assert RegNeed(v, e, h, r) && UnitNeed(v, e, h, a) && UnitNeed(v, e, h, a + 1);
    assert S(a) in v.need ==> PlacesApart(e, x, v.need[S(a)]);
    assert S(a + 1) in v.need ==> PlacesApart(e, x, v.need[S(a + 1)]);
    LoadLeads(v.need, r, a, wide, x);
    SafeStep(Load(r, a, wide), w.need, v.need, map[], v.code);
    forall q {:trigger Owned(w, q)} ensures Owned(w, q) { assert Owned(v, q); }
    forall y {:trigger SlotOk(w, y)} ensures SlotOk(w, y) { assert SlotOk(v, y); }
    forall y, z {:trigger SlotsApart(w, y, z)} ensures SlotsApart(w, y, z) { assert SlotsApart(v, y, z); }
    forall q {:trigger RegNeed(w, e, h, q)} ensures RegNeed(w, e, h, q) { assert RegNeed(v, e, h, q); }
    forall b {:trigger UnitNeed(w, e, h, b)} ensures UnitNeed(w, e, h, b) { assert UnitNeed(v, e, h, b); }
    FreeRest(v, e, h, x, r, w, h);
  }

  /** With the register of x freed, all other registers, and the references that still wait, are as before. */
  lemma FreeRest(v: View, e: Entry, h: Head, x: int, r: int, w: View, g: Head)
    requires HeadInv(v, e, h) && h.loading && Lives(v, x, r) && x in e.par
    requires w.free == v.free + {r} && w.all == v.all && w.cost == v.cost && w.ir == v.ir
    requires g == (if e.par[x].InParent? then h.(live := h.live - {e.par[x].r}, allow := h.allow - {e.par[x].r}) else h)
    ensures forall q {:trigger UseOk(w, e, g, q)} :: UseOk(w, e, g, q)
    ensures forall q {:trigger LiveOk(w, e, g, q)} :: LiveOk(w, e, g, q)
    ensures forall y {:trigger MarkOk(w, e, g, y)} :: MarkOk(w, e, g, y)
    ensures forall y {:trigger Waiting(w, e, g, y)} :: Waiting(w, e, g, y)
  {
    assert UseOk(v, e, h, r);
    forall q {:trigger UseOk(w, e, g, q)} ensures UseOk(w, e, g, q) {
      assert UseOk(v, e, h, q);
      if q in w.all && q !in w.free && v.cost[q].ref == x { OneHome(v, q, r); }
    }
    forall q {:trigger LiveOk(w, e, g, q)} ensures LiveOk(w, e, g, q) { assert LiveOk(v, e, h, q); }
    forall y {:trigger MarkOk(w, e, g, y)} ensures MarkOk(w, e, g, y) { assert MarkOk(v, e, h, y); }
    forall y {:trigger Waiting(w, e, g, y)} ensures Waiting(w, e, g, y) { assert Waiting(v, e, h, y); }
  }

  // The shuffle.

  lemma CoalesceInv(v: View, e: Entry, h: Head, rp: int, stop: int)
    requires HeadInv(v, e, h) && EntryOk(e, v, stop) && h.loading && rp in h.live && rp in v.free
    ensures rp in h.sload && h.sload[rp] in v.ir && v.ir[h.sload[rp]].home.InReg?
    ensures var x := h.sload[rp]; var r := v.ir[x].home.reg;
            HeadInv(Coalesced(v, x, r, rp), e, h.(live := h.live - {rp}, allow := h.allow - {rp})) && r != rp
                && r in v.all
  {
    assert LiveOk(v, e, h, rp) && RegNeed(v, e, h, rp);
    var x := h.sload[rp];
    var r := v.ir[x].home.reg;
    var w, g := Coalesced(v, x, r, rp), h.(live := h.live - {rp}, allow := h.allow - {rp});
    assert RegNeed(v, e, h, r);
    MoveLeads(v.need, r, rp, x);
    SafeStep(Move(r, rp), w.need, v.need, map[], v.code);
    forall q {:trigger Owned(w, q)} ensures Owned(w, q) { assert Owned(v, q); }
    forall y {:trigger SlotOk(w, y)} ensures SlotOk(w, y) { assert SlotOk(v, y); }
    forall y, z {:trigger SlotsApart(w, y, z)} ensures SlotsApart(w, y, z) { assert SlotsApart(v, y, z); }
    forall q {:trigger RegNeed(w, e, g, q)} ensures RegNeed(w, e, g, q) { assert RegNeed(v, e, h, q); }
    forall a {:trigger UnitNeed(w, e, g, a)} ensures UnitNeed(w, e, g, a) { assert UnitNeed(v, e, h, a); }
    FreeRest(v, e, h, x, r, w, g);
  }

  /** Breaking a cycle: the target in register down moves to a temporary register. */
  lemma BreakInv(v: View, e: Entry, h: Head, down: int, up: int, stop: int)
    requires HeadInv(v, e, h) && EntryOk(e, v, stop) && h.loading && down in h.live && down !in v.free
    requires up in v.free && up !in h.live && up in h.allow && (down >= MAX_GPR) == (up >= MAX_GPR)
    ensures down in v.cost && v.cost[down].ref in v.ir && down != up
    ensures HeadInv(Renamed(v, v.cost[down].ref, down, up), e, h)
            && EntryOk(e, Renamed(v, v.cost[down].ref, down, up), stop)
  {
    assert LiveOk(v, e, h, down) && UseOk(v, e, h, down) && Owned(v, down);
    var x := v.cost[down].ref;
    var w := Renamed(v, x, down, up);
    assert RegNeed(v, e, h, down) && RegNeed(v, e, h, up);
    MoveLeads(v.need, down, up, x);
    SafeStep(Move(down, up), w.need, v.need, map[], v.code);
    forall q {:trigger Owned(w, q)} ensures Owned(w, q) {
      assert Owned(v, q);
      if q in v.all - v.free && q != down { if v.cost[q].ref == x { OneHome(v, q, down); } }
    }
    forall y {:trigger SlotOk(w, y)} ensures SlotOk(w, y) { assert SlotOk(v, y); }
    forall y, z {:trigger SlotsApart(w, y, z)} ensures SlotsApart(w, y, z) { assert SlotsApart(v, y, z); }
    forall q {:trigger RegNeed(w, e, h, q)} ensures RegNeed(w, e, h, q) { assert RegNeed(v, e, h, q); }
    forall a {:trigger UnitNeed(w, e, h, a)} ensures UnitNeed(w, e, h, a) { assert UnitNeed(v, e, h, a); }
    BreakRest(v, e, h, down, up, w);
  }

  lemma BreakRest(v: View, e: Entry, h: Head, down: int, up: int, w: View)
    requires HeadInv(v, e, h) && h.loading && down in v.all - v.free && up in v.free && down in v.cost
             && v.cost[down].ref in v.ir
    requires w == Renamed(v, v.cost[down].ref, down, up)
    ensures forall q {:trigger UseOk(w, e, h, q)} :: UseOk(w, e, h, q)
    ensures forall q {:trigger LiveOk(w, e, h, q)} :: LiveOk(w, e, h, q)
    ensures forall y {:trigger MarkOk(w, e, h, y)} :: MarkOk(w, e, h, y)
    ensures forall y {:trigger Waiting(w, e, h, y)} :: Waiting(w, e, h, y)
  {
    var x := v.cost[down].ref;
    assert UseOk(v, e, h, down) && Owned(v, down);
    SourcedSame(v, w, e, h);
    forall q {:trigger UseOk(w, e, h, q)} ensures UseOk(w, e, h, q) { assert UseOk(v, e, h, q); }
    forall q {:trigger LiveOk(w, e, h, q)} ensures LiveOk(w, e, h, q) { assert LiveOk(v, e, h, q); }
    forall y {:trigger MarkOk(w, e, h, y)} ensures MarkOk(w, e, h, y) { assert MarkOk(v, e, h, y); }
    forall y {:trigger Waiting(w, e, h, y)} ensures Waiting(w, e, h, y) { assert Waiting(v, e, h, y); }
  }

  /** When no live parent register remains, all that is needed is where the parent leaves it. */
  lemma HeadDone(v: View, e: Entry, h: Head, stop: int)
    requires HeadInv(v, e, h) && EntryOk(e, v, stop) && h.loading && h.live == {}
    requires forall r {:trigger r in v.free} ::
      r in v.all && r !in v.free && r in v.cost && v.cost[r].ref in e.par ==> e.par[v.cost[r].ref].InParent?
    ensures forall m, val {:trigger Correct(v.code, m, val)} :: Inherits(e, m, val) ==> Correct(v.code, m, val)
  {
    forall m, val {:trigger Correct(v.code, m, val)} | Inherits(e, m, val) ensures Correct(v.code, m, val) {
      forall l {:trigger l in v.need} | l in v.need ensures m(l) == val(v.need[l]) {
        match l
        case R(r) => assert RegNeed(v, e, h, r)
            && UseOk(v, e, h, r); assert r in v.free; assert l in Places(e, v.need[l]);
        case S(a) => assert UnitNeed(v, e, h, a);
      }
      assert Sat(v.need, m, val);
      var none: Need := map[];
      var n := Put(m, none, val);
      forall l {:trigger m(l)} {:trigger n(l)} ensures m(l) == n(l) { }
      CorrectSame(v.code, n, m, val);
    }
  }
}
