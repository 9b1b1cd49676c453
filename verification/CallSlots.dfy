/** ARM64 calls: where the arguments go, and the stack slots reserved for them beforehand. */
module CallSlots {
  import opened Rounding

  const REGARGS := 8

  /** An argument by its type; Marker stands for the start of the variable arguments. */
  datatype Arg = Marker | Fp(num: bool) | Word(size: int)

  datatype Target = Target(osx: bool, win: bool, bigEndian: bool)

  datatype Call = Call(vararg: bool, args: seq<Arg>)

  /** Bytes [at, at + size) above the stack pointer. */
  datatype Store = Store(at: int, size: int)

  /** Where an argument is passed: in a register of either kind, or on the stack. A marker is passed nowhere. */
  datatype Place = Gpr(i: int) | Fpr(i: int) | Stack(s: Store) | Nowhere

  /** Markers only occur in calls with variable arguments on OSX. */
  predicate Proper(t: Target, c: Call) {
    && !(t.osx && t.win) && (t.osx ==> !t.bigEndian)
    && (forall k {:trigger c.args[k]} :: 0 <= k < |c.args| ==> c.args[k].Marker? ==> t.osx && c.vararg)
    && (forall k {:trigger c.args[k]} :: 0 <= k < |c.args| ==> c.args[k].Word? ==> c.args[k].size in {1, 2, 4, 8})
  }

  function Size(a: Arg): int {
    match a
    case Marker => 1
    case Fp(num) => if num then 8 else 4
    case Word(size) => size
  }

  /** How far the arguments have been placed: registers left of either kind, the stack offset, the least alignment -
      1. */
  datatype Layout = Layout(gpr: int, fpr: int, ofs: int, align: int)

  /** The alignment - 1 of an argument on the stack. */
  function Al(t: Target, a: Arg, align: int): int {
    if t.osx && align < Size(a) - 1 then Size(a) - 1 else align
  }

  function AlignUp(ofs: int, al: int): int
    requires al >= 0
  {
    RoundUp(ofs, al + 1)
  }

  predicate OnStack(t: Target, c: Call, l: Layout, a: Arg) {
    match a
    case Marker => false
    case Fp(_) => l.fpr == 0 && !(t.win && c.vararg && l.gpr > 0)
    case Word(_) => l.gpr == 0
  }

  function After(t: Target, c: Call, l: Layout, a: Arg): Layout
    requires l.align >= 0
  {
    match a
    case Marker => Layout(0, 0, l.ofs, 7)
    case _ =>
      if OnStack(t, c, l, a) then l.(ofs := AlignUp(l.ofs, Al(t, a, l.align)) + Al(t, a, l.align) + 1)
      else if a.Fp? && l.fpr > 0 then l.(fpr := l.fpr - 1)
      else l.(gpr := l.gpr - 1)
  }

  function First(t: Target, c: Call): Layout {
    Layout(REGARGS, if t.win && c.vararg then 0 else REGARGS, 0, if t.osx then 0 else 7)
  }

  /** The layout after the first n arguments. */
  function Placed(t: Target, c: Call, n: nat): (l: Layout)
    requires n <= |c.args|
    ensures l.align == 0 || l.align == 7
  {
    if n == 0 then First(t, c) else After(t, c, Placed(t, c, n - 1), c.args[n - 1])
  }

  /** Masking off the low bits after adding twice the mask and one is rounding up and going past one unit. */
  lemma TwoSteps(ofs: int, al: int)
    requires al >= 0
    ensures (ofs + 2 * al + 1) - (ofs + 2 * al + 1) % (al + 1) == AlignUp(ofs, al) + al + 1
  {
    RoundUpNext(ofs, al + 1);
  }

  lemma AlIs(t: Target, a: Arg, align: int)
    requires (align == 0 || align == 7) && (a.Word? ==> a.size in {1, 2, 4, 8})
    ensures var al := Al(t, a, align); al == 0 || al == 1 || al == 3 || al == 7
  {
  }

  lemma AlignUpMono(x: int, y: int, al: int)
    requires x <= y && al >= 0
    ensures x <= AlignUp(x, al) <= AlignUp(y, al) && AlignUp(x, al) < x + al + 1
  {
    hide RoundUp;
    RoundUpIs(x, al + 1);
    RoundUpMono(x, y, al + 1);
  }

  // The two loops.

  /** The reservation goes on like the call itself, but takes a marker for an argument of the least alignment. */
  function AfterSetup(t: Target, c: Call, l: Layout, a: Arg): Layout
    requires l.align >= 0
  {
    if a.Marker? then Layout(0, 0, AlignUp(l.ofs, l.align) + l.align + 1, 7) else After(t, c, l, a)
  }

  function Reserved(t: Target, c: Call, n: nat): (l: Layout)
    requires n <= |c.args|
    ensures l.align == 0 || l.align == 7
  {
    if n == 0 then First(t, c) else AfterSetup(t, c, Reserved(t, c, n - 1), c.args[n - 1])
  }

  /** The stack slots, of four bytes, that the argument stores may use. */
  method SetupSlots(t: Target, c: Call, evenspill: int) returns (slots: int)
    requires Proper(t, c)
    ensures slots >= evenspill
    ensures |c.args| > REGARGS || (t.osx && c.vararg) ==> 4 * slots >= Reserved(t, c, |c.args|).ofs
    ensures slots > evenspill ==>
      (|c.args| > REGARGS || (t.osx && c.vararg)) && 4 * slots < Reserved(t, c, |c.args|).ofs + 4
  {
    slots := evenspill;
    if |c.args| > REGARGS || (t.osx && c.vararg) {
      var ngpr, nfpr := REGARGS, REGARGS;
      var spofs, spalign := 0, if t.osx then 0 else 7;
      if t.win && c.vararg { nfpr := 0; }
      for i := 0 to |c.args|
        invariant Reserved(t, c, i) == Layout(ngpr, nfpr, spofs, spalign) && ngpr >= 0 && nfpr >= 0
      {
        var al, a := spalign, c.args[i];
        AlIs(t, a, spalign);
        if a.Marker? {
          nfpr, ngpr, spalign := 0, 0, 7;
        } else if a.Fp? {
          if nfpr > 0 { nfpr := nfpr - 1; continue; }
          if t.win && c.vararg && ngpr > 0 { ngpr := ngpr - 1; continue; }
          al := Al(t, a, al);
        } else {
          if ngpr > 0 { ngpr := ngpr - 1; continue; }
          al := Al(t, a, al);
        }
        TwoSteps(spofs, al);
        spofs := (spofs + 2 * al + 1) - (spofs + 2 * al + 1) % (al + 1);
      }
      var nslots := (spofs + 3) / 4;
      if nslots > slots { slots := nslots; }
    }
  }

  /** The bytes that the store of an argument writes. */
  function StoreOf(t: Target, l: Layout, a: Arg): Store
    requires l.align >= 0
  {
    var al := Al(t, a, l.align);
    var at := AlignUp(l.ofs, al);
    if al < 3 then Store(at, al + 1)
    else if Size(a) == 8 then Store(at, 8)
    else Store(if t.bigEndian && al >= 7 then at + 4 else at, 4)
  }

  /** The stores for the first n arguments. */
  function Stores(t: Target, c: Call, n: nat): seq<Store>
    requires n <= |c.args|
  {
    if n == 0 then []
    else
      var l, a := Placed(t, c, n - 1), c.args[n - 1];
      if OnStack(t, c, l, a) then Stores(t, c, n - 1) + [StoreOf(t, l, a)] else Stores(t, c, n - 1)
  }

  function PlaceOf(t: Target, c: Call, n: nat): Place
    requires n < |c.args|
  {
    var l, a := Placed(t, c, n), c.args[n];
    if a.Marker? then Nowhere
    else if OnStack(t, c, l, a) then Stack(StoreOf(t, l, a))
    else if a.Fp? && l.fpr > 0 then Fpr(8 - l.fpr)
    else Gpr(8 - l.gpr)
  }

  /** Places the arguments of a call in registers and, when these run out, on the stack. */
  method GenCall(t: Target, c: Call) returns (stores: seq<Store>, places: seq<Place>)
    requires Proper(t, c)
    ensures stores == Stores(t, c, |c.args|)
    ensures |places| == |c.args| && forall n {:trigger places[n]} :: 0 <= n < |places| ==> places[n] == PlaceOf(t, c, n)
  {
    stores, places := [], [];
    var gpr, fpr := 0, 0;
    var spofs, spalign := 0, if t.osx then 0 else 7;
    if t.win && c.vararg { fpr := REGARGS; }
    for n := 0 to |c.args|
      invariant Placed(t, c, n) == Layout(REGARGS - gpr, REGARGS - fpr, spofs, spalign) && stores == Stores(t, c, n)
      invariant 0 <= gpr <= REGARGS && 0 <= fpr <= REGARGS
      invariant |places| == n && forall k {:trigger places[k]} :: 0 <= k < n ==> places[k] == PlaceOf(t, c, k)
    {
      var a := c.args[n];
      var al := Al(t, a, spalign);
      AlIs(t, a, spalign);
      if a.Marker? {
        gpr, fpr, spalign := REGARGS, REGARGS, 7;
        places := places + [Nowhere];
      } else if a.Fp? && fpr < REGARGS {
        places := places + [Fpr(fpr)];
        fpr := fpr + 1;
      } else if (a.Fp? && t.win && c.vararg && gpr < REGARGS) || (a.Word? && gpr < REGARGS) {
        places := places + [Gpr(gpr)];
        gpr := gpr + 1;
      } else {
        spofs := (spofs + al) - (spofs + al) % (al + 1);
        if al >= 3 {
          if t.bigEndian && al >= 7 && Size(a) != 8 { spofs, al := spofs + 4, al - 4; }
          stores := stores + [Store(spofs, if Size(a) == 8 then 8 else 4)];
        } else {
          stores := stores + [Store(spofs, al + 1)];
        }
        places := places + [Stack(stores[|stores| - 1])];
        spofs := spofs + al + 1;
      }
    }
  }

  // The calling conventions.

  function Words(c: Call, n: nat): nat
    requires n <= |c.args|
  {
    if n == 0 then 0 else Words(c, n - 1) + if c.args[n - 1].Word? then 1 else 0
  }

  function Floats(c: Call, n: nat): nat
    requires n <= |c.args|
  {
    if n == 0 then 0 else Floats(c, n - 1) + if c.args[n - 1].Fp? then 1 else 0
  }

  function Beyond(n: nat): nat { if n > 8 then n - 8 else 0 }

  /** How many of the first n arguments find no register, the first eight of either kind. */
  function Left(c: Call, n: nat): nat
    requires n <= |c.args|
  {
    Beyond(Words(c, n)) + Beyond(Floats(c, n))
  }

  /** The argument has 64 bits. */
  predicate Wide(a: Arg) { a == Fp(true) || a == Word(8) }

  /** A slot of eight bytes, of which the argument fills all or the half that is least significant. */
  function SlotFor(t: Target, a: Arg, at: int): Place {
    if Wide(a) then Stack(Store(at, 8)) else Stack(Store(if t.bigEndian then at + 4 else at, 4))
  }

  lemma Slotted(t: Target, l: Layout, a: Arg, k: int)
    requires !t.osx && l.align == 7 && l.ofs == 8 * k && !a.Marker? && (a.Word? ==> a.size in {1, 2, 4, 8})
    ensures Stack(StoreOf(t, l, a)) == SlotFor(t, a, 8 * k)
    ensures AlignUp(l.ofs, Al(t, a, l.align)) + Al(t, a, l.align) + 1 == 8 * (k + 1)
  {
    UpToEight(8 * k);
  }

  /** Off OSX the first eight arguments of each kind go into registers in order, and the others on the stack in order,
      eight bytes each. */
  lemma {:induction false} Standard(t: Target, c: Call, n: nat)
    requires Proper(t, c) && !t.osx && !(t.win && c.vararg) && n <= |c.args|
    ensures Placed(t, c, n) == Layout(if Words(c, n) < 8 then 8 - Words(c, n) else 0,
                                      if Floats(c, n) < 8 then 8 - Floats(c, n) else 0, 8 * Left(c, n), 7)
    ensures n < |c.args| ==>
      PlaceOf(t, c, n) == if c.args[n].Word? && Words(c, n) < 8 then Gpr(Words(c, n))
                          else if c.args[n].Fp? && Floats(c, n) < 8 then Fpr(Floats(c, n))
                          else SlotFor(t, c.args[n], 8 * Left(c, n))
  {
    hide AlignUp, Al, StoreOf;
    if n > 0 {
      Standard(t, c, n - 1);
      Slotted(t, Placed(t, c, n - 1), c.args[n - 1], Left(c, n - 1));
    }
    if n < |c.args| {
      assert !c.args[n].Marker?;
      Slotted(t, Placed(t, c, n), c.args[n], Left(c, n));
    }
  }

  /** With variable arguments on Windows the first eight go into general registers, whatever their kind. */
  lemma {:induction false} WindowsVararg(t: Target, c: Call, n: nat)
    requires Proper(t, c) && t.win && c.vararg && n <= |c.args|
    ensures Placed(t, c, n) == Layout(if n < 8 then 8 - n else 0, 0, 8 * Beyond(n), 7)
    ensures n < |c.args| ==> PlaceOf(t, c, n) == if n < 8 then Gpr(n) else SlotFor(t, c.args[n], 8 * (n - 8))
  {
    hide AlignUp, Al, StoreOf;
    if n > 0 {
      WindowsVararg(t, c, n - 1);
      Slotted(t, Placed(t, c, n - 1), c.args[n - 1], Beyond(n - 1));
    }
    if n < |c.args| {
      assert !c.args[n].Marker?;
      Slotted(t, Placed(t, c, n), c.args[n], Beyond(n));
    }
  }

  function Bytes(a: Arg): int {
    if Wide(a) then 8 else if a.Word? then a.size else 4
  }

  /** On OSX a fixed argument on the stack takes its own size, on the next multiple of it. */
  lemma {:induction false} OsxFixed(t: Target, c: Call, n: nat)
    requires Proper(t, c) && t.osx && n <= |c.args|
    requires forall k {:trigger c.args[k]} :: 0 <= k <= n && k < |c.args| ==> !c.args[k].Marker?
    ensures var l := Placed(t, c, n);
            && l.gpr == (if Words(c, n) < 8 then 8 - Words(c, n) else 0)
            && l.fpr == (if Floats(c, n) < 8 then 8 - Floats(c, n) else 0) && l.align == 0 && l.ofs >= 0
    ensures n < |c.args| ==>
      if c.args[n].Word? && Words(c, n) < 8 then PlaceOf(t, c, n) == Gpr(Words(c, n))
      else if c.args[n].Fp? && Floats(c, n) < 8 then PlaceOf(t, c, n) == Fpr(Floats(c, n))
      else PlaceOf(t, c, n).Stack? && Natural(PlaceOf(t, c, n).s, Bytes(c.args[n]), Placed(t, c, n).ofs)
           && Placed(t, c, n + 1).ofs == PlaceOf(t, c, n).s.at + Bytes(c.args[n])
  {
    hide AlignUp, Al, StoreOf;
    if n > 0 {
      OsxFixed(t, c, n - 1);
    }
    if n < |c.args| { NaturalStore(t, Placed(t, c, n), c.args[n]); }
  }

  /** The next multiple of the size from ofs on. */
  ghost predicate Natural(s: Store, size: int, ofs: int) {
    size > 0 && s.size == size && s.at % size == 0 && ofs <= s.at < ofs + size
  }

  lemma NaturalStore(t: Target, l: Layout, a: Arg)
    requires t.osx && !t.bigEndian && l.align == 0 && !a.Marker? && (a.Word? ==> a.size in {1, 2, 4, 8})
    ensures Natural(StoreOf(t, l, a), Bytes(a), l.ofs)
    ensures AlignUp(l.ofs, Al(t, a, l.align)) + Al(t, a, l.align) + 1 == StoreOf(t, l, a).at + Bytes(a)
  {
    hide RoundUp;
    RoundUpIs(l.ofs, Bytes(a));
  }

  /** Behind the marker each argument takes the next eight bytes, and no register. */
  lemma {:induction false} OsxVariable(t: Target, c: Call, k: nat, n: nat)
    requires Proper(t, c) && t.osx && k < n < |c.args| && c.args[k].Marker?
    requires forall i {:trigger c.args[i]} :: k < i < |c.args| ==> !c.args[i].Marker?
    ensures Placed(t, c, n).gpr == Placed(t, c, n).fpr == 0 && Placed(t, c, n).align == 7
    ensures var p, ofs := PlaceOf(t, c, n), Placed(t, c, n).ofs;
            && p.Stack? && p.s.size == (if Wide(c.args[n]) then 8 else 4) && p.s.at % 8 == 0 && ofs <= p.s.at < ofs + 8
            && Placed(t, c, n + 1).ofs == p.s.at + 8
  {
    hide AlignUp, Al, StoreOf;
    if n > k + 1 { OsxVariable(t, c, k, n - 1); }
    EightBytes(t, Placed(t, c, n), c.args[n]);
  }

  lemma EightBytes(t: Target, l: Layout, a: Arg)
    requires t.osx && !t.bigEndian && l.align == 7 && !a.Marker? && (a.Word? ==> a.size in {1, 2, 4, 8})
    ensures var s := StoreOf(t, l, a);
            && s.size == (if Wide(a) then 8 else 4) && s.at % 8 == 0 && l.ofs <= s.at < l.ofs + 8
            && AlignUp(l.ofs, Al(t, a, l.align)) + Al(t, a, l.align) + 1 == s.at + 8
  {
    hide RoundUp;
    RoundUpIs(l.ofs, 8);
  }

  // Agreement.

  /** Both loops count registers alike; the reservation is never behind, and exact as long as there is no marker. */
  lemma {:induction false} Covers(t: Target, c: Call, n: nat)
    requires Proper(t, c) && n <= |c.args|
    ensures var l, m := Placed(t, c, n), Reserved(t, c, n);
            l.gpr == m.gpr && l.fpr == m.fpr && l.align == m.align && 0 <= l.ofs <= m.ofs
    ensures (forall k {:trigger c.args[k]} :: 0 <= k < n ==> !c.args[k].Marker?) ==>
      Placed(t, c, n) == Reserved(t, c, n)
  {
    hide RoundUp, AlignUp;
    if n > 0 {
      Covers(t, c, n - 1);
      var l, m, a := Placed(t, c, n - 1), Reserved(t, c, n - 1), c.args[n - 1];
      AlIs(t, a, l.align);
      AlignUpMono(l.ofs, m.ofs, Al(t, a, l.align));
      AlignUpMono(m.ofs, m.ofs, l.align);
    }
  }

  /** The store of an argument stays within the room taken for it, on a multiple of its size. */
  lemma StoreFits(t: Target, l: Layout, a: Arg)
    requires (l.align == 0 || l.align == 7) && !a.Marker? && (a.Word? ==> a.size in {1, 2, 4, 8})
    requires t.bigEndian ==> !t.osx
    requires t.osx || l.align == 7
    ensures var s, al := StoreOf(t, l, a), Al(t, a, l.align);
            l.ofs <= s.at && s.size > 0 && s.at + s.size <= AlignUp(l.ofs, al) + al + 1 && s.at % s.size == 0
  {
    hide RoundUp, AlignUp;
    var al := Al(t, a, l.align);
    AlIs(t, a, l.align);
    AlignUpMono(l.ofs, l.ofs, al);
    MultipleOf(l.ofs, al);
  }

  lemma MultipleOf(ofs: int, al: int)
    requires al == 0 || al == 1 || al == 3 || al == 7
    ensures var at := AlignUp(ofs, al); at % (al + 1) == 0 && (al >= 3 ==> at % 4 == 0 && (at + 4) % 4 == 0)
  {
    hide RoundUp;
    RoundUpIs(ofs, al + 1);
    HalfMultiple(AlignUp(ofs, al));
  }

  lemma HalfMultiple(at: int)
    ensures at % 8 == 0 || at % 4 == 0 ==> at % 4 == 0 && (at + 4) % 4 == 0
  {
  }

  lemma {:induction false} Aligned(t: Target, c: Call, n: nat)
    requires Proper(t, c) && n <= |c.args|
    ensures t.osx || Placed(t, c, n).align == 7
  {
    if n > 0 { Aligned(t, c, n - 1); }
  }

  /** Stores lie one behind the other, each on a multiple of its size, below the offset reached. */
  lemma {:induction false} StoresApart(t: Target, c: Call, n: nat)
    requires Proper(t, c) && n <= |c.args|
    ensures forall i {:trigger Stores(t, c, n)[i]} :: 0 <= i < |Stores(t, c, n)| ==>
              var s := Stores(t, c, n)[i];
                  0 <= s.at && s.size > 0 && s.at % s.size == 0 && s.at + s.size <= Placed(t, c, n).ofs
    ensures forall i, j {:trigger Stores(t, c, n)[i], Stores(t, c, n)[j]} :: 0 <= i < j < |Stores(t, c, n)| ==>
              Stores(t, c, n)[i].at + Stores(t, c, n)[i].size <= Stores(t, c, n)[j].at
    ensures Placed(t, c, n).ofs >= 0
  {
    hide RoundUp, AlignUp, StoreOf;
    if n > 0 {
      StoresApart(t, c, n - 1);
      var l, a := Placed(t, c, n - 1), c.args[n - 1];
      AlIs(t, a, l.align);
      Aligned(t, c, n - 1);
      if OnStack(t, c, l, a) { StoreFits(t, l, a); }
    }
  }

  /** Up to eight arguments without a marker need no stack. */
  lemma {:induction false} FewInRegisters(t: Target, c: Call, n: nat)
    requires Proper(t, c) && n <= |c.args| <= REGARGS && !(t.osx && c.vararg)
    ensures Stores(t, c, n) == [] && Placed(t, c, n).gpr >= REGARGS - n
            && (!(t.win && c.vararg) ==> Placed(t, c, n).fpr >= REGARGS - n)
    ensures t.win && c.vararg ==> Placed(t, c, n).fpr == 0
  {
    if n > 0 { FewInRegisters(t, c, n - 1); }
  }

  /** Every byte that the call stores on the stack has been reserved. */
  lemma SlotsSuffice(t: Target, c: Call, slots: int)
    requires Proper(t, c)
    requires |c.args| > REGARGS || (t.osx && c.vararg) ==> 4 * slots >= Reserved(t, c, |c.args|).ofs
    ensures forall i {:trigger Stores(t, c, |c.args|)[i]} :: 0 <= i < |Stores(t, c, |c.args|)| ==>
              var s := Stores(t, c, |c.args|)[i]; 0 <= s.at && s.at + s.size <= 4 * slots
  {
    if |c.args| > REGARGS || (t.osx && c.vararg) {
      Covers(t, c, |c.args|);
      StoresApart(t, c, |c.args|);
    } else {
      FewInRegisters(t, c, |c.args|);
    }
  }

  /** The least alignment stays that of the first argument until a marker comes. */
  lemma {:induction false} NotAligned(t: Target, c: Call, n: nat)
    requires Proper(t, c) && t.osx && n <= |c.args| && forall i {:trigger c.args[i]} :: 0 <= i < n ==>
      !c.args[i].Marker?
    ensures Placed(t, c, n).align == 0
  {
    if n > 0 { NotAligned(t, c, n - 1); }
  }

  lemma UpToEight(x: int)
    ensures AlignUp(x, 7) == if x % 8 == 0 then x else x - x % 8 + 8
    ensures AlignUp(x + 1, 7) == x - x % 8 + 8
  {
  }

  lemma NextEights(x: int)
    ensures (if x % 8 == 0 then x else x - x % 8 + 8) % 8 == 0 && (x - x % 8 + 8) % 8 == 0 && (x + 8) % 8 == x % 8
  {
  }

  lemma NotUp(x: int)
    ensures AlignUp(x, 0) == x
  {
  }

  lemma PlacedStep(t: Target, c: Call, n: nat)
    requires n < |c.args|
    ensures Placed(t, c, n + 1) == After(t, c, Placed(t, c, n), c.args[n])
    ensures Reserved(t, c, n + 1) == AfterSetup(t, c, Reserved(t, c, n), c.args[n])
  {
    hide After, AfterSetup;
  }

  /** An argument after the marker takes the next eight bytes. */
  lemma AfterEight(t: Target, c: Call, x: int, a: Arg)
    requires t.osx && !a.Marker? && (a.Word? ==> a.size in {1, 2, 4, 8})
    ensures After(t, c, Layout(0, 0, x, 7), a) == AfterSetup(t, c, Layout(0, 0, x, 7), a) == Layout(0, 0,
              AlignUp(x, 7) + 8, 7)
  {
    hide AlignUp;
    assert Al(t, a, 7) == 7;
  }

  /** What the marker at k costs by the time that n arguments have been counted: p is where the fixed arguments end. */
  function Excess(p: int, k: nat, n: nat): int {
    if n == k + 1 then 1 else if p % 8 == 0 then 8 else 0
  }

  lemma {:induction false} AfterMarker(t: Target, c: Call, k: nat, n: nat)
    requires Proper(t, c) && t.osx && k < n <= |c.args| && c.args[k].Marker?
    requires forall i {:trigger c.args[i]} :: 0 <= i < |c.args| && i != k ==> !c.args[i].Marker?
    ensures var l, m, p := Placed(t, c, n), Reserved(t, c, n), Placed(t, c, k).ofs;
            && l == Layout(0, 0, if n == k + 1 then p else l.ofs, 7) && (n > k + 1 ==> l.ofs % 8 == 0)
            && m == l.(ofs := l.ofs + Excess(p, k, n))
  {
    hide AlignUp, Placed, Reserved, After, AfterSetup;
    var p := Placed(t, c, k).ofs;
    PlacedStep(t, c, n - 1);
    if n == k + 1 {
      FirstMarker(t, c, k);
    } else {
      AfterMarker(t, c, k, n - 1);
      var l, m := Placed(t, c, n - 1), Reserved(t, c, n - 1);
      AfterEight(t, c, l.ofs, c.args[n - 1]);
      AfterEight(t, c, m.ofs, c.args[n - 1]);
      UpToEight(l.ofs);
      NextEights(l.ofs);
      UpToEight(l.ofs + 8);
    }
  }

  lemma FirstMarker(t: Target, c: Call, k: nat)
    requires Proper(t, c) && t.osx && k < |c.args| && c.args[k].Marker?
    requires forall i {:trigger c.args[i]} :: 0 <= i < |c.args| && i != k ==> !c.args[i].Marker?
    ensures var p := Placed(t, c, k).ofs;
            Placed(t, c, k + 1) == Layout(0, 0, p, 7) && Reserved(t, c, k + 1) == Layout(0, 0, p + 1, 7)
  {
    PlacedStep(t, c, k);
    Covers(t, c, k);
    NotAligned(t, c, k);
    NotUp(Placed(t, c, k).ofs);
    hide AlignUp, Placed, Reserved;
  }

  /**
   * On OSX a call with variable arguments reserves more than it stores exactly if no argument follows the marker, or
   * the fixed arguments end on a multiple of eight bytes: it is one byte then, or eight.
   */
  lemma MarkerExact(t: Target, c: Call, k: nat)
    requires Proper(t, c) && t.osx && k < |c.args| && c.args[k].Marker?
    requires forall i {:trigger c.args[i]} :: 0 <= i < |c.args| && i != k ==> !c.args[i].Marker?
    ensures var n, p := |c.args|, Placed(t, c, k).ofs;
            && (Reserved(t, c, n).ofs == Placed(t, c, n).ofs <==> k + 1 < n && p % 8 != 0)
            && Reserved(t, c, n).ofs - Placed(t, c, n).ofs == Excess(p, k, n)
  {
    AfterMarker(t, c, k, |c.args|);
  }

  /** One variable argument of four bytes: eight are used, sixteen reserved. */
  lemma MarkerCosts(t: Target, c: Call)
    requires t == Target(true, false, false) && c.vararg && |c.args| == 2 && c.args[0].Marker? && c.args[1] == Word(4)
    ensures Placed(t, c, 2).ofs == 8 && Reserved(t, c, 2).ofs == 16
  {
    hide AlignUp, Placed, Reserved, After, AfterSetup;
    InRegisters(t, c, 0);
    MarkerExact(t, c, 0);
    FirstMarker(t, c, 0);
    PlacedStep(t, c, 1);
    AfterEight(t, c, 0, c.args[1]);
    UpToEight(0);
  }

  /** After nine fixed arguments of one byte the marker costs nothing. */
  lemma MarkerFree(t: Target, c: Call)
    requires t == Target(true, false, false) && c.vararg && |c.args| == 11 && c.args[9].Marker? && c.args[10] == Word(4)
    requires forall i {:trigger c.args[i]} :: 0 <= i < 9 ==> c.args[i] == Word(1)
    ensures Reserved(t, c, 11).ofs == Placed(t, c, 11).ofs == 16
  {
    hide AlignUp, Placed, Reserved, After, AfterSetup;
    InRegisters(t, c, 8);
    PlacedStep(t, c, 8);
    NinthStored(t, c);
    MarkerExact(t, c, 9);
    FirstMarker(t, c, 9);
    PlacedStep(t, c, 10);
    AfterEight(t, c, 1, c.args[10]);
    UpToEight(1);
  }

  lemma {:induction false} InRegisters(t: Target, c: Call, n: nat)
    requires t == Target(true, false, false) && n <= 8 && n <= |c.args| && forall i {:trigger c.args[i]} ::
      0 <= i < n ==> c.args[i] == Word(1)
    ensures Placed(t, c, n) == Layout(8 - n, 8, 0, 0)
  {
    hide AlignUp;
    if n > 0 { InRegisters(t, c, n - 1); }
  }

  lemma NinthStored(t: Target, c: Call)
    requires t == Target(true, false, false)
    ensures After(t, c, Layout(0, 8, 0, 0), Word(1)) == Layout(0, 8, 1, 0)
  {
    NotUp(0);
    hide AlignUp;
  }
}
