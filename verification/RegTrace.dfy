/** Assembling a whole straight-line trace, from its last instruction to its first. */
module RegTrace {
  import opened RegCode
  import opened RegState
  import opened RegAlloc

  /** An instruction: whether it must be executed for its effect, its operands, the references that its exit
      restores, the registers that it destroys. */
  datatype TraceIns = TraceIns(effect: bool, ops: seq<int>, snaps: seq<int>, clobbers: set<int>)

  function RefOf(k: int): int { REF_BASE + 1 + k }

  /** Operands are constants, BASE or results of earlier instructions, and fewer than the registers of either kind. */
  ghost predicate WellFormed(ins: seq<TraceIns>, ir: map<int, Ins>, all: set<int>) {
    forall k {:trigger InsAt(ins, ir, all, k)} :: 0 <= k < |ins| ==> InsAt(ins, ir, all, k)
  }

  ghost predicate InsAt(ins: seq<TraceIns>, ir: map<int, Ins>, all: set<int>, k: int)
    requires 0 <= k < |ins|
  {
    RefOf(k) in ir && InsOk(ins[k], ir, all, RefOf(k))
  }

  ghost predicate InsOk(i: TraceIns, ir: map<int, Ins>, all: set<int>, x: int) {
    && (forall j {:trigger i.ops[j]} :: 0 <= j < |i.ops| ==> i.ops[j] in ir && i.ops[j] < x)
    && (forall j {:trigger i.snaps[j]} :: 0 <= j < |i.snaps| ==> i.snaps[j] in ir && i.snaps[j] < x)
    && |i.ops| < |Regs(all, false)| && |i.ops| < |Regs(all, true)| && i.clobbers <= all
  }

  ghost predicate SameKinds(v: View, w: View) {
    v.all == w.all && v.ir.Keys == w.ir.Keys && Carries(v, w) && forall y {:trigger w.ir[y]} :: y in v.ir ==>
      Similar(w.ir[y], v.ir[y])
  }

  lemma SparesKinds(v: View, w: View, allow: set<int>)
    requires Spares(v, w, allow)
    ensures SameKinds(v, w) && v.pend == w.pend && Grows(v.code, w.code)
  {
  }

  lemma KindsFp(v: View, w: View)
    requires SameKinds(v, w)
    ensures FpRefs(v.ir) == FpRefs(w.ir)
  {
    forall y ensures y in FpRefs(v.ir) <==> y in FpRefs(w.ir) {
      assert y in v.ir <==> y in w.ir.Keys;
      if y in v.ir { assert Similar(w.ir[y], v.ir[y]); }
    }
  }

  lemma KindsSelf(v: View)
    ensures SameKinds(v, v)
  {
    CarriesSelf(v);
  }

  lemma KindsTwo(u: View, v: View, w: View)
    requires SameKinds(u, v) && SameKinds(v, w)
    ensures SameKinds(u, w)
  {
    CarriesTwo(u, v, w);
    hide Carries;
    forall y {:trigger w.ir[y]} | y in u.ir ensures Similar(w.ir[y], u.ir[y]) { assert Similar(v.ir[y], u.ir[y]); }
  }

  lemma SomeLeft(s: set<int>, t: set<int>)
    requires |t| < |s|
    ensures s - t != {}
  {
    assert |s - t| == |s| - |s * t| && |t - s| == |t| - |t * s|;
    assert s * t == t * s;
  }

  /** The operands that have their registers, all different from those in pend unless they may share it. */
  ghost predicate Held(v: View, ops: seq<int>, uses: seq<Operand>, taken: set<int>) {
    && |uses| <= |ops|
    && (forall k {:trigger uses[k]} :: 0 <= k < |uses| ==>
        && uses[k].ref == ops[k] && uses[k].r in taken && R(uses[k].r) in v.need && v.need[R(uses[k].r)] == ops[k]
        && (Float(uses[k].r) <==> ops[k] in FpRefs(v.ir)))
    && (forall d {:trigger R(d) in v.pend} :: R(d) in v.pend ==> d in v.free || d in taken)
  }

  lemma HeldMore(v: View, w: View, ops: seq<int>, uses: seq<Operand>, taken: set<int>, allow: set<int>, r: int)
    requires Held(v, ops, uses, taken) && |uses| < |ops| && Spares(v, w, allow) && allow !! taken
    requires (Float(r) <==> ops[|uses|] in FpRefs(v.ir)) && R(r) in w.need && w.need[R(r)] == ops[|uses|]
             && forall q :: q in v.free ==> q in w.free || q == r
    ensures Held(w, ops, uses + [Operand(r, ops[|uses|])], taken + {r})
  {
    var uses' := uses + [Operand(r, ops[|uses|])];
    SparesKinds(v, w, allow);
    KindsFp(v, w);
    forall k {:trigger uses'[k]} | 0 <= k < |uses'|
      ensures uses'[k].ref == ops[k] && uses'[k].r in taken + {r} && R(uses'[k].r) in w.need
              && w.need[R(uses'[k].r)] == ops[k] && (Float(uses'[k].r) <==> ops[k] in FpRefs(w.ir))
    {
      if k < |uses| { assert uses[k].r in taken && uses[k].r !in allow; }
    }
  }

  /** Registers for all operands at once: none of them may evict another. */
  method Operands(ra: ASMState, ops: seq<int>, ghost cur: int) returns (ok: bool, uses: seq<Operand>)
    requires Good(ra.V(), cur) && (forall j {:trigger ops[j]} :: 0 <= j < |ops| ==> ops[j] in ra.ir && ops[j] < cur)
    requires |ops| < |Regs(ra.all, false)| && |ops| < |Regs(ra.all, true)|
    requires forall d {:trigger R(d) in ra.pend} :: R(d) in ra.pend ==> d in ra.freeset
    modifies ra
    ensures !ok ==> ra.evenspill > MAX_SPILL && Budget(old(ra.V())) > MAX_SPILL
    ensures ok ==> Good(ra.V(), cur) && ra.pend == old(ra.pend) && SameKinds(old(ra.V()), ra.V()) && |uses| == |ops|
    ensures ok ==> forall k {:trigger uses[k]} :: 0 <= k < |uses| ==>
      && uses[k].ref == ops[k] && R(uses[k].r) in ra.need && ra.need[R(uses[k].r)] == uses[k].ref
      && (Float(uses[k].r) <==> ops[k] in FpRefs(ra.ir))
    ensures ok ==> Grows(old(ra.code), ra.code) && AllUsed(ra.V(), ops)
  {
    hide Good, Spares, Lives, SameKinds, Grows, AllUsed, Budget;
    uses, ok := [], true;
    KindsSelf(ra.V());
    GrowsSelf(ra.code);
    NoneUsed(ra.V());
    var k, taken := 0, {};
    while k < |ops|
      invariant 0 <= k <= |ops| && |uses| == k && |taken| <= k && Good(ra.V(), cur) && Held(ra.V(), ops, uses, taken)
      invariant ra.pend == old(ra.pend) && SameKinds(old(ra.V()), ra.V()) && Grows(old(ra.code), ra.code)
                && AllUsed(ra.V(), ops[..k])
    {
      KindsIn(old(ra.V()), ra.V(), ops[k]);
      var allow := Regs(ra.all, ra.ir[ops[k]].fp) - taken;
      SomeLeft(Regs(ra.all, ra.ir[ops[k]].fp), taken);
      ghost var v := ra.V();
      forall q | q in allow - ra.freeset ensures Clear(v, q) { assert R(q) in v.pend ==> q in v.free || q in taken; }
      var r;
      KindsCarry(old(ra.V()), v);
      ok, r := ra.Alloc1(ops[k], allow, cur);
      if !ok { return; }
      LivesUsed(ra.V(), ops[k], r);
      HeldMore(v, ra.V(), ops, uses, taken, allow, r);
      SparesKinds(v, ra.V(), allow);
      GrowsTwo(old(ra.code), v.code, ra.code);
      KindsTwo(old(ra.V()), v, ra.V());
      OneUsed(v, ra.V(), ops[..k], ops[k]);
      assert ops[..k + 1] == ops[..k] + [ops[k]];
      uses, taken, k := uses + [Operand(r, ops[k])], taken + {r}, k + 1;
    }
    assert ops[..k] == ops;
  }

  /** Every reference has been asked for, if it is of an instruction. */
  ghost predicate AllUsed(v: View, xs: seq<int>) {
    forall j {:trigger xs[j]} :: 0 <= j < |xs| && xs[j] > REF_BASE ==> xs[j] in v.ir && Used(v.ir[xs[j]])
  }

  lemma LivesUsed(v: View, x: int, r: int)
    requires Lives(v, x, r)
    ensures x in v.ir && Used(v.ir[x])
  {
  }

  lemma NoneUsed(v: View)
    ensures AllUsed(v, [])
  {
  }

  lemma OneUsed(v: View, w: View, xs: seq<int>, y: int)
    requires AllUsed(v, xs) && Carries(v, w) && (y > REF_BASE ==> y in w.ir && Used(w.ir[y]))
    ensures AllUsed(w, xs + [y])
  {
    UsedStill(v, w, xs);
  }

  lemma UsedStill(v: View, w: View, xs: seq<int>)
    requires AllUsed(v, xs) && Carries(v, w)
    ensures AllUsed(w, xs)
  {
    forall j {:trigger xs[j]} | 0 <= j < |xs| && xs[j] > REF_BASE
      ensures xs[j] in w.ir && Used(w.ir[xs[j]])
    {
      assert StaysUsed(v, w, xs[j]);
    }
  }

  lemma KindsCarry(v: View, w: View)
    requires SameKinds(v, w)
    ensures Carries(v, w) && Budget(w) <= Budget(v) && v.ir.Keys == w.ir.Keys && v.all == w.all
  {
  }

  lemma KindsIn(v: View, w: View, x: int)
    requires SameKinds(v, w) && x in v.ir
    ensures x in w.ir && w.all == v.all
  {
  }

  /** What instruction x does when it runs: it reads its operands, destroys registers, and writes its result if it
      has one. */
  function Block(x: int, i: TraceIns, fps: set<int>, junk: map<int, int>, writes: bool): seq<Event> {
    var result := if writes then Into(x in fps) else Nothing;
    if i.clobbers == {} then [Exec(x, Wanted(i.ops, fps), result)]
    else [Exec(x, Wanted(i.ops, fps), Nothing), RegCode.Destroy(junk), Exec(x, [], result)]
  }

  /** Operands in registers of their kinds; fps are the references to floating point values. */
  function Wanted(ops: seq<int>, fps: set<int>): seq<Reading> {
    seq(|ops|, k requires 0 <= k < |ops| => Reading(ops[k], ops[k] in fps))
  }

  /** The events of the instructions that have an effect or were asked for, in trace order; x is the first one's
      reference. */
  function Plan(x: int, ins: seq<TraceIns>, fps: set<int>, junk: seq<map<int, int>>, used: seq<bool>): seq<Event>
    requires |junk| == |ins| == |used|
    decreases |ins|
  {
    if ins == [] then []
    else (if ins[0].effect || used[0] then Block(x, ins[0], fps, junk[0], used[0])
          else []) + Plan(x + 1, ins[1..], fps, junk[1..], used[1..])
  }

  /** An instruction that nobody asked for leaves nothing of its reference in play. */
  lemma SkipGood(v: View, x: int)
    requires Good(v, x + 1) && x in v.ir && !Used(v.ir[x])
    ensures Good(v, x)
  {
    forall r {:trigger r in v.free} | r in v.all && r !in v.free && r in v.cost
      ensures v.cost[r].ref < x
    {
      assert Owned(v, r);
    }
    forall l {:trigger l in v.need} | l in v.need ensures v.need[l] < x {
      assert NeedOk(v, l);
      if l.R? { assert Owned(v, l.r); }
    }
  }

  /** Registers or slots for the references that an exit restores, weak ones where registers are free. */
  method SnapRefs(ra: ASMState, snaps: seq<int>, d: int, ghost cur: int) returns (ok: bool)
    requires Good(ra.V(), cur) && (forall j {:trigger snaps[j]} :: 0 <= j < |snaps| ==>
                                   snaps[j] in ra.ir && snaps[j] < cur)
    requires forall q {:trigger R(q) in ra.pend} :: R(q) in ra.pend ==> q == d
    modifies ra
    ensures !ok ==> ra.evenspill > MAX_SPILL && Budget(old(ra.V())) > MAX_SPILL
    ensures ok ==>
      Good(ra.V(), cur) && ra.pend == old(ra.pend) && SameKinds(old(ra.V()), ra.V()) && Grows(old(ra.code), ra.code)
    ensures ok ==> AllUsed(ra.V(), snaps)
    ensures ok ==> (d in old(ra.freeset) ==> d in ra.freeset)
  {
    hide Good, Spares, Lives, SameKinds, Grows, AllUsed, Carries, Budget;
    ok := true;
    KindsSelf(ra.V());
    GrowsSelf(ra.code);
    NoneUsed(ra.V());
    for k := 0 to |snaps|
      invariant Good(ra.V(), cur) && ra.pend == old(ra.pend) && SameKinds(old(ra.V()), ra.V())
                && Grows(old(ra.code), ra.code)
      invariant AllUsed(ra.V(), snaps[..k])
      invariant d in old(ra.freeset) ==> d in ra.freeset
    {
      var y := snaps[k];
      ghost var v := ra.V();
      KindsIn(old(ra.V()), v, y);
      KindsCarry(old(ra.V()), v);
      CarriesSelf(v);
      if y > REF_BASE && !Used(ra.ir[y]) {
        var allow := Regs(ra.all, ra.ir[y].fp) - {d};
        ok := ra.SnapAlloc(y, allow, cur);
        if !ok { return; }
        SparesKinds(v, ra.V(), allow);
        KindsTwo(old(ra.V()), v, ra.V());
        KindsCarry(v, ra.V());
        GrowsTwo(old(ra.code), v.code, ra.code);
      }
      OneUsed(v, ra.V(), snaps[..k], y);
      assert snaps[..k + 1] == snaps[..k] + [y];
    }
    assert snaps[..|snaps|] == snaps;
  }

  /** The code of one instruction: destination, destroyed registers, operands. */
  method Instruction(ra: ASMState, x: int, i: TraceIns, junk: map<int, int>) returns (ok: bool)
    requires Good(ra.V(), x + 1) && ra.pend == map[] && x in ra.ir && InsOk(i, ra.ir, ra.all, x)
             && junk.Keys == i.clobbers
    modifies ra
    ensures !ok ==> ra.evenspill > MAX_SPILL && Budget(old(ra.V())) > MAX_SPILL
    ensures ok ==>
      Good(ra.V(), x) && ra.pend == map[] && SameKinds(old(ra.V()), ra.V()) && Extends(old(ra.code), ra.code)
    ensures ok ==> var u := Used(old(ra.ir)[x]);
                   && Events(ra.code) == (if i.effect || u then Block(x, i, FpRefs(ra.ir), junk, u)
                                          else []) + Events(old(ra.code))
                   && (i.effect || u ==> AllUsed(ra.V(), i.ops) && AllUsed(ra.V(), i.snaps))
  {
    hide Good, Spares, Extends, Grows, Lives, AllUsed, Carries, Budget, Block;
    ExtendsSelf(ra.code);
    KindsSelf(ra.V());
    ok := true;
    var d, u := -1, Used(ra.ir[x]);
    if u {
      SomeLeft(Regs(ra.all, ra.ir[x].fp), {});
      ok, d := ra.Dest(x, Regs(ra.all, ra.ir[x].fp));
      if !ok { return; }
      RegRange(ra.V(), d, x);
      GrowsIs(old(ra.code), ra.code);
    } else {
      SkipGood(ra.V(), x);
      if !i.effect { return; }
    }
    ghost var v0 := ra.V();
    KindsCarry(old(ra.V()), v0);
    OpsStill(i, old(ra.ir), ra.ir, x);
    ok := SnapRefs(ra, i.snaps, d, x);
    if !ok { return; }
    ghost var v1 := ra.V();
    KindsTwo(old(ra.V()), v0, v1);
    KindsCarry(old(ra.V()), v1);
    OpsStill(i, old(ra.ir), ra.ir, x);
    GrowsIs(v0.code, v1.code);
    ok := Body(ra, x, i, junk, d);
    if !ok { return; }
    KindsTwo(old(ra.V()), v1, ra.V());
    KindsCarry(v1, ra.V());
    UsedStill(v1, ra.V(), i.snaps);
    ExtendsTwo(v0.code, v1.code, ra.code);
    ExtendsTwo(old(ra.code), v0.code, ra.code);
  }

  lemma GrowsIs(code: seq<Instr>, code': seq<Instr>)
    requires Grows(code, code')
    ensures Extends(code, code') && Events(code') == Events(code)
  {
  }

  /** The code of an instruction once its result has a register, or none: what it destroys and what it reads. */
  method Body(ra: ASMState, x: int, i: TraceIns, junk: map<int, int>, d: int) returns (ok: bool)
    requires Good(ra.V(), x) && InsOk(i, ra.ir, ra.all, x) && junk.Keys == i.clobbers
    requires ra.pend == (if d >= 0 then map[R(d) := x] else map[]) && (d >= 0 ==> d in ra.freeset)
    requires d >= 0 ==> (Float(d) <==> x in FpRefs(ra.ir))
    modifies ra
    ensures !ok ==> ra.evenspill > MAX_SPILL && Budget(old(ra.V())) > MAX_SPILL
    ensures ok ==>
      Good(ra.V(), x) && ra.pend == map[] && SameKinds(old(ra.V()), ra.V()) && Extends(old(ra.code), ra.code)
    ensures ok ==>
      Events(ra.code) == Block(x, i, FpRefs(ra.ir), junk, d >= 0) + Events(old(ra.code)) && AllUsed(ra.V(), i.ops)
  {
    hide Good, Spares, Extends, Grows, Lives, AllUsed, Carries, Budget, Block, Events, SameKinds;
    ExtendsSelf(ra.code);
    KindsSelf(ra.V());
    ok := true;
    var dest := d;
    if i.clobbers != {} {
      ok := Destroy(ra, d, x, i.clobbers, junk);
      if !ok { return; }
      dest := -1;
    }
    ghost var v := ra.V();
    KindsCarry(old(ra.V()), v);
    OpsStill(i, old(ra.ir), ra.ir, x);
    ok := Reads(ra, x, i.ops, dest);
    if !ok { return; }
    KindsTwo(old(ra.V()), v, ra.V());
    KindsFp(old(ra.V()), ra.V());
    ExtendsTwo(old(ra.code), v.code, ra.code);
    BlockIs(x, i, FpRefs(ra.ir), junk, d);
  }

  lemma BlockIs(x: int, i: TraceIns, fps: set<int>, junk: map<int, int>, d: int)
    requires d >= 0 ==> (Float(d) <==> x in fps)
    ensures i.clobbers == {} ==> Block(x, i, fps, junk, d >= 0) == [Exec(x, Wanted(i.ops, fps), ResultOf(d))]
    ensures i.clobbers != {} ==>
      Block(x, i, fps, junk, d >= 0)
      == [Exec(x, Wanted(i.ops, fps), Nothing)] + [RegCode.Destroy(junk), Exec(x, [], ResultOf(d))]
  {
  }

  /** The instruction that reads ops, and their registers. */
  method Reads(ra: ASMState, x: int, ops: seq<int>, d: int) returns (ok: bool)
    requires Good(ra.V(), x) && (forall j {:trigger ops[j]} :: 0 <= j < |ops| ==> ops[j] in ra.ir && ops[j] < x)
    requires |ops| < |Regs(ra.all, false)| && |ops| < |Regs(ra.all, true)|
    requires ra.pend == (if d >= 0 then map[R(d) := x] else map[]) && (d >= 0 ==> d in ra.freeset)
    modifies ra
    ensures !ok ==> ra.evenspill > MAX_SPILL && Budget(old(ra.V())) > MAX_SPILL
    ensures ok ==>
      Good(ra.V(), x) && ra.pend == map[] && SameKinds(old(ra.V()), ra.V()) && Extends(old(ra.code), ra.code)
    ensures ok ==>
      Events(ra.code) == [Exec(x, Wanted(ops, FpRefs(ra.ir)), ResultOf(d))] + Events(old(ra.code))
      && AllUsed(ra.V(), ops)
  {
    hide Good, Spares, Extends, Grows, Lives, AllUsed, Carries, Budget, Refs, SameKinds;
    var uses;
    ok, uses := Operands(ra, ops, x);
    if !ok { return; }
    ghost var w := ra.V();
    GrowsIs(old(ra.code), w.code);
    ra.EmitOp(d, x, uses, x);
    AreWanted(uses, ops, FpRefs(ra.ir));
    EventsOne(Op(d, x, uses), w.code);
    ExtendsOne(Op(d, x, uses), w.code);
    ExtendsTwo(old(ra.code), w.code, ra.code);
    KindsCode(old(ra.V()), w, ra.V());
    CarriesFrame(w, ra.V());
    UsedStill(w, ra.V(), ops);
  }

  lemma AreWanted(uses: seq<Operand>, ops: seq<int>, fps: set<int>)
    requires |uses| == |ops|
    requires forall k {:trigger uses[k]} :: 0 <= k < |uses| ==>
      uses[k].ref == ops[k] && (Float(uses[k].r) <==> ops[k] in fps)
    ensures Refs(uses) == Wanted(ops, fps)
  {
  }

  lemma RegRange(v: View, r: int, cur: int)
    requires Good(v, cur) && r in v.all
    ensures 0 <= r < NREGS
  {
  }

  lemma OpsStill(i: TraceIns, ir: map<int, Ins>, ir': map<int, Ins>, x: int)
    requires ir.Keys == ir'.Keys && forall j {:trigger i.ops[j]} :: 0 <= j < |i.ops| ==> i.ops[j] in ir && i.ops[j] < x
    requires forall j {:trigger i.snaps[j]} :: 0 <= j < |i.snaps| ==> i.snaps[j] in ir && i.snaps[j] < x
    ensures forall j {:trigger i.ops[j]} :: 0 <= j < |i.ops| ==> i.ops[j] in ir' && i.ops[j] < x
    ensures forall j {:trigger i.snaps[j]} :: 0 <= j < |i.snaps| ==> i.snaps[j] in ir' && i.snaps[j] < x
  {
    forall j {:trigger i.snaps[j]} | 0 <= j < |i.snaps|
      ensures i.snaps[j] in ir' && i.snaps[j] < x
    {
      assert i.snaps[j] in ir.Keys;
    }
    forall j {:trigger i.ops[j]} | 0 <= j < |i.ops|
      ensures i.ops[j] in ir' && i.ops[j] < x
    {
      assert i.ops[j] in ir.Keys;
    }
  }

  lemma KindsCode(u: View, v: View, w: View)
    requires SameKinds(u, v) && w.ir == v.ir && w.all == v.all && w.even == v.even
    ensures SameKinds(u, w)
  {
    CarriesFrame(v, w);
    CarriesTwo(u, v, w);
  }

  /** A call: its result is written after it has destroyed its registers, whose values later code gets elsewhere. */
  method Destroy(ra: ASMState, d: int, x: int, clobbers: set<int>, junk: map<int, int>) returns (ok: bool)
    requires Good(ra.V(), x) && ra.pend == (if d >= 0 then map[R(d) := x] else map[]) && (d >= 0 ==> d in ra.freeset)
             && clobbers <= ra.all
    requires junk.Keys == clobbers
    modifies ra
    ensures !ok ==> ra.evenspill > MAX_SPILL && Budget(old(ra.V())) > MAX_SPILL
    ensures ok ==>
      Good(ra.V(), x) && ra.pend == map[] && SameKinds(old(ra.V()), ra.V()) && Extends(old(ra.code), ra.code)
    ensures ok ==> Events(ra.code) == [RegCode.Destroy(junk), Exec(x, [], ResultOf(d))] + Events(old(ra.code))
  {
    hide Good, Spares, Extends, Grows, Lives, Carries, Budget;
    ok := ra.EvictSet(clobbers, x);
    if !ok { return; }
    ghost var v := ra.V();
    SparesKinds(old(ra.V()), v, clobbers);
    GrowsIs(old(ra.code), v.code);
    EmitCall(ra, d, x, junk);
    ExtendsTwo(old(ra.code), v.code, ra.code);
    KindsCode(old(ra.V()), v, ra.V());
  }

  /** The call and, before it, what it does to other registers. */
  method EmitCall(ra: ASMState, d: int, x: int, junk: map<int, int>)
    requires Good(ra.V(), x) && ra.pend == (if d >= 0 then map[R(d) := x] else map[]) && junk.Keys <= ra.freeset
    modifies ra`code, ra`pend
    ensures Good(ra.V(), x) && ra.pend == map[] && Extends(old(ra.code), ra.code)
    ensures Events(ra.code) == [RegCode.Destroy(junk), Exec(x, [], ResultOf(d))] + Events(old(ra.code))
  {
    hide Good, Extends;
    ghost var code := ra.code;
    ra.EmitOp(d, x, [], x);
    ExtendsOne(Op(d, x, []), code);
    EventsOne(Op(d, x, []), code);
    ghost var more := ra.code;
    ra.EmitClobber(junk, x);
    ExtendsOne(Clobber(junk), more);
    EventsOne(Clobber(junk), more);
    ExtendsTwo(code, more, ra.code);
  }

  /** With the constants gone, only BASE can be needed at the head of a root trace. */
  lemma HeadNeeds(v: View)
    requires Good(v, REF_BASE + 1)
    requires forall r {:trigger r in v.free} :: r in v.all && r !in v.free && r in v.cost ==> !IsConst(v.cost[r].ref)
    ensures forall l {:trigger l in v.need} :: l in v.need ==> l.R? && v.need[l] == REF_BASE
  {
    forall l {:trigger l in v.need} | l in v.need ensures l.R? && v.need[l] == REF_BASE {
      assert NeedOk(v, l);
      assert l.S? ==> SlotOk(v, v.need[l]);
      assert l.R? ==> l.r !in v.free;
    }
  }

  lemma OkStill(ins: seq<TraceIns>, v: View, w: View)
    requires WellFormed(ins, v.ir, v.all) && SameKinds(v, w)
    ensures WellFormed(ins, w.ir, w.all)
  {
    forall k {:trigger InsAt(ins, w.ir, w.all, k)} | 0 <= k < |ins| ensures InsAt(ins, w.ir, w.all, k) {
      assert InsAt(ins, v.ir, v.all, k) && RefOf(k) in v.ir.Keys;
      OpsStill(ins[k], v.ir, w.ir, RefOf(k));
    }
  }

  /** Reference y of an instruction is in its place, or will be: used tells of the references from x on. */
  ghost predicate Asked(ir: map<int, Ins>, x: int, used: seq<bool>, y: int) {
    y > REF_BASE ==> if y >= x then y - x < |used| && used[y - x] else y in ir && Used(ir[y])
  }

  /** All that the instructions executed refer to has been asked for. */
  ghost predicate Supplied(ir: map<int, Ins>, ins: seq<TraceIns>, k: int, used: seq<bool>)
    requires 0 <= k <= |ins| && |used| == |ins| - k
  {
    forall n, y {:trigger Refers(ins, n, y)} ::
      k <= n < |ins| && (ins[n].effect || used[n - k]) && Refers(ins, n, y) ==> Asked(ir, RefOf(k), used, y)
  }

  ghost predicate Refers(ins: seq<TraceIns>, n: int, y: int) {
    0 <= n < |ins| && (y in ins[n].ops || y in ins[n].snaps)
  }

  lemma SuppliedMore(v: View, w: View, ins: seq<TraceIns>, k: int, used: seq<bool>)
    requires 0 <= k < |ins| && |used| == |ins| - k - 1 && Supplied(v.ir, ins, k + 1, used) && Carries(v, w)
             && RefOf(k) in v.ir
    requires ins[k].effect || Used(v.ir[RefOf(k)]) ==> AllUsed(w, ins[k].ops) && AllUsed(w, ins[k].snaps)
    requires forall y {:trigger Refers(ins, k, y)} :: Refers(ins, k, y) ==> y < RefOf(k)
    ensures Supplied(w.ir, ins, k, [Used(v.ir[RefOf(k)])] + used)
  {
    var more := [Used(v.ir[RefOf(k)])] + used;
    forall n, y {:trigger Refers(ins, n, y)} | k <= n < |ins| && (ins[n].effect || more[n - k]) && Refers(ins, n, y)
      ensures Asked(w.ir, RefOf(k), more, y)
    {
      if n > k {
        assert more[n - k] == used[n - k - 1];
        assert Asked(v.ir, RefOf(k + 1), used, y);
        assert StaysUsed(v, w, y);
      }
    }
  }

  lemma PlanMore(ins: seq<TraceIns>, fps: set<int>, junk: seq<map<int, int>>, k: int, u: bool, used: seq<bool>)
    requires 0 <= k < |ins| == |junk| && |used| == |ins| - k - 1
    ensures Plan(RefOf(k), ins[k..], fps, junk[k..], [u] + used)
            == (if ins[k].effect || u then Block(RefOf(k), ins[k], fps, junk[k], u)
                else []) + Plan(RefOf(k + 1), ins[k + 1..], fps, junk[k + 1..], used)
  {
    assert ins[k..][1..] == ins[k + 1..] && junk[k..][1..] == junk[k + 1..] && ([u] + used)[1..] == used;
  }

  /** The instructions from k on have been assembled, starting from v0. */
  ghost predicate Assembled(v0: View, v: View, ins: seq<TraceIns>, junk: seq<map<int, int>>, k: int, used: seq<bool>) {
    && 0 <= k <= |ins| == |junk| && |used| == |ins| - k && SameKinds(v0, v) && Extends(v0.code, v.code)
    && Events(v.code) == Plan(RefOf(k), ins[k..], FpRefs(v0.ir), junk[k..], used) + Events(v0.code)
    && Supplied(v.ir, ins, k, used)
    && forall j {:trigger used[j]} :: 0 <= j < |used| && RefOf(k + j) in v0.ir && Used(v0.ir[RefOf(k + j)]) ==> used[j]
  }

  lemma AssembledMore(v0: View, v: View, w: View, ins: seq<TraceIns>, junk: seq<map<int, int>>, k: int, used: seq<bool>)
    requires 0 <= k < |ins| && Assembled(v0, v, ins, junk, k + 1, used) && SameKinds(v, w) && Extends(v.code, w.code)
             && RefOf(k) in v.ir
    requires var u := Used(v.ir[RefOf(k)]);
             && Events(w.code) == (if ins[k].effect || u then Block(RefOf(k), ins[k], FpRefs(w.ir), junk[k], u)
                                   else []) + Events(v.code)
             && (ins[k].effect || u ==> AllUsed(w, ins[k].ops) && AllUsed(w, ins[k].snaps))
    requires forall y {:trigger Refers(ins, k, y)} :: Refers(ins, k, y) ==> y < RefOf(k)
    ensures Assembled(v0, w, ins, junk, k, [Used(v.ir[RefOf(k)])] + used)
  {
    hide SameKinds, Extends, Events, Plan, Block, Supplied, AllUsed, Used, Carries;
    var u, fps := Used(v.ir[RefOf(k)]), FpRefs(v0.ir);
    var b := if ins[k].effect || u then Block(RefOf(k), ins[k], fps, junk[k], u) else [];
    KindsTwo(v0, v, w);
    KindsFp(v0, w);
    KindsCarry(v, w);
    KindsCarry(v0, v);
    ExtendsTwo(v0.code, v.code, w.code);
    PlanMore(ins, fps, junk, k, u, used);
    InFront(b, Plan(RefOf(k + 1), ins[k + 1..], fps, junk[k + 1..], used), Events(v0.code));
    SuppliedMore(v, w, ins, k, used);
    UsedFirst(v0, v, RefOf(k));
    UsedMore(v0, k, u, used);
  }

  lemma InFront(a: seq<Event>, b: seq<Event>, c: seq<Event>)
    ensures a + (b + c) == (a + b) + c
  {
  }

  lemma UsedMore(v0: View, k: int, u: bool, used: seq<bool>)
    requires RefOf(k) in v0.ir && Used(v0.ir[RefOf(k)]) ==> u
    requires forall j {:trigger used[j]} ::
      0 <= j < |used| && RefOf(k + 1 + j) in v0.ir && Used(v0.ir[RefOf(k + 1 + j)]) ==> used[j]
    ensures var more := [u] + used;
            forall j {:trigger more[j]} :: 0 <= j < |more| && RefOf(k + j) in v0.ir && Used(v0.ir[RefOf(k + j)]) ==>
              more[j]
  {
    var more := [u] + used;
    forall j {:trigger more[j]} | 0 <= j < |more| && RefOf(k + j) in v0.ir && Used(v0.ir[RefOf(k + j)])
      ensures more[j]
    {
      if j > 0 { assert more[j] == used[j - 1] && RefOf(k + j) == RefOf(k + 1 + (j - 1)); }
    }
  }

  lemma RefersBelow(i: TraceIns, ir: map<int, Ins>, all: set<int>, ins: seq<TraceIns>, k: int)
    requires 0 <= k < |ins| && InsOk(ins[k], ir, all, RefOf(k))
    ensures forall y {:trigger Refers(ins, k, y)} :: Refers(ins, k, y) ==> y < RefOf(k)
  {
  }

  /**
   * Assembles a straight-line trace. As long as there are slots for all references, it succeeds. The code then runs,
   * in trace order, every instruction that has an effect or was asked for (by later code, by an instruction that runs
   * or by its exit), with the registers that it destroys; whatever the registers and the stack hold at first, as long
   * as BASE is where it is needed, every operand that the code reads has its right value.
   */
  method Assemble(ra: ASMState, ins: seq<TraceIns>, junk: seq<map<int, int>>) returns (ok: bool, ghost used: seq<bool>)
    requires WellFormed(ins, ra.ir, ra.all) && Good(ra.V(), RefOf(|ins|)) && ra.pend == map[]
    requires |junk| == |ins| && forall k {:trigger ins[k]} {:trigger junk[k]} :: 0 <= k < |ins| ==>
      junk[k].Keys == ins[k].clobbers
    modifies ra
    ensures !ok ==> ra.evenspill > 256 && Budget(old(ra.V())) > 256
    ensures ok ==>
      |used| == |ins| && Events(ra.code) == Plan(RefOf(0), ins, FpRefs(old(ra.ir)), junk, used) + Events(old(ra.code))
      && Extends(old(ra.code), ra.code)
    ensures ok ==> Supplied(old(ra.ir), ins, 0, used)
    ensures ok ==> forall k {:trigger used[k]} ::
      0 <= k < |ins| && RefOf(k) in old(ra.ir) && Used(old(ra.ir)[RefOf(k)]) ==> used[k]
    ensures ok ==> forall l {:trigger l in ra.need} :: l in ra.need ==> l.R? && ra.need[l] == REF_BASE
    ensures ok ==> forall m, val {:trigger Sat(ra.need, m, val)} :: Sat(ra.need, m, val) ==> Correct(ra.code, m, val)
  {
    hide Good, Extends, SameKinds, InsOk, Plan, Block, Supplied, Carries, Budget, Grows, Assembled, Events, AllUsed;
    ok, used := true, [];
    ghost var v0 := ra.V();
    StartsAssembled(v0, ins, junk);
    var k := |ins|;
    while k > 0
      invariant 0 <= k <= |ins| && Good(ra.V(), RefOf(k)) && ra.pend == map[] && WellFormed(ins, ra.ir, ra.all)
      invariant Assembled(v0, ra.V(), ins, junk, k, used)
    {
      k := k - 1;
      ghost var v := ra.V();
      assert InsAt(ins, ra.ir, ra.all, k);
      RefersBelow(ins[k], ra.ir, ra.all, ins, k);
      AssembledCarries(v0, v, ins, junk, k + 1, used);
      ok := Instruction(ra, RefOf(k), ins[k], junk[k]);
      if !ok { return; }
      OkStill(ins, v, ra.V());
      AssembledMore(v0, v, ra.V(), ins, junk, k, used);
      used := [Used(v.ir[RefOf(k)])] + used;
    }
    ghost var v := ra.V();
    ra.EvictK(REF_BASE + 1);
    GrowsIs(v.code, ra.code);
    AllAssembled(v0, v, ra.code, ins, junk, used);
    HeadNeeds(ra.V());
    GoodSafe(ra.V(), REF_BASE + 1);
    forall m, val {:trigger Sat(ra.need, m, val)} | Sat(ra.need, m, val) ensures Correct(ra.code, m, val) {
      var none: Need := map[];
      var n := Put(m, none, val);
      forall l {:trigger m(l)} {:trigger n(l)} ensures m(l) == n(l) { }
      CorrectSame(ra.code, n, m, val);
    }
  }

  lemma StartsAssembled(v: View, ins: seq<TraceIns>, junk: seq<map<int, int>>)
    requires |junk| == |ins|
    ensures Assembled(v, v, ins, junk, |ins|, [])
  {
    KindsSelf(v);
    ExtendsSelf(v.code);
  }

  lemma AssembledCarries(v0: View, v: View, ins: seq<TraceIns>, junk: seq<map<int, int>>, k: int, used: seq<bool>)
    requires Assembled(v0, v, ins, junk, k, used)
    ensures Budget(v) <= Budget(v0)
  {
    KindsCarry(v0, v);
  }

  lemma AllAssembled(v0: View, v: View, code: seq<Instr>, ins: seq<TraceIns>, junk: seq<map<int, int>>, used: seq<bool>)
    requires Assembled(v0, v, ins, junk, 0, used) && Extends(v.code, code) && Events(code) == Events(v.code)
    ensures |used| == |ins| && Events(code) == Plan(RefOf(0), ins, FpRefs(v0.ir), junk, used) + Events(v0.code)
            && Extends(v0.code, code)
    ensures Supplied(v0.ir, ins, 0, used)
    ensures forall k {:trigger used[k]} :: 0 <= k < |ins| && RefOf(k) in v0.ir && Used(v0.ir[RefOf(k)]) ==> used[k]
  {
    assert ins[0..] == ins && junk[0..] == junk;
    ExtendsTwo(v0.code, v.code, code);
    SuppliedAll(v.ir, v0.ir, ins, used);
  }

  /** What is used at first is used later. */
  lemma UsedFirst(v0: View, v: View, x: int)
    requires Carries(v0, v) && x > REF_BASE
    ensures x in v0.ir && Used(v0.ir[x]) ==> x in v.ir && Used(v.ir[x])
  {
    assert StaysUsed(v0, v, x);
  }

  /** No reference is below the first instruction's, so the map does not matter. */
  lemma SuppliedAll(ir: map<int, Ins>, ir0: map<int, Ins>, ins: seq<TraceIns>, used: seq<bool>)
    requires |used| == |ins| && Supplied(ir, ins, 0, used)
    ensures Supplied(ir0, ins, 0, used)
  {
    forall n, y {:trigger Refers(ins, n, y)} | 0 <= n < |ins| && (ins[n].effect || used[n]) && Refers(ins, n, y)
      ensures Asked(ir0, RefOf(0), used, y)
    {
      assert Asked(ir, RefOf(0), used, y);
    }
  }
}
