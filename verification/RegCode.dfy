/** The code that the trace assembler emits backwards, as far as registers and spill slots go. */
module RegCode {

  /** A register, or a stack unit of 32 bits in the frame of the trace. */
  datatype Loc = R(r: int) | S(a: int)

  /** Register r is read as the value of ref. */
  datatype Operand = Operand(r: int, ref: int)

  /** Op stands for the code of one IR instruction: it reads its operands and may write the value of ref to dst.
      Clobber is what a call does to other registers. */
  datatype Instr =
    | Move(dst: int, src: int)
    | Const(dst: int, ref: int)
    | Load(dst: int, a: int, wide: bool)
    | Store(a: int, wide: bool, src: int)
    | Op(dst: int, ref: int, uses: seq<Operand>)
    | Clobber(junk: map<int, int>)

  type Machine = Loc -> int

  /** The value of each IR reference. */
  type Values = int -> int

  function Units(a: int, wide: bool): set<Loc> {
    if wide then {S(a), S(a + 1)} else {S(a)}
  }

  /** A slot of two units holds a value only where both halves are of the same one. */
  function Read(m: Machine, a: int, wide: bool): int {
    if wide && m(S(a + 1)) != m(S(a)) then 0 else m(S(a))
  }

  function Step(i: Instr, m: Machine, val: Values): Machine {
    match i
    case Move(d, s) => (l: Loc) => if l == R(d) then m(R(s)) else m(l)
    case Const(d, ref) => (l: Loc) => if l == R(d) then val(ref) else m(l)
    case Load(d, a, wide) => (l: Loc) => if l == R(d) then Read(m, a, wide) else m(l)
    case Store(a, wide, s) => (l: Loc) => if l in Units(a, wide) then m(R(s)) else m(l)
    case Op(d, ref, _) => (l: Loc) => if l == R(d) && d >= 0 then val(ref) else m(l)
    case Clobber(junk) => (l: Loc) => if l.R? && l.r in junk then junk[l.r] else m(l)
  }

  /** Every operand is read from a register that holds it. */
  predicate Right(i: Instr, m: Machine, val: Values) {
    i.Op? ==> forall k :: 0 <= k < |i.uses| ==> m(R(i.uses[k].r)) == val(i.uses[k].ref)
  }

  /** Run from m, the code always reads the values that it should. */
  predicate Correct(code: seq<Instr>, m: Machine, val: Values)
    decreases |code|
  {
    code == [] || (Right(code[0], m, val) && Correct(code[1..], Step(code[0], m, val), val))
  }

  lemma StepSame(i: Instr, m: Machine, n: Machine, val: Values, l: Loc)
    requires forall l {:trigger m(l)} {:trigger n(l)} :: m(l) == n(l)
    ensures Step(i, m, val)(l) == Step(i, n, val)(l)
  {
    match i
    case Move(d, s) => assert m(R(s)) == n(R(s)) && m(l) == n(l);
    case Const(d, ref) => assert m(l) == n(l);
    case Load(d, a, wide) => assert m(S(a)) == n(S(a)) && m(S(a + 1)) == n(S(a + 1)) && m(l) == n(l);
    case Store(a, wide, s) => assert m(R(s)) == n(R(s)) && m(l) == n(l);
    case Op(d, ref, _) => assert m(l) == n(l);
    case Clobber(junk) => assert m(l) == n(l);
  }

  lemma RightSame(i: Instr, m: Machine, n: Machine, val: Values)
    requires Right(i, m, val) && forall l {:trigger m(l)} {:trigger n(l)} :: m(l) == n(l)
    ensures Right(i, n, val)
  {
    if i.Op? {
      forall k | 0 <= k < |i.uses|
        ensures n(R(i.uses[k].r)) == val(i.uses[k].ref)
      {
        assert m(R(i.uses[k].r)) == n(R(i.uses[k].r));
      }
    }
  }

  lemma {:induction false} CorrectSame(code: seq<Instr>, m: Machine, n: Machine, val: Values)
    requires Correct(code, m, val) && forall l {:trigger m(l)} {:trigger n(l)} :: m(l) == n(l)
    ensures Correct(code, n, val)
    decreases |code|
  {
    if code != [] {
      var m', n' := Step(code[0], m, val), Step(code[0], n, val);
      RightSame(code[0], m, n, val);
      forall l {:trigger m'(l)} {:trigger n'(l)} ensures m'(l) == n'(l) { StepSame(code[0], m, n, val, l); }
      CorrectSame(code[1..], m', n', val);
    }
  }

  // What code does besides moving values about.

  /** An instruction that reads its operands and may write its result, or the destruction of registers. */
  datatype Event = Exec(ref: int, ops: seq<Reading>, result: Result) | Destroy(junk: map<int, int>)

  /** A reference that is read from a register, and whether that is one for floating point. */
  datatype Reading = Reading(ref: int, fp: bool)

  datatype Result = Nothing | Into(fp: bool)

  predicate Float(r: int) { r >= 16 }

  function Refs(uses: seq<Operand>): (ops: seq<Reading>)
    ensures |ops| == |uses|
    ensures forall k {:trigger ops[k]} :: 0 <= k < |ops| ==> ops[k] == Reading(uses[k].ref, Float(uses[k].r))
  {
    if uses == [] then [] else [Reading(uses[0].ref, Float(uses[0].r))] + Refs(uses[1..])
  }

  function ResultOf(d: int): Result {
    if d >= 0 then Into(Float(d)) else Nothing
  }

  /** The events of the code, in the order in which it runs. */
  function Events(code: seq<Instr>): seq<Event> {
    if code == [] then []
    else
      match code[0]
      case Op(d, ref, uses) => [Exec(ref, Refs(uses), ResultOf(d))] + Events(code[1..])
      case Clobber(junk) => [Destroy(junk)] + Events(code[1..])
      case _ => Events(code[1..])
  }

  lemma EventsOne(i: Instr, code: seq<Instr>)
    ensures Events([i] + code) == (match i
                                   case Op(d, ref, uses) => [Exec(ref, Refs(uses), ResultOf(d))]
                                   case Clobber(junk) => [Destroy(junk)]
                                   case _ => []) + Events(code)
  {
    assert ([i] + code)[1..] == code;
  }

  /** Code is only ever added in front. */
  ghost predicate Extends(code: seq<Instr>, code': seq<Instr>) {
    |code| <= |code'| && code'[|code'| - |code|..] == code
  }

  lemma ExtendsSelf(code: seq<Instr>)
    ensures Extends(code, code)
  {
  }

  lemma ExtendsOne(i: Instr, code: seq<Instr>)
    ensures Extends(code, [i] + code)
  {
  }

  lemma ExtendsTwo(a: seq<Instr>, b: seq<Instr>, c: seq<Instr>)
    requires Extends(a, b) && Extends(b, c)
    ensures Extends(a, c)
  {
    assert c[|c| - |a|..] == c[|c| - |b|..][|b| - |a|..];
  }

  /** Values are moved about in front of the code. */
  ghost predicate Grows(code: seq<Instr>, code': seq<Instr>) {
    Extends(code, code') && Events(code') == Events(code)
  }

  lemma GrowsSelf(code: seq<Instr>)
    ensures Grows(code, code)
  {
    ExtendsSelf(code);
  }

  lemma GrowsOne(i: Instr, code: seq<Instr>)
    requires !i.Op? && !i.Clobber?
    ensures Grows(code, [i] + code)
  {
    ExtendsOne(i, code);
    EventsOne(i, code);
  }

  lemma GrowsTwo(a: seq<Instr>, b: seq<Instr>, c: seq<Instr>)
    requires Grows(a, b) && Grows(b, c)
    ensures Grows(a, c)
  {
    ExtendsTwo(a, b, c);
  }

  // What must hold before the code.

  type Need = map<Loc, int>

  ghost predicate Sat(need: Need, m: Machine, val: Values) {
    forall l {:trigger l in need} :: l in need ==> m(l) == val(need[l])
  }

  function Put(m: Machine, pend: Need, val: Values): Machine {
    (l: Loc) => if l in pend then val(pend[l]) else m(l)
  }

  /** The code is correct wherever need holds, once the instruction still to come has written pend. */
  ghost predicate Safe(need: Need, pend: Need, code: seq<Instr>) {
    forall m, val {:trigger Sat(need, m, val)} :: Sat(need, m, val) ==> Correct(code, Put(m, pend, val), val)
  }

  /** Asking for more. */
  lemma SafeMore(need: Need, more: Need, pend: Need, code: seq<Instr>)
    requires Safe(need, pend, code) && forall l {:trigger l in need} :: l in need ==> l in more && more[l] == need[l]
    ensures Safe(more, pend, code)
  {
    forall m, val {:trigger Sat(more, m, val)} | Sat(more, m, val) ensures Correct(code, Put(m, pend, val), val) {
      assert Sat(need, m, val);
    }
  }

  predicate Avoids(i: Instr, pend: Need) {
    match i
    case Move(d, s) => R(d) !in pend && R(s) !in pend
    case Const(d, _) => R(d) !in pend
    case Load(d, a, _) => R(d) !in pend && S(a) !in pend && S(a + 1) !in pend
    case Store(a, _, s) => R(s) !in pend && S(a) !in pend && S(a + 1) !in pend
    case Op(_, _, _) => false
    case Clobber(junk) => forall r {:trigger r in junk} :: r in junk ==> R(r) !in pend
  }

  /** need holds after i wherever need' holds before it. */
  ghost predicate Leads(i: Instr, need': Need, need: Need) {
    forall m, val {:trigger Sat(need', m, val)} :: Sat(need', m, val) ==> Sat(need, Step(i, m, val), val)
  }

  lemma SafeStep(i: Instr, need': Need, need: Need, pend: Need, code: seq<Instr>)
    requires Safe(need, pend, code) && Leads(i, need', need) && Avoids(i, pend)
    ensures Safe(need', pend, [i] + code)
  {
    assert !i.Op?;
    hide Step, Put, Avoids;
    forall m, val {:trigger Sat(need', m, val)} | Sat(need', m, val)
      ensures Correct([i] + code, Put(m, pend, val), val)
    {
      var n, n' := Put(Step(i, m, val), pend, val), Step(i, Put(m, pend, val), val);
      assert Sat(need, Step(i, m, val), val);
      forall l {:trigger n(l)} {:trigger n'(l)} ensures n(l) == n'(l) { PutStep(i, m, pend, val, l); }
      CorrectSame(code, n, n', val);
      assert ([i] + code)[1..] == code;
    }
  }

  lemma PutStep(i: Instr, m: Machine, pend: Need, val: Values, l: Loc)
    requires Avoids(i, pend)
    ensures Put(Step(i, m, val), pend, val)(l) == Step(i, Put(m, pend, val), val)(l)
  {
  }

  ghost predicate Agrees(need: Need, l: Loc, ref: int) {
    l in need ==> need[l] == ref
  }

  function NeedMove(need: Need, d: int, s: int, ref: int): Need { (need - {R(d)})[R(s) := ref] }

  function NeedConst(need: Need, d: int): Need { need - {R(d)} }

  function NeedLoad(need: Need, d: int, a: int, wide: bool, ref: int): Need {
    (need - {R(d)}) + map l | l in Units(a, wide) :: ref
  }

  function NeedStore(need: Need, a: int, wide: bool, s: int, ref: int): Need { (need - Units(a, wide))[R(s) := ref] }

  lemma MoveLeads(need: Need, d: int, s: int, ref: int)
    requires Agrees(need, R(d), ref) && (d == s || Agrees(need, R(s), ref))
    ensures Leads(Move(d, s), NeedMove(need, d, s, ref), need)
  {
    var need' := NeedMove(need, d, s, ref);
    forall m, val {:trigger Sat(need', m, val)} | Sat(need', m, val) ensures Sat(need, Step(Move(d, s), m, val), val) {
      forall l {:trigger l in need} | l in need ensures Step(Move(d, s), m, val)(l) == val(need[l]) {
        assert R(s) in need' && (l != R(d) ==> l in need');
      }
    }
  }

  lemma ConstLeads(need: Need, d: int, ref: int)
    requires Agrees(need, R(d), ref)
    ensures Leads(Const(d, ref), NeedConst(need, d), need)
  {
    var need' := NeedConst(need, d);
    forall m, val {:trigger Sat(need', m, val)} | Sat(need', m, val)
      ensures Sat(need, Step(Const(d, ref), m, val), val)
    {
      forall l {:trigger l in need} | l in need ensures Step(Const(d, ref), m, val)(l) == val(need[l]) {
        assert l != R(d) ==> l in need';
      }
    }
  }

  lemma LoadLeads(need: Need, d: int, a: int, wide: bool, ref: int)
    requires Agrees(need, R(d), ref) && Agrees(need, S(a), ref) && (wide ==> Agrees(need, S(a + 1), ref))
    ensures Leads(Load(d, a, wide), NeedLoad(need, d, a, wide, ref), need)
  {
    var need' := NeedLoad(need, d, a, wide, ref);
    forall m, val {:trigger Sat(need', m, val)} | Sat(need', m, val)
      ensures Sat(need, Step(Load(d, a, wide), m, val), val)
    {
      assert S(a) in need' && (wide ==> S(a + 1) in need');
      forall l {:trigger l in need} | l in need ensures Step(Load(d, a, wide), m, val)(l) == val(need[l]) {
        assert l != R(d) ==> l in need';
      }
    }
  }

  lemma StoreLeads(need: Need, a: int, wide: bool, s: int, ref: int)
    requires Agrees(need, R(s), ref) && Agrees(need, S(a), ref) && (wide ==> Agrees(need, S(a + 1), ref))
    ensures Leads(Store(a, wide, s), NeedStore(need, a, wide, s, ref), need)
  {
    var need' := NeedStore(need, a, wide, s, ref);
    forall m, val {:trigger Sat(need', m, val)} | Sat(need', m, val)
      ensures Sat(need, Step(Store(a, wide, s), m, val), val)
    {
      assert R(s) in need';
      forall l {:trigger l in need} | l in need ensures Step(Store(a, wide, s), m, val)(l) == val(need[l]) {
        assert l !in Units(a, wide) ==> l in need';
      }
    }
  }

  lemma ClobberLeads(need: Need, junk: map<int, int>)
    requires forall r {:trigger r in junk} :: r in junk ==> R(r) !in need
    ensures Leads(Clobber(junk), need, need)
  {
    forall m, val {:trigger Sat(need, m, val)} | Sat(need, m, val) ensures Sat(need, Step(Clobber(junk), m, val), val) {
      forall l {:trigger l in need} | l in need ensures Step(Clobber(junk), m, val)(l) == val(need[l]) { }
    }
  }

  /** An instruction to come will write ref to d. */
  lemma Expects(need: Need, d: int, ref: int, code: seq<Instr>)
    requires Safe(need, map[], code) && Agrees(need, R(d), ref)
    ensures Safe(need - {R(d)}, map[R(d) := ref], code)
  {
    var need', pend: Need := need - {R(d)}, map[R(d) := ref];
    forall m, val {:trigger Sat(need', m, val)} | Sat(need', m, val) ensures Correct(code, Put(m, pend, val), val) {
      var n := Put(m, pend, val);
      forall l {:trigger l in need} | l in need ensures n(l) == val(need[l]) { assert l != R(d) ==> l in need'; }
      assert Sat(need, n, val);
      var none: Need := map[];
      forall l {:trigger n(l)} {:trigger Put(n, none, val)(l)} ensures Put(n, none, val)(l) == n(l) { }
      CorrectSame(code, Put(n, none, val), n, val);
    }
  }

  /** The instruction: reads its operands, writes what was expected of it. */
  lemma OpSafe(need: Need, d: int, ref: int, uses: seq<Operand>, code: seq<Instr>)
    requires Safe(need, if d >= 0 then map[R(d) := ref] else map[], code)
    requires forall k :: 0 <= k < |uses| ==> R(uses[k].r) in need && need[R(uses[k].r)] == uses[k].ref
    ensures Safe(need, map[], [Op(d, ref, uses)] + code)
  {
    var i, pend, none: Need := Op(d, ref, uses), if d >= 0 then map[R(d) := ref] else map[], map[];
    forall m, val {:trigger Sat(need, m, val)} | Sat(need, m, val) ensures Correct([i] + code, Put(m, none, val), val) {
      var n, n' := Put(m, pend, val), Step(i, Put(m, none, val), val);
      forall l {:trigger n(l)} {:trigger n'(l)} ensures n(l) == n'(l) { }
      CorrectSame(code, n, n', val);
      assert ([i] + code)[1..] == code;
    }
  }

  lemma SafeEnd()
    ensures Safe(map[], map[], [])
  {
  }
}
