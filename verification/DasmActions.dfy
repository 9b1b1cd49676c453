/** The x86 action list and the items that a put reads from it. */
module DasmActions {

  /** A position is a section number and an index of 24 bits. */
  const BIAS := 0x1000000

  function Sec(pos: int): int { pos / BIAS }

  const DISP := 233
  const IMM_S := 234
  const IMM_B := 235
  const IMM_W := 236
  const IMM_D := 237
  const IMM_WB := 238
  const IMM_DB := 239
  const VREG := 240
  const SPACE := 241
  const SETLABEL := 242
  const REL_A := 243
  const REL_LG := 244
  const REL_PC := 245
  const IMM_LG := 246
  const IMM_PC := 247
  const LABEL_LG := 248
  const LABEL_PC := 249
  const ALIGN := 250
  const EXTERN := 251
  const ESC := 252
  const MARK := 253
  const SECTION := 254

  const JMP := 0xe9
  const JMP_SHORT := 0xeb
  const TWO_BYTE := 0x0f
  const JCC := 0x80
  const NOP := 0x90

  /** An action with its operand bytes; Start is the head of a put, Step a checked step. */
  datatype Act =
    | Byte(b: int) | Esc(b: int)
    | ImmS | ImmB | ImmW | ImmD | ImmWB | ImmDB | Space(fill: int) | RelA
    | RelLg(n: int) | RelPc | ImmLg(n: int) | ImmPc
    | LabelLg(n: int) | LabelPc | Align(mask: int)
    | Section(n: int) | Stop
    | Start | Step
  {
    predicate Plain() { Byte? || Esc? }
    predicate Value() { ImmS? || ImmB? || ImmW? || ImmD? || ImmWB? || ImmDB? || Space? || RelA? || Start? }
    predicate Rel() { RelLg? || RelPc? }
    predicate Addr() { ImmLg? || ImmPc? }
    predicate Ref() { Rel() || Addr() }
    predicate Def() { LabelLg? || LabelPc? }
    predicate Last() { Section? || Stop? }
    predicate TakesArg() { (Value() && !Start?) || RelPc? || ImmPc? || LabelPc? }
  }

  predicate Wide(code: int) {
    code in {SPACE, REL_LG, IMM_LG, LABEL_LG, ALIGN, ESC, SECTION}
  }

  predicate Mask(m: int) {
    m == 0 || m == 1 || m == 3 || m == 7 || m == 15 || m == 31 || m == 63 || m == 127 || m == 255
  }

  /** A complete action of the modelled kinds stands at p. */
  predicate Known(al: seq<int>, p: int) {
    && 0 <= p < |al| && 0 <= al[p] <= 255 && al[p] !in {DISP, VREG, SETLABEL, EXTERN, MARK}
    && (Wide(al[p]) ==> p + 1 < |al| && 0 <= al[p + 1] <= 255 && (al[p] == ALIGN ==> Mask(al[p + 1])))
  }

  function Fetch(al: seq<int>, p: int): Act
    requires Known(al, p)
  {
    var code := al[p];
    if code < DISP then Byte(code)
    else if code == IMM_S then ImmS
    else if code == IMM_B then ImmB
    else if code == IMM_W then ImmW
    else if code == IMM_D then ImmD
    else if code == IMM_WB then ImmWB
    else if code == IMM_DB then ImmDB
    else if code == SPACE then Space(al[p + 1])
    else if code == REL_A then RelA
    else if code == REL_LG then RelLg(al[p + 1])
    else if code == REL_PC then RelPc
    else if code == IMM_LG then ImmLg(al[p + 1])
    else if code == IMM_PC then ImmPc
    else if code == LABEL_LG then LabelLg(al[p + 1])
    else if code == LABEL_PC then LabelPc
    else if code == ALIGN then Align(al[p + 1])
    else if code == ESC then Esc(al[p + 1])
    else if code == SECTION then Section(al[p + 1])
    else Stop
  }

  function Width(al: seq<int>, p: int): int
    requires Known(al, p)
  {
    if Wide(al[p]) then 2 else 1
  }

  /** Where an item stands: in the action list, the section buffer and the section's code. */
  datatype Cursor = Cursor(p: int, pos: int, est: int, op: int, lead: seq<int>)

  /** One action with its argument. lead holds the plain bytes directly before it, op the last plain byte of its put. */
  datatype Item = Item(c: Cursor, act: Act, arg: int)

  predicate Small(n: int) { -128 <= n <= 127 }

  /** The most code bytes an action can take. */
  function MaxOf(act: Act, arg: int): int {
    match act
    case Byte(_) | Esc(_) | ImmS | ImmB => 1
    case ImmW => 2
    case ImmWB => if Small(arg) then 1 else 2
    case ImmDB => if Small(arg) then 1 else 4
    case ImmD | RelA | RelLg(_) | RelPc => 4
    case ImmLg(_) | ImmPc => 8
    case Space(_) => arg
    case Align(mask) => mask
    case _ => 0
  }

  function Max(it: Item): int { MaxOf(it.act, it.arg) }

  function Cells(act: Act): int {
    if act.Rel() then 2 else if act.Plain() || act.Last() || act.Step? then 0 else 1
  }

  /** The item after this one; after the last item of a put the cursor waits for a new start. */
  function After(al: seq<int>, it: Item): Cursor
  {
    Cursor(if it.act.Start? then it.arg else if it.act.Last() || !Known(al, it.c.p) then -1
           else it.c.p + Width(al, it.c.p),
           it.c.pos + Cells(it.act), it.c.est + Max(it),
           if it.act.Plain() then it.act.b else if it.act.Last() then 0 else it.c.op,
           if it.act.Plain() then it.c.lead + [it.act.b] else [])
  }

  /** How many bytes a short form of the branch with this opcode saves. */
  function Saves(op: int): int {
    if op == JMP then 3 else if JCC <= op < JCC + 16 then 4 else 0
  }

  predicate Tail(lead: seq<int>, t: seq<int>) {
    |t| <= |lead| && lead[|lead| - |t|..] == t
  }

  /** What the preprocessor sees to: branch opcodes stand directly before their operand, space is not negative. */
  predicate Proper(it: Item) {
    && (it.act.Rel() && it.c.op == JMP ==> Tail(it.c.lead, [JMP]))
    && (it.act.Rel() && Saves(it.c.op) == 4 ==> Tail(it.c.lead, [TWO_BYTE, it.c.op]))
    && ((it.act.ImmDB? || it.act.ImmWB?) && Small(it.arg) ==> |it.c.lead| >= 2)
    && (it.act.Space? || it.act.Start? ==> it.arg >= 0)
    && (it.act.Plain() ==> 0 <= it.act.b <= 255)
  }

  /** The item is what the action list has at its cursor. */
  predicate Genuine(al: seq<int>, it: Item) {
    && Proper(it) && !it.act.Step?
    && (it.act.Start? <==> it.c.p == -1)
    && (!it.act.Start? ==> Known(al, it.c.p) && it.act == Fetch(al, it.c.p))
  }

  function Next(al: seq<int>, c: Cursor, args: seq<int>): Item
    requires Known(al, c.p)
  {
    var act := Fetch(al, c.p);
    Item(c, act, if act.TakesArg() && |args| > 0 then args[0] else 0)
  }

  function Rest(act: Act, args: seq<int>): seq<int> {
    if act.TakesArg() && |args| > 0 then args[1..] else args
  }

  /** From c the action list holds proper actions up to a last one, with an argument for each that takes one. */
  predicate Sound(al: seq<int>, c: Cursor, args: seq<int>, limit: int)
    decreases |al| - c.p
  {
    && Known(al, c.p)
    && var it := Next(al, c, args);
    && Proper(it) && (it.act.TakesArg() ==> |args| > 0) && After(al, it).pos <= limit
    && (it.act.Last() || Sound(al, After(al, it), Rest(it.act, args), limit))
  }

  /** The items of a put from c on. */
  ghost function Chunk(al: seq<int>, c: Cursor, args: seq<int>, limit: int): (r: seq<Item>)
    requires Sound(al, c, args, limit)
    ensures |r| > 0 && r[0].c == c && r[|r| - 1].act.Last()
    decreases |al| - c.p
  {
    var it := Next(al, c, args);
    if it.act.Last() then [it] else [it] + Chunk(al, After(al, it), Rest(it.act, args), limit)
  }

  function Head(pos: int, est: int, start: int): Item {
    Item(Cursor(-1, pos, est, 0, []), Start, start)
  }

  // Lists of items.

  ghost predicate Follows(al: seq<int>, list: seq<Item>, k: int)
    requires 0 < k < |list|
  {
    list[k].c == After(al, list[k - 1])
  }

  function Begin(s: int): Cursor { Cursor(-1, s * BIAS, 0, 0, []) }

  /** The items of a section follow one another. */
  ghost predicate Traced(al: seq<int>, list: seq<Item>, s: int) {
    && (list != [] ==> list[0].c == Begin(s))
    && (forall k {:trigger Follows(al, list, k)} :: 0 < k < |list| ==> Follows(al, list, k))
    && (forall k {:trigger list[k]} :: 0 <= k < |list| ==> Genuine(al, list[k]))
  }

  function End(al: seq<int>, list: seq<Item>, s: int): Cursor {
    if list == [] then Begin(s) else After(al, list[|list| - 1])
  }

  lemma TracedMore(al: seq<int>, list: seq<Item>, s: int, it: Item)
    requires Traced(al, list, s) && it.c == End(al, list, s) && Genuine(al, it)
    ensures Traced(al, list + [it], s)
  {
    hide After, Genuine;
    var more := list + [it];
    forall k {:trigger Follows(al, more, k)} | 0 < k < |more| ensures Follows(al, more, k) {
      assert k < |list| ==> Follows(al, list, k);
    }
  }

  /** Later items of a section stand behind the cells of earlier ones. */
  lemma {:induction false} TracedOrder(al: seq<int>, list: seq<Item>, s: int, j: int, k: int)
    requires Traced(al, list, s) && 0 <= j < k < |list|
    ensures list[j].c.pos + Cells(list[j].act) <= list[k].c.pos
    ensures list[j].c.est + Max(list[j]) <= list[k].c.est
    decreases k
  {
    assert Follows(al, list, k);
    if j < k - 1 { TracedOrder(al, list, s, j, k - 1); MaxNat(list[k - 1]); }
  }

  lemma MaxNat(it: Item)
    requires Proper(it) && (it.act.Align? ==> it.act.mask >= 0)
    ensures Max(it) >= 0
  {
  }

  lemma GenuineMax(al: seq<int>, it: Item)
    requires Genuine(al, it)
    ensures Max(it) >= 0 && (it.act.Align? ==> Mask(it.act.mask))
  {
  }

  lemma {:induction false} TracedStart(al: seq<int>, list: seq<Item>, s: int, k: int)
    requires Traced(al, list, s) && 0 <= k < |list|
    ensures s * BIAS <= list[k].c.pos && 0 <= list[k].c.est && (!list[k].act.Start? ==> s * BIAS < list[k].c.pos)
    ensures list[k].c.pos + Cells(list[k].act) <= End(al, list, s).pos
            && list[k].c.est + Max(list[k]) <= End(al, list, s).est
  {
    if k > 0 {
      TracedOrder(al, list, s, 0, k);
      GenuineMax(al, list[0]);
    }
    if k < |list| - 1 {
      TracedOrder(al, list, s, k, |list| - 1);
      GenuineMax(al, list[|list| - 1]);
    }
  }
}
