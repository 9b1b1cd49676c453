/** The machine code that pass 3 writes, and what its branches mean. */
module DasmCode {
  import opened DasmActions
  import opened DasmLayout

  // Little-endian numbers.

  function LE(n: int, width: nat): (r: seq<int>)
    ensures |r| == width && forall k :: 0 <= k < width ==> 0 <= r[k] < 256
    decreases width
  {
    if width == 0 then [] else [n % 256] + LE(n / 256, width - 1)
  }

  function Value(b: seq<int>): int {
    if b == [] then 0 else b[0] + 256 * Value(b[1..])
  }

  function Power(width: nat): int {
    if width == 0 then 1 else 256 * Power(width - 1)
  }

  /** Reading back gives the number modulo the width. */
  lemma {:induction false} ValueLE(n: int, width: nat) returns (q: int)
    ensures n == Value(LE(n, width)) + q * Power(width)
    ensures 0 <= Value(LE(n, width)) < Power(width)
    decreases width
  {
    if width == 0 {
      q := n;
    } else {
      q := ValueLE(n / 256, width - 1);
      assert LE(n, width)[1..] == LE(n / 256, width - 1);
      Scale(q, Power(width - 1));
    }
  }

  lemma Scale(q: int, m: int)
    ensures 256 * (q * m) == q * (256 * m)
  {
  }

  function Signed(x: int, range: int): int { if 2 * x >= range then x - range else x }

  lemma OnlyOne(x: int, q: int, m: int)
    requires 0 <= x < m && -m <= 2 * (x + q * m) < m
    ensures Signed(x, m) == x + q * m
  {
    assert q >= 1 ==> q * m >= m;
    assert q <= -2 ==> q * m <= -2 * m;
  }

  lemma SignedLE(n: int, width: nat)
    requires -Power(width) <= 2 * n < Power(width)
    ensures Signed(Value(LE(n, width)), Power(width)) == n
  {
    var q := ValueLE(n, width);
    OnlyOne(Value(LE(n, width)), q, Power(width));
  }

  lemma UnsignedLE(n: int, width: nat)
    requires 0 <= n < Power(width)
    ensures Value(LE(n, width)) == n
  {
    var q := ValueLE(n, width);
    var m := Power(width);
    assert q >= 1 ==> q * m >= m;
    assert q <= -1 ==> q * m <= -m;
  }

  // The code of one item.

  /** How many plain bytes before an item belong to its instruction and are rewritten with it. */
  function Back(it: Item): int {
    if it.act.Rel() then (if Saves(it.c.op) == 4 then 2 else if Saves(it.c.op) == 3 then 1 else 0)
    else if (it.act.ImmDB? || it.act.ImmWB?) && Small(it.arg) then 2
    else 0
  }

  function Copies(n: int, b: int): (r: seq<int>)
    ensures |r| == if n > 0 then n else 0
    ensures forall k :: 0 <= k < |r| ==> r[k] == b
  {
    if n <= 0 then [] else Copies(n - 1, b) + [b]
  }

  /** A branch with its opcode and its displacement from the end of the instruction. */
  function Branch(op: int, d: int, disp: int): seq<int> {
    if op == JMP then (if d > 0 then [JMP_SHORT, disp % 256] else [JMP] + LE(disp, 4))
    else if Saves(op) == 4 then (if d > 0 then [op - 0x10, disp % 256] else [TWO_BYTE, op] + LE(disp, 4))
    else LE(disp, 4)
  }

  /** The arithmetic opcode two bytes back takes its short immediate form. */
  function ShortImm(lead: seq<int>, n: int): seq<int> {
    if |lead| < 2 then [] else [(lead[|lead| - 2] + 2) % 256, lead[|lead| - 1], n % 256]
  }

  /** The bytes of an item at offset at; to is the offset that it refers to, base the address of the code. */
  function Code(it: Item, d: int, at: int, to: int, base: int): seq<int> {
    match it.act
    case Byte(b) => [b]
    case Esc(b) => [b]
    case ImmS | ImmB => [it.arg % 256]
    case ImmW => LE(it.arg, 2)
    case ImmD => LE(it.arg, 4)
    case ImmWB => if Small(it.arg) then ShortImm(it.c.lead, it.arg) else LE(it.arg, 2)
    case ImmDB => if Small(it.arg) then ShortImm(it.c.lead, it.arg) else LE(it.arg, 4)
    case RelA => LE(it.arg - (base + at + 4), 4)
    case RelLg(_) | RelPc => Branch(it.c.op, d, to - (at + 4 - d))
    case ImmLg(_) | ImmPc => LE(base + to, 8)
    case Space(fill) => Copies(it.arg, fill)
    case Align(mask) => if mask >= 0 then Copies(Pad(at, mask), NOP) else []
    case _ => []
  }

  lemma BranchSize(op: int, d: int, disp: int)
    requires d == 0 || d == Saves(op)
    ensures |Branch(op, d, disp)| == 4 - d + if Saves(op) == 4 then 2 else if Saves(op) == 3 then 1 else 0
  {
    hide LE;
  }

  lemma CodeSize(al: seq<int>, it: Item, d: int, at: int, to: int, base: int)
    requires Genuine(al, it) && (d == 0 || (it.act.Rel() && d == Saves(it.c.op)))
    ensures |Code(it, d, at, to, base)| == Back(it) + Size(it, d, at) && 0 <= Back(it) <= |it.c.lead|
  {
    hide Pad, Copies, LE, Known, Fetch, Branch;
    if it.act.Rel() { BranchSize(it.c.op, d, to - (at + 4 - d)); }
    if it.act.Align? { GenuineMax(al, it); PadRange(at, it.act.mask); }
  }

  // What is written.

  ghost predicate Fitting(items: seq<Item>, d: seq<int>, at: seq<int>) {
    |d| == |items| && Laid(items, d, at)
  }

  ghost predicate Stands(items: seq<Item>, d: seq<int>, at: seq<int>, to: seq<int>, base: int, out: seq<int>, k: int)
    requires 0 <= k < |items| == |d| == |to| && |at| == |d| + 1
  {
    var it := items[k];
    && Back(it) <= |it.c.lead| <= at[k] && at[k] - Back(it) <= at[k + 1] <= |out|
    && out[at[k] - |it.c.lead|..at[k + 1]]
       == it.c.lead[..|it.c.lead| - Back(it)] + Code(it, d[k], at[k], to[k], base)
  }

  /** The code of an item without the plain bytes that it leaves in front. */
  lemma StandsCode(items: seq<Item>, d: seq<int>, at: seq<int>, to: seq<int>, base: int, out: seq<int>, k: int)
    requires 0 <= k < |items| == |d| == |to| && |at| == |d| + 1 && Stands(items, d, at, to, base, out, k)
    ensures 0 <= at[k] - Back(items[k]) <= at[k + 1] <= |out|
    ensures out[at[k] - Back(items[k])..at[k + 1]] == Code(items[k], d[k], at[k], to[k], base)
  {
    hide Code;
    var n, b := |items[k].c.lead|, Back(items[k]);
    var all := out[at[k] - n..at[k + 1]];
    assert all[n - b..] == out[at[k] - b..at[k + 1]];
    assert b >= 0;
  }

  /** An item before n rewrites the byte of plain item j. */
  ghost predicate Taken(items: seq<Item>, at: seq<int>, j: int, n: int)
    requires 0 <= j && n <= |items| < |at|
  {
    exists i {:trigger items[i]} :: j < i < n && !items[i].act.Plain() && at[i] - Back(items[i]) <= at[j]
  }

  ghost predicate Plainly(items: seq<Item>, at: seq<int>, out: seq<int>, j: int, n: int)
    requires 0 <= j < n <= |items| < |at|
  {
    items[j].act.Plain() && !Taken(items, at, j, n) ==> 0 <= at[j] < |out| && out[at[j]] == items[j].act.b
  }

  ghost predicate Stays(items: seq<Item>, d: seq<int>, at: seq<int>, to: seq<int>, base: int, out: seq<int>, k: int,
                        n: int, lead: seq<int>)
    requires 0 <= k < n <= |items| == |d| == |to| && |at| == |d| + 1
  {
    !items[k].act.Plain() ==> Stands(items, d, at, to, base, out, k) && at[k + 1] + |lead| <= at[n]
  }

  /** The first n items are in the output; the plain bytes lead end it. */
  ghost predicate Written(items: seq<Item>, d: seq<int>, at: seq<int>, to: seq<int>, base: int, out: seq<int>, n: int,
                          lead: seq<int>)
    requires 0 <= n <= |items| == |d| == |to| && |at| == |d| + 1
  {
    && |out| == at[n] && Tail(out, lead)
    && (forall j {:trigger Stays(items, d, at, to, base, out, j, n, lead)} :: 0 <= j < n ==>
        Stays(items, d, at, to, base, out, j, n, lead))
    && (forall j {:trigger Plainly(items, at, out, j, n)} :: 0 <= j < n ==> Plainly(items, at, out, j, n))
  }

  lemma StandsOn(items: seq<Item>, d: seq<int>, at: seq<int>, to: seq<int>, base: int, out: seq<int>, out': seq<int>,
                 k: int, keep: int)
    requires 0 <= k < |items| == |d| == |to| && |at| == |d| + 1 && Stands(items, d, at, to, base, out, k)
    requires at[k + 1] <= keep <= |out| && keep <= |out'| && out'[..keep] == out[..keep]
    ensures Stands(items, d, at, to, base, out', k)
  {
    var i, j := at[k] - |items[k].c.lead|, at[k + 1];
    assert out'[i..j] == out'[..keep][i..j];
    assert out[i..j] == out[..keep][i..j];
  }

  /** The item just written stands there, behind the plain bytes that it has left. */
  lemma StandsNow(items: seq<Item>, d: seq<int>, at: seq<int>, to: seq<int>, base: int, out: seq<int>, n: int)
    requires 0 <= n < |items| == |d| == |to| && |at| == |d| + 1 && |out| == at[n] && Tail(out, items[n].c.lead)
    requires 0 <= Back(items[n]) <= |items[n].c.lead|
    requires at[n + 1] == at[n] - Back(items[n]) + |Code(items[n], d[n], at[n], to[n], base)|
    ensures Stands(items, d, at, to, base,
                   out[..|out| - Back(items[n])] + Code(items[n], d[n], at[n], to[n], base), n)
  {
    hide Code, Back;
    var lead, keep, code := items[n].c.lead, |out| - Back(items[n]), Code(items[n], d[n], at[n], to[n], base);
    var out', i := out[..keep] + code, |out| - |lead|;
    assert out[i..] == lead;
    assert out'[i..at[n + 1]] == out[i..][..keep - i] + code;
  }

  /** Writing one item: its instruction replaces the last plain bytes it takes back. */
  lemma WrittenMore(al: seq<int>, items: seq<Item>, d: seq<int>, at: seq<int>, to: seq<int>, base: int, out: seq<int>,
                    n: int)
    requires 0 <= n < |items| == |d| == |to| && Fitting(items, d, at) && Genuine(al, items[n])
    requires d[n] == 0 || (items[n].act.Rel() && d[n] == Saves(items[n].c.op))
    requires Written(items, d, at, to, base, out, n, items[n].c.lead)
    ensures var keep := |out| - Back(items[n]); var code := Code(items[n], d[n], at[n], to[n], base);
            keep >= 0 && Written(items, d, at, to, base, out[..keep] + code, n + 1, After(al, items[n]).lead)
  {
    hide LE, Pad, Copies, Genuine, Branch;
    var it := items[n];
    var keep, code, lead := |out| - Back(it), Code(it, d[n], at[n], to[n], base), After(al, it).lead;
    CodeSize(al, it, d[n], at[n], to[n], base);
    SizeBounds(al, it, d[n], at[n]);
    assert Placed(items, d, at, n);
    var out' := out[..keep] + code;
    assert it.act.Plain() ==> out' == out + [it.act.b];
    assert out'[..keep] == out[..keep] && out'[keep..] == code;
    if it.act.Plain() { TailMore(out, it.c.lead, it.act.b); }
    forall j {:trigger Stays(items, d, at, to, base, out', j, n + 1, lead)} | 0 <= j < n + 1
      ensures Stays(items, d, at, to, base, out', j, n + 1, lead)
    {
      if j == n {
        StandsNow(items, d, at, to, base, out, n);
      } else if !items[j].act.Plain() {
        assert Stays(items, d, at, to, base, out, j, n, it.c.lead);
        StandsOn(items, d, at, to, base, out, out', j, keep);
      }
    }
    forall j {:trigger Plainly(items, at, out', j, n + 1)} | 0 <= j < n + 1 ensures Plainly(items, at, out', j, n + 1) {
      if j < n { PlainlyOn(items, at, out, out', j, n, keep); }
    }
  }

  lemma TailMore(out: seq<int>, lead: seq<int>, b: int)
    requires Tail(out, lead)
    ensures Tail(out + [b], lead + [b])
  {
    var out' := out + [b];
    assert out'[|out'| - |lead| - 1..] == out[|out| - |lead|..] + [b];
  }

  lemma PlainlyOn(items: seq<Item>, at: seq<int>, out: seq<int>, out': seq<int>, j: int, n: int, keep: int)
    requires 0 <= j < n < |items| < |at| && Plainly(items, at, out, j, n) && |out| == at[n]
    requires 0 <= keep <= |out'| && keep <= |out| && out'[..keep] == out[..keep]
    requires keep == at[n] - (if items[n].act.Plain() then 0 else Back(items[n]))
    ensures Plainly(items, at, out', j, n + 1)
  {
    if items[j].act.Plain() && !Taken(items, at, j, n + 1) {
      assert items[n].act.Plain() || at[n] - Back(items[n]) > at[j];
      assert out'[at[j]] == out'[..keep][at[j]] && out[at[j]] == out[..keep][at[j]];
    }
  }

  lemma TailReads(out: seq<int>, lead: seq<int>)
    requires Tail(out, lead)
    ensures |lead| <= |out| && forall k {:trigger lead[k]} :: 0 <= k < |lead| ==> out[|out| - |lead| + k] == lead[k]
  {
    forall k {:trigger lead[k]} | 0 <= k < |lead| ensures out[|out| - |lead| + k] == lead[k] {
      assert out[|out| - |lead|..][k] == lead[k];
    }
  }

  // What branches mean.

  datatype Jump = NoJump | Always(to: int) | When(cond: int, to: int)

  function Number(out: seq<int>, q: int, width: nat): int
    requires 0 <= q && q + width <= |out|
  {
    Signed(Value(out[q..q + width]), Power(width))
  }

  /** The branch instruction at offset q, as an x86 processor reads it. */
  function Decode(out: seq<int>, q: int): Jump {
    if q < 0 || q + 2 > |out| then NoJump
    else if out[q] == 0xeb then Always(q + 2 + Number(out, q + 1, 1))
    else if 0x70 <= out[q] < 0x80 then When(out[q] - 0x70, q + 2 + Number(out, q + 1, 1))
    else if out[q] == 0xe9 && q + 5 <= |out| then Always(q + 5 + Number(out, q + 1, 4))
    else if out[q] == 0x0f && 0x80 <= out[q + 1] < 0x90 && q + 6 <= |out| then
      When(out[q + 1] - 0x80, q + 6 + Number(out, q + 2, 4))
    else NoJump
  }

  predicate Near(n: int) { -0x8000_0000 <= n < 0x8000_0000 }

  lemma Powers()
    ensures Power(1) == 256 && Power(4) == 0x1_0000_0000 && Power(8) == 0x1_0000_0000 * 0x1_0000_0000
  {
    assert Power(2) == 65536 && Power(3) == 65536 * 256;
    assert Power(5) == 256 * Power(4) && Power(6) == 256 * Power(5) && Power(7) == 256 * Power(6);
  }

  lemma NumberAt(out: seq<int>, q: int, width: nat, n: int)
    requires 0 <= q && q + width <= |out| && out[q..q + width] == LE(n, width) && -Power(width) <= 2 * n < Power(width)
    ensures Number(out, q, width) == n
  {
    SignedLE(n, width);
  }

  lemma ShortDecodes(out: seq<int>, q: int, op: int, disp: int)
    requires Saves(op) > 0 && Small(disp) && 0 <= q && q + 2 <= |out| && out[q..q + 2] == Branch(op, Saves(op), disp)
    ensures Decode(out, q) == if op == JMP then Always(q + 2 + disp) else When(op - JCC, q + 2 + disp)
  {
    hide Value, Power;
    Powers();
    assert out[q] == out[q..q + 2][0] && out[q + 1] == out[q..q + 2][1];
    assert LE(disp, 1) == [disp % 256] + LE(disp / 256, 0);
    assert out[q + 1..q + 2] == LE(disp, 1);
    NumberAt(out, q + 1, 1, disp);
  }

  lemma LongDecodes(out: seq<int>, q: int, op: int, disp: int)
    requires Saves(op) > 0 && Near(disp) && 0 <= q && q + |Branch(op, 0, disp)| <= |out|
    requires out[q..q + |Branch(op, 0, disp)|] == Branch(op, 0, disp)
    ensures var to := q + |Branch(op, 0, disp)| + disp; Decode(out, q) == if op == JMP then Always(to)
            else When(op - JCC, to)
  {
    hide LE, Value, Power, Number;
    Powers();
    var code := Branch(op, 0, disp);
    var n := |code| - 4;
    assert out[q] == out[q..q + |code|][0] && out[q + 1] == out[q..q + |code|][1];
    assert out[q + n..q + |code|] == out[q..q + |code|][n..] == LE(disp, 4);
    NumberAt(out, q + n, 4, disp);
  }

  /** A branch at q, encoded long or short, leads disp beyond its end. */
  lemma BranchDecodes(out: seq<int>, q: int, op: int, d: int, disp: int)
    requires Saves(op) > 0 && (d == 0 || d == Saves(op)) && (if d > 0 then Small(disp) else Near(disp))
    requires var code := Branch(op, d, disp); 0 <= q && q + |code| <= |out| && out[q..q + |code|] == code
    ensures var to := q + |Branch(op, d, disp)| + disp; Decode(out, q) == if op == JMP then Always(to)
            else When(op - JCC, to)
  {
    hide LE, Decode;
    if d > 0 { ShortDecodes(out, q, op, disp); } else { LongDecodes(out, q, op, disp); }
  }

  /** In the output every branch to a label defined here, long or short, leads to that label's position. */
  lemma BranchReaches(al: seq<int>, items: seq<Item>, ofs: seq<int>, goal: seq<int>, d: seq<int>, at: seq<int>,
                      to: seq<int>, base: int,
                      out: seq<int>, k: int)
    requires AllGenuine(al, items) && Estimated(items, ofs) && Aimed(items, goal) && Shrunk(items, ofs, goal, d, at)
             && |d| == |items| == |to|
    requires 0 <= k < |items| && items[k].act.Rel() && Saves(items[k].c.op) > 0 && goal[k] >= 0 && to[k] == at[goal[k]]
    requires Stands(items, d, at, to, base, out, k) && Near(at[goal[k]] - at[k + 1])
    ensures var op := items[k].c.op;
            Decode(out, at[k] - Back(items[k])) == if op == JMP then Always(at[goal[k]])
                else When(op - JCC, at[goal[k]])
  {
    hide LE, Decode, Estimated, AllGenuine, Max;
    var op := items[k].c.op;
    assert Chosen(items, ofs, goal, d, at, k) && Placed(items, d, at, k);
    if d[k] > 0 { ShortReaches(al, items, ofs, goal, d, at, k); }
    StandsCode(items, d, at, to, base, out, k);
    assert |Branch(op, d[k], at[goal[k]] - at[k + 1])| == Back(items[k]) + 4 - d[k];
    BranchDecodes(out, at[k] - Back(items[k]), op, d[k], at[goal[k]] - at[k + 1]);
  }

  /** Any other relative reference, such as a call, holds the distance from its end to the label. */
  lemma RelativeReaches(items: seq<Item>, d: seq<int>, at: seq<int>, to: seq<int>, base: int, out: seq<int>, k: int)
    requires 0 <= k < |items| == |d| == |to| && Laid(items, d, at) && Stands(items, d, at, to, base, out, k)
    requires items[k].act.Rel() && Saves(items[k].c.op) == 0 && d[k] == 0 && Near(to[k] - at[k + 1])
    ensures 0 <= at[k] && at[k] + 4 <= |out| && at[k] + 4 + Number(out, at[k], 4) == to[k]
  {
    Powers();
    StandsCode(items, d, at, to, base, out, k);
    assert Placed(items, d, at, k);
    NumberAt(out, at[k], 4, to[k] - at[k + 1]);
  }

  /** An absolute reference holds the address of the label. */
  lemma AddressReaches(items: seq<Item>, d: seq<int>, at: seq<int>, to: seq<int>, base: int, out: seq<int>, k: int)
    requires 0 <= k < |items| == |d| == |to| && Laid(items, d, at) && Stands(items, d, at, to, base, out, k)
    requires items[k].act.Addr() && 0 <= base + to[k] < Power(8)
    ensures 0 <= at[k] && at[k] + 8 <= |out| && Value(out[at[k]..at[k] + 8]) == base + to[k]
  {
    hide LE, Value, Power;
    StandsCode(items, d, at, to, base, out, k);
    assert Placed(items, d, at, k);
    UnsignedLE(base + to[k], 8);
  }
}
