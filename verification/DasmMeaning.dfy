/** The meaning of the action codes, by their numbers: what each makes the output hold, and when a put refuses it. */
module DasmMeaning {
  import opened DasmActions
  import opened DasmLabels
  import opened DasmLayout
  import opened DasmState
  import opened DasmCode
  import opened Rounding

  ghost predicate Byte(b: int) { 0 <= b < 0x100 }

  /** From q on the output holds the low 8, 16, 32 or 64 bits of n, lowest byte first. */
  ghost predicate Holds1(out: seq<int>, q: int, n: int) {
    0 <= q && q + 1 <= |out| && out[q] == n % 0x100
  }

  ghost predicate Holds2(out: seq<int>, q: int, n: int) {
    && 0 <= q && q + 2 <= |out| && Byte(out[q]) && Byte(out[q + 1])
    && out[q] + 0x100 * out[q + 1] == n % 0x1_0000
  }

  ghost predicate Holds4(out: seq<int>, q: int, n: int) {
    && 0 <= q && q + 4 <= |out| && Byte(out[q]) && Byte(out[q + 1]) && Byte(out[q + 2]) && Byte(out[q + 3])
    && out[q] + 0x100 * out[q + 1] + 0x1_0000 * out[q + 2] + 0x100_0000 * out[q + 3] == n % 0x1_0000_0000
  }

  ghost predicate Holds8(out: seq<int>, q: int, n: int) {
    0 <= q && q + 8 <= |out| && Holds4(out, q, n) && Holds4(out, q + 4, n / 0x1_0000_0000)
  }

  lemma Split(n: int, a: int, b: int, c: int)
    requires a > 0 && b > 0 && c == a * b
    ensures n % c == n % a + a * (n / a % b) && n / a / b == n / c
  {
    var q, r := n / a, n % a;
    var u, v := q / b, q % b;
    assert n == a * q + r && q == b * u + v;
    assert a * q == c * u + a * v by { Product(a, b, u, v); }
    Scaled(a, v, b - 1);
    Scaled(a, 0, v);
    Distributes(a, b, 1);
    ModOf(n, c, u, a * v + r);
  }

  lemma Product(a: int, b: int, u: int, v: int)
    ensures a * (b * u + v) == (a * b) * u + a * v
  {
  }

  lemma Little2(out: seq<int>, q: int, n: int)
    requires 0 <= q && q + 2 <= |out| && out[q..q + 2] == LE(n, 2)
    ensures Holds2(out, q, n)
  {
    var b := out[q..q + 2];
    assert LE(n, 2) == [n % 0x100] + LE(n / 0x100, 1)
           && LE(n / 0x100, 1) == [n / 0x100 % 0x100] + LE(n / 0x100 / 0x100, 0);
    assert out[q] == b[0] && out[q + 1] == b[1];
    Split(n, 0x100, 0x100, 0x1_0000);
  }

  lemma Little4(out: seq<int>, q: int, n: int)
    requires 0 <= q && q + 4 <= |out| && out[q..q + 4] == LE(n, 4)
    ensures Holds4(out, q, n)
  {
    var h := n / 0x100 / 0x100;
    assert LE(n, 4) == LE(n, 2) + LE(h, 2) by {
      assert LE(n, 4) == [n % 0x100] + LE(n / 0x100, 3) && LE(n / 0x100, 3) == [n / 0x100 % 0x100] + LE(h, 2);
      assert LE(n, 2) == [n % 0x100] + LE(n / 0x100, 1) && LE(n / 0x100, 1) == [n / 0x100 % 0x100] + LE(h, 0);
    }
    assert out[q..q + 2] == out[q..q + 4][..2] && out[q + 2..q + 4] == out[q..q + 4][2..];
    Little2(out, q, n);
    Little2(out, q + 2, h);
    Split(n, 0x100, 0x100, 0x1_0000);
    Split(n, 0x1_0000, 0x1_0000, 0x1_0000_0000);
  }

  lemma Little8(out: seq<int>, q: int, n: int)
    requires 0 <= q && q + 8 <= |out| && out[q..q + 8] == LE(n, 8)
    ensures Holds8(out, q, n)
  {
    var h := n / 0x1_0000_0000;
    Halves(n);
    assert out[q..q + 4] == out[q..q + 8][..4] && out[q + 4..q + 8] == out[q..q + 8][4..];
    Little4(out, q, n);
    Little4(out, q + 4, h);
  }

  lemma Halves(n: int)
    ensures LE(n, 8) == LE(n, 4) + LE(n / 0x1_0000_0000, 4)
  {
    var a := n / 0x100;
    var b := a / 0x100;
    var c := b / 0x100;
    var e := c / 0x100;
    assert LE(n, 8) == [n % 0x100] + LE(a, 7) && LE(a, 7) == [a % 0x100] + LE(b, 6);
    assert LE(b, 6) == [b % 0x100] + LE(c, 5) && LE(c, 5) == [c % 0x100] + LE(e, 4);
    assert LE(n, 4) == [n % 0x100] + LE(a, 3) && LE(a, 3) == [a % 0x100] + LE(b, 2);
    assert LE(b, 2) == [b % 0x100] + LE(c, 1) && LE(c, 1) == [c % 0x100] + LE(e, 0);
    Split(n, 0x100, 0x100, 0x1_0000);
    Split(n, 0x1_0000, 0x100, 0x100_0000);
    Split(n, 0x100_0000, 0x100, 0x1_0000_0000);
  }

  /** The plain bytes directly before the item stand before it in the output, but for the last n. */
  ghost predicate Led(items: seq<Item>, at: seq<int>, out: seq<int>, k: int, n: nat)
    requires 0 <= k < |items| <= |at|
  {
    var lead := items[k].c.lead;
    && n <= |lead| <= at[k] <= |out| && (forall j {:trigger lead[j]} :: 0 <= j < |lead| - n ==>
      out[at[k] - |lead| + j] == lead[j])
  }

  /** An output in which item k of a genuine program stands. */
  ghost predicate Encoded(al: seq<int>, items: seq<Item>, d: seq<int>, at: seq<int>, to: seq<int>, base: int,
                          out: seq<int>, k: int) {
    && 0 <= k < |items| == |d| == |to| && |at| == |d| + 1 && Genuine(al, items[k]) && items[k].c.p >= 0
    && Written(items, d, at, to, base, out, |items|, []) && Laid(items, d, at)
    && (d[k] == 0 || (items[k].act.Rel() && d[k] == Saves(items[k].c.op)))
  }

  /** So does every item of what pass 3 writes, but for the heads of puts. */
  lemma InOutput(al: seq<int>, items: seq<Item>, ofs: seq<int>, goal: seq<int>, d: seq<int>, at: seq<int>, to: seq<int>,
                 base: int, out: seq<int>, k: int)
    requires AllGenuine(al, items) && Shrunk(items, ofs, goal, d, at) && 0 <= k < |items| == |d| == |to|
    requires Written(items, d, at, to, base, out, |items|, []) && !items[k].act.Start?
    ensures Encoded(al, items, d, at, to, base, out, k)
  {
    hide Written;
    assert Chosen(items, ofs, goal, d, at, k);
  }

  lemma Parts(al: seq<int>, items: seq<Item>, d: seq<int>, at: seq<int>, to: seq<int>, base: int, out: seq<int>, k: int)
    requires Encoded(al, items, d, at, to, base, out, k) && !items[k].act.Plain()
    ensures 0 <= Back(items[k]) <= at[k] <= at[k + 1] + Back(items[k]) && at[k + 1] <= |out|
    ensures out[at[k] - Back(items[k])..at[k + 1]] == Code(items[k], d[k], at[k], to[k], base)
    ensures at[k + 1] == at[k] + Size(items[k], d[k], at[k]) && Led(items, at, out, k, Back(items[k]))
  {
    hide Code, Size;
    assert Stays(items, d, at, to, base, out, k, |items|, []) && Placed(items, d, at, k);
    StandsCode(items, d, at, to, base, out, k);
    SizeBounds(al, items[k], d[k], at[k]);
    var lead, b := items[k].c.lead, Back(items[k]);
    var all := out[at[k] - |lead|..at[k + 1]];
    assert all == lead[..|lead| - b] + Code(items[k], d[k], at[k], to[k], base);
    forall j {:trigger lead[j]} | 0 <= j < |lead| - b ensures out[at[k] - |lead| + j] == lead[j] {
      assert all[j] == lead[..|lead| - b][j];
    }
  }

  /** 234 and 235: one byte. */
  lemma Imm8(al: seq<int>, items: seq<Item>, d: seq<int>, at: seq<int>, to: seq<int>, base: int, out: seq<int>, k: int)
    requires Encoded(al, items, d, at, to, base, out, k) && (al[items[k].c.p] == 234 || al[items[k].c.p] == 235)
    ensures at[k + 1] == at[k] + 1 && Holds1(out, at[k], items[k].arg) && Led(items, at, out, k, 0)
  {
    hide Pad, Copies, Branch;
    Parts(al, items, d, at, to, base, out, k);
    assert out[at[k]] == out[at[k]..at[k + 1]][0];
  }

  lemma FourBytes(al: seq<int>, items: seq<Item>, d: seq<int>, at: seq<int>, to: seq<int>, base: int, out: seq<int>,
                  k: int, n: int)
    requires Encoded(al, items, d, at, to, base, out, k) && !items[k].act.Plain() && Back(items[k]) == 0
    requires Code(items[k], d[k], at[k], to[k], base) == LE(n, 4) && Size(items[k], d[k], at[k]) == 4
    ensures at[k + 1] == at[k] + 4 && Holds4(out, at[k], n) && Led(items, at, out, k, 0)
  {
    hide LE, Code, Size, Back, Holds4, Written, Laid, Led, Genuine;
    Parts(al, items, d, at, to, base, out, k);
    Little4(out, at[k], n);
  }

  lemma TwoBytes(al: seq<int>, items: seq<Item>, d: seq<int>, at: seq<int>, to: seq<int>, base: int, out: seq<int>,
                 k: int, n: int)
    requires Encoded(al, items, d, at, to, base, out, k) && !items[k].act.Plain() && Back(items[k]) == 0
    requires Code(items[k], d[k], at[k], to[k], base) == LE(n, 2) && Size(items[k], d[k], at[k]) == 2
    ensures at[k + 1] == at[k] + 2 && Holds2(out, at[k], n) && Led(items, at, out, k, 0)
  {
    hide LE, Code, Size, Back, Holds2, Written, Laid, Led, Genuine;
    Parts(al, items, d, at, to, base, out, k);
    Little2(out, at[k], n);
  }

  lemma EightBytes(al: seq<int>, items: seq<Item>, d: seq<int>, at: seq<int>, to: seq<int>, base: int, out: seq<int>,
                   k: int, n: int)
    requires Encoded(al, items, d, at, to, base, out, k) && !items[k].act.Plain() && Back(items[k]) == 0
    requires Code(items[k], d[k], at[k], to[k], base) == LE(n, 8) && Size(items[k], d[k], at[k]) == 8
    ensures at[k + 1] == at[k] + 8 && Holds8(out, at[k], n) && Led(items, at, out, k, 0)
  {
    hide LE, Code, Size, Back, Holds8, Written, Laid, Led, Genuine;
    Parts(al, items, d, at, to, base, out, k);
    Little8(out, at[k], n);
  }

  /** 236: two bytes. */
  lemma Imm16(al: seq<int>, items: seq<Item>, d: seq<int>, at: seq<int>, to: seq<int>, base: int, out: seq<int>, k: int)
    requires Encoded(al, items, d, at, to, base, out, k) && al[items[k].c.p] == 236
    ensures at[k + 1] == at[k] + 2 && Holds2(out, at[k], items[k].arg) && Led(items, at, out, k, 0)
  {
    hide Pad, Copies, Branch, LE, Holds2, Holds4, Written, Laid, Led;
    TwoBytes(al, items, d, at, to, base, out, k, items[k].arg);
  }

  /** 237: four bytes. */
  lemma Imm32(al: seq<int>, items: seq<Item>, d: seq<int>, at: seq<int>, to: seq<int>, base: int, out: seq<int>, k: int)
    requires Encoded(al, items, d, at, to, base, out, k) && al[items[k].c.p] == 237
    ensures at[k + 1] == at[k] + 4 && Holds4(out, at[k], items[k].arg) && Led(items, at, out, k, 0)
  {
    hide Pad, Copies, Branch, LE, Holds2, Holds4, Written, Laid, Led;
    FourBytes(al, items, d, at, to, base, out, k, items[k].arg);
  }

  /** The argument as one byte, and the opcode two bytes back raised by two. */
  ghost predicate Shortened(items: seq<Item>, at: seq<int>, out: seq<int>, k: int)
    requires 0 <= k < |items| < |at|
  {
    var q, lead := at[k], items[k].c.lead;
    && at[k + 1] == q + 1 && Holds1(out, q, items[k].arg) && |lead| >= 2 && Led(items, at, out, k, 2)
    && out[q - 2] == (lead[|lead| - 2] + 2) % 0x100 && out[q - 1] == lead[|lead| - 1]
  }

  lemma ShortParts(al: seq<int>, items: seq<Item>, d: seq<int>, at: seq<int>, to: seq<int>, base: int, out: seq<int>,
                   k: int)
    requires Encoded(al, items, d, at, to, base, out, k) && -128 <= items[k].arg <= 127
    requires al[items[k].c.p] == 238 || al[items[k].c.p] == 239
    ensures Shortened(items, at, out, k)
  {
    hide Pad, Copies, Branch;
    Parts(al, items, d, at, to, base, out, k);
    var code := out[at[k] - 2..at[k + 1]];
    assert out[at[k] - 2] == code[0] && out[at[k] - 1] == code[1] && out[at[k]] == code[2];
  }

  /** 238: one byte in a shorter instruction for arguments that a signed byte holds, else two bytes. */
  lemma Imm16Or8(al: seq<int>, items: seq<Item>, d: seq<int>, at: seq<int>, to: seq<int>, base: int, out: seq<int>,
                 k: int)
    requires Encoded(al, items, d, at, to, base, out, k) && al[items[k].c.p] == 238
    ensures if -128 <= items[k].arg <= 127 then Shortened(items, at, out, k)
            else at[k + 1] == at[k] + 2 && Holds2(out, at[k], items[k].arg) && Led(items, at, out, k, 0)
  {
    hide Pad, Copies, Branch, LE, Holds2, Holds4, Written, Laid, Led, Shortened;
    if -128 <= items[k].arg <= 127 {
      ShortParts(al, items, d, at, to, base, out, k);
    } else {
      TwoBytes(al, items, d, at, to, base, out, k, items[k].arg);
    }
  }

  /** 239: one byte in a shorter instruction for arguments that a signed byte holds, else four bytes. */
  lemma Imm32Or8(al: seq<int>, items: seq<Item>, d: seq<int>, at: seq<int>, to: seq<int>, base: int, out: seq<int>,
                 k: int)
    requires Encoded(al, items, d, at, to, base, out, k) && al[items[k].c.p] == 239
    ensures if -128 <= items[k].arg <= 127 then Shortened(items, at, out, k)
            else at[k + 1] == at[k] + 4 && Holds4(out, at[k], items[k].arg) && Led(items, at, out, k, 0)
  {
    hide Pad, Copies, Branch, LE, Holds2, Holds4, Written, Laid, Led, Shortened;
    if -128 <= items[k].arg <= 127 {
      ShortParts(al, items, d, at, to, base, out, k);
    } else {
      FourBytes(al, items, d, at, to, base, out, k, items[k].arg);
    }
  }

  /** 241 and a byte: as many of that byte as the argument says. */
  lemma Space(al: seq<int>, items: seq<Item>, d: seq<int>, at: seq<int>, to: seq<int>, base: int, out: seq<int>, k: int)
    requires Encoded(al, items, d, at, to, base, out, k) && al[items[k].c.p] == 241
    ensures items[k].arg >= 0 && at[k + 1] == at[k] + items[k].arg && at[k + 1] <= |out| && 0 <= at[k]
    ensures forall j {:trigger out[j]} :: at[k] <= j < at[k + 1] ==> out[j] == al[items[k].c.p + 1]
    ensures Led(items, at, out, k, 0)
  {
    hide Pad, Copies, Branch;
    Parts(al, items, d, at, to, base, out, k);
    var code := Code(items[k], d[k], at[k], to[k], base);
    forall j {:trigger out[j]} | at[k] <= j < at[k + 1] ensures out[j] == al[items[k].c.p + 1] {
      assert out[at[k]..at[k + 1]][j - at[k]] == code[j - at[k]];
    }
  }

  /** 243: the distance from the end of the four bytes to the address given. */
  lemma RelativeTo(al: seq<int>, items: seq<Item>, d: seq<int>, at: seq<int>, to: seq<int>, base: int, out: seq<int>,
                   k: int)
    requires Encoded(al, items, d, at, to, base, out, k) && al[items[k].c.p] == 243
    ensures at[k + 1] == at[k] + 4 && Holds4(out, at[k], items[k].arg - (base + at[k + 1])) && Led(items, at, out, k, 0)
  {
    hide Pad, Copies, Branch, LE, Holds2, Holds4, Written, Laid, Led;
    FourBytes(al, items, d, at, to, base, out, k, items[k].arg - (base + at[k] + 4));
  }

  /** 244 and 245, when no branch comes before: the distance from the end of the four bytes to the label. */
  lemma RelativeLabel(al: seq<int>, items: seq<Item>, d: seq<int>, at: seq<int>, to: seq<int>, base: int, out: seq<int>,
                      k: int)
    requires Encoded(al, items, d, at, to, base, out, k) && (al[items[k].c.p] == 244 || al[items[k].c.p] == 245)
    requires items[k].c.op != 0xe9 && !(0x80 <= items[k].c.op < 0x90)
    ensures at[k + 1] == at[k] + 4 && Holds4(out, at[k], to[k] - at[k + 1]) && Led(items, at, out, k, 0)
  {
    hide Pad, Copies, LE, Holds2, Holds4, Written, Laid, Led;
    FourBytes(al, items, d, at, to, base, out, k, to[k] - (at[k] + 4));
  }

  /** 246 and 247: the address of the label in eight bytes. */
  lemma AddressOf(al: seq<int>, items: seq<Item>, d: seq<int>, at: seq<int>, to: seq<int>, base: int, out: seq<int>,
                  k: int)
    requires Encoded(al, items, d, at, to, base, out, k) && (al[items[k].c.p] == 246 || al[items[k].c.p] == 247)
    ensures at[k + 1] == at[k] + 8 && Holds8(out, at[k], base + to[k]) && Led(items, at, out, k, 0)
  {
    hide Pad, Copies, Branch, LE, Holds8, Written, Laid, Led;
    EightBytes(al, items, d, at, to, base, out, k, base + to[k]);
  }

  /** 250 and n: as few nops as reach a multiple of n + 1. */
  lemma Aligned(al: seq<int>, items: seq<Item>, d: seq<int>, at: seq<int>, to: seq<int>, base: int, out: seq<int>,
                k: int)
    requires Encoded(al, items, d, at, to, base, out, k) && al[items[k].c.p] == 250
    ensures al[items[k].c.p + 1] >= 0 && 0 <= at[k] <= at[k + 1] <= |out|
    ensures at[k + 1] <= at[k] + al[items[k].c.p + 1] && at[k + 1] % (al[items[k].c.p + 1] + 1) == 0
    ensures forall j {:trigger out[j]} :: at[k] <= j < at[k + 1] ==> out[j] == 0x90
    ensures Led(items, at, out, k, 0)
  {
    Parts(al, items, d, at, to, base, out, k);
    GenuineMax(al, items[k]);
    hide Pad, Copies, Written, Laid, Led;
    var mask := al[items[k].c.p + 1];
    AlignUp(at[k], mask);
    var code := Code(items[k], d[k], at[k], to[k], base);
    forall j {:trigger out[j]} | at[k] <= j < at[k + 1] ensures out[j] == 0x90 {
      assert out[at[k]..at[k + 1]][j - at[k]] == code[j - at[k]];
    }
  }

  /** 248, 249, 254 and 255 write nothing. */
  lemma Nothing(al: seq<int>, items: seq<Item>, d: seq<int>, at: seq<int>, to: seq<int>, base: int, out: seq<int>,
                k: int)
    requires Encoded(al, items, d, at, to, base, out, k)
    requires var code := al[items[k].c.p]; code == 248 || code == 249 || code >= 254
    ensures at[k + 1] == at[k] && Led(items, at, out, k, 0)
  {
    hide Pad, Copies, Branch;
    Parts(al, items, d, at, to, base, out, k);
  }

  /** The byte that code b below 233 or 252 before it stands for. */
  function PlainByte(al: seq<int>, p: int): int
    requires 0 <= p < |al| && (al[p] == 252 ==> p + 1 < |al|)
  {
    if al[p] == 252 then al[p + 1] else al[p]
  }

  /** Below 233, and after 252: one byte as it is, unless a later instruction takes it. */
  lemma Plain(al: seq<int>, items: seq<Item>, d: seq<int>, at: seq<int>, to: seq<int>, base: int, out: seq<int>, k: int)
    requires Encoded(al, items, d, at, to, base, out, k) && (al[items[k].c.p] < 233 || al[items[k].c.p] == 252)
    ensures at[k + 1] == at[k] + 1
    ensures !Taken(items, at, k, |items|) ==> 0 <= at[k] < |out| && out[at[k]] == PlainByte(al, items[k].c.p)
  {
    assert Placed(items, d, at, k) && Plainly(items, at, out, k, |items|);
  }

  /** The bytes that stand directly before an item: those of the plain codes before it. */
  lemma LeadIs(al: seq<int>, list: seq<Item>, s: int, k: int)
    requires Traced(al, list, s) && 0 < k < |list|
    ensures var p := list[k - 1].c.p;
            list[k].c.lead == if p >= 0 && (al[p] < 233 || al[p] == 252) then list[k - 1].c.lead + [PlainByte(al, p)]
                else []
    ensures var p := list[k - 1].c.p;
            list[k].c.op == if p >= 0 && (al[p] < 233 || al[p] == 252) then PlainByte(al, p)
                            else if p >= 0 && al[p] >= 254 then 0 else list[k - 1].c.op
  {
    assert Follows(al, list, k) && Genuine(al, list[k - 1]);
  }

  /** One action takes one code, or two: with an operand for 241, 244, 246, 248, 250, 252 and 254. */
  lemma NextCode(al: seq<int>, list: seq<Item>, s: int, k: int)
    requires Traced(al, list, s) && 0 < k < |list|
    ensures var p := list[k - 1].c.p;
            list[k].c.p == if p < 0 then list[k - 1].arg else if al[p] >= 254 then -1
                           else if al[p] in {241, 244, 246, 248, 250, 252} then p + 2 else p + 1
  {
    assert Follows(al, list, k) && Genuine(al, list[k - 1]);
  }

  // Arguments.

  /** The action at p takes an argument. */
  predicate Takes(al: seq<int>, p: int) {
    0 <= p < |al| && al[p] in {234, 235, 236, 237, 238, 239, 241, 243, 245, 247, 249}
  }

  /** How many of the items take an argument. */
  ghost function Takers(al: seq<int>, items: seq<Item>): nat {
    if items == [] then 0 else (if Takes(al, items[0].c.p) then 1 else 0) + Takers(al, items[1..])
  }

  lemma TakesArgument(al: seq<int>, c: Cursor, args: seq<int>, limit: int)
    requires DasmActions.Sound(al, c, args, limit)
    ensures Known(al, c.p) && Next(al, c, args).c == c && (Takes(al, c.p) <==> Next(al, c, args).act.TakesArg())
    ensures Takes(al, c.p) ==> |args| > 0 && Next(al, c, args).arg == args[0]
    ensures var it := Next(al, c, args); Rest(it.act, args) == if Takes(al, c.p) then args[1..] else args
    ensures Chunk(al, c, args, limit)[0] == Next(al, c, args)
  {
  }

  /** The actions of a put that take arguments take them in order. */
  lemma {:induction false} Arguments(al: seq<int>, c: Cursor, args: seq<int>, limit: int, k: nat)
    requires DasmActions.Sound(al, c, args, limit) && k < |Chunk(al, c, args, limit)|
    ensures var chunk, n := Chunk(al, c, args, limit), Takers(al, Chunk(al, c, args, limit)[..k]);
            Takes(al, chunk[k].c.p) ==> n < |args| && chunk[k].arg == args[n]
    decreases k
  {
    hide Known, Fetch, Proper, Width, MaxOf, Cells, Takes;
    var it, chunk := Next(al, c, args), Chunk(al, c, args, limit);
    TakesArgument(al, c, args, limit);
    if k > 0 {
      var rest := Rest(it.act, args);
      Arguments(al, After(al, it), rest, limit, k - 1);
      assert chunk[1..] == Chunk(al, After(al, it), rest, limit);
      assert chunk[..k][1..] == chunk[1..][..k - 1];
    }
  }

  /** What pass 1 estimates for an action. */
  lemma Estimates(al: seq<int>, it: Item)
    requires Genuine(al, it) && it.c.p >= 0
    ensures var code, short := al[it.c.p], -128 <= it.arg <= 127;
            Max(it) == if code < 233 || code in {234, 235, 252} || (code in {238, 239} && short) then 1
                       else if code in {236, 238} then 2
                       else if code in {237, 239, 243, 244, 245} then 4
                       else if code in {246, 247} then 8
                       else if code == 241 then it.arg
                       else if code == 250 then al[it.c.p + 1]
                       else 0
  {
  }

  // Labels.

  /** Operands up to 246 name a label as it is; from 247 on they name local label 1 and so on, forwards. */
  lemma Names(al: seq<int>, it: Item)
    requires Genuine(al, it) && it.c.p >= 0
    ensures var p := it.c.p; al[p] == 244 || al[p] == 246 ==>
      it.act.Ref() && Of(it) == Lg(if al[p + 1] > 246 then al[p + 1] - 246 else al[p + 1])
          && (Forward(it) <==> al[p + 1] > 246)
    ensures al[it.c.p] == 245 || al[it.c.p] == 247 ==> it.act.Ref() && Of(it) == Pc(it.arg) && !Forward(it)
    ensures al[it.c.p] == 248 ==> Defines(it, Lg(al[it.c.p + 1]))
    ensures al[it.c.p] == 249 ==> Defines(it, Pc(it.arg))
    ensures it.act.Ref() ==> al[it.c.p] in {244, 245, 246, 247}
    ensures it.act.Def() ==> al[it.c.p] in {248, 249}
  {
  }

  /** What a put accepts. */
  lemma Accepts(al: seq<int>, log: seq<Item>, it: Item, locals: nat, pcs: nat, sections: nat)
    requires Genuine(al, it) && it.c.p >= 0
    ensures var p, ok := it.c.p, Passes(log, it, locals, pcs, sections);
      && (al[p] == 234 ==> (ok <==> -128 <= it.arg <= 127))
      && (al[p] == 235 ==> (ok <==> 0 <= it.arg <= 255))
      && (al[p] == 236 ==> (ok <==> 0 <= it.arg <= 65535))
      && (al[p] == 238 ==> (ok <==> -128 <= it.arg <= 65535))
      && (al[p] in {245, 247, 249} ==> (ok <==> 0 <= it.arg < pcs))
      && (al[p] == 248 ==> (ok <==> al[p + 1] < locals))
      && (al[p] == 254 ==> (ok <==> al[p + 1] < sections))
    ensures var p, ok := it.c.p, Passes(log, it, locals, pcs, sections);
      al[p] in {244, 246} ==>
        (ok <==> al[p + 1] > 246 || (al[p + 1] < locals && (al[p + 1] >= 10 || Visible(log, it))))
    ensures al[it.c.p] < 233 || al[it.c.p] in {237, 239, 241, 243, 250, 252, 255} ==>
      Passes(log, it, locals, pcs, sections)
  {
  }
}
