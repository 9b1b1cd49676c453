/** Numbers in a bytecode dump: seven bits a byte, the lowest first. */
module Uleb {
  import ByteQueue

  type byte = ByteQueue.byte

  const WORD := 0x1_0000_0000

  /** How the writer puts a number. */
  function Enc(v: nat): (s: seq<byte>)
    ensures s != []
  {
    if v >= 0x80 then [v % 0x80 + 0x80] + Enc(v / 0x80) else [v]
  }

  /** The number that bytes stand for: seven bits each, the lowest first, up to the first byte below 128. */
  function Number(s: seq<byte>): nat {
    if s == [] then 0 else if s[0] < 128 then s[0] else s[0] - 128 + 128 * Number(s[1..])
  }

  /** The shortest such bytes. */
  lemma {:induction false} EncMeaning(v: nat)
    ensures var s := Enc(v);
      && Number(s) == v && s[|s| - 1] < 128 && (forall k :: 0 <= k < |s| - 1 ==> s[k] >= 128)
      && (|s| > 1 ==> s[|s| - 1] != 0)
  {
    if v >= 128 { EncMeaning(v / 128); }
  }

  method Write(v: nat) returns (s: seq<byte>)
    ensures s == Enc(v)
  {
    var u := v;
    s := [];
    while u >= 0x80
      invariant s + Enc(u) == Enc(v)
    {
      s, u := s + [u % 0x80 + 0x80], u / 0x80;
    }
    s := s + [u];
  }

  /** A number's last byte is there. */
  predicate Ends(s: seq<byte>) {
    s != [] && (s[0] >= 0x80 ==> Ends(s[1..]))
  }

  /**
   * The bytes after the first, and what follows them: v has the bits so far, all below unit, which is where the
   * next seven go. What does not fit in 32 bits is lost.
   */
  function Tail(s: seq<byte>, v: nat, unit: nat): (nat, seq<byte>)
    requires Ends(s)
  {
    var u := (v + s[0] % 0x80 * unit) % WORD;
    if s[0] >= 0x80 then Tail(s[1..], u, 0x80 * unit) else (u, s[1..])
  }

  function Read32(s: seq<byte>): (nat, seq<byte>)
    requires Ends(s)
  {
    if s[0] >= 0x80 then Tail(s[1..], s[0] % 0x80, 0x80) else (s[0], s[1..])
  }

  lemma {:induction false} TailMeaning(s: seq<byte>, v: nat, unit: nat)
    requires Ends(s)
    ensures Tail(s, v, unit).0 == (v + Number(s) * unit) % 0x1_0000_0000
  {
    var u := (v + s[0] % 0x80 * unit) % WORD;
    if s[0] >= 0x80 {
      var n, low := Number(s[1..]), s[0] % 0x80 * unit;
      TailMeaning(s[1..], u, 0x80 * unit);
      SameLow(v + low, n * (0x80 * unit));
      assert Number(s) * unit == low + n * (0x80 * unit) by { Weighed(s[0] - 128, n, unit); }
    }
  }

  lemma Weighed(r: int, n: nat, unit: nat)
    ensures (r + 128 * n) * unit == r * unit + n * (0x80 * unit)
  {
  }

  lemma SameLow(x: nat, y: nat)
    ensures (x % WORD + y) % WORD == (x + y) % WORD
  {
    var q, r := x / WORD, x % WORD;
    var z := (r + y) % WORD;
    assert x + y == WORD * (q + (r + y) / WORD) + z;
  }

  /** What is read is the low 32 bits of the number, in the shortest form or not. */
  lemma Read32Meaning(s: seq<byte>)
    requires Ends(s)
    ensures Read32(s).0 == Number(s) % 0x1_0000_0000
  {
    if s[0] >= 0x80 { TailMeaning(s[1..], s[0] % 0x80, 0x80); }
  }

  /** The upper 32 bits of a number of 33. */
  function Read33(s: seq<byte>): (nat, seq<byte>)
    requires Ends(s)
  {
    if s[0] / 2 >= 0x40 then Tail(s[1..], s[0] / 2 % 0x40, 0x40) else (s[0] / 2, s[1..])
  }

  /** What a number begins with, and what follows. */
  lemma EncStep(v: nat, rest: seq<byte>)
    ensures (Enc(v) + rest)[0] == v % 0x80 + if v >= 0x80 then 0x80 else 0
    ensures (Enc(v) + rest)[1..] == if v >= 0x80 then Enc(v / 0x80) + rest else rest
  {
  }

  lemma {:induction false} EncEnds(v: nat, rest: seq<byte>)
    ensures Ends(Enc(v) + rest)
  {
    EncStep(v, rest);
    hide Enc;
    if v >= 0x80 { EncEnds(v / 0x80, rest); }
  }

  lemma {:induction false} EncLength(v: nat, n: nat)
    requires v < Power(n) && n > 0
    ensures |Enc(v)| <= n
  {
    if v >= 0x80 { EncLength(v / 0x80, n - 1); }
  }

  function Power(n: nat): nat {
    if n == 0 then 1 else 0x80 * Power(n - 1)
  }

  lemma Merge(u: nat, unit: nat)
    ensures u % 0x80 * unit + u / 0x80 * (0x80 * unit) == u * unit
  {
    var q, r := u / 0x80, u % 0x80;
    assert u == 0x80 * q + r && q * (0x80 * unit) == (0x80 * q) * unit;
    assert (0x80 * q + r) * unit == (0x80 * q) * unit + r * unit;
  }

  lemma Fits(v: nat, u: nat, unit: nat)
    requires v + u * unit < WORD
    ensures (v + u % 0x80 * unit) % WORD == v + u % 0x80 * unit
  {
    Merge(u, unit);
    assert u / 0x80 * (0x80 * unit) >= 0;
  }

  lemma {:induction false} TailOfEnc(u: nat, rest: seq<byte>, v: nat, unit: nat)
    requires v + u * unit < WORD
    ensures Ends(Enc(u) + rest) && Tail(Enc(u) + rest, v, unit) == (v + u * unit, rest)
    decreases u
  {
    EncEnds(u, rest);
    EncStep(u, rest);
    Fits(v, u, unit);
    Merge(u, unit);
    hide Enc, Ends;
    if u >= 0x80 {
      TailOfEnc(u / 0x80, rest, v + u % 0x80 * unit, 0x80 * unit);
    }
  }

  lemma Low(v: nat)
    ensures (v % 0x80 + 0x80) % 0x80 == v % 0x80 && v % 0x80 + v / 0x80 * 0x80 == v
  {
  }

  /** Reading gets back every 32 bit number, and stops where it ends. */
  lemma RoundTrip32(v: nat, rest: seq<byte>)
    requires v < WORD
    ensures Ends(Enc(v) + rest) && Read32(Enc(v) + rest) == (v, rest)
  {
    EncEnds(v, rest);
    EncStep(v, rest);
    Low(v);
    hide Enc, Tail, Ends;
    if v >= 0x80 { TailOfEnc(v / 0x80, rest, v % 0x80, 0x80); }
  }

  // Numbers of 33 bits: k, with one more bit below.

  function Bit(low: bool): nat {
    if low then 1 else 0
  }

  /** The 32 bits that the writer starts from: k doubled, with k's sign kept, and the bit below. */
  function Word(k: nat, low: bool): nat {
    (if k >= WORD / 2 then 2 * k % (WORD / 2) + WORD / 2 else 2 * k) + Bit(low)
  }

  /** The writer puts a word of 32 bits and then, where that lost k's upper bits, mends the last byte. */
  function Write33(k: nat, low: bool): seq<byte>
    requires k < WORD
  {
    if k >= WORD / 2 then Mend(Enc(Word(k, low)), k / 0x4000_0000) else Enc(Word(k, low))
  }

  /** Puts two bits over the last three. */
  function Mend(s: seq<byte>, c: nat): seq<byte>
    requires s != [] && c < 4
  {
    s[..|s| - 1] + [s[|s| - 1] % 8 + c * 8]
  }

  /** Four bytes, none of them the last. */
  function Lows(m: nat, n: nat): seq<byte> {
    if n == 0 then [] else [m % 0x80 + 0x80] + Lows(m / 0x80, n - 1)
  }

  lemma Parts(m: nat, t: nat)
    ensures (m + 0x80 * t) % 0x80 == m % 0x80 && (m + 0x80 * t) / 0x80 == m / 0x80 + t
  {
  }

  lemma Peel(m: nat, t: nat, n: nat, s: seq<byte>)
    requires t > 0 && n > 0 && Enc(m / 0x80 + t) == Lows(m / 0x80, n - 1) + s
    ensures Enc(m + 0x80 * t) == Lows(m, n) + s
  {
    Parts(m, t);
    assert Lows(m, n) == [m % 0x80 + 0x80] + Lows(m / 0x80, n - 1);
    hide Lows;
    assert Enc(m + 0x80 * t) == [m % 0x80 + 0x80] + Enc(m / 0x80 + t);
    hide Enc;
  }

  lemma Five(m: nat, d: nat)
    requires m < 0x1000_0000 && 0 < d < 0x80
    ensures Enc(m + d * 0x1000_0000) == Lows(m, 4) + [d]
  {
    var b, c, e := m / 0x80, m / 0x80 / 0x80, m / 0x80 / 0x80 / 0x80;
    assert e / 0x80 == 0 && Lows(e / 0x80, 0) == [];
    Peel(e, d, 1, [d]);
    Peel(c, d * 0x80, 2, [d]);
    Peel(b, d * 0x4000, 3, [d]);
    Peel(m, d * 0x20_0000, 4, [d]);
  }

  lemma Doubled(k: nat, c: nat, r: nat)
    requires k == c * 0x4000_0000 + r && 2 <= c <= 3 && r < 0x4000_0000
    ensures 2 * k % (WORD / 2) == 2 * r && k / 0x4000_0000 == c && WORD / 2 <= k < WORD
  {
    assert 2 * k == c * (WORD / 2) + 2 * r;
    if c == 2 { assert 2 * k == 2 * (WORD / 2) + 2 * r; }
  }

  lemma Mends(l: seq<byte>, e: nat, c: nat)
    requires e < 8 && c <= 3
    ensures Mend(l + [e + 8], c) == l + [e + 8 * c]
  {
    assert (l + [e + 8])[..|l|] == l && (e + 8) % 8 == e;
  }

  lemma Mended(w: nat, x: nat, c: nat, e: nat, m: nat)
    requires e < 8 && 2 <= c <= 3 && m < 0x1000_0000
    requires w == m + (e + 8) * 0x1000_0000 && x == m + (e + 8 * c) * 0x1000_0000
    ensures Mend(Enc(w), c) == Enc(x)
  {
    var d, l := e + 8 * c, Lows(m, 4);
    assert d < 0x80 && x == m + d * 0x1000_0000;
    Five(m, e + 8);
    Five(m, d);
    Mends(l, e, c);
    hide *;
    assert Enc(w) == l + [e + 8];
  }

  /** So the writer writes all 33 bits. */
  lemma Writes33(k: nat, low: bool)
    requires k < WORD
    ensures Write33(k, low) == Enc(2 * k + Bit(low))
  {
    if k >= WORD / 2 {
      var c, r := k / 0x4000_0000, k % 0x4000_0000;
      Doubled(k, c, r);
      var e, m := (2 * r + Bit(low)) / 0x1000_0000, (2 * r + Bit(low)) % 0x1000_0000;
      hide Enc, Mend;
      Mended(Word(k, low), 2 * k + Bit(low), c, e, m);
    }
  }

  lemma Halved(x: nat)
    ensures x >= 0x80 ==> (x % 0x80 + 0x80) / 2 >= 0x40 && (x % 0x80 + 0x80) / 2 % 0x40 + x / 0x80 * 0x40 == x / 2
    ensures (x % 0x80 + 0x80) % 2 == x % 2
  {
    var q, r := x / 0x80, x % 0x80;
    assert x / 2 == q * 0x40 + r / 2;
  }

  /** Reading gets back all 32 bits of k, and the bit below. */
  lemma RoundTrip33(k: nat, low: bool, rest: seq<byte>)
    requires k < WORD
    ensures var s := Write33(k, low) + rest; Ends(s) && Read33(s) == (k, rest) && (s[0] % 2 == 1 <==> low)
  {
    var x := 2 * k + Bit(low);
    Writes33(k, low);
    EncEnds(x, rest);
    EncStep(x, rest);
    assert x / 2 == k;
    Halved(x);
    hide Enc, Write33;
    if x >= 0x80 { TailOfEnc(x / 0x80, rest, (x % 0x80 + 0x80) / 2 % 0x40, 0x40); }
  }
}
