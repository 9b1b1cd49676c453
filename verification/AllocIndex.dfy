/** Tree bin indexing and the shifted size bits that steer the bitwise tries. */
module AllocIndex {

  const TWO64 := 0x1_0000_0000_0000_0000
  const TWO63 := 0x8000_0000_0000_0000
  const TWO32 := 0x1_0000_0000
  /** compute_tree_index narrows S >> 8 to 32 bits, so it is faithful to S below this bound. */
  const SIZE_LIMIT := 0x100_0000_0000
  const MIN_LARGE_SIZE := 256
  const NTREEBINS := 32

  function Pow2(n: nat): (r: int)
    ensures r >= 1
  {
    if n == 0 then 1 else 2 * Pow2(n - 1)
  }

  lemma {:induction false} Pow2Add(a: nat, b: nat)
    ensures Pow2(a) * Pow2(b) == Pow2(a + b)
  {
    if a > 0 {
      Pow2Add(a - 1, b);
      assert Pow2(a) * Pow2(b) == 2 * (Pow2(a - 1) * Pow2(b));
    }
  }

  lemma {:induction false} Pow2Mono(a: nat, b: nat)
    requires a < b
    ensures 2 * Pow2(a) <= Pow2(b)
  {
    if a + 1 < b { Pow2Mono(a, b - 1); }
  }

  lemma Pow2Values()
    ensures Pow2(7) == 0x80 && Pow2(8) == 0x100 && Pow2(16) == 0x1_0000 && Pow2(22) == 0x40_0000
    ensures Pow2(23) == 0x80_0000 && Pow2(63) == TWO63 && Pow2(64) == TWO64
  {
    assert Pow2(4) == 16;
    Pow2Add(4, 3); Pow2Add(4, 4); Pow2Add(8, 8); Pow2Add(16, 6); Pow2Add(16, 7);
    Pow2Add(16, 16); Pow2Add(32, 31); Pow2Add(32, 32);
    assert Pow2(3) == 8 && Pow2(6) == 64;
    Pow2Add(31, 1);
    Pow2Add(32, 31);
  }

  /** Position of the highest set bit. */
  function Fls(x: int): (k: nat)
    requires x > 0
    ensures Pow2(k) <= x < Pow2(k + 1)
  {
    if x == 1 then 0 else 1 + Fls(x / 2)
  }

  /** Logical shift right. */
  function Shr(s: int, n: nat): int {
    if n == 0 then s else Shr(s, n - 1) / 2
  }

  lemma {:induction false} ShrBounds(s: int, n: nat)
    ensures Shr(s, n) * Pow2(n) <= s < Shr(s, n) * Pow2(n) + Pow2(n)
  {
    if n > 0 {
      ShrBounds(s, n - 1);
      HalveBounds(Shr(s, n - 1), Shr(s, n), Pow2(n - 1));
    }
  }

  lemma HalveBounds(h: int, q: int, w: int)
    requires 2 * q <= h <= 2 * q + 1 && w > 0
    ensures q * (2 * w) <= h * w && h * w + w <= q * (2 * w) + 2 * w
  {
    var d := h - 2 * q;
    assert h * w == q * (2 * w) + d * w;
  }

  function TreeIndex(s: int): int {
    var x := s / 256 % TWO32;
    if x == 0 then 0
    else if x > 0xFFFF then NTREEBINS - 1
    else 2 * Fls(x) + Shr(s, Fls(x) + 7) % 2
  }

  /** Number of size bits that tell the chunks of a bin apart. */
  function BinExp(i: int): int {
    if i == NTREEBINS - 1 then 64 else i / 2 + 7
  }

  function BinLo(i: int): int
    requires 0 <= i < NTREEBINS
  {
    if i == NTREEBINS - 1 then 0 else MinSize(i)
  }

  /** minsize_for_tree_index */
  function MinSize(i: int): int
    requires 0 <= i < NTREEBINS
  {
    Pow2(i / 2 + 8) + if i % 2 == 1 then Pow2(i / 2 + 7) else 0
  }

  lemma QuotTwoThree(s: int, w: int, q: int)
    requires w > 0 && 2 * w <= s < 4 * w && q * w <= s < q * w + w
    ensures q == if s < 3 * w then 2 else 3
  {
    assert q <= 1 ==> (q + 1) * w <= 2 * w;
    assert q >= 4 ==> q * w >= 4 * w;
  }

  lemma IndexRangeMid(s: int, k: nat)
    requires 256 <= s && Pow2(k) <= s / 256 < Pow2(k + 1)
    ensures Pow2(k + 8) == 2 * Pow2(k + 7)
    ensures 2 * Pow2(k + 7) <= s < 4 * Pow2(k + 7)
    ensures Shr(s, k + 7) % 2 == if s < 3 * Pow2(k + 7) then 0 else 1
  {
    Pow2Values();
    Pow2Add(k, 7);
    var w := Pow2(k + 7);
    assert Pow2(k) * 128 == w;
    ShrBounds(s, k + 7);
    QuotTwoThree(s, w, Shr(s, k + 7));
  }

  ghost predicate InBin(s: int, i: int) {
    && 0 <= i < NTREEBINS && MinSize(i) <= s
    && (i < NTREEBINS - 1 ==> s < MinSize(i + 1))
    && BinLo(i) <= s < BinLo(i) + Pow2(BinExp(i))
  }

  /** Every large size lies in the size range of its bin. */
  lemma IndexRange(s: int)
    requires MIN_LARGE_SIZE <= s < SIZE_LIMIT
    ensures InBin(s, TreeIndex(s))
  {
    hide TreeIndex;
    var x := s / 256;
    assert 0 < x < TWO32;
    TreeIndexUnmasked(s, x);
    if x <= 0xFFFF { IndexRangeLow(s, x, Fls(x)); } else { IndexRangeLast(s); }
  }

  lemma TreeIndexUnmasked(s: int, x: int)
    requires 0 <= s && x == s / 256 && 0 < x < TWO32
    ensures TreeIndex(s) == if x > 0xFFFF then NTREEBINS - 1 else 2 * Fls(x) + Shr(s, Fls(x) + 7) % 2
  {
    assert x % TWO32 == x;
  }

  lemma IndexRangeLow(s: int, x: int, k: nat)
    requires x == s / 256 && 0 < x <= 0xFFFF && k == Fls(x)
    ensures InBin(s, 2 * k + Shr(s, k + 7) % 2)
  {
    IndexRangeMid(s, k);
    FlsBound(x);
    IndexRangeIn(s, k);
  }

  lemma FlsBound(x: int)
    requires 0 < x <= 0xFFFF
    ensures Fls(x) <= 15
  {
    Pow2Values();
    if Fls(x) > 15 { Pow2Mono(15, Fls(x)); }
  }

  lemma IndexRangeLast(s: int)
    requires 0x100_0000 <= s < SIZE_LIMIT
    ensures InBin(s, NTREEBINS - 1)
  {
    Pow2Values();
    assert MinSize(31) == Pow2(23) + Pow2(22);
  }

  lemma IndexRangeIn(s: int, k: nat)
    requires k <= 15 && 2 * Pow2(k + 7) <= s < 4 * Pow2(k + 7) && Pow2(k + 8) == 2 * Pow2(k + 7)
    ensures InBin(s, 2 * k + (if s < 3 * Pow2(k + 7) then 0 else 1))
  {
    var w := Pow2(k + 7);
    var i := 2 * k + (if s < 3 * w then 0 else 1);
    assert i / 2 == k;
    if i == 31 { Pow2Values(); assert w == Pow2(22); }
    if i % 2 == 1 { assert (i + 1) / 2 == k + 1 && (i + 1) % 2 == 0; } else { assert (i + 1) / 2 == k; }
  }

  /** Bins are ordered by size. */
  lemma {:induction false} MinSizeMono(i: int, j: int)
    requires 0 <= i < j < NTREEBINS
    ensures MinSize(i) < MinSize(j)
    decreases j - i
  {
    if j == i + 1 {
      if i % 2 == 0 { assert j / 2 == i / 2 && j % 2 == 1; } else { assert j / 2 == i / 2 + 1 && j % 2 == 0; }
    } else {
      MinSizeMono(i, j - 1);
      MinSizeMono(j - 1, j);
    }
  }

  lemma IndexOrder(a: int, b: int)
    requires MIN_LARGE_SIZE <= a < SIZE_LIMIT && MIN_LARGE_SIZE <= b < SIZE_LIMIT
    requires TreeIndex(a) < TreeIndex(b)
    ensures a < b
  {
    hide TreeIndex;
    IndexRange(a);
    IndexRange(b);
    var i, j := TreeIndex(a), TreeIndex(b);
    if i + 1 < j { MinSizeMono(i + 1, j); }
  }

  /** nb << leftshift_for_tree_index(i), in 64 bits */
  function SizeBits(s: int, i: int): int
    requires 0 <= i < NTREEBINS
  {
    s * Pow2(64 - BinExp(i)) % TWO64
  }

  lemma SizeBitsStart(s: int)
    requires MIN_LARGE_SIZE <= s < SIZE_LIMIT
    ensures 0 <= TreeIndex(s) < NTREEBINS
    ensures var i := TreeIndex(s); SizeBits(s, i) == (s - BinLo(i)) * Pow2(64 - BinExp(i))
  {
    hide TreeIndex;
    IndexRange(s);
    var i := TreeIndex(s);
    if i < NTREEBINS - 1 {
      var e := BinExp(i);
      BinLoMultiple(i);
      Pow2Add(e, 64 - e);
      Pow2Values();
      ShiftOut(s, BinLo(i), Pow2(e), Pow2(64 - e), if i % 2 == 1 then 3 else 2);
    }
  }

  lemma BinLoMultiple(i: int)
    requires 0 <= i < NTREEBINS - 1
    ensures BinLo(i) == (if i % 2 == 1 then 3 else 2) * Pow2(BinExp(i))
  {
    assert Pow2(i / 2 + 8) == 2 * Pow2(i / 2 + 7);
  }

  lemma ShiftOut(s: int, lo: int, w: int, u: int, c: int)
    requires w * u == TWO64 && lo == c * w && lo <= s < lo + w && u > 0
    ensures s * u % TWO64 == (s - lo) * u
  {
    var d := s - lo;
    assert s * u == c * (w * u) + d * u by { assert lo * u == c * (w * u); }
    assert 0 <= d * u < w * u;
  }

  /** The top bit of K = (s - lo) << (64 - e) tells the halves of [lo, lo + 2^e) apart. */
  lemma SizeBitStep(s: int, lo: int, e: int, K: int)
    requires 0 < e <= 64 && lo <= s < lo + Pow2(e) && K == (s - lo) * Pow2(64 - e)
    ensures 0 <= K < TWO64
    ensures (K / TWO63 == 1) == (lo + Pow2(e - 1) <= s)
    ensures K / TWO63 == 0 || K / TWO63 == 1
    ensures 2 * K % TWO64 == (s - if lo + Pow2(e - 1) <= s then lo + Pow2(e - 1) else lo) * Pow2(64 - (e - 1))
  {
    Pow2Values();
    Pow2Add(e - 1, 64 - e);
    HalfStep(s - lo, Pow2(e - 1), Pow2(64 - e));
  }

  lemma HalfStep(d: int, h: int, u: int)
    requires u > 0 && 0 <= d < 2 * h && h * u == TWO63
    ensures 0 <= d * u < TWO64
    ensures (h <= d) == (TWO63 <= d * u)
    ensures 2 * (d * u) % TWO64 == (if h <= d then d - h else d) * (2 * u)
  {
    HalfProducts(d, h, u);
    var x := d * u;
    assert 2 * x % TWO64 == if TWO63 <= x then 2 * x - TWO64 else 2 * x;
  }

  lemma HalfProducts(d: int, h: int, u: int)
    requires u > 0 && 0 <= d < 2 * h
    ensures 0 <= d * u < 2 * (h * u)
    ensures (h <= d) == (h * u <= d * u)
    ensures d * (2 * u) == 2 * (d * u)
    ensures (d - h) * (2 * u) == 2 * (d * u) - 2 * (h * u)
  {
    assert d * u < (2 * h) * u;
    if h <= d { assert (d - h) * u >= 0; } else { assert (d - h) * u < 0; }
  }
}
