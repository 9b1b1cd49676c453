/** String buffers as byte queues: growable, compacting, and copy-on-write. */
module ByteQueue {

  type byte = x: int | 0 <= x < 256

  const MIN_SBUF := 32
  const MAX_BUF := 0x7fff_ff00
  const HALF_RANGE := 0x8000_0000
  const RANGE := 0x1_0000_0000

  // Doubling in 32 bits.

  function Wrap(x: nat): (r: nat)
    ensures r < RANGE && (x < RANGE ==> r == x)
  {
    x % RANGE
  }

  function Doubled(n: nat, k: nat): nat {
    if k == 0 then n else Wrap(2 * Doubled(n, k - 1))
  }

  /** The loop that doubles n comes to an end. */
  ghost predicate Ends(n: nat, sz: nat) {
    exists k: nat {:trigger Doubled(n, k)} :: Doubled(n, k) >= sz
  }

  /** It does so within k turns. */
  predicate EndsWithin(n: nat, sz: nat, k: nat)
    decreases k
  {
    n >= sz || (k > 0 && EndsWithin(Wrap(2 * n), sz, k - 1))
  }

  lemma {:induction false} DoubledFirst(n: nat, k: nat)
    ensures Doubled(Wrap(2 * n), k) == Doubled(n, k + 1)
  {
    if k > 0 { DoubledFirst(n, k - 1); }
  }

  lemma {:induction false} WithinIs(n: nat, sz: nat, k: nat)
    ensures EndsWithin(n, sz, k) <==> exists j: nat {:trigger Doubled(n, j)} :: j <= k && Doubled(n, j) >= sz
    decreases k
  {
    hide Wrap;
    assert Doubled(n, 0) == n;
    if n < sz && k > 0 {
      var m := Wrap(2 * n);
      WithinIs(m, sz, k - 1);
      forall j: nat ensures Doubled(m, j) == Doubled(n, j + 1) { DoubledFirst(n, j); }
      if j: nat :| j <= k && Doubled(n, j) >= sz {
        assert j > 0 && Doubled(m, j - 1) >= sz;
      }
      if EndsWithin(m, sz, k - 1) {
        var j: nat :| j <= k - 1 && Doubled(m, j) >= sz;
        assert Doubled(n, j + 1) >= sz;
      }
    }
  }

  function Pow(k: nat): (r: nat)
    ensures r > 0
  {
    if k == 0 then 1 else 2 * Pow(k - 1)
  }

  lemma TwiceWrap(x: nat)
    ensures Wrap(2 * Wrap(x)) == Wrap(2 * x)
  {
    var q, r := x / RANGE, x % RANGE;
    assert 2 * x == RANGE * (2 * q) + 2 * r;
    WrapShift(2 * r, 2 * q);
  }

  lemma WrapShift(r: nat, q: nat)
    ensures Wrap(RANGE * q + r) == Wrap(r)
  {
  }

  lemma TwicePow(n: nat, k: nat)
    requires k > 0
    ensures 2 * (n * Pow(k - 1)) == n * Pow(k)
  {
  }

  /** n after k doublings. */
  function Shifted(n: nat, k: nat): nat { Wrap(n * Pow(k)) }

  lemma {:induction false} DoubledIs(n: nat, k: nat)
    requires n < RANGE
    ensures Doubled(n, k) == Shifted(n, k)
  {
    hide Wrap;
    if k > 0 {
      DoubledIs(n, k - 1);
      TwiceWrap(n * Pow(k - 1));
      TwicePow(n, k);
    } else {
      assert n * Pow(0) == n;
    }
  }

  lemma Powers()
    ensures Pow(4) == 16 && Pow(8) == 256 && Pow(16) == 0x1_0000 && Pow(31) == HALF_RANGE && Pow(32) == RANGE
  {
    assert Pow(12) == 0x1000 && Pow(16) == 0x1_0000 && Pow(20) == 0x10_0000 && Pow(24) == 0x100_0000
           && Pow(28) == 0x1000_0000;
  }

  lemma {:induction false} PowAdd(a: nat, b: nat)
    ensures Pow(a) * Pow(b) == Pow(a + b)
  {
    if a > 0 {
      PowAdd(a - 1, b);
      assert Pow(a) * Pow(b) == 2 * (Pow(a - 1) * Pow(b));
    }
  }

  /** After 32 turns nothing is left of n. */
  lemma Vanishes(n: nat, k: nat)
    requires n < RANGE && k >= 32
    ensures Doubled(n, k) == 0
  {
    DoubledIs(n, k);
    PowAdd(32, k - 32);
    Powers();
    hide Pow, Wrap;
    Shuffled(n, Pow(k - 32));
    WrapShift(0, n * Pow(k - 32));
  }

  lemma Shuffled(n: nat, p: nat)
    ensures n * (RANGE * p) == RANGE * (n * p)
  {
  }

  /** So whether the loop ends can be told by looking at 32 sizes. */
  lemma EndsExactly(n: nat, sz: nat)
    requires n < RANGE && sz > 0
    ensures Ends(n, sz) <==> EndsWithin(n, sz, 31)
  {
    WithinIs(n, sz, 31);
    if Ends(n, sz) {
      var k :| Doubled(n, k) >= sz;
      if k >= 32 { Vanishes(n, k); }
    }
  }

  /** Requests of at most 2^31 bytes are always met, with less than twice as much. */
  lemma {:induction false} Reaches(n: nat, sz: nat, k: nat)
    requires sz <= HALF_RANGE && 0 < n < RANGE && k < 32
    requires n >= sz || (k > 0 && HALF_RANGE <= n * Pow(k))
    ensures EndsWithin(n, sz, k)
    decreases k
  {
    if n < sz {
      assert n * Pow(k) == 2 * n * Pow(k - 1);
      assert k == 1 ==> Pow(k - 1) == 1;
      Reaches(2 * n, sz, k - 1);
    }
  }

  lemma EndsBelow(n: nat, sz: nat)
    requires sz <= HALF_RANGE && 0 < n < RANGE
    ensures EndsWithin(n, sz, 31) && Ends(n, sz)
  {
    Powers();
    assert n * Pow(31) >= Pow(31);
    Reaches(n, sz, 31);
    WithinIs(n, sz, 31);
  }

  function Least(size: nat): nat { if size < MIN_SBUF then MIN_SBUF else size }

  /** Doubling a size, at least the least size, until sz fits. */
  method GrownSize(osz: nat, sz: nat) returns (nsz: nat)
    requires osz < RANGE && sz < RANGE && Ends(Least(osz), sz)
    ensures sz <= nsz < RANGE && nsz >= 32
    ensures exists k: nat {:trigger Doubled(Least(osz), k)} ::
      nsz == Doubled(Least(osz), k) && forall j: nat :: j < k ==> Doubled(Least(osz), j) < sz
    ensures sz <= HALF_RANGE ==> nsz == Least(osz) || nsz < 2 * sz
  {
    nsz := osz;
    if nsz < MIN_SBUF { nsz := MIN_SBUF; }
    ghost var n, k, end: nat := nsz, 0, 0;
    end :| Doubled(n, end) >= sz;
    while nsz < sz
      invariant 0 <= k <= end && nsz == Doubled(n, k) < RANGE && forall j: nat :: j < k ==> Doubled(n, j) < sz
      invariant sz <= HALF_RANGE ==> nsz == n || nsz < 2 * sz
      decreases end - k
    {
      assert k < end;
      nsz := Wrap(nsz + nsz);
      k := k + 1;
    }
  }

  // More room.

  /** lj_buf_more2 asks for a buffer of w + sz bytes: little has been read, or the bytes are borrowed. */
  predicate GrowsAll(size: nat, r: nat, w: nat, sz: nat, cow: bool)
    requires r <= w <= size
  {
    && sz > size - w && w - r + sz <= MAX_BUF && w - r + sz <= size && (cow || r < size / 8)
  }

  /** It asks, and doubling never gets there. */
  predicate Hangs(size: nat, r: nat, w: nat, sz: nat, cow: bool)
    requires r <= w <= size
  {
    GrowsAll(size, r, w, sz, cow) && !EndsWithin(Least(size), w + sz, 31)
  }

  lemma OnceMore(n: nat, sz: nat)
    requires n < HALF_RANGE && sz <= 2 * n
    ensures EndsWithin(n, sz, 31)
  {
    assert EndsWithin(Wrap(2 * n), sz, 30);
  }

  /**
   * Making room fails to end exactly for buffers of 2^31 bytes or more that own their bytes, of which less than an
   * eighth has been read, when neither the room behind nor any of the next 31 doublings is enough.
   */
  lemma HangsExactly(size: nat, r: nat, w: nat, sz: nat, cow: bool)
    requires r <= w <= size < RANGE && (cow ==> w == size <= MAX_BUF)
    ensures Hangs(size, r, w, sz, cow) <==>
              && !cow && size >= HALF_RANGE && r < size / 8 && sz > size - w && w - r + sz <= MAX_BUF
              && forall k: nat {:trigger Shifted(size, k)} :: 1 <= k < 32 ==> Shifted(size, k) < w + sz
    ensures Hangs(size, r, w, sz, cow) ==>
      w + sz < RANGE && forall k: nat {:trigger Doubled(Least(size), k)} :: Doubled(Least(size), k) < w + sz
  {
    if GrowsAll(size, r, w, sz, cow) {
      if size < HALF_RANGE {
        if size < MIN_SBUF { EndsBelow(Least(size), w + sz); } else { OnceMore(size, w + sz); }
      } else {
        EndsExactly(size, w + sz);
        LaterSizes(size, w + sz);
      }
    }
  }

  lemma LaterSizes(size: nat, sz: nat)
    requires HALF_RANGE <= size < RANGE && size < sz
    ensures EndsWithin(size, sz, 31) <==> exists k: nat {:trigger Shifted(size, k)} ::
      1 <= k < 32 && Shifted(size, k) >= sz
  {
    WithinIs(size, sz, 31);
    assert Doubled(size, 0) == size;
    hide Shifted, Doubled, EndsWithin;
    if EndsWithin(size, sz, 31) {
      var k: nat :| k <= 31 && Doubled(size, k) >= sz;
      DoubledIs(size, k);
      assert 1 <= k < 32 && Shifted(size, k) >= sz;
    } else {
      forall k: nat {:trigger Shifted(size, k)} | 1 <= k < 32 ensures Shifted(size, k) < sz { DoubledIs(size, k); }
    }
  }

  lemma {:induction false} PowRises(i: nat, j: nat)
    requires i < j
    ensures 2 * Pow(i) <= Pow(j)
  {
    if i + 1 < j { PowRises(i, j - 1); }
  }

  lemma HalfVanishes(k: nat)
    requires k > 0
    ensures Shifted(HALF_RANGE, k) == 0
  {
    assert HALF_RANGE * Pow(k) == RANGE * Pow(k - 1);
    WrapShift(0, Pow(k - 1));
  }

  /** A buffer that never borrowed bytes has a power of two as its size: then only those of 2^31 bytes are in danger. */
  lemma HangsOwned(e: nat, r: nat, w: nat, sz: nat)
    requires e <= 31 && r <= w <= Pow(e)
    ensures Hangs(Pow(e), r, w, sz, false) <==>
              e == 31 && r < HALF_RANGE / 8 && sz > HALF_RANGE - w && w - r + sz <= MAX_BUF
  {
    Powers();
    if e < 31 { PowRises(e, 31); }
    HangsExactly(Pow(e), r, w, sz, false);
    if e == 31 {
      forall k: nat | 1 <= k < 32 ensures Shifted(HALF_RANGE, k) == 0 { HalfVanishes(k); }
    }
  }

  /** A request that the size limit accepts and that never ends. */
  lemma HangExample()
    ensures Hangs(HALF_RANGE, 512, HALF_RANGE - 600, 856, false) && HALF_RANGE - 600 - 512 + 856 == MAX_BUF
  {
    Powers();
    HangsOwned(31, 512, HALF_RANGE - 600, 856);
  }

  /** Other sizes may meet requests beyond 2^31 bytes, and after a quarter has been read bytes are only moved down. */
  lemma NoHangExamples()
    ensures EndsWithin(0x6000_0000, 0xB000_0000, 31) && !Hangs(HALF_RANGE, 0x4000_0000, HALF_RANGE - 10, 100, false)
  {
    OnceMore(0x6000_0000, 0xB000_0000);
  }

  /** A size that a buffer may have after put bytes were asked for, when it held q; str is the length of a borrowed
      string. */
  predicate Sized(size: nat, was: nat, q: nat, put: nat, str: nat) {
    size <= was || size <= MIN_SBUF || put + str + q + was / 8 > HALF_RANGE || size < 2 * (put + str)
        || size < 2 * (put + q + was / 8)
  }

  lemma SizedSame(was: nat, q: nat, put: nat, str: nat)
    ensures Sized(was, was, q, put, str)
  {
  }

  lemma SizedGrown(size: nat, was: nat, q: nat, put: nat, str: nat, asked: nat)
    requires asked <= HALF_RANGE ==> size == MIN_SBUF || size < 2 * asked
    requires asked == q + put || (asked <= put + str) || asked <= q + was / 8 + put
    ensures Sized(size, was, q, put, str)
  {
  }

  /** The bytes b[r..w] wait to be read; b may be somebody else's string, which is then only read. */
  class SBufExt {
    var b: array<byte>
    var r: nat
    var w: nat
    var cow: bool

    ghost predicate Valid()
      reads this
    {
      r <= w <= b.Length < RANGE && (cow ==> w == b.Length <= MAX_BUF)
    }

    ghost function Contents(): seq<byte>
      requires Valid()
      reads this, b
    {
      b[r..w]
    }

    /** What an operation may write besides the buffer's own fields. */
    ghost function Own(): set<object>
      reads this
    {
      if cow then {} else {b}
    }

    constructor ()
      ensures Valid() && Contents() == [] && !cow && fresh(b) && b.Length == 0
    {
      b := new byte[0];
      r, w, cow := 0, 0, false;
    }

    /** Makes a string the contents, without copying it. */
    method Set(str: array<byte>)
      requires str.Length <= MAX_BUF
      modifies this
      ensures Valid() && Contents() == str[..] && cow && b == str
    {
      b, r, w, cow := str, 0, str.Length, true;
    }

    method Reset()
      requires Valid()
      modifies this
      ensures Valid() && Contents() == [] && !cow && (if old(cow) then fresh(b) && b.Length == 0 else b == old(b))
    {
      if cow {
        cow := false;
        b := new byte[0];
      }
      r, w := 0, 0;
    }

    /** More memory, with the bytes where they were; a string is copied. */
    method Grow(sz: nat)
      requires Valid() && b.Length < sz < RANGE && Ends(Least(b.Length), sz)
      modifies this
      ensures sz <= HALF_RANGE ==> b.Length == MIN_SBUF || b.Length < 2 * sz
      ensures Valid() && b.Length >= sz && fresh(b) && !cow && r == old(r) && w == old(w)
              && Contents() == old(Contents())
    {
      var nsz := GrownSize(b.Length, sz);
      var n := new byte[nsz];
      forall i | 0 <= i < b.Length { n[i] := b[i]; }
      assert n[r..w] == b[r..w];
      b, cow := n, false;
    }

    /** Room for sz more bytes: grows, or moves the bytes down where enough have been read. */
    method More(sz: nat) returns (ok: bool)
      requires Valid() && !Hangs(b.Length, r, w, sz, cow)
      modifies this, Own()
      ensures Valid() && Contents() == old(Contents()) && w - r == old(w - r)
      ensures ok ==> w + sz <= b.Length && (sz > 0 ==> !cow)
      ensures ok && sz > old(b.Length - w) ==>
        (b == old(b) <==> old(!cow && r >= b.Length / 8 && w - r + sz <= b.Length))
      ensures !ok <==> sz > old(b.Length - w) && old(w - r) + sz > MAX_BUF
      ensures Sized(b.Length, old(b.Length), old(w - r), sz, old(if cow then w else 0))
      ensures (b == old(b) && cow == old(cow)) || (fresh(b) && !cow)
      ensures old(cow) ==> old(b)[..] == old(b[..])
    {
      hide EndsWithin, Sized;
      ok := true;
      SizedSame(b.Length, w - r, sz, if cow then w else 0);
      if sz <= b.Length - w { return; }
      var len := w - r;
      if sz > MAX_BUF || len + sz > MAX_BUF { return false; }
      if len + sz <= b.Length && !(cow || r < b.Length / 8) {
        Compact();
        return;
      }
      MakeRoom(sz);
    }

    /** The growing part of More. */
    method MakeRoom(sz: nat)
      requires Valid() && !Hangs(b.Length, r, w, sz, cow) && sz > b.Length - w && w - r + sz <= MAX_BUF
      requires w - r + sz > b.Length || cow || r < b.Length / 8
      modifies this, Own()
      ensures Valid() && Contents() == old(Contents()) && w - r == old(w - r) && w + sz <= b.Length && fresh(b) && !cow
      ensures Sized(b.Length, old(b.Length), old(w - r), sz, old(if cow then w else 0))
      ensures old(cow) ==> old(b)[..] == old(b[..])
    {
      hide EndsWithin, Sized;
      var len := w - r;
      if len + sz > b.Length {
        EndsBelow(Least(b.Length), len + sz);
        ghost var was, str := b.Length, if cow then w else 0;
        Grow(len + sz);
        SizedGrown(b.Length, was, len, sz, str, len + sz);
      } else {
        EndsExactly(Least(b.Length), w + sz);
        ghost var was, str, all := b.Length, if cow then w else 0, w + sz;
        Grow(w + sz);
        SizedGrown(b.Length, was, len, sz, str, all);
        return;
      }
      if r != 0 { Compact(); }
    }

    /** The bytes still to be read, moved down. */
    method Compact()
      requires Valid() && !cow
      modifies this, b
      ensures Valid() && Contents() == old(Contents()) && b == old(b) && !cow && r == 0 && w == old(w - r)
    {
      ghost var s := Contents();
      forall i | 0 <= i < w - r { b[i] := b[r + i]; }
      assert b[0..w - r] == s;
      r, w := 0, w - r;
    }

    /** Bytes written to the room behind the contents, as far as there is any; they are not contents yet. */
    method Fill(s: seq<byte>)
      requires Valid() && (cow ==> w == b.Length)
      modifies Own()
      ensures Contents() == old(Contents()) && (|s| <= b.Length - w ==> b[w..w + |s|] == s)
      ensures old(cow) ==> b[..] == old(b[..])
    {
      var n := if |s| <= b.Length - w then |s| else b.Length - w;
      if n > 0 {
        forall i | 0 <= i < n { b[w + i] := s[i]; }
      }
    }

    method Put(s: seq<byte>) returns (ok: bool)
      requires Valid() && !Hangs(b.Length, r, w, |s|, cow)
      modifies this, Own()
      ensures Valid() && Contents() == if ok then old(Contents()) + s else old(Contents())
      ensures w - r == old(w - r) + if ok then |s| else 0
      ensures !ok <==> |s| > old(b.Length - w) && old(w - r) + |s| > MAX_BUF
      ensures Sized(b.Length, old(b.Length), old(w - r), |s|, old(if cow then w else 0))
      ensures (b == old(b) && cow == old(cow)) || (fresh(b) && !cow)
      ensures old(cow) ==> old(b)[..] == old(b[..])
    {
      ok := More(|s|);
      if !ok || |s| == 0 { return; }
      ghost var c := Contents();
      forall i | 0 <= i < |s| { b[w + i] := s[i]; }
      w := w + |s|;
      assert b[r..w] == c + s;
    }

    /** Another buffer's contents; its own are refused. */
    method PutBuffer(o: SBufExt) returns (ok: bool)
      requires Valid() && o.Valid() && (o != this ==> (o.b != b || cow) && !Hangs(b.Length, r, w, o.w - o.r, cow))
      modifies this, Own()
      ensures Valid() && Contents() == if ok then old(Contents()) + old(o.Contents()) else old(Contents())
      ensures w - r == old(w - r) + if ok then old(o.w - o.r) else 0
      ensures o == this ==> b == old(b) && r == old(r) && w == old(w)
      ensures !ok <==> o == this || (old(o.w - o.r) > old(b.Length - w) && old(w - r) + old(o.w - o.r) > MAX_BUF)
      ensures Sized(b.Length, old(b.Length), old(w - r), old(o.w - o.r), old(if cow then w else 0))
      ensures (b == old(b) && cow == old(cow)) || (fresh(b) && !cow)
      ensures old(cow) ==> old(b)[..] == old(b[..])
    {
      if o == this { return false; }
      ok := Put(o.b[o.r..o.w]);
    }

    /** The first n bytes, or all there are. */
    method Get(n: nat) returns (s: seq<byte>)
      requires Valid()
      modifies this
      ensures Valid() && old(Contents()) == s + Contents() && |s| == (if n < old(w - r) then n else old(w - r))
              && b == old(b) && cow == old(cow)
    {
      var k := if n < w - r then n else w - r;
      s := b[r..r + k];
      assert b[r..w] == s + b[r + k..w];
      r := r + k;
      if r == w && !cow { r, w := 0, 0; }
    }

    method Skip(n: nat)
      requires Valid()
      modifies this
      ensures Valid() && Contents() == old(Contents())[if n < old(w - r) then n else old(w - r)..] && b == old(b)
              && cow == old(cow)
    {
      if n < w - r { r := r + n; }
      else if cow { r := w; }
      else { r, w := 0, 0; }
    }

    /** Bytes that the caller has written to the reserved room become contents; more than the room is refused. */
    method Commit(len: nat) returns (ok: bool)
      requires Valid()
      modifies this
      ensures Valid() && (ok <==> len <= old(b.Length - w)) && b == old(b) && cow == old(cow)
      ensures ok ==> Contents() == old(Contents()) + old(b[w..])[..len]
      ensures r == old(r) && w == old(w) + if ok then len else 0
      ensures !ok ==> Contents() == old(Contents())
    {
      ok := len <= b.Length - w;
      if ok {
        assert b[r..w + len] == b[r..w] + b[w..][..len];
        w := w + len;
      }
    }

    /** reserve, writing to the room, and commit. */
    method Reserve(sz: nat, s: seq<byte>) returns (ok: bool)
      requires Valid() && !Hangs(b.Length, r, w, sz, cow)
      modifies this, Own()
      ensures Valid() && Contents() == if ok then old(Contents()) + s else old(Contents())
      ensures w - r == old(w - r) + if ok then |s| else 0
      ensures |s| <= sz && !(sz > old(b.Length - w) && old(w - r) + sz > MAX_BUF) ==> ok
      ensures Sized(b.Length, old(b.Length), old(w - r), sz, old(if cow then w else 0))
      ensures (b == old(b) && cow == old(cow)) || (fresh(b) && !cow)
      ensures old(cow) ==> old(b)[..] == old(b[..])
    {
      hide Sized, EndsWithin;
      ok := More(sz);
      if ok { ok := FillAndCommit(s); }
    }

    method FillAndCommit(s: seq<byte>) returns (ok: bool)
      requires Valid()
      modifies this, Own()
      ensures Valid() && (ok <==> |s| <= old(b.Length - w)) && b == old(b) && cow == old(cow)
      ensures Contents() == if ok then old(Contents()) + s else old(Contents())
      ensures r == old(r) && w == old(w) + if ok then |s| else 0
      ensures old(cow) ==> b[..] == old(b[..])
    {
      Fill(s);
      ghost var room := b[w..];
      assert |s| <= b.Length - w ==> room[..|s|] == s;
      ok := Commit(|s|);
    }
  }

  // Any mix of operations on two buffers.

  datatype Op =
    | Put(s: seq<byte>) | PutBuffer(self: bool) | Reserve(sz: nat, s: seq<byte>)
    | Get(n: nat) | Skip(n: nat) | Set | Reset

  datatype Cmd = Cmd(first: bool, op: Op)

  datatype Queues = Queues(a: seq<byte>, b: seq<byte>)

  function Side(q: Queues, first: bool): seq<byte> { if first then q.a else q.b }

  function With(q: Queues, first: bool, s: seq<byte>): Queues { if first then q.(a := s) else q.(b := s) }

  function Least2(m: nat, n: nat): nat { if m < n then m else n }

  /** What an operation does to a queue; other is the other queue, src the string that Set installs. */
  function Step(q: seq<byte>, other: seq<byte>, op: Op, src: seq<byte>, ok: bool): seq<byte> {
    match op
    case Put(s) => if ok then q + s else q
    case PutBuffer(self) => if ok then q + other else q
    case Reserve(_, s) => if ok then q + s else q
    case Get(n) => q[Least2(n, |q|)..]
    case Skip(n) => q[Least2(n, |q|)..]
    case Set => src
    case Reset => []
  }

  function Taken(q: seq<byte>, op: Op): seq<byte> {
    if op.Get? then q[..Least2(op.n, |q|)] else []
  }

  function Added(other: seq<byte>, op: Op, ok: bool): seq<byte> {
    if !ok then [] else if op.Put? || op.Reserve? then op.s else if op.PutBuffer? then other else []
  }

  /** Both queues after the commands; oks tells which puts were taken. */
  function Replay(cmds: seq<Cmd>, src: seq<byte>, oks: seq<bool>): Queues
    requires |oks| == |cmds|
  {
    if cmds == [] then Queues([], [])
    else
      var n := |cmds| - 1;
      var q, c := Replay(cmds[..n], src, oks[..n]), cmds[n];
      With(q, c.first, Step(Side(q, c.first), Side(q, !c.first), c.op, src, oks[n]))
  }

  /** All bytes that were got from a buffer, in order. */
  function Read(cmds: seq<Cmd>, src: seq<byte>, oks: seq<bool>, first: bool): seq<byte>
    requires |oks| == |cmds|
  {
    if cmds == [] then []
    else
      var n := |cmds| - 1;
      var q, c := Replay(cmds[..n], src, oks[..n]), cmds[n];
      Read(cmds[..n], src, oks[..n], first) + if c.first == first then Taken(Side(q, first), c.op) else []
  }

  /** All bytes that were put to it. */
  function Written(cmds: seq<Cmd>, src: seq<byte>, oks: seq<bool>, first: bool): seq<byte>
    requires |oks| == |cmds|
  {
    if cmds == [] then []
    else
      var n := |cmds| - 1;
      var q, c := Replay(cmds[..n], src, oks[..n]), cmds[n];
      Written(cmds[..n], src, oks[..n], first) + if c.first == first then Added(Side(q, !first), c.op, oks[n]) else []
  }

  predicate Moves(op: Op) { op.Put? || op.PutBuffer? || op.Reserve? || op.Get? }

  lemma StepConserves(q: seq<byte>, other: seq<byte>, op: Op, src: seq<byte>, ok: bool)
    requires Moves(op)
    ensures Taken(q, op) + Step(q, other, op, src, ok) == q + Added(other, op, ok)
  {
  }

  lemma Regroup(a: seq<byte>, t: seq<byte>, q: seq<byte>, u: seq<byte>, w: seq<byte>, p: seq<byte>)
    requires a + q == w && t + u == q + p
    ensures (a + t) + u == w + p
  {
    assert (a + t) + u == a + (t + u) && a + (q + p) == (a + q) + p;
  }

  /**
   * As long as a buffer's bytes are only put, committed and got, those read from it and those that remain are those
   * written to it, in order, whatever happens to the other buffer that some of them come from.
   */
  lemma {:induction false} Conserved(cmds: seq<Cmd>, src: seq<byte>, oks: seq<bool>, first: bool)
    requires |oks| == |cmds| && forall k {:trigger cmds[k]} :: 0 <= k < |cmds| && cmds[k].first == first ==>
      Moves(cmds[k].op)
    ensures Read(cmds, src, oks, first) + Side(Replay(cmds, src, oks), first) == Written(cmds, src, oks, first)
    decreases |cmds|
  {
    if cmds != [] {
      var n := |cmds| - 1;
      Conserved(cmds[..n], src, oks[..n], first);
      var q, c := Replay(cmds[..n], src, oks[..n]), cmds[n];
      var r, w := Read(cmds[..n], src, oks[..n], first), Written(cmds[..n], src, oks[..n], first);
      if c.first == first {
        StepConserves(Side(q, first), Side(q, !first), c.op, src, oks[n]);
        hide Step, Taken, Added, Moves;
        Regroup(r, Taken(Side(q, first), c.op), Side(q, first), Side(Replay(cmds, src, oks), first), w,
                Added(Side(q, !first), c.op, oks[n]));
      } else {
        hide Step, Taken, Added, Moves;
        assert r + [] == r && w + [] == w;
      }
    }
  }

  /** How much an operation asks for. */
  function Asks(other: nat, op: Op): nat {
    match op
    case Put(s) => |s|
    case PutBuffer(self) => if self then 0 else other
    case Reserve(sz, s) => if sz < |s| then |s| else sz
    case _ => 0
  }

  function Total(cmds: seq<Cmd>, src: seq<byte>, oks: seq<bool>): nat
    requires |oks| == |cmds|
  {
    if cmds == [] then 0
    else
      var n := |cmds| - 1;
      Total(cmds[..n], src, oks[..n]) + Asks(|Side(Replay(cmds[..n], src, oks[..n]), !cmds[n].first)|, cmds[n].op)
  }

  lemma Snoc(cmds: seq<Cmd>, c: Cmd, src: seq<byte>, oks: seq<bool>, ok: bool)
    requires |oks| == |cmds|
    ensures var q := Replay(cmds, src, oks);
            && Replay(cmds + [c], src, oks + [ok]) == With(q, c.first,
                                                           Step(Side(q, c.first), Side(q, !c.first), c.op, src, ok))
            && Read(cmds + [c], src, oks + [ok], c.first) == Read(cmds, src, oks, c.first) + Taken(Side(q, c.first),
                  c.op)
            && Read(cmds + [c], src, oks + [ok], !c.first) == Read(cmds, src, oks, !c.first)
            && Total(cmds + [c], src, oks + [ok]) == Total(cmds, src, oks) + Asks(|Side(q, !c.first)|, c.op)
  {
    hide Step, Taken, Asks;
    assert (cmds + [c])[..|cmds|] == cmds && (oks + [ok])[..|cmds|] == oks;
  }

  /** The request for room that the operation makes would not end. */
  predicate Stops(size: nat, r: nat, w: nat, cow: bool, other: nat, op: Op)
    requires r <= w <= size
  {
    match op
    case Put(s) => Hangs(size, r, w, |s|, cow)
    case PutBuffer(self) => !self && Hangs(size, r, w, other, cow)
    case Reserve(sz, _) => Hangs(size, r, w, sz, cow)
    case _ => false
  }

  /** Which operations must be taken. */
  predicate Welcome(op: Op) {
    (op.PutBuffer? ==> !op.self) && (op.Reserve? ==> |op.s| <= op.sz)
  }

  predicate TooBig(size: nat, q: nat, put: nat) {
    size + put > HALF_RANGE || q + put > MAX_BUF
  }

  /** What put bytes make of a buffer that held q bytes: its new size and what it then holds, now. */
  predicate Grown(size: nat, now: nat, was: nat, q: nat, put: nat, src: nat) {
    (size <= src || Sized(size, was, q, put, src)) && (now <= q + put || now <= src)
  }

  /** Two buffers: they share no memory but the string, which neither of them writes. */
  ghost predicate Two(x: SBufExt, y: SBufExt, src: array<byte>)
    reads x, y
  {
    && x != y && x.Valid() && y.Valid() && (x.cow <==> x.b == src) && (y.cow <==> y.b == src)
    && (x.b == y.b ==> x.cow && y.cow)
    && src.Length <= MAX_BUF
  }

  lemma GrownBy(size: nat, now: nat, was: nat, q: nat, put: nat, str: nat, asks: nat, src: nat)
    requires Sized(size, was, q, put, str) && put <= asks && str <= src && now <= q + asks
    ensures Grown(size, now, was, q, asks, src)
  {
  }

  lemma NotGrown(size: nat, now: nat, was: nat, q: nat, asks: nat, src: nat)
    requires (size <= was || size <= src) && (now <= q || now <= src)
    ensures Grown(size, now, was, q, asks, src)
  {
  }

  /** One operation on x, as on a queue. */
  method Perform(x: SBufExt, y: SBufExt, op: Op, src: array<byte>) returns (ok: bool, s: seq<byte>)
    requires Two(x, y, src) && !Stops(x.b.Length, x.r, x.w, x.cow, y.w - y.r, op)
    modifies x, x.Own()
    ensures Two(x, y, src) && x.Contents() == Step(old(x.Contents()), old(y.Contents()), op, src[..], ok)
            && s == Taken(old(x.Contents()), op)
    ensures y.Contents() == old(y.Contents()) && src[..] == old(src[..])
            && (x.b == old(x.b) || x.b == src || fresh(x.b))
    ensures !ok ==> !Welcome(op) || TooBig(old(x.b.Length), old(x.w - x.r), Asks(old(y.w - y.r), op))
    ensures Grown(x.b.Length, x.w - x.r, old(x.b.Length), old(x.w - x.r), Asks(old(y.w - y.r), op), src.Length)
  {
    hide Hangs, Sized, Grown, Step, Taken, Asks, Stops, TooBig, Welcome;
    if op.Put? || op.PutBuffer? || op.Reserve? {
      ok, s := PerformPut(x, y, op, src);
    } else {
      ok, s := PerformOther(x, y, op, src);
    }
  }

  method PerformPut(x: SBufExt, y: SBufExt, op: Op, src: array<byte>) returns (ok: bool, s: seq<byte>)
    requires op.Put? || op.PutBuffer? || op.Reserve?
    requires Two(x, y, src) && !Stops(x.b.Length, x.r, x.w, x.cow, y.w - y.r, op)
    modifies x, x.Own()
    ensures Two(x, y, src) && x.Contents() == Step(old(x.Contents()), old(y.Contents()), op, src[..], ok)
            && s == Taken(old(x.Contents()), op)
    ensures y.Contents() == old(y.Contents()) && src[..] == old(src[..])
            && (x.b == old(x.b) || x.b == src || fresh(x.b))
    ensures !ok ==> !Welcome(op) || TooBig(old(x.b.Length), old(x.w - x.r), Asks(old(y.w - y.r), op))
    ensures Grown(x.b.Length, x.w - x.r, old(x.b.Length), old(x.w - x.r), Asks(old(y.w - y.r), op), src.Length)
  {
    hide Hangs, Sized, Grown;
    s := [];
    ghost var was, q, str, asks := x.b.Length, x.w - x.r, if x.cow then x.w else 0, Asks(y.w - y.r, op);
    match op {
      case Put(t) =>
        ok := PutOne(x, y, t, src);
        GrownBy(x.b.Length, x.w - x.r, was, q, |t|, str, asks, src.Length);
      case PutBuffer(self) =>
        ok := PutOther(x, y, self, src);
        GrownBy(x.b.Length, x.w - x.r, was, q, asks, str, asks, src.Length);
      case Reserve(sz, t) =>
        ok := ReserveOne(x, y, sz, t, src);
        GrownBy(x.b.Length, x.w - x.r, was, q, sz, str, asks, src.Length);
    }
  }

  method PerformOther(x: SBufExt, y: SBufExt, op: Op, src: array<byte>) returns (ok: bool, s: seq<byte>)
    requires !op.Put? && !op.PutBuffer? && !op.Reserve?
    requires Two(x, y, src) && !Stops(x.b.Length, x.r, x.w, x.cow, y.w - y.r, op)
    modifies x, x.Own()
    ensures Two(x, y, src) && x.Contents() == Step(old(x.Contents()), old(y.Contents()), op, src[..], ok)
            && s == Taken(old(x.Contents()), op)
    ensures y.Contents() == old(y.Contents()) && src[..] == old(src[..])
            && (x.b == old(x.b) || x.b == src || fresh(x.b))
    ensures !ok ==> !Welcome(op) || TooBig(old(x.b.Length), old(x.w - x.r), Asks(old(y.w - y.r), op))
    ensures Grown(x.b.Length, x.w - x.r, old(x.b.Length), old(x.w - x.r), Asks(old(y.w - y.r), op), src.Length)
  {
    hide Hangs, Sized, Grown;
    ok, s := true, [];
    ghost var was, q, asks := x.b.Length, x.w - x.r, Asks(y.w - y.r, op);
    match op {
      case Get(n) =>
        ghost var c := x.Contents();
        s := x.Get(n);
        assert s == c[..Least2(n, |c|)] && x.Contents() == c[Least2(n, |c|)..];
      case Skip(n) => x.Skip(n);
      case Set => x.Set(src);
      case Reset => x.Reset();
    }
    assert |x.Contents()| == x.w - x.r;
    hide Step, Taken, Asks;
    NotGrown(x.b.Length, x.w - x.r, was, q, asks, src.Length);
  }

  method PutOne(x: SBufExt, y: SBufExt, t: seq<byte>, src: array<byte>) returns (ok: bool)
    requires Two(x, y, src) && !Hangs(x.b.Length, x.r, x.w, |t|, x.cow)
    modifies x, x.Own()
    ensures Two(x, y, src) && x.Contents() == if ok then old(x.Contents()) + t else old(x.Contents())
    ensures y.Contents() == old(y.Contents()) && src[..] == old(src[..]) && (x.b == old(x.b) || fresh(x.b))
    ensures x.w - x.r == old(x.w - x.r) + if ok then |t| else 0
    ensures !ok ==> TooBig(old(x.b.Length), old(x.w - x.r), |t|)
    ensures Sized(x.b.Length, old(x.b.Length), old(x.w - x.r), |t|, old(if x.cow then x.w else 0))
  {
    hide Hangs, Sized;
    ok := x.Put(t);
  }

  method ReserveOne(x: SBufExt, y: SBufExt, sz: nat, t: seq<byte>, src: array<byte>) returns (ok: bool)
    requires Two(x, y, src) && !Hangs(x.b.Length, x.r, x.w, sz, x.cow)
    modifies x, x.Own()
    ensures Two(x, y, src) && x.Contents() == if ok then old(x.Contents()) + t else old(x.Contents())
    ensures y.Contents() == old(y.Contents()) && src[..] == old(src[..]) && (x.b == old(x.b) || fresh(x.b))
    ensures x.w - x.r == old(x.w - x.r) + if ok then |t| else 0
    ensures !ok ==> |t| > sz || TooBig(old(x.b.Length), old(x.w - x.r), sz)
    ensures Sized(x.b.Length, old(x.b.Length), old(x.w - x.r), sz, old(if x.cow then x.w else 0))
    ensures x.w - x.r <= old(x.w - x.r) + if sz < |t| then |t| else sz
  {
    hide Hangs, Sized;
    ok := x.Reserve(sz, t);
  }

  method PutOther(x: SBufExt, y: SBufExt, self: bool, src: array<byte>) returns (ok: bool)
    requires Two(x, y, src) && (!self ==> !Hangs(x.b.Length, x.r, x.w, y.w - y.r, x.cow))
    modifies x, x.Own()
    ensures Two(x, y, src) && x.Contents() == if ok then old(x.Contents()) + old(y.Contents()) else old(x.Contents())
    ensures y.Contents() == old(y.Contents()) && src[..] == old(src[..]) && (x.b == old(x.b) || fresh(x.b))
    ensures x.w - x.r == old(x.w - x.r) + if ok then old(y.w - y.r) else 0
    ensures self ==> !ok
    ensures !ok ==> self || TooBig(old(x.b.Length), old(x.w - x.r), old(y.w - y.r))
    ensures Sized(x.b.Length, old(x.b.Length), old(x.w - x.r), if self then 0
                  else old(y.w - y.r), old(if x.cow then x.w else 0))
  {
    hide Hangs, Sized;
    if self {
      SizedSame(x.b.Length, x.w - x.r, 0, if x.cow then x.w else 0);
      ok := false;
      var taken := x.PutBuffer(x);
    } else {
      ok := x.PutBuffer(y);
    }
  }

  /** A buffer stays within four times the bytes that came in, last, as long as those are no more than 2^28. */
  predicate Roomy(size: nat, q: nat, last: nat) {
    q <= last && (last <= HALF_RANGE / 8 ==> size <= 4 * last + MIN_SBUF)
  }

  lemma StaysRoomy(size: nat, now: nat, was: nat, q: nat, asks: nat, src: nat, last: nat)
    requires Roomy(was, q, last) && Grown(size, now, was, q, asks, src) && src <= last
    ensures Roomy(size, now, last + asks) && (last + asks <= HALF_RANGE / 8 ==> !TooBig(was, q, asks))
  {
  }

  lemma RoomyMore(size: nat, q: nat, last: nat, asks: nat)
    requires Roomy(size, q, last)
    ensures Roomy(size, q, last + asks)
  {
  }

  /** Within these bounds no request hangs. */
  lemma RoomyGoesOn(size: nat, r: nat, w: nat, cow: bool, other: nat, op: Op, last: nat)
    requires r <= w <= size && Roomy(size, w - r, last) && last + Asks(other, op) <= HALF_RANGE / 8
    ensures !Stops(size, r, w, cow, other, op)
  {
    hide EndsWithin;
    var asked := match op case Put(s) => |s| case PutBuffer(_) => other case Reserve(sz, _) => sz case _ => 0;
    if w + asked <= HALF_RANGE { EndsBelow(Least(size), w + asked); }
  }

  lemma Start(src: seq<byte>)
    ensures Replay([], src, []) == Queues([], []) && Read([], src, [], true) == Read([], src, [], false) == []
            && Total([], src, []) == 0
  {
  }

  /** The state of two buffers after cmds, and what has been read from them. */
  ghost predicate Follows(x: SBufExt, y: SBufExt, src: array<byte>, cmds: seq<Cmd>, oks: seq<bool>, outs: Queues)
    requires |oks| == |cmds|
    reads x, y, x.b, y.b, src
  {
    && Two(x, y, src) && Replay(cmds, src[..], oks) == Queues(x.Contents(), y.Contents())
    && outs == Queues(Read(cmds, src[..], oks, true), Read(cmds, src[..], oks, false))
    && var last := src.Length + Total(cmds, src[..], oks);
        Roomy(x.b.Length, x.w - x.r, last) && Roomy(y.b.Length, y.w - y.r, last)
  }

  /** One operation on x, unless its request for room would not end. */
  method Guarded(x: SBufExt, y: SBufExt, op: Op, src: array<byte>, ghost last: nat) returns (go: bool, ok: bool,
      s: seq<byte>)
    requires Two(x, y, src) && Roomy(x.b.Length, x.w - x.r, last) && Roomy(y.b.Length, y.w - y.r, last)
             && src.Length <= last
    modifies x, x.Own()
    ensures go == !old(Stops(x.b.Length, x.r, x.w, x.cow, y.w - y.r, op))
    ensures Two(x, y, src) && y.Contents() == old(y.Contents()) && src[..] == old(src[..])
    ensures x.b == old(x.b) || x.b == src || fresh(x.b)
    ensures !go ==>
      x.Contents() == old(x.Contents()) && x.b == old(x.b) && x.r == old(x.r) && x.w == old(x.w) && x.cow == old(x.cow)
    ensures go ==>
      x.Contents() == Step(old(x.Contents()), old(y.Contents()), op, src[..], ok) && s == Taken(old(x.Contents()), op)
    ensures var more := last + Asks(old(y.w - y.r), op);
            && (go ==> Roomy(x.b.Length, x.w - x.r, more) && Roomy(y.b.Length, y.w - y.r, more))
            && (more <= HALF_RANGE / 8 ==> go && (Welcome(op) ==> ok))
  {
    hide Stops, Step, Taken, Asks, Roomy, Grown, TooBig, Welcome;
    ghost var size, q, asks := x.b.Length, x.w - x.r, Asks(y.w - y.r, op);
    if last + asks <= HALF_RANGE / 8 { RoomyGoesOn(x.b.Length, x.r, x.w, x.cow, y.w - y.r, op, last); }
    go, ok, s := !Stops(x.b.Length, x.r, x.w, x.cow, y.w - y.r, op), false, [];
    if !go { return; }
    RoomyMore(y.b.Length, y.w - y.r, last, asks);
    ok, s := Perform(x, y, op, src);
    StaysRoomy(x.b.Length, x.w - x.r, size, q, asks, src.Length, last);
  }

  /** The command's request for room would not end. */
  predicate Stuck(x: SBufExt, y: SBufExt, c: Cmd)
    requires x.Valid() && y.Valid()
    reads x, y
  {
    if c.first then Stops(x.b.Length, x.r, x.w, x.cow, y.w - y.r, c.op)
    else Stops(y.b.Length, y.r, y.w, y.cow, x.w - x.r, c.op)
  }

  /** One command on two buffers, unless its request would hang. */
  method Command(x: SBufExt, y: SBufExt, c: Cmd, src: array<byte>, ghost cmds: seq<Cmd>, ghost oks: seq<bool>,
                 outs: Queues)
      returns (go: bool, ok: bool, outs': Queues)
    requires |oks| == |cmds| && Follows(x, y, src, cmds, oks, outs)
    modifies x, y, x.Own(), y.Own()
    ensures !go ==> Follows(x, y, src, cmds, oks, outs) && Stuck(x, y, c)
    ensures go ==> Follows(x, y, src, cmds + [c], oks + [ok], outs')
    ensures !go ==>
      src.Length + Total(cmds, src[..], oks) + Asks(if c.first then y.w - y.r else x.w - x.r, c.op) > HALF_RANGE / 8
    ensures go && src.Length + Total(cmds + [c], src[..], oks + [ok]) <= HALF_RANGE / 8 && Welcome(c.op) ==> ok
    ensures src[..] == old(src[..]) && (x.b == old(x.b) || x.b == src || fresh(x.b))
            && (y.b == old(y.b) || y.b == src || fresh(y.b))
    ensures (x.cow <==> x.b == src) && (y.cow <==> y.b == src)
  {
    hide Stops, Step, Taken, Asks, Replay, Read, Total, Roomy, Welcome;
    outs' := outs;
    ghost var last := src.Length + Total(cmds, src[..], oks);
    var s;
    if c.first { go, ok, s := Guarded(x, y, c.op, src, last); } else { go, ok, s := Guarded(y, x, c.op, src, last); }
    Snoc(cmds, c, src[..], oks, ok);
    if go { outs' := With(outs, c.first, Side(outs, c.first) + s); }
  }

  /**
   * Any commands on two buffers do to them what they do to two queues, up to the first whose request for room would
   * never end; the string that they may borrow stays as it is. As long as no more than 2^28 bytes come in, there is
   * no such command, and nothing is refused but a buffer put to itself and a commit of more than was reserved.
   */
  method Drive(cmds: seq<Cmd>, src: array<byte>) returns (x: SBufExt, y: SBufExt, outs: Queues, oks: seq<bool>)
    requires src.Length <= MAX_BUF
    ensures |oks| <= |cmds| && Follows(x, y, src, cmds[..|oks|], oks, outs) && src[..] == old(src[..])
    ensures |oks| < |cmds| ==> Stuck(x, y, cmds[|oks|])
    ensures var done := src.Length + Total(cmds[..|oks|], src[..], oks);
            && (|oks| < |cmds| ==>
                done + Asks(if cmds[|oks|].first then y.w - y.r else x.w - x.r, cmds[|oks|].op) > HALF_RANGE / 8)
            && (done <= HALF_RANGE / 8 ==> forall i {:trigger oks[i]} :: 0 <= i < |oks| && Welcome(cmds[i].op) ==>
                oks[i])
  {
    hide Follows, Step, Taken, Asks, Replay, Read, Total, Welcome, Stops, Stuck;
    x, y := Begin(src);
    outs, oks := Queues([], []), [];
    for i := 0 to |cmds|
      invariant |oks| == i && Follows(x, y, src, cmds[..i], oks, outs) && src[..] == old(src[..])
      invariant fresh(x) && fresh(y) && (if x.cow then x.b == src else fresh(x.b))
                && (if y.cow then y.b == src else fresh(y.b))
      invariant src.Length + Total(cmds[..i], src[..], oks) <= HALF_RANGE / 8 ==> forall j {:trigger oks[j]} ::
        0 <= j < i && Welcome(cmds[j].op) ==> oks[j]
    {
      var go, ok, more := Command(x, y, cmds[i], src, cmds[..i], oks, outs);
      if !go { return; }
      Snoc(cmds[..i], cmds[i], src[..], oks, ok);
      assert cmds[..i + 1] == cmds[..i] + [cmds[i]];
      outs, oks := more, oks + [ok];
    }
    assert cmds[..|cmds|] == cmds;
  }

  method Begin(src: array<byte>) returns (x: SBufExt, y: SBufExt)
    requires src.Length <= MAX_BUF
    ensures fresh(x) && fresh(y) && fresh(x.b) && fresh(y.b) && !x.cow && !y.cow
            && Follows(x, y, src, [], [], Queues([], []))
  {
    x := new SBufExt();
    y := new SBufExt();
    Start(src[..]);
    StartRoomy(src.Length);
  }

  lemma StartRoomy(last: nat)
    ensures Roomy(0, 0, last)
  {
  }
}
