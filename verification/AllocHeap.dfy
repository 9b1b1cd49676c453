/** Word-addressed memory, boundary-tagged chunks, and what splitting and merging chunks keeps. */
module AllocHeap {

  const MIN_CHUNK_SIZE := 32
  const TOP_FOOT_SIZE := 64

  /** Mapped memory: every mapped byte address is a key; words are stored at 8-aligned addresses. */
  type Mem = map<int, int>

  function R(m: Mem, a: int): int {
    if a in m then m[a] else 0
  }

  datatype Kind = Live | Sys | Free | Top

  /** What the ghost chunk map knows of the chunk at an address; `pin` is its pinuse bit. */
  datatype Chunk = Chunk(size: int, kind: Kind, pin: bool)

  type Chunks = map<int, Chunk>

  predicate InUse(k: Kind) {
    k == Live || k == Sys
  }

  /** The head word of a chunk: its size with cinuse in bit 1 and pinuse in bit 0. */
  function Head(size: int, cinuse: bool, pinuse: bool): int {
    size + (if cinuse then 2 else 0) + (if pinuse then 1 else 0)
  }

  function HeadOf(c: Chunk): int {
    Head(c.size, InUse(c.kind), c.pin)
  }

  ghost predicate ChunkOk(m: Mem, C: Chunks, p: int)
    requires p in C
  {
    var c := C[p];
    var n := p + c.size;
    && p > 0 && p % 8 == 0 && c.size % 8 == 0 && c.size >= 8
    && (c.kind == Live || c.kind == Free ==> c.size >= MIN_CHUNK_SIZE)
    && R(m, p + 8) == HeadOf(c)
    && (c.kind == Live || c.kind == Free ==> n in C)
    && (c.kind == Free ==> InUse(C[n].kind) && R(m, n) == c.size)
    && (c.kind == Free || c.kind == Top ==> c.pin)
    && (n in C ==> C[n].pin == InUse(c.kind))
    && (!c.pin ==> PrevFree(m, C, p))
  }

  ghost predicate PrevFree(m: Mem, C: Chunks, p: int) {
    var q := p - R(m, p);
    q in C && C[q].kind == Free && C[q].size == R(m, p)
  }

  ghost predicate Apart(C: Chunks, p: int, q: int)
    requires p in C && q in C
  {
    && (p < q ==> p + C[p].size <= q)
    && (q < p ==> q + C[q].size <= p)
  }

  ghost predicate NoOverlap(C: Chunks) {
    forall p, q {:trigger Apart(C, p, q)} :: p in C && q in C ==> Apart(C, p, q)
  }

  ghost predicate Tiled(m: Mem, C: Chunks) {
    && (forall p {:trigger ChunkOk(m, C, p)} :: p in C ==> ChunkOk(m, C, p))
    && NoOverlap(C)
  }

  /** A chunk owns the words from its head up to and including the next chunk's prev_foot. */
  ghost predicate Mapped(m: Mem, C: Chunks) {
    forall p, a :: p in C && p <= a < p + 8 + C[p].size ==> a in m
  }

  /** m' differs from m only at addresses in [lo, hi). */
  ghost predicate SameOutside(m: Mem, m': Mem, lo: int, hi: int) {
    forall a {:trigger R(m', a)} :: a < lo || hi <= a ==> R(m', a) == R(m, a)
  }

  /** C' keeps every chunk of C outside [p, n), except for the pinuse bit of the chunk at n. */
  ghost predicate Retiled(C: Chunks, C': Chunks, p: int, n: int) {
    && p in C && p in C' && C'[p].pin == C[p].pin && p < n
    && (!C[p].pin ==> InUse(C'[p].kind))
    && (n in C <==> n in C')
    && (n in C ==> C'[n] == C[n].(pin := C'[n].pin))
    && (forall q {:trigger q in C} {:trigger q in C'} :: q < p || n < q ==> (q in C <==> q in C'))
    && (forall q {:trigger C'[q]} :: q in C && (q < p || n < q) ==> C'[q] == C[q])
  }

  ghost predicate Ends(C: Chunks, p: int, n: int) {
    forall q {:trigger Bounded(C, q, n)} :: q in C && p <= q < n ==> Bounded(C, q, n)
  }

  ghost predicate Bounded(C: Chunks, q: int, n: int)
    requires q in C
  {
    q + C[q].size <= n
  }

  /** No chunk starts within a word of n. */
  ghost predicate Clear(C: Chunks, n: int) {
    forall q {:trigger C[q]} :: q in C ==> q < n || n + 8 <= q
  }

  lemma RetileApart(C: Chunks, C': Chunks, p: int, n: int, q: int, r: int)
    requires NoOverlap(C) && Retiled(C, C', p, n) && Ends(C, p, n) && Ends(C', p, n)
    requires q in C' && r in C' && q < r
    requires !(p <= q < n && p <= r < n)
    requires C'[p].size >= 0
    ensures Apart(C', q, r)
  {
    if n in C && q < p { assert Apart(C, q, n); }
    if q < p { assert Apart(C, q, p); }
    if p <= q < n { assert Bounded(C', q, n); }
    if !(p <= r < n) && !(p <= q < n) { assert Apart(C, q, r); }
  }

  /** Chunks before and after the changed range keep their tag invariant. */
  lemma RetileBefore(m: Mem, C: Chunks, m': Mem, C': Chunks, p: int, n: int, q: int)
    requires Tiled(m, C) && Retiled(C, C', p, n)
    requires SameOutside(m, m', p + 8, n + 16)
    requires q in C && q < p
    ensures ChunkOk(m', C', q)
  {
    assert ChunkOk(m, C, q);
    assert Apart(C, q, p);
    if !C[q].pin {
      var u := q - R(m, q);
      assert u in C && ChunkOk(m, C, u);
      assert u < q;
    }
  }

  lemma RetileAfter(m: Mem, C: Chunks, m': Mem, C': Chunks, p: int, n: int, q: int)
    requires Tiled(m, C) && Retiled(C, C', p, n) && Ends(C, p, n)
    requires SameOutside(m, m', p + 8, n + 16)
    requires n in C || Clear(C, n)
    requires q in C && n < q
    ensures ChunkOk(m', C', q)
  {
    assert ChunkOk(m, C, q);
    if n in C { assert ChunkOk(m, C, n) && Apart(C, q, n); }
    if !C[q].pin {
      var u := q - R(m, q);
      assert u in C && ChunkOk(m, C, u);
      assert Apart(C, u, p);
      assert p <= u < n ==> Bounded(C, u, n);
    }
  }

  /** Replacing the chunks of [p, n) by others that are well tagged keeps the heap well tagged. */
  lemma Retile(m: Mem, C: Chunks, m': Mem, C': Chunks, p: int, n: int)
    requires Tiled(m, C) && Retiled(C, C', p, n) && Ends(C, p, n) && Ends(C', p, n)
    requires SameOutside(m, m', p + 8, n + 16)
    requires n in C || Clear(C, n)
    requires forall q {:trigger ChunkOk(m', C', q)} :: q in C' && p <= q <= n ==> ChunkOk(m', C', q)
    requires forall q, r {:trigger Apart(C', q, r)} ::
               q in C' && r in C' && p <= q < n && p <= r < n ==> Apart(C', q, r)
    ensures Tiled(m', C')
  {
    assert ChunkOk(m', C', p);
    forall q | q in C' ensures ChunkOk(m', C', q) {
      if q < p || n < q {
        if q < p { RetileBefore(m, C, m', C', p, n, q); } else { RetileAfter(m, C, m', C', p, n, q); }
      }
    }
    forall q, r | q in C' && r in C' ensures Apart(C', q, r) {
      if !(p <= q < n && p <= r < n) {
        if q < r { RetileApart(C, C', p, n, q, r); }
        if r < q { RetileApart(C, C', p, n, r, q); }
      }
    }
  }

  // The tag writes of the C macros.

  function OrPinuse(w: int): int {
    if w % 2 == 0 then w + 1 else w
  }

  function ClearPinuse(w: int): int {
    w - w % 2
  }

  function ChunkSize(w: int): int {
    w - w % 4
  }

  predicate Pinuse(w: int) {
    w % 2 == 1
  }

  predicate Cinuse(w: int) {
    w / 2 % 2 == 1
  }

  lemma HeadFields(c: Chunk)
    requires c.size % 8 == 0
    ensures ChunkSize(HeadOf(c)) == c.size && Pinuse(HeadOf(c)) == c.pin && Cinuse(HeadOf(c)) == InUse(c.kind)
    ensures OrPinuse(HeadOf(c)) == HeadOf(c.(pin := true))
    ensures ClearPinuse(HeadOf(c)) == HeadOf(c.(pin := false))
  {
    var k, w := c.size / 8, HeadOf(c);
    var u, p := if InUse(c.kind) then 1 else 0, if c.pin then 1 else 0;
    assert w == 4 * (2 * k) + (2 * u + p);
    assert w == 2 * (4 * k + u) + p && w / 2 == 2 * (2 * k) + u;
  }

  /** The pinuse bit of a head, by parity. */
  lemma HeadPin(s: int, cinuse: bool, pinuse: bool)
    requires s % 8 == 0
    ensures Head(s, cinuse, pinuse) % 2 == if pinuse then 1 else 0
  {
    assert s == 2 * (4 * (s / 8));
  }

  function SetInuseAndPinuse(m: Mem, p: int, s: int): Mem {
    m[p + 8 := s + 3][p + s + 8 := OrPinuse(R(m, p + s + 8))]
  }

  function SetInuseChunk(m: Mem, p: int, s: int): Mem {
    m[p + 8 := s + 3]
  }

  function SetFreeChunk(m: Mem, p: int, s: int): Mem {
    m[p + 8 := s + 1][p + s := s]
  }

  function SetFreeWithPinuse(m: Mem, p: int, s: int, n: int): Mem {
    SetFreeChunk(m[n + 8 := ClearPinuse(R(m, n + 8))], p, s)
  }

  // What the tag writes do to the chunks.

  ghost function TakenWhole(C: Chunks, p: int): Chunks
    requires p in C && p + C[p].size in C
  {
    var n := p + C[p].size;
    C[p := Chunk(C[p].size, Live, true)][n := C[n].(pin := true)]
  }

  lemma TakeWhole(m: Mem, C: Chunks, p: int)
    requires Tiled(m, C) && p in C && C[p].kind == Free
    ensures p + C[p].size in C
    ensures var m', C' := SetInuseAndPinuse(m, p, C[p].size), TakenWhole(C, p);
            Tiled(m', C') && SameOutside(m, m', p + 8, p + C[p].size + 16)
  {
    assert ChunkOk(m, C, p);
    var n := p + C[p].size;
    assert ChunkOk(m, C, n) && Apart(C, p, n);
    var m', C' := SetInuseAndPinuse(m, p, C[p].size), TakenWhole(C, p);
    HeadFields(C[n]);
    NothingBetween(C, p);
    assert ChunkOk(m', C', p);
    assert ChunkOk(m', C', n) by {
      if n + C[n].size in C { assert n + C[n].size != p; }
    }
    Retile(m, C, m', C', p, n);
  }

  lemma NothingBetween(C: Chunks, p: int)
    requires NoOverlap(C) && p in C && C[p].size > 0
    ensures Ends(C, p, p + C[p].size)
    ensures forall q {:trigger q in C} :: q in C ==> !(p < q < p + C[p].size)
  {
    forall q | q in C ensures p <= q < p + C[p].size ==> q == p { assert Apart(C, p, q); }
  }

  ghost function SplitTwo(C: Chunks, p: int, nb: int, k: Kind): Chunks
    requires p in C
  {
    C[p := Chunk(nb, Live, C[p].pin)][p + nb := Chunk(C[p].size - nb, k, true)]
  }

  lemma SplitFreeTags(m: Mem, C: Chunks, p: int, nb: int, m': Mem, C': Chunks)
    requires p in C && C[p].kind == Free && ChunkOk(m, C, p)
    requires p + C[p].size in C && ChunkOk(m, C, p + C[p].size)
    requires p + nb !in C && p + C[p].size + C[p + C[p].size].size !in {p, p + nb}
    requires nb % 8 == 0 && MIN_CHUNK_SIZE <= nb && nb + MIN_CHUNK_SIZE <= C[p].size
    requires m' == SetFreeChunk(SetInuseChunk(m, p, nb), p + nb, C[p].size - nb) && C' == SplitTwo(C, p, nb, Free)
    ensures ChunkOk(m', C', p) && ChunkOk(m', C', p + nb) && ChunkOk(m', C', p + C[p].size)
  {
    var n := p + C[p].size;
    assert R(m', n) == C[p].size - nb;
    assert n - R(m', n) == p + nb;
    assert (p + nb) % 8 == 0 && (C[p].size - nb) % 8 == 0;
  }

  /** Splitting a free chunk: the front goes to the caller, the rest stays free. */
  lemma SplitFree(m: Mem, C: Chunks, p: int, nb: int)
    requires Tiled(m, C) && p in C && C[p].kind == Free
    requires nb % 8 == 0 && MIN_CHUNK_SIZE <= nb && nb + MIN_CHUNK_SIZE <= C[p].size
    ensures var m', C' := SetFreeChunk(SetInuseChunk(m, p, nb), p + nb, C[p].size - nb), SplitTwo(C, p, nb, Free);
            Tiled(m', C') && SameOutside(m, m', p + 8, p + C[p].size + 16)
  {
    assert ChunkOk(m, C, p);
    var n := p + C[p].size;
    assert ChunkOk(m, C, n);
    var m', C' := SetFreeChunk(SetInuseChunk(m, p, nb), p + nb, C[p].size - nb), SplitTwo(C, p, nb, Free);
    NothingBetween(C, p);
    assert p + nb !in C;
    SplitFreeTags(m, C, p, nb, m', C');
    Retile(m, C, m', C', p, n);
  }

  /** Splitting top. */
  lemma SplitTop(m: Mem, C: Chunks, p: int, nb: int)
    requires Tiled(m, C) && p in C && C[p].kind == Top
    requires nb % 8 == 0 && MIN_CHUNK_SIZE <= nb < C[p].size
    requires p + C[p].size !in C && Clear(C, p + C[p].size)
    ensures var m', C' := SetInuseChunk(m[p + nb + 8 := C[p].size - nb + 1], p, nb), SplitTwo(C, p, nb, Top);
            Tiled(m', C') && SameOutside(m, m', p + 8, p + C[p].size + 8)
  {
    assert ChunkOk(m, C, p);
    var n := p + C[p].size;
    var m', C' := SetInuseChunk(m[p + nb + 8 := C[p].size - nb + 1], p, nb), SplitTwo(C, p, nb, Top);
    NothingBetween(C, p);
    assert ChunkOk(m', C', p);
    assert ChunkOk(m', C', p + nb);
    assert SameOutside(m, m', p + 8, n + 16);
    Retile(m, C, m', C', p, n);
  }

  /** The chunks outside [p, n), with one new chunk of kind k over [p, n). */
  ghost function Merged(C: Chunks, p: int, n: int, k: Kind): Chunks {
    (map q | q in C && !(p <= q < n) :: if q == n then C[q].(pin := InUse(k)) else C[q])
      [p := Chunk(n - p, k, true)]
  }

  /** Merging every chunk of [p, n) into one free chunk. */
  lemma MergeFree(m: Mem, C: Chunks, p: int, n: int)
    requires Tiled(m, C) && Ends(C, p, n)
    requires p in C && C[p].pin && n in C && p + MIN_CHUNK_SIZE <= n && InUse(C[n].kind)
    ensures var m', C' := SetFreeWithPinuse(m, p, n - p, n), Merged(C, p, n, Free);
            Tiled(m', C') && SameOutside(m, m', p + 8, n + 16)
  {
    assert ChunkOk(m, C, p) && ChunkOk(m, C, n);
    var m', C' := SetFreeWithPinuse(m, p, n - p, n), Merged(C, p, n, Free);
    HeadFields(C[n]);
    assert ChunkOk(m', C', p);
    assert ChunkOk(m', C', n) by { assert n - R(m', n) == p; }
    Retile(m, C, m', C', p, n);
  }

  /** Merging [p, n) into top, where n is the end of top. */
  lemma MergeTop(m: Mem, C: Chunks, p: int, n: int)
    requires Tiled(m, C) && Ends(C, p, n)
    requires p in C && C[p].pin && p + 8 <= n && n % 8 == 0 && n !in C && Clear(C, n)
    ensures var m', C' := m[p + 8 := n - p + 1], Merged(C, p, n, Top);
            Tiled(m', C') && SameOutside(m, m', p + 8, n + 8)
  {
    assert ChunkOk(m, C, p);
    var m', C' := m[p + 8 := n - p + 1], Merged(C, p, n, Top);
    assert ChunkOk(m', C', p);
    assert SameOutside(m, m', p + 8, n + 16);
    Retile(m, C, m', C', p, n);
  }
}
