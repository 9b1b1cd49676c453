/** Programs on top of the allocator: whatever they do, their blocks behave like separate arrays. */
module Client {
  import opened AllocHeap
  import opened AllocIndex
  import opened AllocState
  import opened AllocBlocks
  import opened AllocPayload
  import opened AllocSegs
  import opened AllocSystem
  import opened Arena
  import AllocCarve

  /** A block as the program sees it: its requested size, and what was stored at which offset. */
  datatype Block = Block(size: int, data: map<int, int>)

  datatype Op = Alloc(n: int) | Release(p: int) | Resize(p: int, n: int) | Store(p: int, d: int, w: int)

  /** The program uses only blocks it has, and stays within them. */
  predicate Fair(sizes: map<int, int>, op: Op) {
    match op
    case Alloc(n) => 0 < n < TWO64
    case Release(p) => p in sizes
    case Resize(p, n) => p in sizes && 0 < n < TWO64
    case Store(p, d, w) => p in sizes && 0 <= d < sizes[p]
  }

  function Sizes(blocks: map<int, Block>): map<int, int> {
    map p | p in blocks :: blocks[p].size
  }

  function Cut(data: map<int, int>, n: int): map<int, int> {
    map d | d in data && d < n :: data[d]
  }

  /** What an operation that returned `res` means. */
  function Step(blocks: map<int, Block>, op: Op, res: int): map<int, Block> {
    if !Fair(Sizes(blocks), op) then blocks
    else
      match op
      case Alloc(n) => if res == 0 then blocks else blocks[res := Block(n, map[])]
      case Release(p) => blocks - {p}
      case Resize(p, n) => if res == 0 then blocks else (blocks - {p})[res := Block(n, Cut(blocks[p].data, n))]
      case Store(p, d, w) => blocks[p := blocks[p].(data := blocks[p].data[d := w])]
  }

  function Replay(ops: seq<Op>, results: seq<int>): map<int, Block>
    requires |results| == |ops|
  {
    if ops == [] then map[]
    else Step(Replay(ops[..|ops| - 1], results[..|ops| - 1]), ops[|ops| - 1], results[|ops| - 1])
  }

  /** The block has a live chunk of its size, that is not a whole chunk too large, with its data. */
  ghost predicate StoredAt(h: H, p: int, b: Block) {
    && p - 16 in h.C && h.C[p - 16].kind == Live && p % 8 == 0 && p != 0 && 0 < b.size <= h.C[p - 16].size - 8
    && AllocCarve.Tight(h.C, p - 16, Request(b.size))
    && (forall d {:trigger R(h.m, p + d)} {:trigger d in b.data} :: d in b.data ==>
        0 <= d < b.size && R(h.m, p + d) == b.data[d])
  }

  ghost predicate Keeping(h: H, blocks: map<int, Block>) {
    && Inv(h, {}) && (forall q {:trigger q in LiveSet(h)} :: q in LiveSet(h) <==> q + 16 in blocks)
    && (forall p {:trigger StoredAt(h, p, blocks[p])} :: p in blocks ==> StoredAt(h, p, blocks[p]))
  }

  /** Distinct blocks share no byte. */
  lemma Separate(h: H, blocks: map<int, Block>, p: int, q: int)
    requires Keeping(h, blocks) && p in blocks && q in blocks && p != q
    ensures p + blocks[p].size <= q || q + blocks[q].size <= p
  {
    assert StoredAt(h, p, blocks[p]) && StoredAt(h, q, blocks[q]);
    assert p - 16 in LiveSet(h) && q - 16 in LiveSet(h);
    BlocksDisjoint(h, {}, p - 16, q - 16);
  }

  lemma KeptStored(h: H, h': H, p: int, b: Block)
    requires StoredAt(h, p, b) && BlockKept(h, h', p - 16)
    ensures StoredAt(h', p, b)
  {
    forall d | d in b.data ensures R(h'.m, p + d) == b.data[d] { assert R(h.m, p + d) == b.data[d]; }
  }

  lemma AllocHolds(h: H, h': H, blocks: map<int, Block>, p: int, n: int)
    requires Keeping(h, blocks) && Inv(h', {}) && Grants(h, h', p - 16, n + 8) && n > 0 && p % 8 == 0
    requires AllocCarve.Tight(h'.C, p - 16, Request(n))
    ensures p !in blocks && Keeping(h', blocks[p := Block(n, map[])])
  {
    hide Inv;
    assert p - 16 !in LiveSet(h) && p - 16 in LiveSet(h');
    GrantsNonZero(h, h', p - 16, n + 8);
    forall q | q in blocks ensures StoredAt(h', q, blocks[q]) {
      assert StoredAt(h, q, blocks[q]);
      assert BlockKept(h, h', q - 16);
      KeptStored(h, h', q, blocks[q]);
    }
  }

  lemma ReleaseHolds(h: H, h': H, blocks: map<int, Block>, p: int)
    requires Keeping(h, blocks) && Inv(h', {}) && Frees(h, h', p - 16)
    ensures Keeping(h', blocks - {p})
  {
    hide Inv;
    var bs := blocks - {p};
    forall q ensures q in LiveSet(h') <==> q + 16 in bs { assert q in LiveSet(h') <==> q in LiveSet(h) && q != p - 16; }
    forall q | q in bs ensures StoredAt(h', q, bs[q]) {
      assert StoredAt(h, q, blocks[q]);
      assert BlockKept(h, h', q - 16);
      KeptStored(h, h', q, blocks[q]);
    }
  }

  lemma ResizeHolds(h: H, h': H, blocks: map<int, Block>, p: int, r: int, n: int)
    requires Keeping(h, blocks) && Inv(h', {}) && p in blocks && p - 16 in h.C && Reallocs(h, h', p - 16, r - 16, n)
             && n > 0 && r % 8 == 0 && AllocCarve.Tight(h'.C, r - 16, Request(n))
    ensures r != p ==> r !in blocks
    ensures Keeping(h', (blocks - {p})[r := Block(n, Cut(blocks[p].data, n))])
  {
    hide Inv;
    var bs := (blocks - {p})[r := Block(n, Cut(blocks[p].data, n))];
    assert r != p ==> r - 16 !in LiveSet(h);
    forall q ensures q in LiveSet(h') <==> q + 16 in bs {
      assert q in LiveSet(h') <==> q == r - 16 || (q in LiveSet(h) && q != p - 16);
    }
    assert StoredAt(h, p, blocks[p]);
    ResizedStored(h, h', p, blocks[p], r, n);
    forall q | q in bs ensures StoredAt(h', q, bs[q]) {
      if q != r {
        assert StoredAt(h, q, blocks[q]);
        assert BlockKept(h, h', q - 16);
        KeptStored(h, h', q, blocks[q]);
      }
    }
  }

  lemma ResizedStored(h: H, h': H, p: int, b: Block, r: int, n: int)
    requires StoredAt(h, p, b) && Inv(h', {}) && Reallocs(h, h', p - 16, r - 16, n) && n > 0 && r % 8 == 0
    requires AllocCarve.Tight(h'.C, r - 16, Request(n))
    ensures StoredAt(h', r, Block(n, Cut(b.data, n)))
  {
    assert r - 16 in LiveSet(h');
    assert r != 0 by { LivePositive(h', r - 16); }
    hide Inv;
    var b' := Block(n, Cut(b.data, n));
    forall d | d in b'.data ensures 0 <= d < n && R(h'.m, r + d) == b'.data[d] {
      assert R(h.m, p + d) == b.data[d] && 0 <= d < b.size;
      assert r + d - (r - 16) + (p - 16) == p + d;
      assert R(h'.m, r + d) == R(h.m, p + d);
    }
  }

  lemma LivePositive(h: H, x: int)
    requires Inv(h, {}) && x in LiveSet(h)
    ensures x > 0
  {
    SizeBound(h, x);
  }

  lemma StoreHolds(h: H, h': H, blocks: map<int, Block>, p: int, d: int, w: int)
    requires Keeping(h, blocks) && Inv(h', {}) && p in blocks && 0 <= d < blocks[p].size
    requires LiveKept(h, h', p - 16) && LiveSet(h') == LiveSet(h) && h'.m == h.m[p + d := w] && h'.C == h.C
    ensures Keeping(h', blocks[p := blocks[p].(data := blocks[p].data[d := w])])
  {
    hide Inv;
    assert StoredAt(h, p, blocks[p]);
    forall q | q in blocks && q != p ensures StoredAt(h', q, blocks[q]) {
      assert StoredAt(h, q, blocks[q]);
      assert BlockKept(h, h', q - 16);
      KeptStored(h, h', q, blocks[q]);
    }
  }

  /** When the allocator answers a request of a program whose heap is h. */
  ghost predicate Answers(h: H, sizes: map<int, int>, op: Op, res: int) {
    Fair(sizes, op) ==>
      match op
      case Alloc(n) => res == 0 ==> n >= MAX_REQUEST || NoRoom(h, Request(n))
      case Resize(p, n) =>
        p - 16 in h.C && (n < MAX_REQUEST && InPlace(h, p - 16, Request(n)) ==> res == p) &&
        (res == 0 ==> n >= MAX_REQUEST || NoRoom(h, Request(n)))
      case _ => res == 0
  }

  class Program {
    const heap: MState
    /** The program's own table of its blocks and their sizes. */
    var sizes: map<int, int>
    ghost var blocks: map<int, Block>

    ghost predicate Valid()
      reads this, heap
    {
      Keeping(heap.V(), blocks) && sizes == Sizes(blocks)
    }

    constructor (tbase: int)
      requires Fresh(map[], tbase, GRANULARITY)
      ensures Valid() && blocks == map[] && fresh(heap) && LiveSet(heap.V()) == {}
    {
      heap := new MState(tbase);
      sizes, blocks := map[], map[];
    }

    /** One operation of the program, by way of the allocator function. */
    method Do(op: Op) returns (res: int)
      requires Valid()
      modifies this, heap
      ensures Valid() && blocks == Step(old(blocks), op, res) && Answers(old(heap.V()), old(sizes), op, res)
      ensures res != 0 && op.Alloc? ==> res !in old(blocks)
      ensures res != 0 && op.Resize? ==> res == op.p || res !in old(blocks)
    {
      hide Inv, Grants, Frees, Reallocs, LiveSet, NoRoom;
      res := 0;
      if Fair(sizes, op) {
        ghost var h := heap.V();
        match op {
          case Alloc(n) =>
            res := heap.AllocF(0, 0, n);
            if res != 0 {
              AllocHolds(h, heap.V(), blocks, res, n);
              sizes, blocks := sizes[res := n], blocks[res := Block(n, map[])];
            }
          case Release(p) =>
            assert StoredAt(h, p, blocks[p]) && p - 16 in LiveSet(h);
            var _ := heap.AllocF(p, sizes[p], 0);
            ReleaseHolds(h, heap.V(), blocks, p);
            sizes, blocks := sizes - {p}, blocks - {p};
          case Resize(p, n) =>
            assert StoredAt(h, p, blocks[p]) && p - 16 in LiveSet(h);
            res := heap.AllocF(p, sizes[p], n);
            if res != 0 {
              ResizeHolds(h, heap.V(), blocks, p, res, n);
              sizes, blocks := (sizes - {p})[res := n], (blocks - {p})[res := Block(n, Cut(blocks[p].data, n))];
            }
          case Store(p, d, w) =>
            assert StoredAt(h, p, blocks[p]) && p - 16 in LiveSet(h);
            heap.Write(p - 16, p + d, w);
            StoreHolds(h, heap.V(), blocks, p, d, w);
            blocks := blocks[p := blocks[p].(data := blocks[p].data[d := w])];
        }
      }
    }

    method Load(p: int, d: int) returns (w: int)
      requires Valid() && p in blocks && d in blocks[p].data
      ensures w == blocks[p].data[d]
    {
      assert StoredAt(heap.V(), p, blocks[p]);
      w := R(heap.m, p + d);
    }
  }

  /**
   * Every program from the first state on, whatever the system answers: the blocks it holds in the end
   * have the contents that replaying its operations on separate arrays gives, and no request failed in a heap
   * that had room for it. heaps are the heaps before each operation, and the last one.
   */
  method Run(tbase: int, ops: seq<Op>) returns (prog: Program, results: seq<int>, ghost heaps: seq<H>)
    requires Fresh(map[], tbase, GRANULARITY)
    ensures |results| == |ops| && prog.Valid() && prog.blocks == Replay(ops, results)
    ensures |heaps| == |ops| + 1 && LiveSet(heaps[0]) == {} && heaps[|ops|] == prog.heap.V()
    ensures forall i {:trigger heaps[i]} :: 0 <= i <= |ops| ==> Keeping(heaps[i], Replay(ops[..i], results[..i]))
    ensures forall i {:trigger ops[i]} :: 0 <= i < |ops| ==>
      Answers(heaps[i], Sizes(Replay(ops[..i], results[..i])), ops[i], results[i])
  {
    hide Keeping, Answers, Replay, LiveSet;
    prog := new Program(tbase);
    results, heaps := [], [prog.heap.V()];
    NothingYet();
    for i := 0 to |ops|
      invariant |results| == i && |heaps| == i + 1 && prog.Valid() && fresh(prog) && fresh(prog.heap)
                && heaps[i] == prog.heap.V()
      invariant prog.blocks == Replay(ops[..i], results) && LiveSet(heaps[0]) == {}
      invariant forall j {:trigger heaps[j]} :: 0 <= j <= i ==> Keeping(heaps[j], Replay(ops[..j], results[..j]))
      invariant forall j {:trigger ops[j]} :: 0 <= j < i ==>
        Answers(heaps[j], Sizes(Replay(ops[..j], results[..j])), ops[j], results[j])
    {
      var r := prog.Do(ops[i]);
      OneMore(ops[..i], ops[i], results, r);
      assert ops[..i + 1] == ops[..i] + [ops[i]] && results[..i] == results
             && (results + [r])[..i + 1] == results + [r];
      forall j | 0 <= j <= i ensures (results + [r])[..j] == results[..j] { }
      results, heaps := results + [r], heaps + [prog.heap.V()];
    }
    assert ops[..|ops|] == ops && results[..|ops|] == results;
  }

  lemma NothingYet()
    ensures Replay([], []) == map[]
  {
  }

  lemma OneMore(ops: seq<Op>, op: Op, results: seq<int>, r: int)
    requires |results| == |ops|
    ensures Replay(ops + [op], results + [r]) == Step(Replay(ops, results), op, r)
  {
    assert (ops + [op])[..|ops|] == ops && (results + [r])[..|ops|] == results;
  }
}
