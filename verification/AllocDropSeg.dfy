/** A segment that holds nothing but one free chunk goes back to the operating system. */
module AllocDropSeg {
  import opened AllocHeap
  import opened AllocIndex
  import opened AllocTree
  import opened AllocState
  import opened AllocLinks
  import opened AllocTags
  import opened AllocOps
  import opened AllocBlocks
  import opened AllocSegs
  import opened AllocPrepend
  import opened AllocAddSeg

  /** The first chunk p of segment k is loose and reaches up to the segment's record. */
  ghost predicate Droppable(h: H, k: int) {
    && 0 < k < |h.segs|
    && var sg := h.segs[k];
       sg.base in h.C && h.C[sg.base].kind == Free && sg.base + h.C[sg.base].size >= sg.End() - TOP_FOOT_SIZE
  }

  ghost function DropSeg(h: H, k: int): H
    requires 0 < k < |h.segs|
  {
    var sg := h.segs[k];
    h.(m := MapOut(h.m, sg.base, sg.size)[h.segs[k - 1].rec + 16 := R(h.m, sg.rec + 16)],
       C := map q | q in h.C && !(sg.base <= q < sg.End()) :: h.C[q],
       segs := h.segs[..k] + h.segs[k + 1..])
  }

  /** Only p and allocator chunks lie in the segment. */
  lemma DropKinds(h: H, k: int, q: int)
    requires HeapOk(h) && SegsOk(h) && Droppable(h, k) && q in h.C && h.segs[k].base <= q < h.segs[k].End()
    ensures q == h.segs[k].base || h.C[q].kind == Sys
    ensures q != h.ms - 16 && q != h.top
  {
    var sg := h.segs[k];
    var p, rp := sg.base, sg.rec - 16;
    assert SegOk(h, k);
    assert OldSeg(h, k) && InSeg(h, k, q) && SegTail(h, k, q);
    HeadBounds(h);
    assert SegApart(h, 0, k);
    assert ChunkOk(h.m, h.C, q);
    if q != p { ChunksAway(h, p, q); }
    if rp != q { ChunksAway(h, rp, q); }
  }

  lemma DropOutside(h: H, k: int, q: int)
    requires HeapOk(h) && SegsOk(h) && 0 < k < |h.segs| && q in h.C && !(h.segs[k].base <= q < h.segs[k].End())
    ensures q + 8 + h.C[q].size <= h.segs[k].base || h.segs[k].End() <= q
    ensures h.C[q].size >= 8
  {
    assert SegOk(h, k);
    assert InSeg(h, k, q);
    assert ChunkOk(h.m, h.C, q);
  }

  lemma DropWords(h: H, k: int, a: int)
    requires HeapOk(h) && SegsOk(h) && 0 < k < |h.segs|
    ensures var h', sg, rec := DropSeg(h, k), h.segs[k], h.segs[k - 1].rec;
            && (a != rec + 16 && !(sg.base <= a < sg.End()) ==> R(h'.m, a) == R(h.m, a))
            && (a in h'.m <==> (a in h.m && !(sg.base <= a < sg.End())) || a == rec + 16)
            && R(h'.m, rec + 16) == R(h.m, sg.rec + 16)
  {
  }

  lemma DropOther(h: H, k: int, q: int)
    requires HeapOk(h) && SegsOk(h) && Droppable(h, k) && q in DropSeg(h, k).C
    ensures ChunkOk(DropSeg(h, k).m, DropSeg(h, k).C, q)
  {
    var h', n := DropSeg(h, k), q + h.C[q].size;
    assert ChunkOk(h.m, h.C, q);
    DropOutside(h, k, q);
    RecordApart(h, k - 1, q);
    DropWords(h, k, q + 8);
    if h.C[q].kind == Free { DropWords(h, k, n); }
    if !h.C[q].pin { DropPrev(h, k, q); }
    hide HeapOk, SegsOk, Droppable, R, PrevFree;
    ChunkStill(h.m, h.C, h'.m, h'.C, q);
  }

  lemma DropPrev(h: H, k: int, q: int)
    requires HeapOk(h) && SegsOk(h) && Droppable(h, k) && q in DropSeg(h, k).C && !h.C[q].pin
    ensures PrevFree(DropSeg(h, k).m, DropSeg(h, k).C, q)
  {
    assert ChunkOk(h.m, h.C, q);
    DropOutside(h, k, q);
    RecordApart(h, k - 1, q);
    DropWords(h, k, q);
    var v := q - R(h.m, q);
    assert ChunkOk(h.m, h.C, v);
    assert SegOk(h, k);
    assert InSeg(h, k, v);
  }

  lemma DropTiled(h: H, k: int)
    requires HeapOk(h) && SegsOk(h) && Droppable(h, k)
    ensures Tiled(DropSeg(h, k).m, DropSeg(h, k).C)
  {
    var h' := DropSeg(h, k);
    forall q | q in h'.C ensures ChunkOk(h'.m, h'.C, q) { DropOther(h, k, q); }
    forall q, r | q in h'.C && r in h'.C ensures Apart(h'.C, q, r) { assert Apart(h.C, q, r); }
  }

  lemma DropMapped(h: H, k: int)
    requires HeapOk(h) && SegsOk(h) && Droppable(h, k)
    ensures Mapped(DropSeg(h, k).m, DropSeg(h, k).C) && Low(DropSeg(h, k).m)
  {
    var h' := DropSeg(h, k);
    forall q, a | q in h'.C && q <= a < q + 8 + h'.C[q].size ensures a in h'.m {
      MappedAt(h, q, a);
      DropOutside(h, k, q);
      DropWords(h, k, a);
    }
    RecordIn(h, k - 1);
    forall a | a in h'.m ensures 0 < a < TWO64 { DropWords(h, k, a); LowAt(h, a); }
  }

  lemma DropHeap(h: H, k: int)
    requires HeapOk(h) && SegsOk(h) && Droppable(h, k)
    ensures HeapOk(DropSeg(h, k))
  {
    DropTiled(h, k);
    DropMapped(h, k);
    var b, e := h.segs[k].base, h.segs[k].End();
    if b <= h.ms - 16 < e { DropKinds(h, k, h.ms - 16); }
    if b <= h.top < e { DropKinds(h, k, h.top); }
    hide Tiled, Mapped, Low, SegsOk;
  }

  // The list of segments.

  /** Where segment j of the new list was. */
  function Was(k: int, j: int): int {
    if j < k then j else j + 1
  }

  lemma DropRecord(h: H, k: int, j: int)
    requires HeapOk(h) && SegsOk(h) && Droppable(h, k) && 0 <= j < |h.segs| - 1
    ensures SegRecord(DropSeg(h, k), j)
  {
    var i := Was(k, j);
    var rec := h.segs[i].rec;
    SegBounds(h, i);
    SegBounds(h, k);
    RecordsApart(h, i, k - 1);
    RecordElsewhere(h, k, i);
    DropWords(h, k, rec);
    DropWords(h, k, rec + 8);
    DropWords(h, k, rec + 16);
    hide HeapOk, SegsOk, R, Droppable;
  }

  lemma RecordElsewhere(h: H, k: int, i: int)
    requires HeapOk(h) && SegsOk(h) && Droppable(h, k) && 0 <= i < |h.segs| && i != k
    ensures h.segs[i].rec + SEG_WORDS <= h.segs[k].base || h.segs[k].End() <= h.segs[i].rec
  {
    RecordIn(h, i);
    var z :| RecordChunk(h, z, h.segs[i].rec);
    var b, e := h.segs[k].base, h.segs[k].End();
    if b <= z < e {
      DropKinds(h, k, z);
      if i == 0 { assert h.segs[0].rec == h.ms + SEG_OFS; StateAlone(h, z); } else { OldApart(h, k, i, z); }
    } else {
      DropOutside(h, k, z);
    }
  }

  lemma StateAlone(h: H, z: int)
    requires HeapOk(h) && z in h.C && RecordChunk(h, z, h.ms + SEG_OFS)
    ensures z == h.ms - 16
  {
    if z != h.ms - 16 { ChunksAway(h, z, h.ms - 16); }
  }

  lemma OldApart(h: H, k: int, i: int, z: int)
    requires HeapOk(h) && SegsOk(h) && 0 < i < |h.segs| && 0 < k < |h.segs| && i != k
             && RecordChunk(h, z, h.segs[i].rec)
    ensures z < h.segs[k].base || h.segs[k].End() <= z
  {
    assert SegOk(h, i);
    assert OldSeg(h, i) && SegApart(h, i, k);
    var rp := h.segs[i].rec - 16;
    if z != rp { ChunksAway(h, z, rp); }
  }

  lemma DropIn(h: H, k: int, j: int, q: int)
    requires HeapOk(h) && SegsOk(h) && Droppable(h, k) && 0 <= j < |h.segs| - 1 && q in DropSeg(h, k).C
    ensures InSeg(DropSeg(h, k), j, q)
  {
    var i := Was(k, j);
    assert SegOk(h, i);
    assert InSeg(h, i, q);
    DropOutside(h, k, q);
    assert DropSeg(h, k).segs[j] == h.segs[i];
    hide HeapOk, SegsOk, Droppable, SegOk;
  }

  lemma DropBase(h: H, k: int, j: int)
    requires HeapOk(h) && SegsOk(h) && Droppable(h, k) && 0 <= j < |h.segs| - 1
    ensures var h' := DropSeg(h, k); var sg := h'.segs[j];
            && sg == h.segs[Was(k, j)] && sg.base > 0 && sg.base % 8 == 0 && sg.size % GRANULARITY == 0
            && 0 < sg.size < SIZE_LIMIT && sg.rec > 0
            && sg.base in h'.C && h'.C[sg.base].pin
            && (forall a {:trigger a in h'.m} :: sg.base <= a < sg.End() ==> a in h'.m)
  {
    var i := Was(k, j);
    SegBounds(h, i);
    SegBounds(h, k);
    assert SegApart(h, i, k);
    hide HeapOk, SegsOk, SegRecord;
  }

  lemma DropOldSeg(h: H, k: int, j: int)
    requires HeapOk(h) && SegsOk(h) && Droppable(h, k) && 0 < j < |h.segs| - 1
    ensures OldSeg(DropSeg(h, k), j)
  {
    var h', i := DropSeg(h, k), Was(k, j);
    assert SegOk(h, i);
    assert OldSeg(h, i) && SegApart(h, i, k);
    assert h'.segs[j] == h.segs[i];
    forall q | q in h'.C ensures SegTail(h', j, q) { assert SegTail(h, i, q); }
  }

  lemma DropCovered(h: H, k: int)
    requires HeapOk(h) && SegsOk(h) && Droppable(h, k)
    ensures Covered(DropSeg(h, k).m, DropSeg(h, k).segs)
  {
    var h' := DropSeg(h, k);
    RecordIn(h, k - 1);
    RecordElsewhere(h, k, k - 1);
    forall a {:trigger a in h'.m} | a in h'.m ensures InSome(h'.segs, a) {
      DropWords(h, k, a);
      assert InSome(h.segs, a);
      var i :| HeldBy(h.segs, i, a);
      assert HeldBy(h'.segs, if i < k then i else i - 1, a);
    }
  }

  lemma DropSegs(h: H, k: int)
    requires HeapOk(h) && SegsOk(h) && Droppable(h, k)
    ensures SegsOk(DropSeg(h, k))
  {
    hide HeapOk, InSeg, SegRecord, OldSeg, SegTail;
    var h' := DropSeg(h, k);
    HeadBounds(h);
    DropCovered(h, k);
    assert h'.segs[0] == h.segs[0];
    forall j | 0 <= j < |h'.segs| ensures SegOk(h', j) {
      DropBase(h, k, j);
      DropRecord(h, k, j);
      forall q | q in h'.C ensures InSeg(h', j, q) { DropIn(h, k, j, q); }
      if j > 0 { DropOldSeg(h, k, j); }
    }
    forall i, j | 0 <= i < |h'.segs| && 0 <= j < |h'.segs|
      ensures SegApart(h', i, j)
    {
      assert SegApart(h, Was(k, i), Was(k, j));
    }
  }

  lemma DropBins(h: H, k: int)
    requires 0 < k < |h.segs| && Inv(h, {h.segs[k].base}) && Droppable(h, k)
    ensures SameBins(h, {h.segs[k].base}, DropSeg(h, k), {})
  {
    var h', p := DropSeg(h, k), h.segs[k].base;
    forall q ensures FreeKept(h, h', {p}, q) { if q in h.C && p <= q < h.segs[k].End() { DropKinds(h, k, q); } }
    forall q ensures FreeOld(h, h', q) { }
    SegBounds(h, k);
    forall a | R(h'.m, a) != R(h.m, a) ensures OffBins(h, {p}, a) {
      DropWords(h, k, a);
      forall y | y in h.C ensures OffFree(h, {p}, y, a) {
        if h.C[y].kind == Free && y != p {
          if p <= y < h.segs[k].End() { DropKinds(h, k, y); }
          DropOutside(h, k, y);
          RecordApart(h, k - 1, y);
        }
      }
      DropOffState(h, k, a);
    }
  }

  lemma DropOffState(h: H, k: int, a: int)
    requires HeapOk(h) && SegsOk(h) && Droppable(h, k)
    requires a == h.segs[k - 1].rec + 16 || h.segs[k].base <= a < h.segs[k].End()
    ensures !(h.ms + SMALLBINS_OFS <= a < h.ms + SEG_OFS)
  {
    RecordOff(h, k - 1);
    var z := h.ms - 16;
    if h.segs[k].base <= z < h.segs[k].End() { DropKinds(h, k, z); }
    DropOutside(h, k, z);
  }

  lemma DropLive(h: H, k: int)
    requires 0 < k < |h.segs| && Inv(h, {h.segs[k].base}) && Droppable(h, k)
    ensures Same(h, DropSeg(h, k))
  {
    var h', b, e := DropSeg(h, k), h.segs[k].base, h.segs[k].End();
    forall q | q in h.C && h.C[q].kind == Live ensures q in h'.C && BlockKept(h, h', q) {
      if b <= q < e { DropKinds(h, k, q); }
      DropOutside(h, k, q);
      RecordApart(h, k - 1, q);
      forall a | q + 16 <= a < q + 8 + h.C[q].size ensures R(h'.m, a) == R(h.m, a) { DropWords(h, k, a); }
    }
    assert LiveSet(h') == LiveSet(h);
  }

  /** Releasing an unused segment keeps the invariant and every block. */
  lemma DropInv(h: H, k: int)
    requires 0 < k < |h.segs| && Inv(h, {h.segs[k].base}) && Droppable(h, k)
    ensures Inv(DropSeg(h, k), {}) && Same(h, DropSeg(h, k))
  {
    hide Inv, HeapOk, BinsOk, SegsOk, AllPlaced, DvOk, SameBins, Same, Droppable, DropSeg;
    var u := {h.segs[k].base};
    InvParts(h, u);
    DropHeap(h, k);
    DropSegs(h, k);
    DropBins(h, k);
    SameBinsHeld(h, u, DropSeg(h, k), {});
    SameBinsPlaced(h, u, DropSeg(h, k), {});
    DropLive(h, k);
    InvWhole(DropSeg(h, k), {});
  }
}
