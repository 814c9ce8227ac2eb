/** The small-memory heap (`mem.c`) on rows of blocks: search, geometry, and what each
    call returns and leaves behind. */
module SmallHeapLayout {
  import opened Common
  import opened Alignment
  import opened BlockRow

  // ---------------------------------------------------------------- searching

  /** First fit by a plain scan from the very first block; `|bs|` if nothing fits. */
  function FirstFit(c: Config, bs: seq<Block>, size: nat): (k: nat)
    ensures k <= |bs|
    ensures forall j :: 0 <= j < k ==> !Fits(c, bs[j], size)
    ensures k < |bs| ==> Fits(c, bs[k], size)
  {
    if bs == [] then 0
    else if Fits(c, bs[0], size) then 0
    else
      var k := FirstFit(c, bs[1..], size);
      assert forall j :: 1 <= j < k + 1 ==> bs[j] == bs[1..][j - 1];
      k + 1
  }

  lemma FirstFitIs(c: Config, bs: seq<Block>, size: nat, k: nat)
    requires k <= |bs| && (forall j :: 0 <= j < k ==> !Fits(c, bs[j], size)) && (k < |bs| ==> Fits(c, bs[k], size))
    ensures FirstFit(c, bs, size) == k
  {
  }

  function FirstFree(bs: seq<Block>): (k: nat)
    ensures k <= |bs|
    ensures forall j :: 0 <= j < k ==> bs[j].used
    ensures k < |bs| ==> !bs[k].used
  {
    if bs == [] then 0
    else if !bs[0].used then 0
    else
      var k := FirstFree(bs[1..]);
      assert forall j :: 1 <= j < k + 1 ==> bs[j] == bs[1..][j - 1];
      k + 1
  }

  /** Offset of the lowest free block, or the end marker. */
  function LowestFree(bs: seq<Block>, end: nat): nat {
    if FirstFree(bs) < |bs| then bs[FirstFree(bs)].start else end
  }

  lemma LowestFreeIs(bs: seq<Block>, end: nat, k: nat)
    requires k <= |bs| && (forall j :: 0 <= j < k ==> bs[j].used) && (k < |bs| ==> !bs[k].used)
    ensures FirstFree(bs) == k
  {
  }

  /** Cutting off a tail makes it the lowest free block unless a lower one exists. */
  lemma CutLowest(c: Config, bs: seq<Block>, end: nat, i: nat, size: nat)
    requires c.Ok() && Tiles(c, bs, 0, end) && i < |bs| && bs[i].used && Payload(c, bs[i]) >= size + c.header
    ensures LowestFree(CutAt(c, bs, i, size), end) == Min(bs[i].start + c.header + size, LowestFree(bs, end))
  {
    AllOrdered(c, bs, 0, end);
    CutRow(c, bs, i, size);
    hide Tiles, CutAt, FirstFree;
    var k := FirstFree(bs);
    var r := CutAt(c, bs, i, size);
    if k < |bs| && k < i {
      LowestFreeIs(r, end, k);
    } else {
      assert forall j :: 0 <= j < i + 1 ==> r[j].used;
      LowestFreeIs(r, end, i + 1);
      if k < |bs| { assert bs[i].stop <= bs[k].start; }
    }
  }

  /** Freeing a block below the lowest free one makes it the lowest. */
  lemma FreedLowest(c: Config, bs: seq<Block>, end: nat, i: nat)
    requires c.Ok() && Tiles(c, bs, 0, end) && i < |bs| && bs[i].used
    ensures LowestFree(bs[i := bs[i].(used := false)], end) == Min(bs[i].start, LowestFree(bs, end))
  {
    AllOrdered(c, bs, 0, end);
    assert GoodBlock(c, bs[i]);
    var k := FirstFree(bs);
    LowestFreeIs(bs[i := bs[i].(used := false)], end, if i < k then i else k);
  }

  lemma MergeLowestFree(bs: seq<Block>, end: nat, i: nat)
    requires i < |bs| && !bs[i].used
    ensures LowestFree(MergeRight(bs, i), end) == LowestFree(bs, end)
    ensures i + 1 < |bs| ==> FirstFree(bs) < i + 1
  {
    var k := FirstFree(bs);
    if i + 1 < |bs| && !bs[i + 1].used {
      assert forall j :: 0 <= j < i ==> MergeRight(bs, i)[j] == bs[j];
      LowestFreeIs(MergeRight(bs, i), end, k);
    }
  }

  /** Beyond the loop bound no block is large enough. */
  lemma NothingFits(c: Config, bs: seq<Block>, end: nat, size: nat, k: nat)
    requires c.Ok() && Tiles(c, bs, 0, end) && k <= |bs|
    requires k < |bs| ==> bs[k].start + c.header + size > end
    ensures forall j :: k <= j < |bs| ==> !Fits(c, bs[j], size)
  {
    AllOrdered(c, bs, 0, end);
  }

  /** The granted payload: aligned, inside the heap, large enough, apart from every other used block. */
  lemma GrantedBlock(c: Config, bs: seq<Block>, end: nat, size: nat, k: nat)
    requires WF(c, bs, end) && size % c.align == 0
    requires FirstFit(c, bs, size) < |bs|
    ensures var i := FirstFit(c, bs, size); var r := AllocAt(c, bs, i, size); var p := r[i].start + c.header;
      && i < |r| && Live(c, r, i, p)
      && p % c.align == 0 && p + size <= r[i].stop <= end
      && (k < |bs| && bs[k].used ==> bs[k].stop <= r[i].start || p + size <= bs[k].start)
  {
    var i := FirstFit(c, bs, size);
    AllOrdered(c, bs, 0, end);
    assert GoodBlock(c, bs[i]);
    AddAligned(bs[i].start, c.header, c.align);
  }

  // ---------------------------------------------------------------- pointer and layout after each call

  /** Pointer and layout after `rt_smem_alloc`, by the plain scan. */
  function AllocSpec(c: Config, bs: seq<Block>, request: nat): (Option<nat>, seq<Block>)
    requires c.Ok()
  {
    var k := FirstFit(c, bs, c.Request(request));
    if request == 0 || k == |bs| then (None, bs)
    else (Some(bs[k].start + c.header), AllocAt(c, bs, k, c.Request(request)))
  }

  /** Allocate first, then free the old block; no room leaves everything as it was. */
  function MoveSpec(c: Config, bs: seq<Block>, i: nat, n: nat): (Option<nat>, seq<Block>)
    requires c.Ok() && i < |bs|
  {
    var size := c.Request(n);
    var k := FirstFit(c, bs, size);
    if k == |bs| || k == i then (None, bs)
    else
      AllocShifts(c, bs, k, size, i);
      (Some(bs[k].start + c.header), FreeAt(AllocAt(c, bs, k, size), Shifted(c, bs, k, size, i)))
  }

  /** Resizing block `i` to the rounded size `n`: leave, shrink in place, or move. */
  function ResizeSpec(c: Config, bs: seq<Block>, i: nat, n: nat): (Option<nat>, seq<Block>)
    requires c.Ok() && i < |bs|
  {
    var b := bs[i];
    if Payload(c, b) == n then (Some(b.start + c.header), bs)
    else if n + c.header + c.minSize < Payload(c, b) then (Some(b.start + c.header), ShrinkAt(c, bs, i, n))
    else MoveSpec(c, bs, i, n)
  }

  /** Pointer and layout after `rt_smem_realloc` of block `i` (nothing for a null pointer). */
  function ReallocSpec(c: Config, bs: seq<Block>, memSize: nat, i: Option<nat>, newsize: nat): (Option<nat>, seq<Block>)
    requires c.Ok() && (i.Some? ==> i.value < |bs|)
  {
    var n := AlignUp(newsize, c.align);
    if n > memSize then (None, bs)
    else if n == 0 then (None, if i.Some? then FreeAt(bs, i.value) else bs)
    else if i.None? then AllocSpec(c, bs, n)
    else ResizeSpec(c, bs, i.value, n)
  }

  /** The strict test against the unaligned MIN_SIZE leaves room for an aligned minimum. */
  lemma ShrunkTailIsLargeEnough(c: Config, b: Block, size: nat)
    requires c.Ok() && GoodBlock(c, b) && size % c.align == 0
    requires size + c.header + c.minSize < Payload(c, b)
    ensures Payload(c, b) - size - c.header >= c.MinAligned()
  {
    AddAligned(b.stop, b.start, c.align);
    AddAligned(c.header, c.header, c.align);
    AddAligned(c.header + c.header, size, c.align);
    AddAligned(b.stop - b.start, c.header + c.header + size, c.align);
    AlignUpLeast(c.minSize, Payload(c, b) - size - c.header, c.align);
  }

  /** What a shrink cuts off, together with a free right neighbour, is an allocatable block. */
  ghost predicate HasRemainder(c: Config, bs: seq<Block>, r: seq<Block>, i: nat, n: nat)
    requires c.Ok() && i < |bs|
  {
    && i + 1 < |r|
    && r[i] == Block(bs[i].start, bs[i].start + c.header + n, true)
    && !r[i + 1].used && r[i + 1].start == r[i].stop && r[i + 1].stop >= bs[i].stop
    && Payload(c, r[i + 1]) >= c.MinAligned()
  }

  lemma ShrinkRemainder(c: Config, bs: seq<Block>, end: nat, i: nat, n: nat)
    requires WF(c, bs, end) && i < |bs| && bs[i].used && n % c.align == 0
    requires n + c.header + c.minSize < Payload(c, bs[i])
    ensures HasRemainder(c, bs, ShrinkAt(c, bs, i, n), i, n)
  {
    ShrunkTailIsLargeEnough(c, bs[i], n);
    AllOrdered(c, bs, 0, end);
    if i + 1 < |bs| { assert GoodBlock(c, bs[i + 1]); }
    var f := CutAt(c, bs, i, n);
    assert f[i] == Block(bs[i].start, bs[i].start + c.header + n, true);
    assert f[i + 1] == Block(bs[i].start + c.header + n, bs[i].stop, false);
    assert i + 2 < |f| ==> f[i + 2] == bs[i + 1];
  }

  lemma AllocSummary(c: Config, bs: seq<Block>, end: nat, k: nat, size: nat)
    requires WF(c, bs, end) && k < |bs| && Fits(c, bs[k], size) && size % c.align == 0
    ensures var r := AllocAt(c, bs, k, size);
      && NoTwoFree(r)
      && UsedSum(r) == UsedSum(bs) +
           (if Payload(c, bs[k]) >= size + c.header + c.MinAligned() then size + c.header else bs[k].stop - bs[k].start)
      && k < |r| && r[k].used && r[k].start == bs[k].start < end
      && (forall j :: 0 <= j < k ==> r[j] == bs[j] && bs[j].start < bs[k].start)
  {
    AllocKeepsWF(c, bs, end, k, size);
    AllocUsed(c, bs, k, size);
    AllOrdered(c, bs, 0, end);
    assert GoodBlock(c, bs[k]);
  }

  lemma FreeSummary(c: Config, bs: seq<Block>, end: nat, i: nat)
    requires WF(c, bs, end) && i < |bs| && bs[i].used
    ensures NoTwoFree(FreeAt(bs, i))
    ensures UsedSum(FreeAt(bs, i)) == UsedSum(bs) - (bs[i].stop - bs[i].start)
    ensures bs[i].stop >= bs[i].start
  {
    FreeKeepsWF(c, bs, end, i);
    FreeUsed(bs, i);
    assert GoodBlock(c, bs[i]);
  }

  lemma ShrinkSummary(c: Config, bs: seq<Block>, end: nat, i: nat, n: nat)
    requires WF(c, bs, end) && i < |bs| && bs[i].used && n % c.align == 0 && Payload(c, bs[i]) >= n + c.header
    ensures NoTwoFree(ShrinkAt(c, bs, i, n))
    ensures UsedSum(ShrinkAt(c, bs, i, n)) == UsedSum(bs) - (Payload(c, bs[i]) - n)
  {
    ShrinkKeepsWF(c, bs, end, i, n);
    ShrinkUsed(c, bs, i, n);
  }

  // ---------------------------------------------------------------- where the heap lies

  /** `rt_smem_init`: aligned start of the heap and number of managed bytes. */
  function Geometry(c: Config, begin: nat, size: nat, objSize: nat): Option<(nat, nat)>
    requires c.Ok()
  {
    var start := AlignUp(begin, c.align) + objSize;
    var beginAlign := AlignUp(start, c.align);
    var endAlign := AlignDown(begin + size, c.align);
    if endAlign > 2 * c.header && endAlign - 2 * c.header >= start
    then
      UnalignedCheckSuffices(c, start, endAlign);
      Some((beginAlign, endAlign - beginAlign - 2 * c.header))
    else None
  }

  ghost predicate InArea(c: Config, begin: nat, size: nat, objSize: nat, b: nat)
    requires c.Ok()
  {
    b % c.align == 0 && b >= AlignUp(begin, c.align) + objSize && b + 2 * c.header <= begin + size
  }

  /** The comparison with the unaligned start is enough: the aligned one cannot overshoot. */
  lemma UnalignedCheckSuffices(c: Config, start: nat, endAlign: nat)
    requires c.Ok() && endAlign % c.align == 0 && endAlign > 2 * c.header && endAlign - 2 * c.header >= start
    ensures AlignUp(start, c.align) <= endAlign - 2 * c.header
  {
    AddAligned(c.header, c.header, c.align);
    AddAligned(endAlign, 2 * c.header, c.align);
    AlignUpLeast(start, endAlign - 2 * c.header, c.align);
  }

  /** An accepted area holds everything, end marker included, at aligned places, and loses
      less than one alignment at either end. */
  lemma GeometryInside(c: Config, begin: nat, size: nat, objSize: nat)
    requires c.Ok() && Geometry(c, begin, size, objSize).Some?
    ensures var (b, m) := Geometry(c, begin, size, objSize).value;
      && m % c.align == 0 && InArea(c, begin, size, objSize, b)
      && b < AlignUp(begin, c.align) + objSize + c.align
      && b + m + 2 * c.header <= begin + size < b + m + 2 * c.header + c.align
  {
    GapAligned(AlignDown(begin + size, c.align), AlignUp(AlignUp(begin, c.align) + objSize, c.align), c.header, c.align);
  }

  /** No area is refused in which an aligned place for two headers exists behind the heap object. */
  lemma GeometryComplete(c: Config, begin: nat, size: nat, objSize: nat, b: nat)
    requires c.Ok() && objSize > 0 && InArea(c, begin, size, objSize, b)
    ensures Geometry(c, begin, size, objSize).Some?
  {
    AddAligned(c.header, c.header, c.align);
    AddAligned(b, c.header + c.header, c.align);
    AlignDownGreatest(begin + size, b + 2 * c.header, c.align);
    AlignUpLeast(AlignUp(begin, c.align) + objSize, b, c.align);
  }
}
