/** What the callers of the small-memory heap get, said about used blocks only. */
module SmallHeapGrants {
  import opened Common
  import opened Alignment
  import opened BlockRow
  import opened BlockUse
  import opened SmallHeapLayout

  /** The pointer of an allocation: the lowest free block that fits; nothing exactly if none does. */
  ghost predicate Grants(c: Config, bs: seq<Block>, r: seq<Block>, end: nat, size: nat, p: Option<nat>)
    requires c.Ok()
  {
    && (p.Some? <==> SomeFits(c, bs, size))
    && (p.None? ==> r == bs)
    && (p.Some? ==>
          && p.value % c.align == 0 && p.value + size <= end
          && Added(c, bs, r, p.value, size, size + c.header + c.MinAligned())
          && (forall k :: 0 <= k < |bs| && Fits(c, bs[k], size) ==> p.value <= bs[k].start + c.header)
          && (forall k :: 0 <= k < |bs| && bs[k].used ==> bs[k].stop + c.header <= p.value || p.value + size <= bs[k].start))
  }

  lemma GrantsFirst(c: Config, bs: seq<Block>, end: nat, size: nat, k: nat)
    requires WF(c, bs, end) && k == FirstFit(c, bs, size) < |bs|
    ensures Grants(c, bs, AllocAt(c, bs, k, size), end, size, Some(bs[k].start + c.header))
  {
    AllOrdered(c, bs, 0, end);
    assert GoodBlock(c, bs[k]);
    AddAligned(bs[k].start, c.header, c.align);
    AllocUse(c, bs, end, k, size);
    assert SomeFits(c, bs, size);
    hide Tiles, NoTwoFree, AllocAt, Added, GoodBlock, UsedBlocks;
  }

  lemma AllocMeans(c: Config, bs: seq<Block>, end: nat, request: nat)
    requires WF(c, bs, end)
    ensures var (p, r) := AllocSpec(c, bs, request);
      if request == 0 then p.None? && r == bs else Grants(c, bs, r, end, c.Request(request), p)
  {
    var size := c.Request(request);
    var k := FirstFit(c, bs, size);
    if request > 0 && k < |bs| { GrantsFirst(c, bs, end, size, k); }
  }

  /** When `rt_smem_realloc` succeeds for a live block: the size is within the heap and the
      block has it, can be cut to it, or some free block fits. */
  ghost predicate CanResize(c: Config, bs: seq<Block>, memSize: nat, i: nat, n: nat)
    requires c.Ok() && i < |bs|
  {
    n <= memSize && (Payload(c, bs[i]) == n || n + c.header + c.minSize < Payload(c, bs[i]) || SomeFits(c, bs, c.Request(n)))
  }

  lemma MoveMeans(c: Config, bs: seq<Block>, end: nat, i: nat, n: nat)
    requires WF(c, bs, end) && i < |bs| && bs[i].used
    ensures var (p, r) := MoveSpec(c, bs, i, n); var size := c.Request(n);
      && (p.Some? <==> SomeFits(c, bs, size)) && (p.None? ==> r == bs)
      && (p.Some? ==> Replaced(c, bs, r, i, p.value, size, size + c.header + c.MinAligned()))
  {
    var k := FirstFit(c, bs, c.Request(n));
    if k < |bs| { MoveUse(c, bs, end, i, k, c.Request(n)); }
    hide Replaced, AllocAt, FreeAt, Shifted, WF;
  }

  lemma ResizeMeans(c: Config, bs: seq<Block>, end: nat, i: nat, n: nat)
    requires WF(c, bs, end) && i < |bs| && bs[i].used && n % c.align == 0
    ensures var (p, r) := ResizeSpec(c, bs, i, n);
      && (p.Some? <==> Payload(c, bs[i]) == n || n + c.header + c.minSize < Payload(c, bs[i]) || SomeFits(c, bs, c.Request(n)))
      && (p.None? ==> r == bs)
      && (p.Some? ==> Replaced(c, bs, r, i, p.value, n, c.Request(n) + c.header + c.MinAligned()))
  {
    var most := c.Request(n) + c.header + c.MinAligned();
    if Payload(c, bs[i]) == n {
      StaysReplaced(c, bs, i, n, most);
    } else if n + c.header + c.minSize < Payload(c, bs[i]) {
      ShrinkUse(c, bs, end, i, n);
      hide UsedBlocks, Replaced, ShrinkAt;
      ReplacedBy(c, bs, ShrinkAt(c, bs, i, n), i, Block(bs[i].start, bs[i].start + c.header + n, true), n, most);
    } else {
      MoveMeans(c, bs, end, i, n);
      WeakerReplaced(c, bs, MoveSpec(c, bs, i, n).1, i, MoveSpec(c, bs, i, n).0, c.Request(n), n, most);
      hide MoveSpec, Replaced;
    }
  }

  lemma WeakerReplaced(c: Config, bs: seq<Block>, r: seq<Block>, i: nat, p: Option<nat>, least: int, less: int, most: int)
    requires i < |bs| && less <= least && (p.Some? ==> Replaced(c, bs, r, i, p.value, least, most))
    ensures p.Some? ==> Replaced(c, bs, r, i, p.value, less, most)
  {
    hide UsedBlocks;
  }

  /** The answer of `rt_smem_realloc` for the live block `i`. */
  ghost predicate Resizes(c: Config, bs: seq<Block>, r: seq<Block>, memSize: nat, i: nat, newsize: nat, p: Option<nat>)
    requires c.Ok() && i < |bs|
  {
    var n := AlignUp(newsize, c.align);
    if n == 0 then p.None? && UsedBlocks(r) == UsedBlocks(bs) - {bs[i]}
    else
      && (p.Some? <==> CanResize(c, bs, memSize, i, n))
      && (p.None? ==> r == bs)
      && (p.Some? ==> Replaced(c, bs, r, i, p.value, n, c.Request(n) + c.header + c.MinAligned()))
  }

  lemma ReallocMeans(c: Config, bs: seq<Block>, end: nat, memSize: nat, i: nat, newsize: nat)
    requires WF(c, bs, end) && i < |bs| && bs[i].used
    ensures var (p, r) := ReallocSpec(c, bs, memSize, Some(i), newsize); Resizes(c, bs, r, memSize, i, newsize, p)
  {
    var n := AlignUp(newsize, c.align);
    FreeUse(c, bs, end, i);
    ResizeMeans(c, bs, end, i, n);
    hide ResizeSpec, Replaced, UsedBlocks, FreeAt, WF, SomeFits;
  }

  /** For a null pointer it is an allocation of a size within the heap. */
  lemma ReallocNullMeans(c: Config, bs: seq<Block>, end: nat, memSize: nat, newsize: nat)
    requires WF(c, bs, end)
    ensures var (p, r) := ReallocSpec(c, bs, memSize, None, newsize); var n := AlignUp(newsize, c.align);
      if n == 0 || n > memSize then p.None? && r == bs else Grants(c, bs, r, end, c.Request(n), p)
  {
    AllocMeans(c, bs, end, AlignUp(newsize, c.align));
    hide AllocSpec, Grants;
  }
}
