/** What the callers of the memory-heap pool get, said about used blocks only. */
module MemHeapGrants {
  import opened Common
  import opened Alignment
  import opened BlockRow
  import opened BlockUse
  import opened MemHeapLayout
  import opened MemHeapSteps

  /** The block of an allocation is the first in the ring that fits; nothing exactly if none
      does or the size reaches what is available. */
  ghost predicate RingGrants(c: Config, l: Layout, r: Layout, end: nat, size: nat, p: Option<nat>)
    requires c.Ok()
  {
    && (p.Some? <==> size < FreePayload(c, l.bs) && SomeFits(c, l.bs, size))
    && (p.None? ==> r == l)
    && (p.Some? ==>
          && p.value % c.align == 0 && p.value + size <= end
          && Added(c, l.bs, r.bs, p.value, size, size + c.header + c.MinAligned())
          && FirstInRing(c, l, size, p.value)
          && (forall k :: 0 <= k < |l.bs| && l.bs[k].used ==> l.bs[k].stop + c.header <= p.value || p.value + size <= l.bs[k].start))
  }

  ghost predicate FirstInRing(c: Config, l: Layout, size: nat, p: nat) {
    exists k :: 0 <= k < |l.ring| && p == l.ring[k] + c.header && forall j :: 0 <= j < k ==> PayloadAt(c, l.bs, l.ring[j]) < size
  }

  lemma AllocMeans(c: Config, l: Layout, end: nat, request: nat)
    requires Good(c, l, end)
    ensures var (p, r) := AllocLayout(c, l, request); RingGrants(c, l, r, end, c.Request(request), p)
  {
    AllocIff(c, l, end, request);
    hide *;
    if AllocLayout(c, l, request).0.Some? {
      var f, k := AllocFound(c, l, end, request);
      TakeMeans(c, l, end, f, k, c.Request(request), AllocLayout(c, l, request).1);
    } else {
      AllocFails(c, l, request);
      RefusalMeans(c, l, end, c.Request(request));
    }
  }

  /** The ring entry and the block an allocation takes. */
  lemma AllocFound(c: Config, l: Layout, end: nat, request: nat) returns (f: nat, k: nat)
    requires Good(c, l, end) && AllocLayout(c, l, request).0.Some?
    ensures f < |l.ring| && k < |l.bs| && l.ring[f] == l.bs[k].start && Fits(c, l.bs[k], c.Request(request))
    ensures forall j :: 0 <= j < f ==> PayloadAt(c, l.bs, l.ring[j]) < c.Request(request)
    ensures AllocLayout(c, l, request).0 == Some(l.ring[f] + c.header)
    ensures AllocLayout(c, l, request).1.bs == AllocAt(c, l.bs, k, c.Request(request))
  {
    hide Tiles, NoTwoFree, RingOf, RingFit, IndexAt, PayloadAt, TakeLayout, AllocAt, FreePayload, AlignUp, AllocLayout;
    f := RingFit(c, l.bs, l.ring, c.Request(request));
    AllocCases(c, l, request);
    k := IndexAt(l.bs, l.ring[f]);
    TakenBlocks(c, l, k, c.Request(request));
  }

  lemma AllocIff(c: Config, l: Layout, end: nat, request: nat)
    requires Good(c, l, end)
    ensures WF(c, l.bs, end)
    ensures AllocLayout(c, l, request).0.Some? <==> c.Request(request) < FreePayload(c, l.bs) && SomeFits(c, l.bs, c.Request(request))
  {
    TilesRow(c, l.bs, end);
    AllocSucceedsIff(c, l, end, request);
    hide Tiles, NoTwoFree, AllocLayout, FreePayload, RingOf;
  }

  lemma RefusalMeans(c: Config, l: Layout, end: nat, size: nat)
    requires c.Ok() && !(size < FreePayload(c, l.bs) && SomeFits(c, l.bs, size))
    ensures RingGrants(c, l, l, end, size, None)
  {
  }

  lemma TakeMeans(c: Config, l: Layout, end: nat, f: nat, k: nat, size: nat, r: Layout)
    requires WF(c, l.bs, end) && f < |l.ring| && k < |l.bs| && l.ring[f] == l.bs[k].start && Fits(c, l.bs[k], size)
    requires (forall j :: 0 <= j < f ==> PayloadAt(c, l.bs, l.ring[j]) < size) && r.bs == AllocAt(c, l.bs, k, size)
    requires size < FreePayload(c, l.bs)
    ensures RingGrants(c, l, r, end, size, Some(l.ring[f] + c.header))
  {
    AllocUse(c, l.bs, end, k, size);
    Apart(c, l.bs, end, k, size);
    hide Tiles, NoTwoFree, Added, AllocAt, FreePayload;
    assert FirstInRing(c, l, size, l.ring[f] + c.header);
    assert SomeFits(c, l.bs, size);
  }

  lemma Apart(c: Config, bs: seq<Block>, end: nat, k: nat, size: nat)
    requires c.Ok() && Tiles(c, bs, 0, end) && k < |bs| && Fits(c, bs[k], size)
    ensures (bs[k].start + c.header) % c.align == 0 && bs[k].start + c.header + size <= end
    ensures forall j :: 0 <= j < |bs| && bs[j].used ==> bs[j].stop <= bs[k].start || bs[k].start + c.header + size <= bs[j].start
  {
    AllOrdered(c, bs, 0, end);
    assert GoodBlock(c, bs[k]);
    AddAligned(bs[k].start, c.header, c.align);
  }

  /** When `rt_memheap_realloc` succeeds for a live block: the block has the size, its right
      neighbour has the room, or an allocation succeeds. */
  ghost predicate CanResize(c: Config, l: Layout, i: nat, n: nat)
    requires c.Ok() && i < |l.bs|
  {
    || n <= Payload(c, l.bs[i])
    || (i + 1 < |l.bs| && !l.bs[i + 1].used && Payload(c, l.bs[i + 1]) + Payload(c, l.bs[i]) > n + c.MinAligned())
    || (n < FreePayload(c, l.bs) && SomeFits(c, l.bs, n))
  }

  /** The answer of `rt_memheap_realloc` for the live block `i`. */
  ghost predicate Resizes(c: Config, l: Layout, r: Layout, i: nat, newsize: nat, p: Option<nat>)
    requires c.Ok() && i < |l.bs|
  {
    var n := c.Request(newsize);
    if newsize == 0 then p.None? && UsedBlocks(r.bs) == UsedBlocks(l.bs) - {l.bs[i]}
    else
      && (p.Some? <==> CanResize(c, l, i, n))
      && (p.None? ==> r == l)
      && (p.Some? ==> Replaced(c, l.bs, r.bs, i, p.value, n, n + c.header + c.MinAligned()))
  }

  lemma RequestTwice(c: Config, n: nat)
    requires c.Ok() && n % c.align == 0 && n >= c.MinAligned()
    ensures c.Request(n) == n
  {
    AlignUpFixed(n, c.align);
  }

  lemma MoveMeans(c: Config, l: Layout, end: nat, i: nat, n: nat)
    requires Good(c, l, end) && i < |l.bs| && l.bs[i].used && c.Request(n) == n
    ensures var (p, r) := MoveLayout(c, l, i, n);
      && (p.Some? <==> n < FreePayload(c, l.bs) && SomeFits(c, l.bs, n))
      && (p.None? ==> r == l)
      && (p.Some? ==> Replaced(c, l.bs, r.bs, i, p.value, n, n + c.header + c.MinAligned()))
  {
    AllocMeans(c, l, end, n);
    hide Tiles, NoTwoFree, RingOf, AllocLayout, MoveLayout, FreePayload, Added, Replaced, Taken, FreeLayout, Shifted;
    if AllocLayout(c, l, n).0.Some? {
      var k := Taken(c, l, n);
      TakenFits(c, l, n);
      TakenBlocks(c, l, k, n);
      MoveUse(c, l.bs, end, i, k, n);
      MoveSucceeds(c, l, i, n);
      FreedBlocks(AllocLayout(c, l, n).1, Shifted(c, l.bs, k, n, i));
    } else {
      MoveFails(c, l, i, n);
    }
  }

  lemma FreedBlocks(l: Layout, i: nat)
    requires i < |l.bs|
    ensures FreeLayout(l, i).bs == FreeAt(l.bs, i)
  {
  }

  lemma GrowMeans(c: Config, l: Layout, end: nat, i: nat, n: nat, most: nat)
    requires Good(c, l, end) && i < |l.bs| && l.bs[i].used && Grows(c, l.bs, i, n) && n <= most
    ensures Replaced(c, l.bs, GrowLayout(c, l, i, n).bs, i, l.bs[i].start + c.header, n, most)
  {
    GrowUse(c, l.bs, end, i, n);
    var x := Block(l.bs[i].start, l.bs[i].start + c.header + n, true);
    ReplacedBy(c, l.bs, GrowLayout(c, l, i, n).bs, i, x, n, most);
  }

  lemma ShrinkMeans(c: Config, l: Layout, end: nat, i: nat, n: nat, most: nat)
    requires Good(c, l, end) && i < |l.bs| && l.bs[i].used && n % c.align == 0 && Payload(c, l.bs[i]) >= n + c.header && n <= most
    ensures Replaced(c, l.bs, ShrinkLayout(c, l, i, n).bs, i, l.bs[i].start + c.header, n, most)
  {
    hide Tiles, NoTwoFree, RingOf, ShrinkAt, UsedBlocks;
    ShrinkUse(c, l.bs, end, i, n);
    ShrunkBlocks(c, l, i, n);
    ReplacedBy(c, l.bs, ShrinkAt(c, l.bs, i, n), i, Block(l.bs[i].start, l.bs[i].start + c.header + n, true), n, most);
  }

  lemma ResizeMeans(c: Config, l: Layout, end: nat, i: nat, n: nat)
    requires Good(c, l, end) && i < |l.bs| && l.bs[i].used && n % c.align == 0 && c.Request(n) == n
    ensures var (p, r) := ResizeLayout(c, l, i, n);
      && (p.Some? <==> CanResize(c, l, i, n))
      && (p.None? ==> r == l)
      && (p.Some? ==> Replaced(c, l.bs, r.bs, i, p.value, n, n + c.header + c.MinAligned()))
  {
    var b := l.bs[i];
    hide Tiles, NoTwoFree, RingOf, MoveLayout, GrowLayout, ShrinkLayout, ShrinkAt, FreePayload, UsedBlocks, Replaced, SomeFits, AlignUp;
    if n > Payload(c, b) {
      if Grows(c, l.bs, i, n) { GrowMeans(c, l, end, i, n, n + c.header + c.MinAligned()); } else { MoveMeans(c, l, end, i, n); }
    } else if n + c.header + c.MinAligned() >= Payload(c, b) {
      StaysReplaced(c, l.bs, i, n, n + c.header + c.MinAligned());
    } else {
      ShrinkMeans(c, l, end, i, n, n + c.header + c.MinAligned());
    }
  }

  lemma ReallocMeans(c: Config, l: Layout, end: nat, i: nat, newsize: nat)
    requires Good(c, l, end) && i < |l.bs| && l.bs[i].used
    ensures var (p, r) := ReallocLayout(c, l, Some(i), newsize); Resizes(c, l, r, i, newsize, p)
  {
    var n := c.Request(newsize);
    RequestTwice(c, n);
    FreeUse(c, l.bs, end, i);
    FreedBlocks(l, i);
    ResizeMeans(c, l, end, i, n);
    hide ResizeLayout, FreeLayout, FreeAt, UsedBlocks, Replaced, CanResize;
  }

  /** For a null pointer it is an allocation. */
  lemma ReallocNullMeans(c: Config, l: Layout, end: nat, newsize: nat)
    requires Good(c, l, end)
    ensures var (p, r) := ReallocLayout(c, l, None, newsize);
      if newsize == 0 then p.None? && r == l else RingGrants(c, l, r, end, c.Request(newsize), p)
  {
    RequestTwice(c, c.Request(newsize));
    AllocMeans(c, l, end, c.Request(newsize));
    hide AllocLayout, RingGrants;
  }
}
