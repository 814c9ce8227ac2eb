/** `memheap.c` on rows of blocks and the order of the free ring. */
module MemHeapLayout {
  import opened Common
  import opened Alignment
  import opened BlockRow

  // ---------------------------------------------------------------- accounting

  /** Payload of free blocks: what `available_size` should be. */
  function FreePayload(c: Config, bs: seq<Block>): int {
    if bs == [] then 0 else (if bs[0].used then 0 else Payload(c, bs[0])) + FreePayload(c, bs[1..])
  }

  function LivePayload(c: Config, bs: seq<Block>): int {
    if bs == [] then 0 else (if bs[0].used then Payload(c, bs[0]) else 0) + LivePayload(c, bs[1..])
  }

  lemma {:induction false} FreePayloadAppend(c: Config, a: seq<Block>, b: seq<Block>)
    ensures FreePayload(c, a + b) == FreePayload(c, a) + FreePayload(c, b)
  {
    if a == [] {
      assert a + b == b;
    } else {
      assert (a + b)[1..] == a[1..] + b;
      FreePayloadAppend(c, a[1..], b);
    }
  }

  /** Contribution of one block. */
  function Free1(c: Config, b: Block): int { if b.used then 0 else Payload(c, b) }

  lemma FreePayloadOne(c: Config, b: Block)
    ensures FreePayload(c, [b]) == Free1(c, b)
  {
  }

  lemma FreePayloadTwo(c: Config, a: Block, b: Block)
    ensures FreePayload(c, [a, b]) == Free1(c, a) + Free1(c, b)
  {
    assert [a, b] == [a] + [b];
    FreePayloadAppend(c, [a], [b]);
  }

  lemma FreePayloadSplice(c: Config, bs: seq<Block>, lo: nat, hi: nat, mid: seq<Block>)
    requires lo <= hi <= |bs|
    ensures FreePayload(c, Splice(bs, lo, hi, mid)) == FreePayload(c, bs) - FreePayload(c, bs[lo..hi]) + FreePayload(c, mid)
  {
    FreePayloadAppend(c, bs[..lo] + mid, bs[hi..]);
    FreePayloadAppend(c, bs[..lo], mid);
    assert bs == bs[..lo] + bs[lo..hi] + bs[hi..];
    FreePayloadAppend(c, bs[..lo] + bs[lo..hi], bs[hi..]);
    FreePayloadAppend(c, bs[..lo], bs[lo..hi]);
  }

  /** Nothing is lost: live payload, free payload and one header per block, the tail
      marker's included, make up the pool. */
  lemma {:induction false} Conservation(c: Config, bs: seq<Block>, from: nat, end: nat)
    requires c.Ok() && Tiles(c, bs, from, end)
    ensures LivePayload(c, bs) + FreePayload(c, bs) + (|bs| + 1) * c.header == end - from + c.header
  {
    if |bs| == 1 {
      assert bs[1..] == [];
    } else {
      var rest := bs[1..];
      assert bs[0].stop == bs[1].start;
      TailTiles(c, bs, from, end);
      Conservation(c, rest, bs[0].stop, end);
      assert (|bs| + 1) * c.header == (|rest| + 1) * c.header + c.header;
    }
  }

  lemma TailTiles(c: Config, bs: seq<Block>, from: nat, end: nat)
    requires c.Ok() && Tiles(c, bs, from, end) && |bs| > 1
    ensures Tiles(c, bs[1..], bs[0].stop, end)
  {
    hide GoodBlock;
    var rest := bs[1..];
    assert bs[0].stop == bs[1].start;
    forall i | 0 <= i < |rest| ensures GoodBlock(c, rest[i]) { assert GoodBlock(c, bs[i + 1]); }
    forall i, j | 0 <= i && j == i + 1 && j < |rest| ensures rest[i].stop == rest[j].start {
      assert bs[i + 1].stop == bs[j + 1].start;
    }
  }

  /** A single free block holds no more than is available. */
  lemma {:induction false} OneOfFree(c: Config, bs: seq<Block>, i: nat)
    requires c.Ok() && (forall j :: 0 <= j < |bs| ==> Payload(c, bs[j]) >= 0) && i < |bs| && !bs[i].used
    ensures FreePayload(c, bs) >= Payload(c, bs[i])
    ensures FreePayload(c, bs) == Payload(c, bs[i]) ==> forall j :: 0 <= j < |bs| && j != i && !bs[j].used ==> Payload(c, bs[j]) == 0
  {
    FreePayloadNonNegative(c, bs[1..]);
    if i > 0 {
      OneOfFree(c, bs[1..], i - 1);
      forall j | FreePayload(c, bs) == Payload(c, bs[i]) && 0 <= j < |bs| && j != i && !bs[j].used
        ensures Payload(c, bs[j]) == 0
      {
        if j > 0 { assert bs[1..][j - 1] == bs[j]; }
      }
    } else {
      forall j | FreePayload(c, bs) == Payload(c, bs[i]) && 0 < j < |bs| && !bs[j].used
        ensures Payload(c, bs[j]) == 0
      {
        assert bs[1..][j - 1] == bs[j];
        OneOfFree(c, bs[1..], j - 1);
      }
    }
  }

  lemma {:induction false} FreePayloadNonNegative(c: Config, bs: seq<Block>)
    requires forall j :: 0 <= j < |bs| ==> Payload(c, bs[j]) >= 0
    ensures FreePayload(c, bs) >= 0
  {
    if bs != [] {
      assert forall j :: 0 <= j < |bs[1..]| ==> bs[1..][j] == bs[j + 1];
      FreePayloadNonNegative(c, bs[1..]);
    }
  }

  // ---------------------------------------------------------------- the free ring

  /** Index of the block that starts at `a`; `|bs|` if there is none. */
  function IndexAt(bs: seq<Block>, a: nat): (i: nat)
    ensures i <= |bs|
    ensures i < |bs| ==> bs[i].start == a
    ensures i == |bs| ==> forall j :: 0 <= j < |bs| ==> bs[j].start != a
  {
    if bs == [] then 0
    else if bs[0].start == a then 0
    else
      var i := IndexAt(bs[1..], a);
      assert forall j :: 1 <= j < |bs| ==> bs[j] == bs[1..][j - 1];
      1 + i
  }

  /** The ring holds exactly the free blocks, each once. */
  ghost predicate RingOf(bs: seq<Block>, ring: seq<nat>) {
    && NoDup(ring)
    && (forall a: nat :: a in ring ==> IndexAt(bs, a) < |bs| && !bs[IndexAt(bs, a)].used)
    && (forall i :: 0 <= i < |bs| && !bs[i].used ==> bs[i].start in ring)
  }

  /** `ring` lists the starts of the free blocks of `bs`, given the ordering of starts. */
  lemma IndexAtIs(header: nat, bs: seq<Block>, end: nat, i: nat)
    requires Row(header, bs, end) && i < |bs|
    ensures IndexAt(bs, bs[i].start) == i
  {
    var k := IndexAt(bs, bs[i].start);
    if k != i { StartsDiffer(header, bs, end, k, i); }
  }

  function PayloadAt(c: Config, bs: seq<Block>, a: nat): int {
    var i := IndexAt(bs, a);
    if i < |bs| then Payload(c, bs[i]) else -1
  }

  /** The search loop: the first ring entry that is large enough. */
  function RingFit(c: Config, bs: seq<Block>, ring: seq<nat>, size: nat): (k: nat)
    ensures k <= |ring|
    ensures forall j :: 0 <= j < k ==> PayloadAt(c, bs, ring[j]) < size
    ensures k < |ring| ==> PayloadAt(c, bs, ring[k]) >= size
  {
    if ring == [] then 0
    else if PayloadAt(c, bs, ring[0]) >= size then 0
    else
      var k := RingFit(c, bs, ring[1..], size);
      assert forall j :: 1 <= j < k + 1 ==> ring[j] == ring[1..][j - 1];
      k + 1
  }

  lemma RingFitIs(c: Config, bs: seq<Block>, ring: seq<nat>, size: nat, k: nat)
    requires k <= |ring| && (forall j :: 0 <= j < k ==> PayloadAt(c, bs, ring[j]) < size)
    requires k < |ring| ==> PayloadAt(c, bs, ring[k]) >= size
    ensures RingFit(c, bs, ring, size) == k
  {
  }

  /** A scan of the ring finds something exactly if some free block fits. */
  lemma RingFitComplete(c: Config, bs: seq<Block>, end: nat, ring: seq<nat>, size: nat)
    requires c.Ok() && Row(c.header, bs, end) && RingOf(bs, ring)
    ensures RingFit(c, bs, ring, size) < |ring| <==> exists i :: 0 <= i < |bs| && Fits(c, bs[i], size)
  {
    var k := RingFit(c, bs, ring, size);
    if k < |ring| {
      assert ring[k] in ring;
      assert Fits(c, bs[IndexAt(bs, ring[k])], size);
    }
    if i :| 0 <= i < |bs| && Fits(c, bs[i], size) {
      assert bs[i].start in ring;
      IndexAtIs(c.header, bs, end, i);
      var j :| 0 <= j < |ring| && ring[j] == bs[i].start;
    }
  }

  // ---------------------------------------------------------------- elementary changes of the row

  /** Blocks `i` and `i + 1` as one. */
  function Join(bs: seq<Block>, i: nat): seq<Block>
    requires i + 1 < |bs|
  {
    Splice(bs, i, i + 2, [Block(bs[i].start, bs[i + 1].stop, bs[i].used)])
  }

  lemma JoinTiles(c: Config, bs: seq<Block>, end: nat, i: nat)
    requires c.Ok() && Tiles(c, bs, 0, end) && i + 1 < |bs|
    ensures Tiles(c, Join(bs, i), 0, end)
  {
    assert GoodBlock(c, bs[i]) && GoodBlock(c, bs[i + 1]) && bs[i].stop == bs[i + 1].start;
    SpliceTiles(c, bs, 0, end, i, i + 2, [Block(bs[i].start, bs[i + 1].stop, bs[i].used)]);
  }

  /** Block `i` cut at payload size `size`; the tail is free. */
  function Cut(header: nat, bs: seq<Block>, i: nat, size: nat): seq<Block>
    requires i < |bs|
  {
    var at := bs[i].start + header + size;
    Splice(bs, i, i + 1, [Block(bs[i].start, at, bs[i].used), Block(at, bs[i].stop, false)])
  }

  lemma CutTilesFree(c: Config, bs: seq<Block>, end: nat, i: nat, size: nat)
    requires c.Ok() && Tiles(c, bs, 0, end) && i < |bs| && size % c.align == 0
    requires Payload(c, bs[i]) >= size + c.header
    ensures Tiles(c, Cut(c.header, bs, i, size), 0, end)
  {
    var b := bs[i];
    var at := b.start + c.header + size;
    assert GoodBlock(c, b);
    AddAligned(b.start, c.header, c.align);
    AddAligned(b.start + c.header, size, c.align);
    SpliceTiles(c, bs, 0, end, i, i + 1, [Block(b.start, at, b.used), Block(at, b.stop, false)]);
  }

  // ---------------------------------------------------------------- result of each call

  datatype Layout = Layout(bs: seq<Block>, ring: seq<nat>)

  function Splits(c: Config, b: Block, size: nat): bool
    requires c.Ok()
  {
    Payload(c, b) >= size + c.header + c.MinAligned()
  }

  /** `rt_memheap_alloc` in block `i`: out of the ring, the remainder to its front. */
  function TakeLayout(c: Config, l: Layout, i: nat, size: nat): Layout
    requires c.Ok() && i < |l.bs|
  {
    var rest := Remove(l.ring, l.bs[i].start);
    Layout(AllocAt(c, l.bs, i, size),
           if Splits(c, l.bs[i], size) then [l.bs[i].start + c.header + size] + rest else rest)
  }

  /** Pointer and layout after `rt_memheap_alloc`. */
  function AllocLayout(c: Config, l: Layout, request: nat): (Option<nat>, Layout)
    requires c.Ok()
  {
    var size := c.Request(request);
    var k := RingFit(c, l.bs, l.ring, size);
    if size < FreePayload(c, l.bs) && k < |l.ring| && IndexAt(l.bs, l.ring[k]) < |l.bs|
    then (Some(l.ring[k] + c.header), TakeLayout(c, l, IndexAt(l.bs, l.ring[k]), size))
    else (None, l)
  }

  /** Allocation succeeds exactly if a free block fits and the rounded size is strictly
      less than all that is available. */
  lemma AllocSucceedsIff(c: Config, l: Layout, end: nat, request: nat)
    requires c.Ok() && Row(c.header, l.bs, end) && RingOf(l.bs, l.ring)
    ensures AllocLayout(c, l, request).0.Some? <==>
              c.Request(request) < FreePayload(c, l.bs) && exists i :: 0 <= i < |l.bs| && Fits(c, l.bs[i], c.Request(request))
  {
    var size := c.Request(request);
    RingFitComplete(c, l.bs, end, l.ring, size);
    var k := RingFit(c, l.bs, l.ring, size);
    if k < |l.ring| { assert l.ring[k] in l.ring; }
  }

  /** The strict comparison refuses a request that would fit in exactly one situation:
      all free payload sits in one block and the request asks for all of it. */
  lemma RefusedThoughFitting(c: Config, l: Layout, end: nat, request: nat, i: nat)
    requires c.Ok() && Row(c.header, l.bs, end) && RingOf(l.bs, l.ring)
    requires i < |l.bs| && Fits(c, l.bs[i], c.Request(request))
    ensures AllocLayout(c, l, request).0.None? <==>
              Payload(c, l.bs[i]) == FreePayload(c, l.bs) == c.Request(request)
  {
    AllocSucceedsIff(c, l, end, request);
    OneOfFree(c, l.bs, i);
  }

  /** `rt_memheap_free` of block `i`: merge left into a block that keeps its place in the
      ring, take a merged right neighbour out, otherwise go to the front. */
  function FreeLayout(l: Layout, i: nat): Layout
    requires i < |l.bs|
  {
    var right := i + 1 < |l.bs| && !l.bs[i + 1].used;
    var left := i > 0 && !l.bs[i - 1].used;
    var ring1 := if right then Remove(l.ring, l.bs[i + 1].start) else l.ring;
    Layout(FreeAt(l.bs, i), if left then ring1 else [l.bs[i].start] + ring1)
  }

  /** Growing block `i` into its free right neighbour. */
  function GrowLayout(c: Config, l: Layout, i: nat, n: nat): Layout
    requires i + 1 < |l.bs|
  {
    var b, next := l.bs[i], l.bs[i + 1];
    var at := b.start + c.header + n;
    Layout(Splice(l.bs, i, i + 2, [Block(b.start, at, true), Block(at, next.stop, false)]),
           [at] + Remove(l.ring, next.start))
  }

  /** Shrinking block `i` in place; the tail absorbs a free right neighbour. */
  function ShrinkLayout(c: Config, l: Layout, i: nat, n: nat): Layout
    requires i < |l.bs|
  {
    var at := l.bs[i].start + c.header + n;
    var ring1 := if i + 1 < |l.bs| && !l.bs[i + 1].used then Remove(l.ring, l.bs[i + 1].start) else l.ring;
    Layout(ShrinkAt(c, l.bs, i, n), [at] + ring1)
  }

  // ---------------------------------------------------------------- the ring stays the set of free blocks

  /** The starts of free blocks, as a set. */
  ghost function FreeStarts(bs: seq<Block>): set<nat> {
    set i | 0 <= i < |bs| && !bs[i].used :: bs[i].start
  }

  lemma RingOfStarts(header: nat, bs: seq<Block>, end: nat, ring: seq<nat>)
    requires Row(header, bs, end)
    ensures RingOf(bs, ring) <==> NoDup(ring) && (forall a: nat :: a in ring <==> a in FreeStarts(bs))
  {
    forall i | 0 <= i < |bs| ensures IndexAt(bs, bs[i].start) == i { IndexAtIs(header, bs, end, i); }
    if NoDup(ring) && (forall a: nat :: a in ring <==> a in FreeStarts(bs)) {
      forall a: nat | a in ring ensures IndexAt(bs, a) < |bs| && !bs[IndexAt(bs, a)].used {
        assert a in FreeStarts(bs);
        var i :| 0 <= i < |bs| && !bs[i].used && bs[i].start == a;
      }
      forall i | 0 <= i < |bs| && !bs[i].used ensures bs[i].start in ring { assert bs[i].start in FreeStarts(bs); }
    }
  }

  /** Replacing a stretch of the row changes the free starts only there. */
  lemma SpliceFreeStarts(bs: seq<Block>, lo: nat, hi: nat, mid: seq<Block>)
    requires lo <= hi <= |bs|
    ensures FreeStarts(Splice(bs, lo, hi, mid)) == FreeStarts(bs[..lo]) + FreeStarts(mid) + FreeStarts(bs[hi..])
  {
    var r := Splice(bs, lo, hi, mid);
    var n := lo + |mid|;
    forall a: nat ensures a in FreeStarts(r) <==> a in FreeStarts(bs[..lo]) + FreeStarts(mid) + FreeStarts(bs[hi..]) {
      if a in FreeStarts(r) {
        var k :| 0 <= k < |r| && !r[k].used && r[k].start == a;
        if k < lo { assert bs[..lo][k] == r[k]; }
        else if k < n { assert mid[k - lo] == r[k]; }
        else { assert bs[hi..][k - n] == r[k]; }
      }
      if a in FreeStarts(bs[..lo]) { var k :| 0 <= k < lo && !bs[..lo][k].used && bs[..lo][k].start == a; assert r[k] == bs[..lo][k]; }
      if a in FreeStarts(mid) { var k :| 0 <= k < |mid| && !mid[k].used && mid[k].start == a; assert r[lo + k] == mid[k]; }
      if a in FreeStarts(bs[hi..]) {
        var k :| 0 <= k < |bs[hi..]| && !bs[hi..][k].used && bs[hi..][k].start == a;
        assert r[n + k] == bs[hi..][k];
      }
    }
  }
}
