/** A heap seen as a row of blocks, shared by both allocators.

    A block runs from its header to the next header.  All offsets are relative to the
    start of the heap.  Each heap operation is a change of the row. */
module BlockRow {
  import opened Common
  import opened Alignment

  /** `align` is RT_ALIGN_SIZE, `header` the aligned size of a header, `minSize` MIN_SIZE. */
  datatype Config = Config(align: nat, header: nat, minSize: nat) {
    predicate Ok() { align > 0 && header > 0 && header % align == 0 && minSize > 0 }

    /** MIN_SIZE_ALIGNED. */
    function MinAligned(): nat requires Ok() { AlignUp(minSize, align) }

    /** The size `rt_smem_alloc` looks for. */
    function Request(size: nat): (r: nat)
      requires Ok()
      ensures r >= size && r > 0 && r % align == 0 && (r < size + align || r == MinAligned())
    {
      Max(AlignUp(size, align), MinAligned())
    }
  }

  datatype Block = Block(start: nat, stop: nat, used: bool)

  /** Payload bytes of a block. */
  function Payload(c: Config, b: Block): int { b.stop - b.start - c.header }

  ghost predicate GoodBlock(c: Config, b: Block)
    requires c.Ok()
  {
    b.start + c.header <= b.stop && b.start % c.align == 0 && b.stop % c.align == 0
  }

  /** The blocks tile [from, to) without gaps. */
  ghost predicate Tiles(c: Config, bs: seq<Block>, from: nat, to: nat)
    requires c.Ok()
  {
    && bs != []
    && bs[0].start == from
    && bs[|bs| - 1].stop == to
    && (forall i :: 0 <= i < |bs| ==> GoodBlock(c, bs[i]))
    && (forall i, j {:trigger bs[i], bs[j]} :: 0 <= i && j == i + 1 && j < |bs| ==> bs[i].stop == bs[j].start)
  }

  ghost predicate NoTwoFree(bs: seq<Block>) {
    forall i, j {:trigger bs[i], bs[j]} :: 0 <= i && j == i + 1 && j < |bs| ==> bs[i].used || bs[j].used
  }

  /** Tiling, and freed neighbours are always merged. */
  ghost predicate WF(c: Config, bs: seq<Block>, end: nat) {
    c.Ok() && Tiles(c, bs, 0, end) && NoTwoFree(bs)
  }

  /** Earlier blocks end before later ones begin. */
  lemma {:induction false} Ordered(c: Config, bs: seq<Block>, from: nat, to: nat, i: nat, j: nat)
    requires c.Ok() && Tiles(c, bs, from, to) && i < j < |bs|
    ensures bs[i].stop <= bs[j].start && bs[i].start < bs[j].start
  {
    assert GoodBlock(c, bs[i]) && GoodBlock(c, bs[j - 1]);
    if i + 1 < j { Ordered(c, bs, from, to, i, j - 1); }
  }

  lemma AllOrdered(c: Config, bs: seq<Block>, from: nat, to: nat)
    requires c.Ok() && Tiles(c, bs, from, to)
    ensures forall i, j :: 0 <= i < j < |bs| ==> bs[i].stop <= bs[j].start && bs[i].start < bs[j].start
    ensures forall i :: 0 <= i < |bs| ==> bs[i].stop <= to
  {
    forall i, j | 0 <= i < j < |bs| ensures bs[i].stop <= bs[j].start && bs[i].start < bs[j].start {
      Ordered(c, bs, from, to, i, j);
    }
    forall i | 0 <= i < |bs| ensures bs[i].stop <= to {
      if i < |bs| - 1 { Ordered(c, bs, from, to, i, |bs| - 1); assert GoodBlock(c, bs[|bs| - 1]); }
    }
  }

  /** Blocks follow each other without gaps; what tiling says apart from alignment. */
  ghost predicate Row(header: nat, bs: seq<Block>, end: nat) {
    && header > 0 && bs != []
    && bs[0].start == 0 && bs[|bs| - 1].stop == end
    && (forall i :: 0 <= i < |bs| ==> bs[i].start + header <= bs[i].stop <= end)
    && (forall i, j {:trigger bs[i], bs[j]} :: 0 <= i && j == i + 1 && j < |bs| ==> bs[i].stop == bs[j].start)
    && (forall i, j :: 0 <= i < j < |bs| ==> bs[i].stop <= bs[j].start)
  }

  lemma TilesRow(c: Config, bs: seq<Block>, end: nat)
    requires c.Ok() && Tiles(c, bs, 0, end)
    ensures Row(c.header, bs, end)
  {
    AllOrdered(c, bs, 0, end);
    forall i | 0 <= i < |bs| ensures bs[i].start + c.header <= bs[i].stop { assert GoodBlock(c, bs[i]); }
  }

  /** Distinct blocks have distinct header addresses, none of them the end marker's. */
  lemma StartsDiffer(header: nat, bs: seq<Block>, end: nat, i: nat, j: nat)
    requires Row(header, bs, end) && i < |bs| && j < |bs|
    ensures bs[i].start < end && bs[j].start < end
    ensures i < j ==> bs[i].start < bs[j].start
    ensures j < i ==> bs[j].start < bs[i].start
  {
  }

  lemma RangesApart(c: Config, bs: seq<Block>, end: nat, i: nat, j: nat)
    requires c.Ok() && Tiles(c, bs, 0, end) && i < |bs| && j < |bs| && i != j
    ensures bs[i].stop <= bs[j].start || bs[j].stop <= bs[i].start
    ensures bs[i].stop <= end && bs[j].stop <= end
  {
    AllOrdered(c, bs, 0, end);
  }

  // ---------------------------------------------------------------- replacing a stretch of blocks

  /** Blocks [lo, hi) replaced by `mid`. */
  function Splice(bs: seq<Block>, lo: nat, hi: nat, mid: seq<Block>): seq<Block>
    requires lo <= hi <= |bs|
  {
    bs[..lo] + mid + bs[hi..]
  }

  /** Replacing a stretch by a tiling of the same extent keeps the tiling. */
  lemma SpliceTiles(c: Config, bs: seq<Block>, from: nat, to: nat, lo: nat, hi: nat, mid: seq<Block>)
    requires c.Ok() && Tiles(c, bs, from, to) && lo < hi <= |bs|
    requires Tiles(c, mid, bs[lo].start, bs[hi - 1].stop)
    ensures Tiles(c, Splice(bs, lo, hi, mid), from, to)
  {
    hide GoodBlock;
    var r := Splice(bs, lo, hi, mid);
    var n := lo + |mid|;
    assert forall i :: 0 <= i < lo ==> r[i] == bs[i];
    assert forall i :: lo <= i < n ==> r[i] == mid[i - lo];
    assert forall i :: n <= i < |r| ==> r[i] == bs[i - n + hi];
    forall i | 0 <= i < |r| ensures GoodBlock(c, r[i]) {
      if i < lo { assert GoodBlock(c, bs[i]); }
      else if i < n { assert GoodBlock(c, mid[i - lo]); }
      else { assert GoodBlock(c, bs[i - n + hi]); }
    }
    forall i | 0 <= i < |r| - 1 ensures r[i].stop == r[i + 1].start {
      if i < lo { assert bs[i].stop == bs[i + 1].start; }
      else if i < n - 1 { assert mid[i - lo].stop == mid[i - lo + 1].start; }
      else if i == n - 1 { assert bs[hi - 1].stop == bs[hi].start; }
      else { assert bs[i - n + hi].stop == bs[i - n + hi + 1].start; }
    }
  }

  // ---------------------------------------------------------------- used extents

  /** What a block contributes to the accounted size. */
  function Extent(b: Block): int { if b.used then b.stop - b.start else 0 }

  /** Bytes taken by used blocks, headers included. */
  function UsedSum(bs: seq<Block>): (r: int) {
    if bs == [] then 0 else Extent(bs[0]) + UsedSum(bs[1..])
  }

  lemma {:induction false} UsedSumAppend(a: seq<Block>, b: seq<Block>)
    ensures UsedSum(a + b) == UsedSum(a) + UsedSum(b)
  {
    if a == [] {
      assert a + b == b;
    } else {
      assert (a + b)[1..] == a[1..] + b;
      UsedSumAppend(a[1..], b);
    }
  }

  lemma UsedSumSplice(bs: seq<Block>, lo: nat, hi: nat, mid: seq<Block>)
    requires lo <= hi <= |bs|
    ensures UsedSum(Splice(bs, lo, hi, mid)) == UsedSum(bs) - UsedSum(bs[lo..hi]) + UsedSum(mid)
  {
    UsedSumAppend(bs[..lo] + mid, bs[hi..]);
    UsedSumAppend(bs[..lo], mid);
    assert bs == bs[..lo] + bs[lo..hi] + bs[hi..];
    UsedSumAppend(bs[..lo] + bs[lo..hi], bs[hi..]);
    UsedSumAppend(bs[..lo], bs[lo..hi]);
  }

  lemma UsedSumTwo(a: Block, b: Block)
    ensures UsedSum([a, b]) == Extent(a) + Extent(b)
  {
    assert [a, b] == [a] + [b];
    UsedSumAppend([a], [b]);
  }

  // ---------------------------------------------------------------- layout after each operation

  predicate Fits(c: Config, b: Block, size: nat) { !b.used && Payload(c, b) >= size }

  /** The block whose payload begins at `p`. */
  ghost predicate IsBlock(c: Config, bs: seq<Block>, i: nat, p: nat) {
    i < |bs| && bs[i].start + c.header == p
  }

  ghost predicate Live(c: Config, bs: seq<Block>, i: nat, p: nat) {
    IsBlock(c, bs, i, p) && bs[i].used
  }

  /** Allocation in block `i`: split off the tail if a header and a minimal payload fit into it. */
  function AllocAt(c: Config, bs: seq<Block>, i: nat, size: nat): seq<Block>
    requires c.Ok() && i < |bs|
  {
    var b := bs[i];
    if Payload(c, b) >= size + c.header + c.MinAligned()
    then Splice(bs, i, i + 1, [Block(b.start, b.start + c.header + size, true), Block(b.start + c.header + size, b.stop, false)])
    else bs[i := b.(used := true)]
  }

  /** `plug_holes` on the free block `i`: first the right neighbour, then the left one. */
  function MergeRight(bs: seq<Block>, i: nat): seq<Block>
    requires i < |bs|
  {
    if i + 1 < |bs| && !bs[i + 1].used
    then Splice(bs, i, i + 2, [Block(bs[i].start, bs[i + 1].stop, false)])
    else bs
  }

  function MergeLeft(bs: seq<Block>, i: nat): seq<Block>
    requires i < |bs|
  {
    if i > 0 && !bs[i - 1].used
    then Splice(bs, i - 1, i + 1, [Block(bs[i - 1].start, bs[i].stop, false)])
    else bs
  }

  function PlugHoles(bs: seq<Block>, i: nat): seq<Block>
    requires i < |bs|
  {
    MergeLeft(MergeRight(bs, i), i)
  }

  function FreeAt(bs: seq<Block>, i: nat): seq<Block>
    requires i < |bs|
  {
    PlugHoles(bs[i := bs[i].(used := false)], i)
  }

  /** Shrinking block `i` in place to a payload of `size`. */
  function CutAt(c: Config, bs: seq<Block>, i: nat, size: nat): seq<Block>
    requires i < |bs|
  {
    var b := bs[i];
    Splice(bs, i, i + 1, [Block(b.start, b.start + c.header + size, true), Block(b.start + c.header + size, b.stop, false)])
  }

  /** The same, said by index. */
  lemma CutRow(c: Config, bs: seq<Block>, i: nat, size: nat)
    requires i < |bs|
    ensures var r, at := CutAt(c, bs, i, size), bs[i].start + c.header + size;
      && |r| == |bs| + 1
      && (forall j :: 0 <= j < i ==> r[j] == bs[j])
      && r[i] == Block(bs[i].start, at, true) && r[i + 1] == Block(at, bs[i].stop, false)
      && (forall j :: i + 1 < j < |r| ==> r[j] == bs[j - 1])
  {
  }

  function ShrinkAt(c: Config, bs: seq<Block>, i: nat, size: nat): seq<Block>
    requires i < |bs|
  {
    PlugHoles(CutAt(c, bs, i, size), i + 1)
  }

  /** Merging a free block to the left is merging its free left neighbour to the right. */
  lemma LeftIsRight(bs: seq<Block>, i: nat)
    requires i < |bs| && !bs[i].used
    ensures MergeLeft(bs, i) == if i > 0 && !bs[i - 1].used then MergeRight(bs, i - 1) else bs
  {
  }

  /** `r` is `bs` with blocks `i` and `i + 1` merged, said by index. */
  ghost predicate MergedRow(bs: seq<Block>, i: nat, r: seq<Block>) {
    && i + 1 < |bs| && |r| == |bs| - 1
    && (forall j :: 0 <= j < i ==> r[j] == bs[j])
    && r[i] == Block(bs[i].start, bs[i + 1].stop, false)
    && (forall j :: i < j < |r| ==> r[j] == bs[j + 1])
  }

  lemma MergeRightRow(bs: seq<Block>, i: nat)
    requires i + 1 < |bs| && !bs[i + 1].used
    ensures MergedRow(bs, i, MergeRight(bs, i))
  {
  }

  lemma AllocTakes(c: Config, bs: seq<Block>, k: nat, size: nat)
    requires c.Ok() && k < |bs|
    ensures k < |AllocAt(c, bs, k, size)| && AllocAt(c, bs, k, size)[k].used
    ensures AllocAt(c, bs, k, size)[k].start == bs[k].start
  {
  }

  /** The index of block `i` after an allocation in block `k`. */
  function Shifted(c: Config, bs: seq<Block>, k: nat, size: nat, i: nat): nat
    requires c.Ok() && k < |bs| && i < |bs|
  {
    if i <= k then i else i + |AllocAt(c, bs, k, size)| - |bs|
  }

  /** Allocation leaves every other block as it is and where it is in the row. */
  lemma AllocShifts(c: Config, bs: seq<Block>, k: nat, size: nat, i: nat)
    requires c.Ok() && k < |bs| && i < |bs| && i != k
    ensures Shifted(c, bs, k, size, i) < |AllocAt(c, bs, k, size)|
    ensures Shifted(c, bs, k, size, i) != k
    ensures AllocAt(c, bs, k, size)[Shifted(c, bs, k, size, i)] == bs[i]
    ensures k < |AllocAt(c, bs, k, size)| && AllocAt(c, bs, k, size)[k].used
    ensures AllocAt(c, bs, k, size)[k].start == bs[k].start
  {
  }

  /** There is room for the copy at both ends. */
  lemma MoveRoom(c: Config, bs: seq<Block>, end: nat, i: nat, k: nat, size: nat)
    requires c.Ok() && Tiles(c, bs, 0, end) && i < |bs| && k < |bs| && i != k && Fits(c, bs[k], size)
    ensures k < |AllocAt(c, bs, k, size)|
    ensures AllocAt(c, bs, k, size)[k].stop >= bs[k].start + c.header + size
    ensures bs[i].stop <= bs[k].start || bs[k].stop <= bs[i].start
  {
    RangesApart(c, bs, end, i, k);
  }

  // ---------------------------------------------------------------- operations keep rows well formed

  lemma CutTiles(c: Config, bs: seq<Block>, from: nat, to: nat, i: nat, size: nat)
    requires c.Ok() && Tiles(c, bs, from, to) && i < |bs| && size % c.align == 0
    requires Payload(c, bs[i]) >= size + c.header
    ensures Tiles(c, CutAt(c, bs, i, size), from, to)
  {
    var b := bs[i];
    assert GoodBlock(c, b);
    AddAligned(b.start, c.header, c.align);
    AddAligned(b.start + c.header, size, c.align);
    var mid := [Block(b.start, b.start + c.header + size, true), Block(b.start + c.header + size, b.stop, false)];
    SpliceTiles(c, bs, from, to, i, i + 1, mid);
  }

  lemma FlagTiles(c: Config, bs: seq<Block>, from: nat, to: nat, i: nat, used: bool)
    requires c.Ok() && Tiles(c, bs, from, to) && i < |bs|
    ensures Tiles(c, bs[i := bs[i].(used := used)], from, to)
  {
    assert GoodBlock(c, bs[i]);
    var r := bs[i := bs[i].(used := used)];
    forall j | 0 <= j < |r| ensures GoodBlock(c, r[j]) { assert GoodBlock(c, bs[j]); }
    forall j | 0 <= j < |r| - 1 ensures r[j].stop == r[j + 1].start { assert bs[j].stop == bs[j + 1].start; }
  }

  lemma MergeTiles(c: Config, bs: seq<Block>, from: nat, to: nat, i: nat)
    requires c.Ok() && Tiles(c, bs, from, to) && i + 1 < |bs|
    ensures Tiles(c, Splice(bs, i, i + 2, [Block(bs[i].start, bs[i + 1].stop, false)]), from, to)
  {
    assert GoodBlock(c, bs[i]) && GoodBlock(c, bs[i + 1]) && bs[i].stop == bs[i + 1].start;
    SpliceTiles(c, bs, from, to, i, i + 2, [Block(bs[i].start, bs[i + 1].stop, false)]);
  }

  lemma AllocKeepsWF(c: Config, bs: seq<Block>, end: nat, i: nat, size: nat)
    requires WF(c, bs, end) && i < |bs| && Fits(c, bs[i], size) && size % c.align == 0
    ensures WF(c, AllocAt(c, bs, i, size), end)
  {
    var r := AllocAt(c, bs, i, size);
    if Payload(c, bs[i]) >= size + c.header + c.MinAligned() {
      CutTiles(c, bs, 0, end, i, size);
      forall j | 0 <= j < |r| - 1 ensures r[j].used || r[j + 1].used {
        if j < i { assert bs[j].used || bs[j + 1].used; }
        else if j > i { assert bs[j - 1].used || bs[j].used; }
      }
    } else {
      FlagTiles(c, bs, 0, end, i, true);
      forall j | 0 <= j < |r| - 1 ensures r[j].used || r[j + 1].used { assert bs[j].used || bs[j + 1].used; }
    }
  }

  /** Only the freed block may have free neighbours before holes are plugged. */
  ghost predicate NoTwoFreeBut(bs: seq<Block>, i: nat) {
    forall j :: 0 <= j < |bs| - 1 && j != i && j + 1 != i ==> bs[j].used || bs[j + 1].used
  }

  lemma PlugHolesKeepsTiles(c: Config, bs: seq<Block>, end: nat, i: nat)
    requires c.Ok() && Tiles(c, bs, 0, end) && i < |bs|
    ensures Tiles(c, MergeRight(bs, i), 0, end) && i < |MergeRight(bs, i)|
    ensures Tiles(c, PlugHoles(bs, i), 0, end)
  {
    if i + 1 < |bs| && !bs[i + 1].used { MergeTiles(c, bs, 0, end, i); }
    var r := MergeRight(bs, i);
    if i > 0 && !r[i - 1].used { MergeTiles(c, r, 0, end, i - 1); }
  }

  lemma PlugHolesMerges(c: Config, bs: seq<Block>, i: nat)
    requires i < |bs| && !bs[i].used && NoTwoFreeBut(bs, i)
    requires i > 1 && !bs[i - 1].used ==> bs[i - 2].used
    requires i + 2 < |bs| && !bs[i + 1].used ==> bs[i + 2].used
    ensures NoTwoFree(PlugHoles(bs, i))
  {
    var r := MergeRight(bs, i);
    assert forall j :: 0 <= j < i ==> r[j] == bs[j];
    assert !r[i].used;
    assert i + 1 < |r| ==> r[i + 1].used;
    forall j | 0 <= j < |r| - 1 && j + 1 != i ensures r[j].used || r[j + 1].used {
      if |r| == |bs| { assert j == i || bs[j].used || bs[j + 1].used; }
      else if j < i { assert bs[j].used || bs[j + 1].used; }
      else if j > i { assert r[j] == bs[j + 1] && r[j + 1] == bs[j + 2]; assert bs[j + 1].used || bs[j + 2].used; }
    }
    var q := PlugHoles(bs, i);
    if i > 0 && !r[i - 1].used {
      forall j | 0 <= j < |q| - 1 ensures q[j].used || q[j + 1].used {
        if j < i - 1 { assert q[j] == r[j]; if j + 1 < i - 1 { assert r[j].used || r[j + 1].used; } }
        else { assert q[j + 1] == r[j + 2]; if j > i - 1 { assert q[j] == r[j + 1]; assert r[j + 1].used || r[j + 2].used; } }
      }
    }
  }

  lemma FreeKeepsWF(c: Config, bs: seq<Block>, end: nat, i: nat)
    requires WF(c, bs, end) && i < |bs| && bs[i].used
    ensures WF(c, FreeAt(bs, i), end)
  {
    var f := bs[i := bs[i].(used := false)];
    FlagTiles(c, bs, 0, end, i, false);
    forall j | 0 <= j < |f| - 1 && j != i && j + 1 != i ensures f[j].used || f[j + 1].used { assert bs[j].used || bs[j + 1].used; }
    PlugHolesKeepsTiles(c, f, end, i);
    if i > 1 && !f[i - 1].used { assert !bs[i - 1].used && bs[i - 2].used; }
    if i + 2 < |bs| && !f[i + 1].used { assert bs[i + 1].used || bs[i + 2].used; }
    PlugHolesMerges(c, f, i);
  }

  lemma ShrinkKeepsWF(c: Config, bs: seq<Block>, end: nat, i: nat, size: nat)
    requires WF(c, bs, end) && i < |bs| && bs[i].used && size % c.align == 0
    requires Payload(c, bs[i]) >= size + c.header
    ensures WF(c, ShrinkAt(c, bs, i, size), end)
  {
    CutTiles(c, bs, 0, end, i, size);
    PlugHolesKeepsTiles(c, CutAt(c, bs, i, size), end, i + 1);
    ShrinkMerges(c, bs, i, size);
  }

  lemma ShrinkMerges(c: Config, bs: seq<Block>, i: nat, size: nat)
    requires i < |bs| && bs[i].used && NoTwoFree(bs)
    ensures NoTwoFree(ShrinkAt(c, bs, i, size))
  {
    var f := CutAt(c, bs, i, size);
    assert forall j :: 0 <= j < i ==> f[j] == bs[j];
    assert forall j :: i + 2 <= j < |f| ==> f[j] == bs[j - 1];
    forall j | 0 <= j < |f| - 1 && j != i + 1 && j + 1 != i + 1 ensures f[j].used || f[j + 1].used {
      if j < i { assert bs[j].used || bs[j + 1].used; } else { assert bs[j - 1].used || bs[j].used; }
    }
    if i + 3 < |f| && !f[i + 2].used { assert bs[i + 1].used || bs[i + 2].used; }
    PlugHolesMerges(c, f, i + 1);
  }

  // ---------------------------------------------------------------- accounting of used extents

  lemma MergeUsed(bs: seq<Block>, i: nat)
    requires i < |bs| && !bs[i].used
    ensures UsedSum(MergeRight(bs, i)) == UsedSum(bs)
  {
    if i + 1 < |bs| && !bs[i + 1].used {
      UsedSumSplice(bs, i, i + 2, [Block(bs[i].start, bs[i + 1].stop, false)]);
      assert bs[i..i + 2] == [bs[i], bs[i + 1]];
      UsedSumTwo(bs[i], bs[i + 1]);
    }
  }

  lemma PlugHolesUsed(bs: seq<Block>, i: nat)
    requires i < |bs| && !bs[i].used
    ensures UsedSum(PlugHoles(bs, i)) == UsedSum(bs)
  {
    MergeUsed(bs, i);
    var r := MergeRight(bs, i);
    LeftIsRight(r, i);
    if i > 0 && !r[i - 1].used { MergeUsed(r, i - 1); }
  }

  lemma FlagUsed(bs: seq<Block>, i: nat, b: Block)
    requires i < |bs|
    ensures UsedSum(bs[i := b]) == UsedSum(bs) - Extent(bs[i]) + Extent(b)
  {
    UsedSumSplice(bs, i, i + 1, [b]);
    assert bs[i := b] == Splice(bs, i, i + 1, [b]);
    assert bs[i..i + 1] == [bs[i]];
  }

  lemma AllocUsed(c: Config, bs: seq<Block>, i: nat, size: nat)
    requires c.Ok() && i < |bs| && !bs[i].used
    ensures UsedSum(AllocAt(c, bs, i, size)) == UsedSum(bs) +
              (if Payload(c, bs[i]) >= size + c.header + c.MinAligned() then size + c.header else bs[i].stop - bs[i].start)
  {
    if Payload(c, bs[i]) >= size + c.header + c.MinAligned() {
      CutUsed(c, bs, i, size);
    } else {
      FlagUsed(bs, i, bs[i].(used := true));
    }
  }

  lemma SplitUsed(bs: seq<Block>, i: nat, x: Block, y: Block)
    requires i < |bs|
    ensures UsedSum(Splice(bs, i, i + 1, [x, y])) == UsedSum(bs) - Extent(bs[i]) + Extent(x) + Extent(y)
  {
    UsedSumSplice(bs, i, i + 1, [x, y]);
    assert bs[i..i + 1] == [bs[i]];
    UsedSumTwo(x, y);
  }

  lemma {:induction false} CutUsed(c: Config, bs: seq<Block>, i: nat, size: nat)
    requires i < |bs|
    ensures UsedSum(CutAt(c, bs, i, size)) == UsedSum(bs) - Extent(bs[i]) + size + c.header
  {
    var b := bs[i];
    SplitUsed(bs, i, Block(b.start, b.start + c.header + size, true), Block(b.start + c.header + size, b.stop, false));
  }

  lemma FreeUsed(bs: seq<Block>, i: nat)
    requires i < |bs| && bs[i].used
    ensures UsedSum(FreeAt(bs, i)) == UsedSum(bs) - (bs[i].stop - bs[i].start)
  {
    FlagUsed(bs, i, bs[i].(used := false));
    PlugHolesUsed(bs[i := bs[i].(used := false)], i);
  }

  lemma ShrinkUsed(c: Config, bs: seq<Block>, i: nat, size: nat)
    requires i < |bs| && bs[i].used
    ensures UsedSum(ShrinkAt(c, bs, i, size)) == UsedSum(bs) - (Payload(c, bs[i]) - size)
  {
    CutUsed(c, bs, i, size);
    PlugHolesUsed(CutAt(c, bs, i, size), i + 1);
  }

  // ---------------------------------------------------------------- inverse operations

  /** Freeing what was just allocated restores the same blocks and marks. */
  lemma AllocThenFree(c: Config, bs: seq<Block>, end: nat, i: nat, size: nat)
    requires WF(c, bs, end) && i < |bs| && Fits(c, bs[i], size)
    ensures FreeAt(AllocAt(c, bs, i, size), i) == bs
  {
    var a := AllocAt(c, bs, i, size);
    var f := a[i := a[i].(used := false)];
    if i > 0 { assert bs[i - 1].used; }
    if i + 1 < |bs| { assert bs[i + 1].used; }
    if Payload(c, bs[i]) >= size + c.header + c.MinAligned() {
      assert f == bs[..i] + [Block(bs[i].start, bs[i].start + c.header + size, false), Block(bs[i].start + c.header + size, bs[i].stop, false)] + bs[i + 1..];
      assert f[..i] == bs[..i] && f[i + 2..] == bs[i + 1..];
      assert MergeRight(f, i) == bs;
    } else {
      assert f == bs;
    }
  }
}
