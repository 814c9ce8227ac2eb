/** What each call of `memheap.c` keeps: the row stays well formed, the ring stays the set
    of free blocks, and the payload of free blocks changes by what the call accounts for. */
module MemHeapSteps {
  import opened Common
  import opened Alignment
  import opened BlockRow
  import opened MemHeapLayout

  ghost predicate Good(c: Config, l: Layout, end: nat) {
    WF(c, l.bs, end) && RingOf(l.bs, l.ring)
  }

  // ---------------------------------------------------------------- one stretch of the row changes

  lemma PartStarts(header: nat, bs: seq<Block>, end: nat, lo: nat, hi: nat, a: nat)
    requires Row(header, bs, end) && lo <= hi <= |bs| && a in FreeStarts(bs[lo..hi])
    ensures a !in FreeStarts(bs[..lo]) && a !in FreeStarts(bs[hi..])
  {
    var k :| 0 <= k < |bs[lo..hi]| && !bs[lo..hi][k].used && bs[lo..hi][k].start == a;
  }

  /** The ring follows a change of the row if it loses the free blocks that go and gains
      those that come. */
  lemma SpliceRing(header: nat, bs: seq<Block>, end: nat, lo: nat, hi: nat, mid: seq<Block>, ring: seq<nat>, ring': seq<nat>)
    requires Row(header, bs, end) && lo <= hi <= |bs| && RingOf(bs, ring)
    requires Row(header, Splice(bs, lo, hi, mid), end) && NoDup(ring')
    requires forall a: nat :: a in ring' <==> (a in ring && a !in FreeStarts(bs[lo..hi])) || a in FreeStarts(mid)
    ensures RingOf(Splice(bs, lo, hi, mid), ring')
  {
    hide Row, RingOf;
    var r := Splice(bs, lo, hi, mid);
    RingOfStarts(header, bs, end, ring);
    RingOfStarts(header, r, end, ring');
    SpliceFreeStarts(bs, lo, hi, mid);
    SpliceFreeStarts(bs, lo, hi, bs[lo..hi]);
    assert Splice(bs, lo, hi, bs[lo..hi]) == bs;
    forall a: nat ensures a in ring' <==> a in FreeStarts(r) {
      if a in FreeStarts(bs[lo..hi]) { PartStarts(header, bs, end, lo, hi, a); }
    }
  }

  lemma FreeStartsOne(b: Block)
    ensures FreeStarts([b]) == if b.used then {} else {b.start}
  {
    assert b.used || [b][0].start in FreeStarts([b]);
  }

  lemma FreeStartsTwo(x: Block, y: Block)
    ensures FreeStarts([x, y]) == FreeStarts([x]) + FreeStarts([y])
  {
    assert [x, y] == Splice([x], 1, 1, [y]);
    SpliceFreeStarts([x], 1, 1, [y]);
    assert [x][..1] == [x] && [x][1..] == [];
    assert FreeStarts([]) == {};
  }

  lemma FreeStartsThree(x: Block, y: Block, z: Block)
    ensures FreeStarts([x, y, z]) == FreeStarts([x]) + FreeStarts([y]) + FreeStarts([z])
  {
    assert [x, y, z] == Splice([x, y], 2, 2, [z]);
    SpliceFreeStarts([x, y], 2, 2, [z]);
    assert [x, y][..2] == [x, y] && [x, y][2..] == [];
    assert FreeStarts([]) == {};
    FreeStartsTwo(x, y);
  }

  lemma FreePayloadThree(c: Config, x: Block, y: Block, z: Block)
    ensures FreePayload(c, [x, y, z]) == Free1(c, x) + Free1(c, y) + Free1(c, z)
  {
    assert [x, y, z] == [x, y] + [z];
    FreePayloadAppend(c, [x, y], [z]);
    FreePayloadTwo(c, x, y);
  }

  // ---------------------------------------------------------------- each call is one splice

  /** Free merges a stretch of up to three blocks into one. */
  lemma FreeIsSplice(bs: seq<Block>, i: nat)
    requires i < |bs|
    ensures var lo := if i > 0 && !bs[i - 1].used then i - 1 else i;
            var hi := if i + 1 < |bs| && !bs[i + 1].used then i + 2 else i + 1;
            FreeAt(bs, i) == Splice(bs, lo, hi, [Block(bs[lo].start, bs[hi - 1].stop, false)])
  {
    var f := bs[i := bs[i].(used := false)];
    var r := MergeRight(f, i);
    if i + 1 < |bs| && !bs[i + 1].used {
      assert r == Splice(bs, i, i + 2, [Block(bs[i].start, bs[i + 1].stop, false)]);
    }
  }

  lemma ShrinkIsSplice(c: Config, bs: seq<Block>, i: nat, n: nat)
    requires i < |bs|
    ensures var hi := if i + 1 < |bs| && !bs[i + 1].used then i + 2 else i + 1;
            var at := bs[i].start + c.header + n;
            ShrinkAt(c, bs, i, n) == Splice(bs, i, hi, [Block(bs[i].start, at, true), Block(at, bs[hi - 1].stop, false)])
  {
    var f := CutAt(c, bs, i, n);
    assert f[i].used;
    if i + 1 < |bs| && !bs[i + 1].used {
      assert f[i + 2] == bs[i + 1];
    }
  }

  lemma AllocIsSplice(c: Config, bs: seq<Block>, i: nat, size: nat)
    requires c.Ok() && i < |bs|
    ensures var b := bs[i]; var at := b.start + c.header + size;
      AllocAt(c, bs, i, size) ==
        Splice(bs, i, i + 1, if Splits(c, b, size) then [Block(b.start, at, true), Block(at, b.stop, false)] else [b.(used := true)])
  {
  }

  // ---------------------------------------------------------------- rt_memheap_alloc

  lemma TakeGood(c: Config, l: Layout, end: nat, i: nat, size: nat)
    requires Good(c, l, end) && i < |l.bs| && Fits(c, l.bs[i], size) && size % c.align == 0
    ensures Good(c, TakeLayout(c, l, i, size), end)
    ensures FreePayload(c, TakeLayout(c, l, i, size).bs) ==
            FreePayload(c, l.bs) - (if Splits(c, l.bs[i], size) then size + c.header else Payload(c, l.bs[i]))
  {
    hide Row, Tiles, NoTwoFree, RingOf, FreePayload, FreeStarts, AllocAt, Splice;
    var bs, b := l.bs, l.bs[i];
    var at := b.start + c.header + size;
    var mid := if Splits(c, b, size) then [Block(b.start, at, true), Block(at, b.stop, false)] else [b.(used := true)];
    AllocKeepsWF(c, bs, end, i, size);
    AllocIsSplice(c, bs, i, size);
    TilesRow(c, bs, end);
    TilesRow(c, AllocAt(c, bs, i, size), end);
    FreePayloadSplice(c, bs, i, i + 1, mid);
    assert bs[i..i + 1] == [b];
    FreePayloadOne(c, b);
    FreeStartsOne(b);
    TakeRing(c, l, end, i, size);
    if Splits(c, b, size) {
      FreePayloadTwo(c, mid[0], mid[1]);
      FreeStartsTwo(mid[0], mid[1]);
      FreeStartsOne(mid[0]);
      FreeStartsOne(mid[1]);
    } else {
      FreePayloadOne(c, mid[0]);
      FreeStartsOne(mid[0]);
    }
    SpliceRing(c.header, bs, end, i, i + 1, mid, l.ring, TakeLayout(c, l, i, size).ring);
  }

  /** A place strictly inside a block is no header, so it is not in the ring. */
  lemma InsideNotInRing(header: nat, bs: seq<Block>, end: nat, ring: seq<nat>, i: nat, at: nat)
    requires Row(header, bs, end) && RingOf(bs, ring) && i < |bs| && bs[i].start < at < bs[i].stop
    ensures at !in ring
  {
    if at in ring {
      StartsDiffer(header, bs, end, i, IndexAt(bs, at));
    }
  }

  lemma SplitRoom(c: Config, b: Block, size: nat)
    requires c.Ok() && Splits(c, b, size)
    ensures b.start < b.start + c.header + size < b.start + c.header + size + c.header < b.stop
  {
  }

  lemma SplitsIff(c: Config, b: Block, size: nat)
    requires c.Ok()
    ensures Splits(c, b, size) <==> Payload(c, b) >= size + c.header + c.MinAligned()
  {
  }

  lemma FreeInRing(bs: seq<Block>, ring: seq<nat>, i: nat)
    requires RingOf(bs, ring) && i < |bs| && !bs[i].used
    ensures bs[i].start in ring
  {
  }

  lemma TakeRing(c: Config, l: Layout, end: nat, i: nat, size: nat)
    requires c.Ok() && Row(c.header, l.bs, end) && RingOf(l.bs, l.ring) && i < |l.bs| && Fits(c, l.bs[i], size)
    ensures NoDup(TakeLayout(c, l, i, size).ring)
    ensures Splits(c, l.bs[i], size) ==> l.bs[i].start + c.header + size !in l.ring
  {
    hide Row, RingOf, AllocAt, Splits;
    var at := l.bs[i].start + c.header + size;
    if Splits(c, l.bs[i], size) { SplitRoom(c, l.bs[i], size); InsideNotInRing(c.header, l.bs, end, l.ring, i, at); }
    RingNoDup(l.bs, l.ring);
    Reshaped(l.ring, l.bs[i].start, at);
  }

  lemma RingNoDup(bs: seq<Block>, ring: seq<nat>)
    requires RingOf(bs, ring)
    ensures NoDup(ring)
  {
  }

  /** Taking a node out and putting a new one to the front leaves no duplicates. */
  lemma Reshaped(ring: seq<nat>, gone: nat, x: nat)
    requires NoDup(ring)
    ensures NoDup(Remove(ring, gone))
    ensures x !in ring ==> NoDup([x] + ring) && NoDup([x] + Remove(ring, gone))
  {
    RemoveNoDup(ring, gone);
  }

  // ---------------------------------------------------------------- rt_memheap_free

  /** Headers of merged neighbours become payload again. */
  lemma FreeGood(c: Config, l: Layout, end: nat, i: nat)
    requires Good(c, l, end) && i < |l.bs| && l.bs[i].used
    ensures Good(c, FreeLayout(l, i), end)
    ensures FreePayload(c, FreeLayout(l, i).bs) == FreePayload(c, l.bs) + Payload(c, l.bs[i])
              + (if i > 0 && !l.bs[i - 1].used then c.header else 0)
              + (if i + 1 < |l.bs| && !l.bs[i + 1].used then c.header else 0)
  {
    hide Row, Tiles, NoTwoFree, RingOf, FreePayload, FreeStarts, FreeAt, Splice;
    var bs := l.bs;
    var lo := if i > 0 && !bs[i - 1].used then i - 1 else i;
    var hi := if i + 1 < |bs| && !bs[i + 1].used then i + 2 else i + 1;
    var mid := [Block(bs[lo].start, bs[hi - 1].stop, false)];
    FreeKeepsWF(c, bs, end, i);
    FreeIsSplice(bs, i);
    TilesRow(c, bs, end);
    TilesRow(c, FreeAt(bs, i), end);
    FreePayloadSplice(c, bs, lo, hi, mid);
    FreePayloadOne(c, mid[0]);
    FreeStartsOne(mid[0]);
    FreeStretch(c, bs, end, i, lo, hi);
    FreeRing(c, l, end, i);
    SpliceRing(c.header, bs, end, lo, hi, mid, l.ring, FreeLayout(l, i).ring);
  }

  lemma FreeStretch(c: Config, bs: seq<Block>, end: nat, i: nat, lo: nat, hi: nat)
    requires c.Ok() && Tiles(c, bs, 0, end) && i < |bs| && bs[i].used
    requires lo == if i > 0 && !bs[i - 1].used then i - 1 else i
    requires hi == if i + 1 < |bs| && !bs[i + 1].used then i + 2 else i + 1
    ensures FreeStarts(bs[lo..hi]) == (if lo < i then {bs[i - 1].start} else {}) + (if i + 1 < hi then {bs[i + 1].start} else {})
    ensures FreePayload(c, bs[lo..hi]) == (if lo < i then Payload(c, bs[i - 1]) else 0) + (if i + 1 < hi then Payload(c, bs[i + 1]) else 0)
    ensures lo < i ==> bs[i - 1].stop == bs[i].start
    ensures i + 1 < hi ==> bs[i].stop == bs[i + 1].start
  {
    hide FreePayload, FreeStarts, GoodBlock;
    FreeStartsOne(bs[i]);
    FreePayloadOne(c, bs[i]);
    if lo < i { FreeStartsOne(bs[i - 1]); }
    if i + 1 < hi { FreeStartsOne(bs[i + 1]); }
    if lo < i && i + 1 < hi {
      assert bs[lo..hi] == [bs[i - 1], bs[i], bs[i + 1]];
      FreeStartsThree(bs[i - 1], bs[i], bs[i + 1]);
      FreePayloadThree(c, bs[i - 1], bs[i], bs[i + 1]);
    } else if lo < i {
      assert bs[lo..hi] == [bs[i - 1], bs[i]];
      FreeStartsTwo(bs[i - 1], bs[i]);
      FreePayloadTwo(c, bs[i - 1], bs[i]);
    } else if i + 1 < hi {
      assert bs[lo..hi] == [bs[i], bs[i + 1]];
      FreeStartsTwo(bs[i], bs[i + 1]);
      FreePayloadTwo(c, bs[i], bs[i + 1]);
    } else {
      assert bs[lo..hi] == [bs[i]];
    }
  }

  lemma FreeRing(c: Config, l: Layout, end: nat, i: nat)
    requires c.Ok() && Row(c.header, l.bs, end) && RingOf(l.bs, l.ring) && i < |l.bs| && l.bs[i].used
    ensures NoDup(FreeLayout(l, i).ring) && l.bs[i].start !in l.ring
    ensures i > 0 && !l.bs[i - 1].used ==> l.bs[i - 1].start in l.ring
    ensures i + 1 < |l.bs| ==> l.bs[i].start != l.bs[i + 1].start
    ensures i + 1 < |l.bs| && i > 0 ==> l.bs[i - 1].start != l.bs[i + 1].start
  {
    IndexAtIs(c.header, l.bs, end, i);
    RingNoDup(l.bs, l.ring);
    if i + 1 < |l.bs| { StartsDiffer(c.header, l.bs, end, i, i + 1); }
    if i + 1 < |l.bs| && i > 0 { StartsDiffer(c.header, l.bs, end, i - 1, i + 1); }
    hide Row, FreeAt;
    Reshaped(l.ring, if i + 1 < |l.bs| then l.bs[i + 1].start else 0, l.bs[i].start);
  }

  // ---------------------------------------------------------------- rt_memheap_realloc in place

  predicate Grows(c: Config, bs: seq<Block>, i: nat, n: nat)
    requires c.Ok() && i < |bs|
  {
    && n > Payload(c, bs[i]) && i + 1 < |bs| && !bs[i + 1].used
    && Payload(c, bs[i + 1]) + Payload(c, bs[i]) > n + c.MinAligned()
  }

  lemma GrowGood(c: Config, l: Layout, end: nat, i: nat, n: nat)
    requires Good(c, l, end) && i < |l.bs| && l.bs[i].used && n % c.align == 0 && Grows(c, l.bs, i, n)
    ensures Good(c, GrowLayout(c, l, i, n), end)
    ensures FreePayload(c, GrowLayout(c, l, i, n).bs) == FreePayload(c, l.bs) - (n - Payload(c, l.bs[i]))
  {
    hide Row, NoTwoFree, RingOf, FreePayload, FreeStarts, Splice;
    var bs, b, next := l.bs, l.bs[i], l.bs[i + 1];
    var at := b.start + c.header + n;
    var mid := [Block(b.start, at, true), Block(at, next.stop, false)];
    GrowWF(c, bs, end, i, n);
    hide Tiles;
    TilesRow(c, bs, end);
    TilesRow(c, Splice(bs, i, i + 2, mid), end);
    FreePayloadSplice(c, bs, i, i + 2, mid);
    assert bs[i..i + 2] == [b, next];
    FreePayloadTwo(c, b, next);
    FreePayloadTwo(c, mid[0], mid[1]);
    FreeStartsTwo(b, next);
    FreeStartsTwo(mid[0], mid[1]);
    FreeStartsOne(b);
    FreeStartsOne(next);
    FreeStartsOne(mid[0]);
    FreeStartsOne(mid[1]);
    RingNoDup(bs, l.ring);
    InsideNotInRing(c.header, bs, end, l.ring, i + 1, at);
    Reshaped(l.ring, next.start, at);
    SpliceRing(c.header, bs, end, i, i + 2, mid, l.ring, GrowLayout(c, l, i, n).ring);
  }

  lemma GrowWF(c: Config, bs: seq<Block>, end: nat, i: nat, n: nat)
    requires WF(c, bs, end) && i < |bs| && bs[i].used && n % c.align == 0 && Grows(c, bs, i, n)
    ensures var at := bs[i].start + c.header + n;
      && bs[i].stop == bs[i + 1].start < at && at + c.header <= bs[i + 1].stop
      && WF(c, Splice(bs, i, i + 2, [Block(bs[i].start, at, true), Block(at, bs[i + 1].stop, false)]), end)
  {
    var at := bs[i].start + c.header + n;
    var mid := [Block(bs[i].start, at, true), Block(at, bs[i + 1].stop, false)];
    assert GoodBlock(c, bs[i]) && GoodBlock(c, bs[i + 1]);
    AddAligned(bs[i].start, c.header, c.align);
    AddAligned(bs[i].start + c.header, n, c.align);
    SpliceTiles(c, bs, 0, end, i, i + 2, mid);
    var r := Splice(bs, i, i + 2, mid);
    forall j | 0 <= j < |r| - 1 ensures r[j].used || r[j + 1].used {
      assert j < i ==> r[j] == bs[j];
      assert j > i ==> r[j + 1] == bs[j + 1];
      if j < i { assert bs[j].used || bs[j + 1].used; }
      if j > i { assert bs[j].used || bs[j + 1].used; }
    }
  }

  /** The rest is given back; a free right neighbour's header with it. */
  lemma ShrinkGood(c: Config, l: Layout, end: nat, i: nat, n: nat)
    requires Good(c, l, end) && i < |l.bs| && l.bs[i].used && n % c.align == 0
    requires n + c.header < Payload(c, l.bs[i])
    ensures Good(c, ShrinkLayout(c, l, i, n), end)
    ensures FreePayload(c, ShrinkLayout(c, l, i, n).bs) == FreePayload(c, l.bs) + Payload(c, l.bs[i]) - n - c.header
              + (if i + 1 < |l.bs| && !l.bs[i + 1].used then c.header else 0)
  {
    hide Row, Tiles, NoTwoFree, RingOf, FreePayload, FreeStarts, ShrinkAt, Splice;
    var bs, b := l.bs, l.bs[i];
    var hi := if i + 1 < |bs| && !bs[i + 1].used then i + 2 else i + 1;
    var at := b.start + c.header + n;
    var mid := [Block(b.start, at, true), Block(at, bs[hi - 1].stop, false)];
    ShrinkKeepsWF(c, bs, end, i, n);
    ShrinkIsSplice(c, bs, i, n);
    TilesRow(c, bs, end);
    TilesRow(c, ShrinkAt(c, bs, i, n), end);
    FreePayloadSplice(c, bs, i, hi, mid);
    FreePayloadTwo(c, mid[0], mid[1]);
    FreeStartsTwo(mid[0], mid[1]);
    FreeStartsOne(mid[0]);
    FreeStartsOne(mid[1]);
    ShrinkStretch(c, bs, end, i, hi);
    InsideNotInRing(c.header, bs, end, l.ring, i, at);
    RingNoDup(bs, l.ring);
    Reshaped(l.ring, bs[hi - 1].start, at);
    SpliceRing(c.header, bs, end, i, hi, mid, l.ring, ShrinkLayout(c, l, i, n).ring);
  }

  lemma ShrinkStretch(c: Config, bs: seq<Block>, end: nat, i: nat, hi: nat)
    requires c.Ok() && Tiles(c, bs, 0, end) && i < |bs| && bs[i].used
    requires hi == if i + 1 < |bs| && !bs[i + 1].used then i + 2 else i + 1
    ensures FreeStarts(bs[i..hi]) == if i + 1 < hi then {bs[i + 1].start} else {}
    ensures FreePayload(c, bs[i..hi]) == if i + 1 < hi then Payload(c, bs[i + 1]) else 0
    ensures i + 1 < hi ==> bs[i].stop == bs[i + 1].start
  {
    hide FreePayload, FreeStarts, GoodBlock;
    FreeStartsOne(bs[i]);
    FreePayloadOne(c, bs[i]);
    if i + 1 < hi {
      assert bs[i..hi] == [bs[i], bs[i + 1]];
      FreeStartsOne(bs[i + 1]);
      FreeStartsTwo(bs[i], bs[i + 1]);
      FreePayloadTwo(c, bs[i], bs[i + 1]);
    } else {
      assert bs[i..hi] == [bs[i]];
    }
  }

  // ---------------------------------------------------------------- inverse

  lemma TakenNeighbours(c: Config, bs: seq<Block>, end: nat, i: nat, size: nat)
    requires WF(c, bs, end) && i < |bs| && Fits(c, bs[i], size)
    ensures var a := AllocAt(c, bs, i, size);
      && i < |a| && a[i].start == bs[i].start
      && (i > 0 ==> a[i - 1].used)
      && (Splits(c, bs[i], size) ==> i + 1 < |a| && !a[i + 1].used && a[i + 1].start == bs[i].start + c.header + size)
      && (!Splits(c, bs[i], size) ==> i + 1 < |a| ==> a[i + 1].used)
  {
    hide Tiles, Splits;
    AllocIsSplice(c, bs, i, size);
    if i > 0 { assert bs[i - 1].used; }
    if i + 1 < |bs| { assert bs[i + 1].used; }
  }

  /** Freeing what was just allocated restores boundaries and marks; in the ring the block
      moves to the front. */
  lemma TakeThenFree(c: Config, l: Layout, end: nat, i: nat, size: nat)
    requires Good(c, l, end) && i < |l.bs| && Fits(c, l.bs[i], size)
    ensures i < |AllocAt(c, l.bs, i, size)|
    ensures FreeLayout(TakeLayout(c, l, i, size), i) == Layout(l.bs, [l.bs[i].start] + Remove(l.ring, l.bs[i].start))
  {
    hide RingOf, FreeAt, AllocAt, Row, Splits, Tiles, NoTwoFree, Splice;
    TakenNeighbours(c, l.bs, end, i, size);
    AllocThenFree(c, l.bs, end, i, size);
    var at, rest := l.bs[i].start + c.header + size, Remove(l.ring, l.bs[i].start);
    if Splits(c, l.bs[i], size) {
      TilesRow(c, l.bs, end);
      TakeRing(c, l, end, i, size);
      FrontOut(rest, at);
    }
    hide WF;
    var t := TakeLayout(c, l, i, size);
    assert FreeLayout(t, i).bs == l.bs;
    assert FreeLayout(t, i).ring == [l.bs[i].start] + rest;
  }

  lemma FrontOut(xs: seq<nat>, x: nat)
    requires x !in xs
    ensures Remove([x] + xs, x) == xs
  {
    assert [x] + xs == [] + [x] + xs && [] + xs == xs;
    RemoveMiddle([], x, xs);
  }

  // ---------------------------------------------------------------- calls as elementary changes

  /** A split block, then its first part marked used. */
  lemma AllocIsCut(c: Config, bs: seq<Block>, i: nat, size: nat)
    requires c.Ok() && i < |bs| && !bs[i].used
    ensures var a := if Splits(c, bs[i], size) then Cut(c.header, bs, i, size) else bs;
      i < |a| && a[i].start == bs[i].start && AllocAt(c, bs, i, size) == a[i := a[i].(used := true)]
  {
    hide Splits;
    AllocIsSplice(c, bs, i, size);
  }

  /** The row after marking block `i` free, and the index of that block, once it is merged
      to the left if its left neighbour is free. */
  function JoinedLeft(bs: seq<Block>, i: nat): (seq<Block>, nat)
    requires i < |bs|
  {
    var f := bs[i := bs[i].(used := false)];
    if i > 0 && !bs[i - 1].used then (Join(f, i - 1), i - 1) else (f, i)
  }

  lemma JoinedLeftRow(bs: seq<Block>, i: nat)
    requires i < |bs|
    ensures var lo := if i > 0 && !bs[i - 1].used then i - 1 else i; var (g, k) := JoinedLeft(bs, i);
      k == lo < |g| && g == Splice(bs, lo, i + 1, [Block(bs[lo].start, bs[i].stop, false)])
  {
  }

  /** Merging the spliced block to the right is one larger splice. */
  lemma JoinSpliced(bs: seq<Block>, lo: nat, i: nat, start: nat)
    requires lo <= i && i + 1 < |bs|
    ensures var g := Splice(bs, lo, i + 1, [Block(start, bs[i].stop, false)]);
      && lo + 1 < |g| && g[lo + 1] == bs[i + 1]
      && Join(g, lo) == Splice(bs, lo, i + 2, [Block(start, bs[i + 1].stop, false)])
  {
    var g := Splice(bs, lo, i + 1, [Block(start, bs[i].stop, false)]);
    assert g[..lo] == bs[..lo] && g[lo + 2..] == bs[i + 2..];
  }

  /** `rt_memheap_free` merges to the left first. */
  lemma FreeIsJoins(bs: seq<Block>, i: nat)
    requires i < |bs|
    ensures var (g, k) := JoinedLeft(bs, i);
            && k < |g| && !g[k].used && (k + 1 < |g| <==> i + 1 < |bs|) && (k + 1 < |g| ==> g[k + 1] == bs[i + 1])
            && g[k].start == (if i > 0 && !bs[i - 1].used then bs[i - 1].start else bs[i].start)
            && FreeAt(bs, i) == if k + 1 < |g| && !g[k + 1].used then Join(g, k) else g
  {
    var lo := if i > 0 && !bs[i - 1].used then i - 1 else i;
    FreeIsSplice(bs, i);
    JoinedLeftRow(bs, i);
    if i + 1 < |bs| { JoinSpliced(bs, lo, i, bs[lo].start); }
    hide FreeAt, JoinedLeft, Join;
  }

  lemma GrowIsCut(c: Config, l: Layout, i: nat, n: nat)
    requires i + 1 < |l.bs| && l.bs[i].used
    ensures i < |Join(l.bs, i)| && Join(l.bs, i)[i] == Block(l.bs[i].start, l.bs[i + 1].stop, true)
    ensures GrowLayout(c, l, i, n).bs == Cut(c.header, Join(l.bs, i), i, n)
  {
  }

  lemma ShrinkIsJoin(c: Config, bs: seq<Block>, i: nat, n: nat)
    requires i < |bs| && bs[i].used
    ensures var g := Cut(c.header, bs, i, n);
            && i + 1 < |g| && g[i + 1] == Block(bs[i].start + c.header + n, bs[i].stop, false)
            && (i + 2 < |g| <==> i + 1 < |bs|) && (i + 2 < |g| ==> g[i + 2] == bs[i + 1])
            && ShrinkAt(c, bs, i, n) == if i + 2 < |g| && !g[i + 2].used then Join(g, i + 1) else g
  {
    ShrinkIsSplice(c, bs, i, n);
  }

  // ---------------------------------------------------------------- rt_memheap_realloc

  /** Allocate, copy, free; without room everything stays. */
  function MoveLayout(c: Config, l: Layout, i: nat, n: nat): (Option<nat>, Layout)
    requires c.Ok() && i < |l.bs|
  {
    var (q, l1) := AllocLayout(c, l, n);
    if q.Some? && Taken(c, l, n) < |l.bs| && Shifted(c, l.bs, Taken(c, l, n), c.Request(n), i) < |l1.bs|
    then (q, FreeLayout(l1, Shifted(c, l.bs, Taken(c, l, n), c.Request(n), i)))
    else (None, l)
  }

  /** Resizing block `i` to the rounded size `n`: grow in place, move, leave, or shrink. */
  function ResizeLayout(c: Config, l: Layout, i: nat, n: nat): (Option<nat>, Layout)
    requires c.Ok() && i < |l.bs|
  {
    var b := l.bs[i];
    if n > Payload(c, b) then
      if Grows(c, l.bs, i, n) then (Some(b.start + c.header), GrowLayout(c, l, i, n))
      else MoveLayout(c, l, i, n)
    else if n + c.header + c.MinAligned() >= Payload(c, b) then (Some(b.start + c.header), l)
    else (Some(b.start + c.header), ShrinkLayout(c, l, i, n))
  }

  /** The layout with the least free payload on the way: a move holds both blocks for a while. */
  function ResizePeak(c: Config, l: Layout, i: nat, n: nat): Layout
    requires c.Ok() && i < |l.bs|
  {
    if n > Payload(c, l.bs[i]) && !Grows(c, l.bs, i, n) then AllocLayout(c, l, n).1 else ResizeLayout(c, l, i, n).1
  }

  /** Pointer and layout after `rt_memheap_realloc` of block `i` (nothing for a null pointer). */
  function ReallocLayout(c: Config, l: Layout, i: Option<nat>, newsize: nat): (Option<nat>, Layout)
    requires c.Ok() && (i.Some? ==> i.value < |l.bs|)
  {
    if newsize == 0 then (None, if i.Some? then FreeLayout(l, i.value) else l)
    else if i.None? then AllocLayout(c, l, c.Request(newsize))
    else ResizeLayout(c, l, i.value, c.Request(newsize))
  }

  function PeakLayout(c: Config, l: Layout, i: Option<nat>, newsize: nat): Layout
    requires c.Ok() && (i.Some? ==> i.value < |l.bs|)
  {
    if newsize > 0 && i.Some? then ResizePeak(c, l, i.value, c.Request(newsize)) else ReallocLayout(c, l, i, newsize).1
  }

  /** The block a successful allocation takes. */
  function Taken(c: Config, l: Layout, n: nat): nat
    requires c.Ok()
  {
    var k := RingFit(c, l.bs, l.ring, c.Request(n));
    if k < |l.ring| then IndexAt(l.bs, l.ring[k]) else |l.bs|
  }

  lemma TakenFits(c: Config, l: Layout, n: nat)
    requires c.Ok() && RingOf(l.bs, l.ring) && AllocLayout(c, l, n).0.Some?
    ensures var k := Taken(c, l, n);
      && k < |l.bs| && Fits(c, l.bs[k], c.Request(n))
      && AllocLayout(c, l, n) == (Some(l.bs[k].start + c.header), TakeLayout(c, l, k, c.Request(n)))
  {
    hide TakeLayout, AlignUp, AlignDown, FreePayload;
    var f := RingFit(c, l.bs, l.ring, c.Request(n));
    assert l.ring[f] in l.ring;
    assert PayloadAt(c, l.bs, l.ring[f]) >= c.Request(n);
  }

  /** Block `i` stays used through an allocation, at its shifted index. */
  lemma MoveReady(c: Config, bs: seq<Block>, end: nat, i: nat, k: nat, size: nat)
    requires c.Ok() && Tiles(c, bs, 0, end) && i < |bs| && bs[i].used && k < |bs| && Fits(c, bs[k], size)
    ensures var r := AllocAt(c, bs, k, size);
      && i != k && Shifted(c, bs, k, size, i) < |r| && Shifted(c, bs, k, size, i) != k
      && r[Shifted(c, bs, k, size, i)] == bs[i]
      && k < |r| && r[k].used && r[k].start == bs[k].start
      && r[k].stop >= bs[k].start + c.header + size
  {
    hide Tiles, AllocAt, Shifted;
    AllocShifts(c, bs, k, size, i);
    MoveRoom(c, bs, end, i, k, size);
  }

  lemma TakenBlocks(c: Config, l: Layout, k: nat, size: nat)
    requires c.Ok() && k < |l.bs|
    ensures TakeLayout(c, l, k, size).bs == AllocAt(c, l.bs, k, size)
  {
  }

  /** What a finished search means for `rt_memheap_alloc`. */
  lemma AllocCases(c: Config, l: Layout, request: nat)
    requires c.Ok() && RingOf(l.bs, l.ring)
    ensures var size := c.Request(request); var k := RingFit(c, l.bs, l.ring, size);
      if size < FreePayload(c, l.bs) && k < |l.ring| then
        var i := IndexAt(l.bs, l.ring[k]);
        && i < |l.bs| && Fits(c, l.bs[i], size) && l.bs[i].start == l.ring[k] && Payload(c, l.bs[i]) == PayloadAt(c, l.bs, l.ring[k])
        && AllocLayout(c, l, request) == (Some(l.ring[k] + c.header), TakeLayout(c, l, i, size))
      else AllocLayout(c, l, request) == (None, l)
  {
    hide TakeLayout, AlignUp, FreePayload;
    var k := RingFit(c, l.bs, l.ring, c.Request(request));
    if k < |l.ring| { assert l.ring[k] in l.ring; }
  }

  /** The layout `rt_memheap_init` leaves. */
  lemma InitGood(c: Config, end: nat)
    requires c.Ok() && end % c.align == 0 && end >= c.header
    ensures Good(c, Layout([Block(0, end, false)], [0]), end)
    ensures FreePayload(c, [Block(0, end, false)]) == end - c.header
  {
    var bs := [Block(0, end, false)];
    assert GoodBlock(c, bs[0]);
    FreePayloadOne(c, bs[0]);
    IndexAtIs(c.header, bs, end, 0);
  }

  /** A pool just initialised is an input on which the strict comparison fails: the request
      for exactly its one free block is refused. */
  lemma FreshPoolRefusesAll(c: Config, end: nat)
    requires c.Ok() && end % c.align == 0 && end >= c.header + c.MinAligned()
    ensures var l := Layout([Block(0, end, false)], [0]);
      Good(c, l, end) && Fits(c, l.bs[0], c.Request(end - c.header)) && AllocLayout(c, l, end - c.header).0.None?
  {
    var l := Layout([Block(0, end, false)], [0]);
    InitGood(c, end);
    AddAligned(end, c.header, c.align);
    AlignUpFixed(end - c.header, c.align);
    TilesRow(c, l.bs, end);
    RefusedThoughFitting(c, l, end, end - c.header, 0);
  }

  lemma MoveSucceeds(c: Config, l: Layout, i: nat, n: nat)
    requires c.Ok() && i < |l.bs| && AllocLayout(c, l, n).0.Some? && Taken(c, l, n) < |l.bs|
    requires Shifted(c, l.bs, Taken(c, l, n), c.Request(n), i) < |AllocLayout(c, l, n).1.bs|
    ensures MoveLayout(c, l, i, n) ==
            (AllocLayout(c, l, n).0, FreeLayout(AllocLayout(c, l, n).1, Shifted(c, l.bs, Taken(c, l, n), c.Request(n), i)))
  {
    hide AllocLayout, Taken, Shifted, FreeLayout;
  }

  lemma ShrunkBlocks(c: Config, l: Layout, i: nat, n: nat)
    requires i < |l.bs|
    ensures ShrinkLayout(c, l, i, n).bs == ShrinkAt(c, l.bs, i, n)
  {
  }

  lemma MoveFails(c: Config, l: Layout, i: nat, n: nat)
    requires c.Ok() && i < |l.bs| && AllocLayout(c, l, n).0.None?
    ensures MoveLayout(c, l, i, n) == (None, l)
  {
  }

  lemma FrontMultiset(a: seq<nat>, x: nat, b: seq<nat>)
    ensures multiset([x] + (a + b)) == multiset(a + [x] + b)
  {
    assert [x] + (a + b) == [x] + a + b;
  }

  lemma MovedToFront(ring: seq<nat>, x: nat)
    requires NoDup(ring) && x in ring
    ensures multiset([x] + Remove(ring, x)) == multiset(ring)
  {
    var k :| 0 <= k < |ring| && ring[k] == x;
    var a, b := ring[..k], ring[k + 1..];
    assert ring == a + [x] + b;
    RemoveMiddle(a, x, b);
    FrontMultiset(a, x, b);
  }

  lemma AllocFails(c: Config, l: Layout, request: nat)
    requires c.Ok() && AllocLayout(c, l, request).0.None?
    ensures AllocLayout(c, l, request).1 == l
  {
  }

  /** Freeing the pointer just obtained restores the row; the ring keeps its members. */
  lemma AllocThenFreeLayout(c: Config, l: Layout, end: nat, request: nat)
    requires Good(c, l, end) && AllocLayout(c, l, request).0.Some?
    ensures var (p, l1) := AllocLayout(c, l, request); var k := Taken(c, l, request);
      && Live(c, l1.bs, k, p.value) && FreeLayout(l1, k).bs == l.bs
      && multiset(FreeLayout(l1, k).ring) == multiset(l.ring)
  {
    hide Tiles, NoTwoFree, FreePayload, FreeLayout, TakeLayout, AllocLayout, AllocAt;
    var size, k := c.Request(request), Taken(c, l, request);
    TakenFits(c, l, request);
    TakenBlocks(c, l, k, size);
    AllocTakes(c, l.bs, k, size);
    TakeThenFree(c, l, end, k, size);
    MovedToFront(l.ring, l.bs[k].start);
  }

  /** The granted payload: aligned, inside the pool, large enough, apart from every used block. */
  lemma Granted(c: Config, l: Layout, end: nat, request: nat, p: nat, k: nat, size: nat, j: nat)
    requires Good(c, l, end) && AllocLayout(c, l, request).0 == Some(p) && j < |l.bs| && l.bs[j].used
    requires k == Taken(c, l, request) && size == c.Request(request)
    ensures Live(c, AllocLayout(c, l, request).1.bs, k, p)
    ensures p % c.align == 0 && size >= request
    ensures p + size <= AllocLayout(c, l, request).1.bs[k].stop <= end
    ensures l.bs[j].stop <= p - c.header || p + size <= l.bs[j].start
  {
    hide Tiles, GoodBlock, NoTwoFree, RingOf, FreePayload, TakeLayout, AllocLayout, AllocAt, AlignUp, Taken;
    TakenFits(c, l, request);
    TakenBlocks(c, l, k, size);
    GrantedPlace(c, l.bs, end, k, size, j);
  }

  lemma GrantedPlace(c: Config, bs: seq<Block>, end: nat, k: nat, size: nat, j: nat)
    requires c.Ok() && Tiles(c, bs, 0, end) && k < |bs| && Fits(c, bs[k], size) && j < |bs| && bs[j].used
    ensures var r := AllocAt(c, bs, k, size); var p := bs[k].start + c.header;
      && k < |r| && r[k].used && r[k].start == bs[k].start && p + size <= r[k].stop <= end && p % c.align == 0
      && (bs[j].stop <= bs[k].start || p + size <= bs[j].start)
  {
    assert GoodBlock(c, bs[k]);
    AddAligned(bs[k].start, c.header, c.align);
    hide GoodBlock;
    RangesApart(c, bs, end, j, k);
    MoveRoom(c, bs, end, j, k, size);
    AllocTakes(c, bs, k, size);
    AllOrdered(c, bs, 0, end);
  }
}
