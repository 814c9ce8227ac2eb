/** Which blocks are in use before and after each heap operation, as plain sets of blocks. */
module BlockUse {
  import opened Common
  import opened Alignment
  import opened BlockRow

  ghost function UsedBlocks(bs: seq<Block>): set<Block> { set b | b in bs && b.used }

  ghost predicate SomeFits(c: Config, bs: seq<Block>, size: nat) {
    exists k :: 0 <= k < |bs| && Fits(c, bs[k], size)
  }

  /** `p` is a new live block of at least `least` and at most `most` bytes; every other used
      block is as before. */
  ghost predicate Added(c: Config, bs: seq<Block>, r: seq<Block>, p: nat, least: int, most: int) {
    exists j: nat :: Live(c, r, j, p) && least <= Payload(c, r[j]) <= most
                     && r[j] !in UsedBlocks(bs) && UsedBlocks(r) == UsedBlocks(bs) + {r[j]}
  }

  /** Block `i` made way for the live block `p` of at least `least` and at most `most` bytes;
      every other used block is as before. */
  ghost predicate Replaced(c: Config, bs: seq<Block>, r: seq<Block>, i: nat, p: nat, least: int, most: int)
    requires i < |bs|
  {
    exists j: nat :: Live(c, r, j, p) && least <= Payload(c, r[j]) <= most
                     && UsedBlocks(r) == UsedBlocks(bs) - {bs[i]} + {r[j]}
  }

  // ---------------------------------------------------------------- one stretch of the row changes

  lemma SpliceMembers(bs: seq<Block>, lo: nat, hi: nat, mid: seq<Block>, b: Block)
    requires lo <= hi <= |bs|
    ensures b in Splice(bs, lo, hi, mid) <==> b in bs[..lo] || b in mid || b in bs[hi..]
  {
  }

  /** Used blocks outside a stretch stay, those inside it make way for those of `mid`. */
  lemma SpliceUse(header: nat, bs: seq<Block>, end: nat, lo: nat, hi: nat, mid: seq<Block>)
    requires Row(header, bs, end) && lo <= hi <= |bs|
    ensures UsedBlocks(Splice(bs, lo, hi, mid)) == UsedBlocks(bs) - UsedBlocks(bs[lo..hi]) + UsedBlocks(mid)
  {
    forall b: Block ensures b in UsedBlocks(Splice(bs, lo, hi, mid)) <==> b in UsedBlocks(bs) - UsedBlocks(bs[lo..hi]) + UsedBlocks(mid) {
      SpliceUseOf(header, bs, end, lo, hi, mid, b);
    }
    hide Row, Splice, UsedBlocks;
  }

  lemma SpliceUseOf(header: nat, bs: seq<Block>, end: nat, lo: nat, hi: nat, mid: seq<Block>, b: Block)
    requires Row(header, bs, end) && lo <= hi <= |bs|
    ensures b in UsedBlocks(Splice(bs, lo, hi, mid)) <==> b in UsedBlocks(bs) - UsedBlocks(bs[lo..hi]) + UsedBlocks(mid)
  {
    SpliceMembers(bs, lo, hi, mid, b);
    WholeMembers(bs, lo, hi, b);
    if b in bs[lo..hi] { StretchApart(header, bs, end, lo, hi, b); }
    hide Row, Splice;
  }

  lemma WholeMembers(bs: seq<Block>, lo: nat, hi: nat, b: Block)
    requires lo <= hi <= |bs|
    ensures b in bs <==> b in bs[..lo] || b in bs[lo..hi] || b in bs[hi..]
  {
    assert bs == Splice(bs, lo, hi, bs[lo..hi]);
    SpliceMembers(bs, lo, hi, bs[lo..hi], b);
  }

  /** A block occurs once, since starts differ. */
  lemma StretchApart(header: nat, bs: seq<Block>, end: nat, lo: nat, hi: nat, b: Block)
    requires Row(header, bs, end) && lo <= hi <= |bs| && b in bs[lo..hi]
    ensures b !in bs[..lo] && b !in bs[hi..]
  {
    var k :| 0 <= k < |bs[lo..hi]| && bs[lo..hi][k] == b;
    forall j | 0 <= j < |bs| && j != lo + k ensures bs[j] != b { StartsDiffer(header, bs, end, j, lo + k); }
  }

  lemma UsedOne(b: Block)
    ensures UsedBlocks([b]) == if b.used then {b} else {}
  {
  }

  lemma UsedTwo(a: Block, b: Block)
    ensures UsedBlocks([a, b]) == (if a.used then {a} else {}) + (if b.used then {b} else {})
  {
  }

  // ---------------------------------------------------------------- each operation

  lemma AllocUse(c: Config, bs: seq<Block>, end: nat, k: nat, size: nat)
    requires WF(c, bs, end) && k < |bs| && Fits(c, bs[k], size)
    ensures Added(c, bs, AllocAt(c, bs, k, size), bs[k].start + c.header, size, size + c.header + c.MinAligned())
    ensures k < |AllocAt(c, bs, k, size)|
    ensures UsedBlocks(AllocAt(c, bs, k, size)) == UsedBlocks(bs) + {AllocAt(c, bs, k, size)[k]}
  {
    var b, r := bs[k], AllocAt(c, bs, k, size);
    TilesRow(c, bs, end);
    hide Tiles, NoTwoFree;
    assert bs[k..k + 1] == [b];
    UsedOne(b);
    if Payload(c, b) >= size + c.header + c.MinAligned() {
      var x, y := Block(b.start, b.start + c.header + size, true), Block(b.start + c.header + size, b.stop, false);
      SpliceUse(c.header, bs, end, k, k + 1, [x, y]);
      UsedTwo(x, y);
    } else {
      assert r == Splice(bs, k, k + 1, [b.(used := true)]);
      SpliceUse(c.header, bs, end, k, k + 1, [b.(used := true)]);
      UsedOne(b.(used := true));
    }
    NewBlock(c, bs, end, k, r[k]);
    assert Live(c, r, k, b.start + c.header);
  }

  lemma NewBlock(c: Config, bs: seq<Block>, end: nat, k: nat, x: Block)
    requires Row(c.header, bs, end) && k < |bs| && !bs[k].used && x.start == bs[k].start && x.used
    ensures x !in UsedBlocks(bs)
  {
    forall j | 0 <= j < |bs| && bs[j].used ensures bs[j] != x { StartsDiffer(c.header, bs, end, j, k); }
  }

  lemma MergeUse(header: nat, bs: seq<Block>, end: nat, i: nat)
    requires Row(header, bs, end) && i < |bs| && !bs[i].used
    ensures UsedBlocks(MergeRight(bs, i)) == UsedBlocks(bs)
  {
    if i + 1 < |bs| && !bs[i + 1].used {
      var x := Block(bs[i].start, bs[i + 1].stop, false);
      SpliceUse(header, bs, end, i, i + 2, [x]);
      assert bs[i..i + 2] == [bs[i], bs[i + 1]];
      UsedTwo(bs[i], bs[i + 1]);
      UsedOne(x);
    }
  }

  lemma PlugHolesUse(c: Config, bs: seq<Block>, end: nat, i: nat)
    requires c.Ok() && Tiles(c, bs, 0, end) && i < |bs| && !bs[i].used
    ensures UsedBlocks(PlugHoles(bs, i)) == UsedBlocks(bs)
  {
    TilesRow(c, bs, end);
    MergeUse(c.header, bs, end, i);
    PlugHolesKeepsTiles(c, bs, end, i);
    var r := MergeRight(bs, i);
    LeftIsRight(r, i);
    TilesRow(c, r, end);
    if i > 0 && !r[i - 1].used { MergeUse(c.header, r, end, i - 1); }
  }

  lemma FreeUse(c: Config, bs: seq<Block>, end: nat, i: nat)
    requires c.Ok() && Tiles(c, bs, 0, end) && i < |bs| && bs[i].used
    ensures UsedBlocks(FreeAt(bs, i)) == UsedBlocks(bs) - {bs[i]}
  {
    TilesRow(c, bs, end);
    FlagTiles(c, bs, 0, end, i, false);
    hide Tiles, Row, UsedBlocks, PlugHoles;
    PlugHolesUse(c, bs[i := bs[i].(used := false)], end, i);
    FlagUse(c.header, bs, end, i);
  }

  lemma FlagUse(header: nat, bs: seq<Block>, end: nat, i: nat)
    requires Row(header, bs, end) && i < |bs| && bs[i].used
    ensures UsedBlocks(bs[i := bs[i].(used := false)]) == UsedBlocks(bs) - {bs[i]}
  {
    var x := bs[i].(used := false);
    SpliceUse(header, bs, end, i, i + 1, [x]);
    assert bs[i := x] == Splice(bs, i, i + 1, [x]) && bs[i..i + 1] == [bs[i]];
    UsedOne(bs[i]);
    UsedOne(x);
    hide Row, UsedBlocks, Splice;
  }

  lemma ShrinkUse(c: Config, bs: seq<Block>, end: nat, i: nat, n: nat)
    requires c.Ok() && Tiles(c, bs, 0, end) && i < |bs| && bs[i].used && n % c.align == 0 && Payload(c, bs[i]) >= n + c.header
    ensures UsedBlocks(ShrinkAt(c, bs, i, n)) == UsedBlocks(bs) - {bs[i]} + {Block(bs[i].start, bs[i].start + c.header + n, true)}
  {
    TilesRow(c, bs, end);
    CutTiles(c, bs, 0, end, i, n);
    CutRow(c, bs, i, n);
    hide Tiles, Row, UsedBlocks, PlugHoles, CutAt;
    PlugHolesUse(c, CutAt(c, bs, i, n), end, i + 1);
    CutUse(c, bs, end, i, n);
  }

  lemma CutUse(c: Config, bs: seq<Block>, end: nat, i: nat, n: nat)
    requires Row(c.header, bs, end) && i < |bs| && bs[i].used
    ensures UsedBlocks(CutAt(c, bs, i, n)) == UsedBlocks(bs) - {bs[i]} + {Block(bs[i].start, bs[i].start + c.header + n, true)}
  {
    var at := bs[i].start + c.header + n;
    var x, y := Block(bs[i].start, at, true), Block(at, bs[i].stop, false);
    SpliceUse(c.header, bs, end, i, i + 1, [x, y]);
    assert bs[i..i + 1] == [bs[i]];
    UsedOne(bs[i]);
    UsedTwo(x, y);
    hide Row, UsedBlocks, Splice;
  }

  /** Growing block `i` into its free right neighbour. */
  lemma GrowUse(c: Config, bs: seq<Block>, end: nat, i: nat, n: nat)
    requires c.Ok() && Tiles(c, bs, 0, end) && i + 1 < |bs| && bs[i].used && !bs[i + 1].used
    ensures var at := bs[i].start + c.header + n; var x := Block(bs[i].start, at, true);
      UsedBlocks(Splice(bs, i, i + 2, [x, Block(at, bs[i + 1].stop, false)])) == UsedBlocks(bs) - {bs[i]} + {x}
  {
    var at := bs[i].start + c.header + n;
    var x, y := Block(bs[i].start, at, true), Block(at, bs[i + 1].stop, false);
    TilesRow(c, bs, end);
    assert bs[i..i + 2] == [bs[i], bs[i + 1]];
    hide Tiles, Row;
    SpliceUse(c.header, bs, end, i, i + 2, [x, y]);
    UsedTwo(bs[i], bs[i + 1]);
    UsedTwo(x, y);
    hide UsedBlocks, Splice;
  }

  // ---------------------------------------------------------------- resized blocks

  /** A block that stays. */
  lemma StaysReplaced(c: Config, bs: seq<Block>, i: nat, least: int, most: int)
    requires i < |bs| && bs[i].used && least <= Payload(c, bs[i]) <= most
    ensures Replaced(c, bs, bs, i, bs[i].start + c.header, least, most)
  {
    assert Live(c, bs, i, bs[i].start + c.header);
  }

  /** A block whose replacement is known to be in the new row. */
  lemma ReplacedBy(c: Config, bs: seq<Block>, r: seq<Block>, i: nat, x: Block, least: int, most: int)
    requires i < |bs| && x.used && least <= Payload(c, x) <= most
    requires UsedBlocks(r) == UsedBlocks(bs) - {bs[i]} + {x}
    ensures Replaced(c, bs, r, i, x.start + c.header, least, most)
  {
    assert x in UsedBlocks(r);
    var j: nat :| j < |r| && r[j] == x;
    assert Live(c, r, j, x.start + c.header);
  }

  /** Allocate, then free the old block, which is where it was among the other blocks. */
  lemma MoveUse(c: Config, bs: seq<Block>, end: nat, i: nat, k: nat, size: nat)
    requires WF(c, bs, end) && i < |bs| && bs[i].used && k < |bs| && Fits(c, bs[k], size) && size % c.align == 0
    ensures Shifted(c, bs, k, size, i) < |AllocAt(c, bs, k, size)|
    ensures Replaced(c, bs, FreeAt(AllocAt(c, bs, k, size), Shifted(c, bs, k, size, i)), i, bs[k].start + c.header,
                     size, size + c.header + c.MinAligned())
  {
    var a, j := AllocAt(c, bs, k, size), Shifted(c, bs, k, size, i);
    AllocShifts(c, bs, k, size, i);
    hide AllocAt, Shifted, FreeAt, UsedBlocks, Added, Tiles, NoTwoFree;
    AllocUse(c, bs, end, k, size);
    AllocKeepsWF(c, bs, end, k, size);
    FreeUse(c, a, end, j);
    AllocSize(c, bs, k, size);
    TilesRow(c, bs, end);
    StartsDiffer(c.header, bs, end, i, k);
    hide Row, Replaced;
    ReplacedBy(c, bs, FreeAt(a, j), i, a[k], size, size + c.header + c.MinAligned());
  }

  lemma AllocSize(c: Config, bs: seq<Block>, k: nat, size: nat)
    requires c.Ok() && k < |bs| && Fits(c, bs[k], size)
    ensures var a := AllocAt(c, bs, k, size);
      k < |a| && a[k].used && a[k].start == bs[k].start && size <= Payload(c, a[k]) <= size + c.header + c.MinAligned()
  {
  }
}
