/** The small-memory heap in memory: headers and payload share one array of cells.

    A header occupies `header` bytes; its contents are modelled in the first of these
    cells, so a payload cell may well hold the remains of an old header. */
module SmallHeapCells {
  import opened Common
  import opened Alignment
  import opened BlockRow
  import opened BlockPayload

  /** `pool` stands for a pool pointer naming this heap; merged headers lose it.  `Word` is an
      address kept in payload, shown in the first cell it occupies. */
  datatype Cell =
    | Byte(b: bv8)
    | Word(p: nat)
    | Item(pool: bool, next: nat, prev: nat, used: bool)

  /** The header that block `i` must have. */
  function HeaderOf(bs: seq<Block>, i: nat): Cell
    requires i < |bs|
  {
    Item(true, bs[i].stop, if i == 0 then 0 else bs[i - 1].start, bs[i].used)
  }

  /** One header per block, linked both ways. */
  ghost predicate Headers(bs: seq<Block>, h: seq<Cell>) {
    forall i {:trigger HeaderOf(bs, i)} :: 0 <= i < |bs| ==> bs[i].start < |h| && h[bs[i].start] == HeaderOf(bs, i)
  }

  /** The end marker; its `prev` link is left open: it may be stale. */
  ghost predicate EndMark(end: nat, h: seq<Cell>) {
    end < |h| && h[end].Item? && h[end].pool && h[end].used && h[end].next == end
  }

  /** The cells agree with a row of blocks. */
  ghost predicate Agrees(header: nat, bs: seq<Block>, end: nat, h: seq<Cell>) {
    |h| == end + header && Row(header, bs, end) && Headers(bs, h) && EndMark(end, h)
  }

  // ---------------------------------------------------------------- reading links

  /** What the links say around two neighbouring blocks. */
  lemma LinksAt(header: nat, bs: seq<Block>, end: nat, h: seq<Cell>, i: nat)
    requires Agrees(header, bs, end, h) && i < |bs|
    ensures bs[i].start < |h| && h[bs[i].start] == HeaderOf(bs, i)
    ensures bs[i].stop == if i + 1 < |bs| then bs[i + 1].start else end
    ensures bs[i].stop < |h| && h[bs[i].stop].Item?
    ensures i + 1 < |bs| ==> h[bs[i].stop] == HeaderOf(bs, i + 1)
    ensures i + 1 == |bs| ==> h[bs[i].stop].used
  {
    assert h[bs[i].start] == HeaderOf(bs, i);
    if i + 1 < |bs| {
      var next := bs[i + 1];
      assert h[next.start] == HeaderOf(bs, i + 1);
    }
  }

  /** Following `next` from one header leads to the next header or to the end marker. */
  lemma NextHeader(header: nat, bs: seq<Block>, end: nat, h: seq<Cell>, i: nat)
    requires Agrees(header, bs, end, h) && i < |bs|
    ensures bs[i].start < end < |h| && h[bs[i].start] == HeaderOf(bs, i)
    ensures bs[i].stop < |h| && h[bs[i].stop].Item?
    ensures i + 1 < |bs| ==> bs[i].stop == bs[i + 1].start < end && h[bs[i].stop] == HeaderOf(bs, i + 1)
    ensures i + 1 == |bs| ==> bs[i].stop == end
  {
    LinksAt(header, bs, end, h, i);
    if i + 1 < |bs| { StartsDiffer(header, bs, end, i, i + 1); }
  }

  /** Following `prev` leads to the left neighbour, and from the first block to itself. */
  lemma LeftHeader(header: nat, bs: seq<Block>, end: nat, h: seq<Cell>, i: nat)
    requires Agrees(header, bs, end, h) && i < |bs|
    ensures bs[i].start < |h| && h[bs[i].start] == HeaderOf(bs, i)
    ensures i > 0 ==> bs[i - 1].start < bs[i].start && h[bs[i - 1].start] == HeaderOf(bs, i - 1)
    ensures i == 0 ==> bs[i].start == 0
  {
    LinksAt(header, bs, end, h, i);
    if i > 0 { LinksAt(header, bs, end, h, i - 1); StartsDiffer(header, bs, end, i - 1, i); }
  }

  lemma HeadersApart(header: nat, bs: seq<Block>, end: nat, h: seq<Cell>, i: nat, j: nat)
    requires Agrees(header, bs, end, h) && i < |bs| && j < |bs|
    ensures i < j ==> bs[i].start < bs[j].start
    ensures j < i ==> bs[j].start < bs[i].start
  {
    StartsDiffer(header, bs, end, i, j);
  }

  lemma BlockBounds(c: Config, bs: seq<Block>, end: nat, h: seq<Cell>, i: nat)
    requires c.Ok() && Tiles(c, bs, 0, end) && Agrees(c.header, bs, end, h) && i < |bs|
    ensures bs[i].start + c.header <= bs[i].stop <= end < |h| && h[bs[i].start] == HeaderOf(bs, i)
    ensures GoodBlock(c, bs[i])
  {
    NextHeader(c.header, bs, end, h, i);
    AllOrdered(c, bs, 0, end);
    assert GoodBlock(c, bs[i]);
  }

  // ---------------------------------------------------------------- merging

  /** The three stores that merge the block at `mem` with the block at `next`. */
  function MergeStores(h: seq<Cell>, mem: nat, next: nat, nn: nat): seq<Cell>
    requires mem < |h| && next < |h| && nn < |h| && h[mem].Item? && h[next].Item? && h[nn].Item?
    requires mem != next && mem != nn && next != nn
  {
    h[next := h[next].(pool := false, used := false)]
     [mem := h[mem].(next := nn)]
     [nn := h[nn].(prev := mem)]
  }

  lemma MergeHeaderAt(header: nat, bs: seq<Block>, r: seq<Block>, end: nat, h: seq<Cell>, i: nat, j: nat)
    requires |h| == end + header && Row(header, bs, end)
    requires i + 1 < |bs| && !bs[i].used && !bs[i + 1].used
    requires h[bs[i].start] == HeaderOf(bs, i) && h[bs[i + 1].start].Item? && bs[i + 1].stop < |h| && h[bs[i + 1].stop].Item?
    requires |r| == |bs| - 1 && j < |r|
    requires r[j] == if j == i then Block(bs[i].start, bs[i + 1].stop, false) else if j < i then bs[j] else bs[j + 1]
    requires j > 0 ==> r[j - 1].start == if j - 1 <= i then bs[j - 1].start else bs[j].start
    requires var k := if j <= i then j else j + 1; h[bs[k].start] == HeaderOf(bs, k)
    requires bs[i + 1].stop == if i + 2 < |bs| then bs[i + 2].start else end
    ensures r[j].start < |h| && MergeStores(h, bs[i].start, bs[i + 1].start, bs[i + 1].stop)[r[j].start] == HeaderOf(r, j)
  {
    var k := if j <= i then j else j + 1;
    StartsDiffer(header, bs, end, k, i);
    StartsDiffer(header, bs, end, k, i + 1);
    if i + 2 < |bs| { StartsDiffer(header, bs, end, k, i + 2); }
  }

  /** Two neighbours and their successor have readable headers at three distinct addresses. */
  lemma MergeReady(header: nat, bs: seq<Block>, end: nat, h: seq<Cell>, i: nat)
    requires Agrees(header, bs, end, h) && i + 1 < |bs|
    ensures bs[i].start < |h| && bs[i + 1].start < |h| && bs[i + 1].stop < |h|
    ensures h[bs[i].start] == HeaderOf(bs, i) && h[bs[i + 1].start] == HeaderOf(bs, i + 1) && h[bs[i + 1].stop].Item?
    ensures bs[i].start < bs[i + 1].start < bs[i + 1].stop
    ensures bs[i + 1].stop == if i + 2 < |bs| then bs[i + 2].start else end
  {
    LinksAt(header, bs, end, h, i);
    LinksAt(header, bs, end, h, i + 1);
  }

  lemma MergeHeaders(header: nat, bs: seq<Block>, r: seq<Block>, end: nat, h: seq<Cell>, i: nat)
    requires Agrees(header, bs, end, h) && MergedRow(bs, i, r) && !bs[i].used && !bs[i + 1].used
    requires bs[i].start < bs[i + 1].start < bs[i + 1].stop < |h|
    requires h[bs[i].start].Item? && h[bs[i + 1].start].Item? && h[bs[i + 1].stop].Item?
    ensures Headers(r, MergeStores(h, bs[i].start, bs[i + 1].start, bs[i + 1].stop))
  {
    var h' := MergeStores(h, bs[i].start, bs[i + 1].start, bs[i + 1].stop);
    MergeReady(header, bs, end, h, i);
    forall j | 0 <= j < |r| ensures r[j].start < |h'| && h'[r[j].start] == HeaderOf(r, j) {
      LinksAt(header, bs, end, h, if j <= i then j else j + 1);
      MergeHeaderAt(header, bs, r, end, h, i, j);
    }
  }

  lemma MergeAgrees(header: nat, bs: seq<Block>, end: nat, h: seq<Cell>, i: nat)
    requires Agrees(header, bs, end, h) && i + 1 < |bs| && !bs[i].used && !bs[i + 1].used
    requires Row(header, MergeRight(bs, i), end)
    ensures bs[i].start < bs[i + 1].start < bs[i + 1].stop < |h|
    ensures h[bs[i].start].Item? && h[bs[i + 1].start].Item? && h[bs[i + 1].stop].Item?
    ensures Agrees(header, MergeRight(bs, i), end, MergeStores(h, bs[i].start, bs[i + 1].start, bs[i + 1].stop))
  {
    MergeReady(header, bs, end, h, i);
    MergeRightRow(bs, i);
    MergeHeaders(header, bs, MergeRight(bs, i), end, h, i);
  }

  /** Merging stores only into header cells. */
  lemma MergePayload(c: Config, bs: seq<Block>, end: nat, h: seq<Cell>, h': seq<Cell>, i: nat)
    requires c.Ok() && Tiles(c, bs, 0, end) && i + 1 < |bs| && |h| == |h'|
    requires forall a: nat :: a < |h| && a != bs[i].start && a != bs[i + 1].start && a != bs[i + 1].stop ==> h'[a] == h[a]
    ensures SamePayload(c, bs, h, h')
  {
    NotPayload(c, bs, 0, end, i, bs[i].start);
    NotPayload(c, bs, 0, end, i + 1, bs[i + 1].start);
    StopNotPayload(c, bs, end, i + 1);
  }

  /** One merge, seen from the heap: all that the two halves of `plug_holes` rely on. */
  lemma JoinState(c: Config, bs: seq<Block>, end: nat, h: seq<Cell>, i: nat)
    requires c.Ok() && Tiles(c, bs, 0, end) && Agrees(c.header, bs, end, h)
    requires i + 1 < |bs| && !bs[i].used && !bs[i + 1].used
    ensures bs[i].start < bs[i + 1].start < bs[i + 1].stop < |h|
    ensures h[bs[i].start].Item? && h[bs[i + 1].start].Item? && h[bs[i + 1].stop].Item?
    ensures var h' := MergeStores(h, bs[i].start, bs[i + 1].start, bs[i + 1].stop);
      && Tiles(c, MergeRight(bs, i), 0, end)
      && Agrees(c.header, MergeRight(bs, i), end, h')
      && SamePayload(c, bs, h, h')
  {
    MergeTiles(c, bs, 0, end, i);
    TilesRow(c, MergeRight(bs, i), end);
    MergeAgrees(c.header, bs, end, h, i);
    MergePayload(c, bs, end, h, MergeStores(h, bs[i].start, bs[i + 1].start, bs[i + 1].stop), i);
  }

  // ---------------------------------------------------------------- marking

  /** Changing the used mark of one block. */
  lemma MarkHeaders(header: nat, bs: seq<Block>, end: nat, h: seq<Cell>, i: nat, used: bool)
    requires |h| == end + header && Row(header, bs, end) && Headers(bs, h) && i < |bs| && h[bs[i].start].Item?
    ensures Headers(bs[i := bs[i].(used := used)], h[bs[i].start := h[bs[i].start].(used := used)])
  {
    var r, h' := bs[i := bs[i].(used := used)], h[bs[i].start := h[bs[i].start].(used := used)];
    forall j | 0 <= j < |r| ensures h'[r[j].start] == HeaderOf(r, j) {
      assert h[bs[j].start] == HeaderOf(bs, j);
    }
  }

  lemma MarkAgrees(header: nat, bs: seq<Block>, end: nat, h: seq<Cell>, i: nat, used: bool)
    requires Agrees(header, bs, end, h) && i < |bs|
    requires Row(header, bs[i := bs[i].(used := used)], end)
    ensures h[bs[i].start].Item?
    ensures Agrees(header, bs[i := bs[i].(used := used)], end, h[bs[i].start := h[bs[i].start].(used := used)])
  {
    LinksAt(header, bs, end, h, i);
    MarkHeaders(header, bs, end, h, i, used);
  }

  /** Releasing a block before holes are plugged. */
  lemma MarkState(c: Config, bs: seq<Block>, end: nat, h: seq<Cell>, i: nat, used: bool)
    requires c.Ok() && Tiles(c, bs, 0, end) && Agrees(c.header, bs, end, h) && i < |bs|
    ensures bs[i].start < |h| && h[bs[i].start] == HeaderOf(bs, i)
    ensures var r := bs[i := bs[i].(used := used)]; var h' := h[bs[i].start := h[bs[i].start].(used := used)];
      && Tiles(c, r, 0, end) && Agrees(c.header, r, end, h')
      && SamePayload(c, bs, h, h') && SamePayload(c, r, h, h')
  {
    LinksAt(c.header, bs, end, h, i);
    var r, h' := bs[i := bs[i].(used := used)], h[bs[i].start := h[bs[i].start].(used := used)];
    FlagTiles(c, bs, 0, end, i, used);
    TilesRow(c, r, end);
    MarkAgrees(c.header, bs, end, h, i, used);
    NotPayload(c, bs, 0, end, i, bs[i].start);
    NotPayload(c, r, 0, end, i, bs[i].start);
  }

  // ---------------------------------------------------------------- cutting

  /** The stores that cut a block in two: a new free header, the link to it, the back link
      of the next block unless that is the end marker. */
  function CutStores(h: seq<Cell>, end: nat, mem: nat, ptr2: nat, next: nat): seq<Cell>
    requires mem < |h| && ptr2 < |h| && next < |h| && h[mem].Item? && h[next].Item?
    requires ptr2 != mem && ptr2 != next && next != mem
  {
    var h' := h[ptr2 := Item(true, next, mem, false)][mem := h[mem].(next := ptr2, used := true)];
    if next != end then h'[next := h[next].(prev := ptr2)] else h'
  }

  lemma CutHeaderAt(c: Config, bs: seq<Block>, end: nat, h: seq<Cell>, i: nat, size: nat, j: nat)
    requires |h| == end + c.header && Row(c.header, bs, end) && i < |bs|
    requires Payload(c, bs[i]) >= size + c.header
    requires h[bs[i].start] == HeaderOf(bs, i) && bs[i].stop < |h| && h[bs[i].stop].Item?
    requires j < |CutAt(c, bs, i, size)|
    requires var k := if j <= i then j else j - 1; h[bs[k].start] == HeaderOf(bs, k)
    requires bs[i].stop == if i + 1 < |bs| then bs[i + 1].start else end
    ensures var r := CutAt(c, bs, i, size);
      && r[j].start < |h|
      && CutStores(h, end, bs[i].start, bs[i].start + c.header + size, bs[i].stop)[r[j].start] == HeaderOf(r, j)
  {
    var r := CutAt(c, bs, i, size);
    var k := if j <= i then j else j - 1;
    CutRow(c, bs, i, size);
    StartsDiffer(c.header, bs, end, k, i);
    if i + 1 < |bs| { StartsDiffer(c.header, bs, end, k, i + 1); }
    if k > i { assert bs[i].stop <= bs[k].start; }
    hide CutAt, Row;
  }

  lemma CutHeaders(c: Config, bs: seq<Block>, end: nat, h: seq<Cell>, i: nat, size: nat)
    requires Agrees(c.header, bs, end, h) && i < |bs|
    requires Payload(c, bs[i]) >= size + c.header
    requires h[bs[i].start].Item? && bs[i].stop < |h| && h[bs[i].stop].Item?
    ensures Headers(CutAt(c, bs, i, size), CutStores(h, end, bs[i].start, bs[i].start + c.header + size, bs[i].stop))
  {
    var r := CutAt(c, bs, i, size);
    var h' := CutStores(h, end, bs[i].start, bs[i].start + c.header + size, bs[i].stop);
    LinksAt(c.header, bs, end, h, i);
    forall j | 0 <= j < |r| ensures r[j].start < |h'| && h'[r[j].start] == HeaderOf(r, j) {
      LinksAt(c.header, bs, end, h, if j <= i then j else j - 1);
      CutHeaderAt(c, bs, end, h, i, size, j);
    }
  }

  lemma CutAgrees(c: Config, bs: seq<Block>, end: nat, h: seq<Cell>, i: nat, size: nat)
    requires Agrees(c.header, bs, end, h) && i < |bs|
    requires Payload(c, bs[i]) >= size + c.header
    requires Row(c.header, CutAt(c, bs, i, size), end)
    ensures h[bs[i].start].Item? && h[bs[i].stop].Item?
    ensures Agrees(c.header, CutAt(c, bs, i, size), end,
              CutStores(h, end, bs[i].start, bs[i].start + c.header + size, bs[i].stop))
  {
    LinksAt(c.header, bs, end, h, i);
    CutHeaders(c, bs, end, h, i, size);
  }

  /** Cutting block `i`: stores into header cells and into the part cut off. */
  lemma CutState(c: Config, bs: seq<Block>, end: nat, h: seq<Cell>, i: nat, size: nat)
    requires c.Ok() && Tiles(c, bs, 0, end) && Agrees(c.header, bs, end, h) && i < |bs|
    requires Payload(c, bs[i]) >= size + c.header && size % c.align == 0
    ensures bs[i].start < |h| && h[bs[i].start] == HeaderOf(bs, i) && bs[i].stop < |h| && h[bs[i].stop].Item?
    ensures bs[i].start + c.header + size < bs[i].stop
    ensures var h' := CutStores(h, end, bs[i].start, bs[i].start + c.header + size, bs[i].stop); var r := CutAt(c, bs, i, size);
      && Tiles(c, r, 0, end) && Agrees(c.header, r, end, h')
  {
    var r := CutAt(c, bs, i, size);
    LinksAt(c.header, bs, end, h, i);
    CutTiles(c, bs, 0, end, i, size);
    TilesRow(c, r, end);
    CutAgrees(c, bs, end, h, i, size);
  }

  lemma CutPayload(c: Config, bs: seq<Block>, end: nat, h: seq<Cell>, i: nat, size: nat)
    requires c.Ok() && Tiles(c, bs, 0, end) && i < |bs| && !bs[i].used
    requires Payload(c, bs[i]) >= size + c.header
    requires bs[i].start < |h| && h[bs[i].start].Item? && bs[i].stop < |h| && h[bs[i].stop].Item?
    requires bs[i].start + c.header + size < bs[i].stop
    ensures SamePayload(c, bs, h, CutStores(h, end, bs[i].start, bs[i].start + c.header + size, bs[i].stop))
  {
    NotPayload(c, bs, 0, end, i, bs[i].start);
    StopNotPayload(c, bs, end, i);
    NotPayload(c, bs, 0, end, i, bs[i].start + c.header + size);
  }

  lemma CutKeepsPayload(c: Config, bs: seq<Block>, end: nat, h: seq<Cell>, i: nat, size: nat)
    requires c.Ok() && Tiles(c, bs, 0, end) && i < |bs| && size % c.align == 0
    requires Payload(c, bs[i]) >= size + c.header
    requires bs[i].start < |h| && h[bs[i].start].Item? && bs[i].stop < |h| && h[bs[i].stop].Item?
    requires bs[i].start + c.header + size < bs[i].stop
    ensures SamePayload(c, CutAt(c, bs, i, size), h, CutStores(h, end, bs[i].start, bs[i].start + c.header + size, bs[i].stop))
  {
    var r := CutAt(c, bs, i, size);
    CutTiles(c, bs, 0, end, i, size);
    NotPayload(c, r, 0, end, i, bs[i].start);
    NotPayload(c, r, 0, end, i + 1, bs[i].start + c.header + size);
    StopNotPayload(c, r, end, i + 1);
  }

  // ---------------------------------------------------------------- payload stores

  lemma PayloadStore(c: Config, bs: seq<Block>, end: nat, h: seq<Cell>, i: nat, a: nat, b: Cell)
    requires c.Ok() && Tiles(c, bs, 0, end) && Agrees(c.header, bs, end, h)
    requires i < |bs| && bs[i].used && bs[i].start + c.header <= a < bs[i].stop
    ensures a < |h| && Agrees(c.header, bs, end, h[a := b])
  {
    TilesRow(c, bs, end);
    assert InUsed(c, bs, a);
    NotPayload(c, bs, 0, end, i, end);
    forall j | 0 <= j < |bs| ensures bs[j].start < |h| && h[a := b][bs[j].start] == HeaderOf(bs, j) {
      NotPayload(c, bs, 0, end, j, bs[j].start);
      LinksAt(c.header, bs, end, h, j);
    }
  }
}
