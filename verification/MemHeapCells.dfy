/** The memheap pool in memory: a circular list of block headers in address order and,
    through the same headers, a doubly linked ring of the free ones.

    As in the small heap a header's contents sit in the first of its cells. */
module MemHeapCells {
  import opened Common
  import opened Alignment
  import opened BlockRow
  import opened BlockPayload
  import opened MemHeapLayout
  import opened MemHeapSteps

  /** A pointer of the free ring: nowhere, the `free_header` of the heap object, or a header. */
  datatype Ref = Null | Head | At(a: nat)

  /** `next` and `prev` are offsets: the block list never leaves the pool. */
  datatype Cell =
    | Byte(b: bv8)
    | Item(used: bool, next: nat, prev: nat, nextFree: Ref, prevFree: Ref)

  /** The pool and the two links in `free_header`. */
  datatype Mem = Mem(h: seq<Cell>, first: Ref, last: Ref)

  // ---------------------------------------------------------------- the block list

  /** Block `i`; after the last one comes the tail marker, which leads back to the start. */
  function Slot(bs: seq<Block>, end: nat, i: nat): Block
    requires i <= |bs|
  {
    if i < |bs| then bs[i] else Block(end, 0, true)
  }

  function PrevAt(bs: seq<Block>, end: nat, i: nat): nat
    requires i <= |bs|
  {
    if i == 0 then end else bs[i - 1].start
  }

  predicate HeaderIs(x: Cell, b: Block, prev: nat) {
    x.Item? && x.used == b.used && x.next == b.stop && x.prev == prev
  }

  ghost predicate ChainedAt(bs: seq<Block>, end: nat, h: seq<Cell>, i: nat)
    requires i <= |bs|
  {
    Slot(bs, end, i).start < |h| && HeaderIs(h[Slot(bs, end, i).start], Slot(bs, end, i), PrevAt(bs, end, i))
  }

  /** Every header, the tail marker's included, is linked to its neighbours in address order. */
  ghost predicate Chained(bs: seq<Block>, end: nat, h: seq<Cell>) {
    forall i :: 0 <= i <= |bs| ==> ChainedAt(bs, end, h, i)
  }

  lemma SlotsDiffer(header: nat, bs: seq<Block>, end: nat, i: nat, j: nat)
    requires Row(header, bs, end) && i <= |bs| && j <= |bs|
    ensures i < j ==> Slot(bs, end, i).start < Slot(bs, end, j).start
    ensures j < i ==> Slot(bs, end, j).start < Slot(bs, end, i).start
  {
  }

  /** `next` of a block leads to the following header. */
  lemma NextSlot(header: nat, bs: seq<Block>, end: nat, i: nat)
    requires Row(header, bs, end) && i < |bs|
    ensures bs[i].stop == Slot(bs, end, i + 1).start && bs[i].start < bs[i].stop <= end
  {
  }

  lemma Linkage(header: nat, bs: seq<Block>, end: nat, h: seq<Cell>, i: nat)
    requires Row(header, bs, end) && Chained(bs, end, h) && i < |bs|
    ensures bs[i].start < bs[i].stop < |h|
    ensures HeaderIs(h[bs[i].start], bs[i], PrevAt(bs, end, i))
    ensures HeaderIs(h[bs[i].stop], Slot(bs, end, i + 1), bs[i].start)
  {
    NextSlot(header, bs, end, i);
    assert ChainedAt(bs, end, h, i) && ChainedAt(bs, end, h, i + 1);
  }

  /** To the left of the first block lies the tail marker, which is used. */
  lemma LeftLinkage(header: nat, bs: seq<Block>, end: nat, h: seq<Cell>, i: nat)
    requires Row(header, bs, end) && Chained(bs, end, h) && i < |bs|
    ensures PrevAt(bs, end, i) < |h| && h[PrevAt(bs, end, i)].Item?
    ensures h[PrevAt(bs, end, i)].used <==> i == 0 || bs[i - 1].used
  {
    assert ChainedAt(bs, end, h, if i == 0 then |bs| else i - 1);
  }

  // ---------------------------------------------------------------- stores of the block list

  function JoinStores(h: seq<Cell>, left: nat, nn: nat): seq<Cell>
    requires left < |h| && nn < |h| && h[left].Item? && h[nn].Item? && left != nn
  {
    h[left := h[left].(next := nn)][nn := h[nn].(prev := left)]
  }

  lemma JoinSlots(bs: seq<Block>, end: nat, i: nat, j: nat)
    requires i + 1 < |bs| && j <= |bs| - 1
    ensures |Join(bs, i)| == |bs| - 1
    ensures Slot(Join(bs, i), end, j) ==
            if j == i then Block(bs[i].start, bs[i + 1].stop, bs[i].used) else Slot(bs, end, if j < i then j else j + 1)
    ensures PrevAt(Join(bs, i), end, j) == if j == i + 1 then bs[i].start else PrevAt(bs, end, if j <= i then j else j + 1)
  {
  }

  lemma JoinAt(header: nat, bs: seq<Block>, end: nat, h: seq<Cell>, i: nat, j: nat)
    requires Row(header, bs, end) && i + 1 < |bs| && j <= |bs| - 1 && j <= |Join(bs, i)|
    requires ChainedAt(bs, end, h, i) && ChainedAt(bs, end, h, i + 2) && ChainedAt(bs, end, h, if j <= i then j else j + 1)
    requires bs[i + 1].stop == Slot(bs, end, i + 2).start && bs[i].start != bs[i + 1].stop
    ensures ChainedAt(Join(bs, i), end, JoinStores(h, bs[i].start, bs[i + 1].stop), j)
  {
    hide Row, Join;
    var k := if j <= i then j else j + 1;
    SlotsDiffer(header, bs, end, k, i);
    SlotsDiffer(header, bs, end, k, i + 2);
    JoinSlots(bs, end, i, j);
  }

  lemma JoinChained(header: nat, bs: seq<Block>, end: nat, h: seq<Cell>, i: nat)
    requires Row(header, bs, end) && Chained(bs, end, h) && i + 1 < |bs|
    ensures bs[i].start < bs[i + 1].start < bs[i + 1].stop < |h|
    ensures h[bs[i].start].Item? && h[bs[i + 1].stop].Item?
    ensures Chained(Join(bs, i), end, JoinStores(h, bs[i].start, bs[i + 1].stop))
  {
    NextSlot(header, bs, end, i + 1);
    SlotsDiffer(header, bs, end, i, i + 1);
    assert ChainedAt(bs, end, h, i) && ChainedAt(bs, end, h, i + 2);
    var r, h' := Join(bs, i), JoinStores(h, bs[i].start, bs[i + 1].stop);
    hide Row, ChainedAt;
    forall j | 0 <= j <= |r| ensures ChainedAt(r, end, h', j) {
      assert ChainedAt(bs, end, h, if j <= i then j else j + 1);
      JoinAt(header, bs, end, h, i, j);
    }
  }

  function CutStores(h: seq<Cell>, mem: nat, at: nat, next: nat): seq<Cell>
    requires mem < |h| && at < |h| && next < |h| && h[mem].Item? && h[next].Item?
    requires mem != at && mem != next && at != next
  {
    h[at := Item(false, next, mem, Null, Null)][next := h[next].(prev := at)][mem := h[mem].(next := at)]
  }

  lemma CutSlots(header: nat, bs: seq<Block>, end: nat, i: nat, size: nat, j: nat)
    requires i < |bs| && j <= |bs| + 1
    ensures var at := bs[i].start + header + size; var r := Cut(header, bs, i, size);
      && |r| == |bs| + 1
      && Slot(r, end, j) == (if j == i then Block(bs[i].start, at, bs[i].used)
                             else if j == i + 1 then Block(at, bs[i].stop, false)
                             else Slot(bs, end, if j < i then j else j - 1))
      && PrevAt(r, end, j) == (if j == i + 1 then bs[i].start
                               else if j == i + 2 then at
                               else PrevAt(bs, end, if j <= i then j else j - 1))
  {
  }

  lemma CutAtSlot(header: nat, bs: seq<Block>, end: nat, h: seq<Cell>, i: nat, size: nat, j: nat)
    requires Row(header, bs, end) && i < |bs| && j <= |bs| + 1 && j <= |Cut(header, bs, i, size)|
    requires bs[i].start < bs[i].start + header + size < bs[i].stop
    requires ChainedAt(bs, end, h, i) && ChainedAt(bs, end, h, i + 1) && ChainedAt(bs, end, h, if j <= i then j else j - 1)
    requires bs[i].stop == Slot(bs, end, i + 1).start
    ensures ChainedAt(Cut(header, bs, i, size), end, CutStores(h, bs[i].start, bs[i].start + header + size, bs[i].stop), j)
  {
    hide Row, Cut;
    var k := if j <= i then j else j - 1;
    SlotsDiffer(header, bs, end, k, i);
    SlotsDiffer(header, bs, end, k, i + 1);
    CutSlots(header, bs, end, i, size, j);
  }

  lemma CutChained(header: nat, bs: seq<Block>, end: nat, h: seq<Cell>, i: nat, size: nat)
    requires Row(header, bs, end) && Chained(bs, end, h) && i < |bs| && bs[i].start + header + size < bs[i].stop
    ensures bs[i].start < bs[i].start + header + size < bs[i].stop < |h|
    ensures h[bs[i].start].Item? && h[bs[i].stop].Item?
    ensures Chained(Cut(header, bs, i, size), end, CutStores(h, bs[i].start, bs[i].start + header + size, bs[i].stop))
  {
    NextSlot(header, bs, end, i);
    assert ChainedAt(bs, end, h, i) && ChainedAt(bs, end, h, i + 1);
    assert header > 0;
    var r, h' := Cut(header, bs, i, size), CutStores(h, bs[i].start, bs[i].start + header + size, bs[i].stop);
    hide Row, ChainedAt;
    forall j | 0 <= j <= |r| ensures ChainedAt(r, end, h', j) {
      assert ChainedAt(bs, end, h, if j <= i then j else j - 1);
      CutAtSlot(header, bs, end, h, i, size, j);
    }
  }

  lemma MarkChained(header: nat, bs: seq<Block>, end: nat, h: seq<Cell>, i: nat, used: bool)
    requires Row(header, bs, end) && Chained(bs, end, h) && i < |bs|
    ensures bs[i].start < |h| && h[bs[i].start].Item?
    ensures Chained(bs[i := bs[i].(used := used)], end, h[bs[i].start := h[bs[i].start].(used := used)])
  {
    assert ChainedAt(bs, end, h, i);
    var r, h' := bs[i := bs[i].(used := used)], h[bs[i].start := h[bs[i].start].(used := used)];
    forall j | 0 <= j <= |r| ensures ChainedAt(r, end, h', j) {
      assert ChainedAt(bs, end, h, j);
      SlotsDiffer(header, bs, end, i, j);
    }
  }

  // ---------------------------------------------------------------- the free ring

  /** Node `k` of the ring, the list head at both ends. */
  function Node(ring: seq<nat>, k: nat): Ref {
    if 0 < k <= |ring| then At(ring[k - 1]) else Head
  }

  ghost predicate OnItem(m: Mem, r: Ref) {
    r.Head? || (r.At? && r.a < |m.h| && m.h[r.a].Item?)
  }

  function NextFree(m: Mem, r: Ref): Ref {
    match r
    case Head => m.first
    case At(a) => if a < |m.h| && m.h[a].Item? then m.h[a].nextFree else Null
    case Null => Null
  }

  function PrevFree(m: Mem, r: Ref): Ref {
    match r
    case Head => m.last
    case At(a) => if a < |m.h| && m.h[a].Item? then m.h[a].prevFree else Null
    case Null => Null
  }

  function SetNext(m: Mem, r: Ref, v: Ref): Mem
    requires OnItem(m, r)
  {
    if r.Head? then m.(first := v) else m.(h := m.h[r.a := m.h[r.a].(nextFree := v)])
  }

  function SetPrev(m: Mem, r: Ref, v: Ref): Mem
    requires OnItem(m, r)
  {
    if r.Head? then m.(last := v) else m.(h := m.h[r.a := m.h[r.a].(prevFree := v)])
  }

  ghost predicate LinkedAt(m: Mem, ring: seq<nat>, k: nat) {
    && OnItem(m, Node(ring, k))
    && NextFree(m, Node(ring, k)) == Node(ring, k + 1)
    && PrevFree(m, Node(ring, k + 1)) == Node(ring, k)
  }

  /** Both directions of the ring, from the list head round to it again. */
  ghost predicate RingLinks(m: Mem, ring: seq<nat>) {
    NoDup(ring) && forall k :: 0 <= k <= |ring| ==> LinkedAt(m, ring, k)
  }

  lemma NodesDiffer(ring: seq<nat>, j: nat, k: nat)
    requires NoDup(ring) && j <= |ring| && k <= |ring| && j != k
    ensures Node(ring, j) != Node(ring, k)
    ensures Node(ring, j + 1) != Node(ring, k + 1)
  {
  }

  /** Taking node `x` out by the links it carries. */
  function UnlinkStores(m: Mem, x: nat): Mem
    requires x < |m.h| && m.h[x].Item? && OnItem(m, m.h[x].nextFree) && OnItem(m, m.h[x].prevFree)
  {
    SetNext(SetPrev(m, m.h[x].nextFree, m.h[x].prevFree), m.h[x].prevFree, m.h[x].nextFree)
  }

  function WithoutNode(ring: seq<nat>, k: nat): seq<nat>
    requires k < |ring|
  {
    ring[..k] + ring[k + 1..]
  }

  lemma UnlinkAt(m: Mem, ring: seq<nat>, k: nat, j: nat)
    requires RingLinks(m, ring) && k < |ring| && j < |ring|
    ensures OnItem(m, Node(ring, k)) && OnItem(m, Node(ring, k + 2))
    ensures LinkedAt(SetNext(SetPrev(m, Node(ring, k + 2), Node(ring, k)), Node(ring, k), Node(ring, k + 2)), WithoutNode(ring, k), j)
  {
    assert k + 2 <= |ring| ==> LinkedAt(m, ring, k + 2);
    assert LinkedAt(m, ring, k);
    var m' := SetNext(SetPrev(m, Node(ring, k + 2), Node(ring, k)), Node(ring, k), Node(ring, k + 2));
    var ring' := WithoutNode(ring, k);
    var l := if j <= k then j else j + 1;
    assert LinkedAt(m, ring, k + 1) && LinkedAt(m, ring, l) && LinkedAt(m, ring, if j < k then j else j + 1);
    assert Node(ring', j) == Node(ring, l);
    assert Node(ring', j + 1) == Node(ring, if j < k then j + 1 else j + 2);
    if l != k { NodesDiffer(ring, l, k); }
    if j != k { NodesDiffer(ring, if j < k then j else j + 1, k + 1); }
  }

  lemma {:induction false} RemoveAt(ring: seq<nat>, k: nat)
    requires NoDup(ring) && k < |ring|
    ensures Remove(ring, ring[k]) == WithoutNode(ring, k)
  {
    var rest := ring[1..];
    if k == 0 {
      assert ring[0] !in rest;
      RemoveAbsent(rest, ring[0]);
    } else {
      RemoveAt(rest, k - 1);
      assert WithoutNode(ring, k) == [ring[0]] + WithoutNode(rest, k - 1);
    }
  }

  lemma WithoutNodeNoDup(ring: seq<nat>, k: nat)
    requires NoDup(ring) && k < |ring|
    ensures NoDup(WithoutNode(ring, k))
  {
    var r := WithoutNode(ring, k);
    assert forall i :: 0 <= i < |r| ==> r[i] == ring[if i < k then i else i + 1];
  }

  lemma NodeLinks(m: Mem, ring: seq<nat>, k: nat)
    requires RingLinks(m, ring) && k < |ring|
    ensures ring[k] < |m.h| && m.h[ring[k]].Item?
    ensures m.h[ring[k]].nextFree == Node(ring, k + 2) && m.h[ring[k]].prevFree == Node(ring, k)
    ensures OnItem(m, Node(ring, k)) && OnItem(m, Node(ring, k + 2))
  {
    assert LinkedAt(m, ring, k) && LinkedAt(m, ring, k + 1);
    if k + 2 <= |ring| { assert LinkedAt(m, ring, k + 2); }
  }

  lemma UnlinkState(m: Mem, ring: seq<nat>, k: nat)
    requires RingLinks(m, ring) && k < |ring|
    ensures ring[k] < |m.h| && m.h[ring[k]].Item?
    ensures m.h[ring[k]].nextFree == Node(ring, k + 2) && m.h[ring[k]].prevFree == Node(ring, k)
    ensures OnItem(m, m.h[ring[k]].nextFree) && OnItem(m, m.h[ring[k]].prevFree)
    ensures RingLinks(UnlinkStores(m, ring[k]), Remove(ring, ring[k]))
  {
    NodeLinks(m, ring, k);
    RemoveAt(ring, k);
    WithoutNodeNoDup(ring, k);
    var m', ring' := UnlinkStores(m, ring[k]), WithoutNode(ring, k);
    hide LinkedAt, OnItem;
    assert |ring'| == |ring| - 1;
    hide WithoutNode, Node, SetNext, SetPrev;
    forall j | 0 <= j <= |ring'| ensures LinkedAt(m', ring', j) { UnlinkAt(m, ring, k, j); }
  }

  /** Putting `x` right behind the list head. */
  function InsertStores(m: Mem, x: nat): Mem
    requires x < |m.h| && m.h[x].Item? && OnItem(m, m.first)
  {
    var m1 := m.(h := m.h[x := m.h[x].(nextFree := m.first, prevFree := Head)]);
    SetPrev(m1, m.first, At(x)).(first := At(x))
  }

  lemma InsertState(m: Mem, ring: seq<nat>, x: nat)
    requires RingLinks(m, ring) && x !in ring && x < |m.h| && m.h[x].Item?
    ensures m.first == Node(ring, 1) && OnItem(m, m.first) && m.first != At(x)
    ensures PrevFree(m, m.first) == Head
    ensures RingLinks(InsertStores(m, x), [x] + ring)
  {
    assert LinkedAt(m, ring, 0) && (|ring| > 0 ==> LinkedAt(m, ring, 1));
    var m', ring' := InsertStores(m, x), [x] + ring;
    forall j | 0 <= j <= |ring'| ensures LinkedAt(m', ring', j) {
      assert j > 0 ==> Node(ring', j + 1) == Node(ring, j);
      if j > 1 {
        assert Node(ring', j) == Node(ring, j - 1);
        assert LinkedAt(m, ring, j - 1);
        NodesDiffer(ring, j - 1, 0);
      }
    }
  }

  // ---------------------------------------------------------------- what stores leave alone

  /** Equal up to the links of the free ring. */
  predicate SameLinks(x: Cell, y: Cell) {
    if x.Item? then y.Item? && y.used == x.used && y.next == x.next && y.prev == x.prev else x == y
  }

  ghost predicate SameCore(h: seq<Cell>, h': seq<Cell>) {
    |h| == |h'| && forall a :: 0 <= a < |h| ==> SameLinks(h[a], h'[a])
  }

  /** Ring stores leave the block list alone. */
  lemma CoreKeepsChain(bs: seq<Block>, end: nat, h: seq<Cell>, h': seq<Cell>)
    requires Chained(bs, end, h) && SameCore(h, h')
    ensures Chained(bs, end, h')
  {
    forall i | 0 <= i <= |bs| ensures ChainedAt(bs, end, h', i) { assert ChainedAt(bs, end, h, i); }
  }

  /** The ring links carried by a header are those of another. */
  predicate SameFree(x: Cell, y: Cell) {
    x.Item? && y.Item? && y.nextFree == x.nextFree && y.prevFree == x.prevFree
  }

  /** Block-list stores leave the ring alone. */
  lemma FreeKeepsRing(m: Mem, h': seq<Cell>, ring: seq<nat>)
    requires RingLinks(m, ring)
    requires forall a :: a in ring && a < |m.h| ==> a < |h'| && (m.h[a].Item? ==> SameFree(m.h[a], h'[a]))
    ensures RingLinks(m.(h := h'), ring)
  {
    forall k | 0 <= k <= |ring| ensures LinkedAt(m.(h := h'), ring, k) {
      assert LinkedAt(m, ring, k);
      if k < |ring| { assert LinkedAt(m, ring, k + 1); assert Node(ring, k + 1) == At(ring[k]); }
      if k > 0 { assert Node(ring, k) == At(ring[k - 1]); }
    }
  }

  /** Only cells in `hs` change. */
  ghost predicate Kept(hs: set<nat>, h: seq<Cell>, h': seq<Cell>) {
    |h| == |h'| && forall a: nat :: a < |h| && a !in hs ==> h'[a] == h[a]
  }

  lemma KeptTwice(hs: set<nat>, h0: seq<Cell>, h1: seq<Cell>, h2: seq<Cell>)
    requires Kept(hs, h0, h1) && Kept(hs, h1, h2)
    ensures Kept(hs, h0, h2)
  {
  }

  lemma UnlinkKept(m: Mem, ring: seq<nat>, k: nat, hs: set<nat>)
    requires RingLinks(m, ring) && k < |ring| && (forall a :: a in ring ==> a in hs)
    ensures ring[k] < |m.h| && m.h[ring[k]].Item? && OnItem(m, m.h[ring[k]].nextFree) && OnItem(m, m.h[ring[k]].prevFree)
    ensures SameCore(m.h, UnlinkStores(m, ring[k]).h) && Kept(hs, m.h, UnlinkStores(m, ring[k]).h)
  {
    NodeLinks(m, ring, k);
  }

  lemma InsertKept(m: Mem, ring: seq<nat>, x: nat, hs: set<nat>)
    requires RingLinks(m, ring) && x < |m.h| && m.h[x].Item? && x in hs && (forall a :: a in ring ==> a in hs)
    ensures OnItem(m, m.first)
    ensures SameCore(m.h, InsertStores(m, x).h) && Kept(hs, m.h, InsertStores(m, x).h)
  {
    assert LinkedAt(m, ring, 0);
    if |ring| > 0 { assert LinkedAt(m, ring, 1); }
  }

  /** Header addresses, the tail marker's included. */
  ghost function Places(bs: seq<Block>, end: nat): set<nat> {
    set i | 0 <= i <= |bs| :: Slot(bs, end, i).start
  }

  lemma PlacesHold(bs: seq<Block>, end: nat, i: nat)
    requires i <= |bs|
    ensures Slot(bs, end, i).start in Places(bs, end)
  {
  }

  /** Stores into headers and into `at` do not touch live payload. */
  lemma KeptPayload(c: Config, bs: seq<Block>, end: nat, at: nat, h: seq<Cell>, h': seq<Cell>)
    requires c.Ok() && Tiles(c, bs, 0, end) && Kept(Places(bs, end) + {at}, h, h') && !InUsed(c, bs, at)
    ensures SamePayload(c, bs, h, h')
  {
    forall a: nat | a < |h| && InUsed(c, bs, a) ensures h'[a] == h[a] {
      if a in Places(bs, end) {
        var i :| 0 <= i <= |bs| && Slot(bs, end, i).start == a;
        NotPayload(c, bs, 0, end, if i < |bs| then i else 0, a);
      }
    }
  }

  // ---------------------------------------------------------------- row, chain and ring together

  ghost predicate Sound(c: Config, bs: seq<Block>, end: nat, m: Mem, ring: seq<nat>) {
    && c.Ok() && Tiles(c, bs, 0, end) && |m.h| == end + c.header
    && Chained(bs, end, m.h) && RingLinks(m, ring)
  }

  lemma JoinState(c: Config, bs: seq<Block>, end: nat, m: Mem, ring: seq<nat>, i: nat)
    requires Sound(c, bs, end, m, ring) && i + 1 < |bs|
    ensures bs[i].start < bs[i + 1].start < bs[i + 1].stop < |m.h|
    ensures m.h[bs[i].start].Item? && m.h[bs[i + 1].stop].Item?
    ensures Sound(c, Join(bs, i), end, m.(h := JoinStores(m.h, bs[i].start, bs[i + 1].stop)), ring)
  {
    hide Tiles, Row, Chained, ChainedAt, LinkedAt, Join;
    TilesRow(c, bs, end);
    JoinTiles(c, bs, end, i);
    JoinChained(c.header, bs, end, m.h, i);
    var h' := JoinStores(m.h, bs[i].start, bs[i + 1].stop);
    FreeKeepsRing(m, h', ring);
  }

  lemma CutState(c: Config, bs: seq<Block>, end: nat, m: Mem, ring: seq<nat>, i: nat, size: nat)
    requires Sound(c, bs, end, m, ring) && i < |bs| && size % c.align == 0
    requires Payload(c, bs[i]) >= size + c.header && bs[i].start + c.header + size !in ring
    ensures bs[i].start < bs[i].start + c.header + size < bs[i].stop < |m.h|
    ensures m.h[bs[i].start].Item? && m.h[bs[i].stop].Item?
    ensures Sound(c, Cut(c.header, bs, i, size), end,
                  m.(h := CutStores(m.h, bs[i].start, bs[i].start + c.header + size, bs[i].stop)), ring)
  {
    hide Tiles, Row, Chained, ChainedAt, LinkedAt, Cut;
    TilesRow(c, bs, end);
    CutTilesFree(c, bs, end, i, size);
    CutChained(c.header, bs, end, m.h, i, size);
    var h' := CutStores(m.h, bs[i].start, bs[i].start + c.header + size, bs[i].stop);
    FreeKeepsRing(m, h', ring);
  }

  lemma MarkState(c: Config, bs: seq<Block>, end: nat, m: Mem, ring: seq<nat>, i: nat, used: bool)
    requires Sound(c, bs, end, m, ring) && i < |bs|
    ensures bs[i].start < |m.h| && m.h[bs[i].start].Item?
    ensures Sound(c, bs[i := bs[i].(used := used)], end,
                  m.(h := m.h[bs[i].start := m.h[bs[i].start].(used := used)]), ring)
  {
    hide Tiles, Row, Chained, ChainedAt, LinkedAt;
    TilesRow(c, bs, end);
    FlagTiles(c, bs, 0, end, i, used);
    MarkChained(c.header, bs, end, m.h, i, used);
    var h' := m.h[bs[i].start := m.h[bs[i].start].(used := used)];
    FreeKeepsRing(m, h', ring);
  }

  /** Stores into ring links only. */
  lemma RingState(c: Config, bs: seq<Block>, end: nat, m: Mem, m': Mem, ring: seq<nat>, ring': seq<nat>)
    requires Sound(c, bs, end, m, ring) && SameCore(m.h, m'.h) && RingLinks(m', ring')
    ensures Sound(c, bs, end, m', ring')
  {
    hide Tiles, RingLinks, Chained, SameCore;
    CoreKeepsChain(bs, end, m.h, m'.h);
    assert |m'.h| == |m.h| by { SameCoreLength(m.h, m'.h); }
  }

  lemma SameCoreLength(h: seq<Cell>, h': seq<Cell>)
    requires SameCore(h, h')
    ensures |h'| == |h|
  {
  }

  /** The header addresses around block `i`, and all ring nodes, are places. */
  lemma PlacesAround(header: nat, bs: seq<Block>, end: nat, ring: seq<nat>, i: nat)
    requires Row(header, bs, end) && RingOf(bs, ring) && i < |bs|
    ensures forall a :: a in ring ==> a in Places(bs, end)
    ensures bs[i].start in Places(bs, end) && bs[i].stop in Places(bs, end)
    ensures i > 0 ==> bs[i - 1].start in Places(bs, end)
    ensures i + 1 < |bs| ==> bs[i + 1].start in Places(bs, end) && bs[i + 1].stop in Places(bs, end)
  {
    forall a | a in ring ensures a in Places(bs, end) { PlacesHold(bs, end, IndexAt(bs, a)); }
    PlacesHold(bs, end, i);
    PlacesHold(bs, end, i + 1);
    NextSlot(header, bs, end, i);
    if i > 0 { PlacesHold(bs, end, i - 1); }
    if i + 1 < |bs| { PlacesHold(bs, end, i + 2); NextSlot(header, bs, end, i + 1); }
  }

  /** Clearing the links of a header that is in no ring. */
  lemma ClearState(c: Config, bs: seq<Block>, end: nat, m: Mem, ring: seq<nat>, x: nat)
    requires Sound(c, bs, end, m, ring) && x < |m.h| && m.h[x].Item? && x !in ring
    ensures Sound(c, bs, end, m.(h := m.h[x := m.h[x].(nextFree := Null, prevFree := Null)]), ring)
  {
    hide Tiles, Chained, LinkedAt;
    var h' := m.h[x := m.h[x].(nextFree := Null, prevFree := Null)];
    FreeKeepsRing(m, h', ring);
    assert SameCore(m.h, h');
    CoreKeepsChain(bs, end, m.h, h');
  }

  /** Stores into headers do not touch live payload. */
  lemma KeptPlaces(c: Config, bs: seq<Block>, end: nat, h: seq<Cell>, h': seq<Cell>)
    requires c.Ok() && Tiles(c, bs, 0, end) && Kept(Places(bs, end), h, h')
    ensures SamePayload(c, bs, h, h')
  {
    NotPayload(c, bs, 0, end, 0, end);
    assert Kept(Places(bs, end) + {end}, h, h');
    KeptPayload(c, bs, end, end, h, h');
  }

  /** What `rt_memheap_free` finds around a used block. */
  lemma FreeReady(c: Config, bs: seq<Block>, end: nat, ring: seq<nat>, i: nat)
    requires c.Ok() && Tiles(c, bs, 0, end) && RingOf(bs, ring) && i < |bs| && bs[i].used
    ensures bs[i].start !in ring && Payload(c, bs[i]) >= 0
    ensures forall a :: a in ring ==> a in Places(bs, end)
    ensures bs[i].start in Places(bs, end) && bs[i].stop in Places(bs, end)
    ensures i > 0 ==> bs[i - 1].start in Places(bs, end)
    ensures i + 1 < |bs| ==> bs[i + 1].stop in Places(bs, end)
    ensures i + 1 < |bs| && !bs[i + 1].used ==> bs[i + 1].start in ring
  {
    TilesRow(c, bs, end);
    PlacesAround(c.header, bs, end, ring, i);
    IndexAtIs(c.header, bs, end, i);
  }

  /** What a shrink finds: the new header is a place of the row after the cut. */
  lemma ShrinkReady(c: Config, bs: seq<Block>, end: nat, ring: seq<nat>, i: nat, n: nat)
    requires c.Ok() && Tiles(c, bs, 0, end) && RingOf(bs, ring) && i < |bs| && bs[i].used
    requires n % c.align == 0 && n + c.header < Payload(c, bs[i])
    ensures bs[i].start + c.header + n !in ring
    ensures var hs := Places(CutAt(c, bs, i, n), end);
      && (forall a :: a in ring ==> a in hs)
      && bs[i].start in hs && bs[i].start + c.header + n in hs && bs[i].stop in hs
      && (i + 1 < |bs| ==> bs[i + 1].stop in hs)
    ensures i + 1 < |bs| && !bs[i + 1].used ==> bs[i + 1].start in ring
    ensures Tiles(c, CutAt(c, bs, i, n), 0, end)
  {
    TilesRow(c, bs, end);
    CutTiles(c, bs, 0, end, i, n);
    InsideNotInRing(c.header, bs, end, ring, i, bs[i].start + c.header + n);
    NextSlot(c.header, bs, end, i);
    if i + 1 < |bs| { NextSlot(c.header, bs, end, i + 1); }
    CutPlaces(c, bs, end, i, n);
    PlacesAround(c.header, bs, end, ring, i);
  }

  lemma CutPlaces(c: Config, bs: seq<Block>, end: nat, i: nat, n: nat)
    requires i < |bs| && bs[i].used
    ensures bs[i].start + c.header + n in Places(CutAt(c, bs, i, n), end)
    ensures Places(bs, end) <= Places(CutAt(c, bs, i, n), end)
  {
    var r := CutAt(c, bs, i, n);
    assert r == Cut(c.header, bs, i, n);
    CutSlots(c.header, bs, end, i, n, i + 1);
    PlacesHold(r, end, i + 1);
    forall a | a in Places(bs, end) ensures a in Places(r, end) {
      var k :| 0 <= k <= |bs| && Slot(bs, end, k).start == a;
      var l := if k <= i then k else k + 1;
      CutSlots(c.header, bs, end, i, n, l);
      PlacesHold(r, end, l);
    }
  }

  /** Payload of the row after the shrink is payload after the cut. */
  lemma ShrunkPayload(c: Config, bs: seq<Block>, end: nat, i: nat, n: nat, h: seq<Cell>, h': seq<Cell>)
    requires c.Ok() && i < |bs| && bs[i].used && Tiles(c, CutAt(c, bs, i, n), 0, end)
    requires Kept(Places(CutAt(c, bs, i, n), end), h, h')
    ensures SamePayload(c, ShrinkAt(c, bs, i, n), h, h')
  {
    var f := CutAt(c, bs, i, n);
    KeptPlaces(c, f, end, h, h');
    forall a: nat | a < |h| && InUsed(c, ShrinkAt(c, bs, i, n), a) ensures h'[a] == h[a] { PlugHolesInUsed(c, f, i + 1, a); }
  }

  /** What growing into a free right neighbour finds. */
  lemma GrowReady(c: Config, bs: seq<Block>, end: nat, ring: seq<nat>, i: nat, n: nat)
    requires WF(c, bs, end) && RingOf(bs, ring) && i < |bs| && bs[i].used && n % c.align == 0 && Grows(c, bs, i, n)
    ensures var at := bs[i].start + c.header + n; var hs := Places(bs, end) + {at};
      && at !in ring && !InUsed(c, bs, at) && at + c.header <= bs[i + 1].stop
      && (forall a :: a in ring ==> a in hs)
      && bs[i].start in hs && at in hs && bs[i + 1].stop in hs
    ensures bs[i + 1].start in ring
  {
    TilesRow(c, bs, end);
    GrowWF(c, bs, end, i, n);
    var at := bs[i].start + c.header + n;
    InsideNotInRing(c.header, bs, end, ring, i + 1, at);
    NotPayload(c, bs, 0, end, i + 1, at);
    PlacesAround(c.header, bs, end, ring, i);
  }

  /** Payload stores by the caller leave headers and ring alone. */
  lemma PayloadStore(c: Config, bs: seq<Block>, end: nat, m: Mem, ring: seq<nat>, i: nat, a: nat, b: Cell)
    requires Sound(c, bs, end, m, ring) && RingOf(bs, ring)
    requires i < |bs| && bs[i].used && bs[i].start + c.header <= a < bs[i].stop
    ensures a < |m.h| && Sound(c, bs, end, m.(h := m.h[a := b]), ring)
  {
    hide RingLinks;
    TilesRow(c, bs, end);
    NextSlot(c.header, bs, end, i);
    assert InUsed(c, bs, a);
    var h' := m.h[a := b];
    forall j | 0 <= j <= |bs| ensures Slot(bs, end, j).start != a {
      NotPayload(c, bs, 0, end, if j < |bs| then j else 0, Slot(bs, end, j).start);
    }
    hide Tiles, Row;
    forall j | 0 <= j <= |bs| ensures ChainedAt(bs, end, h', j) { assert ChainedAt(bs, end, m.h, j); }
    forall x | x in ring && x < |m.h| ensures x < |h'| && (m.h[x].Item? ==> SameFree(m.h[x], h'[x])) {
      assert x == Slot(bs, end, IndexAt(bs, x)).start;
    }
    FreeKeepsRing(m, h', ring);
  }
}
