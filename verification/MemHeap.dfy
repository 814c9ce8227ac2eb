/** `memheap.c`: init, alloc, realloc and free, updating headers and links in place. */
module MemHeap {
  import opened Common
  import opened Alignment
  import opened BlockRow
  import opened BlockPayload
  import opened MemHeapLayout
  import opened MemHeapSteps
  import opened MemHeapGrants
  import opened BlockUse
  import opened MemHeapCells

  class MemPool {
    const c: Config
    const poolSize: nat
    const end: nat
    const heap: array<Cell>
    /** `free_header.next_free` and `free_header.prev_free`. */
    var first: Ref
    var last: Ref
    var available: int
    var maxUsed: int
    ghost var blocks: seq<Block>
    ghost var ring: seq<nat>

    ghost function M(): Mem
      reads this, heap
    {
      Mem(heap[..], first, last)
    }

    ghost function L(): Layout
      reads this
    {
      Layout(blocks, ring)
    }

    /** Block list and ring agree with the ghost row and ring. */
    ghost predicate Linked()
      reads this, heap
    {
      end + c.header == poolSize && Sound(c, blocks, end, M(), ring)
    }

    /** What every call keeps. */
    ghost predicate Valid()
      reads this, heap
    {
      && Linked() && NoTwoFree(blocks) && RingOf(blocks, ring)
      && available == FreePayload(c, blocks)
      && maxUsed >= poolSize - available
    }

    /** `rt_memheap_init`: one free block and the tail marker. */
    constructor (c: Config, size: nat)
      requires c.Ok() && AlignDown(size, c.align) >= 2 * c.header
      ensures Valid() && fresh(heap)
      ensures this.c == c && poolSize == AlignDown(size, c.align)
      ensures blocks == [Block(0, end, false)] && ring == [0] && available == poolSize - 2 * c.header
      ensures maxUsed == poolSize - available
    {
      var n := AlignDown(size, c.align);
      this.c := c;
      poolSize := n;
      end := n - c.header;
      available := n - 2 * c.header;
      maxUsed := 2 * c.header;
      heap := new Cell[n](_ => Byte(0));
      first, last := Head, Head;
      blocks, ring := [Block(0, n - c.header, false)], [0];
      new;
      heap[0] := Item(false, end, end, At(0), At(0));
      heap[0] := heap[0].(nextFree := first, prevFree := Head);
      last := At(0);
      first := At(0);
      heap[end] := Item(true, 0, 0, Null, Null);
      AddAligned(n, c.header, c.align);
      InitGood(c, end);
      hide RingOf, FreePayload, Tiles;
    }

    /** Conservation: live payload, available bytes and one header per block, the tail
        marker's included, add up to the pool. */
    lemma Conserved()
      requires Valid()
      ensures LivePayload(c, blocks) + available + (|blocks| + 1) * c.header == poolSize
    {
      Conservation(c, blocks, 0, end);
    }

    // -------------------------------------------------------------- stores of the ring

    method SetNextFree(r: Ref, v: Ref)
      requires OnItem(M(), r)
      modifies this`first, heap
      ensures M() == SetNext(old(M()), r, v)
    {
      if r.Head? { first := v; } else { heap[r.a] := heap[r.a].(nextFree := v); }
    }

    method SetPrevFree(r: Ref, v: Ref)
      requires OnItem(M(), r)
      modifies this`last, heap
      ensures M() == SetPrev(old(M()), r, v)
    {
      if r.Head? { last := v; } else { heap[r.a] := heap[r.a].(prevFree := v); }
    }

    /** Remove a header from the free list by the links it carries. */
    method Unlink(x: nat, ghost hs: set<nat>)
      requires Linked() && x in ring && (forall a :: a in ring ==> a in hs)
      modifies this`first, this`last, this`ring, heap
      ensures Linked() && ring == Remove(old(ring), x)
      ensures Kept(hs, old(heap[..]), heap[..])
    {
      hide Tiles, Chained, LinkedAt;
      ghost var m := M();
      ghost var k :| 0 <= k < |ring| && ring[k] == x;
      UnlinkState(m, ring, k);
      UnlinkKept(m, ring, k, hs);
      var next, prev := heap[x].nextFree, heap[x].prevFree;
      SetPrevFree(next, prev);
      SetNextFree(prev, next);
      assert M() == UnlinkStores(m, x);
      RingState(c, blocks, end, m, M(), ring, Remove(ring, x));
      ring := Remove(ring, x);
    }

    /** Insert a header behind the list head. */
    method InsertFront(x: nat, ghost hs: set<nat>)
      requires Linked() && x !in ring && x in hs && (forall a :: a in ring ==> a in hs)
      requires x < heap.Length && heap[x].Item?
      modifies this`first, this`last, this`ring, heap
      ensures Linked() && ring == [x] + old(ring)
      ensures Kept(hs, old(heap[..]), heap[..])
    {
      hide Tiles, Chained, LinkedAt;
      ghost var m := M();
      InsertState(m, ring, x);
      InsertKept(m, ring, x, hs);
      heap[x] := heap[x].(nextFree := first);
      heap[x] := heap[x].(prevFree := Head);
      SetPrevFree(first, At(x));
      SetNextFree(Head, At(x));
      assert M() == InsertStores(m, x);
      RingState(c, blocks, end, m, M(), ring, [x] + ring);
      ring := [x] + ring;
    }

    // -------------------------------------------------------------- stores of the block list

    /** The block at `left` swallows its right neighbour. */
    method JoinBlocks(left: nat, right: nat, ghost i: nat, ghost hs: set<nat>)
      requires Linked() && i + 1 < |blocks| && left == blocks[i].start && right == blocks[i + 1].start
      requires left in hs && blocks[i + 1].stop in hs
      modifies this`blocks, heap
      ensures Linked() && blocks == Join(old(blocks), i)
      ensures Kept(hs, old(heap[..]), heap[..])
    {
      hide Tiles, Chained, RingLinks, Join;
      ghost var m := M();
      JoinState(c, blocks, end, m, ring, i);
      ReadHeader(i + 1);
      var nn := heap[right].next;
      heap[left] := heap[left].(next := nn);
      heap[nn] := heap[nn].(prev := left);
      assert heap[..] == JoinStores(m.h, left, nn);
      blocks := Join(blocks, i);
    }

    /** What the header of block `i` says. */
    lemma ReadHeader(i: nat)
      requires Linked() && i < |blocks|
      ensures blocks[i].start < blocks[i].stop < heap.Length
      ensures HeaderIs(heap[blocks[i].start], blocks[i], PrevAt(blocks, end, i))
      ensures HeaderIs(heap[blocks[i].stop], Slot(blocks, end, i + 1), blocks[i].start)
      ensures i + 1 < |blocks| ==> blocks[i].stop == blocks[i + 1].start
    {
      TilesRow(c, blocks, end);
      Linkage(c.header, blocks, end, heap[..], i);
    }

    /** A new free header inside a block. */
    method CutBlock(mem: nat, at: nat, ghost i: nat, ghost size: nat, ghost hs: set<nat>)
      requires Linked() && i < |blocks| && mem == blocks[i].start && size % c.align == 0
      requires Payload(c, blocks[i]) >= size + c.header && at == mem + c.header + size && at !in ring
      requires mem in hs && at in hs && blocks[i].stop in hs
      modifies this`blocks, heap
      ensures Linked() && blocks == Cut(c.header, old(blocks), i, size)
      ensures Kept(hs, old(heap[..]), heap[..])
    {
      hide Tiles, Chained, RingLinks, Cut;
      ghost var m := M();
      CutState(c, blocks, end, m, ring, i, size);
      ReadHeader(i);
      heap[at] := Item(false, heap[mem].next, mem, Null, Null);
      var next := heap[mem].next;
      heap[next] := heap[next].(prev := at);
      heap[mem] := heap[mem].(next := at);
      assert heap[..] == CutStores(m.h, mem, at, next);
      blocks := Cut(c.header, blocks, i, size);
    }

    method Mark(mem: nat, used: bool, ghost i: nat, ghost hs: set<nat>)
      requires Linked() && i < |blocks| && mem == blocks[i].start && mem in hs
      modifies this`blocks, heap
      ensures Linked() && blocks == old(blocks)[i := old(blocks)[i].(used := used)]
      ensures Kept(hs, old(heap[..]), heap[..])
    {
      hide Tiles, Chained, RingLinks;
      ghost var m := M();
      MarkState(c, blocks, end, m, ring, i, used);
      heap[mem] := heap[mem].(used := used);
      assert heap[..] == m.h[mem := m.h[mem].(used := used)];
      blocks := blocks[i := blocks[i].(used := used)];
    }

    method ClearLinks(mem: nat, ghost hs: set<nat>)
      requires Linked() && mem < heap.Length && heap[mem].Item? && mem !in ring && mem in hs
      modifies heap
      ensures Linked() && Kept(hs, old(heap[..]), heap[..])
    {
      hide Tiles, Chained, RingLinks;
      ghost var m := M();
      ClearState(c, blocks, end, m, ring, mem);
      heap[mem] := heap[mem].(nextFree := Null);
      heap[mem] := heap[mem].(prevFree := Null);
      assert heap[..] == m.h[mem := m.h[mem].(nextFree := Null, prevFree := Null)];
    }

    // -------------------------------------------------------------- rt_memheap_alloc

    /** Take from the available bytes and keep the maximum in use. */
    method Account(n: int)
      modifies this`available, this`maxUsed
      ensures available == old(available) - n
      ensures maxUsed == if poolSize - available > old(maxUsed) then poolSize - available else old(maxUsed)
    {
      available := available - n;
      if poolSize - available > maxUsed {
        maxUsed := poolSize - available;
      }
    }

    /** The search loop over the free ring. */
    method Search(size: nat) returns (found: bool, ptr: nat, freeSize: int, ghost k: nat)
      requires Valid() && size > 0
      ensures k == RingFit(c, blocks, ring, size)
      ensures found <==> k < |ring|
      ensures found ==> ptr == ring[k] && freeSize == PayloadAt(c, blocks, ptr)
    {
      hide Tiles, Chained, NoTwoFree, FreePayload;
      ghost var m := M();
      assert LinkedAt(m, ring, 0);
      var r := first;
      freeSize, k := 0, 0;
      while r != Head && freeSize < size
        invariant k <= |ring| && r == Node(ring, k + 1)
        invariant forall j :: 0 <= j < k ==> PayloadAt(c, blocks, ring[j]) < size
        invariant freeSize >= size ==> k < |ring| && freeSize == PayloadAt(c, blocks, ring[k])
        decreases |ring| - k, if freeSize < size then 1 else 0
      {
        assert LinkedAt(m, ring, k + 1);
        assert ring[k] in ring;
        ReadHeader(IndexAt(blocks, ring[k]));
        freeSize := heap[r.a].next - r.a - c.header;
        if freeSize < size {
          r := heap[r.a].nextFree;
          k := k + 1;
        }
      }
      found := freeSize >= size;
      ptr := if found then r.a else 0;
      RingFitIs(c, blocks, ring, size, k);
    }

    /** "the block needs to be split": new header, ring, accounting. */
    method SplitBlock(ptr: nat, size: nat, ghost i: nat, ghost hs: set<nat>)
      requires Linked() && i < |blocks| && ptr == blocks[i].start && ptr in ring && size % c.align == 0
      requires Splits(c, blocks[i], size) && ptr + c.header + size !in ring
      requires ptr in hs && ptr + c.header + size in hs && blocks[i].stop in hs && (forall a :: a in ring ==> a in hs)
      modifies this, heap
      ensures Linked() && blocks == Cut(c.header, old(blocks), i, size)
      ensures ring == [ptr + c.header + size] + Remove(old(ring), ptr)
      ensures Kept(hs, old(heap[..]), heap[..])
      ensures available == old(available) - (size + c.header)
      ensures maxUsed == if poolSize - available > old(maxUsed) then poolSize - available else old(maxUsed)
    {
      hide Tiles, Chained, RingLinks, Splits;
      SplitRoom(c, blocks[i], size);
      ghost var bs := blocks;
      var newPtr := ptr + c.header + size;
      CutBlock(ptr, newPtr, i, size, hs);
      CutSlots(c.header, bs, end, i, size, i);
      CutSlots(c.header, bs, end, i, size, i + 1);
      ReadHeader(i);
      ReadHeader(i + 1);
      Unlink(ptr, hs);
      ReadHeader(i);
      ClearLinks(ptr, hs);
      ReadHeader(i + 1);
      InsertFront(newPtr, hs);
      Account(size + c.header);
    }

    /** The whole block is handed out. */
    method UseWhole(ptr: nat, freeSize: int, ghost i: nat, ghost hs: set<nat>)
      requires Linked() && i < |blocks| && ptr == blocks[i].start && ptr in ring
      requires ptr in hs && (forall a :: a in ring ==> a in hs)
      modifies this, heap
      ensures Linked() && blocks == old(blocks) && ring == Remove(old(ring), ptr)
      ensures Kept(hs, old(heap[..]), heap[..])
      ensures available == old(available) - freeSize
      ensures maxUsed == if poolSize - available > old(maxUsed) then poolSize - available else old(maxUsed)
    {
      hide Tiles, Chained, RingLinks;
      Account(freeSize);
      Unlink(ptr, hs);
      ReadHeader(i);
      ClearLinks(ptr, hs);
    }

    /** The block the search stopped at becomes used. */
    method TakeBlock(ptr: nat, size: nat, freeSize: int, ghost i: nat)
      requires Valid() && i < |blocks| && ptr == blocks[i].start && Fits(c, blocks[i], size)
      requires size % c.align == 0 && freeSize == Payload(c, blocks[i])
      modifies this, heap
      ensures Valid() && L() == TakeLayout(c, old(L()), i, size)
      ensures SamePayload(c, old(blocks), old(heap[..]), heap[..])
      ensures maxUsed == if poolSize - available > old(maxUsed) then poolSize - available else old(maxUsed)
    {
      hide Tiles, Chained, RingLinks, NoTwoFree, RingOf, FreePayload, Splits, AllocAt, Cut, Kept, SamePayload, InUsed, Places, Row;
      ghost var l, bs, h := L(), blocks, heap[..];
      ghost var at := ptr + c.header + size;
      ghost var hs := Places(bs, end) + {if Splits(c, bs[i], size) then at else ptr};
      TilesRow(c, bs, end);
      TakeGood(c, l, end, i, size);
      TakeRing(c, l, end, i, size);
      FreeInRing(bs, ring, i);
      PlacesAround(c.header, bs, end, ring, i);
      AllocIsCut(c, bs, i, size);
      SplitsIff(c, bs[i], size);
      if freeSize >= size + c.header + c.MinAligned() {
        SplitRoom(c, bs[i], size);
        SplitBlock(ptr, size, i, hs);
      } else {
        UseWhole(ptr, freeSize, i, hs);
      }
      ghost var h1 := heap[..];
      Mark(ptr, true, i, hs);
      KeptTwice(hs, h, h1, heap[..]);
      NotPayload(c, bs, 0, end, i, if Splits(c, bs[i], size) then at else ptr);
      KeptPayload(c, bs, end, if Splits(c, bs[i], size) then at else ptr, h, heap[..]);
    }

    /** `rt_memheap_alloc`. */
    method Alloc(request: nat) returns (p: Option<nat>)
      requires Valid()
      modifies this, heap
      ensures Valid()
      ensures (p, L()) == AllocLayout(c, old(L()), request)
      ensures RingGrants(c, old(L()), L(), end, c.Request(request), p)
      ensures SamePayload(c, old(blocks), old(heap[..]), heap[..])
      ensures p.None? ==> M() == old(M()) && available == old(available)
      ensures maxUsed == if poolSize - available > old(maxUsed) then poolSize - available else old(maxUsed)
    {
      hide Tiles, Chained, RingLinks, NoTwoFree, RingOf, FreePayload, AllocLayout, TakeLayout, RingGrants;
      p := None;
      AllocCases(c, L(), request);
      AllocMeans(c, L(), end, request);
      var size := AlignUp(request, c.align);
      if size < c.MinAligned() {
        size := c.MinAligned();
      }
      assert size == c.Request(request);
      if size < available {
        var found, ptr, freeSize, k := Search(size);
        if found {
          TakeBlock(ptr, size, freeSize, IndexAt(blocks, ptr));
          p := Some(ptr + c.header);
        }
      }
    }

    // -------------------------------------------------------------- rt_memheap_free

    /** "merge block with next neighbor": out of the block list, then out of the ring. */
    method JoinRight(mem: nat, ghost i: nat, ghost hs: set<nat>)
      requires Linked() && i < |blocks| && mem == blocks[i].start
      requires i + 1 < |blocks| && !blocks[i + 1].used ==> blocks[i + 1].start in ring && blocks[i + 1].stop in hs
      requires mem in hs && (forall a :: a in ring ==> a in hs)
      modifies this`blocks, this`ring, this`first, this`last, this`available, heap
      ensures Linked() && i < |blocks| && blocks[i].start == mem
      ensures blocks == if i + 1 < |old(blocks)| && !old(blocks)[i + 1].used then Join(old(blocks), i) else old(blocks)
      ensures ring == if i + 1 < |old(blocks)| && !old(blocks)[i + 1].used then Remove(old(ring), old(blocks)[i + 1].start) else old(ring)
      ensures available == old(available) + if i + 1 < |old(blocks)| && !old(blocks)[i + 1].used then c.header else 0
      ensures Kept(hs, old(heap[..]), heap[..])
    {
      hide Tiles, Chained, RingLinks, Join;
      ReadHeader(i);
      var next := heap[mem].next;
      if !heap[next].used {
        available := available + c.header;
        JoinSlots(blocks, end, i, i);
        JoinBlocks(mem, next, i, hs);
        Unlink(next, hs);
      }
    }

    /** "no left merge, insert to free list": before the node the list head points to. */
    method InsertBeforeFirst(x: nat, ghost hs: set<nat>)
      requires Linked() && x !in ring && x in hs && (forall a :: a in ring ==> a in hs)
      requires x < heap.Length && heap[x].Item?
      modifies this`first, this`last, this`ring, heap
      ensures Linked() && ring == [x] + old(ring)
      ensures Kept(hs, old(heap[..]), heap[..])
    {
      hide Tiles, Chained, LinkedAt;
      ghost var m := M();
      InsertState(m, ring, x);
      InsertKept(m, ring, x, hs);
      var n := first;
      heap[x] := heap[x].(nextFree := n);
      var before := if n.Head? then last else heap[n.a].prevFree;
      heap[x] := heap[x].(prevFree := before);
      SetNextFree(before, At(x));
      SetPrevFree(n, At(x));
      assert M() == InsertStores(m, x);
      RingState(c, blocks, end, m, M(), ring, [x] + ring);
      ring := [x] + ring;
    }

    /** Mark the block free, count its payload, merge it to the left. */
    method JoinLeft(mem: nat, ghost i: nat, ghost hs: set<nat>) returns (header: nat, insert: bool)
      requires Linked() && i < |blocks| && mem == blocks[i].start && blocks[i].used
      requires mem in hs && blocks[i].stop in hs && (i > 0 ==> blocks[i - 1].start in hs)
      modifies this`blocks, this`available, heap
      ensures Linked()
      ensures insert <==> i == 0 || old(blocks)[i - 1].used
      ensures blocks == JoinedLeft(old(blocks), i).0
      ensures header == (if insert then mem else old(blocks)[i - 1].start)
      ensures available == old(available) + Payload(c, old(blocks)[i]) + if insert then 0 else c.header
      ensures Kept(hs, old(heap[..]), heap[..])
    {
      hide Tiles, Chained, RingLinks, Join;
      ghost var h := heap[..];
      Mark(mem, false, i, hs);
      ghost var h1 := heap[..];
      ReadHeader(i);
      LeftHeader(i);
      available := available + (heap[mem].next - mem - c.header);
      header, insert := mem, true;
      var prev := heap[mem].prev;
      if !heap[prev].used {
        available := available + c.header;
        JoinBlocks(prev, mem, i - 1, hs);
        KeptTwice(hs, h, h1, heap[..]);
        header, insert := prev, false;
      }
    }

    lemma LeftHeader(i: nat)
      requires Linked() && i < |blocks|
      ensures PrevAt(blocks, end, i) < heap.Length && heap[PrevAt(blocks, end, i)].Item?
      ensures heap[PrevAt(blocks, end, i)].used <==> i == 0 || blocks[i - 1].used
    {
      TilesRow(c, blocks, end);
      LeftLinkage(c.header, blocks, end, heap[..], i);
    }

    /** The stores of `rt_memheap_free`, in order. */
    method Release(mem: nat, ghost i: nat, ghost hs: set<nat>)
      requires Linked() && i < |blocks| && mem == blocks[i].start && blocks[i].used && mem !in ring
      requires mem in hs && blocks[i].stop in hs && (i > 0 ==> blocks[i - 1].start in hs) && (forall a :: a in ring ==> a in hs)
      requires i + 1 < |blocks| && !blocks[i + 1].used ==> blocks[i + 1].start in ring && blocks[i + 1].stop in hs
      modifies this`blocks, this`ring, this`first, this`last, this`available, heap
      ensures Linked() && L() == FreeLayout(old(L()), i)
      ensures available == old(available) + Payload(c, old(blocks)[i])
                + (if i > 0 && !old(blocks)[i - 1].used then c.header else 0)
                + (if i + 1 < |old(blocks)| && !old(blocks)[i + 1].used then c.header else 0)
      ensures Kept(hs, old(heap[..]), heap[..])
    {
      hide Sound, FreeAt, Join, Kept;
      ghost var bs, h := blocks, heap[..];
      FreeIsJoins(bs, i);
      var header, insert := JoinLeft(mem, i, hs);
      ghost var h1, k := heap[..], if insert then i else i - 1;
      JoinRight(header, k, hs);
      ghost var h2 := heap[..];
      KeptTwice(hs, h, h1, h2);
      if insert {
        ReadHeader(k);
        InsertBeforeFirst(mem, hs);
        KeptTwice(hs, h, h2, heap[..]);
      }
    }

    /** `rt_memheap_free` of a live pointer. */
    method Free(p: nat, ghost i: nat)
      requires Valid() && Live(c, blocks, i, p)
      modifies this, heap
      ensures Valid() && L() == FreeLayout(old(L()), i)
      ensures UsedBlocks(blocks) == UsedBlocks(old(blocks)) - {old(blocks)[i]}
      ensures maxUsed == old(maxUsed)
      ensures SamePayload(c, old(blocks), old(heap[..]), heap[..])
    {
      hide Tiles, GoodBlock, Chained, RingLinks, NoTwoFree, RingOf, FreePayload, FreeLayout, Kept, SamePayload, InUsed, Places, Row, UsedBlocks, FreeAt;
      ghost var bs, h := blocks, heap[..];
      ghost var hs := Places(bs, end);
      FreeGood(c, L(), end, i);
      FreeUse(c, bs, end, i);
      FreedBlocks(L(), i);
      FreeReady(c, bs, end, ring, i);
      Release(p - c.header, i, hs);
      KeptPlaces(c, bs, end, h, heap[..]);
    }

    // -------------------------------------------------------------- rt_memheap_realloc, in place

    /** "split the block", merging what is cut off with a free right neighbour. */
    method CutTail(mem: nat, n: nat, ghost i: nat, ghost hs: set<nat>)
      requires Linked() && i < |blocks| && mem == blocks[i].start && blocks[i].used
      requires n % c.align == 0 && n + c.header < Payload(c, blocks[i]) && mem + c.header + n !in ring
      requires mem in hs && mem + c.header + n in hs && blocks[i].stop in hs && (forall a :: a in ring ==> a in hs)
      requires i + 1 < |blocks| ==> blocks[i + 1].stop in hs
      requires i + 1 < |blocks| && !blocks[i + 1].used ==> blocks[i + 1].start in ring
      modifies this`blocks, this`ring, this`first, this`last, this`available, heap
      ensures Linked() && L() == ShrinkLayout(c, old(L()), i, n)
      ensures available == old(available) + Payload(c, old(blocks)[i]) - n - c.header
                + (if i + 1 < |old(blocks)| && !old(blocks)[i + 1].used then c.header else 0)
      ensures Kept(hs, old(heap[..]), heap[..])
    {
      hide Sound, ShrinkAt, Join, Kept;
      ghost var bs, h := blocks, heap[..];
      ShrinkIsJoin(c, bs, i, n);
      ReadHeader(i);
      var newPtr := mem + c.header + n;
      CutBlock(mem, newPtr, i, n, hs);
      ghost var h1 := heap[..];
      hide Cut;
      ReadHeader(i + 1);
      var free := heap[newPtr].next;
      if !heap[free].used {
        ReadHeader(i + 2);
        available := available - (heap[free].next - free - c.header);
        JoinSlots(blocks, end, i + 1, i + 1);
        JoinBlocks(newPtr, free, i + 1, hs);
        ghost var h2 := heap[..];
        KeptTwice(hs, h, h1, h2);
        Unlink(free, hs);
        KeptTwice(hs, h, h2, heap[..]);
      }
      ghost var h3 := heap[..];
      ReadHeader(i + 1);
      InsertFront(newPtr, hs);
      KeptTwice(hs, h, h3, heap[..]);
      ReadHeader(i + 1);
      available := available + (heap[newPtr].next - newPtr - c.header);
    }

    method Shrink(mem: nat, n: nat, ghost i: nat)
      requires Valid() && i < |blocks| && blocks[i].used && mem == blocks[i].start
      requires n % c.align == 0 && n + c.header < Payload(c, blocks[i])
      modifies this, heap
      ensures Valid() && L() == ShrinkLayout(c, old(L()), i, n) && maxUsed == old(maxUsed)
      ensures SamePayload(c, blocks, old(heap[..]), heap[..])
    {
      hide Tiles, GoodBlock, Chained, RingLinks, NoTwoFree, RingOf, FreePayload, Kept, SamePayload, InUsed, Places, Row, ShrinkAt, CutAt;
      ghost var bs, h := blocks, heap[..];
      ghost var hs := Places(CutAt(c, bs, i, n), end);
      ShrinkGood(c, L(), end, i, n);
      ShrinkReady(c, bs, end, ring, i, n);
      CutTail(mem, n, i, hs);
      ShrunkPayload(c, bs, end, i, n, h, heap[..]);
    }

    /** "make use of the next free node without alloc/memcpy". */
    method MoveBoundary(mem: nat, oldSize: int, n: nat, ghost i: nat, ghost hs: set<nat>)
      requires Linked() && i + 1 < |blocks| && mem == blocks[i].start && blocks[i].used && oldSize == Payload(c, blocks[i])
      requires n % c.align == 0 && mem + c.header + n !in ring && mem + c.header + n + c.header <= blocks[i + 1].stop
      requires mem in hs && mem + c.header + n in hs && blocks[i + 1].stop in hs && (forall a :: a in ring ==> a in hs)
      requires blocks[i + 1].start in ring
      modifies this, heap
      ensures Linked() && L() == GrowLayout(c, old(L()), i, n)
      ensures available == old(available) - (n - oldSize)
      ensures maxUsed == if poolSize - available > old(maxUsed) then poolSize - available else old(maxUsed)
      ensures Kept(hs, old(heap[..]), heap[..])
    {
      hide Sound, Join, Kept;
      ghost var bs, h := blocks, heap[..];
      GrowIsCut(c, L(), i, n);
      ReadHeader(i);
      var next := heap[mem].next;
      Account(n - oldSize);
      Unlink(next, hs);
      ghost var h1 := heap[..];
      JoinBlocks(mem, next, i, hs);
      ghost var h2 := heap[..];
      KeptTwice(hs, h, h1, h2);
      CutSlots(c.header, blocks, end, i, n, i + 1);
      CutBlock(mem, mem + c.header + n, i, n, hs);
      ghost var h3 := heap[..];
      KeptTwice(hs, h, h2, h3);
      hide Cut;
      ReadHeader(i + 1);
      InsertFront(mem + c.header + n, hs);
      KeptTwice(hs, h, h3, heap[..]);
    }

    method Grow(mem: nat, oldSize: int, n: nat, ghost i: nat)
      requires Valid() && i < |blocks| && blocks[i].used && mem == blocks[i].start && oldSize == Payload(c, blocks[i])
      requires n % c.align == 0 && Grows(c, blocks, i, n)
      modifies this, heap
      ensures Valid() && L() == GrowLayout(c, old(L()), i, n)
      ensures SamePayload(c, old(blocks), old(heap[..]), heap[..])
      ensures maxUsed == if poolSize - available > old(maxUsed) then poolSize - available else old(maxUsed)
    {
      hide Tiles, GoodBlock, Chained, RingLinks, NoTwoFree, RingOf, FreePayload, Kept, SamePayload, InUsed, Places, Row, GrowLayout;
      ghost var bs, h := blocks, heap[..];
      ghost var at := mem + c.header + n;
      GrowGood(c, L(), end, i, n);
      GrowReady(c, bs, end, ring, i, n);
      MoveBoundary(mem, oldSize, n, i, Places(bs, end) + {at});
      KeptPayload(c, bs, end, at, h, heap[..]);
    }

    // -------------------------------------------------------------- rt_memheap_realloc, by moving

    /** A store into the payload of a live block, by the caller or by the copy. */
    method Store(p: nat, offset: nat, b: Cell, ghost i: nat)
      requires Valid() && Live(c, blocks, i, p) && p + offset < blocks[i].stop
      modifies heap
      ensures Valid() && p + offset < heap.Length && heap[..] == old(heap[..])[p + offset := b]
    {
      hide Sound, NoTwoFree, RingOf, FreePayload;
      PayloadStore(c, blocks, end, M(), ring, i, p + offset, b);
      heap[p + offset] := b;
      assert heap[..] == old(heap[..])[p + offset := b];
    }

    lemma BlockExtent(i: nat)
      requires Linked() && i < |blocks|
      ensures c.Ok() && blocks[i].start + c.header <= blocks[i].stop <= end < heap.Length
      ensures HeaderIs(heap[blocks[i].start], blocks[i], PrevAt(blocks, end, i))
    {
      TilesRow(c, blocks, end);
      ReadHeader(i);
    }

    /** `rt_memcpy` between two live blocks. */
    method CopyCells(dst: nat, src: nat, len: nat, ghost i: nat, ghost j: nat)
      requires Valid() && Live(c, blocks, i, src) && Live(c, blocks, j, dst) && i != j
      requires src + len <= blocks[i].stop && dst + len <= blocks[j].stop
      modifies heap
      ensures Valid() && src + len <= heap.Length && dst + len <= heap.Length
      ensures heap[..] == CopyPrefix(old(heap[..]), dst, src, len)
    {
      ghost var h := heap[..];
      RangesApart(c, blocks, end, i, j);
      BlockExtent(i);
      hide Sound, NoTwoFree, RingOf, FreePayload;
      assert heap[..] == CopyPrefix(h, dst, src, 0);
      var x := 0;
      while x < len
        invariant x <= len && Valid() && unchanged(this)
        invariant heap[..] == CopyPrefix(h, dst, src, x)
      {
        CopyStep(h, dst, src, x);
        Store(dst, x, heap[src + x], j);
        x := x + 1;
      }
    }

    /** The old payload moves to the new block, then the old block is freed. */
    method CopyAndFree(p: nat, q: nat, len: nat, ghost i: nat, ghost j: nat)
      requires Valid() && Live(c, blocks, i, p) && Live(c, blocks, j, q) && i != j
      requires p + len <= blocks[i].stop && q + len <= blocks[j].stop
      modifies this, heap
      ensures Valid() && L() == FreeLayout(old(L()), i) && maxUsed == old(maxUsed)
      ensures Copied(old(heap[..]), p, heap[..], q, len)
      ensures forall a: nat :: a < heap.Length && InOther(c, old(blocks), i, a) && !(q <= a < q + len) ==> heap[a] == old(heap[a])
    {
      hide Sound, NoTwoFree, RingOf, FreePayload, FreeAt, InOther, InUsed, Copied, SamePayload;
      ghost var bs, h := blocks, heap[..];
      BlockExtent(i);
      CopyCells(q, p, len, i, j);
      ghost var h1 := heap[..];
      Free(p, i);
      FreedPayload(c, bs, i, h1, heap[..]);
      FreeKeepsCopy(c, bs, i, j, h, h1, heap[..], p, q, len);
    }

    /** "re-allocate a memory block": allocate, copy, free. */
    method Move(p: nat, oldSize: nat, n: nat, ghost i: nat) returns (q: Option<nat>)
      requires Valid() && Live(c, blocks, i, p) && oldSize == Payload(c, blocks[i])
      modifies this, heap
      ensures Valid() && (q, L()) == MoveLayout(c, old(L()), i, n)
      ensures q.None? ==> M() == old(M())
      ensures q.Some? ==> Copied(old(heap[..]), p, heap[..], q.value, Min(n, oldSize))
      ensures forall a: nat :: a < heap.Length && InOther(c, old(blocks), i, a) ==> heap[a] == old(heap[a])
      ensures maxUsed == RunMax(old(maxUsed), AllocLayout(c, old(L()), n).1)
    {
      hide Tiles, GoodBlock, Chained, RingLinks, NoTwoFree, RingOf, FreePayload, FreeLayout, TakeLayout, AllocLayout, MoveLayout, AllocAt, Shifted, Taken, Copied, InUsed, InOther, SamePayload, UsedBlocks, RingGrants;
      ghost var bs, h, l := blocks, heap[..], L();
      BlockExtent(i);
      q := Alloc(n);
      if q.Some? {
        ghost var size, k := c.Request(n), Taken(c, l, n);
        ghost var h1 := heap[..];
        TakenFits(c, l, n);
        TakenBlocks(c, l, k, size);
        MoveReady(c, bs, end, i, k, size);
        ghost var j := Shifted(c, bs, k, size, i);
        MoveSucceeds(c, l, i, n);
        var len: nat := if oldSize < n then oldSize else n;
        CopyAndFree(p, q.value, len, j, k);
        MoveSummary(c, bs, end, i, k, size, h, h1, heap[..], len);
      } else {
        AllocFails(c, l, n);
        MoveFails(c, l, i, n);
      }
    }

    /** The maximum in use after a state with the given layout was passed through. */
    ghost function RunMax(was: int, l: Layout): int {
      if poolSize - FreePayload(c, l.bs) > was then poolSize - FreePayload(c, l.bs) else was
    }

    /** Growing in place, if the right neighbour is free and large enough. */
    method TryGrow(mem: nat, oldSize: int, n: nat, ghost i: nat) returns (done: bool)
      requires Valid() && i < |blocks| && blocks[i].used && mem == blocks[i].start
      requires oldSize == Payload(c, blocks[i]) && n > oldSize && n % c.align == 0
      modifies this, heap
      ensures Valid() && (done <==> Grows(c, old(blocks), i, n))
      ensures !done ==> unchanged(this) && heap[..] == old(heap[..])
      ensures done ==> L() == GrowLayout(c, old(L()), i, n)
      ensures SamePayload(c, old(blocks), old(heap[..]), heap[..])
      ensures done ==> maxUsed == RunMax(old(maxUsed), GrowLayout(c, old(L()), i, n))
    {
      hide Tiles, GoodBlock, Chained, RingLinks, NoTwoFree, RingOf, FreePayload, GrowLayout;
      done := false;
      ReadHeader(i);
      var next := heap[mem].next;
      if !heap[next].used {
        ReadHeader(i + 1);
        var nextSize := heap[next].next - next - c.header;
        if nextSize + oldSize > n + c.MinAligned() {
          Grow(mem, oldSize, n, i);
          done := true;
        }
      }
    }

    /** The part of `rt_memheap_realloc` that deals with a live pointer and a rounded size. */
    method Resize(p: nat, n: nat, ghost i: nat) returns (r: Option<nat>)
      requires Valid() && Live(c, blocks, i, p) && n % c.align == 0
      modifies this, heap
      ensures Valid() && (r, L()) == ResizeLayout(c, old(L()), i, n)
      ensures r.None? ==> M() == old(M())
      ensures r.Some? ==> Copied(old(heap[..]), p, heap[..], r.value, Min(n, Payload(c, old(blocks)[i])))
      ensures forall a: nat :: a < heap.Length && InOther(c, old(blocks), i, a) ==> heap[a] == old(heap[a])
      ensures maxUsed == RunMax(old(maxUsed), ResizePeak(c, old(L()), i, n))
    {
      hide Tiles, GoodBlock, Chained, RingLinks, NoTwoFree, RingOf, FreePayload, FreeLayout, MoveLayout, AllocLayout, GrowLayout, ShrinkLayout, ShrinkAt, Grows, Copied, InUsed, InOther;
      ghost var bs, h := blocks, heap[..];
      OtherIsUsed(c, bs, i);
      OwnIsUsed(c, bs, i);
      BlockExtent(i);
      var mem := p - c.header;
      var oldSize := heap[mem].next - mem - c.header;
      if n > oldSize {
        var done := TryGrow(mem, oldSize, n, i);
        if done {
          StaysCopied(c, bs, h, heap[..], p, oldSize);
          return Some(p);
        }
        r := Move(p, oldSize, n, i);
        return;
      }
      if n + c.header + c.MinAligned() < oldSize {
        Shrink(mem, n, i);
        ShrinkPayload(c, bs, i, n);
        ShrunkBlocks(c, Layout(bs, old(ring)), i, n);
        StaysCopied(c, blocks, h, heap[..], p, n);
      } else {
        StaysCopied(c, bs, h, heap[..], p, n);
      }
      return Some(p);
    }

    /** `rt_memheap_realloc`; `i` is the block of a non-null pointer. */
    method Realloc(ptr: Option<nat>, newsize: nat, ghost i: nat) returns (r: Option<nat>)
      requires Valid() && (ptr.Some? ==> Live(c, blocks, i, ptr.value))
      modifies this, heap
      ensures Valid()
      ensures (r, L()) == ReallocLayout(c, old(L()), if ptr.Some? then Some(i) else None, newsize)
      ensures ptr.Some? ==> Resizes(c, old(L()), L(), i, newsize, r)
      ensures ptr.None? ==>
        if newsize == 0 then r.None? && L() == old(L()) else RingGrants(c, old(L()), L(), end, c.Request(newsize), r)
      ensures r.None? && newsize > 0 ==> M() == old(M())
      ensures r.Some? && ptr.Some? ==>
        Copied(old(heap[..]), ptr.value, heap[..], r.value, Min(c.Request(newsize), Payload(c, old(blocks)[i])))
      ensures ptr.Some? ==>
        forall a: nat :: a < heap.Length && InOther(c, old(blocks), i, a) ==> heap[a] == old(heap[a])
      ensures ptr.None? ==> SamePayload(c, old(blocks), old(heap[..]), heap[..])
      ensures maxUsed == RunMax(old(maxUsed), PeakLayout(c, old(L()), if ptr.Some? then Some(i) else None, newsize))
    {
      hide Tiles, GoodBlock, Chained, RingLinks, NoTwoFree, RingOf, FreePayload, FreeLayout, AllocLayout, ResizeLayout, ResizePeak, UsedBlocks, Resizes, RingGrants;
      if ptr.Some? { ReallocMeans(c, L(), end, i, newsize); } else { ReallocNullMeans(c, L(), end, newsize); }
      if ptr.Some? { OtherIsUsed(c, blocks, i); }
      if newsize == 0 {
        if ptr.Some? {
          Free(ptr.value, i);
        }
        return None;
      }
      var n := AlignUp(newsize, c.align);
      if n < c.MinAligned() {
        n := c.MinAligned();
      }
      assert n == c.Request(newsize);
      if ptr.None? {
        r := Alloc(n);
      } else {
        r := Resize(ptr.value, n, i);
      }
    }

    /** Allocation and free are inverse: boundaries, marks and available bytes come back. */
    method AllocFree(request: nat) returns (p: Option<nat>)
      requires Valid()
      modifies this, heap
      ensures Valid() && blocks == old(blocks) && available == old(available)
      ensures multiset(ring) == multiset(old(ring))
      ensures SamePayload(c, blocks, old(heap[..]), heap[..])
    {
      hide Tiles, GoodBlock, Chained, RingLinks, NoTwoFree, RingOf, FreePayload, FreeLayout, TakeLayout, AllocLayout, AllocAt, Taken, InUsed, SamePayload;
      ghost var l, h := L(), heap[..];
      p := Alloc(request);
      if p.Some? {
        ghost var h1, k := heap[..], Taken(c, l, request);
        AllocThenFreeLayout(c, l, end, request);
        Free(p.value, k);
        TakenFits(c, l, request);
        TakenBlocks(c, l, k, c.Request(request));
        AllocFreePayload(c, blocks, k, c.Request(request), h, h1, heap[..]);
      } else {
        AllocFails(c, l, request);
      }
    }
  }
}
