/** `mem.c`: init, alloc, realloc and free, updating the heap array in place. */
module SmallHeap {
  import opened Common
  import opened Alignment
  import opened BlockRow
  import opened BlockPayload
  import opened SmallHeapLayout
  import opened SmallHeapGrants
  import opened BlockUse
  import opened SmallHeapCells

  class SmallMem {
    const c: Config
    const memSize: nat
    const end: nat
    const heap: array<Cell>
    var lfree: nat
    var used: int
    var max: int
    ghost var blocks: seq<Block>

    /** Headers, links and the lowest-free pointer agree with the blocks. */
    ghost predicate Linked()
      reads this, heap
    {
      && c.Ok()
      && end == memSize + c.header
      && Tiles(c, blocks, 0, end)
      && Agrees(c.header, blocks, end, heap[..])
      && lfree == LowestFree(blocks, end)
    }

    ghost predicate Valid()
      reads this, heap
    {
      Linked() && NoTwoFree(blocks) && used == UsedSum(blocks) && max >= used
    }

    /** `rt_smem_init` once the geometry is settled. */
    constructor (c: Config, memSize: nat)
      requires c.Ok() && memSize % c.align == 0
      ensures Valid() && fresh(heap)
      ensures this.c == c && this.memSize == memSize
      ensures blocks == [Block(0, memSize + c.header, false)] && used == 0 && max == 0
    {
      this.c := c;
      this.memSize := memSize;
      end := memSize + c.header;
      heap := new Cell[memSize + c.header + c.header](_ => Byte(0));
      lfree := 0;
      used := 0;
      max := 0;
      blocks := [Block(0, memSize + c.header, false)];
      new;
      heap[0] := Item(true, end, 0, false);
      heap[end] := Item(true, end, end, true);
      AddAligned(memSize, c.header, c.align);
      assert GoodBlock(c, blocks[0]);
      LowestFreeIs(blocks, end, 0);
    }

    // -------------------------------------------------------------- plug_holes

    /** The stores with which either half of `plug_holes` merges two free neighbours.
        `lfree` never names the right one here, so it stays. */
    method Merge(left: nat, right: nat, ghost i: nat)
      requires Linked() && i + 1 < |blocks| && left == blocks[i].start && right == blocks[i + 1].start
      requires !blocks[i].used && !blocks[i + 1].used
      modifies this`blocks, heap
      ensures Linked() && blocks == MergeRight(old(blocks), i) && lfree != right
      ensures SamePayload(c, old(blocks), old(heap[..]), heap[..])
    {
      hide Tiles, Agrees, NoTwoFree, UsedSum;
      ghost var bs, h := blocks, heap[..];
      JoinState(c, bs, end, h, i);
      NextHeader(c.header, bs, end, h, i);
      NextHeader(c.header, bs, end, h, i + 1);
      MergeLowestFree(bs, end, i);
      HeadersApart(c.header, bs, end, h, FirstFree(bs), i + 1);
      heap[right] := heap[right].(pool := false, used := false);
      heap[left] := heap[left].(next := heap[right].next);
      var nn := heap[right].next;
      heap[nn] := heap[nn].(prev := left);
      assert heap[..] == MergeStores(h, left, right, nn);
      blocks := MergeRight(bs, i);
    }

    /** "plug hole forward" */
    method JoinRight(mem: nat, ghost i: nat)
      requires Linked() && i < |blocks| && mem == blocks[i].start && !blocks[i].used
      modifies this`blocks, heap
      ensures Linked() && blocks == MergeRight(old(blocks), i)
      ensures SamePayload(c, old(blocks), old(heap[..]), heap[..])
    {
      hide Tiles, Agrees, NoTwoFree, UsedSum;
      NextHeader(c.header, blocks, end, heap[..], i);
      if i + 1 < |blocks| { NextHeader(c.header, blocks, end, heap[..], i + 1); HeadersApart(c.header, blocks, end, heap[..], i, i + 1); }
      var next := heap[mem].next;
      if mem != next && !heap[next].used && next != end {
        Merge(mem, next, i);
      }
    }

    /** "plug hole backward" */
    method JoinLeft(mem: nat, ghost i: nat)
      requires Linked() && i < |blocks| && mem == blocks[i].start && !blocks[i].used
      modifies this`blocks, heap
      ensures Linked() && blocks == MergeLeft(old(blocks), i)
      ensures SamePayload(c, old(blocks), old(heap[..]), heap[..])
    {
      hide Tiles, Agrees, NoTwoFree, UsedSum;
      LeftHeader(c.header, blocks, end, heap[..], i);
      LeftIsRight(blocks, i);
      var prev := heap[mem].prev;
      if prev != mem && !heap[prev].used {
        Merge(prev, mem, i - 1);
      }
    }

    method PlugHolesAt(mem: nat, ghost i: nat)
      requires Linked() && i < |blocks| && mem == blocks[i].start && !blocks[i].used
      modifies this`blocks, heap
      ensures Linked() && blocks == PlugHoles(old(blocks), i)
      ensures SamePayload(c, old(blocks), old(heap[..]), heap[..])
    {
      hide Tiles, Agrees, NoTwoFree, UsedSum;
      JoinRight(mem, i);
      forall a: nat | InUsed(c, old(blocks), a) ensures InUsed(c, blocks, a) { MergeInUsed(c, old(blocks), i, a); }
      JoinLeft(mem, i);
    }

    // -------------------------------------------------------------- rt_smem_free

    /** Mark, lowest-free pointer and accounting, before holes are plugged. */
    method MarkFree(mem: nat, ghost i: nat)
      requires Linked() && i < |blocks| && mem == blocks[i].start && blocks[i].used
      modifies this, heap
      ensures Linked() && blocks == old(blocks)[i := old(blocks)[i].(used := false)]
      ensures SamePayload(c, blocks, old(heap[..]), heap[..])
      ensures used == old(used) - (old(blocks)[i].stop - mem) && max == old(max)
    {
      hide Tiles, Agrees, NoTwoFree, UsedSum;
      ghost var bs, h := blocks, heap[..];
      MarkState(c, bs, end, h, i, false);
      FreedLowest(c, bs, end, i);
      heap[mem] := heap[mem].(used := false);
      assert heap[..] == h[mem := h[mem].(used := false)];
      blocks := bs[i := bs[i].(used := false)];
      if mem < lfree {
        lfree := mem;
      }
      used := used - (heap[mem].next - mem);
    }

    /** `rt_smem_free` on a live pointer. */
    method Free(p: nat, ghost i: nat)
      requires Valid() && Live(c, blocks, i, p)
      modifies this, heap
      ensures Valid() && blocks == FreeAt(old(blocks), i)
      ensures UsedBlocks(blocks) == UsedBlocks(old(blocks)) - {old(blocks)[i]}
      ensures used == old(used) - (old(blocks)[i].stop - old(blocks)[i].start) && max == old(max)
      ensures SamePayload(c, blocks, old(heap[..]), heap[..])
    {
      hide Tiles, Agrees, NoTwoFree, UsedSum, UsedBlocks;
      ghost var bs, h := blocks, heap[..];
      FreeSummary(c, bs, end, i);
      FreeUse(c, bs, end, i);
      MarkFree(p - c.header, i);
      ghost var fs, h1 := blocks, heap[..];
      PlugHolesAt(p - c.header, i);
      assert blocks == FreeAt(bs, i);
      PlugPayload(c, fs, i, h, h1, heap[..]);
    }

    // -------------------------------------------------------------- rt_smem_alloc

    /** Add to the used size and keep its running maximum. */
    method Account(n: int)
      modifies this`used, this`max
      ensures used == old(used) + n && max == if used > old(max) then used else old(max)
    {
      used := used + n;
      if max < used {
        max := used;
      }
    }

    /** The four header stores that split a block: new free header, forward link, back link
        of the next block unless that is the end marker, used mark. */
    method CutStore(ptr: nat, ptr2: nat, next: nat)
      requires end == memSize + c.header && ptr < heap.Length && ptr2 < heap.Length && next < heap.Length
      requires heap[ptr].Item? && heap[next].Item? && heap[ptr].next == next
      requires ptr2 != ptr && ptr2 != next && next != ptr
      modifies heap
      ensures heap[..] == CutStores(old(heap[..]), end, ptr, ptr2, next)
    {
      heap[ptr2] := Item(true, heap[ptr].next, ptr, false);
      heap[ptr] := heap[ptr].(next := ptr2);
      if heap[ptr2].next != memSize + c.header {
        heap[next] := heap[next].(prev := ptr2);
      }
      heap[ptr] := heap[ptr].(used := true);
    }

    /** "split large block, create empty remainder" */
    method SplitBlock(ptr: nat, size: nat, ghost k: nat)
      requires c.Ok() && end == memSize + c.header && Tiles(c, blocks, 0, end) && Agrees(c.header, blocks, end, heap[..])
      requires k < |blocks| && ptr == blocks[k].start && !blocks[k].used
      requires Payload(c, blocks[k]) >= size + c.header && size % c.align == 0
      modifies this`blocks, this`used, this`max, heap
      ensures Tiles(c, blocks, 0, end) && Agrees(c.header, blocks, end, heap[..])
      ensures blocks == CutAt(c, old(blocks), k, size)
      ensures SamePayload(c, old(blocks), old(heap[..]), heap[..])
      ensures used == old(used) + size + c.header && max == if used > old(max) then used else old(max)
    {
      hide Tiles, Agrees, NoTwoFree, UsedSum;
      ghost var bs, h := blocks, heap[..];
      CutState(c, bs, end, h, k, size);
      CutPayload(c, bs, end, h, k, size);
      var ptr2 := ptr + c.header + size;
      CutStore(ptr, ptr2, heap[ptr].next);
      Account(size + c.header);
      blocks := CutAt(c, bs, k, size);
    }

    /** "near fit or exact fit: do not split" */
    method UseWhole(ptr: nat, ghost k: nat)
      requires c.Ok() && end == memSize + c.header && Tiles(c, blocks, 0, end) && Agrees(c.header, blocks, end, heap[..])
      requires k < |blocks| && ptr == blocks[k].start && !blocks[k].used
      modifies this`blocks, this`used, this`max, heap
      ensures Tiles(c, blocks, 0, end) && Agrees(c.header, blocks, end, heap[..])
      ensures blocks == old(blocks)[k := old(blocks)[k].(used := true)]
      ensures SamePayload(c, old(blocks), old(heap[..]), heap[..])
      ensures used == old(used) + (old(blocks)[k].stop - ptr) && max == if used > old(max) then used else old(max)
    {
      hide Tiles, Agrees, NoTwoFree, UsedSum;
      ghost var bs, h := blocks, heap[..];
      MarkState(c, bs, end, h, k, true);
      Account(heap[ptr].next - ptr);
      heap[ptr] := heap[ptr].(used := true);
      assert heap[..] == h[ptr := h[ptr].(used := true)];
      blocks := bs[k := bs[k].(used := true)];
    }

    /** The block the search stopped at becomes used. */
    method TakeBlock(ptr: nat, size: nat, ghost k: nat)
      requires Valid() && k < |blocks| && ptr == blocks[k].start && Fits(c, blocks[k], size)
      requires size % c.align == 0
      modifies this, heap
      ensures Valid() && blocks == AllocAt(c, old(blocks), k, size)
      ensures SamePayload(c, old(blocks), old(heap[..]), heap[..])
      ensures max == if used > old(max) then used else old(max)
    {
      hide Tiles, Agrees, NoTwoFree, UsedSum;
      ghost var bs := blocks;
      AllocSummary(c, bs, end, k, size);
      LinksAt(c.header, bs, end, heap[..], k);
      var room := heap[ptr].next - (ptr + c.header);
      if room >= size + c.header + c.MinAligned() {
        SplitBlock(ptr, size, k);
      } else {
        UseWhole(ptr, k);
      }
      AdvanceLowestFree(bs, ptr, k);
    }

    /** "Find next free block after mem and update lowest free pointer" */
    method AdvanceLowestFree(ghost bs: seq<Block>, mem: nat, ghost k: nat)
      requires Agrees(c.header, blocks, end, heap[..])
      requires k < |bs| && k < |blocks| && !bs[k].used && blocks[k].used
      requires forall j :: 0 <= j < k ==> blocks[j] == bs[j]
      requires mem == blocks[k].start == bs[k].start && mem < end
      requires forall j :: 0 <= j < k ==> bs[j].start < mem
      requires lfree == LowestFree(bs, end)
      modifies this`lfree
      ensures lfree == LowestFree(blocks, end)
    {
      hide Agrees;
      if mem == lfree {
        ghost var j := k;
        assert FirstFree(bs) == k;
        LinksAt(c.header, blocks, end, heap[..], k);
        while heap[lfree].used && lfree != end
          invariant k <= j <= |blocks|
          invariant lfree == if j < |blocks| then blocks[j].start else end
          invariant forall i :: 0 <= i < j ==> blocks[i].used
          invariant lfree < heap.Length && heap[lfree].Item?
          invariant j < |blocks| ==> lfree < end && heap[lfree] == HeaderOf(blocks, j)
          decreases |blocks| - j
        {
          NextHeader(c.header, blocks, end, heap[..], j);
          lfree := heap[lfree].next;
          j := j + 1;
        }
        LowestFreeIs(blocks, end, j);
      } else {
        LowestFreeIs(blocks, end, FirstFree(bs));
      }
    }

    /** The search of `rt_smem_alloc`: starting at the lowest free block and stopping at
        the loop bound finds exactly what a scan of all blocks finds. */
    method Search(size: nat) returns (found: bool, ptr: nat, ghost k: nat)
      requires Valid() && size <= memSize
      ensures k == FirstFit(c, blocks, size)
      ensures found <==> k < |blocks|
      ensures found ==> ptr == blocks[k].start
    {
      hide Tiles, Agrees, NoTwoFree, UsedSum;
      ghost var bs, h := blocks, heap[..];
      ptr := lfree;
      k := FirstFree(bs);
      while ptr <= memSize - size
        invariant k <= |bs| && ptr == if k < |bs| then bs[k].start else end
        invariant forall j :: 0 <= j < k ==> !Fits(c, bs[j], size)
        decreases |bs| - k
      {
        NextHeader(c.header, bs, end, h, k);
        if !heap[ptr].used && heap[ptr].next - (ptr + c.header) >= size {
          FirstFitIs(c, bs, size, k);
          return true, ptr, k;
        }
        ptr := heap[ptr].next;
        k := k + 1;
      }
      NothingFits(c, bs, end, size, k);
      FirstFitIs(c, bs, size, |bs|);
      found, k := false, |bs|;
    }

    /** `rt_smem_alloc`: the lowest block that fits; nothing exactly if no block anywhere fits. */
    method Alloc(request: nat) returns (p: Option<nat>)
      requires Valid()
      modifies this, heap
      ensures Valid()
      ensures (p, blocks) == AllocSpec(c, old(blocks), request)
      ensures if request == 0 then p.None? && blocks == old(blocks) else Grants(c, old(blocks), blocks, end, c.Request(request), p)
      ensures SamePayload(c, old(blocks), old(heap[..]), heap[..])
      ensures p.None? ==> heap[..] == old(heap[..]) && used == old(used) && lfree == old(lfree)
      ensures max == if used > old(max) then used else old(max)
    {
      hide Tiles, Agrees, NoTwoFree, UsedSum, Grants;
      p := None;
      AllocMeans(c, blocks, end, request);
      if request != 0 {
        var size := AlignUp(request, c.align);
        if size < c.MinAligned() {
          size := c.MinAligned();
        }
        assert size == c.Request(request);
        if size > memSize {
          NothingFits(c, blocks, end, size, 0);
          FirstFitIs(c, blocks, size, |blocks|);
        } else {
          var found, ptr, k := Search(size);
          if found {
            TakeBlock(ptr, size, k);
            p := Some(ptr + c.header);
          }
        }
      }
    }

    // -------------------------------------------------------------- rt_smem_realloc

    /** Stores into the payload of a live block leave the heap intact; this is what a
        caller may do with the memory it got, and what the copy loop does. */
    method Store(p: nat, offset: nat, b: Cell, ghost i: nat)
      requires Valid() && Live(c, blocks, i, p) && p + offset < blocks[i].stop
      modifies heap
      ensures Valid() && p + offset < heap.Length && heap[..] == old(heap[..])[p + offset := b]
    {
      hide Tiles, Agrees, NoTwoFree, UsedSum;
      PayloadStore(c, blocks, end, heap[..], i, p + offset, b);
      heap[p + offset] := b;
      assert heap[..] == old(heap[..])[p + offset := b];
    }

    /** `rt_memcpy` between two live blocks. */
    method CopyCells(dst: nat, src: nat, len: nat, ghost i: nat, ghost j: nat)
      requires Valid() && Live(c, blocks, i, src) && Live(c, blocks, j, dst) && i != j
      requires src + len <= blocks[i].stop && dst + len <= blocks[j].stop
      modifies heap
      ensures Valid() && src + len <= heap.Length && dst + len <= heap.Length
      ensures heap[..] == CopyPrefix(old(heap[..]), dst, src, len)
    {
      ghost var h := heap[..];
      RangesApart(c, blocks, end, i, j);
      BlockBounds(c, blocks, end, h, i);
      hide Linked, UsedSum, NoTwoFree, CopyPrefix;
      CopyNone(h, dst, src);
      var x := 0;
      while x < len
        invariant x <= len && Valid() && unchanged(this)
        invariant heap[..] == CopyPrefix(h, dst, src, x)
      {
        CopyStep(h, dst, src, x);
        Store(dst, x, heap[src + x], j);
        x := x + 1;
      }
    }

    /** The old payload moves to the new block, then the old block is freed. */
    method CopyAndFree(p: nat, q: nat, len: nat, ghost i: nat, ghost j: nat)
      requires Valid() && Live(c, blocks, i, p) && Live(c, blocks, j, q) && i != j
      requires p + len <= blocks[i].stop && q + len <= blocks[j].stop
      modifies this, heap
      ensures Valid() && blocks == FreeAt(old(blocks), i) && max == old(max)
      ensures used == old(used) - (old(blocks)[i].stop - old(blocks)[i].start)
      ensures Copied(old(heap[..]), p, heap[..], q, len)
      ensures forall a: nat :: a < heap.Length && InOther(c, old(blocks), i, a) && !(q <= a < q + len) ==> heap[a] == old(heap[a])
    {
      hide Tiles, Agrees, NoTwoFree, UsedSum, LowestFree, FreeAt, InOther, InUsed, Copied;
      ghost var bs, h := blocks, heap[..];
      CopyCells(q, p, len, i, j);
      ghost var h1 := heap[..];
      Free(p, i);
      FreeKeepsCopy(c, bs, i, j, h, h1, heap[..], p, q, len);
    }

    /** Cutting a used block: the shortened block keeps its payload, the tail becomes free. */
    method CutTail(mem: nat, n: nat, ghost i: nat)
      requires Linked() && i < |blocks| && blocks[i].used && mem == blocks[i].start
      requires n % c.align == 0 && Payload(c, blocks[i]) >= n + c.header
      modifies this`blocks, this`lfree, heap
      ensures Linked() && blocks == CutAt(c, old(blocks), i, n)
      ensures SamePayload(c, blocks, old(heap[..]), heap[..])
    {
      hide Tiles, Agrees, NoTwoFree, UsedSum;
      ghost var bs, h := blocks, heap[..];
      CutState(c, bs, end, h, i, n);
      CutKeepsPayload(c, bs, end, h, i, n);
      CutLowest(c, bs, end, i, n);
      var ptr2 := mem + c.header + n;
      CutStore(mem, ptr2, heap[mem].next);
      blocks := CutAt(c, bs, i, n);
      if ptr2 < lfree {
        lfree := ptr2;
      }
    }

    /** "split memory block" */
    method Shrink(mem: nat, n: nat, ghost i: nat)
      requires Valid() && i < |blocks| && blocks[i].used && mem == blocks[i].start
      requires n % c.align == 0 && n + c.header + c.minSize < Payload(c, blocks[i])
      modifies this, heap
      ensures Valid() && blocks == ShrinkAt(c, old(blocks), i, n) && max == old(max)
      ensures HasRemainder(c, old(blocks), blocks, i, n)
      ensures SamePayload(c, blocks, old(heap[..]), heap[..])
    {
      hide Tiles, Agrees, NoTwoFree, UsedSum, LowestFree, PlugHoles, SamePayload, HasRemainder;
      ghost var bs, h := blocks, heap[..];
      ShrinkSummary(c, bs, end, i, n);
      ShrinkRemainder(c, bs, end, i, n);
      LinksAt(c.header, bs, end, h, i);
      used := used - (heap[mem].next - mem - c.header - n);
      CutTail(mem, n, i);
      ghost var fs, h1 := blocks, heap[..];
      assert fs[i + 1] == Block(mem + c.header + n, bs[i].stop, false);
      PlugHolesAt(mem + c.header + n, i + 1);
      PlugPayload(c, fs, i + 1, h, h1, heap[..]);
    }

    /** The running maximum after the used size has been `now`. */
    static function Peak(was: int, now: int): int { if now > was then now else was }

    /** "expand memory": allocate, copy, free. */
    method Move(p: nat, n: nat, ghost i: nat) returns (q: Option<nat>)
      requires Valid() && Live(c, blocks, i, p) && n > 0 && n % c.align == 0
      modifies this, heap
      ensures Valid() && (q, blocks) == MoveSpec(c, old(blocks), i, n)
      ensures q.None? ==> max == old(max)
      ensures q.Some? ==> q.value != p && max == Peak(old(max), used + old(blocks)[i].stop - old(blocks)[i].start)
      ensures q.None? ==> heap[..] == old(heap[..])
      ensures q.Some? ==> Copied(old(heap[..]), p, heap[..], q.value, Min(n, Payload(c, old(blocks)[i])))
      ensures forall a: nat :: a < heap.Length && InOther(c, old(blocks), i, a) ==> heap[a] == old(heap[a])
    {
      hide Tiles, Agrees, NoTwoFree, UsedSum, LowestFree, AllocAt, FreeAt, Shifted, Copied, InUsed, InOther, SamePayload, Grants, UsedBlocks, FirstFit;
      ghost var bs, h := blocks, heap[..];
      BlockBounds(c, bs, end, h, i);
      var size: nat := heap[p - c.header].next - p;
      q := Alloc(n);
      if q.Some? {
        ghost var size' := c.Request(n);
        ghost var k := FirstFit(c, bs, size');
        ghost var r, h1 := blocks, heap[..];
        AllocShifts(c, bs, k, size', i);
        MoveRoom(c, bs, end, i, k, size');
        ghost var j := Shifted(c, bs, k, size', i);
        var len: nat := if size < n then size else n;
        CopyAndFree(p, q.value, len, j, k);
        MoveSummary(c, bs, end, i, k, size', h, h1, heap[..], len);
      }
    }

    /** The part of `rt_smem_realloc` that deals with a live pointer and a rounded size. */
    method Resize(p: nat, n: nat, ghost i: nat) returns (r: Option<nat>)
      requires Valid() && Live(c, blocks, i, p) && n > 0 && n % c.align == 0
      modifies this, heap
      ensures Valid() && (r, blocks) == ResizeSpec(c, old(blocks), i, n)
      ensures r.None? || r == Some(p) ==> max == old(max)
      ensures r.Some? && r != Some(p) ==> max == Peak(old(max), used + old(blocks)[i].stop - old(blocks)[i].start)
      ensures r.None? ==> heap[..] == old(heap[..])
      ensures r.Some? ==> Copied(old(heap[..]), p, heap[..], r.value, Min(n, Payload(c, old(blocks)[i])))
      ensures forall a: nat :: a < heap.Length && InOther(c, old(blocks), i, a) ==> heap[a] == old(heap[a])
    {
      hide Tiles, Agrees, NoTwoFree, UsedSum, LowestFree, MoveSpec, ShrinkAt, Copied, InUsed, InOther;
      ghost var bs, h := blocks, heap[..];
      var mem := p - c.header;
      BlockBounds(c, bs, end, h, i);
      OtherIsUsed(c, bs, i);
      OwnIsUsed(c, bs, i);
      hide GoodBlock;
      var size := heap[mem].next - mem - c.header;
      if size == n {
        StaysCopied(c, bs, h, heap[..], p, n);
        return Some(p);
      }
      if n + c.header + c.minSize < size {
        Shrink(mem, n, i);
        ShrinkPayload(c, bs, i, n);
        StaysCopied(c, blocks, h, heap[..], p, n);
        return Some(p);
      }
      r := Move(p, n, i);
    }

    /** `rt_smem_realloc`; `i` is the block of a non-null pointer. */
    method Realloc(rmem: Option<nat>, newsize: nat, ghost i: nat) returns (r: Option<nat>)
      requires Valid() && (rmem.Some? ==> Live(c, blocks, i, rmem.value))
      modifies this, heap
      ensures Valid()
      ensures (r, blocks) == ReallocSpec(c, old(blocks), memSize, if rmem.Some? then Some(i) else None, newsize)
      ensures rmem.Some? && r.Some? && r != rmem ==> max == Peak(old(max), used + old(blocks)[i].stop - old(blocks)[i].start)
      ensures rmem.Some? && (r.None? || r == rmem) ==> max == old(max)
      ensures rmem.None? ==> max == Peak(old(max), used)
      ensures rmem.Some? ==> Resizes(c, old(blocks), blocks, memSize, i, newsize, r)
      ensures rmem.None? ==>
        if AlignUp(newsize, c.align) == 0 || AlignUp(newsize, c.align) > memSize then r.None? && blocks == old(blocks)
        else Grants(c, old(blocks), blocks, end, c.Request(AlignUp(newsize, c.align)), r)
      ensures r.None? && AlignUp(newsize, c.align) > 0 ==> heap[..] == old(heap[..])
      ensures r.Some? && rmem.Some? ==>
        Copied(old(heap[..]), rmem.value, heap[..], r.value, Min(AlignUp(newsize, c.align), Payload(c, old(blocks)[i])))
      ensures rmem.Some? ==>
        forall a: nat :: a < heap.Length && InOther(c, old(blocks), i, a) ==> heap[a] == old(heap[a])
      ensures rmem.None? ==> SamePayload(c, old(blocks), old(heap[..]), heap[..])
    {
      hide Tiles, Agrees, NoTwoFree, UsedSum, LowestFree, AllocSpec, ResizeSpec, FreeAt, Copied, InUsed, InOther, UsedBlocks, Resizes, Grants;
      ghost var bs := blocks;
      if rmem.Some? { ReallocMeans(c, bs, end, memSize, i, newsize); } else { ReallocNullMeans(c, bs, end, memSize, newsize); }
      var n := AlignUp(newsize, c.align);
      if n > memSize {
        return None;
      }
      if n == 0 {
        if rmem.Some? {
          Free(rmem.value, i);
          OthersAfterFree(c, bs, i);
        }
        return None;
      }
      if rmem.None? {
        r := Alloc(n);
      } else {
        r := Resize(rmem.value, n, i);
      }
    }

    /** Allocation and free are inverse: boundaries, marks, accounting and the lowest-free
        pointer are what they were before. */
    method AllocFree(request: nat) returns (p: Option<nat>)
      requires Valid()
      modifies this, heap
      ensures Valid() && blocks == old(blocks) && used == old(used) && lfree == old(lfree)
      ensures SamePayload(c, blocks, old(heap[..]), heap[..])
    {
      hide Tiles, Agrees, NoTwoFree, UsedSum, LowestFree, AllocAt, FreeAt, InUsed;
      ghost var bs, h := blocks, heap[..];
      p := Alloc(request);
      if p.Some? {
        ghost var size := c.Request(request);
        ghost var k := FirstFit(c, bs, size);
        AllocTakes(c, bs, k, size);
        AllocThenFree(c, bs, end, k, size);
        Free(p.value, k);
      }
    }
  }
}
