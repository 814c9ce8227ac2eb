/** `rt_malloc_align` and `rt_free_align` on top of the small-memory heap: the real address
    is kept in the word before the aligned one. */
module AlignedAlloc {
  import opened Common
  import opened Alignment
  import opened BlockRow
  import opened BlockPayload
  import opened SmallHeapLayout
  import opened SmallHeapCells
  import opened SmallHeap

  /** The address handed out for a block whose payload is at address `x`; `align` stands for
      a power of two, for which the source's masks are remainders. */
  function Place(x: nat, align: nat): (q: nat)
    requires align > 0
  {
    if x % align == 0 then x + align else AlignUp(x, align)
  }

  /** Aligned, with room for one word before it, at most `align` further on. */
  lemma PlaceFits(x: nat, align: nat, word: nat)
    requires word > 0 && align > 0 && align % word == 0 && x % word == 0
    ensures Place(x, align) % align == 0
    ensures x + word <= Place(x, align) <= x + align
  {
    var q := Place(x, align);
    if x % align == 0 {
      SelfAligned(align);
      AddAligned(x, align, align);
      if align < word { SmallRemainder(align, word); }
    } else {
      MultipleOfMultiple(q, align, word);
      assert q != x;
      AlignedGap(x, q, word);
    }
  }

  lemma SelfAligned(a: nat)
    requires a > 0
    ensures a % a == 0
  {
    MulMod(1, a);
  }

  lemma MultipleOfMultiple(q: nat, a: nat, w: nat)
    requires w > 0 && a > 0 && q % a == 0 && a % w == 0
    ensures q % w == 0
  {
    var i, j := q / a, a / w;
    assert q == i * a && a == j * w;
    assert q == (i * j) * w by { MulAssoc(i, j, w); }
    MulMod(i * j, w);
  }

  lemma MulAssoc(i: nat, j: nat, w: nat)
    ensures i * (j * w) == (i * j) * w
  {
  }

  /** The hidden word, the address it stands before, and room for `size` bytes from there. */
  ghost predicate Handed(m: SmallMem, base: nat, word: nat, i: nat, p: nat, q: nat, size: nat)
    reads m, m.heap
  {
    && Live(m.c, m.blocks, i, p) && p + word <= q && q + size <= m.blocks[i].stop
    && q - word < m.heap.Length && m.heap[q - word] == Word(base + p)
  }

  /** Choose the aligned address in a block just obtained and keep the real one before it. */
  method KeepAddress(m: SmallMem, base: nat, word: nat, ptr: nat, size: nat, a: nat, ghost i: nat) returns (q: nat)
    requires m.Valid() && Live(m.c, m.blocks, i, ptr) && ptr + size + a <= m.blocks[i].stop
    requires word > 0 && a > 0 && a % word == 0 && (base + ptr) % word == 0
    modifies m.heap
    ensures m.Valid() && (base + q) % a == 0 && Handed(m, base, word, i, ptr, q, size)
    ensures ptr <= q - word < ptr + a
    ensures q - word < m.heap.Length && m.heap[..] == old(m.heap[..])[q - word := Word(base + ptr)]
  {
    hide Tiles, Agrees, NoTwoFree, UsedSum, LowestFree;
    PlaceFits(base + ptr, a, word);
    hide Place;
    q := Place(base + ptr, a) - base;
    m.Store(ptr, q - word - ptr, Word(base + ptr), i);
    assert m.heap[..][q - word] == Word(base + ptr);
  }

  /** `rt_malloc_align`; `base` is the address of offset 0, `word` the size of a pointer. */
  method MallocAlign(m: SmallMem, base: nat, word: nat, size: nat, align: nat) returns (q: Option<nat>, ghost p: nat, ghost i: nat)
    requires m.Valid() && word > 0 && align > 0 && m.c.align % word == 0 && base % m.c.align == 0
    modifies m, m.heap
    ensures m.Valid()
    ensures (if q.Some? then Some(p) else None, m.blocks) ==
            AllocSpec(m.c, old(m.blocks), AlignUp(size, word) + AlignUp(align, word))
    ensures q.Some? ==> (base + q.value) % AlignUp(align, word) == 0 && Handed(m, base, word, i, p, q.value, size)
    ensures q.Some? ==> i == FirstFit(m.c, old(m.blocks), m.c.Request(AlignUp(size, word) + AlignUp(align, word)))
    ensures SamePayload(m.c, old(m.blocks), old(m.heap[..]), m.heap[..])
  {
    hide Tiles, Agrees, NoTwoFree, UsedSum, LowestFree, AllocAt, SamePayload, InUsed, AlignUp, Handed;
    var a := AlignUp(align, word);
    var alignSize := AlignUp(size, word) + a;
    ghost var bs, h := m.blocks, m.heap[..];
    p, i := 0, 0;
    var ptr := m.Alloc(alignSize);
    q := None;
    if ptr.Some? {
      p, i := ptr.value, FirstFit(m.c, bs, m.c.Request(alignSize));
      ghost var h1, granted := m.heap[..], m.c.Request(alignSize);
      GrantedRoom(m.c, bs, m.end, i, granted);
      AddressAligned(base, p, m.c.align, word);
      var aligned := KeepAddress(m, base, word, ptr.value, size, a, i);
      HiddenWord(m.c, bs, m.end, i, granted, h, h1, aligned - word, Word(base + ptr.value));
      q := Some(aligned);
    }
  }

  /** `rt_free_align`: the hidden word leads back to the block. */
  method FreeAlign(m: SmallMem, base: nat, word: nat, q: nat, ghost p: nat, ghost i: nat, ghost size: nat)
    requires m.Valid() && Handed(m, base, word, i, p, q, size)
    modifies m, m.heap
    ensures m.Valid() && m.blocks == FreeAt(old(m.blocks), i)
    ensures SamePayload(m.c, m.blocks, old(m.heap[..]), m.heap[..])
  {
    hide Tiles, Agrees, NoTwoFree, UsedSum, LowestFree, FreeAt, SamePayload;
    var realPtr := m.heap[q - word].p - base;
    m.Free(realPtr, i);
  }

  lemma AddressAligned(base: nat, p: nat, a: nat, word: nat)
    requires a > 0 && word > 0 && a % word == 0 && base % a == 0 && p % a == 0
    ensures (base + p) % word == 0
  {
    AddAligned(base, p, a);
    MultipleOfMultiple(base + p, a, word);
  }

  lemma GrantedRoom(c: Config, bs: seq<Block>, end: nat, k: nat, size: nat)
    requires WF(c, bs, end) && k < |bs| && Fits(c, bs[k], size)
    ensures var r := AllocAt(c, bs, k, size); var p := bs[k].start + c.header;
      k < |r| && r[k].used && r[k].start == bs[k].start && p + size <= r[k].stop && p % c.align == 0
  {
    assert GoodBlock(c, bs[k]);
    AddAligned(bs[k].start, c.header, c.align);
  }

  /** The hidden word lies in a block that was free before. */
  lemma HiddenWord(c: Config, bs: seq<Block>, end: nat, k: nat, size: nat, h: seq<Cell>, h1: seq<Cell>, at: nat, x: Cell)
    requires c.Ok() && Tiles(c, bs, 0, end) && k < |bs| && Fits(c, bs[k], size)
    requires bs[k].start + c.header <= at < bs[k].start + c.header + size
    requires SamePayload(c, bs, h, h1) && at < |h1|
    ensures SamePayload(c, bs, h, h1[at := x])
  {
    NotPayload(c, bs, 0, end, k, at);
  }

  /** Allocating aligned and freeing again restores the heap's layout. */
  method AlignedRoundTrip(m: SmallMem, base: nat, word: nat, size: nat, align: nat)
    requires m.Valid() && word > 0 && align > 0 && m.c.align % word == 0 && base % m.c.align == 0
    modifies m, m.heap
    ensures m.Valid() && m.blocks == old(m.blocks)
  {
    hide Tiles, Agrees, NoTwoFree, UsedSum, LowestFree, AllocAt, FreeAt, SamePayload, Handed;
    ghost var bs := m.blocks;
    var q, p, i := MallocAlign(m, base, word, size, align);
    if q.Some? {
      AllocThenFree(m.c, bs, m.end, i, m.c.Request(AlignUp(size, word) + AlignUp(align, word)));
      FreeAlign(m, base, word, q.value, p, i, size);
    }
  }
}
