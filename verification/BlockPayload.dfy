/** The payload of live blocks: which cells it is, and what leaves it alone. */
module BlockPayload {
  import opened Common
  import opened Alignment
  import opened BlockRow

  // ---------------------------------------------------------------- live payload

  /** `a` is a payload address of a used block. */
  ghost predicate InUsed(c: Config, bs: seq<Block>, a: nat) {
    exists k :: 0 <= k < |bs| && bs[k].used && bs[k].start + c.header <= a < bs[k].stop
  }

  /** `a` is a payload address of a used block other than block `i`. */
  ghost predicate InOther(c: Config, bs: seq<Block>, i: nat, a: nat) {
    exists k :: 0 <= k < |bs| && k != i && bs[k].used && bs[k].start + c.header <= a < bs[k].stop
  }

  /** Header addresses are never payload, nor is anything inside a free block. */
  lemma NotPayload(c: Config, bs: seq<Block>, from: nat, to: nat, i: nat, a: nat)
    requires c.Ok() && Tiles(c, bs, from, to) && i < |bs|
    requires a == bs[i].start || a == to || (!bs[i].used && bs[i].start <= a < bs[i].stop)
    ensures !InUsed(c, bs, a)
  {
    AllOrdered(c, bs, from, to);
    assert GoodBlock(c, bs[i]);
  }

  lemma StopNotPayload(c: Config, bs: seq<Block>, end: nat, i: nat)
    requires c.Ok() && Tiles(c, bs, 0, end) && i < |bs|
    ensures !InUsed(c, bs, bs[i].stop)
  {
    if i + 1 < |bs| { NotPayload(c, bs, 0, end, i + 1, bs[i + 1].start); } else { NotPayload(c, bs, 0, end, i, end); }
  }

  lemma SpliceInUsed(c: Config, bs: seq<Block>, lo: nat, hi: nat, mid: seq<Block>, a: nat)
    requires lo <= hi <= |bs|
    ensures InUsed(c, Splice(bs, lo, hi, mid), a) <==> InUsed(c, bs[..lo], a) || InUsed(c, mid, a) || InUsed(c, bs[hi..], a)
  {
    var r := Splice(bs, lo, hi, mid);
    var n := lo + |mid|;
    if k :| 0 <= k < |bs[..lo]| && bs[..lo][k].used && bs[..lo][k].start + c.header <= a < bs[..lo][k].stop {
      assert r[k] == bs[..lo][k];
    }
    if k :| 0 <= k < |mid| && mid[k].used && mid[k].start + c.header <= a < mid[k].stop {
      assert r[lo + k] == mid[k];
    }
    if k :| 0 <= k < |bs[hi..]| && bs[hi..][k].used && bs[hi..][k].start + c.header <= a < bs[hi..][k].stop {
      assert r[n + k] == bs[hi..][k];
    }
    if k :| 0 <= k < |r| && r[k].used && r[k].start + c.header <= a < r[k].stop {
      if k < lo { assert bs[..lo][k] == r[k]; }
      else if k < n { assert mid[k - lo] == r[k]; }
      else { assert bs[hi..][k - n] == r[k]; }
    }
  }

  lemma SplitInUsed(c: Config, bs: seq<Block>, lo: nat, hi: nat, a: nat)
    requires lo <= hi <= |bs|
    ensures InUsed(c, bs, a) <==> InUsed(c, bs[..lo], a) || InUsed(c, bs[lo..hi], a) || InUsed(c, bs[hi..], a)
  {
    assert bs == Splice(bs, lo, hi, bs[lo..hi]);
    SpliceInUsed(c, bs, lo, hi, bs[lo..hi], a);
  }

  lemma MergeInUsed(c: Config, bs: seq<Block>, i: nat, a: nat)
    requires i < |bs| && !bs[i].used
    ensures InUsed(c, MergeRight(bs, i), a) <==> InUsed(c, bs, a)
  {
    if i + 1 < |bs| && !bs[i + 1].used {
      SpliceInUsed(c, bs, i, i + 2, [Block(bs[i].start, bs[i + 1].stop, false)], a);
      SplitInUsed(c, bs, i, i + 2, a);
    }
  }

  /** Merging free blocks moves no live payload. */
  lemma PlugHolesInUsed(c: Config, bs: seq<Block>, i: nat, a: nat)
    requires i < |bs| && !bs[i].used
    ensures InUsed(c, PlugHoles(bs, i), a) <==> InUsed(c, bs, a)
  {
    MergeInUsed(c, bs, i, a);
    var r := MergeRight(bs, i);
    LeftIsRight(r, i);
    if i > 0 && !r[i - 1].used { MergeInUsed(c, r, i - 1, a); }
  }

  /** Allocation adds live payload and takes none away. */
  lemma AllocInUsed(c: Config, bs: seq<Block>, i: nat, size: nat, a: nat)
    requires c.Ok() && i < |bs| && !bs[i].used && InUsed(c, bs, a)
    ensures InUsed(c, AllocAt(c, bs, i, size), a)
  {
    var b := bs[i];
    SplitInUsed(c, bs, i, i + 1, a);
    SpliceInUsed(c, bs, i, i + 1, [Block(b.start, b.start + c.header + size, true), Block(b.start + c.header + size, b.stop, false)], a);
    SpliceInUsed(c, bs, i, i + 1, [b.(used := true)], a);
    assert bs[i := b.(used := true)] == Splice(bs, i, i + 1, [b.(used := true)]);
  }

  /** Freeing takes away the payload of the freed block and nothing else. */
  lemma FreeInUsed(c: Config, bs: seq<Block>, i: nat, a: nat)
    requires i < |bs|
    ensures InUsed(c, FreeAt(bs, i), a) <==> InUsed(c, bs[..i], a) || InUsed(c, bs[i + 1..], a)
  {
    var f := bs[i].(used := false);
    SpliceInUsed(c, bs, i, i + 1, [f], a);
    assert bs[i := f] == Splice(bs, i, i + 1, [f]);
    PlugHolesInUsed(c, bs[i := f], i, a);
  }

  lemma OtherIsUsed(c: Config, bs: seq<Block>, i: nat)
    requires i < |bs|
    ensures forall a: nat :: InOther(c, bs, i, a) ==> InUsed(c, bs, a)
  {
  }

  lemma OwnIsUsed(c: Config, bs: seq<Block>, i: nat)
    requires i < |bs| && bs[i].used
    ensures forall a: nat :: bs[i].start + c.header <= a < bs[i].stop ==> InUsed(c, bs, a)
  {
  }

  lemma OtherSurvivesFree(c: Config, bs: seq<Block>, i: nat, a: nat)
    requires i < |bs| && InOther(c, bs, i, a)
    ensures InUsed(c, FreeAt(bs, i), a)
  {
    var k :| 0 <= k < |bs| && k != i && bs[k].used && bs[k].start + c.header <= a < bs[k].stop;
    if k < i { assert bs[..i][k] == bs[k]; } else { assert bs[i + 1..][k - i - 1] == bs[k]; }
    FreeInUsed(c, bs, i, a);
  }

  lemma OthersAfterFree(c: Config, bs: seq<Block>, i: nat)
    requires i < |bs|
    ensures forall a: nat :: InOther(c, bs, i, a) ==> InUsed(c, FreeAt(bs, i), a)
  {
    forall a: nat | InOther(c, bs, i, a) ensures InUsed(c, FreeAt(bs, i), a) { OtherSurvivesFree(c, bs, i, a); }
  }

  /** Live payload outside block `i` is live outside its shifted position after an allocation. */
  lemma OtherSurvivesAlloc(c: Config, bs: seq<Block>, k: nat, size: nat, i: nat, a: nat)
    requires c.Ok() && k < |bs| && i < |bs| && i != k && !bs[k].used && InOther(c, bs, i, a)
    ensures InOther(c, AllocAt(c, bs, k, size), Shifted(c, bs, k, size, i), a)
  {
    var j :| 0 <= j < |bs| && j != i && bs[j].used && bs[j].start + c.header <= a < bs[j].stop;
    AllocShifts(c, bs, k, size, i);
    AllocShifts(c, bs, k, size, j);
    assert Shifted(c, bs, k, size, j) != Shifted(c, bs, k, size, i);
  }

  /** After a shrink the kept part of the block and all other used blocks are still live. */
  lemma ShrinkPayload(c: Config, bs: seq<Block>, i: nat, n: nat)
    requires i < |bs|
    ensures forall a: nat :: InOther(c, bs, i, a) ==> InUsed(c, ShrinkAt(c, bs, i, n), a)
    ensures forall a: nat :: bs[i].start + c.header <= a < bs[i].start + c.header + n ==> InUsed(c, ShrinkAt(c, bs, i, n), a)
  {
    var f := CutAt(c, bs, i, n);
    forall a: nat | InOther(c, bs, i, a) || bs[i].start + c.header <= a < bs[i].start + c.header + n
      ensures InUsed(c, ShrinkAt(c, bs, i, n), a)
    {
      if InOther(c, bs, i, a) {
        var k :| 0 <= k < |bs| && k != i && bs[k].used && bs[k].start + c.header <= a < bs[k].stop;
        assert f[if k < i then k else k + 1] == bs[k];
      } else {
        assert f[i] == Block(bs[i].start, bs[i].start + c.header + n, true);
      }
      PlugHolesInUsed(c, f, i + 1, a);
    }
  }

  // ---------------------------------------------------------------- what stays where it is

  ghost predicate SamePayload<T>(c: Config, bs: seq<Block>, h0: seq<T>, h1: seq<T>) {
    |h0| == |h1| && forall a: nat :: a < |h0| && InUsed(c, bs, a) ==> h1[a] == h0[a]
  }

  lemma PlugPayload<T>(c: Config, fs: seq<Block>, i: nat, h: seq<T>, h1: seq<T>, h2: seq<T>)
    requires i < |fs| && !fs[i].used
    requires SamePayload(c, fs, h, h1) && SamePayload(c, fs, h1, h2)
    ensures SamePayload(c, PlugHoles(fs, i), h, h2)
  {
    forall a: nat | a < |h| && InUsed(c, PlugHoles(fs, i), a) ensures h2[a] == h[a] {
      PlugHolesInUsed(c, fs, i, a);
    }
  }

  /** What is live after a free was live before. */
  lemma FreedPayload<T>(c: Config, bs: seq<Block>, i: nat, h: seq<T>, h': seq<T>)
    requires i < |bs| && SamePayload(c, bs, h, h')
    ensures SamePayload(c, FreeAt(bs, i), h, h')
  {
    forall a: nat | a < |h| && InUsed(c, FreeAt(bs, i), a) ensures h'[a] == h[a] {
      FreeInUsed(c, bs, i, a);
      SplitInUsed(c, bs, i, i + 1, a);
    }
  }

  /** `len` cells from `p` before are found from `q` on afterwards. */
  ghost predicate Copied<T>(h0: seq<T>, p: nat, h1: seq<T>, q: nat, len: nat) {
    p + len <= |h0| && q + len <= |h1| && h1[q..q + len] == h0[p..p + len]
  }

  /** Live payload that keeps its place. */
  lemma StaysCopied<T>(c: Config, bs: seq<Block>, h: seq<T>, h': seq<T>, p: nat, len: nat)
    requires SamePayload(c, bs, h, h') && p + len <= |h|
    requires forall a: nat :: p <= a < p + len ==> InUsed(c, bs, a)
    ensures Copied(h, p, h', p, len)
  {
    var now, was := h'[p..p + len], h[p..p + len];
    forall x: nat | x < |now| ensures now[x] == was[x] { assert InUsed(c, bs, p + x); }
  }

  /** Live payload stays through an allocation and the free that undoes it. */
  lemma AllocFreePayload<T>(c: Config, bs: seq<Block>, k: nat, size: nat, h: seq<T>, h1: seq<T>, h2: seq<T>)
    requires c.Ok() && k < |bs| && !bs[k].used
    requires SamePayload(c, bs, h, h1) && SamePayload(c, AllocAt(c, bs, k, size), h1, h2)
    ensures SamePayload(c, bs, h, h2)
  {
    forall a: nat | a < |h| && InUsed(c, bs, a) ensures h2[a] == h[a] { AllocInUsed(c, bs, k, size, a); }
  }

  /** `len` cells from `src` laid over the cells from `dst` on. */
  function CopyPrefix<T>(h: seq<T>, dst: nat, src: nat, len: nat): seq<T>
    requires src + len <= |h| && dst + len <= |h|
  {
    h[..dst] + h[src..src + len] + h[dst + len..]
  }

  lemma CopyNone<T>(h: seq<T>, dst: nat, src: nat)
    requires src <= |h| && dst <= |h|
    ensures CopyPrefix(h, dst, src, 0) == h
  {
  }

  lemma CopyStep<T>(h: seq<T>, dst: nat, src: nat, x: nat)
    requires src + x < |h| && dst + x < |h| && (src + x < dst || dst + x <= src)
    ensures var g := CopyPrefix(h, dst, src, x);
      |g| == |h| && g[dst + x := g[src + x]] == CopyPrefix(h, dst, src, x + 1)
  {
  }

  /** The copy and all live payload outside the freed block survive the free. */
  lemma FreeKeepsCopy<T>(c: Config, bs: seq<Block>, i: nat, j: nat, h: seq<T>, h1: seq<T>, h2: seq<T>, p: nat, q: nat, len: nat)
    requires c.Ok() && i < |bs| && Live(c, bs, j, q) && i != j && q + len <= bs[j].stop
    requires p + len <= |h| && q + len <= |h| && h1 == CopyPrefix(h, q, p, len)
    requires SamePayload(c, FreeAt(bs, i), h1, h2)
    ensures Copied(h, p, h2, q, len)
    ensures forall a: nat :: a < |h| && InOther(c, bs, i, a) && !(q <= a < q + len) ==> h2[a] == h[a]
  {
    forall a: nat | a < |h| && InOther(c, bs, i, a) ensures h2[a] == h1[a] { OtherSurvivesFree(c, bs, i, a); }
    var copy, orig := h2[q..q + len], h[p..p + len];
    forall x: nat | x < |copy| ensures copy[x] == orig[x] {
      assert InOther(c, bs, i, q + x);
    }
  }

  /** Allocation, copy and free together: the payload moved, all other live payload stayed. */
  lemma MoveSummary<T>(c: Config, bs: seq<Block>, end: nat, i: nat, k: nat, size: nat,
                    h: seq<T>, h1: seq<T>, h2: seq<T>, len: nat)
    requires c.Ok() && Tiles(c, bs, 0, end) && i < |bs| && k < |bs| && i != k && Fits(c, bs[k], size) && bs[i].used
    requires len <= size && len <= Payload(c, bs[i]) && |h| == |h2|
    requires SamePayload(c, bs, h, h1)
    requires Copied(h1, bs[i].start + c.header, h2, bs[k].start + c.header, len)
    requires forall a: nat ::
      (a < |h1| && InOther(c, AllocAt(c, bs, k, size), Shifted(c, bs, k, size, i), a)
       && !(bs[k].start + c.header <= a < bs[k].start + c.header + len)) ==> h2[a] == h1[a]
    ensures Copied(h, bs[i].start + c.header, h2, bs[k].start + c.header, len)
    ensures forall a: nat :: a < |h| && InOther(c, bs, i, a) ==> h2[a] == h[a]
  {
    var p := bs[i].start + c.header;
    OtherIsUsed(c, bs, i);
    var from, orig := h1[p..p + len], h[p..p + len];
    forall x: nat | x < |from| ensures from[x] == orig[x] { assert InUsed(c, bs, p + x); }
    forall a: nat | a < |h| && InOther(c, bs, i, a) ensures h2[a] == h[a] {
      OtherSurvivesAlloc(c, bs, k, size, i, a);
      if bs[k].start <= a < bs[k].stop { NotPayload(c, bs, 0, end, k, a); }
    }
  }
}
