/** A table of ready lists, one per priority, with its bitmap: one word for up to 32
    priorities, a word over 32 bytes for more. */
module ReadyLists {
  import opened Common
  import opened Bits

  /** RT_THREAD_PRIORITY_MAX is at most this. */
  const MAX_LEVELS: nat := 256

  /** What -1 is as an unsigned priority: less urgent than any other. */
  const NO_PRIO: nat := 0xFFFF_FFFF

  /** The state proper of a thread's status word. */
  datatype Stat = Init | Closed | Ready | Running | Suspended

  /** `number`, `number_mask` and `high_mask`, kept by a thread for its current priority. */
  datatype Attr = Attr(number: nat, numberMask: bv32, highMask: bv32)

  function AttrOf(levels: nat, prio: nat): Attr
    requires prio < levels <= MAX_LEVELS
  {
    if levels > 32 then Attr(prio / 8, Mask(prio / 8), Mask(prio % 8)) else Attr(0, Mask(prio), 0)
  }

  /** The most urgent non-empty list by a plain scan; the number of lists if all are empty. */
  function Least(lists: seq<seq<nat>>): (p: nat)
    ensures p <= |lists|
    ensures forall q :: 0 <= q < p ==> lists[q] == []
    ensures p < |lists| ==> lists[p] != []
  {
    if lists == [] then 0
    else if lists[0] != [] then 0
    else
      var p := Least(lists[1..]);
      assert forall q :: 1 <= q < p + 1 ==> lists[q] == lists[1..][q - 1];
      p + 1
  }

  lemma LeastIs(lists: seq<seq<nat>>, p: nat)
    requires p <= |lists| && (forall q :: 0 <= q < p ==> lists[q] == []) && (p < |lists| ==> lists[p] != [])
    ensures Least(lists) == p
  {
  }

  // ---------------------------------------------------------------- one word

  ghost predicate FlatAgrees(lists: seq<seq<nat>>, group: bv32) {
    |lists| <= 32 && forall p: nat :: p < 32 ==> (Bit(group, p) <==> p < |lists| && lists[p] != [])
  }

  lemma FlatSet(lists: seq<seq<nat>>, group: bv32, p: nat, l: seq<nat>)
    requires FlatAgrees(lists, group) && p < |lists| && l != []
    ensures FlatAgrees(lists[p := l], WithBit(group, p))
  {
    hide Bit, WithBit;
    var w := WithBit(group, p);
    forall i: nat | i < 32 ensures Bit(w, i) <==> i < |lists| && lists[p := l][i] != [] { SetBit(group, p, i); }
  }

  lemma FlatClear(lists: seq<seq<nat>>, group: bv32, p: nat)
    requires FlatAgrees(lists, group) && p < |lists|
    ensures FlatAgrees(lists[p := []], WithoutBit(group, p))
  {
    hide Bit, WithoutBit;
    var w := WithoutBit(group, p);
    forall i: nat | i < 32 ensures Bit(w, i) <==> i < |lists| && lists[p := []][i] != [] { ClearBit(group, p, i); }
  }

  lemma FlatKeep(lists: seq<seq<nat>>, group: bv32, p: nat, l: seq<nat>)
    requires FlatAgrees(lists, group) && p < |lists| && (l == [] <==> lists[p] == [])
    ensures FlatAgrees(lists[p := l], group)
  {
    hide Bit, Mask;
  }

  lemma FlatPick(lists: seq<seq<nat>>, group: bv32)
    requires FlatAgrees(lists, group)
    ensures group == 0 <==> Least(lists) == |lists|
    ensures group != 0 ==> 0 < Ffs(group) && Ffs(group) - 1 == Least(lists)
    ensures group == 0 ==> Ffs(group) == 0
  {
    hide Bit, Ffs;
    var r := Ffs(group);
    FfsIsFirstSet(group);
    FirstSetIsLeast(group, r);
    ZeroIff(group);
    if group != 0 {
      assert Bit(group, r - 1);
      forall q | 0 <= q < r - 1 ensures lists[q] == [] { assert !Bit(group, q); }
      LeastIs(lists, r - 1);
    } else {
      forall q | 0 <= q < |lists| ensures lists[q] == [] { assert !Bit(group, q); }
      LeastIs(lists, |lists|);
    }
  }

  // ---------------------------------------------------------------- a word over bytes

  ghost predicate ByteAgrees(lists: seq<seq<nat>>, n: nat, byte: bv32) {
    forall b: nat :: b < 32 ==> (Bit(byte, b) <==> b < 8 && 8 * n + b < |lists| && lists[8 * n + b] != [])
  }

  ghost predicate DeepAgrees(lists: seq<seq<nat>>, group: bv32, table: seq<bv32>) {
    && |lists| <= MAX_LEVELS && |table| == 32
    && (forall n: nat :: n < 32 ==> ByteAgrees(lists, n, table[n]))
    && (forall n: nat :: n < 32 ==> (Bit(group, n) <==> table[n] != 0))
  }

  lemma ByteSet(lists: seq<seq<nat>>, n: nat, byte: bv32, p: nat, l: seq<nat>)
    requires ByteAgrees(lists, n, byte) && p < |lists| && p / 8 == n && l != []
    ensures ByteAgrees(lists[p := l], n, WithBit(byte, p % 8))
    ensures WithBit(byte, p % 8) != 0
  {
    hide Bit, WithBit;
    var w := WithBit(byte, p % 8);
    forall b: nat | b < 32 ensures Bit(w, b) <==> b < 8 && 8 * n + b < |lists| && lists[p := l][8 * n + b] != [] {
      SetBit(byte, p % 8, b);
    }
    SetBit(byte, p % 8, p % 8);
    ZeroIff(w);
  }

  lemma ByteClear(lists: seq<seq<nat>>, n: nat, byte: bv32, p: nat)
    requires ByteAgrees(lists, n, byte) && p < |lists| && p / 8 == n
    ensures ByteAgrees(lists[p := []], n, WithoutBit(byte, p % 8))
  {
    hide Bit, WithoutBit;
    var w := WithoutBit(byte, p % 8);
    forall b: nat | b < 32 ensures Bit(w, b) <==> b < 8 && 8 * n + b < |lists| && lists[p := []][8 * n + b] != [] {
      ClearBit(byte, p % 8, b);
    }
  }

  lemma ByteKeep(lists: seq<seq<nat>>, n: nat, byte: bv32, p: nat, l: seq<nat>)
    requires ByteAgrees(lists, n, byte) && p < |lists| && (p / 8 != n || (l == [] <==> lists[p] == []))
    ensures ByteAgrees(lists[p := l], n, byte)
  {
    hide Bit, Mask;
  }

  lemma DeepSet(lists: seq<seq<nat>>, group: bv32, table: seq<bv32>, p: nat, l: seq<nat>)
    requires DeepAgrees(lists, group, table) && p < |lists| && l != []
    ensures DeepAgrees(lists[p := l], WithBit(group, p / 8), table[p / 8 := WithBit(table[p / 8], p % 8)])
  {
    hide Bit, WithBit, ByteAgrees;
    var k, table' := p / 8, table[p / 8 := WithBit(table[p / 8], p % 8)];
    var w := WithBit(group, k);
    ByteSet(lists, k, table[k], p, l);
    forall n: nat | n < 32 ensures ByteAgrees(lists[p := l], n, table'[n]) {
      if n != k { ByteKeep(lists, n, table[n], p, l); }
    }
    forall n: nat | n < 32 ensures Bit(w, n) <==> table'[n] != 0 { SetBit(group, k, n); }
  }

  /** Clearing a list's bit, and the byte's bit in the group only if the byte became zero. */
  lemma DeepClear(lists: seq<seq<nat>>, group: bv32, table: seq<bv32>, p: nat)
    requires DeepAgrees(lists, group, table) && p < |lists|
    ensures var byte := WithoutBit(table[p / 8], p % 8);
      DeepAgrees(lists[p := []], if byte == 0 then WithoutBit(group, p / 8) else group, table[p / 8 := byte])
  {
    hide Bit, WithoutBit, ByteAgrees;
    var k, byte := p / 8, WithoutBit(table[p / 8], p % 8);
    var lists', table' := lists[p := []], table[k := byte];
    ByteClear(lists, k, table[k], p);
    forall n: nat | n < 32 ensures ByteAgrees(lists', n, table'[n]) {
      if n != k { ByteKeep(lists, n, table[n], p, []); }
    }
    var w := if byte == 0 then WithoutBit(group, k) else group;
    forall n: nat | n < 32 ensures Bit(w, n) <==> table'[n] != 0 {
      if byte == 0 { ClearBit(group, k, n); } else { ClearedByte(table[k], p % 8); }
    }
  }

  lemma ClearedByte(byte: bv32, b: nat)
    requires b < 8 && WithoutBit(byte, b) != 0
    ensures byte != 0
  {
    hide Mask;
  }

  lemma DeepKeep(lists: seq<seq<nat>>, group: bv32, table: seq<bv32>, p: nat, l: seq<nat>)
    requires DeepAgrees(lists, group, table) && p < |lists| && (l == [] <==> lists[p] == [])
    ensures DeepAgrees(lists[p := l], group, table)
  {
    hide Bit, Mask, ByteAgrees;
    forall n: nat | n < 32 ensures ByteAgrees(lists[p := l], n, table[n]) { ByteKeep(lists, n, table[n], p, l); }
  }

  /** Empty bytes stand for empty lists. */
  lemma ZeroByte(lists: seq<seq<nat>>, n: nat, byte: bv32, q: nat)
    requires ByteAgrees(lists, n, byte) && byte == 0 && q < |lists| && q / 8 == n
    ensures lists[q] == []
  {
    hide Bit, Mask;
    ZeroIff(byte);
    assert !Bit(byte, q % 8);
  }

  /** First the first byte, then the first bit in it. */
  lemma DeepPick(lists: seq<seq<nat>>, group: bv32, table: seq<bv32>)
    requires DeepAgrees(lists, group, table)
    ensures group == 0 <==> Least(lists) == |lists|
    ensures group == 0 ==> Ffs(group) == 0
    ensures group != 0 ==> 0 < Ffs(group) <= 32 && 0 < Ffs(table[Ffs(group) - 1]) <= 8
    ensures group != 0 ==> 8 * (Ffs(group) - 1) + Ffs(table[Ffs(group) - 1]) - 1 == Least(lists)
  {
    hide Bit, Ffs, ByteAgrees;
    FfsIsFirstSet(group);
    FirstSetIsLeast(group, Ffs(group));
    ZeroIff(group);
    if group == 0 {
      forall q | 0 <= q < |lists| ensures lists[q] == [] {
        assert !Bit(group, q / 8);
        ZeroByte(lists, q / 8, table[q / 8], q);
      }
      LeastIs(lists, |lists|);
    } else {
      var n := Ffs(group) - 1;
      assert Bit(group, n);
      PickInByte(lists, n, table[n]);
      var p := 8 * n + Ffs(table[n]) - 1;
      forall q | 0 <= q < p ensures lists[q] == [] {
        if q / 8 < n { assert !Bit(group, q / 8); ZeroByte(lists, q / 8, table[q / 8], q); }
      }
      LeastIs(lists, p);
    }
  }

  lemma PickInByte(lists: seq<seq<nat>>, n: nat, byte: bv32)
    requires ByteAgrees(lists, n, byte) && byte != 0
    ensures 0 < Ffs(byte) <= 8
    ensures var p := 8 * n + Ffs(byte) - 1;
      p < |lists| && lists[p] != [] && forall q :: 8 * n <= q < p ==> lists[q] == []
  {
    hide Bit, Ffs;
    FfsIsFirstSet(byte);
    FirstSetIsLeast(byte, Ffs(byte));
    assert Bit(byte, Ffs(byte) - 1);
    forall q | 8 * n <= q < 8 * n + Ffs(byte) - 1 ensures lists[q] == [] { assert !Bit(byte, q - 8 * n); }
  }

  // ---------------------------------------------------------------- the table

  class ReadyQueue {
    const levels: nat
    var lists: seq<seq<nat>>
    var group: bv32
    var table: seq<bv32>

    /** A priority's bit is set exactly if its list is not empty. */
    ghost predicate Valid()
      reads this
    {
      && 0 < levels <= MAX_LEVELS && |lists| == levels && |table| == 32
      && (if levels > 32 then DeepAgrees(lists, group, table) else FlatAgrees(lists, group))
    }

    /** `rt_system_scheduler_init`. */
    constructor (levels: nat)
      requires 0 < levels <= MAX_LEVELS
      ensures Valid() && this.levels == levels && lists == seq(levels, p => [])
    {
      this.levels := levels;
      lists := seq(levels, p => []);
      group := 0;
      table := seq(32, n => 0);
      new;
      ZeroIff(0);
    }

    /** "set priority mask". */
    method SetBits(prio: nat, a: Attr)
      requires prio < levels <= MAX_LEVELS && |table| == 32 && a == AttrOf(levels, prio)
      modifies this`group, this`table
      ensures levels > 32 ==> table == old(table)[prio / 8 := WithBit(old(table)[prio / 8], prio % 8)] && group == WithBit(old(group), prio / 8)
      ensures levels <= 32 ==> table == old(table) && group == WithBit(old(group), prio)
    {
      hide Mask, Or, AndNot;
      if levels > 32 {
        table := table[a.number := Or(table[a.number], a.highMask)];
      }
      group := Or(group, a.numberMask);
    }

    /** The bits of a list that became empty. */
    method ClearBits(prio: nat, a: Attr)
      requires prio < levels <= MAX_LEVELS && |table| == 32 && a == AttrOf(levels, prio)
      modifies this`group, this`table
      ensures levels > 32 ==>
        var byte := WithoutBit(old(table)[prio / 8], prio % 8);
        table == old(table)[prio / 8 := byte] && group == if byte == 0 then WithoutBit(old(group), prio / 8) else old(group)
      ensures levels <= 32 ==> table == old(table) && group == WithoutBit(old(group), prio)
    {
      hide Mask, Or, AndNot;
      if levels > 32 {
        table := table[a.number := AndNot(table[a.number], a.highMask)];
        if table[a.number] == 0 {
          group := AndNot(group, a.numberMask);
        }
      } else {
        group := AndNot(group, a.numberMask);
      }
    }

    /** Link a thread into its list, at the back if its slice is used up, and set its bits. */
    method Insert(t: nat, prio: nat, a: Attr, yielded: bool)
      requires Valid() && prio < levels && a == AttrOf(levels, prio)
      modifies this
      ensures Valid() && lists == old(lists)[prio := if yielded then old(lists)[prio] + [t] else [t] + old(lists)[prio]]
    {
      hide WithBit, AttrOf, DeepAgrees, FlatAgrees;
      var l := if yielded then lists[prio] + [t] else [t] + lists[prio];
      if levels > 32 { DeepSet(lists, group, table, prio, l); } else { FlatSet(lists, group, prio, l); }
      lists := lists[prio := l];
      SetBits(prio, a);
    }

    /** Unlink a thread and clear the bits of a list that became empty. */
    method RemoveThread(t: nat, prio: nat, a: Attr)
      requires Valid() && prio < levels && a == AttrOf(levels, prio)
      modifies this
      ensures Valid() && lists == old(lists)[prio := Remove(old(lists)[prio], t)]
    {
      hide WithoutBit, AttrOf, DeepAgrees, FlatAgrees;
      var l := Remove(lists[prio], t);
      if l == [] {
        if levels > 32 { DeepClear(lists, group, table, prio); } else { FlatClear(lists, group, prio); }
      } else {
        if levels > 32 { DeepKeep(lists, group, table, prio, l); } else { FlatKeep(lists, group, prio, l); }
      }
      lists := lists[prio := l];
      if lists[prio] == [] {
        ClearBits(prio, a);
      }
    }

    lemma EmptyGroup()
      requires Valid()
      ensures group == 0 <==> Least(lists) == |lists|
    {
      if levels > 32 { DeepPick(lists, group, table); } else { FlatPick(lists, group); }
    }

    /** The bitmap pick of `_scheduler_get_highest_priority_thread` is the plain scan. */
    method Highest() returns (p: nat)
      requires Valid() && group != 0
      ensures p == Least(lists) && p < levels
    {
      hide DeepAgrees, FlatAgrees, Ffs;
      if levels > 32 {
        DeepPick(lists, group, table);
        var number := Ffs(group) - 1;
        p := 8 * number + Ffs(table[number]) - 1;
      } else {
        FlatPick(lists, group);
        p := Ffs(group) - 1;
      }
    }

    /** `_get_global_highest_ready_prio` and its per-CPU twin, -1 read as unsigned. */
    method HighestOrNone() returns (p: nat)
      requires Valid()
      ensures p == if Least(lists) < levels then Least(lists) else NO_PRIO
    {
      hide DeepAgrees, FlatAgrees, Ffs;
      p := NO_PRIO;
      if levels > 32 {
        DeepPick(lists, group, table);
        var number := Ffs(group);
        if number != 0 {
          p := 8 * (number - 1) + Ffs(table[number - 1]) - 1;
        }
      } else {
        FlatPick(lists, group);
        if Ffs(group) != 0 {
          p := Ffs(group) - 1;
        }
      }
    }
  }
}
