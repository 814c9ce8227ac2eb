/** Bit masks and `__rt_ffs`, both variants. */
module Bits {

  function Mask(p: nat): bv32
    requires p < 32
  {
    (1 as bv32) << p
  }

  function And(v: bv32, mask: bv32): bv32 { v & mask }

  predicate Bit(v: bv32, i: nat)
    requires i < 32
  {
    And(v, Mask(i)) != 0
  }

  /** `r` numbers the least significant set bit from 1; it is 0 if there is none. */
  predicate FirstSet(v: bv32, r: nat) {
    if v == 0 then r == 0 else 1 <= r <= 32 && Bit(v, r - 1) && v & (Mask(r - 1) - 1) == 0
  }

  // ---------------------------------------------------------------- masks

  lemma MasksDiffer(i: nat, j: nat)
    requires i < 32 && j < 32
    ensures Mask(i) != 0
    ensures i != j ==> And(Mask(i), Mask(j)) == 0
  {
  }

  lemma MaskBelow(i: nat, j: nat)
    requires i < j < 32
    ensures Mask(i) & (Mask(j) - 1) == Mask(i)
  {
  }

  /** `v |= mask`. */
  function Or(v: bv32, mask: bv32): bv32 { v | mask }

  /** `v &= ~mask`. */
  function AndNot(v: bv32, mask: bv32): bv32 { v & !mask }

  function WithBit(v: bv32, p: nat): bv32
    requires p < 32
  {
    Or(v, Mask(p))
  }

  function WithoutBit(v: bv32, p: nat): bv32
    requires p < 32
  {
    AndNot(v, Mask(p))
  }

  lemma OrAnd(v: bv32, a: bv32, b: bv32)
    ensures And(Or(v, a), a) == a
    ensures And(a, b) == 0 ==> And(Or(v, a), b) == And(v, b)
  {
  }

  lemma AndNotAnd(v: bv32, a: bv32, b: bv32)
    ensures And(AndNot(v, a), a) == 0
    ensures And(a, b) == 0 ==> And(AndNot(v, a), b) == And(v, b)
  {
  }

  lemma SetBit(v: bv32, p: nat, i: nat)
    requires p < 32 && i < 32
    ensures Bit(WithBit(v, p), i) <==> i == p || Bit(v, i)
  {
    hide Mask, Or, And;
    MasksDiffer(p, i);
    OrAnd(v, Mask(p), Mask(i));
  }

  lemma ClearBit(v: bv32, p: nat, i: nat)
    requires p < 32 && i < 32
    ensures Bit(WithoutBit(v, p), i) <==> i != p && Bit(v, i)
  {
    hide Mask, AndNot, And;
    MasksDiffer(p, i);
    AndNotAnd(v, Mask(p), Mask(i));
  }

  lemma LowBitsClear(v: bv32, k: nat)
    requires k < 32 && (forall i: nat :: i < 32 ==> !Bit(v, i))
    ensures v & (Mask(k) - 1) == 0
  {
    if k > 0 {
      LowBitsClear(v, k - 1);
      assert !Bit(v, k - 1);
      NextMask(v, k - 1);
    }
  }

  lemma NextMask(v: bv32, k: nat)
    requires k < 31 && v & (Mask(k) - 1) == 0 && v & Mask(k) == 0
    ensures v & (Mask(k + 1) - 1) == 0
  {
    assert Mask(k + 1) - 1 == (Mask(k) - 1) | Mask(k);
  }

  lemma NoBitIsZero(v: bv32)
    requires forall i: nat :: i < 32 ==> !Bit(v, i)
    ensures v == 0
  {
    LowBitsClear(v, 31);
    assert !Bit(v, 31);
    assert Mask(31) == 0x8000_0000;
  }

  lemma ZeroIff(v: bv32)
    ensures v == 0 <==> forall i: nat :: i < 32 ==> !Bit(v, i)
  {
    if forall i: nat :: i < 32 ==> !Bit(v, i) { NoBitIsZero(v); }
  }

  lemma BelowFirstSet(v: bv32, k: nat, i: nat)
    requires i < k < 32 && v & (Mask(k) - 1) == 0
    ensures !Bit(v, i)
  {
    MaskBelow(i, k);
    BelowClear(v, Mask(i), Mask(k) - 1);
  }

  lemma LowestIsFirstSet(v: bv32, k: nat)
    requires k < 32 && Bit(v, k) && v & (Mask(k) - 1) == 0
    ensures FirstSet(v, k + 1)
  {
    hide Mask;
  }

  /** The first set bit is the least index of a set bit. */
  lemma FirstSetIsLeast(v: bv32, r: nat)
    requires FirstSet(v, r)
    ensures r <= 32 && (r == 0 <==> v == 0)
    ensures r > 0 ==> Bit(v, r - 1) && forall i: nat :: i < r - 1 ==> !Bit(v, i)
  {
    hide Mask, Bit;
    if r > 0 {
      forall i: nat | i < r - 1 ensures !Bit(v, i) { BelowFirstSet(v, r - 1, i); }
    }
  }

  lemma BelowClear(v: bv32, m: bv32, low: bv32)
    requires m & low == m && v & low == 0
    ensures v & m == 0
  {
  }

  // ---------------------------------------------------------------- __rt_ffs with the table of bytes

  /** Index of the lowest set bit of a byte, in rows of sixteen. */
  const LOWEST_BIT: seq<seq<nat>> := [
    [0, 0, 1, 0, 2, 0, 1, 0, 3, 0, 1, 0, 2, 0, 1, 0],
    [4, 0, 1, 0, 2, 0, 1, 0, 3, 0, 1, 0, 2, 0, 1, 0],
    [5, 0, 1, 0, 2, 0, 1, 0, 3, 0, 1, 0, 2, 0, 1, 0],
    [4, 0, 1, 0, 2, 0, 1, 0, 3, 0, 1, 0, 2, 0, 1, 0],
    [6, 0, 1, 0, 2, 0, 1, 0, 3, 0, 1, 0, 2, 0, 1, 0],
    [4, 0, 1, 0, 2, 0, 1, 0, 3, 0, 1, 0, 2, 0, 1, 0],
    [5, 0, 1, 0, 2, 0, 1, 0, 3, 0, 1, 0, 2, 0, 1, 0],
    [4, 0, 1, 0, 2, 0, 1, 0, 3, 0, 1, 0, 2, 0, 1, 0],
    [7, 0, 1, 0, 2, 0, 1, 0, 3, 0, 1, 0, 2, 0, 1, 0],
    [4, 0, 1, 0, 2, 0, 1, 0, 3, 0, 1, 0, 2, 0, 1, 0],
    [5, 0, 1, 0, 2, 0, 1, 0, 3, 0, 1, 0, 2, 0, 1, 0],
    [4, 0, 1, 0, 2, 0, 1, 0, 3, 0, 1, 0, 2, 0, 1, 0],
    [6, 0, 1, 0, 2, 0, 1, 0, 3, 0, 1, 0, 2, 0, 1, 0],
    [4, 0, 1, 0, 2, 0, 1, 0, 3, 0, 1, 0, 2, 0, 1, 0],
    [5, 0, 1, 0, 2, 0, 1, 0, 3, 0, 1, 0, 2, 0, 1, 0],
    [4, 0, 1, 0, 2, 0, 1, 0, 3, 0, 1, 0, 2, 0, 1, 0]
  ]

  lemma LowestBitColumns(r: nat, k: nat)
    requires r < 16 && k < 16
    ensures |LOWEST_BIT| == 16 && |LOWEST_BIT[r]| == 16
    ensures k > 0 ==> LOWEST_BIT[r][k] == [0, 0, 1, 0, 2, 0, 1, 0, 3, 0, 1, 0, 2, 0, 1, 0][k]
    ensures k == 0 ==> LOWEST_BIT[r][k] == [0, 4, 5, 4, 6, 4, 5, 4, 7, 4, 5, 4, 6, 4, 5, 4][r]
  {
  }

  function LowestBit(x: bv32): (r: nat)
    requires x < 256
    ensures r < 8
    ensures x != 0 ==> Bit(x, r) && x & (Mask(r) - 1) == 0
  {
    var row, column := (x >> 4) as nat, (x & 15) as nat;
    LowestBitColumns(row, column);
    LOWEST_BIT[row][column]
  }

  lemma MaskInByte(r: nat)
    requires r < 8
    ensures Mask(r) < 256
    ensures Mask(r + 8) == Mask(r) << 8 && Mask(r + 16) == Mask(r) << 16 && Mask(r + 24) == Mask(r) << 24
  {
  }

  /** A lowest bit of the first non-zero byte is the lowest bit of the word. */
  lemma FirstByte(v: bv32, m: bv32)
    requires m < 256 && v & 0xff & m != 0 && v & 0xff & (m - 1) == 0
    ensures v & m != 0 && v & (m - 1) == 0
  {
  }

  lemma SecondByte(v: bv32, m: bv32)
    requires m < 256 && v & 0xff == 0 && ((v & 0xff00) >> 8) & m != 0 && ((v & 0xff00) >> 8) & (m - 1) == 0
    ensures v & (m << 8) != 0 && v & ((m << 8) - 1) == 0
  {
  }

  lemma ThirdByte(v: bv32, m: bv32)
    requires m < 256 && v & 0xffff == 0 && ((v & 0xff_0000) >> 16) & m != 0 && ((v & 0xff_0000) >> 16) & (m - 1) == 0
    ensures v & (m << 16) != 0 && v & ((m << 16) - 1) == 0
  {
  }

  lemma FourthByte(v: bv32, m: bv32)
    requires m < 256 && v & 0xff_ffff == 0 && ((v & 0xff00_0000) >> 24) & m != 0 && ((v & 0xff00_0000) >> 24) & (m - 1) == 0
    ensures v & (m << 24) != 0 && v & ((m << 24) - 1) == 0
  {
  }

  lemma InFirstByte(v: bv32)
    requires v & 0xff != 0
    ensures FirstSet(v, LowestBit(v & 0xff) + 1)
  {
    hide LowestBit, Mask, FirstSet;
    var r := LowestBit(v & 0xff);
    MaskInByte(r);
    FirstByte(v, Mask(r));
    LowestIsFirstSet(v, r);
  }

  lemma InSecondByte(v: bv32)
    requires v & 0xff == 0 && v & 0xff00 != 0
    ensures FirstSet(v, LowestBit((v & 0xff00) >> 8) + 9)
  {
    hide LowestBit, Mask, FirstSet;
    var r := LowestBit((v & 0xff00) >> 8);
    MaskInByte(r);
    SecondByte(v, Mask(r));
    LowestIsFirstSet(v, r + 8);
  }

  lemma InThirdByte(v: bv32)
    requires v & 0xffff == 0 && v & 0xff_0000 != 0
    ensures FirstSet(v, LowestBit((v & 0xff_0000) >> 16) + 17)
  {
    hide LowestBit, Mask, FirstSet;
    var r := LowestBit((v & 0xff_0000) >> 16);
    MaskInByte(r);
    ThirdByte(v, Mask(r));
    LowestIsFirstSet(v, r + 16);
  }

  lemma InFourthByte(v: bv32)
    requires v & 0xff_ffff == 0 && v != 0
    ensures FirstSet(v, LowestBit((v & 0xff00_0000) >> 24) + 25)
  {
    hide LowestBit, Mask, FirstSet;
    var r := LowestBit((v & 0xff00_0000) >> 24);
    MaskInByte(r);
    FourthByte(v, Mask(r));
    LowestIsFirstSet(v, r + 24);
  }

  /** `__rt_ffs`: the first non-zero byte decides. */
  function Ffs(value: bv32): (r: nat)
    ensures r <= 32
  {
    if value == 0 then 0
    else if value & 0xff != 0 then LowestBit(value & 0xff) + 1
    else if value & 0xff00 != 0 then LowestBit((value & 0xff00) >> 8) + 9
    else if value & 0xff_0000 != 0 then LowestBit((value & 0xff_0000) >> 16) + 17
    else LowestBit((value & 0xff00_0000) >> 24) + 25
  }

  /** The result is the least set bit, numbered from one. */
  lemma FfsIsFirstSet(value: bv32)
    ensures FirstSet(value, Ffs(value))
  {
    hide Mask, LowestBit, Bit;
    if value == 0 {
    } else if value & 0xff != 0 {
      InFirstByte(value);
    } else if value & 0xff00 != 0 {
      InSecondByte(value);
    } else if value & 0xff_0000 != 0 {
      InThirdByte(value);
    } else {
      InFourthByte(value);
    }
  }

  // ---------------------------------------------------------------- __rt_ffs with the small table

  const BY_RESIDUE: seq<nat> := [
    0, 1, 2, 27, 3, 24, 28, 32,
    4, 17, 25, 31, 29, 12, 32, 14,
    5, 8, 18, 32, 26, 23, 32, 16,
    30, 11, 13, 7, 32, 22, 15, 10,
    6, 21, 9, 20, 19
  ]

  /** Powers of two leave distinct remainders modulo 37. */
  lemma ResidueOfPower(v: bv32)
    requires v != 0 && v & (v - 1) == 0
    ensures |BY_RESIDUE| == 37 && v % 37 < 37
    ensures 0 < BY_RESIDUE[(v % 37) as nat] <= 32 && v == Mask(BY_RESIDUE[(v % 37) as nat] - 1)
  {
    if v < 0x100 { ResidueLow(v); }
    else if v < 0x1_0000 { ResidueMiddle(v); }
    else if v < 0x100_0000 { ResidueHigh(v); }
    else { ResidueTop(v); }
  }

  lemma ResidueLow(v: bv32)
    requires v != 0 && v & (v - 1) == 0 && v < 0x100
    ensures |BY_RESIDUE| == 37 && v % 37 < 37
    ensures 0 < BY_RESIDUE[(v % 37) as nat] <= 32 && v == Mask(BY_RESIDUE[(v % 37) as nat] - 1)
  {
  }

  lemma ResidueMiddle(v: bv32)
    requires v != 0 && v & (v - 1) == 0 && 0x100 <= v < 0x1_0000
    ensures |BY_RESIDUE| == 37 && v % 37 < 37
    ensures 0 < BY_RESIDUE[(v % 37) as nat] <= 32 && v == Mask(BY_RESIDUE[(v % 37) as nat] - 1)
  {
  }

  lemma ResidueHigh(v: bv32)
    requires v != 0 && v & (v - 1) == 0 && 0x1_0000 <= v < 0x100_0000
    ensures |BY_RESIDUE| == 37 && v % 37 < 37
    ensures 0 < BY_RESIDUE[(v % 37) as nat] <= 32 && v == Mask(BY_RESIDUE[(v % 37) as nat] - 1)
  {
  }

  lemma ResidueTop(v: bv32)
    requires v != 0 && v & (v - 1) == 0 && 0x100_0000 <= v
    ensures |BY_RESIDUE| == 37 && v % 37 < 37
    ensures 0 < BY_RESIDUE[(v % 37) as nat] <= 32 && v == Mask(BY_RESIDUE[(v % 37) as nat] - 1)
  {
  }

  /** The lowest set bit alone. */
  function Isolated(v: bv32): bv32 { (v & (v - 1)) ^ v }

  lemma IsolatedIsLowest(v: bv32, k: nat)
    requires k < 32
    ensures v != 0 ==> Isolated(v) != 0 && Isolated(v) & (Isolated(v) - 1) == 0
    ensures Isolated(v) == Mask(k) ==> Bit(v, k) && v & (Mask(k) - 1) == 0
  {
  }

  /** `__rt_ffs` of the small-table configuration. */
  function TinyFfs(value: bv32): (r: nat)
    ensures FirstSet(value, r)
  {
    assert |BY_RESIDUE| == 37;
    TinyIsFirstSet(value);
    BY_RESIDUE[(Isolated(value) % 37) as nat]
  }

  lemma TinyIsFirstSet(value: bv32)
    ensures |BY_RESIDUE| == 37 && FirstSet(value, BY_RESIDUE[(Isolated(value) % 37) as nat])
  {
    if value == 0 {
      assert BY_RESIDUE[0] == 0;
    } else {
      var x := Isolated(value);
      IsolatedIsLowest(value, 0);
      ResidueOfPower(x);
      var k := BY_RESIDUE[(x % 37) as nat] - 1;
      hide Mask;
      IsolatedIsLowest(value, k);
      LowestIsFirstSet(value, k);
    }
  }

  /** The two variants compute the same function. */
  lemma VariantsAgree(value: bv32)
    ensures Ffs(value) == TinyFfs(value)
  {
    hide Mask, Ffs, TinyFfs, FirstSet, Bit;
    FfsIsFirstSet(value);
    FirstSetIsLeast(value, Ffs(value));
    FirstSetIsLeast(value, TinyFfs(value));
  }
}
