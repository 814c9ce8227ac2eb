/** `RT_ALIGN` and `RT_ALIGN_DOWN` on unbounded numbers (no wrap-around). */
module Alignment {

  lemma MulMod(k: nat, a: nat)
    requires a > 0
    ensures k * a % a == 0
  {
    var q, r := k * a / a, k * a % a;
    assert k * a == q * a + r;
    assert (k - q) * a == r;
    SmallMultiple(k - q, a);
  }

  /** The only multiple of `a` in [0, a) is 0. */
  lemma SmallMultiple(d: int, a: nat)
    requires a > 0 && 0 <= d * a < a
    ensures d == 0
  {
  }

  lemma AddAligned(x: nat, y: nat, a: nat)
    requires a > 0 && x % a == 0 && y % a == 0
    ensures (x + y) % a == 0
    ensures x >= y ==> (x - y) % a == 0
  {
    var i, j := x / a, y / a;
    assert x == i * a && y == j * a;
    assert x + y == (i + j) * a;
    MulMod(i + j, a);
    if x >= y {
      assert x - y == (i - j) * a;
      NonNegativeFactor(i - j, a);
      MulMod(i - j, a);
    }
  }

  lemma NonNegativeFactor(d: int, a: nat)
    requires a > 0 && d * a >= 0
    ensures d >= 0
  {
  }

  /** The mask `& ~(a - 1)` for a power of two `a`. */
  function AlignDown(x: nat, a: nat): (r: nat)
    requires a > 0
    ensures r <= x < r + a
    ensures r % a == 0
  {
    assert x == x / a * a + x % a;
    MulMod(x / a, a);
    x - x % a
  }

  function AlignUp(x: nat, a: nat): (r: nat)
    requires a > 0
    ensures x <= r < x + a
    ensures r % a == 0
  {
    AlignDown(x + a - 1, a)
  }

  lemma SmallRemainder(d: nat, a: nat)
    requires a > 0
    ensures d < a ==> d % a == d
  {
  }

  /** No aligned number lies strictly between a number and its alignment. */
  lemma AlignedGap(x: nat, y: nat, a: nat)
    requires a > 0 && x % a == 0 && y % a == 0 && x < y
    ensures x + a <= y
  {
    AddAligned(y, x, a);
    SmallRemainder(y - x, a);
  }

  lemma AlignUpLeast(x: nat, y: nat, a: nat)
    requires a > 0 && y % a == 0 && x <= y
    ensures AlignUp(x, a) <= y
  {
    if y < AlignUp(x, a) { AlignedGap(y, AlignUp(x, a), a); }
  }

  lemma AlignDownGreatest(x: nat, y: nat, a: nat)
    requires a > 0 && y % a == 0 && y <= x
    ensures y <= AlignDown(x, a)
  {
    if AlignDown(x, a) < y { AlignedGap(AlignDown(x, a), y, a); }
  }

  lemma AlignUpFixed(x: nat, a: nat)
    requires a > 0 && x % a == 0
    ensures AlignUp(x, a) == x
  {
    AlignUpLeast(x, x, a);
  }

  /** The room between an aligned begin and an aligned end, less two headers. */
  lemma GapAligned(end: nat, begin: nat, header: nat, a: nat)
    requires a > 0 && end % a == 0 && begin % a == 0 && header % a == 0
    requires begin + 2 * header <= end
    ensures (end - 2 * header - begin) % a == 0
  {
    AddAligned(end, header, a);
    AddAligned(end - header, header, a);
    AddAligned(end - header - header, begin, a);
  }
}
