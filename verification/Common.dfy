/** Small shared vocabulary: optional values and duplicate-free sequences used
    for the kernel's intrusive lists. */
module Common {

  datatype Option<+T> = None | Some(value: T)

  function Min(a: nat, b: nat): nat { if a <= b then a else b }

  function Max(a: nat, b: nat): nat { if a >= b then a else b }

  /** A node is linked at most once into an intrusive list. */
  ghost predicate NoDup<T>(xs: seq<T>) {
    forall i, j :: 0 <= i < j < |xs| ==> xs[i] != xs[j]
  }

  /** `rt_list_remove` seen from the list the node is linked into. */
  function Remove<T(==,!new)>(xs: seq<T>, x: T): (r: seq<T>)
    ensures forall y :: y in r <==> y in xs && y != x
    ensures |r| <= |xs|
    ensures forall i :: 0 <= i < |r| ==> r[i] in xs
  {
    if xs == [] then []
    else if xs[0] == x then Remove(xs[1..], x)
    else [xs[0]] + Remove(xs[1..], x)
  }

  lemma {:induction false} RemoveNoDup<T(!new)>(xs: seq<T>, x: T)
    requires NoDup(xs)
    ensures NoDup(Remove(xs, x))
    ensures x !in xs ==> Remove(xs, x) == xs
    ensures x in xs ==> |Remove(xs, x)| == |xs| - 1
  {
    if xs != [] {
      RemoveNoDup(xs[1..], x);
      if xs[0] == x {
        assert x !in xs[1..];
      } else {
        assert xs[0] !in xs[1..];
        assert xs[0] !in Remove(xs[1..], x);
      }
    }
  }

  /** A node known to sit between `a` and `b` is cut out of the middle. */
  lemma {:induction false} RemoveMiddle<T(!new)>(a: seq<T>, x: T, b: seq<T>)
    requires x !in a && x !in b
    ensures Remove(a + [x] + b, x) == a + b
  {
    var xs := a + [x] + b;
    if a == [] {
      assert xs[1..] == b;
      RemoveAbsent(b, x);
    } else {
      assert xs[1..] == a[1..] + [x] + b;
      RemoveMiddle(a[1..], x, b);
      assert a + b == [a[0]] + (a[1..] + b);
    }
  }

  lemma {:induction false} RemoveAbsent<T(!new)>(xs: seq<T>, x: T)
    requires x !in xs
    ensures Remove(xs, x) == xs
  {
    if xs != [] {
      RemoveAbsent(xs[1..], x);
    }
  }

  lemma {:induction false} RemoveCommutes<T(!new)>(xs: seq<T>, x: T, y: T)
    ensures Remove(Remove(xs, x), y) == Remove(Remove(xs, y), x)
  {
    if xs != [] { RemoveCommutes(xs[1..], x, y); }
  }

  /** Linking a node in at either end does not show where the others are. */
  lemma {:induction false} RemoveEnds<T(!new)>(xs: seq<T>, x: T)
    ensures Remove(xs + [x], x) == Remove(xs, x) == Remove([x] + xs, x)
  {
    if xs != [] {
      RemoveEnds(xs[1..], x);
      assert (xs + [x])[1..] == xs[1..] + [x];
    }
    assert ([x] + xs)[1..] == xs;
  }

  /** A node linked in at the back stays last when another one is unlinked. */
  lemma {:induction false} RemoveLast<T(!new)>(xs: seq<T>, x: T, y: T)
    requires x != y
    ensures var r := Remove(xs + [x], y); r != [] && r[|r| - 1] == x
  {
    if xs != [] {
      RemoveLast(xs[1..], x, y);
      assert (xs + [x])[1..] == xs[1..] + [x];
    }
  }

  /** Lists that agree without `x` agree without `x` and `y`, whether or not `y` was unlinked. */
  lemma TwiceRemoved<T(!new)>(xs: seq<T>, ys: seq<T>, x: T, y: T)
    requires Remove(ys, x) == Remove(xs, x)
    ensures Remove(Remove(ys, x), y) == Remove(Remove(xs, x), y)
    ensures Remove(Remove(Remove(ys, y), x), y) == Remove(Remove(xs, x), y)
  {
    RemoveCommutes(ys, y, x);
    RemoveAbsent(Remove(Remove(ys, x), y), y);
  }

  /** What came in is what went out and what is there, carried over one more step. */
  lemma Regroup<T>(l: seq<T>, r: seq<T>, c: seq<T>, a: seq<T>, b: seq<T>, c': seq<T>)
    requires l == r + c && c + a == b + c'
    ensures l + a == (r + b) + c'
  {
    assert l + a == r + (c + a);
    assert r + (b + c') == (r + b) + c';
  }

  /** A proper subset is smaller; used to count the inconsistent entries left. */
  lemma {:induction false} SubsetCard<T>(a: set<T>, b: set<T>)
    requires a <= b
    ensures |a| <= |b|
    ensures a != b ==> |a| < |b|
  {
    if a != {} {
      var x :| x in a;
      SubsetCard(a - {x}, b - {x});
    }
  }
}
