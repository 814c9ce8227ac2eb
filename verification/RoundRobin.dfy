/** Time slices: threads of the top priority take turns, each for its remaining ticks. */
module RoundRobin {
  import opened Common
  import opened ReadyLists
  import opened UpSpec

  /** `n` single ticks with no other event. */
  function Ticks(s: Sched, n: nat): (r: Sched)
    requires Inv(s)
    ensures Inv(r)
    decreases n
  {
    if n == 0 then s
    else
      TickSettles(s, 1);
      Ticks(Tick(s, 1), n - 1)
  }

  lemma {:induction false} TicksAdd(s: Sched, a: nat, b: nat)
    requires Inv(s)
    ensures Ticks(s, a + b) == Ticks(Ticks(s, a), b)
    decreases a
  {
    if a > 0 {
      TickSettles(s, 1);
      TicksAdd(Tick(s, 1), a - 1, b);
    }
  }

  ghost predicate HasSlice(s: Sched, t: nat) {
    t < |s.ts| && s.ts[t].remaining > 0 && s.ts[t].initTick > 0
  }

  /** `c` runs, `q` waits at the same priority, nothing ready is more urgent, the scheduler
      is unlocked, every slice is at least one tick. */
  ghost predicate Turn(s: Sched, p: nat, c: nat, q: seq<nat>) {
    && Inv(s) && s.nest == 0 && p < |s.lists|
    && s.current == c && s.ts[c].stat.Running? && s.ts[c].prio == p
    && s.lists[p] == q && (forall r :: 0 <= r < p ==> s.lists[r] == [])
    && HasSlice(s, c) && (forall i :: 0 <= i < |q| ==> HasSlice(s, q[i]))
  }

  /** Only `c` has another remaining time; slices and identities stay. */
  ghost predicate SameSlices(s: Sched, r: Sched, c: nat) {
    && |r.ts| == |s.ts|
    && (forall t: nat :: t < |s.ts| ==> r.ts[t].initTick == s.ts[t].initTick)
    && (forall t: nat :: t < |s.ts| && t != c ==> r.ts[t].remaining == s.ts[t].remaining)
  }

  lemma TickWithin(s: Sched, p: nat, c: nat, q: seq<nat>)
    requires Turn(s, p, c, q) && s.ts[c].remaining > 1
    ensures Turn(Tick(s, 1), p, c, q) && SameSlices(s, Tick(s, 1), c)
    ensures Tick(s, 1).ts[c].remaining == s.ts[c].remaining - 1
  {
    TickSettles(s, 1);
    var r := Tick(s, 1);
    assert r.lists == s.lists && r.current == c;
    hide Inv;
  }

  /** The current thread with its slice refilled and its yield flag set. */
  function Refilled(s: Sched): Sched
    requires s.current < |s.ts|
  {
    s.(ts := s.ts[s.current := s.ts[s.current].(remaining := s.ts[s.current].initTick, yielded := true)])
  }

  lemma LastTick(s: Sched)
    requires Inv(s) && s.ts[s.current].remaining <= 1
    ensures Inv(Refilled(s)) && Tick(s, 1) == Schedule(Refilled(s))
  {
    var s1 := s.(ts := s.ts[s.current := s.ts[s.current].(remaining := 0)]);
    assert Yield(s1) == Refilled(s);
    forall t: nat | t < |s.ts| ensures Refilled(s).ts[t].stat == s.ts[t].stat && Refilled(s).ts[t].prio == s.ts[t].prio {
    }
  }

  /** The last tick of a slice hands over to the head of the list; `c` goes to the back. */
  lemma TickExpires(s: Sched, p: nat, c: nat, q: seq<nat>)
    requires Turn(s, p, c, q) && s.ts[c].remaining == 1 && q != []
    ensures Turn(Tick(s, 1), p, q[0], Moved(q, c)) && SameSlices(s, Tick(s, 1), c)
    ensures Tick(s, 1).ts[c].remaining == s.ts[c].initTick
  {
    TickSettles(s, 1);
    LastTick(s);
    assert HasSlice(s, q[0]);
    Expired(Refilled(s), p, c, q);
    hide Inv, Schedule, Tick;
    var r, q' := Tick(s, 1), q[1..] + [c];
    forall i | 0 <= i < |q'| ensures HasSlice(r, q'[i]) {
      if i < |q| - 1 { assert q'[i] == q[i + 1]; assert HasSlice(s, q[i + 1]); }
    }
  }

  lemma Expired(y: Sched, p: nat, c: nat, q: seq<nat>)
    requires Inv(y) && y.nest == 0 && p < |y.lists| && y.lists[p] == q && q != []
    requires forall r :: 0 <= r < p ==> y.lists[r] == []
    requires y.current == c && y.ts[c].stat.Running? && y.ts[c].yielded && y.ts[c].prio == p
    ensures q[0] < |y.ts| && q[0] != c
    ensures var r := Schedule(y);
      && r.current == q[0] && r.lists == y.lists[p := q[1..] + [c]] && r.nest == 0
      && r.ts == y.ts[c := y.ts[c].(stat := Ready, yielded := false)][q[0] := y.ts[q[0]].(stat := Running)]
      && y.ts[q[0]].prio == p
  {
    LeastIs(y.lists, p);
    Positions(y, p);
    HandOverList(y, p, c, q);
    assert Schedule(y) == WithStat(Unlink(HandedOver(y, q[0]), q[0]), q[0], Running);
    hide Inv, Schedule, HandedOver, Unlink;
  }

  lemma HandOverList(y: Sched, p: nat, c: nat, q: seq<nat>)
    requires Inv(y) && p < |y.lists| && y.current == c && y.ts[c].stat.Running? && y.ts[c].yielded && y.ts[c].prio == p
    requires y.lists[p] == q && q != [] && q[0] < |y.ts| && y.ts[q[0]].prio == p && q[0] != c
    ensures var r := Unlink(HandedOver(y, q[0]), q[0]);
      && r.lists == y.lists[p := q[1..] + [c]]
      && r.ts == y.ts[c := y.ts[c].(stat := Ready, yielded := false)]
  {
    var h := HandedOver(y, q[0]);
    assert h.lists == y.lists[p := q + [c]];
    assert q + [c] == [] + [q[0]] + (q[1..] + [c]);
    assert NoDup(q);
    assert q[0] !in q[1..] + [c];
    RemoveMiddle([], q[0], q[1..] + [c]);
    assert [] + (q[1..] + [c]) == q[1..] + [c];
  }

  /** A whole remaining slice. */
  lemma {:induction false} OneTurn(s: Sched, p: nat, c: nat, q: seq<nat>)
    requires Turn(s, p, c, q) && q != []
    ensures var r := Ticks(s, s.ts[c].remaining);
      Turn(r, p, q[0], Moved(q, c)) && SameSlices(s, r, c) && r.ts[c].remaining == s.ts[c].initTick
    ensures forall k: nat :: k < s.ts[c].remaining ==> Ticks(s, k).current == c
    decreases s.ts[c].remaining
  {
    TickSettles(s, 1);
    var s1 := Tick(s, 1);
    hide Turn, Inv, Tick;
    if s.ts[c].remaining == 1 {
      TickExpires(s, p, c, q);
      assert Ticks(s, 1) == Ticks(s1, 0) == s1;
    } else {
      TickWithin(s, p, c, q);
      OneTurn(s1, p, c, q);
      forall k: nat | k < s.ts[c].remaining ensures Ticks(s, k).current == c {
        if k > 0 { assert Ticks(s, k) == Ticks(s1, k - 1); }
      }
    }
  }

  /** The list after its head got the processor from `c`. */
  function Moved(q: seq<nat>, c: nat): (r: seq<nat>)
    requires q != []
    ensures |r| == |q|
  {
    q[1..] + [c]
  }

  /** The list when the thread at index `j` has its turn: whoever ran before it is at the back. */
  function Turned(q: seq<nat>, c: nat, j: nat): seq<nat>
    requires j < |q|
  {
    q[j + 1..] + [c] + q[..j]
  }

  lemma TurnedStep(q: seq<nat>, c: nat, j: nat)
    requires j < |q|
    ensures Turned(q, c, 0) == Moved(q, c)
    ensures j > 0 ==> Turned(Moved(q, c), q[0], j - 1) == Turned(q, c, j) && Moved(q, c)[j - 1] == q[j]
  {
    assert q[..0] == [];
    if j > 0 {
      var q' := q[1..] + [c];
      assert q'[j..] == q[j + 1..] + [c];
      assert q'[..j - 1] == q[1..j];
      assert [q[0]] + q[1..j] == q[..j];
      assert q'[j..] + [q[0]] + q'[..j - 1] == q'[j..] + ([q[0]] + q'[..j - 1]);
    }
  }

  ghost predicate InRange(s: Sched, q: seq<nat>) { forall i :: 0 <= i < |q| ==> q[i] < |s.ts| }

  /** Remaining ticks of the first `j` threads of `q`. */
  function Wait(s: Sched, q: seq<nat>, j: nat): nat
    requires j <= |q| && InRange(s, q)
  {
    if j == 0 then 0 else s.ts[q[j - 1]].remaining + Wait(s, q, j - 1)
  }

  lemma {:induction false} WaitShift(s: Sched, r: Sched, c: nat, q: seq<nat>, j: nat)
    requires 0 < j <= |q| && c < |s.ts| && c !in q && InRange(s, q) && SameSlices(s, r, c)
    ensures InRange(r, Moved(q, c))
    ensures Wait(s, q, j) == s.ts[q[0]].remaining + Wait(r, Moved(q, c), j - 1)
  {
    if j > 1 {
      WaitShift(s, r, c, q, j - 1);
      assert Moved(q, c)[j - 2] == q[j - 1];
    }
  }

  lemma Others(s: Sched, p: nat, c: nat, q: seq<nat>)
    requires Turn(s, p, c, q)
    ensures c < |s.ts| && c !in q && InRange(s, q) && NoDup(q)
  {
    forall i | 0 <= i < |q| ensures q[i] < |s.ts| { assert HasSlice(s, q[i]); }
  }

  /** What is known when the first turn is over. */
  lemma TurnOver(s: Sched, p: nat, c: nat, q: seq<nat>)
    requires Turn(s, p, c, q) && q != []
    ensures c < |s.ts| && c !in q && InRange(s, q)
    ensures var r := Ticks(s, s.ts[c].remaining);
      Turn(r, p, q[0], Moved(q, c)) && SameSlices(s, r, c) && q[0] < |r.ts| && InRange(r, Moved(q, c))
  {
    OneTurn(s, p, c, q);
    Others(s, p, c, q);
    hide Inv, Ticks;
    Others(Ticks(s, s.ts[c].remaining), p, q[0], Moved(q, c));
  }

  /** One turn, and what is left to wait after it. */
  lemma TurnStep(s: Sched, p: nat, c: nat, q: seq<nat>, j: nat, r: Sched, q': seq<nat>)
    requires Turn(s, p, c, q) && 0 < j < |q| && c < |s.ts| && InRange(s, q)
    requires r == Ticks(s, s.ts[c].remaining) && q' == Moved(q, c)
    ensures Turn(r, p, q[0], q') && |q'| == |q| && q'[j - 1] == q[j] && Turned(q', q[0], j - 1) == Turned(q, c, j)
    ensures q[0] < |r.ts| && InRange(r, q')
    ensures Wait(s, q, j) == r.ts[q[0]].remaining + Wait(r, q', j - 1)
  {
    TurnOver(s, p, c, q);
    TurnedStep(q, c, j);
    hide Turn, Turned, Inv, Ticks, Moved;
    WaitShift(s, r, c, q, j);
    assert q[0] != c;
  }

  /** A thread queued behind `j` others runs after the remaining ticks of the current
      thread and of those `j`, and the order is cyclic. */
  lemma {:induction false} StartsAfter(s: Sched, p: nat, c: nat, q: seq<nat>, j: nat)
    requires Turn(s, p, c, q) && j < |q| && c < |s.ts| && InRange(s, q)
    ensures Turn(Ticks(s, s.ts[c].remaining + Wait(s, q, j)), p, q[j], Turned(q, c, j))
    decreases j
  {
    hide Inv, Ticks, Moved, Turned, InRange;
    if j == 0 {
      OneTurn(s, p, c, q);
      TurnedStep(q, c, j);
    } else {
      var r, q' := Ticks(s, s.ts[c].remaining), Moved(q, c);
      TurnStep(s, p, c, q, j, r, q');
      hide *;
      var rest := r.ts[q[0]].remaining + Wait(r, q', j - 1);
      StartsAfter(r, p, q[0], q', j - 1);
      TicksAdd(s, s.ts[c].remaining, rest);
    }
  }

  lemma NotDuring(s: Sched, p: nat, c: nat, q: seq<nat>, j: nat, k: nat)
    requires Turn(s, p, c, q) && j < |q| && k < s.ts[c].remaining
    ensures Ticks(s, k).current != q[j]
  {
    OneTurn(s, p, c, q);
    Others(s, p, c, q);
    hide Turn, Inv, Ticks;
  }

  /** It does not run before. */
  lemma {:induction false} NotBefore(s: Sched, p: nat, c: nat, q: seq<nat>, j: nat, k: nat)
    requires Turn(s, p, c, q) && j < |q| && c < |s.ts| && InRange(s, q)
    requires k < s.ts[c].remaining + Wait(s, q, j)
    ensures Ticks(s, k).current != q[j]
    decreases j
  {
    hide Inv, Ticks, Moved, Turned, InRange;
    if k < s.ts[c].remaining {
      NotDuring(s, p, c, q, j, k);
    } else {
      var a, r, q' := s.ts[c].remaining, Ticks(s, s.ts[c].remaining), Moved(q, c);
      TurnStep(s, p, c, q, j, r, q');
      hide *;
      NotBefore(r, p, q[0], q', j - 1, k - a);
      TicksAdd(s, a, k - a);
    }
  }

  /** The bound is exact. */
  lemma StartsExactly(s: Sched, p: nat, c: nat, q: seq<nat>, j: nat)
    requires Turn(s, p, c, q) && j < |q|
    ensures c < |s.ts| && InRange(s, q)
    ensures var n := s.ts[c].remaining + Wait(s, q, j);
      Ticks(s, n).current == q[j] && forall k: nat :: k < n ==> Ticks(s, k).current != q[j]
  {
    Others(s, p, c, q);
    StartsAfter(s, p, c, q, j);
    hide Inv, Ticks, Wait;
    forall k: nat | k < s.ts[c].remaining + Wait(s, q, j) ensures Ticks(s, k).current != q[j] { NotBefore(s, p, c, q, j, k); }
  }

  // ---------------------------------------------------------------- the yield flag

  /** Against a ready thread of its own priority the running thread keeps the processor
      exactly if its yield flag is clear, whatever is left of its slice. */
  lemma KeepsAgainstEqual(s: Sched)
    requires Inv(s) && s.nest == 0 && s.ts[s.current].stat.Running? && Least(s.lists) == s.ts[s.current].prio
    ensures Schedule(s).current == s.current <==> !s.ts[s.current].yielded
  {
    Positions(s, Least(s.lists));
    if s.ts[s.current].yielded { HandOverKeeps(s, s.lists[Least(s.lists)][0]); }
  }

  /** The flag outlives a slice that expired with nobody to hand over to: the next thread of
      the same priority to become ready preempts the current one at the start of its new slice. */
  lemma StaleYieldPreempts(s: Sched, u: nat)
    requires Inv(s) && s.nest == 0 && s.ts[s.current].stat.Running? && s.ts[s.current].remaining <= 1
    requires forall p :: 0 <= p < |s.lists| ==> s.lists[p] == []
    requires u < |s.ts| && s.ts[u].stat.Suspended? && s.ts[u].prio == s.ts[s.current].prio
    ensures var s1 := Tick(s, 1);
      Inv(s1) && s1.current == s.current && s1.ts[s1.current].remaining == s.ts[s.current].initTick
    ensures var s2 := MakeReady(Tick(s, 1), u).1;
      Inv(s2) && Schedule(s2).current == u && Schedule(s2).ts[s.current].remaining == s.ts[s.current].initTick
  {
    TickSettles(s, 1);
    LeastIs(s.lists, |s.lists|);
    var s1 := Tick(s, 1);
    var c, p := s.current, s.ts[s.current].prio;
    assert s1.lists == s.lists && s1.ts[c].yielded && s1.ts[u] == s.ts[u];
    MakeReadyKeeps(s1, u);
    var s2 := MakeReady(s1, u).1;
    assert s2.lists[p] == if s.ts[u].yielded then [] + [u] else [u] + [];
    LeastIs(s2.lists, p);
    HandOverKeeps(s2, u);
    assert Schedule(s2) == WithStat(Unlink(HandedOver(s2, u), u), u, Running);
  }
}
