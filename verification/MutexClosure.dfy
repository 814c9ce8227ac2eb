/** What exact inheritance means: a thread's priority is the minimum over everybody
    who waits for it, directly or through a chain, defined without any cache. */
module MutexClosure {
  import opened Common
  import opened MutexState
  import opened MutexRepair
  import opened MutexOps

  /** `a` waits on a mutex held by `b`. */
  ghost predicate WaitsFor(s: State, a: Tid, b: Tid) {
    && a < |s.threads| && b < |s.threads|
    && Waiting(s, a)
    && s.threads[a].pending.value < |s.mutexes|
    && s.mutexes[s.threads[a].pending.value].owner == Some(b)
  }

  /** A chain of waits from the first thread to the last. */
  ghost predicate Chain(s: State, p: seq<Tid>) {
    && p != [] && Below(p, |s.threads|)
    && forall i :: 0 <= i < |p| - 1 ==> WaitsFor(s, p[i], p[i + 1])
  }

  /** No deadlock: no chain returns to where it started. */
  ghost predicate Acyclic(s: State) {
    forall p: seq<Tid> :: Chain(s, p) && |p| > 1 ==> p[0] != p[|p| - 1]
  }

  /** The most urgent thing a thread brings in by itself: its own priority or a ceiling it holds. */
  ghost predicate Brings(s: State, a: Tid, p: Prio)
    requires a < |s.threads|
  {
    || p == s.threads[a].init
    || exists m: Mid :: m in s.threads[a].taken && m < |s.mutexes| && p == s.mutexes[m].ceiling
  }

  /** In every bounded state the end of a chain is at least as urgent as the start. */
  lemma {:induction false} ChainBound(s: State, p: seq<Tid>)
    requires Ok(s) && Bounded(s) && Chain(s, p)
    ensures s.threads[p[|p| - 1]].cur <= s.threads[p[0]].cur
    ensures s.threads[p[|p| - 1]].cur <= s.threads[p[0]].init
  {
    if |p| == 1 {
      assert ThreadLinks(s, p[0]) && ThreadBounded(s, p[0]);
    } else {
      var q := p[1..];
      forall i | 0 <= i < |q| - 1 ensures WaitsFor(s, q[i], q[i + 1]) { assert WaitsFor(s, p[i + 1], p[i + 2]); }
      ChainBound(s, q);
      assert WaitsFor(s, p[0], p[1]);
      var m := s.threads[p[0]].pending.value;
      assert ThreadLinks(s, p[0]) && MutexLinks(s, m) && MutexBounded(s, m);
      assert ThreadLinks(s, p[1]) && ThreadBounded(s, p[1]);
      assert ThreadLinks(s, p[0]) && ThreadBounded(s, p[0]);
    }
  }

  lemma AcyclicChainNoDup(s: State, p: seq<Tid>)
    requires Acyclic(s) && Chain(s, p)
    ensures NoDup(p)
  {
    forall i, j | 0 <= i < j < |p| ensures p[i] != p[j] {
      var q := p[i..j + 1];
      forall k | 0 <= k < |q| - 1 ensures WaitsFor(s, q[k], q[k + 1]) { assert WaitsFor(s, p[i + k], p[i + k + 1]); }
      assert Chain(s, q);
    }
  }

  lemma {:induction false} RemoveBelow(p: seq<Tid>, n: nat)
    requires Below(p, n) && n > 0
    ensures Below(Remove(p, n - 1), n - 1)
  {
    if p != [] {
      assert p[0] < n;
      RemoveBelow(p[1..], n);
    }
  }

  lemma {:induction false} Pigeonhole(p: seq<Tid>, n: nat)
    requires Below(p, n) && NoDup(p)
    ensures |p| <= n
    decreases n
  {
    if p != [] {
      assert p[0] < n;
      var q := Remove(p, n - 1);
      RemoveNoDup(p, n - 1);
      RemoveBelow(p, n);
      Pigeonhole(q, n - 1);
    }
  }

  /** A thread's priority was brought in by itself or is that of a thread that waits for it. */
  lemma UrgentWaiter(s: State, h: Tid) returns (w: Option<Tid>)
    requires Ok(s) && Exact(s) && h < |s.threads|
    ensures w.None? ==> Brings(s, h, s.threads[h].cur)
    ensures w.Some? ==> WaitsFor(s, w.value, h) && s.threads[w.value].cur == s.threads[h].cur
  {
    w := None;
    assert ThreadLinks(s, h) && ThreadExact(s, h);
    if s.threads[h].cur != s.threads[h].init {
      var m: Mid :| m in s.threads[h].taken && s.threads[h].cur == Demand(s.mutexes[m]);
      assert MutexLinks(s, m) && MutexExact(s, m);
      if s.threads[h].cur != s.mutexes[m].ceiling {
        assert s.mutexes[m].waiters[0] in s.mutexes[m].waiters;
        w := Some(s.mutexes[m].waiters[0]);
      }
    }
  }

  lemma LongerChain(s: State, w: Tid, p: seq<Tid>)
    requires Chain(s, p) && WaitsFor(s, w, p[0])
    ensures Chain(s, [w] + p) && ([w] + p)[|p|] == p[|p| - 1]
  {
    var q := [w] + p;
    forall i | 0 <= i < |q| - 1 ensures WaitsFor(s, q[i], q[i + 1]) {
      if i > 0 { assert WaitsFor(s, p[i - 1], p[i]); }
    }
  }

  /** Following the waiter that determined the priority ends at a thread that brought
      the priority in; without deadlock the search cannot go round in circles. */
  lemma {:induction false} FindSource(s: State, p: seq<Tid>) returns (r: seq<Tid>)
    requires Ok(s) && Exact(s) && Acyclic(s) && Chain(s, p)
    ensures Chain(s, r) && r[|r| - 1] == p[|p| - 1] && Brings(s, r[0], s.threads[p[0]].cur)
    decreases |s.threads| - |p|
  {
    hide Ok, Exact, Acyclic, WaitsFor, Brings, NoDup;
    var w := UrgentWaiter(s, p[0]);
    if w.None? {
      r := p;
    } else {
      var q := [w.value] + p;
      LongerChain(s, w.value, p);
      AcyclicChainNoDup(s, q);
      Pigeonhole(q, |s.threads|);
      r := FindSource(s, q);
    }
  }

  ghost predicate LowerBound(s: State, b: Tid, x: Prio) {
    forall p: seq<Tid> :: Chain(s, p) && p[|p| - 1] == b ==> x <= s.threads[p[0]].init
  }

  ghost predicate Reached(s: State, b: Tid, x: Prio) {
    exists p: seq<Tid> :: Chain(s, p) && p[|p| - 1] == b && Brings(s, p[0], x)
  }

  /** A thread runs exactly at the most urgent priority brought in by any thread that
      waits for it directly or indirectly, itself included. */
  lemma InheritanceIsClosure(s: State, b: Tid)
    requires Ok(s) && Exact(s) && Acyclic(s) && b < |s.threads|
    ensures LowerBound(s, b, s.threads[b].cur)
    ensures Reached(s, b, s.threads[b].cur)
    ensures forall p: seq<Tid>, x: Prio :: Chain(s, p) && p[|p| - 1] == b && Brings(s, p[0], x) ==> s.threads[b].cur <= x
  {
    ExactIsBounded(s);
    forall p: seq<Tid> | Chain(s, p) && p[|p| - 1] == b ensures s.threads[b].cur <= s.threads[p[0]].init {
      ChainBound(s, p);
    }
    forall p: seq<Tid>, x: Prio | Chain(s, p) && p[|p| - 1] == b && Brings(s, p[0], x) ensures s.threads[b].cur <= x {
      ChainBound(s, p);
      assert ThreadLinks(s, p[0]) && ThreadExact(s, p[0]);
      if x != s.threads[p[0]].init {
        var m: Mid :| m in s.threads[p[0]].taken && m < |s.mutexes| && x == s.mutexes[m].ceiling;
        assert Recomputed(s, p[0]) <= Demand(s.mutexes[m]);
      }
    }
    assert Chain(s, [b]);
    var r := FindSource(s, [b]);
    assert Chain(s, r) && r[|r| - 1] == b;
  }

  /** Exact, deadlock-free states with the same threads, owners, waits and ceilings have the
      same priorities: the cached numbers carry no memory of the order of events. */
  lemma PrioritiesDetermined(s: State, s': State, b: Tid)
    requires Ok(s) && Exact(s) && Acyclic(s) && Ok(s') && Exact(s') && Acyclic(s')
    requires b < |s.threads| && |s.threads| == |s'.threads| && |s.mutexes| == |s'.mutexes|
    requires forall t: Tid :: t < |s.threads| ==> s'.threads[t] == s.threads[t].(cur := s'.threads[t].cur)
    requires forall m: Mid :: m < |s.mutexes| ==>
               s'.mutexes[m].owner == s.mutexes[m].owner && s'.mutexes[m].ceiling == s.mutexes[m].ceiling
    ensures s.threads[b].cur == s'.threads[b].cur
  {
    SameSourcesBound(s, s', b);
    SameSourcesBound(s', s, b);
  }

  lemma SameSourcesBound(s: State, s': State, b: Tid)
    requires Ok(s) && Exact(s) && Acyclic(s) && Ok(s') && Exact(s') && Acyclic(s')
    requires b < |s.threads| && |s.threads| == |s'.threads| && |s.mutexes| == |s'.mutexes|
    requires forall t: Tid :: t < |s.threads| ==> s'.threads[t] == s.threads[t].(cur := s'.threads[t].cur)
    requires forall m: Mid :: m < |s.mutexes| ==>
               s'.mutexes[m].owner == s.mutexes[m].owner && s'.mutexes[m].ceiling == s.mutexes[m].ceiling
    ensures s'.threads[b].cur <= s.threads[b].cur
  {
    InheritanceIsClosure(s, b);
    InheritanceIsClosure(s', b);
    var x := s.threads[b].cur;
    var p: seq<Tid> :| Chain(s, p) && p[|p| - 1] == b && Brings(s, p[0], x);
    forall i | 0 <= i < |p| - 1 ensures WaitsFor(s', p[i], p[i + 1]) { assert WaitsFor(s, p[i], p[i + 1]); }
    assert Chain(s', p) && Brings(s', p[0], x);
  }
}
