/** Every mutex operation keeps the links, the orders and the inversion bound,
    and we say exactly which of them keep exact inheritance. */
module MutexSafety {
  import opened Common
  import opened MutexState
  import opened MutexChain
  import opened MutexRepair
  import opened MutexOps

  // ---------------------------------------------------------------- take

  lemma AcquireKeeps(s: State, t: Tid, m: Mid)
    requires Ok(s) && Running(s, t) && m < |s.mutexes| && s.mutexes[m].owner.None?
    ensures Ok(Acquire(s, t, m))
    ensures Bounded(s) ==> Bounded(Acquire(s, t, m))
    ensures Exact(s) ==> Exact(Acquire(s, t, m))
  {
    AcquireLinks(s, t, m);
    if Bounded(s) {
      AcquireBounded(s, t, m);
    }
    if Exact(s) {
      AcquireExact(s, t, m, {});
    }
  }

  lemma AcquireLinks(s: State, t: Tid, m: Mid)
    requires Ok(s) && Running(s, t) && m < |s.mutexes| && s.mutexes[m].owner.None?
    ensures Ok(Acquire(s, t, m))
  {
    var r := Acquire(s, t, m);
    assert ThreadLinks(s, t) && MutexLinks(s, m);
    forall t': Tid | t' < |s.threads| ensures ThreadLinks(r, t') {
      assert ThreadLinks(s, t');
      AcquireThreadLinks(s, t, m, t');
    }
    forall m': Mid | m' < |s.mutexes| ensures MutexLinks(r, m') && SortedList(r.threads, r.mutexes[m'].waiters) {
      assert MutexLinks(s, m') && SortedList(s.threads, s.mutexes[m'].waiters);
      AcquireMutexLinks(s, t, m, m');
    }
  }

  lemma AcquireThreadLinks(s: State, t: Tid, m: Mid, t': Tid)
    requires Running(s, t) && m < |s.mutexes| && s.mutexes[m].owner.None?
    requires MutexLinks(s, m) && t' < |s.threads| && ThreadLinks(s, t')
    ensures ThreadLinks(Acquire(s, t, m), t')
  {
    assert Acquire(s, t, m).mutexes[m].waiters == s.mutexes[m].waiters;
  }

  lemma AcquireMutexLinks(s: State, t: Tid, m: Mid, m': Mid)
    requires Running(s, t) && m < |s.mutexes| && s.mutexes[m].owner.None?
    requires m' < |s.mutexes| && MutexLinks(s, m') && SortedList(s.threads, s.mutexes[m'].waiters)
    ensures var r := Acquire(s, t, m); MutexLinks(r, m') && SortedList(r.threads, r.mutexes[m'].waiters)
  {
    var r := Acquire(s, t, m);
    if t in s.mutexes[m'].waiters { assert false; }
    assert r.mutexes[m'].waiters == s.mutexes[m'].waiters;
    assert forall m'': Mid :: m'' in s.threads[t].taken ==> m'' in r.threads[t].taken;
  }

  lemma AcquireBounded(s: State, t: Tid, m: Mid)
    requires Ok(s) && Running(s, t) && m < |s.mutexes| && s.mutexes[m].owner.None?
    requires Linked(Acquire(s, t, m)) && Bounded(s)
    ensures Bounded(Acquire(s, t, m))
  {
    var r := Acquire(s, t, m);
    forall t': Tid | t' < |s.threads| ensures ThreadBounded(r, t') {
      assert ThreadLinks(s, t') && ThreadLinks(r, t') && ThreadBounded(s, t');
    }
    forall m': Mid | m' < |s.mutexes| ensures MutexBounded(r, m') {
      assert MutexLinks(s, m') && MutexLinks(r, m') && MutexBounded(s, m');
    }
  }

  lemma AcquireExact(s: State, t: Tid, m: Mid, excused: set<Mid>)
    requires Ok(s) && Running(s, t) && m < |s.mutexes| && s.mutexes[m].owner.None?
    requires Linked(Acquire(s, t, m)) && ExactBut(s, excused)
    ensures ExactBut(Acquire(s, t, m), excused)
  {
    var r := Acquire(s, t, m);
    AcquireThreadsExact(s, t, m);
    forall m': Mid | m' < |s.mutexes| && m' !in excused ensures MutexExact(r, m') {
      assert MutexLinks(s, m') && MutexLinks(r, m') && MutexExact(s, m');
      if m' != m {
        if t in s.mutexes[m'].waiters { assert false; }
        MutexExactSame(s, r, m');
      }
    }
  }

  lemma AcquireThreadsExact(s: State, t: Tid, m: Mid)
    requires Ok(s) && Running(s, t) && m < |s.mutexes| && s.mutexes[m].owner.None?
    requires Linked(Acquire(s, t, m)) && ThreadsExact(s)
    ensures ThreadsExact(Acquire(s, t, m))
  {
    var r := Acquire(s, t, m);
    forall t': Tid | t' < |s.threads| && t' != t ensures ThreadExact(r, t') {
      assert ThreadLinks(s, t') && ThreadLinks(r, t') && ThreadExact(s, t');
      RecomputedFrame(s, r, t');
    }
    assert ThreadLinks(s, t) && ThreadLinks(r, t) && ThreadExact(s, t);
    JoinDemand(s, r, t, m);
  }

  /** A mutex whose waiters, their priorities and its own record are unchanged. */
  lemma MutexExactSame(s: State, r: State, m: Mid)
    requires m < |s.mutexes| && m < |r.mutexes| && MutexLinks(s, m) && MutexLinks(r, m)
    requires r.mutexes[m].waiters == s.mutexes[m].waiters && r.mutexes[m].prio == s.mutexes[m].prio
    requires forall w: Tid :: w in s.mutexes[m].waiters ==> r.threads[w].cur == s.threads[w].cur
    ensures MutexExact(s, m) <==> MutexExact(r, m)
  {
    if s.mutexes[m].waiters != [] { assert s.mutexes[m].waiters[0] in s.mutexes[m].waiters; }
  }

  /** Taking one more mutex adds exactly its demand to what a thread must run at. */
  lemma JoinDemand(s: State, r: State, t: Tid, m: Mid)
    requires t < |s.threads| && t < |r.threads| && ThreadLinks(s, t) && ThreadLinks(r, t)
    requires r.threads[t].init == s.threads[t].init && r.threads[t].taken == [m] + s.threads[t].taken
    requires |s.mutexes| == |r.mutexes| && m < |r.mutexes|
    requires forall m': Mid :: m' in s.threads[t].taken ==> Demand(r.mutexes[m']) == Demand(s.mutexes[m'])
    ensures Recomputed(r, t) == Min(Recomputed(s, t), Demand(r.mutexes[m]))
  {
    assert m in r.threads[t].taken && r.threads[t].taken[0] == m;
    MostUrgentUnique(r.mutexes, r.threads[t].taken, r.threads[t].init, Min(Recomputed(s, t), Demand(r.mutexes[m])));
  }

  lemma BlockKeeps(s: State, t: Tid, m: Mid)
    requires Ok(s) && Running(s, t) && m < |s.mutexes| && MutexLinks(s, m)
    requires s.mutexes[m].owner.Some? && s.mutexes[m].owner != Some(t)
    ensures Ok(Block(s, t, m))
    ensures Bounded(s) ==> Bounded(Block(s, t, m))
    ensures Exact(s) ==> Exact(Block(s, t, m))
  {
    SuspendOk(s, t, m);
    if Bounded(s) { BlockBounded(s, t, m); }
    if Exact(s) { BlockExact(s, t, m, {}); }
  }

  lemma BlockBounded(s: State, t: Tid, m: Mid)
    requires Ok(s) && Running(s, t) && m < |s.mutexes| && MutexLinks(s, m)
    requires s.mutexes[m].owner.Some? && s.mutexes[m].owner != Some(t)
    requires Bounded(s)
    ensures Linked(Block(s, t, m)) && Bounded(Block(s, t, m))
  {
    SuspendOk(s, t, m);
    var p := s.threads[t].cur;
    var o := s.mutexes[m].owner.value;
    var s2 := RecordWaiter(Suspend(s, t, m), t, m);
    forall m': Mid | m' < |s.mutexes| ensures MutexBounded(s2, m') {
      assert MutexLinks(s, m') && MutexLinks(s2, m') && MutexBounded(s, m');
    }
    forall t': Tid | t' < |s.threads| && t' != o ensures ThreadBounded(s2, t') {
      assert ThreadLinks(s, t') && ThreadLinks(s2, t') && ThreadBounded(s, t');
    }
    assert ThreadLinks(s, o) && ThreadLinks(s2, o) && ThreadBounded(s, o);
    if p < s.mutexes[m].prio && p < s.threads[o].cur {
      UpdateBounded(s2, o, p);
    } else {
      assert ThreadBounded(s2, o);
    }
  }

  lemma BlockExact(s: State, t: Tid, m: Mid, excused: set<Mid>)
    requires Ok(s) && Running(s, t) && m < |s.mutexes| && MutexLinks(s, m)
    requires s.mutexes[m].owner.Some? && s.mutexes[m].owner != Some(t)
    requires ExactBut(s, excused)
    ensures Linked(Block(s, t, m)) && ExactBut(Block(s, t, m), excused)
  {
    SuspendOk(s, t, m);
    var p := s.threads[t].cur;
    var o := s.mutexes[m].owner.value;
    var s2 := RecordWaiter(Suspend(s, t, m), t, m);
    SuspendedMutexesExact(s, t, m, excused);
    SuspendedThreadsExact(s, t, m);
    SuspendedOwner(s, t, m);
    hide Linked, Sorted, Exact, Recomputed, Suspend, RecordWaiter, MutexLinks, MutexesExactBut, ThreadExact;
    if p < s.mutexes[m].prio && p < s.threads[o].cur {
      UpdateExact(s2, o, p, excused);
    } else {
      assert forall t': Tid :: t' < |s.threads| ==> t' == o || ThreadExact(s2, t');
    }
  }

  /** What the owner must run at once the new waiter is recorded. */
  lemma SuspendedOwner(s: State, t: Tid, m: Mid)
    requires Ok(s) && Running(s, t) && m < |s.mutexes| && MutexLinks(s, m)
    requires s.mutexes[m].owner.Some? && s.mutexes[m].owner != Some(t)
    requires ThreadsExact(s)
    ensures var s2 := RecordWaiter(Suspend(s, t, m), t, m); var o := s.mutexes[m].owner.value; var p := s.threads[t].cur;
      && Linked(s2) && ThreadLinks(s2, o)
      && (if p < s.mutexes[m].prio && p < s.threads[o].cur then p == Recomputed(s2, o) else ThreadExact(s2, o))
  {
    SuspendOk(s, t, m);
    var p := s.threads[t].cur;
    var o := s.mutexes[m].owner.value;
    var s2 := RecordWaiter(Suspend(s, t, m), t, m);
    assert ThreadLinks(s, o) && ThreadLinks(s2, o) && ThreadExact(s, o);
    assert m in s.threads[o].taken;
    if p < s.mutexes[m].prio && p < s.threads[o].cur {
      BoostIsRecomputed(s, s2, o, m, p);
    } else {
      MostUrgentUnique(s2.mutexes, s2.threads[o].taken, s2.threads[o].init, s.threads[o].cur);
    }
  }

  /** A waiter more urgent than the owner alone determines what the owner must run at. */
  lemma BoostIsRecomputed(s: State, r: State, o: Tid, m: Mid, p: Prio)
    requires o < |s.threads| && o < |r.threads| && ThreadLinks(s, o) && ThreadLinks(r, o)
    requires r.threads[o].init == s.threads[o].init && r.threads[o].taken == s.threads[o].taken
    requires |r.mutexes| == |s.mutexes| && m in s.threads[o].taken && m < |s.mutexes|
    requires forall m': Mid :: m' in s.threads[o].taken && m' != m ==> r.mutexes[m'] == s.mutexes[m']
    requires r.mutexes[m].prio == p && r.mutexes[m].ceiling == s.mutexes[m].ceiling
    requires p < Recomputed(s, o)
    ensures Recomputed(r, o) == p
  {
    assert Recomputed(s, o) <= Demand(s.mutexes[m]);
    MostUrgentUnique(r.mutexes, r.threads[o].taken, r.threads[o].init, p);
  }

  lemma SuspendedThreadsExact(s: State, t: Tid, m: Mid)
    requires Ok(s) && Running(s, t) && m < |s.mutexes| && MutexLinks(s, m)
    requires s.mutexes[m].owner.Some? && s.mutexes[m].owner != Some(t)
    requires ThreadsExact(s)
    ensures var s2 := RecordWaiter(Suspend(s, t, m), t, m);
      Linked(s2) && ThreadsExactBut(s2, s.mutexes[m].owner.value)
  {
    SuspendOk(s, t, m);
    var s2 := RecordWaiter(Suspend(s, t, m), t, m);
    forall t': Tid | t' < |s.threads| && s.mutexes[m].owner != Some(t') ensures ThreadExact(s2, t') {
      assert ThreadLinks(s, t') && ThreadLinks(s2, t') && ThreadExact(s, t');
      RecomputedFrame(s, s2, t');
    }
  }

  lemma SuspendedMutexesExact(s: State, t: Tid, m: Mid, excused: set<Mid>)
    requires Ok(s) && Running(s, t) && m < |s.mutexes| && MutexLinks(s, m)
    requires s.mutexes[m].owner.Some? && s.mutexes[m].owner != Some(t)
    requires MutexesExactBut(s, excused)
    ensures var s2 := RecordWaiter(Suspend(s, t, m), t, m); Linked(s2) && MutexesExactBut(s2, excused)
  {
    SuspendOk(s, t, m);
    var s2 := RecordWaiter(Suspend(s, t, m), t, m);
    if m !in excused {
      assert SortedList(s.threads, s.mutexes[m].waiters) && MutexExact(s, m);
      var k := EnqueueSplit(s.threads, s.mutexes[m].waiters, t);
      assert MutexExact(s2, m);
    }
    forall m': Mid | m' < |s.mutexes| && m' != m && m' !in excused ensures MutexExact(s2, m') {
      assert MutexLinks(s, m') && MutexLinks(s2, m') && MutexExact(s, m');
      MutexExactSame(s, s2, m');
    }
  }

  lemma TakeExact(s: State, t: Tid, m: Mid, wait: bool, excused: set<Mid>)
    requires Ok(s) && Running(s, t) && m < |s.mutexes| && ExactBut(s, excused)
    ensures Ok(Take(s, t, m, wait).0) && ExactBut(Take(s, t, m, wait).0, excused)
  {
    assert MutexLinks(s, m);
    var mx := s.mutexes[m];
    hide ExactBut, Acquire, Block, ThreadLinks, MutexLinks, SortedList;
    if mx.owner == Some(t) {
      if mx.hold < HOLD_MAX { HoldExact(s, m, mx.hold + 1, excused); }
    } else if mx.owner.None? {
      AcquireKeeps(s, t, m);
      AcquireExact(s, t, m, excused);
    } else if wait {
      BlockKeeps(s, t, m);
      BlockExact(s, t, m, excused);
    }
  }

  /** Taking a mutex keeps all three: links and orders, the bound, exact inheritance. */
  lemma TakeKeeps(s: State, t: Tid, m: Mid, wait: bool)
    requires Ok(s) && Running(s, t) && m < |s.mutexes|
    ensures Ok(Take(s, t, m, wait).0)
    ensures Bounded(s) ==> Bounded(Take(s, t, m, wait).0)
    ensures Exact(s) ==> Exact(Take(s, t, m, wait).0)
  {
    assert MutexLinks(s, m);
    var mx := s.mutexes[m];
    if mx.owner == Some(t) {
      if mx.hold < HOLD_MAX { HoldKeeps(s, m, mx.hold + 1); }
    } else if mx.owner.None? {
      AcquireKeeps(s, t, m);
    } else if wait {
      BlockKeeps(s, t, m);
    }
  }

  lemma HoldKeeps(s: State, m: Mid, h: nat)
    requires Ok(s) && m < |s.mutexes| && 1 <= h <= HOLD_MAX
    ensures var r := WithMutex(s, m, s.mutexes[m].(hold := h));
      Ok(r) && (Bounded(s) ==> Bounded(r)) && (Exact(s) ==> Exact(r))
  {
    var r := WithMutex(s, m, s.mutexes[m].(hold := h));
    HoldLinks(s, m, h);
    SamePrioritiesBounded(s, r);
    if Exact(s) { HoldExact(s, m, h, {}); }
  }

  lemma HoldLinks(s: State, m: Mid, h: nat)
    requires Ok(s) && m < |s.mutexes| && 1 <= h <= HOLD_MAX
    ensures Ok(WithMutex(s, m, s.mutexes[m].(hold := h)))
  {
    var r := WithMutex(s, m, s.mutexes[m].(hold := h));
    forall t: Tid | t < |s.threads| ensures ThreadLinks(r, t) { assert ThreadLinks(s, t); }
    forall m': Mid | m' < |s.mutexes| ensures MutexLinks(r, m') && SortedList(r.threads, r.mutexes[m'].waiters) {
      assert MutexLinks(s, m') && SortedList(s.threads, s.mutexes[m'].waiters);
    }
  }

  lemma HoldExact(s: State, m: Mid, h: nat, excused: set<Mid>)
    requires Ok(s) && m < |s.mutexes| && 1 <= h <= HOLD_MAX && ExactBut(s, excused)
    ensures var r := WithMutex(s, m, s.mutexes[m].(hold := h)); Ok(r) && ExactBut(r, excused)
  {
    HoldLinks(s, m, h);
    SamePrioritiesExact(s, WithMutex(s, m, s.mutexes[m].(hold := h)), excused);
  }

  // ---------------------------------------------------------------- steps that move no priority

  /** Nothing that priorities are made of differs. */
  ghost predicate SamePriorities(s: State, r: State) {
    && |r.threads| == |s.threads| && |r.mutexes| == |s.mutexes|
    && (forall t: Tid :: t < |s.threads| ==> var a, b := s.threads[t], r.threads[t];
          b.init == a.init && b.cur == a.cur && b.taken == a.taken)
    && (forall m: Mid :: m < |s.mutexes| ==> var a, b := s.mutexes[m], r.mutexes[m];
          b.prio == a.prio && b.ceiling == a.ceiling && b.waiters == a.waiters)
  }

  lemma SamePrioritiesExact(s: State, r: State, excused: set<Mid>)
    requires Linked(s) && Linked(r) && SamePriorities(s, r)
    ensures ExactBut(s, excused) <==> ExactBut(r, excused)
    ensures ThreadsExact(s) <==> ThreadsExact(r)
  {
    forall t: Tid | t < |s.threads| ensures ThreadExact(s, t) <==> ThreadExact(r, t) {
      assert ThreadLinks(s, t) && ThreadLinks(r, t);
      RecomputedFrame(s, r, t);
    }
    forall m: Mid | m < |s.mutexes| ensures MutexExact(s, m) <==> MutexExact(r, m) {
      assert MutexLinks(s, m) && MutexLinks(r, m);
      MutexExactSame(s, r, m);
    }
  }

  lemma SamePrioritiesBounded(s: State, r: State)
    requires Linked(s) && Linked(r) && SamePriorities(s, r)
    ensures Bounded(s) ==> Bounded(r)
  {
    if Bounded(s) {
      forall t: Tid | t < |s.threads| ensures ThreadBounded(r, t) { assert ThreadLinks(s, t) && ThreadLinks(r, t) && ThreadBounded(s, t); }
      forall m: Mid | m < |s.mutexes| ensures MutexBounded(r, m) { assert MutexLinks(s, m) && MutexLinks(r, m) && MutexBounded(s, m); }
    }
  }

  // ---------------------------------------------------------------- release

  /** The owner's record after the mutex left its taken list and before hand-over. */
  lemma GiveBackShape(s: State, t: Tid, m: Mid)
    requires Ok(s) && Running(s, t) && m < |s.mutexes| && MutexLinks(s, m) && ThreadLinks(s, t)
    requires s.mutexes[m].owner == Some(t)
    ensures var g := GiveBack(s, t, m);
      && g.mutexes == s.mutexes
      && |g.threads| == |s.threads|
      && g.threads[t] == s.threads[t].(taken := Remove(s.threads[t].taken, m), cur := g.threads[t].cur)
      && (forall t': Tid :: t' < |s.threads| && t' != t ==> g.threads[t'] == s.threads[t'])
      && ThreadLinks(g, t)
      && (Bounded(s) ==> ThreadBounded(g, t))
      && (ThreadsExact(s) ==> ThreadExact(g, t))
  {
    var g := GiveBack(s, t, m);
    var s1 := WithThread(s, t, s.threads[t].(taken := Remove(s.threads[t].taken, m)));
    RemoveNoDup(s.threads[t].taken, m);
    assert ThreadLinks(s1, t) && ThreadLinks(g, t);
    RecomputedFrame(s1, g, t);
    if Bounded(s) {
      assert ThreadBounded(s, t);
      forall m': Mid | m' in g.threads[t].taken ensures g.threads[t].cur <= g.mutexes[m'].prio {
        assert Recomputed(s1, t) <= Demand(s1.mutexes[m']);
      }
    }
    if ThreadsExact(s) {
      assert ThreadExact(s, t);
      if s.mutexes[m].ceiling == NO_PRIO && s.threads[t].cur != s.mutexes[m].prio {
        DropDemand(s, g, t, m);
      }
    }
  }

  /** Giving back a mutex that did not determine the priority changes nothing. */
  lemma DropDemand(s: State, g: State, t: Tid, m: Mid)
    requires t < |s.threads| && t < |g.threads| && ThreadLinks(s, t) && ThreadLinks(g, t)
    requires g.mutexes == s.mutexes && m in s.threads[t].taken && m < |s.mutexes|
    requires g.threads[t].init == s.threads[t].init && g.threads[t].taken == Remove(s.threads[t].taken, m)
    requires Recomputed(s, t) != Demand(s.mutexes[m])
    ensures Recomputed(g, t) == Recomputed(s, t)
  {
    MostUrgentUnique(g.mutexes, g.threads[t].taken, g.threads[t].init, Recomputed(s, t));
  }

  lemma ReleaseThreadLinks(s: State, t: Tid, m: Mid, t': Tid)
    requires Ok(s) && Running(s, t) && m < |s.mutexes| && MutexLinks(s, m) && ThreadLinks(s, t)
    requires s.mutexes[m].owner == Some(t) && t' < |s.threads| && ThreadLinks(s, t')
    ensures ThreadLinks(HandOver(GiveBack(s, t, m), m), t')
  {
    GiveBackShape(s, t, m);
    var r := HandOver(GiveBack(s, t, m), m);
    var ws := s.mutexes[m].waiters;
    assert ws != [] ==> ws[0] in ws;
    if t' == t {
      assert r.threads[t].taken == Remove(s.threads[t].taken, m);
    } else if ws != [] && t' == ws[0] {
      assert r.threads[t'].taken == [m] + s.threads[t'].taken;
    } else {
      assert r.threads[t'] == s.threads[t'];
      assert t' in ws ==> ws != [] && t' in ws[1..];
    }
  }

  /** The wait lists after a release: the hand-over list loses its head, the rest is untouched. */
  lemma ReleaseLists(s: State, t: Tid, m: Mid, m': Mid)
    requires Ok(s) && Running(s, t) && m < |s.mutexes| && MutexLinks(s, m) && ThreadLinks(s, t)
    requires s.mutexes[m].owner == Some(t) && m' < |s.mutexes| && MutexLinks(s, m')
    ensures var r := HandOver(GiveBack(s, t, m), m); var ws := r.mutexes[m'].waiters;
      && |r.threads| == |s.threads|
      && SortedList(s.threads, ws) && NoDup(ws)
      && forall w: Tid :: w in ws ==> w in s.mutexes[m'].waiters && w < |s.threads| && r.threads[w] == s.threads[w]
  {
    GiveBackShape(s, t, m);
    var r := HandOver(GiveBack(s, t, m), m);
    var ws := s.mutexes[m'].waiters;
    assert SortedList(s.threads, ws);
    assert s.mutexes[m].waiters != [] ==> s.mutexes[m].waiters[0] in s.mutexes[m].waiters;
    if m' != m {
      assert r.mutexes[m'] == s.mutexes[m'];
    } else if ws != [] {
      assert r.mutexes[m'].waiters == ws[1..];
      assert ws[0] !in ws[1..];
    }
  }

  lemma ReleaseMutexLinks(s: State, t: Tid, m: Mid, m': Mid)
    requires Ok(s) && Running(s, t) && m < |s.mutexes| && MutexLinks(s, m) && ThreadLinks(s, t)
    requires s.mutexes[m].owner == Some(t) && m' < |s.mutexes| && MutexLinks(s, m')
    ensures var r := HandOver(GiveBack(s, t, m), m);
      MutexLinks(r, m') && SortedList(r.threads, r.mutexes[m'].waiters)
  {
    GiveBackShape(s, t, m);
    ReleaseLists(s, t, m, m');
    var r := HandOver(GiveBack(s, t, m), m);
    var ws := r.mutexes[m'].waiters;
    assert forall i :: 0 <= i < |ws| ==> ws[i] in ws;
    assert s.mutexes[m].waiters != [] ==> s.mutexes[m].waiters[0] in s.mutexes[m].waiters;
  }

  lemma ReleaseLinks(s: State, t: Tid, m: Mid)
    requires Ok(s) && Running(s, t) && m < |s.mutexes| && MutexLinks(s, m) && ThreadLinks(s, t)
    requires s.mutexes[m].owner == Some(t)
    ensures Ok(HandOver(GiveBack(s, t, m), m))
  {
    GiveBackShape(s, t, m);
    var r := HandOver(GiveBack(s, t, m), m);
    forall t': Tid | t' < |r.threads| ensures ThreadLinks(r, t') {
      assert ThreadLinks(s, t');
      ReleaseThreadLinks(s, t, m, t');
    }
    forall m': Mid | m' < |r.mutexes| ensures MutexLinks(r, m') && SortedList(r.threads, r.mutexes[m'].waiters) {
      assert MutexLinks(s, m');
      ReleaseMutexLinks(s, t, m, m');
    }
  }

  lemma ReleaseMutexBounded(s: State, t: Tid, m: Mid, m': Mid)
    requires Ok(s) && Running(s, t) && m < |s.mutexes| && MutexLinks(s, m) && ThreadLinks(s, t)
    requires s.mutexes[m].owner == Some(t)
    requires m' < |s.mutexes| && MutexLinks(s, m') && MutexBounded(s, m')
    ensures var r := HandOver(GiveBack(s, t, m), m); MutexLinks(r, m') && MutexBounded(r, m')
  {
    ReleaseMutexLinks(s, t, m, m');
    ReleaseLists(s, t, m, m');
    GiveBackShape(s, t, m);
  }

  lemma ReleaseThreadBounded(s: State, t: Tid, m: Mid, t': Tid)
    requires Ok(s) && Running(s, t) && m < |s.mutexes| && MutexLinks(s, m) && ThreadLinks(s, t)
    requires s.mutexes[m].owner == Some(t) && Bounded(s)
    requires t' < |s.threads| && ThreadLinks(s, t') && ThreadBounded(s, t')
    ensures var r := HandOver(GiveBack(s, t, m), m); ThreadLinks(r, t') && ThreadBounded(r, t')
  {
    ReleaseThreadLinks(s, t, m, t');
    GiveBackShape(s, t, m);
    assert SortedList(s.threads, s.mutexes[m].waiters);
    assert s.mutexes[m].waiters != [] ==> s.mutexes[m].waiters[0] in s.mutexes[m].waiters;
  }

  lemma ReleaseBounded(s: State, t: Tid, m: Mid)
    requires Ok(s) && Running(s, t) && m < |s.mutexes| && MutexLinks(s, m) && ThreadLinks(s, t)
    requires s.mutexes[m].owner == Some(t) && Bounded(s)
    ensures Linked(HandOver(GiveBack(s, t, m), m)) && Bounded(HandOver(GiveBack(s, t, m), m))
  {
    GiveBackShape(s, t, m);
    ReleaseLinks(s, t, m);
    var r := HandOver(GiveBack(s, t, m), m);
    forall m': Mid | m' < |r.mutexes| ensures MutexBounded(r, m') {
      assert MutexLinks(s, m') && MutexBounded(s, m');
      ReleaseMutexBounded(s, t, m, m');
    }
    forall t': Tid | t' < |r.threads| ensures ThreadBounded(r, t') {
      assert ThreadLinks(s, t') && ThreadBounded(s, t');
      ReleaseThreadBounded(s, t, m, t');
    }
  }

  lemma ReleaseMutexesExact(s: State, t: Tid, m: Mid, excused: set<Mid>)
    requires Ok(s) && Running(s, t) && m < |s.mutexes| && MutexLinks(s, m) && ThreadLinks(s, t)
    requires s.mutexes[m].owner == Some(t) && MutexesExactBut(s, excused)
    ensures var r := HandOver(GiveBack(s, t, m), m); Linked(r) && MutexesExactBut(r, excused)
  {
    GiveBackShape(s, t, m);
    ReleaseLinks(s, t, m);
    var r := HandOver(GiveBack(s, t, m), m);
    var ws := s.mutexes[m].waiters;
    forall m': Mid | m' < |r.mutexes| && m' !in excused ensures MutexExact(r, m') {
      assert MutexLinks(s, m') && MutexLinks(r, m') && MutexExact(s, m');
      if t in s.mutexes[m'].waiters { assert false; }
      if m' != m { MutexExactSame(s, r, m'); }
      else if |ws| > 1 { assert ws[1] in ws; }
    }
  }

  lemma ReleaseOthersExact(s: State, t: Tid, m: Mid, t': Tid)
    requires Ok(s) && Running(s, t) && m < |s.mutexes| && MutexLinks(s, m) && ThreadLinks(s, t)
    requires s.mutexes[m].owner == Some(t) && ThreadsExact(s)
    requires t' < |s.threads| && (s.mutexes[m].waiters == [] || t' != s.mutexes[m].waiters[0])
    ensures var r := HandOver(GiveBack(s, t, m), m); Linked(r) && ThreadExact(r, t')
  {
    GiveBackShape(s, t, m);
    ReleaseLinks(s, t, m);
    var g := GiveBack(s, t, m);
    var r := HandOver(g, m);
    assert s.mutexes[m].waiters != [] ==> s.mutexes[m].waiters[0] in s.mutexes[m].waiters;
    assert ThreadLinks(s, t') && ThreadLinks(r, t') && ThreadExact(s, t');
    if t' == t {
      assert ThreadLinks(g, t') && ThreadExact(g, t);
      RecomputedFrame(g, r, t');
    } else {
      RecomputedFrame(s, r, t');
    }
  }

  /** Everything but the new owner is consistent after a release; the new owner is
      consistent exactly if it already meets the ceiling. */
  lemma HandOverExactIff(s: State, t: Tid, m: Mid, excused: set<Mid>)
    requires Ok(s) && Running(s, t) && m < |s.mutexes| && MutexLinks(s, m) && ThreadLinks(s, t)
    requires s.mutexes[m].owner == Some(t) && ExactBut(s, excused)
    ensures var r := HandOver(GiveBack(s, t, m), m);
      && Linked(r)
      && (ExactBut(r, excused) <==>
            (s.mutexes[m].waiters != [] ==>
              s.threads[s.mutexes[m].waiters[0]].cur <= s.mutexes[m].ceiling))
  {
    ReleaseLinks(s, t, m);
    ReleaseMutexesExact(s, t, m, excused);
    var r := HandOver(GiveBack(s, t, m), m);
    var ws := s.mutexes[m].waiters;
    assert ws != [] ==> ws[0] in ws;
    forall t': Tid | t' < |r.threads| && (ws == [] || t' != ws[0]) ensures ThreadExact(r, t') {
      ReleaseOthersExact(s, t, m, t');
    }
    if ws != [] {
      ReleaseNewOwner(s, t, m);
      assert ThreadsExact(r) ==> ThreadExact(r, ws[0]);
    }
  }

  lemma ReleaseNewOwner(s: State, t: Tid, m: Mid)
    requires Ok(s) && Running(s, t) && m < |s.mutexes| && MutexLinks(s, m) && ThreadLinks(s, t)
    requires s.mutexes[m].owner == Some(t) && ThreadsExact(s) && s.mutexes[m].waiters != []
    ensures var r := HandOver(GiveBack(s, t, m), m); var n := s.mutexes[m].waiters[0];
      Linked(r) && (ThreadExact(r, n) <==> s.threads[n].cur <= s.mutexes[m].ceiling)
  {
    GiveBackShape(s, t, m);
    ReleaseLinks(s, t, m);
    var r := HandOver(GiveBack(s, t, m), m);
    var ws := s.mutexes[m].waiters;
    var n := ws[0];
    assert n in ws;
    assert ThreadLinks(s, n) && ThreadLinks(r, n) && ThreadExact(s, n);
    assert SortedList(s.threads, ws);
    NewOwnerDemand(s, r, n, m);
  }

  lemma NewOwnerDemand(s: State, r: State, n: Tid, m: Mid)
    requires n < |s.threads| && n < |r.threads| && ThreadLinks(s, n) && ThreadLinks(r, n) && ThreadExact(s, n)
    requires r.threads[n].cur == s.threads[n].cur && r.threads[n].init == s.threads[n].init
    requires r.threads[n].taken == [m] + s.threads[n].taken
    requires |s.mutexes| == |r.mutexes| && m < |r.mutexes|
    requires forall m': Mid :: m' in s.threads[n].taken ==> Demand(r.mutexes[m']) == Demand(s.mutexes[m'])
    requires s.threads[n].cur <= r.mutexes[m].prio
    ensures ThreadExact(r, n) <==> s.threads[n].cur <= r.mutexes[m].ceiling
  {
    JoinDemand(s, r, n, m);
  }

  /** Releasing keeps links, orders and the bound.  Exact inheritance survives a
      hand-over if and only if the new owner already runs at or above the ceiling:
      hand-over does not apply the ceiling. */
  lemma ReleaseKeeps(s: State, t: Tid, m: Mid)
    requires Ok(s) && Running(s, t) && m < |s.mutexes|
    ensures Ok(Release(s, t, m).0)
    ensures Bounded(s) ==> Bounded(Release(s, t, m).0)
    ensures MutexLinks(s, m)
    ensures Exact(s) ==>
              (Exact(Release(s, t, m).0) <==>
                 (HandsOver(s, t, m) ==> s.threads[s.mutexes[m].waiters[0]].cur <= s.mutexes[m].ceiling))
  {
    assert MutexLinks(s, m) && ThreadLinks(s, t);
    var mx := s.mutexes[m];
    if mx.owner == Some(t) {
      if mx.hold > 1 {
        HoldKeeps(s, m, mx.hold - 1);
      } else {
        ReleaseLinks(s, t, m);
        if Bounded(s) { ReleaseBounded(s, t, m); }
        if Exact(s) { HandOverExactIff(s, t, m, {}); }
      }
    }
  }

  lemma ReleaseExactIff(s: State, t: Tid, m: Mid, excused: set<Mid>)
    requires Ok(s) && Running(s, t) && m < |s.mutexes| && ExactBut(s, excused)
    ensures Ok(Release(s, t, m).0) && MutexLinks(s, m)
    ensures ExactBut(Release(s, t, m).0, excused) <==>
              (HandsOver(s, t, m) ==> s.threads[s.mutexes[m].waiters[0]].cur <= s.mutexes[m].ceiling)
  {
    assert MutexLinks(s, m) && ThreadLinks(s, t);
    var mx := s.mutexes[m];
    hide Linked, Sorted, ExactBut, ThreadLinks, MutexLinks, HandOver, GiveBack;
    if mx.owner == Some(t) {
      if mx.hold > 1 {
        HoldExact(s, m, mx.hold - 1, excused);
      } else {
        ReleaseLinks(s, t, m);
        HandOverExactIff(s, t, m, excused);
      }
    }
  }

  // ---------------------------------------------------------------- waking, abandoning

  lemma WakeThreadLinks(s: State, t: Tid, t': Tid)
    requires t < |s.threads| && ThreadLinks(s, t) && Ok(s) && t' < |s.threads|
    ensures ThreadLinks(Wake(s, t), t')
    ensures Recomputed(Wake(s, t), t') == Recomputed(s, t')
  {
    assert ThreadLinks(s, t');
    RecomputedFrame(s, Wake(s, t), t');
  }

  lemma RemoveFromList(threads: seq<Thread>, ws: seq<Tid>, t: Tid)
    requires SortedList(threads, ws) && NoDup(ws)
    ensures SortedList(threads, Remove(ws, t)) && NoDup(Remove(ws, t))
  {
    RemoveNoDup(ws, t);
    RemoveKeepsOrder(threads, ws, t);
  }

  /** Order depends only on the priorities. */
  lemma SortedListFrame(threads: seq<Thread>, threads': seq<Thread>, ws: seq<Tid>)
    requires SortedList(threads, ws) && |threads'| == |threads|
    requires forall t: Tid :: t < |threads| ==> threads'[t].cur == threads[t].cur
    ensures SortedList(threads', ws)
  {
  }

  /** Waking takes the thread out of every wait list. */
  lemma WakeList(s: State, t: Tid, m: Mid)
    requires t < |s.threads| && ThreadLinks(s, t) && m < |s.mutexes| && MutexLinks(s, m)
    ensures Wake(s, t).mutexes[m] == s.mutexes[m].(waiters := Remove(s.mutexes[m].waiters, t))
  {
    var ws := s.mutexes[m].waiters;
    if t !in ws { RemoveAbsent(ws, t); }
  }

  lemma WakeMutexLinks(s: State, t: Tid, m: Mid)
    requires t < |s.threads| && ThreadLinks(s, t) && m < |s.mutexes|
    requires MutexLinks(s, m) && SortedList(s.threads, s.mutexes[m].waiters)
    ensures MutexLinks(Wake(s, t), m) && SortedList(Wake(s, t).threads, Wake(s, t).mutexes[m].waiters)
    ensures forall w: Tid :: w in Wake(s, t).mutexes[m].waiters ==> w in s.mutexes[m].waiters
    ensures t !in s.mutexes[m].waiters ==> Wake(s, t).mutexes[m] == s.mutexes[m]
  {
    var r := Wake(s, t);
    var ws := s.mutexes[m].waiters;
    WakeList(s, t, m);
    RemoveFromList(s.threads, ws, t);
    SortedListFrame(s.threads, r.threads, Remove(ws, t));
  }

  /** A timer expiry, a resume or a close keeps links, orders and the bound, even
      though the mutex priority and the owner's boost become stale. */
  lemma WakeKeeps(s: State, t: Tid)
    requires t < |s.threads| && ThreadLinks(s, t) && Ok(s)
    ensures Ok(Wake(s, t))
    ensures Bounded(s) ==> Bounded(Wake(s, t))
  {
    var r := Wake(s, t);
    forall t': Tid | t' < |s.threads| ensures ThreadLinks(r, t') { WakeThreadLinks(s, t, t'); }
    forall m: Mid | m < |s.mutexes| ensures MutexLinks(r, m) && SortedList(r.threads, r.mutexes[m].waiters) {
      assert MutexLinks(s, m) && SortedList(s.threads, s.mutexes[m].waiters);
      WakeMutexLinks(s, t, m);
    }
    if Bounded(s) {
      forall t': Tid | t' < |s.threads| ensures ThreadBounded(r, t') {
        assert ThreadLinks(s, t') && ThreadBounded(s, t');
      }
      forall m: Mid | m < |s.mutexes| ensures MutexBounded(r, m) {
        assert MutexLinks(s, m) && MutexBounded(s, m) && SortedList(s.threads, s.mutexes[m].waiters);
        WakeMutexLinks(s, t, m);
      }
    }
  }

  /** Waking a waiter leaves exact everything but the record of the mutex it waited for. */
  lemma WakeExact(s: State, t: Tid, excused: set<Mid>)
    requires t < |s.threads| && ThreadLinks(s, t) && Ok(s) && ExactBut(s, excused)
    ensures Ok(Wake(s, t))
    ensures ExactBut(Wake(s, t), if Waiting(s, t) then excused + {s.threads[t].pending.value} else excused)
  {
    WakeKeeps(s, t);
    var r := Wake(s, t);
    var excused' := if Waiting(s, t) then excused + {s.threads[t].pending.value} else excused;
    forall t': Tid | t' < |s.threads| ensures ThreadExact(r, t') {
      assert ThreadLinks(s, t') && ThreadExact(s, t');
      WakeThreadLinks(s, t, t');
    }
    forall m: Mid | m < |s.mutexes| && m !in excused' ensures MutexExact(r, m) {
      assert MutexLinks(s, m) && MutexLinks(r, m) && MutexExact(s, m);
      MutexExactSame(s, r, m);
    }
  }

  lemma LeaveBounded(s: State, m: Mid, t: Tid)
    requires t < |s.threads| && m < |s.mutexes| && Ok(s) && MutexLinks(s, m) && Bounded(s)
    ensures Linked(Leave(s, m, t)) && Bounded(Leave(s, m, t))
  {
    var p := FirstPrio(s.threads, s.mutexes[m].waiters);
    var s1 := WithMutex(s, m, s.mutexes[m].(prio := p));
    PrioShape(s, m, p);
    LeaveShape(s, m, t);
    assert MutexBounded(s, m) && SortedList(s.threads, s.mutexes[m].waiters);
    if s.mutexes[m].waiters != [] { assert s.mutexes[m].waiters[0] in s.mutexes[m].waiters; }
    forall t': Tid | t' < |s.threads| ensures ThreadBounded(s1, t') {
      assert ThreadLinks(s, t') && ThreadLinks(s1, t') && ThreadBounded(s, t');
    }
    forall m': Mid | m' < |s.mutexes| ensures MutexBounded(s1, m') {
      assert MutexLinks(s, m') && MutexLinks(s1, m') && MutexBounded(s, m');
    }
    if s.mutexes[m].owner.Some? {
      RepairOwner(s1, s.mutexes[m].owner.value);
    }
  }

  /** Repairing a thread with its recomputed priority. */
  lemma RepairOwner(s: State, o: Tid)
    requires o < |s.threads| && Ok(s) && ThreadLinks(s, o)
    requires ThreadsBoundedBut(s, o) && MutexesBounded(s)
    ensures Ok(UpdatePriority(s, o, Recomputed(s, o))) && Bounded(UpdatePriority(s, o, Recomputed(s, o)))
  {
    var q := Recomputed(s, o);
    forall m: Mid | m in s.threads[o].taken ensures q <= s.mutexes[m].prio { assert q <= Demand(s.mutexes[m]); }
    UpdateBounded(s, o, q);
  }

  lemma ClearPending(s: State, t: Tid)
    requires t < |s.threads| && Ok(s) && !s.threads[t].suspended
    ensures var r := WithThread(s, t, s.threads[t].(pending := None));
      Ok(r) && SamePriorities(s, r) && (Bounded(s) ==> Bounded(r))
  {
    var r := WithThread(s, t, s.threads[t].(pending := None));
    forall t': Tid | t' < |s.threads| ensures ThreadLinks(r, t') { assert ThreadLinks(s, t'); }
    forall m: Mid | m < |s.mutexes| ensures MutexLinks(r, m) && SortedList(r.threads, r.mutexes[m].waiters) {
      assert MutexLinks(s, m) && SortedList(s.threads, s.mutexes[m].waiters);
    }
    SamePrioritiesBounded(s, r);
  }

  lemma AbandonKeeps(s: State, t: Tid)
    requires t < |s.threads| && Ok(s) && !s.threads[t].suspended && s.threads[t].pending.Some?
    ensures Ok(Abandon(s, t))
    ensures Bounded(s) ==> Bounded(Abandon(s, t))
  {
    assert ThreadLinks(s, t);
    var m := s.threads[t].pending.value;
    assert MutexLinks(s, m);
    LeaveShape(s, m, t);
    if Bounded(s) { LeaveBounded(s, m, t); }
    ClearPending(Leave(s, m, t), t);
  }

  /** `rt_mutex_drop_thread` and the clean-up after a failed wait do the same work. */
  lemma DropIsLeave(s: State, m: Mid, t: Tid)
    requires t < |s.threads| && m < |s.mutexes| && Ok(s)
    requires !s.threads[t].suspended && s.threads[t].pending == Some(m)
    ensures var d := DropThread(s, m, t);
      t < |d.threads| && Abandon(s, t) == WithThread(d, t, d.threads[t].(pending := None))
  {
    NotListed(s, m, t);
    LeaveShape(s, m, t);
  }

  /** The mutex record a leaving waiter finds after its wake-up, refreshed. */
  function Refreshed(w: State, m: Mid): State
    requires m < |w.mutexes| && MutexLinks(w, m)
  {
    WithMutex(w, m, w.mutexes[m].(prio := FirstPrio(w.threads, w.mutexes[m].waiters)))
  }

  /** The guard of the repair fails although the owner does need it: it does not run at the
      leaving thread's current priority, nor at what the refreshed record demands. */
  ghost predicate MissesRepair(s: State, t: Tid)
    requires t < |s.threads| && Ok(s) && s.threads[t].pending.Some?
  {
    assert ThreadLinks(s, t);
    var m := s.threads[t].pending.value;
    assert MutexLinks(s, m);
    PrioShape(s, m, FirstPrio(s.threads, s.mutexes[m].waiters));
    s.mutexes[m].owner.Some? &&
    var o := s.mutexes[m].owner.value;
    assert ThreadLinks(Refreshed(s, m), o);
    s.threads[o].cur != s.threads[t].cur && s.threads[o].cur != Recomputed(Refreshed(s, m), o)
  }

  /** The refreshed record is exact, and only the owner can be affected. */
  lemma RefreshedExact(s: State, m: Mid, s1: State, excused: set<Mid>)
    requires Ok(s) && m < |s.mutexes| && MutexLinks(s, m) && s1 == Refreshed(s, m) && Ok(s1)
    requires ExactBut(s, excused)
    ensures MutexesExactBut(s1, excused - {m})
    ensures forall t': Tid :: t' < |s.threads| && s.mutexes[m].owner != Some(t') ==> ThreadExact(s1, t')
  {
    forall m': Mid | m' < |s.mutexes| && m' !in excused - {m} ensures MutexExact(s1, m') {
      assert MutexLinks(s, m') && MutexLinks(s1, m');
      if m' != m { MutexExactSame(s, s1, m'); }
    }
    forall t': Tid | t' < |s.threads| && s.mutexes[m].owner != Some(t') ensures ThreadExact(s1, t') {
      assert ThreadLinks(s, t') && ThreadLinks(s1, t') && ThreadExact(s, t');
      RecomputedFrame(s, s1, t');
    }
  }

  lemma LeaveExactIff(s: State, t: Tid, excused: set<Mid>)
    requires t < |s.threads| && Ok(s) && s.threads[t].pending.Some? && ExactBut(s, excused)
    requires var m := s.threads[t].pending.value; m < |s.mutexes| && MutexLinks(s, m) && Ok(Leave(s, m, t))
    ensures var m := s.threads[t].pending.value; var r := Leave(s, m, t);
      && (!MissesRepair(s, t) ==> ExactBut(r, excused - {m}))
      && (MissesRepair(s, t) ==> !ThreadsExact(r))
  {
    var m := s.threads[t].pending.value;
    var s1 := Refreshed(s, m);
    PrioShape(s, m, FirstPrio(s.threads, s.mutexes[m].waiters));
    RefreshedExact(s, m, s1, excused);
    if s.mutexes[m].owner.Some? {
      var o := s.mutexes[m].owner.value;
      assert ThreadLinks(s1, o);
      var q := Recomputed(s1, o);
      if s.threads[o].cur == s.threads[t].cur && q != s1.threads[o].cur {
        UpdateExact(s1, o, q, excused - {m});
      } else {
        assert ThreadExact(s1, o) <==> q == s.threads[o].cur;
      }
    }
  }

  /** A clean-up takes the mutex off the excused ones if and only if it repairs the owner or
      the owner needed no repair; other waiters may be late at the same time. */
  lemma AbandonExactIff(s: State, t: Tid, excused: set<Mid>)
    requires t < |s.threads| && Ok(s) && !s.threads[t].suspended && s.threads[t].pending.Some?
    requires ExactBut(s, excused)
    ensures Ok(Abandon(s, t))
    ensures !MissesRepair(s, t) ==> ExactBut(Abandon(s, t), excused - {s.threads[t].pending.value})
    ensures MissesRepair(s, t) ==> !ThreadsExact(Abandon(s, t))
  {
    assert ThreadLinks(s, t);
    var m := s.threads[t].pending.value;
    assert MutexLinks(s, m);
    LeaveShape(s, m, t);
    var l := Leave(s, m, t);
    LeaveExactIff(s, t, excused);
    ClearPending(l, t);
    var r := WithThread(l, t, l.threads[t].(pending := None));
    SamePrioritiesExact(l, r, excused - {m});
  }

  /** A wait that is given up in one piece (closing a blocked thread and dropping it
      from the mutex, or a wake-up whose clean-up runs before anything else happens)
      restores exact inheritance. */
  lemma GiveUpExact(s: State, t: Tid)
    requires t < |s.threads| && ThreadLinks(s, t) && Ok(s) && Exact(s) && Waiting(s, t)
    ensures Ok(Wake(s, t)) && Ok(Abandon(Wake(s, t), t)) && Exact(Abandon(Wake(s, t), t))
  {
    var w, m := Wake(s, t), s.threads[t].pending.value;
    WakeExact(s, t, {});
    assert {} + {m} - {m} == {};
    AbandonExactIff(w, t, {} + {m});
    assert MutexLinks(s, m) && MutexLinks(w, m);
    var o := s.mutexes[m].owner.value;
    PrioShape(w, m, FirstPrio(w.threads, w.mutexes[m].waiters));
    assert ThreadLinks(Refreshed(w, m), o);
    if s.threads[o].cur != s.threads[t].cur { UnboostedOwner(s, t, Refreshed(w, m), o); }
  }

  /** If the leaving waiter does not run at the owner's priority, it did not determine it. */
  lemma UnboostedOwner(s: State, t: Tid, s1: State, o: Tid)
    requires t < |s.threads| && ThreadLinks(s, t) && Ok(s) && Exact(s) && Waiting(s, t)
    requires var m := s.threads[t].pending.value; var w := Wake(s, t);
      && s.mutexes[m].owner == Some(o) && o < |s.threads|
      && Ok(w) && MutexLinks(w, m) && s1 == Refreshed(w, m)
      && Ok(s1) && ThreadLinks(s1, o)
    requires s.threads[o].cur != s.threads[t].cur
    ensures ThreadExact(s1, o)
  {
    var m := s.threads[t].pending.value;
    var ws, ws1 := s.mutexes[m].waiters, s1.mutexes[m].waiters;
    assert MutexLinks(s, m) && MutexExact(s, m) && SortedList(s.threads, ws);
    assert ThreadLinks(s, o) && ThreadExact(s, o) && m in s.threads[o].taken;
    assert Recomputed(s, o) <= Demand(s.mutexes[m]);
    FirstAfterRemove(s.threads, ws, t);
    MostUrgentUnique(s1.mutexes, s1.threads[o].taken, s1.threads[o].init, s.threads[o].cur);
  }

  /** Removing a waiter only raises the first priority, and not at all unless it was the first. */
  lemma FirstAfterRemove(threads: seq<Thread>, ws: seq<Tid>, t: Tid)
    requires SortedList(threads, ws) && NoDup(ws) && t in ws
    ensures Below(Remove(ws, t), |threads|)
    ensures FirstPrio(threads, Remove(ws, t)) >= FirstPrio(threads, ws)
    ensures FirstPrio(threads, ws) == threads[t].cur || FirstPrio(threads, Remove(ws, t)) == FirstPrio(threads, ws)
  {
    var r := Remove(ws, t);
    if r != [] { assert r[0] in ws; }
    if ws[0] != t { assert r[0] == ws[0]; }
  }

  // ---------------------------------------------------------------- ceiling, sleep

  lemma CeilingKeeps(s: State, m: Mid, c: Prio)
    requires Ok(s) && m < |s.mutexes|
    ensures Ok(SetCeiling(s, m, c))
    ensures Bounded(s) ==> Bounded(SetCeiling(s, m, c))
    ensures Exact(s) ==> Exact(SetCeiling(s, m, c))
  {
    if c < PRIORITY_MAX {
      CeilingOk(s, m, c);
      if Bounded(s) { CeilingBounded(s, m, c); }
      if Exact(s) { CeilingExact(s, m, c, {}); }
    }
  }

  lemma CeilingBounded(s: State, m: Mid, c: Prio)
    requires Ok(s) && m < |s.mutexes| && c < PRIORITY_MAX && Bounded(s)
    ensures Linked(SetCeiling(s, m, c)) && Bounded(SetCeiling(s, m, c))
  {
    CeilingOk(s, m, c);
    var s1 := WithMutex(s, m, s.mutexes[m].(ceiling := c));
    forall t: Tid | t < |s.threads| ensures ThreadBounded(s1, t) { assert ThreadLinks(s, t) && ThreadBounded(s, t); }
    forall m': Mid | m' < |s.mutexes| ensures MutexBounded(s1, m') { assert MutexLinks(s, m') && MutexBounded(s, m'); }
    assert MutexLinks(s, m);
    if s.mutexes[m].owner.Some? { RepairOwner(s1, s.mutexes[m].owner.value); }
  }

  lemma CeilingExact(s: State, m: Mid, c: Prio, excused: set<Mid>)
    requires Ok(s) && m < |s.mutexes| && ExactBut(s, excused)
    ensures Linked(SetCeiling(s, m, c)) && ExactBut(SetCeiling(s, m, c), excused)
  {
    if c < PRIORITY_MAX {
      CeilingOk(s, m, c);
      var s1 := WithMutex(s, m, s.mutexes[m].(ceiling := c));
      assert MutexLinks(s, m);
      forall m': Mid | m' < |s.mutexes| && m' !in excused ensures MutexExact(s1, m') {
        assert MutexLinks(s, m') && MutexLinks(s1, m') && MutexExact(s, m');
        MutexExactSame(s, s1, m');
      }
      forall t: Tid | t < |s.threads| && s.mutexes[m].owner != Some(t) ensures ThreadExact(s1, t) {
        assert ThreadLinks(s, t) && ThreadLinks(s1, t) && ThreadExact(s, t);
        RecomputedFrame(s, s1, t);
      }
      if s.mutexes[m].owner.Some? {
        var o := s.mutexes[m].owner.value;
        assert ThreadLinks(s1, o);
        var q := Recomputed(s1, o);
        if q != s1.threads[o].cur { UpdateExact(s1, o, q, excused); } else { assert ThreadExact(s1, o); }
      }
    }
  }

  lemma SleepKeeps(s: State, t: Tid)
    requires Ok(s) && Running(s, t)
    ensures Ok(Sleep(s, t)) && SamePriorities(s, Sleep(s, t))
    ensures Bounded(s) ==> Bounded(Sleep(s, t))
  {
    var r := Sleep(s, t);
    forall t': Tid | t' < |s.threads| ensures ThreadLinks(r, t') { assert ThreadLinks(s, t'); }
    forall m: Mid | m < |s.mutexes| ensures MutexLinks(r, m) && SortedList(r.threads, r.mutexes[m].waiters) {
      assert MutexLinks(s, m) && SortedList(s.threads, s.mutexes[m].waiters);
    }
    SamePrioritiesBounded(s, r);
  }
}
