/** What a chain repair restores: exact inheritance if it held everywhere else,
    and in any case the bound that rules out priority inversion. */
module MutexRepair {
  import opened Common
  import opened MutexState
  import opened MutexChain

  ghost predicate ThreadsExactBut(s: State, t: Tid)
    requires Linked(s)
  {
    forall t': Tid :: t' < |s.threads| && t' != t ==> ThreadExact(s, t')
  }

  lemma SetCurExact(s: State, t: Tid, p: Prio)
    requires t < |s.threads| && Linked(s) && ThreadsExactBut(s, t) && p == Recomputed(s, t)
    ensures Linked(SetCur(s, t, p))
    ensures ThreadsExact(SetCur(s, t, p))
  {
    SetCurShape(s, t, p);
    forall t': Tid | t' < |s.threads| ensures ThreadExact(SetCur(s, t, p), t') {
      assert ThreadLinks(s, t') && ThreadLinks(SetCur(s, t, p), t');
      RecomputedFrame(s, SetCur(s, t, p), t');
      if t' != t { assert ThreadExact(s, t'); }
    }
  }

  /** The chain leaves every thread and every mutex exact that is not excused. */
  lemma {:induction false} UpdateExact(s: State, t: Tid, p: Prio, excused: set<Mid>)
    requires t < |s.threads| && Linked(s) && Sorted(s)
    requires ThreadsExactBut(s, t) && MutexesExactBut(s, excused) && p == Recomputed(s, t)
    ensures ExactBut(UpdatePriority(s, t, p), excused)
    decreases if Waiting(s, t) then Inconsistent(s, t, p) else 0, Distance(s, t, p)
  {
    SetCurExact(s, t, p);
    var s1 := SetCur(s, t, p);
    if !Waiting(s, t) {
      forall m: Mid | m < |s.mutexes| && m !in excused ensures MutexExact(s1, m) {
        assert MutexLinks(s, m) && MutexExact(s, m);
        if s.mutexes[m].waiters != [] { assert s.mutexes[m].waiters[0] in s.mutexes[m].waiters; }
      }
    } else {
      RequeueSorts(s, t, p);
      RequeueFrame(s, t, p);
      var s2 := Requeue(s1, t);
      var o := NextOwner(s, t, p);
      forall m: Mid | m < |s.mutexes| && m !in excused ensures MutexExact(s2, m) {
        assert MutexExact(s, m) && m !in BadMutexes(s);
        assert m !in BadMutexes(s2);
      }
      forall t': Tid | t' < |s.threads| && t' != o ensures ThreadExact(s2, t') {
        assert ThreadLinks(s, t') && ThreadLinks(s1, t') && ThreadExact(s1, t');
      }
      ChainStep(s, t, p);
      var q := Recomputed(s2, o);
      if q == s2.threads[o].cur {
        assert ThreadExact(s2, o);
      } else {
        UpdateExact(s2, o, q, excused);
      }
    }
  }

  // ---------------------------------------------------------------- bounded inversion

  /** A thread runs no less urgently than its own priority and than what is
      recorded on any mutex it holds. */
  ghost predicate ThreadBounded(s: State, t: Tid)
    requires t < |s.threads| && ThreadLinks(s, t)
  {
    && s.threads[t].cur <= s.threads[t].init
    && forall m: Mid :: m in s.threads[t].taken ==> s.threads[t].cur <= s.mutexes[m].prio
  }

  /** A mutex records no less urgency than any of its waiters has. */
  ghost predicate MutexBounded(s: State, m: Mid)
    requires m < |s.mutexes| && MutexLinks(s, m)
  {
    forall w: Tid :: w in s.mutexes[m].waiters ==> s.mutexes[m].prio <= s.threads[w].cur
  }

  ghost predicate ThreadsBoundedBut(s: State, t: Tid)
    requires Linked(s)
  {
    forall t': Tid :: t' < |s.threads| && t' != t ==> ThreadBounded(s, t')
  }

  ghost predicate MutexesBounded(s: State)
    requires Linked(s)
  {
    forall m: Mid :: m < |s.mutexes| ==> MutexBounded(s, m)
  }

  ghost predicate Bounded(s: State)
    requires Linked(s)
  {
    && (forall t: Tid :: t < |s.threads| ==> ThreadBounded(s, t))
    && MutexesBounded(s)
  }

  /** The bound says there is no priority inversion. */
  lemma BoundedNoInversion(s: State, m: Mid, w: Tid)
    requires Linked(s) && Bounded(s) && m < |s.mutexes| && w in s.mutexes[m].waiters
    ensures s.mutexes[m].owner.Some? && s.mutexes[m].owner.value < |s.threads| && w < |s.threads|
    ensures s.threads[s.mutexes[m].owner.value].cur <= s.threads[w].cur
  {
    assert MutexLinks(s, m) && MutexBounded(s, m);
    var o := s.mutexes[m].owner.value;
    assert ThreadLinks(s, o) && ThreadBounded(s, o);
  }

  lemma ExactIsBounded(s: State)
    requires Linked(s) && Sorted(s) && Exact(s)
    ensures Bounded(s)
  {
    forall t: Tid | t < |s.threads| ensures ThreadBounded(s, t) {
      assert ThreadLinks(s, t) && ThreadExact(s, t);
    }
    forall m: Mid | m < |s.mutexes| ensures MutexBounded(s, m) {
      assert MutexLinks(s, m) && MutexExact(s, m) && SortedList(s.threads, s.mutexes[m].waiters);
    }
  }

  lemma {:induction false} UpdateBounded(s: State, t: Tid, p: Prio)
    requires t < |s.threads| && Linked(s) && Sorted(s)
    requires ThreadsBoundedBut(s, t) && MutexesBounded(s)
    requires p <= s.threads[t].init && ThreadLinks(s, t)
    requires forall m: Mid :: m in s.threads[t].taken ==> p <= s.mutexes[m].prio
    ensures Bounded(UpdatePriority(s, t, p))
    decreases if Waiting(s, t) then Inconsistent(s, t, p) else 0, Distance(s, t, p)
  {
    var s1 := SetCur(s, t, p);
    SetCurShape(s, t, p);
    forall t': Tid | t' < |s.threads| ensures ThreadBounded(s1, t') {
      assert ThreadLinks(s, t') && ThreadLinks(s1, t');
      if t' != t { assert ThreadBounded(s, t'); }
    }
    if !Waiting(s, t) {
      forall m: Mid | m < |s.mutexes| ensures MutexBounded(s1, m) {
        assert MutexLinks(s, m) && MutexBounded(s, m);
      }
    } else {
      RequeueSorts(s, t, p);
      var s2 := Requeue(s1, t);
      var m := s.threads[t].pending.value;
      var o := NextOwner(s, t, p);
      assert ThreadLinks(s, t) && MutexLinks(s, m);
      forall m': Mid | m' < |s.mutexes| ensures MutexBounded(s2, m') {
        assert MutexLinks(s, m') && MutexLinks(s2, m') && MutexBounded(s, m') && SortedList(s2.threads, s2.mutexes[m'].waiters);
      }
      forall t': Tid | t' < |s.threads| && t' != o ensures ThreadBounded(s2, t') {
        assert ThreadLinks(s, t') && ThreadLinks(s2, t') && ThreadBounded(s1, t');
      }
      ChainStep(s, t, p);
      var q := Recomputed(s2, o);
      forall m': Mid | m' in s2.threads[o].taken ensures q <= s2.mutexes[m'].prio {
        assert q <= Demand(s2.mutexes[m']);
      }
      if q == s2.threads[o].cur {
        assert ThreadLinks(s2, o) && ThreadBounded(s2, o);
      } else {
        UpdateBounded(s2, o, q);
      }
    }
  }
}
