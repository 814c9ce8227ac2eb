/** `_thread_update_priority`: following the wait-for chain from a thread whose
    priority changes, and why that always stops. */
module MutexChain {
  import opened Common
  import opened MutexState

  /** Changing the priority of one thread. */
  function SetCur(s: State, t: Tid, p: Prio): (r: State)
    requires t < |s.threads|
  {
    s.(threads := s.threads[t := s.threads[t].(cur := p)])
  }

  /** Re-sorting a blocked thread in the wait list of its mutex and refreshing
      the mutex priority. */
  function Requeue(s: State, t: Tid): (r: State)
    requires t < |s.threads| && Waiting(s, t) && Linked(s)
  {
    var m := s.threads[t].pending.value;
    assert ThreadLinks(s, t) && MutexLinks(s, m);
    var ws := Enqueue(s.threads, Remove(s.mutexes[m].waiters, t), t);
    s.(mutexes := s.mutexes[m := s.mutexes[m].(waiters := ws, prio := FirstPrio(s.threads, ws))])
  }

  lemma SetCurShape(s: State, t: Tid, p: Prio)
    requires t < |s.threads| && Linked(s)
    ensures SameShape(s, SetCur(s, t, p)) && Linked(SetCur(s, t, p))
  {
    forall m: Mid | m < |s.mutexes| ensures NoDup(s.mutexes[m].waiters) { assert MutexLinks(s, m); }
    SameShapeLinked(s, SetCur(s, t, p));
  }

  /** Only the wait list of the changed thread can be out of order, and re-queueing repairs it. */
  lemma RequeueSorts(s: State, t: Tid, p: Prio)
    requires t < |s.threads| && Linked(s) && Sorted(s) && Waiting(s, t)
    ensures Linked(SetCur(s, t, p)) && Waiting(SetCur(s, t, p), t)
    ensures var s2 := Requeue(SetCur(s, t, p), t);
      SameShape(s, s2) && Linked(s2) && Sorted(s2)
  {
    SetCurShape(s, t, p);
    var s1 := SetCur(s, t, p);
    var s2 := Requeue(s1, t);
    var m := s.threads[t].pending.value;
    assert ThreadLinks(s, t) && MutexLinks(s, m);
    var ws := s.mutexes[m].waiters;
    assert SortedList(s.threads, ws);
    RequeuedList(s, s1, t, m);
    forall m': Mid | m' < |s.mutexes| ensures NoDup(s2.mutexes[m'].waiters) && SortedList(s2.threads, s2.mutexes[m'].waiters) {
      assert MutexLinks(s, m') && SortedList(s.threads, s.mutexes[m'].waiters);
      if m' != m && t in s.mutexes[m'].waiters { assert false; }
    }
    SameShapeLinked(s, s2);
  }

  /** The repaired list: same threads, no duplicates, in order of the new priorities. */
  lemma RequeuedList(s: State, s1: State, t: Tid, m: Mid)
    requires t < |s.threads| && m < |s.mutexes| && MutexLinks(s, m) && t in s.mutexes[m].waiters
    requires SortedList(s.threads, s.mutexes[m].waiters)
    requires |s1.threads| == |s.threads|
    requires forall t': Tid :: t' < |s.threads| && t' != t ==> s1.threads[t'] == s.threads[t']
    ensures Below(Remove(s.mutexes[m].waiters, t), |s.threads|)
    ensures var r := Enqueue(s1.threads, Remove(s.mutexes[m].waiters, t), t);
      && SortedList(s1.threads, r) && NoDup(r) && |r| == |s.mutexes[m].waiters|
  {
    var ws := s.mutexes[m].waiters;
    RemoveKeepsOrder(s1.threads, ws, t);
    RemoveNoDup(ws, t);
    EnqueueKeepsOrder(s1.threads, Remove(ws, t), t);
    EnqueueNoDup(s1.threads, Remove(ws, t), t);
  }

  // ---------------------------------------------------------------- termination

  ghost function BadThreads(s: State): set<Tid>
    requires Linked(s)
  {
    set t: Tid | t < |s.threads| && !ThreadExact(s, t)
  }

  ghost function BadMutexes(s: State): set<Mid>
    requires Linked(s)
  {
    set m: Mid | m < |s.mutexes| && !MutexExact(s, m)
  }

  ghost function CurSum(ts: seq<Thread>): (r: nat)
    ensures r <= 0xFF * |ts|
  {
    if ts == [] then 0 else ts[0].cur + CurSum(ts[1..])
  }

  lemma {:induction false} CurSumUpdate(ts: seq<Thread>, t: Tid, th: Thread)
    requires t < |ts|
    ensures CurSum(ts[t := th]) == CurSum(ts) - ts[t].cur + th.cur
  {
    if t == 0 {
      assert ts[t := th][1..] == ts[1..];
    } else {
      assert ts[t := th][1..] == ts[1..][t - 1 := th];
      CurSumUpdate(ts[1..], t - 1, th);
    }
  }

  /** First component: how many cached priorities disagree with their definition,
      counting mutexes as they were before the change. */
  ghost function Inconsistent(s: State, t: Tid, p: Prio): nat
    requires t < |s.threads| && Linked(s)
  {
    SetCurShape(s, t, p);
    |BadThreads(SetCur(s, t, p))| + |BadMutexes(s)|
  }

  /** Second component: a boost lowers the sum of priority numbers, a reset raises it. */
  ghost function Distance(s: State, t: Tid, p: Prio): nat
    requires t < |s.threads|
  {
    if p < s.threads[t].cur then CurSum(s.threads) else 0xFF * |s.threads| - CurSum(s.threads)
  }

  /** The next link of the chain: the owner of the mutex `t` waits for, if its
      recomputed priority differs from its current one. */
  function NextOwner(s: State, t: Tid, p: Prio): (o: Tid)
    requires t < |s.threads| && Waiting(s, t) && Linked(s)
    ensures o < |s.threads|
  {
    assert ThreadLinks(s, t) && MutexLinks(s, s.threads[t].pending.value);
    s.mutexes[s.threads[t].pending.value].owner.value
  }

  /** One link of the chain touches one mutex and at most one further thread. */
  lemma RequeueFrame(s: State, t: Tid, p: Prio)
    requires t < |s.threads| && Linked(s) && Sorted(s) && Waiting(s, t)
    ensures Linked(SetCur(s, t, p)) && Waiting(SetCur(s, t, p), t)
    ensures var s1 := SetCur(s, t, p); var s2 := Requeue(s1, t);
      var m := s.threads[t].pending.value; var o := NextOwner(s, t, p);
      && Linked(s2)
      && BadMutexes(s2) == BadMutexes(s) - {m}
      && (forall t': Tid :: t' < |s.threads| && t' != o ==> Recomputed(s2, t') == Recomputed(s1, t'))
  {
    RequeueSorts(s, t, p);
    var s1 := SetCur(s, t, p);
    var s2 := Requeue(s1, t);
    var m := s.threads[t].pending.value;
    var o := NextOwner(s, t, p);
    assert ThreadLinks(s, t) && MutexLinks(s, m);
    assert MutexExact(s2, m);
    forall m': Mid | m' < |s.mutexes| && m' != m ensures MutexExact(s2, m') <==> MutexExact(s, m') {
      assert MutexLinks(s, m');
      var ws := s.mutexes[m'].waiters;
      if ws != [] { assert ws[0] in ws; }
    }
    forall t': Tid | t' < |s.threads| && t' != o ensures Recomputed(s2, t') == Recomputed(s1, t') {
      assert ThreadLinks(s, t') && ThreadLinks(s2, t') && ThreadLinks(s1, t');
      RecomputedFrame(s1, s2, t');
    }
  }

  /** The mutex priority moves in the direction in which the waiter moved. */
  lemma MutexFollows(s: State, t: Tid, p: Prio)
    requires t < |s.threads| && Linked(s) && Sorted(s) && Waiting(s, t)
    requires ThreadLinks(s, t) && MutexExact(s, s.threads[t].pending.value)
    ensures Linked(SetCur(s, t, p)) && Waiting(SetCur(s, t, p), t)
    ensures var s2 := Requeue(SetCur(s, t, p), t); var m := s.threads[t].pending.value;
      && (p <= s.threads[t].cur ==> s2.mutexes[m].prio <= s.mutexes[m].prio)
      && (p >= s.threads[t].cur ==> s2.mutexes[m].prio >= s.mutexes[m].prio)
  {
    RequeueSorts(s, t, p);
    var s2 := Requeue(SetCur(s, t, p), t);
    var m := s.threads[t].pending.value;
    var ws, ws2 := s.mutexes[m].waiters, s2.mutexes[m].waiters;
    assert ThreadLinks(s, t) && MutexLinks(s, m) && MutexLinks(s2, m);
    assert SortedList(s.threads, ws) && SortedList(s2.threads, ws2);
    assert t in ws && t in ws2;
    assert ws[0] in ws && ws2[0] in ws2;
    var i :| 0 <= i < |ws| && ws[i] == ws2[0];
    var j :| 0 <= j < |ws2| && ws2[j] == ws[0];
  }

  /** If one mutex changes its priority, what a thread must run at moves the same way. */
  lemma OneDemand(s: State, s': State, t: Tid, m: Mid)
    requires t < |s.threads| && t < |s'.threads| && ThreadLinks(s, t) && ThreadLinks(s', t)
    requires s'.threads[t].init == s.threads[t].init && s'.threads[t].taken == s.threads[t].taken
    requires |s.mutexes| == |s'.mutexes| && m < |s.mutexes|
    requires forall m': Mid :: m' < |s.mutexes| && m' != m ==> s'.mutexes[m'] == s.mutexes[m']
    requires s'.mutexes[m].ceiling == s.mutexes[m].ceiling
    ensures s'.mutexes[m].prio <= s.mutexes[m].prio ==> Recomputed(s', t) <= Recomputed(s, t)
    ensures s'.mutexes[m].prio >= s.mutexes[m].prio ==> Recomputed(s', t) >= Recomputed(s, t)
  {
  }

  /** Each link of the chain either settles an inconsistent entry or moves a
      priority further in the direction the chain has been moving. */
  lemma ChainStep(s: State, t: Tid, p: Prio)
    requires t < |s.threads| && Linked(s) && Sorted(s) && Waiting(s, t)
    ensures Linked(SetCur(s, t, p)) && Waiting(SetCur(s, t, p), t)
    ensures var s1 := SetCur(s, t, p); var s2 := Requeue(s1, t); var o := NextOwner(s, t, p);
      && Linked(s2) && ThreadLinks(s2, o)
      && (Recomputed(s2, o) != s2.threads[o].cur ==>
            var q := Recomputed(s2, o);
            || Inconsistent(s2, o, q) < Inconsistent(s, t, p)
            || (Inconsistent(s2, o, q) == Inconsistent(s, t, p) && Distance(s2, o, q) < Distance(s, t, p)))
  {
    RequeueSorts(s, t, p);
    RequeueFrame(s, t, p);
    var s1 := SetCur(s, t, p);
    var s2 := Requeue(s1, t);
    var m := s.threads[t].pending.value;
    var o := NextOwner(s, t, p);
    assert ThreadLinks(s, t) && MutexLinks(s, m) && ThreadLinks(s2, o);
    var q := Recomputed(s2, o);
    if q != s2.threads[o].cur {
      SettledOwner(s, t, p, s1, s2, o, q);
      SubsetCard(BadThreads(s1) - {o}, BadThreads(s1));
      SubsetCard(BadMutexes(s) - {m}, BadMutexes(s));
      if o !in BadThreads(s1) && m !in BadMutexes(s) {
        SameDirection(s, t, p, s1, s2, o, q);
      }
    }
  }

  /** If mutex and owner were consistent, the owner moves the way the waiter moved. */
  lemma SameDirection(s: State, t: Tid, p: Prio, s1: State, s2: State, o: Tid, q: Prio)
    requires t < |s.threads| && Linked(s) && Sorted(s) && Waiting(s, t)
    requires s1 == SetCur(s, t, p) && Linked(s1) && Waiting(s1, t) && s2 == Requeue(s1, t) && Linked(s2)
    requires o == NextOwner(s, t, p) && ThreadLinks(s2, o) && q == Recomputed(s2, o) != s2.threads[o].cur
    requires ThreadLinks(s1, o) && ThreadExact(s1, o)
    requires ThreadLinks(s, t) && MutexLinks(s, s.threads[t].pending.value) && MutexExact(s, s.threads[t].pending.value)
    ensures Distance(s2, o, q) < Distance(s, t, p)
  {
    var m := s.threads[t].pending.value;
    MutexFollows(s, t, p);
    CurSumUpdate(s.threads, t, s1.threads[t]);
    OneDemand(s1, s2, o, m);
    assert p <= s.threads[t].cur ==> q <= s2.threads[o].cur;
    assert p >= s.threads[t].cur ==> q >= s2.threads[o].cur;
  }

  lemma SettledOwner(s: State, t: Tid, p: Prio, s1: State, s2: State, o: Tid, q: Prio)
    requires t < |s.threads| && Linked(s) && Sorted(s) && Waiting(s, t)
    requires s1 == SetCur(s, t, p) && Linked(s1) && Waiting(s1, t) && s2 == Requeue(s1, t) && Linked(s2)
    requires o == NextOwner(s, t, p) && ThreadLinks(s2, o) && q == Recomputed(s2, o)
    ensures Linked(SetCur(s2, o, q))
    ensures BadThreads(SetCur(s2, o, q)) == BadThreads(s1) - {o}
  {
    RequeueFrame(s, t, p);
    SetCurShape(s2, o, q);
    var s3 := SetCur(s2, o, q);
    forall t': Tid | t' < |s.threads|
      ensures Recomputed(s3, t') == Recomputed(s2, t')
      ensures t' in BadThreads(s3) <==> t' in BadThreads(s1) && t' != o
    {
      assert ThreadLinks(s3, t') && ThreadLinks(s2, t') && ThreadLinks(s1, t');
      RecomputedFrame(s2, s3, t');
    }
  }

  /** `_thread_update_priority(thread, priority)`, for any state whose links and
      orders are intact.  Nothing is assumed about cycles in the wait-for graph. */
  function UpdatePriority(s: State, t: Tid, p: Prio): (r: State)
    requires t < |s.threads| && (Waiting(s, t) ==> Linked(s) && Sorted(s))
    ensures Linked(s) && Sorted(s) ==> SameShape(s, r) && Linked(r) && Sorted(r)
    decreases if Waiting(s, t) then Inconsistent(s, t, p) else 0, Distance(s, t, p)
  {
    if !Waiting(s, t) then
      UnblockedUpdate(s, t, p);
      SetCur(s, t, p)
    else
      RequeueSorts(s, t, p);
      ChainStep(s, t, p);
      var s2 := Requeue(SetCur(s, t, p), t);
      var o := NextOwner(s, t, p);
      var q := Recomputed(s2, o);
      if q == s2.threads[o].cur then s2 else UpdatePriority(s2, o, q)
  }

  lemma UnblockedUpdate(s: State, t: Tid, p: Prio)
    requires t < |s.threads| && !Waiting(s, t)
    ensures Linked(s) && Sorted(s) ==>
              var r := SetCur(s, t, p); SameShape(s, r) && Linked(r) && Sorted(r)
  {
    if Linked(s) && Sorted(s) {
      var r := SetCur(s, t, p);
      SetCurShape(s, t, p);
      forall m: Mid | m < |s.mutexes| ensures SortedList(r.threads, r.mutexes[m].waiters) {
        assert MutexLinks(s, m) && SortedList(s.threads, s.mutexes[m].waiters);
        if t in s.mutexes[m].waiters { assert false; }
      }
    }
  }
}
