/** The records the priority-inheritance code works on, and the shape of the
    pointers between them.

    Threads and mutexes are named by their index.  A smaller priority number is
    more urgent; 0xFF on a mutex means "nobody waits here". */
module MutexState {
  import opened Common

  type Tid = nat
  type Mid = nat
  type Prio = p: nat | p <= 0xFF

  const NO_PRIO: Prio := 0xFF
  const HOLD_MAX: nat := 0xFF

  datatype Thread = Thread(init: Prio, cur: Prio, suspended: bool, pending: Option<Mid>, taken: seq<Mid>)

  datatype Mutex = Mutex(owner: Option<Tid>, hold: nat, prio: Prio, ceiling: Prio, waiters: seq<Tid>)

  datatype State = State(threads: seq<Thread>, mutexes: seq<Mutex>)

  /** Suspended inside `rt_mutex_take`: the only threads a boost passes through. */
  predicate Waiting(s: State, t: Tid)
    requires t < |s.threads|
  {
    s.threads[t].suspended && s.threads[t].pending.Some?
  }

  /** Every entry of a list is a valid index. */
  ghost predicate Below(xs: seq<nat>, n: nat) {
    forall i :: 0 <= i < |xs| ==> xs[i] < n
  }

  ghost predicate ThreadLinks(s: State, t: Tid)
    requires t < |s.threads|
  {
    var th := s.threads[t];
    && NoDup(th.taken)
    && Below(th.taken, |s.mutexes|)
    && (forall m: Mid :: m in th.taken ==> s.mutexes[m].owner == Some(t))
    && (th.pending.Some? ==>
          && th.pending.value < |s.mutexes|
          && s.mutexes[th.pending.value].owner != Some(t)
          && (th.suspended ==> t in s.mutexes[th.pending.value].waiters))
  }

  ghost predicate MutexLinks(s: State, m: Mid)
    requires m < |s.mutexes|
  {
    var mx := s.mutexes[m];
    && NoDup(mx.waiters)
    && Below(mx.waiters, |s.threads|)
    && (forall w: Tid :: w in mx.waiters ==> s.threads[w].suspended && s.threads[w].pending == Some(m))
    && (mx.owner.None? ==> mx.waiters == [])
    && (mx.owner.Some? ==>
          mx.owner.value < |s.threads| && m in s.threads[mx.owner.value].taken && 1 <= mx.hold <= HOLD_MAX)
  }

  /** Owner and taken list mirror each other; so do pending object and wait list. */
  ghost predicate Linked(s: State) {
    && (forall t: Tid :: t < |s.threads| ==> ThreadLinks(s, t))
    && (forall m: Mid :: m < |s.mutexes| ==> MutexLinks(s, m))
  }

  ghost predicate SortedList(threads: seq<Thread>, ws: seq<Tid>) {
    && Below(ws, |threads|)
    && (forall i, j :: 0 <= i < j < |ws| ==> threads[ws[i]].cur <= threads[ws[j]].cur)
  }

  /** Every wait list is ordered from most to least urgent. */
  ghost predicate Sorted(s: State) {
    forall m: Mid :: m < |s.mutexes| ==> SortedList(s.threads, s.mutexes[m].waiters)
  }

  /** Two states that differ only in priorities and in the order of wait lists. */
  ghost predicate SameShape(s: State, s': State) {
    && |s'.threads| == |s.threads|
    && |s'.mutexes| == |s.mutexes|
    && (forall t: Tid :: t < |s.threads| ==> s'.threads[t] == s.threads[t].(cur := s'.threads[t].cur))
    && (forall m: Mid :: m < |s.mutexes| ==>
          && s'.mutexes[m] == s.mutexes[m].(prio := s'.mutexes[m].prio, waiters := s'.mutexes[m].waiters)
          && NoDup(s'.mutexes[m].waiters)
          && |s'.mutexes[m].waiters| == |s.mutexes[m].waiters|
          && (forall w :: w in s'.mutexes[m].waiters <==> w in s.mutexes[m].waiters))
  }

  lemma SameShapeLinked(s: State, s': State)
    requires Linked(s) && SameShape(s, s')
    ensures Linked(s')
  {
    forall t: Tid | t < |s'.threads| ensures ThreadLinks(s', t) {
      assert ThreadLinks(s, t);
    }
    forall m: Mid | m < |s'.mutexes| ensures MutexLinks(s', m) {
      assert MutexLinks(s, m);
      var ws := s'.mutexes[m].waiters;
      assert forall i :: 0 <= i < |ws| ==> ws[i] in s.mutexes[m].waiters;
    }
  }

  lemma SameShapeTransitive(s: State, s': State, s'': State)
    requires SameShape(s, s') && SameShape(s', s'')
    ensures SameShape(s, s'')
  {
  }

  // ---------------------------------------------------------------- wait lists

  /** `rt_susp_list_enqueue` with RT_IPC_FLAG_PRIO: before the first less urgent waiter. */
  function Enqueue(threads: seq<Thread>, ws: seq<Tid>, t: Tid): (r: seq<Tid>)
    requires t < |threads| && Below(ws, |threads|)
    ensures |r| == |ws| + 1
    ensures forall w :: w in r <==> w in ws || w == t
    ensures Below(r, |threads|)
  {
    if ws == [] then [t]
    else if threads[t].cur < threads[ws[0]].cur then [t] + ws
    else [ws[0]] + Enqueue(threads, ws[1..], t)
  }

  /** Where the insertion happens: behind every waiter at least as urgent, before the rest. */
  lemma {:induction false} EnqueueSplit(threads: seq<Thread>, ws: seq<Tid>, t: Tid) returns (k: nat)
    requires t < |threads| && SortedList(threads, ws)
    ensures k <= |ws| && Enqueue(threads, ws, t) == ws[..k] + [t] + ws[k..]
    ensures forall i :: 0 <= i < k ==> threads[ws[i]].cur <= threads[t].cur
    ensures forall i :: k <= i < |ws| ==> threads[t].cur < threads[ws[i]].cur
  {
    if ws == [] || threads[t].cur < threads[ws[0]].cur {
      k := 0;
    } else {
      var k' := EnqueueSplit(threads, ws[1..], t);
      k := k' + 1;
      assert ws == [ws[0]] + ws[1..];
      forall i | k <= i < |ws| ensures threads[t].cur < threads[ws[i]].cur {
        assert ws[i] == ws[1..][i - 1];
      }
      forall i | 0 <= i < k ensures threads[ws[i]].cur <= threads[t].cur {
        if i > 0 { assert ws[i] == ws[1..][i - 1]; }
      }
    }
  }

  lemma {:induction false} EnqueueKeepsOrder(threads: seq<Thread>, ws: seq<Tid>, t: Tid)
    requires t < |threads| && SortedList(threads, ws)
    ensures SortedList(threads, Enqueue(threads, ws, t))
  {
    if ws == [] || threads[t].cur < threads[ws[0]].cur {
      PrependSorted(threads, t, ws);
    } else {
      var rest := ws[1..];
      var r := Enqueue(threads, rest, t);
      EnqueueKeepsOrder(threads, rest, t);
      forall k | 0 <= k < |r| ensures threads[ws[0]].cur <= threads[r[k]].cur {
        assert r[k] in r;
        if r[k] != t {
          var j :| 0 <= j < |rest| && rest[j] == r[k];
          assert ws[j + 1] == r[k];
        }
      }
      PrependSorted(threads, ws[0], r);
    }
  }

  lemma {:induction false} EnqueueNoDup(threads: seq<Thread>, ws: seq<Tid>, t: Tid)
    requires t < |threads| && Below(ws, |threads|) && NoDup(ws) && t !in ws
    ensures NoDup(Enqueue(threads, ws, t))
  {
    if ws != [] && threads[t].cur >= threads[ws[0]].cur {
      var r := Enqueue(threads, ws[1..], t);
      EnqueueNoDup(threads, ws[1..], t);
      assert ws[0] !in ws[1..];
      assert ws[0] !in r;
    }
  }

  /** Removing a waiter keeps the others in order, whatever its own priority became. */
  lemma {:induction false} RemoveKeepsOrder(threads: seq<Thread>, ws: seq<Tid>, t: Tid)
    requires Below(ws, |threads|)
    requires forall i, j :: 0 <= i < j < |ws| && ws[i] != t && ws[j] != t ==> threads[ws[i]].cur <= threads[ws[j]].cur
    ensures SortedList(threads, Remove(ws, t))
  {
    if ws != [] {
      var rest := ws[1..];
      var r := Remove(rest, t);
      RemoveKeepsOrder(threads, rest, t);
      if ws[0] != t {
        forall k | 0 <= k < |r| ensures threads[ws[0]].cur <= threads[r[k]].cur {
          assert r[k] in r && r[k] in rest && r[k] != t;
          var j :| 0 <= j < |rest| && rest[j] == r[k];
          assert ws[j + 1] == r[k];
        }
        PrependSorted(threads, ws[0], r);
      }
    }
  }

  lemma PrependSorted(threads: seq<Thread>, w: Tid, r: seq<Tid>)
    requires w < |threads| && SortedList(threads, r)
    requires forall k :: 0 <= k < |r| ==> threads[w].cur <= threads[r[k]].cur
    ensures SortedList(threads, [w] + r)
  {
  }

  // ---------------------------------------------------------------- recomputing priorities

  /** `_mutex_update_priority`: priority of the first waiter, 0xFF if there is none. */
  function FirstPrio(threads: seq<Thread>, ws: seq<Tid>): Prio
    requires Below(ws, |threads|)
  {
    if ws == [] then NO_PRIO else threads[ws[0]].cur
  }

  /** What holding a mutex demands of its owner: waiters' priority or the ceiling. */
  function Demand(mx: Mutex): Prio { Min(mx.prio, mx.ceiling) }

  /** The loop of `_thread_get_mutex_priority`: the most urgent of a start value and
      the demands of a list of mutexes. */
  function MostUrgent(ms: seq<Mutex>, taken: seq<Mid>, start: Prio): (r: Prio)
    requires Below(taken, |ms|)
    ensures r <= start
    ensures forall m: Mid :: m in taken ==> r <= Demand(ms[m])
    ensures r == start || exists m: Mid :: m in taken && r == Demand(ms[m])
  {
    if taken == [] then start
    else
      var r := MostUrgent(ms, taken[1..], Min(start, Demand(ms[taken[0]])));
      assert taken == [taken[0]] + taken[1..];
      r
  }

  function Recomputed(s: State, t: Tid): Prio
    requires t < |s.threads| && ThreadLinks(s, t)
  {
    MostUrgent(s.mutexes, s.threads[t].taken, s.threads[t].init)
  }

  /** The three facts that determine `MostUrgent`. */
  lemma MostUrgentUnique(ms: seq<Mutex>, taken: seq<Mid>, start: Prio, r: Prio)
    requires Below(taken, |ms|)
    requires r <= start && forall m: Mid :: m in taken ==> r <= Demand(ms[m])
    requires r == start || exists m: Mid :: m in taken && r == Demand(ms[m])
    ensures r == MostUrgent(ms, taken, start)
  {
  }

  /** `Recomputed` looks only at the demands of the mutexes held. */
  lemma RecomputedFrame(s: State, s': State, t: Tid)
    requires t < |s.threads| && t < |s'.threads| && ThreadLinks(s, t) && ThreadLinks(s', t)
    requires s'.threads[t].init == s.threads[t].init
    requires forall m :: m in s'.threads[t].taken <==> m in s.threads[t].taken
    requires forall m: Mid :: m in s.threads[t].taken ==> Demand(s.mutexes[m]) == Demand(s'.mutexes[m])
    ensures Recomputed(s', t) == Recomputed(s, t)
  {
    MostUrgentUnique(s'.mutexes, s'.threads[t].taken, s'.threads[t].init, Recomputed(s, t));
  }

  // ---------------------------------------------------------------- consistency

  ghost predicate ThreadExact(s: State, t: Tid)
    requires t < |s.threads| && ThreadLinks(s, t)
  {
    s.threads[t].cur == Recomputed(s, t)
  }

  ghost predicate MutexExact(s: State, m: Mid)
    requires m < |s.mutexes| && MutexLinks(s, m)
  {
    s.mutexes[m].prio == FirstPrio(s.threads, s.mutexes[m].waiters)
  }

  ghost predicate ThreadsExact(s: State)
    requires Linked(s)
  {
    forall t: Tid :: t < |s.threads| ==> ThreadExact(s, t)
  }

  ghost predicate MutexesExactBut(s: State, excused: set<Mid>)
    requires Linked(s)
  {
    forall m: Mid :: m < |s.mutexes| && m !in excused ==> MutexExact(s, m)
  }

  /** Every cached priority is the one its definition gives, mutexes in `excused` apart. */
  ghost predicate ExactBut(s: State, excused: set<Mid>)
    requires Linked(s)
  {
    ThreadsExact(s) && MutexesExactBut(s, excused)
  }

  /** Exact inheritance: every cached priority is the one its definition gives. */
  ghost predicate Exact(s: State)
    requires Linked(s)
  {
    ExactBut(s, {})
  }
}
