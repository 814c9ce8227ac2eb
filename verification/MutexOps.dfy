/** The mutex operations as state transitions, and what each of them keeps. */
module MutexOps {
  import opened Common
  import opened MutexState
  import opened MutexChain
  import opened MutexRepair

  const PRIORITY_MAX: nat := 32

  datatype Outcome = Taken | Full | TimedOut | Blocked

  function WithThread(s: State, t: Tid, th: Thread): State
    requires t < |s.threads|
  {
    s.(threads := s.threads[t := th])
  }

  function WithMutex(s: State, m: Mid, mx: Mutex): State
    requires m < |s.mutexes|
  {
    s.(mutexes := s.mutexes[m := mx])
  }

  ghost predicate Ok(s: State) { Linked(s) && Sorted(s) }

  /** A thread that executes code: it is neither suspended nor half-way through a take. */
  predicate Running(s: State, t: Tid) {
    t < |s.threads| && !s.threads[t].suspended && s.threads[t].pending.None?
  }

  // ---------------------------------------------------------------- rt_mutex_take

  /** A free mutex: own it, climb to its ceiling, link it into the taken list. */
  function Acquire(s: State, t: Tid, m: Mid): State
    requires Running(s, t) && m < |s.mutexes|
  {
    var c := s.mutexes[m].ceiling;
    var s1 := WithMutex(s, m, s.mutexes[m].(owner := Some(t), prio := NO_PRIO, hold := 1));
    var s2 := if c != NO_PRIO && c < s.threads[t].cur then UpdatePriority(s1, t, c) else s1;
    WithThread(s2, t, s2.threads[t].(taken := [m] + s2.threads[t].taken))
  }

  /** `rt_thread_suspend_to_list` plus the assignment of the pending object. */
  function Suspend(s: State, t: Tid, m: Mid): State
    requires Running(s, t) && m < |s.mutexes| && Below(s.mutexes[m].waiters, |s.threads|)
  {
    var s1 := WithThread(s, t, s.threads[t].(suspended := true, pending := Some(m)));
    WithMutex(s1, m, s.mutexes[m].(waiters := Enqueue(s.threads, s.mutexes[m].waiters, t)))
  }

  function RecordWaiter(s: State, t: Tid, m: Mid): State
    requires t < |s.threads| && m < |s.mutexes|
  {
    if s.threads[t].cur < s.mutexes[m].prio
    then WithMutex(s, m, s.mutexes[m].(prio := s.threads[t].cur))
    else s
  }

  lemma SuspendOk(s: State, t: Tid, m: Mid)
    requires Ok(s) && Running(s, t) && m < |s.mutexes| && MutexLinks(s, m)
    requires s.mutexes[m].owner.Some? && s.mutexes[m].owner != Some(t)
    ensures Ok(Suspend(s, t, m)) && Ok(RecordWaiter(Suspend(s, t, m), t, m))
  {
    var s1 := Suspend(s, t, m);
    var s2 := RecordWaiter(s1, t, m);
    var ws := s.mutexes[m].waiters;
    assert MutexLinks(s, m) && SortedList(s.threads, ws);
    if t in ws { assert false; }
    EnqueueKeepsOrder(s.threads, ws, t);
    EnqueueNoDup(s.threads, ws, t);
    forall t': Tid | t' < |s.threads| ensures ThreadLinks(s1, t') {
      assert ThreadLinks(s, t');
    }
    forall m': Mid | m' < |s.mutexes| ensures MutexLinks(s1, m') && SortedList(s1.threads, s1.mutexes[m'].waiters) {
      assert MutexLinks(s, m') && SortedList(s.threads, s.mutexes[m'].waiters);
    }
    PrioShape(s1, m, s2.mutexes[m].prio);
    assert s2 == WithMutex(s1, m, s1.mutexes[m].(prio := s2.mutexes[m].prio));
  }

  function Block(s: State, t: Tid, m: Mid): State
    requires Ok(s) && Running(s, t) && m < |s.mutexes| && MutexLinks(s, m)
    requires s.mutexes[m].owner.Some? && s.mutexes[m].owner != Some(t)
  {
    SuspendOk(s, t, m);
    var p := s.threads[t].cur;
    var o := s.mutexes[m].owner.value;
    var s2 := RecordWaiter(Suspend(s, t, m), t, m);
    if p < s.mutexes[m].prio && p < s.threads[o].cur then UpdatePriority(s2, o, p) else s2
  }

  /** `_rt_mutex_take` up to the point where it returns or gives up the processor. */
  function Take(s: State, t: Tid, m: Mid, wait: bool): (r: (State, Outcome))
    requires Ok(s) && Running(s, t) && m < |s.mutexes|
  {
    var mx := s.mutexes[m];
    assert MutexLinks(s, m);
    if mx.owner == Some(t) then
      if mx.hold < HOLD_MAX then (WithMutex(s, m, mx.(hold := mx.hold + 1)), Taken) else (s, Full)
    else if mx.owner.None? then (Acquire(s, t, m), Taken)
    else if !wait then (s, TimedOut)
    else (Block(s, t, m), Blocked)
  }

  // ---------------------------------------------------------------- rt_mutex_release

  /** `_check_and_update_prio` after the mutex left the taken list. */
  function CheckAndUpdatePrio(s: State, t: Tid, m: Mid): State
    requires t < |s.threads| && m < |s.mutexes| && ThreadLinks(s, t)
  {
    if s.mutexes[m].ceiling != NO_PRIO || s.threads[t].cur == s.mutexes[m].prio
    then SetCur(s, t, Recomputed(s, t))
    else s
  }

  /** The part of the release before a new owner is chosen. */
  function GiveBack(s: State, t: Tid, m: Mid): State
    requires t < |s.threads| && m < |s.mutexes| && ThreadLinks(s, t)
  {
    var s1 := WithThread(s, t, s.threads[t].(taken := Remove(s.threads[t].taken, m)));
    RemoveNoDup(s.threads[t].taken, m);
    assert ThreadLinks(s1, t);
    CheckAndUpdatePrio(s1, t, m)
  }

  /** The first waiter becomes the owner, or the mutex becomes free. */
  function HandOver(s: State, m: Mid): State
    requires m < |s.mutexes| && Below(s.mutexes[m].waiters, |s.threads|)
  {
    var mx := s.mutexes[m];
    if mx.waiters == [] then WithMutex(s, m, mx.(owner := None, hold := 0, prio := NO_PRIO))
    else
      var n := mx.waiters[0];
      var rest := mx.waiters[1..];
      var s1 := WithThread(s, n, s.threads[n].(suspended := false, pending := None, taken := [m] + s.threads[n].taken));
      WithMutex(s1, m, mx.(owner := Some(n), hold := 1, waiters := rest, prio := FirstPrio(s.threads, rest)))
  }

  function Release(s: State, t: Tid, m: Mid): (r: (State, bool))
    requires Ok(s) && Running(s, t) && m < |s.mutexes|
  {
    var mx := s.mutexes[m];
    assert ThreadLinks(s, t) && MutexLinks(s, m);
    if mx.owner != Some(t) then (s, false)
    else if mx.hold > 1 then (WithMutex(s, m, mx.(hold := mx.hold - 1)), true)
    else (HandOver(GiveBack(s, t, m), m), true)
  }

  /** A release that gives the mutex to the first waiter. */
  predicate HandsOver(s: State, t: Tid, m: Mid)
    requires m < |s.mutexes|
  {
    s.mutexes[m].owner == Some(t) && s.mutexes[m].hold == 1 && s.mutexes[m].waiters != []
  }

  // ---------------------------------------------------------------- leaving a wait list

  /** Timer expiry, `rt_thread_resume` or `rt_thread_close`: the thread is unlinked
      from whatever list it is on and no longer suspended; a pending mutex stays recorded. */
  function Wake(s: State, t: Tid): State
    requires t < |s.threads| && ThreadLinks(s, t)
  {
    var s1 := WithThread(s, t, s.threads[t].(suspended := false));
    if Waiting(s, t)
    then
      var m := s.threads[t].pending.value;
      WithMutex(s1, m, s.mutexes[m].(waiters := Remove(s.mutexes[m].waiters, t)))
    else s1
  }

  /** The common tail of a failed take and of `rt_mutex_drop_thread`. */
  function Leave(s: State, m: Mid, t: Tid): State
    requires t < |s.threads| && m < |s.mutexes| && Ok(s) && MutexLinks(s, m)
  {
    var mx := s.mutexes[m];
    var s1 := WithMutex(s, m, mx.(prio := FirstPrio(s.threads, mx.waiters)));
    PrioShape(s, m, FirstPrio(s.threads, mx.waiters));
    if mx.owner.Some? && s.threads[mx.owner.value].cur == s.threads[t].cur then
      var o := mx.owner.value;
      assert ThreadLinks(s1, o);
      var q := Recomputed(s1, o);
      if q != s1.threads[o].cur then UpdatePriority(s1, o, q) else s1
    else s1
  }

  lemma PrioShape(s: State, m: Mid, p: Prio)
    requires m < |s.mutexes| && Ok(s)
    ensures var s1 := WithMutex(s, m, s.mutexes[m].(prio := p)); SameShape(s, s1) && Ok(s1)
  {
    var s1 := WithMutex(s, m, s.mutexes[m].(prio := p));
    forall m': Mid | m' < |s.mutexes| ensures NoDup(s.mutexes[m'].waiters) && SortedList(s1.threads, s1.mutexes[m'].waiters) {
      assert MutexLinks(s, m') && SortedList(s.threads, s.mutexes[m'].waiters);
    }
    SameShapeLinked(s, s1);
  }

  /** `rt_mutex_drop_thread`: unlink, refresh the mutex, maybe repair the owner. */
  function DropThread(s: State, m: Mid, t: Tid): State
    requires t < |s.threads| && m < |s.mutexes| && Ok(s)
    requires !s.threads[t].suspended && s.threads[t].pending == Some(m)
  {
    NotListed(s, m, t);
    Leave(WithMutex(s, m, s.mutexes[m].(waiters := Remove(s.mutexes[m].waiters, t))), m, t)
  }

  /** A thread that is no longer suspended is on no wait list, so unlinking it is a no-op. */
  lemma NotListed(s: State, m: Mid, t: Tid)
    requires t < |s.threads| && m < |s.mutexes| && Ok(s) && !s.threads[t].suspended
    ensures MutexLinks(s, m)
    ensures WithMutex(s, m, s.mutexes[m].(waiters := Remove(s.mutexes[m].waiters, t))) == s
  {
    assert MutexLinks(s, m);
    if t in s.mutexes[m].waiters { assert false; }
    RemoveAbsent(s.mutexes[m].waiters, t);
  }

  /** The second half of a take whose wait ended without the mutex; also the
      clean-up of a closed thread, whose caller clears the pending object. */
  function Abandon(s: State, t: Tid): State
    requires t < |s.threads| && Ok(s) && !s.threads[t].suspended && s.threads[t].pending.Some?
  {
    assert ThreadLinks(s, t);
    var m := s.threads[t].pending.value;
    assert MutexLinks(s, m);
    var s1 := Leave(s, m, t);
    LeaveShape(s, m, t);
    WithThread(s1, t, s1.threads[t].(pending := None))
  }

  lemma LeaveShape(s: State, m: Mid, t: Tid)
    requires t < |s.threads| && m < |s.mutexes| && Ok(s) && MutexLinks(s, m)
    ensures SameShape(s, Leave(s, m, t)) && Ok(Leave(s, m, t))
  {
    var p := FirstPrio(s.threads, s.mutexes[m].waiters);
    PrioShape(s, m, p);
    SameShapeTransitive(s, WithMutex(s, m, s.mutexes[m].(prio := p)), Leave(s, m, t));
  }

  // ---------------------------------------------------------------- ceiling, sleep

  /** `rt_mutex_setprioceiling`; an out-of-range ceiling is refused. */
  function SetCeiling(s: State, m: Mid, c: Prio): State
    requires Ok(s) && m < |s.mutexes|
  {
    if c >= PRIORITY_MAX then s
    else
      var s1 := WithMutex(s, m, s.mutexes[m].(ceiling := c));
      CeilingOk(s, m, c);
      assert MutexLinks(s1, m);
      if s.mutexes[m].owner.None? then s1
      else
        var o := s.mutexes[m].owner.value;
        assert ThreadLinks(s1, o);
        var q := Recomputed(s1, o);
        if q != s1.threads[o].cur then UpdatePriority(s1, o, q) else s1
  }

  lemma CeilingOk(s: State, m: Mid, c: Prio)
    requires m < |s.mutexes| && Ok(s)
    ensures Ok(WithMutex(s, m, s.mutexes[m].(ceiling := c)))
  {
    var s1 := WithMutex(s, m, s.mutexes[m].(ceiling := c));
    forall t: Tid | t < |s.threads| ensures ThreadLinks(s1, t) { assert ThreadLinks(s, t); }
    forall m': Mid | m' < |s.mutexes| ensures MutexLinks(s1, m') && SortedList(s1.threads, s1.mutexes[m'].waiters) {
      assert MutexLinks(s, m') && SortedList(s.threads, s.mutexes[m'].waiters);
    }
  }

  /** Suspension that has nothing to do with a mutex (delay, semaphore, ...). */
  function Sleep(s: State, t: Tid): State
    requires Running(s, t)
  {
    WithThread(s, t, s.threads[t].(suspended := true))
  }
}
