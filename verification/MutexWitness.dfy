/** Concrete states showing that the conditions for exact inheritance are needed. */
module MutexWitness {
  import opened Common
  import opened MutexState
  import opened MutexChain
  import opened MutexRepair
  import opened MutexOps
  import opened MutexSafety
  import opened MutexRuns

  /** Thread 0 holds a mutex with ceiling 5; thread 1 (priority 10) waits for it. */
  const CEILING_STATE: State := State(
    [Thread(20, 5, false, None, [0]), Thread(10, 10, true, Some(0), [])],
    [Mutex(Some(0), 1, 10, 5, [1])])

  lemma CeilingStateExact()
    ensures Ok(CEILING_STATE) && Exact(CEILING_STATE)
  {
    var s := CEILING_STATE;
    assert ThreadLinks(s, 0) && ThreadLinks(s, 1) && MutexLinks(s, 0);
    MostUrgentUnique(s.mutexes, [0], 20, 5) by { assert 0 in s.threads[0].taken; }
    assert ThreadExact(s, 0) && ThreadExact(s, 1) && MutexExact(s, 0);
  }

  /** Hand-over leaves the new owner at priority 10, below the ceiling it now holds. */
  lemma HandOverSkipsCeiling()
    ensures Ok(CEILING_STATE) && Exact(CEILING_STATE) && Running(CEILING_STATE, 0)
    ensures var r := Release(CEILING_STATE, 0, 0).0;
      && Ok(r) && !Exact(r)
      && |r.threads| == 2 && |r.mutexes| == 1
      && r.mutexes[0].owner == Some(1) && r.threads[1].cur == 10 > r.mutexes[0].ceiling
  {
    CeilingStateExact();
    ReleaseKeeps(CEILING_STATE, 0, 0);
    assert HandsOver(CEILING_STATE, 0, 0);
    GiveBackShape(CEILING_STATE, 0, 0);
  }

  /** Thread 0 is boosted to 10 by thread 1, which itself holds mutex 1. */
  const LATE_STATE: State := State(
    [Thread(20, 10, false, None, [0]), Thread(10, 10, true, Some(0), [1]), Thread(5, 5, false, None, [])],
    [Mutex(Some(0), 1, 10, 0xFF, [1]), Mutex(Some(1), 1, 0xFF, 0xFF, [])])

  lemma LateStateOk()
    ensures Ok(LATE_STATE)
  {
    var s := LATE_STATE;
    assert ThreadLinks(s, 0) && ThreadLinks(s, 1) && ThreadLinks(s, 2) && MutexLinks(s, 0) && MutexLinks(s, 1);
  }

  lemma LateThreadsExact()
    ensures Ok(LATE_STATE)
    ensures ThreadExact(LATE_STATE, 0) && ThreadExact(LATE_STATE, 1) && ThreadExact(LATE_STATE, 2)
  {
    var s := LATE_STATE;
    LateStateOk();
    hide Ok, Linked, Sorted;
    MostUrgentUnique(s.mutexes, [0], 20, 10) by { assert 0 in s.threads[0].taken; }
    MostUrgentUnique(s.mutexes, [1], 10, 10);
  }

  lemma LateStateExact()
    ensures Ok(LATE_STATE) && Exact(LATE_STATE)
  {
    var s := LATE_STATE;
    LateThreadsExact();
    assert MutexExact(s, 0) && MutexExact(s, 1);
    hide ThreadExact, MutexExact, ThreadLinks, MutexLinks, SortedList;
    forall t: Tid | t < |s.threads| ensures ThreadExact(s, t) { assert t == 0 || t == 1 || t == 2; }
    forall m: Mid | m < |s.mutexes| ensures MutexExact(s, m) { assert m == 0 || m == 1; }
  }

  /** After the timer of thread 1 expired. */
  const LATE_WOKEN: State := State(
    [Thread(20, 10, false, None, [0]), Thread(10, 10, false, Some(0), [1]), Thread(5, 5, false, None, [])],
    [Mutex(Some(0), 1, 10, 0xFF, []), Mutex(Some(1), 1, 0xFF, 0xFF, [])])

  /** After thread 2 blocked on mutex 1. */
  const LATE_BOOSTED: State := State(
    [Thread(20, 10, false, None, [0]), Thread(10, 5, false, Some(0), [1]), Thread(5, 5, true, Some(1), [])],
    [Mutex(Some(0), 1, 10, 0xFF, []), Mutex(Some(1), 1, 5, 0xFF, [2])])

  lemma LateWake()
    ensures Ok(LATE_STATE) && ThreadLinks(LATE_STATE, 1)
    ensures Wake(LATE_STATE, 1) == LATE_WOKEN && Ok(LATE_WOKEN)
  {
    LateStateExact();
    assert ThreadLinks(LATE_STATE, 1);
    WakeKeeps(LATE_STATE, 1);
  }

  lemma LateSuspend()
    ensures Running(LATE_WOKEN, 2)
    ensures var s := State(
      [Thread(20, 10, false, None, [0]), Thread(10, 10, false, Some(0), [1]), Thread(5, 5, true, Some(1), [])],
      [Mutex(Some(0), 1, 10, 0xFF, []), Mutex(Some(1), 1, 5, 0xFF, [2])]);
      RecordWaiter(Suspend(LATE_WOKEN, 2, 1), 2, 1) == s && SetCur(s, 1, 5) == LATE_BOOSTED
  {
    assert Enqueue(LATE_WOKEN.threads, [], 2) == [2];
  }

  lemma LateBoost()
    ensures Ok(LATE_WOKEN) && Running(LATE_WOKEN, 2)
    ensures Take(LATE_WOKEN, 2, 1, true) == (LATE_BOOSTED, Blocked) && Ok(LATE_BOOSTED)
  {
    LateWake();
    LateSuspend();
    assert MutexLinks(LATE_WOKEN, 1);
    SuspendOk(LATE_WOKEN, 2, 1);
    var s := RecordWaiter(Suspend(LATE_WOKEN, 2, 1), 2, 1);
    assert !Waiting(s, 1);
    assert UpdatePriority(s, 1, 5) == SetCur(s, 1, 5);
    assert Block(LATE_WOKEN, 2, 1) == LATE_BOOSTED;
    TakeKeeps(LATE_WOKEN, 2, 1, true);
  }

  /** After the clean-up of thread 1. */
  const LATE_DONE: State := State(
    [Thread(20, 10, false, None, [0]), Thread(10, 5, false, None, [1]), Thread(5, 5, true, Some(1), [])],
    [Mutex(Some(0), 1, 0xFF, 0xFF, []), Mutex(Some(1), 1, 5, 0xFF, [2])])

  /** The guard compares priority 5 with the owner's 10 and skips the repair. */
  lemma LateLeave(s: State)
    requires Ok(s) && |s.threads| == 3 && |s.mutexes| == 2 && MutexLinks(s, 0)
    requires s.threads[0].cur == 10 && s.threads[1].cur == 5
    requires s.mutexes[0] == Mutex(Some(0), 1, 10, 0xFF, [])
    ensures Leave(s, 0, 1) == WithMutex(s, 0, Mutex(Some(0), 1, 0xFF, 0xFF, []))
  {
  }

  lemma LateAbandon(s: State)
    requires Ok(s) && s == LATE_BOOSTED
    ensures !s.threads[1].suspended && s.threads[1].pending == Some(0)
    ensures Abandon(s, 1) == LATE_DONE && Ok(LATE_DONE)
  {
    assert ThreadLinks(s, 1) && MutexLinks(s, 0);
    AbandonKeeps(s, 1);
    LeaveShape(s, 0, 1);
    LateLeave(s);
  }

  lemma LateMisses(s: State)
    requires Ok(s) && s == LATE_BOOSTED
    ensures s.threads[1].pending.Some? && MissesRepair(s, 1)
  {
    assert ThreadLinks(s, 0) && ThreadLinks(s, 1) && MutexLinks(s, 0);
    PrioShape(s, 0, NO_PRIO);
    var r := Refreshed(s, 0);
    assert ThreadLinks(r, 0);
    MostUrgentUnique(r.mutexes, [0], 20, 20);
  }

  lemma LateOwner(s: State)
    requires Ok(s) && s == LATE_DONE
    ensures ThreadLinks(s, 0) && s.threads[0].cur == 10 && Recomputed(s, 0) == 20 && !Exact(s)
  {
    assert ThreadLinks(s, 0);
    MostUrgentUnique(s.mutexes, [0], 20, 20);
    assert !ThreadExact(s, 0);
  }

  /** Thread 1 times out, is boosted to 5 through mutex 1 before it runs again, and then
      compares the owner's priority with 5 instead of 10: the owner keeps the boost
      although nobody waits for it any more. */
  lemma LateCleanUpKeepsBoost() returns (s0: State, s1: State, s2: State, s3: State)
    ensures Ok(s0) && Exact(s0) && Enabled(s0, OpWake(1)) && s1 == Apply(s0, OpWake(1))
    ensures Ok(s1) && Enabled(s1, OpTake(2, 1, true)) && s2 == Apply(s1, OpTake(2, 1, true))
    ensures Ok(s2) && Enabled(s2, OpAbandon(1)) && s3 == Apply(s2, OpAbandon(1))
    ensures Loses(s2, OpAbandon(1))
    ensures Ok(s3) && !Exact(s3) && |s3.threads| == 3
    ensures ThreadLinks(s3, 0) && s3.threads[0].cur == 10 && Recomputed(s3, 0) == 20
  {
    LateStateExact();
    LateWake();
    LateBoost();
    s0, s1, s2, s3 := LATE_STATE, LATE_WOKEN, LATE_BOOSTED, LATE_DONE;
    LateAbandon(s2);
    LateMisses(s2);
    LateOwner(s3);
  }
}
