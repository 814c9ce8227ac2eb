/** Whole runs of the mutex operations, in any order and by any threads. */
module MutexRuns {
  import opened Common
  import opened MutexState
  import opened MutexChain
  import opened MutexRepair
  import opened MutexOps
  import opened MutexSafety

  datatype Op =
    | OpTake(t: Tid, m: Mid, wait: bool)
    | OpRelease(t: Tid, m: Mid)
    | OpWake(t: Tid)
    | OpAbandon(t: Tid)
    | OpGiveUp(t: Tid)
    | OpCeiling(m: Mid, c: Prio)
    | OpSleep(t: Tid)

  /** What the kernel demands of a caller: code runs only on running threads, wake-ups
      hit suspended threads, clean-up follows a wait that ended without the mutex. */
  ghost predicate Enabled(s: State, op: Op) {
    match op
    case OpTake(t, m, _) => Running(s, t) && m < |s.mutexes|
    case OpRelease(t, m) => Running(s, t) && m < |s.mutexes|
    case OpWake(t) => t < |s.threads| && s.threads[t].suspended
    case OpAbandon(t) => t < |s.threads| && !s.threads[t].suspended && s.threads[t].pending.Some?
    case OpGiveUp(t) => t < |s.threads| && Waiting(s, t)
    case OpCeiling(m, _) => m < |s.mutexes|
    case OpSleep(t) => Running(s, t)
  }

  ghost function Apply(s: State, op: Op): State
    requires Ok(s) && Enabled(s, op)
  {
    match op
    case OpTake(t, m, wait) => Take(s, t, m, wait).0
    case OpRelease(t, m) => Release(s, t, m).0
    case OpWake(t) => assert ThreadLinks(s, t); Wake(s, t)
    case OpAbandon(t) => Abandon(s, t)
    case OpGiveUp(t) => assert ThreadLinks(s, t); WakeKeeps(s, t); Abandon(Wake(s, t), t)
    case OpCeiling(m, c) => SetCeiling(s, m, c)
    case OpSleep(t) => Sleep(s, t)
  }

  ghost predicate IsRun(states: seq<State>, ops: seq<Op>) {
    && |states| == |ops| + 1
    && Ok(states[0])
    && forall i :: 0 <= i < |ops| && Ok(states[i]) ==>
         Enabled(states[i], ops[i]) && states[i + 1] == Apply(states[i], ops[i])
  }

  lemma StepOk(s: State, op: Op)
    requires Ok(s) && Enabled(s, op)
    ensures Ok(Apply(s, op))
    ensures Bounded(s) ==> Bounded(Apply(s, op))
  {
    match op
    case OpTake(t, m, wait) => TakeKeeps(s, t, m, wait);
    case OpRelease(t, m) => ReleaseKeeps(s, t, m);
    case OpWake(t) => assert ThreadLinks(s, t); WakeKeeps(s, t);
    case OpAbandon(t) => AbandonKeeps(s, t);
    case OpGiveUp(t) => assert ThreadLinks(s, t); WakeKeeps(s, t); AbandonKeeps(Wake(s, t), t);
    case OpCeiling(m, c) => CeilingKeeps(s, m, c);
    case OpSleep(t) => SleepKeeps(s, t);
  }

  /** Bounded inversion: in every state of every run, with ceilings, timeouts, late
      clean-ups and even deadlocks, nobody who holds a mutex runs less urgently than
      anybody who waits for it, and the mutex records at least its waiters' urgency. */
  lemma {:induction false} BoundedRuns(states: seq<State>, ops: seq<Op>, k: nat)
    requires IsRun(states, ops) && Bounded(states[0]) && k < |states|
    ensures Ok(states[k]) && Bounded(states[k])
  {
    if k > 0 {
      BoundedRuns(states, ops, k - 1);
      StepOk(states[k - 1], ops[k - 1]);
    }
  }

  lemma NoInversionInAnyRun(states: seq<State>, ops: seq<Op>, i: nat, m: Mid, w: Tid)
    requires IsRun(states, ops) && Bounded(states[0])
    requires i < |states| && m < |states[i].mutexes| && w in states[i].mutexes[m].waiters
    ensures states[i].mutexes[m].owner.Some? && states[i].mutexes[m].owner.value < |states[i].threads|
    ensures w < |states[i].threads|
    ensures states[i].threads[states[i].mutexes[m].owner.value].cur <= states[i].threads[w].cur
    ensures states[i].mutexes[m].prio <= states[i].threads[w].cur
  {
    BoundedRuns(states, ops, i);
    BoundedNoInversion(states[i], m, w);
    assert MutexLinks(states[i], m) && MutexBounded(states[i], m);
  }

  // ---------------------------------------------------------------- exact inheritance

  /** Steps of the untimed discipline: a wait ends by hand-over or is given up in one piece. */
  ghost predicate Untimed(s: State, op: Op)
    requires Enabled(s, op)
  {
    match op
    case OpWake(t) => !Waiting(s, t)
    case OpAbandon(_) => false
    case _ => true
  }

  /** A hand-over to a thread that would have to climb to the ceiling. */
  ghost predicate SkipsCeiling(s: State, op: Op)
    requires Enabled(s, op) && Linked(s)
  {
    op.OpRelease? && HandsOver(s, op.t, op.m)
    && (assert MutexLinks(s, op.m); assert s.mutexes[op.m].waiters[0] in s.mutexes[op.m].waiters;
        s.threads[s.mutexes[op.m].waiters[0]].cur > s.mutexes[op.m].ceiling)
  }

  /** One step keeps exact inheritance if and only if it is not such a hand-over. */
  lemma StepExactIff(s: State, op: Op)
    requires Ok(s) && Enabled(s, op) && Exact(s) && Untimed(s, op)
    ensures Ok(Apply(s, op)) && (Exact(Apply(s, op)) <==> !SkipsCeiling(s, op))
  {
    StepOk(s, op);
    match op
    case OpTake(t, m, wait) => TakeKeeps(s, t, m, wait);
    case OpRelease(t, m) => ReleaseKeeps(s, t, m);
    case OpWake(t) => assert ThreadLinks(s, t); WakeExact(s, t, {});
    case OpAbandon(t) => assert false;
    case OpGiveUp(t) => assert ThreadLinks(s, t); GiveUpExact(s, t);
    case OpCeiling(m, c) => CeilingKeeps(s, m, c);
    case OpSleep(t) => SleepKeeps(s, t); SamePrioritiesExact(s, Sleep(s, t), {});
  }

  ghost predicate UntimedRun(states: seq<State>, ops: seq<Op>) {
    IsRun(states, ops)
    && forall i :: 0 <= i < |ops| && Ok(states[i]) ==> Untimed(states[i], ops[i])
  }

  ghost predicate ExactAt(states: seq<State>, i: nat) {
    i < |states| && Ok(states[i]) && Exact(states[i])
  }

  ghost predicate SkipsAt(states: seq<State>, ops: seq<Op>, i: nat) {
    i < |ops| && i < |states| && Ok(states[i]) && Enabled(states[i], ops[i]) && SkipsCeiling(states[i], ops[i])
  }

  /** Exact inheritance over whole untimed runs: it holds in all the states reached if
      and only if no hand-over skipped a ceiling on the way. */
  lemma {:induction false} ExactRunsIff(states: seq<State>, ops: seq<Op>, k: nat)
    requires UntimedRun(states, ops) && Exact(states[0]) && k < |states|
    ensures (forall i: nat :: i <= k ==> ExactAt(states, i)) <==> (forall i: nat :: i < k ==> !SkipsAt(states, ops, i))
  {
    if k == 0 {
      assert ExactAt(states, 0);
    } else {
      ExactRunsIff(states, ops, k - 1);
      if ExactAt(states, k - 1) {
        StepExactIff(states[k - 1], ops[k - 1]);
        assert ExactAt(states, k) <==> !SkipsAt(states, ops, k - 1);
      }
    }
  }

  /** Without ceilings nothing can be skipped. */
  ghost predicate NoCeilings(s: State) {
    forall m: Mid :: m < |s.mutexes| ==> s.mutexes[m].ceiling == NO_PRIO
  }

  lemma StepKeepsCeilings(s: State, op: Op)
    requires Ok(s) && Enabled(s, op) && !op.OpCeiling? && NoCeilings(s)
    ensures NoCeilings(Apply(s, op)) && !SkipsCeiling(s, op)
  {
    hide Sorted, Recomputed, Enqueue, SortedList;
    match op
    case OpTake(t, m, wait) => {
      assert MutexLinks(s, m);
      var mx := s.mutexes[m];
      if mx.owner.Some? && mx.owner != Some(t) && wait { SuspendOk(s, t, m); }
    }
    case OpRelease(t, m) => { assert MutexLinks(s, m) && ThreadLinks(s, t); }
    case OpWake(t) => assert ThreadLinks(s, t);
    case OpAbandon(t) => { assert ThreadLinks(s, t) && MutexLinks(s, s.threads[t].pending.value); LeaveShape(s, s.threads[t].pending.value, t); }
    case OpGiveUp(t) => {
      assert ThreadLinks(s, t);
      WakeKeeps(s, t);
      assert MutexLinks(Wake(s, t), s.threads[t].pending.value);
      LeaveShape(Wake(s, t), s.threads[t].pending.value, t);
    }
    case OpSleep(t) =>
  }

  /** The headline: without ceilings and timeouts every reachable state has exact inheritance. */
  lemma {:induction false} ExactRunsWithoutCeilings(states: seq<State>, ops: seq<Op>, k: nat)
    requires UntimedRun(states, ops) && Exact(states[0]) && NoCeilings(states[0])
    requires forall i :: 0 <= i < |ops| ==> !ops[i].OpCeiling?
    requires k < |states|
    ensures Ok(states[k]) && Exact(states[k]) && NoCeilings(states[k])
  {
    if k > 0 {
      ExactRunsWithoutCeilings(states, ops, k - 1);
      StepKeepsCeilings(states[k - 1], ops[k - 1]);
      StepExactIff(states[k - 1], ops[k - 1]);
    }
  }

  // ---------------------------------------------------------------- start

  /** Freshly initialised threads and mutexes. */
  function Boot(inits: seq<Prio>, mutexes: nat): State {
    State(seq(|inits|, i requires 0 <= i < |inits| => Thread(inits[i], inits[i], false, None, [])),
          seq(mutexes, _ => Mutex(None, 0, NO_PRIO, NO_PRIO, [])))
  }

  lemma BootExact(inits: seq<Prio>, mutexes: nat)
    ensures var s := Boot(inits, mutexes); Ok(s) && Exact(s) && NoCeilings(s) && Bounded(s)
  {
    var s := Boot(inits, mutexes);
    assert forall t: Tid :: t < |s.threads| ==> ThreadLinks(s, t);
    assert forall m: Mid :: m < |s.mutexes| ==> MutexLinks(s, m);
    ExactIsBounded(s);
  }

  // ---------------------------------------------------------------- late clean-ups

  /** Woken without the mutex, and the clean-up still to come. */
  predicate IsLate(s: State, t: Tid)
    requires t < |s.threads|
  {
    !s.threads[t].suspended && s.threads[t].pending.Some?
  }

  /** The mutexes that late threads still have to leave. */
  ghost function LateMutexes(s: State): set<Mid> {
    set t: Tid | t < |s.threads| && IsLate(s, t) :: s.threads[t].pending.value
  }

  /** Exact inheritance, except that the record of a mutex may be stale as long as some
      thread still has to leave it. */
  ghost predicate LateExact(s: State)
    requires Linked(s)
  {
    ExactBut(s, LateMutexes(s))
  }

  lemma NobodyLate(s: State)
    requires Linked(s) && forall t: Tid :: t < |s.threads| ==> !IsLate(s, t)
    ensures LateExact(s) <==> Exact(s)
  {
    assert LateMutexes(s) == {};
  }

  ghost predicate SameLate(s: State, r: State) {
    |r.threads| == |s.threads| &&
    forall t: Tid :: t < |s.threads| ==>
      IsLate(r, t) == IsLate(s, t) && (IsLate(s, t) ==> r.threads[t].pending == s.threads[t].pending)
  }

  lemma SameLateMutexes(s: State, r: State)
    requires SameLate(s, r)
    ensures LateMutexes(r) == LateMutexes(s)
  {
    forall m: Mid ensures m in LateMutexes(r) <==> m in LateMutexes(s) {
      if m in LateMutexes(s) { var t: Tid :| t < |s.threads| && IsLate(s, t) && s.threads[t].pending.value == m; assert IsLate(r, t); }
      if m in LateMutexes(r) { var t: Tid :| t < |r.threads| && IsLate(r, t) && r.threads[t].pending.value == m; assert IsLate(s, t); }
    }
  }

  lemma ShapeSameLate(s: State, r: State)
    requires SameShape(s, r)
    ensures SameLate(s, r)
  {
  }

  lemma TakeSameLate(s: State, t: Tid, m: Mid, wait: bool)
    requires Ok(s) && Running(s, t) && m < |s.mutexes|
    ensures SameLate(s, Take(s, t, m, wait).0)
  {
    assert MutexLinks(s, m);
    var mx := s.mutexes[m];
    if mx.owner.Some? && mx.owner != Some(t) && wait {
      SuspendOk(s, t, m);
      var s2 := RecordWaiter(Suspend(s, t, m), t, m);
      assert SameLate(s, s2);
      hide IsLate;
      assert SameShape(s2, Block(s, t, m)) || s2 == Block(s, t, m);
      if SameShape(s2, Block(s, t, m)) { ShapeSameLate(s2, Block(s, t, m)); }
    }
  }

  lemma ReleaseSameLate(s: State, t: Tid, m: Mid)
    requires Ok(s) && Running(s, t) && m < |s.mutexes|
    ensures SameLate(s, Release(s, t, m).0)
  {
    assert MutexLinks(s, m) && ThreadLinks(s, t);
    if s.mutexes[m].owner == Some(t) && s.mutexes[m].hold <= 1 {
      GiveBackShape(s, t, m);
      var ws := s.mutexes[m].waiters;
      assert ws != [] ==> ws[0] in ws;
    }
  }

  lemma CeilingSameLate(s: State, m: Mid, c: Prio)
    requires Ok(s) && m < |s.mutexes|
    ensures SameLate(s, SetCeiling(s, m, c))
  {
    if c < PRIORITY_MAX {
      CeilingOk(s, m, c);
      var s1 := WithMutex(s, m, s.mutexes[m].(ceiling := c));
      if SameShape(s1, SetCeiling(s, m, c)) { ShapeSameLate(s1, SetCeiling(s, m, c)); }
    }
  }

  lemma WakeLate(s: State, t: Tid)
    requires t < |s.threads| && s.threads[t].suspended && ThreadLinks(s, t)
    ensures LateMutexes(Wake(s, t)) == if Waiting(s, t) then LateMutexes(s) + {s.threads[t].pending.value} else LateMutexes(s)
  {
    var r := Wake(s, t);
    forall m: Mid ensures m in LateMutexes(r) <==> m in LateMutexes(s) || (Waiting(s, t) && m == s.threads[t].pending.value) {
      if m in LateMutexes(s) { var x: Tid :| x < |s.threads| && IsLate(s, x) && s.threads[x].pending.value == m; assert IsLate(r, x); }
      if m in LateMutexes(r) { var x: Tid :| x < |r.threads| && IsLate(r, x) && r.threads[x].pending.value == m; assert x == t || IsLate(s, x); }
      if Waiting(s, t) { assert IsLate(r, t); }
    }
  }

  /** A clean-up takes at most the mutex that was left off the late ones. */
  lemma AbandonLate(s: State, t: Tid)
    requires Ok(s) && t < |s.threads| && IsLate(s, t)
    ensures Ok(Abandon(s, t)) && LateMutexes(s) - {s.threads[t].pending.value} <= LateMutexes(Abandon(s, t))
  {
    AbandonKeeps(s, t);
    assert ThreadLinks(s, t) && MutexLinks(s, s.threads[t].pending.value);
    LeaveShape(s, s.threads[t].pending.value, t);
    var r := Abandon(s, t);
    forall m: Mid | m in LateMutexes(s) && m != s.threads[t].pending.value ensures m in LateMutexes(r) {
      var x: Tid :| x < |s.threads| && IsLate(s, x) && s.threads[x].pending.value == m;
      assert IsLate(r, x);
    }
  }

  lemma ExcuseMore(s: State, a: set<Mid>, b: set<Mid>)
    requires Linked(s) && ExactBut(s, a) && a <= b
    ensures ExactBut(s, b)
  {
  }

  /** The two ways in which a step loses exact inheritance. */
  ghost predicate Loses(s: State, op: Op)
    requires Ok(s) && Enabled(s, op)
  {
    match op
    case OpRelease(_, _) => SkipsCeiling(s, op)
    case OpAbandon(t) => MissesRepair(s, t)
    case OpGiveUp(t) => assert ThreadLinks(s, t); WakeKeeps(s, t); MissesRepair(Wake(s, t), t)
    case _ => false
  }

  lemma AbandonLateExact(s: State, t: Tid)
    requires Ok(s) && t < |s.threads| && IsLate(s, t) && LateExact(s)
    ensures Ok(Abandon(s, t)) && (LateExact(Abandon(s, t)) <==> !MissesRepair(s, t))
  {
    AbandonExactIff(s, t, LateMutexes(s));
    AbandonLate(s, t);
    hide MissesRepair, Linked, Sorted, Abandon, LateMutexes, ThreadsExact, MutexesExactBut;
    if !MissesRepair(s, t) {
      ExcuseMore(Abandon(s, t), LateMutexes(s) - {s.threads[t].pending.value}, LateMutexes(Abandon(s, t)));
    }
  }

  /** One step of any kind keeps late exactness if and only if it does not lose it. */
  lemma StepLateExactIff(s: State, op: Op)
    requires Ok(s) && Enabled(s, op) && LateExact(s)
    ensures Ok(Apply(s, op)) && (LateExact(Apply(s, op)) <==> !Loses(s, op))
  {
    StepOk(s, op);
    var late := LateMutexes(s);
    match op
    case OpTake(t, m, wait) => TakeExact(s, t, m, wait, late); TakeSameLate(s, t, m, wait); SameLateMutexes(s, Take(s, t, m, wait).0);
    case OpRelease(t, m) => ReleaseExactIff(s, t, m, late); ReleaseSameLate(s, t, m); SameLateMutexes(s, Release(s, t, m).0);
    case OpWake(t) => assert ThreadLinks(s, t); WakeExact(s, t, late); WakeLate(s, t);
    case OpAbandon(t) => AbandonLateExact(s, t);
    case OpGiveUp(t) => assert ThreadLinks(s, t); WakeExact(s, t, late); WakeLate(s, t); AbandonLateExact(Wake(s, t), t);
    case OpCeiling(m, c) => CeilingExact(s, m, c, late); CeilingSameLate(s, m, c); SameLateMutexes(s, SetCeiling(s, m, c));
    case OpSleep(t) => SleepKeeps(s, t); SamePrioritiesExact(s, Sleep(s, t), late); SameLateMutexes(s, Sleep(s, t));
  }

  ghost predicate LateExactAt(states: seq<State>, i: nat) {
    i < |states| && Ok(states[i]) && LateExact(states[i])
  }

  ghost predicate LosesAt(states: seq<State>, ops: seq<Op>, i: nat) {
    i < |ops| && i < |states| && Ok(states[i]) && Enabled(states[i], ops[i]) && Loses(states[i], ops[i])
  }

  /** Exact inheritance over all runs, with any number of waiters late at once: up to the
      records that late threads still have to refresh, all priorities are exact in all the
      states reached if and only if no hand-over skipped a ceiling and no clean-up missed
      a repair on the way; and fully exact wherever nobody is late. */
  lemma {:induction false} LateExactRunsIff(states: seq<State>, ops: seq<Op>, k: nat)
    requires IsRun(states, ops) && LateExact(states[0]) && k < |states|
    ensures (forall i: nat :: i <= k ==> LateExactAt(states, i)) <==> (forall i: nat :: i < k ==> !LosesAt(states, ops, i))
    ensures LateExactAt(states, k) && (forall t: Tid :: t < |states[k].threads| ==> !IsLate(states[k], t)) ==> ExactAt(states, k)
  {
    if k == 0 {
      assert LateExactAt(states, 0);
    } else {
      LateExactRunsIff(states, ops, k - 1);
      if LateExactAt(states, k - 1) {
        StepLateExactIff(states[k - 1], ops[k - 1]);
        assert LateExactAt(states, k) <==> !LosesAt(states, ops, k - 1);
      }
    }
    if LateExactAt(states, k) && (forall t: Tid :: t < |states[k].threads| ==> !IsLate(states[k], t)) { NobodyLate(states[k]); }
  }
}
