/** The uniprocessor scheduler on values: what each call does to thread states and ready
    lists, with the pick written as a plain scan. */
module UpSpec {
  import opened Common
  import opened ReadyLists

  /** `yielded` is the RT_THREAD_STAT_YIELD flag next to the state proper. */
  datatype Thread = Thread(stat: Stat, yielded: bool, initPrio: nat, prio: nat, initTick: nat, remaining: nat)

  /** `nest` is the scheduler lock, `pending` the critical-switch flag. */
  datatype Sched = Sched(ts: seq<Thread>, lists: seq<seq<nat>>, current: nat, nest: nat, pending: bool)

  /** Every list entry and every thread's priority is in range. */
  ghost predicate Shape(s: Sched) {
    && s.current < |s.ts|
    && (forall t :: 0 <= t < |s.ts| ==> s.ts[t].prio < |s.lists|)
    && (forall p, i :: 0 <= p < |s.lists| && 0 <= i < |s.lists[p]| ==> s.lists[p][i] < |s.ts|)
  }

  /** A thread is linked into a list exactly if it is ready and has that priority, once. */
  ghost predicate Queued(s: Sched) {
    && (forall p :: 0 <= p < |s.lists| ==> NoDup(s.lists[p]))
    && (forall p, t: nat :: 0 <= p < |s.lists| && t < |s.ts| ==> (t in s.lists[p] <==> s.ts[t].stat.Ready? && s.ts[t].prio == p))
  }

  /** Runnable threads are the current one and those in exactly one ready list. */
  ghost predicate Inv(s: Sched) {
    && Shape(s) && Queued(s)
    && !s.ts[s.current].stat.Ready?
    && (forall t: nat :: t < |s.ts| && s.ts[t].stat.Running? ==> t == s.current)
  }

  // ---------------------------------------------------------------- the calls

  /** `rt_sched_insert_thread`. */
  function Insert(s: Sched, t: nat): Sched
    requires t < |s.ts| && s.ts[t].prio < |s.lists|
  {
    var th := s.ts[t];
    if t == s.current then s.(ts := s.ts[t := th.(stat := Running)])
    else
      var l := s.lists[th.prio];
      s.(ts := s.ts[t := th.(stat := Ready)], lists := s.lists[th.prio := if th.yielded then l + [t] else [t] + l])
  }

  /** `rt_sched_remove_thread`. */
  function Unlink(s: Sched, t: nat): Sched
    requires t < |s.ts| && s.ts[t].prio < |s.lists|
  {
    s.(lists := s.lists[s.ts[t].prio := Remove(s.lists[s.ts[t].prio], t)])
  }

  function WithStat(s: Sched, t: nat, stat: Stat): Sched
    requires t < |s.ts|
  {
    s.(ts := s.ts[t := s.ts[t].(stat := stat)])
  }

  /** The current thread keeps the processor against a ready thread of priority `p`. */
  predicate Stays(c: Thread, p: nat) {
    c.stat.Running? && (c.prio < p || (c.prio == p && !c.yielded))
  }

  /** The current thread gave way to `to`, which is still in its list. */
  function HandedOver(s: Sched, to: nat): Sched
    requires Shape(s) && to < |s.ts|
  {
    var cur, s1 := s.current, s.(current := to);
    var s2 := if s.ts[cur].stat.Running? then Insert(s1, cur) else s1;
    s2.(ts := s2.ts[cur := s2.ts[cur].(yielded := false)])
  }

  /** `rt_schedule`. */
  function Schedule(s: Sched): Sched
    requires Shape(s)
  {
    var p, cur := Least(s.lists), s.current;
    if s.nest > 0 then s.(pending := true)
    else if p == |s.lists| then s
    else if Stays(s.ts[cur], p) || s.lists[p][0] == cur then WithStat(Unlink(s, cur), cur, Running)
    else
      var to := s.lists[p][0];
      WithStat(Unlink(HandedOver(s, to), to), to, Running)
  }

  /** `rt_sched_thread_ready`: whether it went through, and the new state. */
  function MakeReady(s: Sched, t: nat): (bool, Sched)
    requires Shape(s) && t < |s.ts|
  {
    if !s.ts[t].stat.Suspended? then (false, s) else (true, Insert(s, t))
  }

  /** `rt_sched_thread_yield` for the current thread. */
  function Yield(s: Sched): Sched
    requires Shape(s)
  {
    s.(ts := s.ts[s.current := s.ts[s.current].(remaining := s.ts[s.current].initTick, yielded := true)])
  }

  /** `rt_sched_tick_increase`. */
  function Tick(s: Sched, n: nat): Sched
    requires Shape(s)
  {
    var c := s.ts[s.current];
    var left := if c.remaining > n then c.remaining - n else 0;
    var s1 := s.(ts := s.ts[s.current := c.(remaining := left)]);
    if left > 0 then s1 else Schedule(Yield(s1))
  }

  /** `_rt_sched_update_priority`; a ready thread changes lists and loses its yield flag. */
  function SetPrio(s: Sched, t: nat, prio: nat, initToo: bool): Sched
    requires Shape(s) && t < |s.ts| && prio < |s.lists|
  {
    var th := s.ts[t];
    var new_th := th.(prio := prio, initPrio := if initToo then prio else th.initPrio);
    if th.stat.Ready? then
      var s1 := Unlink(s, t);
      Insert(s1.(ts := s1.ts[t := new_th.(stat := Init, yielded := false)]), t)
    else s.(ts := s.ts[t := new_th])
  }

  /** `rt_thread_suspend_to_list`, the scheduler's part. */
  function Suspend(s: Sched, t: nat): (bool, Sched)
    requires Shape(s) && t < |s.ts|
  {
    if s.ts[t].stat.Suspended? then (true, s)
    else if s.ts[t].stat.Ready? || s.ts[t].stat.Running? then (true, WithStat(Unlink(s, t), t, Suspended))
    else (false, s)
  }

  /** `rt_thread_close`; the whole status word is overwritten. */
  function Close(s: Sched, t: nat): Sched
    requires Shape(s) && t < |s.ts|
  {
    if s.ts[t].stat.Closed? then s
    else
      var s1 := if s.ts[t].stat.Init? then s else Unlink(s, t);
      s1.(ts := s1.ts[t := s1.ts[t].(stat := Closed, yielded := false)])
  }

  /** `rt_enter_critical`. */
  function Enter(s: Sched): Sched { s.(nest := s.nest + 1) }

  /** What `rt_exit_critical` does with interrupts off; the count never goes below zero. */
  function Unlock(s: Sched): Sched { s.(nest := if s.nest > 0 then s.nest - 1 else 0) }

  function ClearPending(s: Sched): Sched { s.(pending := false) }

  /** `rt_exit_critical` when nothing comes between its steps: the outermost exit makes up
      for a deferred switch. */
  function Exit(s: Sched): Sched
    requires Shape(s)
  {
    if s.nest <= 1 && s.pending then Schedule(ClearPending(Unlock(s))) else Unlock(s)
  }

  /** `rt_thread_startup` up to the point where the thread may be made ready. */
  function Start(s: Sched, t: nat): Sched
    requires t < |s.ts|
  {
    s.(ts := s.ts[t := s.ts[t].(stat := Suspended, yielded := false)])
  }

  // ---------------------------------------------------------------- what the calls keep

  /** The lock stays, a pending switch stays, and only a locked call makes one pending. */
  predicate SameLock(s: Sched, r: Sched) {
    r.nest == s.nest && (s.pending ==> r.pending) && (s.nest == 0 && r.pending ==> s.pending)
  }

  lemma Positions(s: Sched, p: nat)
    requires Inv(s) && p < |s.lists| && s.lists[p] != []
    ensures s.lists[p][0] < |s.ts| && s.ts[s.lists[p][0]].stat.Ready? && s.ts[s.lists[p][0]].prio == p
    ensures s.lists[p][0] != s.current
  {
    assert s.lists[p][0] in s.lists[p];
  }

  /** Linking a thread that is in no list, whatever its other marks. */
  lemma InsertKeeps(s: Sched, t: nat)
    requires Shape(s) && Queued(s) && t < |s.ts| && !s.ts[t].stat.Ready?
    ensures Shape(Insert(s, t)) && Queued(Insert(s, t))
  {
    var r := Insert(s, t);
    var th := s.ts[t];
    if t != s.current {
      var l, l' := s.lists[th.prio], r.lists[th.prio];
      assert forall x: nat :: x in l' <==> x == t || x in l;
      assert NoDup(l');
      forall p, i | 0 <= p < |r.lists| && 0 <= i < |r.lists[p]| ensures r.lists[p][i] < |r.ts| {
        assert r.lists[p][i] in r.lists[p];
        if p == th.prio && r.lists[p][i] != t { var j :| 0 <= j < |l| && l[j] == r.lists[p][i]; }
      }
    }
  }

  /** Unlinking a thread and giving it a state other than ready. */
  lemma UnlinkKeeps(s: Sched, t: nat, th: Thread)
    requires Shape(s) && Queued(s) && t < |s.ts| && !th.stat.Ready? && th.prio < |s.lists|
    ensures var r := Unlink(s, t).(ts := s.ts[t := th]); Shape(r) && Queued(r)
  {
    var r := Unlink(s, t).(ts := s.ts[t := th]);
    var p0 := s.ts[t].prio;
    RemoveNoDup(s.lists[p0], t);
    forall p, i | 0 <= p < |r.lists| && 0 <= i < |r.lists[p]| ensures r.lists[p][i] < |r.ts| {
      if p == p0 { assert r.lists[p][i] in s.lists[p]; var j :| 0 <= j < |s.lists[p]| && s.lists[p][j] == r.lists[p][i]; }
    }
  }

  lemma AbsentUnlink(s: Sched, t: nat)
    requires Shape(s) && Queued(s) && t < |s.ts| && !s.ts[t].stat.Ready?
    ensures Unlink(s, t) == s
  {
    RemoveAbsent(s.lists[s.ts[t].prio], t);
  }

  /** Every ready thread is at most as urgent as the running one. */
  ghost predicate Settled(s: Sched)
    requires Shape(s)
  {
    forall t: nat :: t < |s.ts| && s.ts[t].stat.Ready? ==>
      s.ts[s.current].stat.Running? && s.ts[s.current].prio <= s.ts[t].prio
  }

  lemma LeastBounds(s: Sched, t: nat)
    requires Inv(s) && t < |s.ts| && s.ts[t].stat.Ready?
    ensures Least(s.lists) <= s.ts[t].prio
  {
    assert t in s.lists[s.ts[t].prio];
  }

  lemma ScheduleKeeps(s: Sched)
    requires Inv(s)
    ensures Inv(Schedule(s))
    ensures if s.nest == 0 then Settled(Schedule(s)) else Schedule(s).pending
    ensures SameLock(s, Schedule(s)) && |Schedule(s).ts| == |s.ts|
  {
    var p, cur := Least(s.lists), s.current;
    if s.nest > 0 {
    } else if p == |s.lists| {
      forall t: nat | t < |s.ts| && s.ts[t].stat.Ready? ensures false { LeastBounds(s, t); }
    } else {
      Positions(s, p);
      forall t: nat | t < |s.ts| && s.ts[t].stat.Ready? ensures p <= s.ts[t].prio { LeastBounds(s, t); }
      if Stays(s.ts[cur], p) {
        AbsentUnlink(s, cur);
      } else {
        SwitchKeeps(s, p);
      }
    }
  }

  lemma HandOverKeeps(s: Sched, to: nat)
    requires Inv(s) && to < |s.ts| && s.ts[to].stat.Ready?
    ensures var r := HandedOver(s, to);
      && Shape(r) && Queued(r) && |r.ts| == |s.ts| && |r.lists| == |s.lists| && r.current == to && r.nest == s.nest && r.pending == s.pending
      && (forall t: nat :: t < |s.ts| && t != s.current ==> r.ts[t] == s.ts[t])
      && r.ts[s.current].prio == s.ts[s.current].prio
      && r.ts[s.current].stat == if s.ts[s.current].stat.Running? then Ready else s.ts[s.current].stat
  {
    var cur, s1 := s.current, s.(current := to);
    if s.ts[cur].stat.Running? { InsertKeeps(s1, cur); }
  }

  lemma SwitchKeeps(s: Sched, p: nat)
    requires Inv(s) && s.nest == 0 && p == Least(s.lists) < |s.lists| && !Stays(s.ts[s.current], p)
    requires forall t: nat :: t < |s.ts| && s.ts[t].stat.Ready? ==> p <= s.ts[t].prio
    ensures Inv(Schedule(s)) && Settled(Schedule(s)) && SameLock(s, Schedule(s)) && |Schedule(s).ts| == |s.ts|
  {
    Positions(s, p);
    var to := s.lists[p][0];
    HandOverKeeps(s, to);
    var s3 := HandedOver(s, to);
    UnlinkKeeps(s3, to, s3.ts[to].(stat := Running));
    assert Schedule(s) == WithStat(Unlink(s3, to), to, Running);
    hide Queued, Unlink, HandedOver, Schedule;
  }

  lemma MakeReadyKeeps(s: Sched, t: nat)
    requires Inv(s) && t < |s.ts|
    ensures Inv(MakeReady(s, t).1) && SameLock(s, MakeReady(s, t).1)
  {
    if s.ts[t].stat.Suspended? { InsertKeeps(s, t); }
  }

  lemma SetPrioKeeps(s: Sched, t: nat, prio: nat, initToo: bool)
    requires Inv(s) && t < |s.ts| && prio < |s.lists|
    ensures Inv(SetPrio(s, t, prio, initToo)) && SameLock(s, SetPrio(s, t, prio, initToo))
  {
    var th := s.ts[t];
    var new_th := th.(prio := prio, initPrio := if initToo then prio else th.initPrio);
    if th.stat.Ready? {
      UnlinkKeeps(s, t, new_th.(stat := Init, yielded := false));
      var s1 := Unlink(s, t).(ts := s.ts[t := new_th.(stat := Init, yielded := false)]);
      InsertKeeps(s1, t);
    }
  }

  lemma SuspendKeeps(s: Sched, t: nat)
    requires Inv(s) && t < |s.ts|
    ensures Inv(Suspend(s, t).1) && Inv(Close(s, t))
    ensures SameLock(s, Suspend(s, t).1) && SameLock(s, Close(s, t))
  {
    UnlinkKeeps(s, t, s.ts[t].(stat := Suspended));
    UnlinkKeeps(s, t, s.ts[t].(stat := Closed, yielded := false));
  }

  lemma ExitKeeps(s: Sched)
    requires Inv(s)
    ensures Inv(Exit(s)) && Inv(Enter(s)) && Inv(Unlock(s)) && Inv(ClearPending(s))
    ensures Shape(Unlock(s)) && Shape(ClearPending(s))
    ensures s.nest <= 1 && s.pending ==> Settled(Exit(s))
  {
    assert Inv(Enter(s)) && Inv(Unlock(s)) && Inv(ClearPending(s)) && Inv(ClearPending(Unlock(s)));
    hide Inv, Settled, Schedule;
    ScheduleKeeps(ClearPending(Unlock(s)));
  }

  lemma StartKeeps(s: Sched, t: nat)
    requires Inv(s) && t < |s.ts| && s.ts[t].stat.Init?
    ensures Inv(Start(s, t)) && SameLock(s, Start(s, t))
  {
  }

  lemma YieldSettles(s: Sched)
    requires Inv(s)
    ensures Inv(Schedule(Yield(s)))
    ensures if s.nest == 0 then Settled(Schedule(Yield(s))) else Schedule(Yield(s)).pending
    ensures SameLock(s, Schedule(Yield(s)))
  {
    assert Inv(Yield(s));
    ScheduleKeeps(Yield(s));
  }

  lemma TickSettles(s: Sched, n: nat)
    requires Inv(s)
    ensures Inv(Tick(s, n))
    ensures s.ts[s.current].remaining <= n && s.nest == 0 ==> Settled(Tick(s, n))
    ensures s.ts[s.current].remaining <= n && s.nest > 0 ==> Tick(s, n).pending
    ensures SameLock(s, Tick(s, n))
  {
    hide Schedule, Settled;
    var c := s.ts[s.current];
    var s1 := s.(ts := s.ts[s.current := c.(remaining := if c.remaining > n then c.remaining - n else 0)]);
    assert Inv(s1);
    YieldSettles(s1);
    hide Inv, Yield;
  }

  // ---------------------------------------------------------------- runs

  /** The scheduler and the calls of `rt_exit_critical` under way, which interrupts may
      separate: `exits` have undone the last lock and not yet looked at the flag, `seen`
      found it set, `owed` have cleared it and not yet called `rt_schedule`. */
  datatype Sys = Sys(s: Sched, exits: nat, seen: nat, owed: nat)

  datatype Op =
    | StartOp(t: nat) | ReadyOp(t: nat) | SuspendOp(t: nat) | CloseOp(t: nat) | YieldOp | TickOp(n: nat)
    | SetPrioOp(t: nat, prio: nat, initToo: bool) | ScheduleOp
    | EnterOp | UnlockOp | TestOp | ClearOp | MakeUpOp

  /** A pending switch is someone's business: a lock is held or an exit will still see it. */
  ghost predicate SysInv(y: Sys) {
    Inv(y.s) && (y.s.pending ==> y.s.nest > 0 || y.exits > 0 || y.seen > 0)
  }

  predicate Enabled(y: Sys, op: Op) {
    match op
    case StartOp(t) => t < |y.s.ts| && y.s.ts[t].stat.Init?
    case ReadyOp(t) => t < |y.s.ts|
    case SuspendOp(t) => t < |y.s.ts|
    case CloseOp(t) => t < |y.s.ts|
    case SetPrioOp(t, prio, _) => t < |y.s.ts| && prio < |y.s.lists|
    case TestOp => y.exits > 0
    case ClearOp => y.seen > 0
    case MakeUpOp => y.owed > 0
    case _ => true
  }

  /** What the step does to the scheduler; yielding and an expired slice end in `rt_schedule`. */
  function Effect(s: Sched, op: Op): Sched
    requires Shape(s) && Enabled(Sys(s, 1, 1, 1), op)
  {
    match op
    case StartOp(t) => Start(s, t)
    case ReadyOp(t) => MakeReady(s, t).1
    case SuspendOp(t) => Suspend(s, t).1
    case CloseOp(t) => Close(s, t)
    case YieldOp => Schedule(Yield(s))
    case TickOp(n) => Tick(s, n)
    case SetPrioOp(t, prio, initToo) => SetPrio(s, t, prio, initToo)
    case ScheduleOp => Schedule(s)
    case EnterOp => Enter(s)
    case UnlockOp => Unlock(s)
    case TestOp => s
    case ClearOp => ClearPending(s)
    case MakeUpOp => Schedule(s)
  }

  /** One atomic step, with the progress of the exits. */
  function Step(y: Sys, op: Op): Sys
    requires Shape(y.s) && Enabled(y, op)
  {
    var s := Effect(y.s, op);
    match op
    case UnlockOp => y.(s := s, exits := if y.s.nest <= 1 then y.exits + 1 else y.exits)
    case TestOp => y.(s := s, exits := y.exits - 1, seen := if y.s.pending then y.seen + 1 else y.seen)
    case ClearOp => y.(s := s, seen := y.seen - 1, owed := y.owed + 1)
    case MakeUpOp => y.(s := s, owed := y.owed - 1)
    case _ => y.(s := s)
  }

  /** The step calls `rt_schedule`. */
  predicate Requests(s: Sched, op: Op)
    requires s.current < |s.ts|
  {
    op.ScheduleOp? || op.YieldOp? || op.MakeUpOp? || (op.TickOp? && s.ts[s.current].remaining <= op.n)
  }

  /** No lock is held and no exit is under way. */
  predicate Quiet(y: Sys) { y.s.nest == 0 && y.exits == 0 && y.seen == 0 && y.owed == 0 }

  ghost predicate IsRun(ys: seq<Sys>, ops: seq<Op>) {
    && |ys| == |ops| + 1 && SysInv(ys[0])
    && forall i :: 0 <= i < |ops| ==> Shape(ys[i].s) && Enabled(ys[i], ops[i]) && ys[i + 1] == Step(ys[i], ops[i])
  }

  /** An exit that nothing interrupts goes through these steps. */
  lemma ExitIsSteps(y: Sys)
    requires Shape(y.s)
    ensures var y1 := Step(y, UnlockOp);
      if y.s.nest > 1 then y1 == y.(s := Exit(y.s))
      else if !y.s.pending then Step(y1, TestOp) == y.(s := Exit(y.s))
      else Step(Step(Step(y1, TestOp), ClearOp), MakeUpOp) == y.(s := Exit(y.s))
  {
    hide Schedule;
  }

  lemma EffectKeeps(s: Sched, op: Op)
    requires Inv(s) && Enabled(Sys(s, 1, 1, 1), op)
    ensures Inv(Effect(s, op))
    ensures Requests(s, op) && s.nest == 0 ==> Settled(Effect(s, op))
    ensures Requests(s, op) && s.nest > 0 ==> Effect(s, op).pending
    ensures !op.UnlockOp? && !op.EnterOp? && !op.ClearOp? ==> SameLock(s, Effect(s, op))
  {
    hide Inv, Settled, MakeReady, Suspend, Close, Schedule, Yield, Tick, SetPrio, Start, Enter, Unlock, ClearPending;
    match op
    case StartOp(t) => StartKeeps(s, t);
    case ReadyOp(t) => MakeReadyKeeps(s, t);
    case SuspendOp(t) => SuspendKeeps(s, t);
    case CloseOp(t) => SuspendKeeps(s, t);
    case YieldOp => YieldSettles(s);
    case TickOp(n) => TickSettles(s, n);
    case SetPrioOp(t, prio, initToo) => SetPrioKeeps(s, t, prio, initToo);
    case ScheduleOp => ScheduleKeeps(s);
    case MakeUpOp => ScheduleKeeps(s);
    case _ => ExitKeeps(s);
  }

  /** A deferred switch stays recorded until a call of `rt_schedule` goes through. */
  lemma StepKeeps(y: Sys, op: Op)
    requires SysInv(y) && Enabled(y, op)
    ensures SysInv(Step(y, op))
    ensures Requests(y.s, op) && y.s.nest == 0 ==> Settled(Step(y, op).s)
    ensures Requests(y.s, op) && y.s.nest > 0 ==> Step(y, op).s.pending
    ensures (y.s.pending || y.owed > 0) && !(Requests(y.s, op) && y.s.nest == 0) ==> Step(y, op).s.pending || Step(y, op).owed > 0
  {
    EffectKeeps(y.s, op);
    hide Inv, Settled, Effect;
  }

  /** In every run each runnable thread is the current one or in exactly one ready list. */
  lemma {:induction false} RunKeeps(ys: seq<Sys>, ops: seq<Op>, i: nat)
    requires IsRun(ys, ops) && i <= |ops|
    ensures SysInv(ys[i])
  {
    hide SysInv;
    if i > 0 {
      RunKeeps(ys, ops, i - 1);
      StepKeeps(ys[i - 1], ops[i - 1]);
    }
  }

  /** Step `k` lies strictly between and called `rt_schedule` with the scheduler unlocked. */
  ghost predicate WentThrough(ys: seq<Sys>, ops: seq<Op>, i: int, j: int, k: int)
    requires IsRun(ys, ops) && j <= |ops|
  {
    0 <= i < k < j && Requests(ys[k].s, ops[k]) && ys[k].s.nest == 0
  }

  lemma {:induction false} DeferredIsRecorded(ys: seq<Sys>, ops: seq<Op>, i: nat, j: nat)
    requires IsRun(ys, ops) && i < j <= |ops| && Requests(ys[i].s, ops[i]) && ys[i].s.nest > 0
    ensures (exists k :: WentThrough(ys, ops, i, j, k)) || ys[j].s.pending || ys[j].owed > 0
  {
    var j0 := j - 1;
    RunKeeps(ys, ops, j0);
    StepKeeps(ys[j0], ops[j0]);
    hide SysInv, Settled, Step, Requests, Effect;
    if i < j0 {
      DeferredIsRecorded(ys, ops, i, j0);
      if k :| WentThrough(ys, ops, i, j0, k) {
        assert WentThrough(ys, ops, i, j, k);
      } else if Requests(ys[j0].s, ops[j0]) && ys[j0].s.nest == 0 {
        assert WentThrough(ys, ops, i, j, j0);
      }
    }
  }

  /** No reschedule is lost, wherever interrupts fall: an unlocked request leaves the
      current thread at least as urgent as every ready one; a request made under a lock stays
      recorded until one goes through, and one has gone through once no lock is held and no
      exit is under way. */
  lemma NoLostReschedule(ys: seq<Sys>, ops: seq<Op>, i: nat, j: nat)
    requires IsRun(ys, ops) && i < j <= |ops| && Requests(ys[i].s, ops[i])
    ensures SysInv(ys[i + 1])
    ensures ys[i].s.nest == 0 ==> Settled(ys[i + 1].s)
    ensures ys[i].s.nest > 0 ==>
      ys[j].s.pending || ys[j].owed > 0 || exists k :: WentThrough(ys, ops, i, j, k) && Shape(ys[k + 1].s) && Settled(ys[k + 1].s)
    ensures ys[i].s.nest > 0 && Quiet(ys[j]) ==>
      exists k :: WentThrough(ys, ops, i, j, k) && Shape(ys[k + 1].s) && Settled(ys[k + 1].s)
  {
    RunKeeps(ys, ops, i);
    StepKeeps(ys[i], ops[i]);
    RunKeeps(ys, ops, j);
    if ys[i].s.nest > 0 {
      DeferredIsRecorded(ys, ops, i, j);
      if k :| WentThrough(ys, ops, i, j, k) {
        RunKeeps(ys, ops, k);
        StepKeeps(ys[k], ops[k]);
      }
    }
  }
}
