/** The multi-core scheduler on values: one queue per CPU and a global one, binding, and the
    hand-over of a CPU. */
module MpSpec {
  import opened Common
  import opened ReadyLists

  /** `bind` and `oncpu` are CPU numbers; the number of CPUs stands for unbound and detached. */
  datatype Thread = Thread(stat: Stat, yielded: bool, prio: nat, bind: nat, oncpu: nat)

  /** Queue `k` belongs to CPU `k`, the last one is the global queue. */
  datatype Smp = Smp(cpus: nat, levels: nat, ts: seq<Thread>, queues: seq<seq<seq<nat>>>, current: seq<nat>)

  ghost predicate Shape(s: Smp) {
    && s.cpus > 0 && |s.queues| == s.cpus + 1 && |s.current| == s.cpus && s.levels < NO_PRIO
    && (forall q :: 0 <= q <= s.cpus ==> |s.queues[q]| == s.levels)
    && (forall k :: 0 <= k < s.cpus ==> s.current[k] < |s.ts|)
    && (forall t :: 0 <= t < |s.ts| ==> s.ts[t].prio < s.levels && s.ts[t].bind <= s.cpus && s.ts[t].oncpu <= s.cpus)
  }

  ghost predicate QueueOk(s: Smp, q: nat, p: nat)
    requires q < |s.queues| && p < |s.queues[q]|
  {
    && NoDup(s.queues[q][p])
    && (forall t :: t in s.queues[q][p] ==> t < |s.ts| && s.ts[t].stat.Ready? && s.ts[t].prio == p && s.ts[t].bind == q)
  }

  /** A thread is in a queue exactly if it is ready: once, in the queue of the CPU it is
      bound to or the global one, at its priority. */
  ghost predicate Queued(s: Smp)
    requires Shape(s)
  {
    && (forall q: nat, p: nat :: q <= s.cpus && p < s.levels ==> QueueOk(s, q, p))
    && (forall t: nat :: t < |s.ts| && s.ts[t].stat.Ready? ==> t in s.queues[s.ts[t].bind][s.ts[t].prio])
  }

  /** A CPU and the thread on it name each other; no ready thread is on a CPU and every
      running one is. */
  ghost predicate OnCpus(s: Smp)
    requires Shape(s)
  {
    && (forall k: nat :: k < s.cpus ==> s.ts[s.current[k]].oncpu == k)
    && (forall t: nat :: t < |s.ts| && s.ts[t].oncpu < s.cpus ==> s.current[s.ts[t].oncpu] == t)
    && (forall t: nat :: t < |s.ts| && s.ts[t].stat.Ready? ==> s.ts[t].oncpu == s.cpus)
    && (forall t: nat :: t < |s.ts| && s.ts[t].stat.Running? ==> s.ts[t].oncpu < s.cpus)
  }

  ghost predicate Inv(s: Smp) { Shape(s) && Queued(s) && OnCpus(s) }

  // ---------------------------------------------------------------- the calls

  function With(s: Smp, t: nat, th: Thread): Smp
    requires t < |s.ts|
  {
    s.(ts := s.ts[t := th])
  }

  function SetList(s: Smp, q: nat, p: nat, l: seq<nat>): Smp
    requires q < |s.queues| && p < |s.queues[q]|
  {
    s.(queues := s.queues[q := s.queues[q][p := l]])
  }

  /** `_sched_insert_thread_locked`. */
  function Insert(s: Smp, t: nat): Smp
    requires Shape(s) && t < |s.ts|
  {
    var th := s.ts[t];
    if th.stat.Ready? then s
    else if th.oncpu != s.cpus then With(s, t, th.(stat := Running))
    else
      var l := s.queues[th.bind][th.prio];
      SetList(With(s, t, th.(stat := Ready)), th.bind, th.prio, if th.yielded then l + [t] else [t] + l)
  }

  /** `_sched_remove_thread_locked`. */
  function Unlink(s: Smp, t: nat): Smp
    requires Shape(s) && t < |s.ts|
  {
    var th := s.ts[t];
    SetList(s, th.bind, th.prio, Remove(s.queues[th.bind][th.prio], t))
  }

  /** `rt_sched_remove_thread`, which leaves the thread suspended. */
  function Take(s: Smp, t: nat): Smp
    requires Shape(s) && t < |s.ts|
  {
    With(Unlink(s, t), t, s.ts[t].(stat := Suspended, yielded := false))
  }

  /** Highest ready priority of queue `q`; -1, read as unsigned, if there is none. */
  function Top(s: Smp, q: nat): nat
    requires Shape(s) && q <= s.cpus
  {
    if Least(s.queues[q]) < s.levels then Least(s.queues[q]) else NO_PRIO
  }

  /** `_scheduler_get_highest_priority_thread` on CPU `k`: the local queue wins ties. */
  function PickQueue(s: Smp, k: nat): (q: nat)
    requires Shape(s) && k < s.cpus
    ensures q <= s.cpus
  {
    if Top(s, s.cpus) < Top(s, k) then s.cpus else k
  }

  /** The thread on CPU `k` may stay there against a ready thread of priority `p`. */
  predicate Stays(s: Smp, c: Thread, k: nat, p: nat) {
    && c.stat.Running? && (c.bind == s.cpus || c.bind == k)
    && (c.prio < p || (c.prio == p && !c.yielded))
  }

  /** CPU `k` lets go of its thread: back to a queue if it was running. */
  function Release(s: Smp, k: nat): Smp
    requires Shape(s) && k < s.cpus
  {
    var c := s.current[k];
    var s1 := With(s, c, s.ts[c].(oncpu := s.cpus));
    if s.ts[c].stat.Running? then
      var s2 := Insert(s1, c);
      With(s2, c, s2.ts[c].(yielded := false))
    else s1
  }

  /** CPU `k` takes the ready thread `to`. */
  function Acquire(s: Smp, k: nat, to: nat): Smp
    requires Shape(s) && k < s.cpus && to < |s.ts|
  {
    var s1 := Unlink(s, to);
    With(s1, to, s.ts[to].(oncpu := k, stat := Running)).(current := s.current[k := to])
  }

  /** `_prepare_context_switch_locked` on CPU `k`, up to and including the switch. */
  ghost function Switch(s: Smp, k: nat): Smp
    requires Shape(s) && k < s.cpus
  {
    var q, c := PickQueue(s, k), s.current[k];
    var p := Top(s, q);
    if p == NO_PRIO then s
    else if Stays(s, s.ts[c], k, p) then With(s, c, s.ts[c].(oncpu := k, yielded := false))
    else
      var to := s.queues[q][p][0];
      if to < |s.ts| && Shape(Release(s, k)) then Acquire(Release(s, k), k, to) else s
  }

  /** `rt_sched_thread_ready`. */
  function MakeReady(s: Smp, t: nat): (bool, Smp)
    requires Shape(s) && t < |s.ts|
  {
    if s.ts[t].stat.Suspended? then (true, Insert(s, t)) else (false, s)
  }

  /** `rt_sched_thread_yield`: the flag on the thread of CPU `k`. */
  function Yield(s: Smp, k: nat): Smp
    requires Shape(s) && k < s.cpus
  {
    With(s, s.current[k], s.ts[s.current[k]].(yielded := true))
  }

  /** `_rt_sched_update_priority`. */
  function SetPrio(s: Smp, t: nat, prio: nat): Smp
    requires Shape(s) && t < |s.ts| && prio < s.levels
  {
    var th := s.ts[t];
    if th.stat.Ready? then Insert(With(Unlink(s, t), t, th.(stat := Init, yielded := false, prio := prio)), t)
    else With(s, t, th.(prio := prio))
  }

  /** `rt_sched_thread_bind_cpu` without the reschedule that may follow. */
  function Bind(s: Smp, t: nat, cpu: nat): Smp
    requires Shape(s) && t < |s.ts|
  {
    var cpu' := if cpu >= s.cpus then s.cpus else cpu;
    var th := s.ts[t];
    if th.stat.Ready? then Insert(With(Unlink(s, t), t, th.(stat := Suspended, yielded := false, bind := cpu')), t)
    else With(s, t, th.(bind := cpu'))
  }

  /** `rt_thread_suspend_to_list`, the scheduler's part. */
  function Suspend(s: Smp, t: nat): (bool, Smp)
    requires Shape(s) && t < |s.ts|
  {
    if s.ts[t].stat.Suspended? then (true, s)
    else if s.ts[t].stat.Ready? || s.ts[t].stat.Running? then (true, Take(s, t))
    else (false, s)
  }

  /** `rt_thread_close`. */
  function Close(s: Smp, t: nat): Smp
    requires Shape(s) && t < |s.ts|
  {
    if s.ts[t].stat.Closed? then s
    else if s.ts[t].stat.Init? then With(s, t, s.ts[t].(stat := Closed, yielded := false))
    else With(Unlink(s, t), t, s.ts[t].(stat := Closed, yielded := false))
  }

  // ---------------------------------------------------------------- what they keep

  /** Linking a thread that is in no queue and on no CPU. */
  lemma LinkKeeps(s: Smp, t: nat)
    requires Shape(s) && Queued(s) && t < |s.ts| && !s.ts[t].stat.Ready? && s.ts[t].oncpu == s.cpus
    ensures Shape(Insert(s, t)) && Queued(Insert(s, t))
  {
    var r, th := Insert(s, t), s.ts[t];
    var l, l' := s.queues[th.bind][th.prio], r.queues[th.bind][th.prio];
    assert QueueOk(s, th.bind, th.prio);
    assert forall x :: x in l' <==> x == t || x in l;
    assert NoDup(l');
    forall q: nat, p: nat | q <= s.cpus && p < s.levels ensures QueueOk(r, q, p) { assert QueueOk(s, q, p); }
  }

  /** Unlinking a thread and giving it any other fields that do not make it ready. */
  lemma UnlinkKeeps(s: Smp, t: nat, th: Thread)
    requires Shape(s) && Queued(s) && t < |s.ts| && !th.stat.Ready?
    requires th.prio < s.levels && th.bind <= s.cpus && th.oncpu <= s.cpus
    ensures Shape(With(Unlink(s, t), t, th)) && Queued(With(Unlink(s, t), t, th))
  {
    var r, q0, p0 := With(Unlink(s, t), t, th), s.ts[t].bind, s.ts[t].prio;
    assert QueueOk(s, q0, p0);
    RemoveNoDup(s.queues[q0][p0], t);
    forall q: nat, p: nat | q <= s.cpus && p < s.levels ensures QueueOk(r, q, p) { assert QueueOk(s, q, p); }
  }

  /** Changing fields other than those that place a thread in a queue. */
  lemma FieldKeeps(s: Smp, t: nat, th: Thread)
    requires Shape(s) && Queued(s) && t < |s.ts| && th.oncpu <= s.cpus && th.prio < s.levels && th.bind <= s.cpus
    requires if s.ts[t].stat.Ready? then th.stat.Ready? && th.prio == s.ts[t].prio && th.bind == s.ts[t].bind else !th.stat.Ready?
    ensures Shape(With(s, t, th)) && Queued(With(s, t, th))
  {
    var r := With(s, t, th);
    forall q: nat, p: nat | q <= s.cpus && p < s.levels ensures QueueOk(r, q, p) { assert QueueOk(s, q, p); }
  }

  lemma InsertKeeps(s: Smp, t: nat)
    requires Inv(s) && t < |s.ts| && !s.ts[t].stat.Ready?
    ensures Inv(Insert(s, t))
  {
    hide QueueOk;
    if s.ts[t].oncpu != s.cpus { FieldKeeps(s, t, s.ts[t].(stat := Running)); } else { LinkKeeps(s, t); }
    hide Queued;
  }

  lemma TakeKeeps(s: Smp, t: nat, th: Thread)
    requires Inv(s) && t < |s.ts| && !th.stat.Ready? && !th.stat.Running? && th.oncpu == s.ts[t].oncpu
    requires th.prio < s.levels && th.bind <= s.cpus
    ensures Inv(With(Unlink(s, t), t, th)) && With(Unlink(s, t), t, th).ts == s.ts[t := th]
  {
    UnlinkKeeps(s, t, th);
    hide Queued;
  }

  lemma MakeReadyKeeps(s: Smp, t: nat)
    requires Inv(s) && t < |s.ts|
    ensures Inv(MakeReady(s, t).1)
  {
    if s.ts[t].stat.Suspended? { InsertKeeps(s, t); }
  }

  lemma YieldKeeps(s: Smp, k: nat)
    requires Inv(s) && k < s.cpus
    ensures Inv(Yield(s, k))
  {
    FieldKeeps(s, s.current[k], s.ts[s.current[k]].(yielded := true));
    hide Queued;
  }

  lemma SetPrioKeeps(s: Smp, t: nat, prio: nat)
    requires Inv(s) && t < |s.ts| && prio < s.levels
    ensures Inv(SetPrio(s, t, prio))
  {
    hide Queued;
    var th := s.ts[t];
    if th.stat.Ready? {
      var th' := th.(stat := Init, yielded := false, prio := prio);
      TakeKeeps(s, t, th');
      InsertKeeps(With(Unlink(s, t), t, th'), t);
    } else {
      FieldKeeps(s, t, th.(prio := prio));
    }
  }

  lemma BindKeeps(s: Smp, t: nat, cpu: nat)
    requires Inv(s) && t < |s.ts|
    ensures Inv(Bind(s, t, cpu))
    ensures Bind(s, t, cpu).ts[t].bind == Min(cpu, s.cpus)
    ensures s.ts[t].stat.Ready? ==> Bind(s, t, cpu).ts[t].stat.Ready?
  {
    hide Queued;
    var th := s.ts[t];
    var cpu' := if cpu >= s.cpus then s.cpus else cpu;
    if th.stat.Ready? {
      var th' := th.(stat := Suspended, yielded := false, bind := cpu');
      TakeKeeps(s, t, th');
      InsertKeeps(With(Unlink(s, t), t, th'), t);
    } else {
      FieldKeeps(s, t, th.(bind := cpu'));
    }
  }

  lemma SuspendKeeps(s: Smp, t: nat)
    requires Inv(s) && t < |s.ts|
    ensures Inv(Suspend(s, t).1)
  {
    hide Queued;
    TakeKeeps(s, t, s.ts[t].(stat := Suspended, yielded := false));
  }

  lemma CloseKeeps(s: Smp, t: nat)
    requires Inv(s) && t < |s.ts|
    ensures Inv(Close(s, t))
  {
    hide Queued;
    var th' := s.ts[t].(stat := Closed, yielded := false);
    if s.ts[t].stat.Init? { FieldKeeps(s, t, th'); } else { TakeKeeps(s, t, th'); }
  }

  /** The state after initialisation: empty queues, one thread on each CPU. */
  lemma StartsSafe(s: Smp)
    requires Shape(s) && OnCpus(s)
    requires forall q, p :: 0 <= q <= s.cpus && 0 <= p < s.levels ==> s.queues[q][p] == []
    requires forall t :: 0 <= t < |s.ts| ==> !s.ts[t].stat.Ready?
    ensures Inv(s)
  {
    forall q: nat, p: nat | q <= s.cpus && p < s.levels ensures QueueOk(s, q, p) { assert s.queues[q][p] == []; }
  }

  // ---------------------------------------------------------------- handing over a CPU

  /** Threads that CPU `k` may run. */
  predicate Eligible(s: Smp, k: nat, t: nat)
    requires t < |s.ts|
  {
    s.ts[t].stat.Ready? && (s.ts[t].bind == s.cpus || s.ts[t].bind == k)
  }

  /** The pick is a ready thread that may run here, and no eligible one is more urgent. */
  lemma PickIsTop(s: Smp, k: nat)
    requires Inv(s) && k < s.cpus
    ensures var q := PickQueue(s, k); var p := Top(s, q);
      && (p != NO_PRIO ==> p < s.levels && s.queues[q][p] != [] && s.queues[q][p][0] < |s.ts| && Eligible(s, k, s.queues[q][p][0])
                           && s.ts[s.queues[q][p][0]].prio == p)
      && (forall t: nat :: t < |s.ts| && Eligible(s, k, t) ==> p <= s.ts[t].prio)
  {
    var q := PickQueue(s, k);
    var p := Top(s, q);
    if p != NO_PRIO {
      assert QueueOk(s, q, p);
      assert s.queues[q][p][0] in s.queues[q][p];
    }
    forall t: nat | t < |s.ts| && Eligible(s, k, t) ensures p <= s.ts[t].prio {
      assert t in s.queues[s.ts[t].bind][s.ts[t].prio];
      assert Least(s.queues[s.ts[t].bind]) <= s.ts[t].prio;
    }
  }

  /** A CPU that let go of its thread names nobody's CPU; everything else is in order. */
  ghost predicate CpuOpen(s: Smp, k: nat)
    requires Shape(s)
  {
    && (forall j: nat :: j < s.cpus && j != k ==> s.ts[s.current[j]].oncpu == j)
    && (forall t: nat :: t < |s.ts| && s.ts[t].oncpu < s.cpus ==> s.ts[t].oncpu != k && s.current[s.ts[t].oncpu] == t)
    && (forall t: nat :: t < |s.ts| && s.ts[t].stat.Ready? ==> s.ts[t].oncpu == s.cpus)
    && (forall t: nat :: t < |s.ts| && s.ts[t].stat.Running? ==> s.ts[t].oncpu < s.cpus)
  }

  lemma ReleaseTables(s: Smp, k: nat)
    requires Inv(s) && k < s.cpus
    ensures var r, c := Release(s, k), s.current[k];
      && Shape(r) && Queued(r)
      && r.cpus == s.cpus && r.levels == s.levels && r.current == s.current
      && r.ts == s.ts[c := s.ts[c].(oncpu := s.cpus, stat := if s.ts[c].stat.Running? then Ready else s.ts[c].stat,
                                    yielded := !s.ts[c].stat.Running? && s.ts[c].yielded)]
  {
    hide Queued;
    var c := s.current[k];
    var s1 := With(s, c, s.ts[c].(oncpu := s.cpus));
    FieldKeeps(s, c, s.ts[c].(oncpu := s.cpus));
    if s.ts[c].stat.Running? {
      LinkKeeps(s1, c);
      var s2 := Insert(s1, c);
      FieldKeeps(s2, c, s2.ts[c].(yielded := false));
    }
  }

  lemma ReleaseKeeps(s: Smp, k: nat)
    requires Inv(s) && k < s.cpus
    ensures var r := Release(s, k);
      && Shape(r) && Queued(r) && CpuOpen(r, k)
      && r.cpus == s.cpus && r.levels == s.levels && |r.ts| == |s.ts| && r.current == s.current
      && (forall t: nat :: t < |s.ts| && t != s.current[k] ==> r.ts[t] == s.ts[t])
      && r.ts[s.current[k]].prio == s.ts[s.current[k]].prio && r.ts[s.current[k]].bind == s.ts[s.current[k]].bind
      && (r.ts[s.current[k]].stat.Ready? <==> s.ts[s.current[k]].stat.Running?)
  {
    ReleaseTables(s, k);
    hide Queued, Release;
  }

  lemma AcquireKeeps(s: Smp, k: nat, to: nat)
    requires Shape(s) && Queued(s) && CpuOpen(s, k) && k < s.cpus && to < |s.ts| && s.ts[to].stat.Ready?
    ensures Inv(Acquire(s, k, to))
    ensures Acquire(s, k, to).ts == s.ts[to := s.ts[to].(oncpu := k, stat := Running)]
  {
    UnlinkKeeps(s, to, s.ts[to].(oncpu := k, stat := Running));
    var r := With(Unlink(s, to), to, s.ts[to].(oncpu := k, stat := Running));
    assert forall q: nat, p: nat :: q <= s.cpus && p < s.levels ==> QueueOk(r, q, p);
    forall q: nat, p: nat | q <= s.cpus && p < s.levels ensures QueueOk(Acquire(s, k, to), q, p) { assert QueueOk(r, q, p); }
  }

  /** CPU `k` runs a thread that may run there, and no eligible ready thread is more urgent. */
  ghost predicate Settled(s: Smp, k: nat)
    requires Shape(s) && k < s.cpus
  {
    var c := s.ts[s.current[k]];
    forall t: nat :: t < |s.ts| && Eligible(s, k, t) ==>
      c.stat.Running? && (c.bind == s.cpus || c.bind == k) && c.prio <= s.ts[t].prio
  }

  lemma SwitchKeeps(s: Smp, k: nat)
    requires Inv(s) && k < s.cpus
    ensures Inv(Switch(s, k)) && Settled(Switch(s, k), k)
    ensures forall j :: 0 <= j < s.cpus && j != k ==> Switch(s, k).current[j] == s.current[j]
  {
    PickIsTop(s, k);
    var q, c := PickQueue(s, k), s.current[k];
    var p := Top(s, q);
    if p != NO_PRIO {
      if Stays(s, s.ts[c], k, p) {
        FieldKeeps(s, c, s.ts[c].(oncpu := k, yielded := false));
        hide Queued;
      } else {
        var to := s.queues[q][p][0];
        ReleaseKeeps(s, k);
        AcquireKeeps(Release(s, k), k, to);
        hide Queued, OnCpus, CpuOpen, Release, Acquire;
      }
    }
  }

  // ---------------------------------------------------------------- runs

  datatype Op =
    | StartOp(t: nat) | ReadyOp(t: nat) | SuspendOp(t: nat) | CloseOp(t: nat) | SetPrioOp(t: nat, prio: nat)
    | BindOp(t: nat, cpu: nat) | YieldOp(k: nat) | SwitchOp(k: nat)

  predicate Enabled(s: Smp, op: Op) {
    match op
    case StartOp(t) => t < |s.ts| && s.ts[t].stat.Init?
    case ReadyOp(t) => t < |s.ts|
    case SuspendOp(t) => t < |s.ts|
    case CloseOp(t) => t < |s.ts|
    case SetPrioOp(t, prio) => t < |s.ts| && prio < s.levels
    case BindOp(t, _) => t < |s.ts|
    case YieldOp(k) => k < s.cpus
    case SwitchOp(k) => k < s.cpus
  }

  /** Each region under the scheduler lock is one step; any CPU may switch at any time. */
  ghost function Step(s: Smp, op: Op): Smp
    requires Shape(s) && Enabled(s, op)
  {
    match op
    case StartOp(t) => With(s, t, s.ts[t].(stat := Suspended, yielded := false))
    case ReadyOp(t) => MakeReady(s, t).1
    case SuspendOp(t) => Suspend(s, t).1
    case CloseOp(t) => Close(s, t)
    case SetPrioOp(t, prio) => SetPrio(s, t, prio)
    case BindOp(t, cpu) => Bind(s, t, cpu)
    case YieldOp(k) => Yield(s, k)
    case SwitchOp(k) => Switch(s, k)
  }

  lemma StartKeeps(s: Smp, t: nat)
    requires Inv(s) && t < |s.ts| && s.ts[t].stat.Init?
    ensures Inv(With(s, t, s.ts[t].(stat := Suspended, yielded := false)))
  {
    FieldKeeps(s, t, s.ts[t].(stat := Suspended, yielded := false));
    hide Queued;
  }

  lemma StepKeeps(s: Smp, op: Op)
    requires Inv(s) && Enabled(s, op)
    ensures Inv(Step(s, op))
  {
    hide Queued, OnCpus, Settled, MakeReady, Suspend, Close, SetPrio, Bind, Yield, Switch;
    match op
    case StartOp(t) => StartKeeps(s, t);
    case ReadyOp(t) => MakeReadyKeeps(s, t);
    case SuspendOp(t) => SuspendKeeps(s, t);
    case CloseOp(t) => CloseKeeps(s, t);
    case SetPrioOp(t, prio) => SetPrioKeeps(s, t, prio);
    case BindOp(t, cpu) => BindKeeps(s, t, cpu);
    case YieldOp(k) => YieldKeeps(s, k);
    case SwitchOp(k) => SwitchKeeps(s, k);
  }

  ghost predicate IsRun(ss: seq<Smp>, ops: seq<Op>) {
    && |ss| == |ops| + 1 && Inv(ss[0])
    && forall i :: 0 <= i < |ops| ==> Shape(ss[i]) && Enabled(ss[i], ops[i]) && ss[i + 1] == Step(ss[i], ops[i])
  }

  lemma {:induction false} RunKeeps(ss: seq<Smp>, ops: seq<Op>, i: nat)
    requires IsRun(ss, ops) && i <= |ops|
    ensures Inv(ss[i])
  {
    hide Inv;
    if i > 0 {
      RunKeeps(ss, ops, i - 1);
      StepKeeps(ss[i - 1], ops[i - 1]);
    }
  }

  /** In every reachable state: a ready thread is in exactly one queue, that of its CPU or
      the global one, and on no CPU; a thread on a CPU is in no queue; no thread is on two. */
  lemma RunIsSafe(ss: seq<Smp>, ops: seq<Op>, i: nat, t: nat, q: nat, p: nat)
    requires IsRun(ss, ops) && i <= |ops|
    requires t < |ss[i].ts| && q <= ss[i].cpus && p < ss[i].levels
    ensures Shape(ss[i])
    ensures var s := ss[i]; var th := s.ts[t];
      && (t in s.queues[q][p] <==> th.stat.Ready? && th.bind == q && th.prio == p)
      && NoDup(s.queues[q][p])
      && (th.stat.Ready? ==> th.oncpu == s.cpus && forall k: nat :: k < s.cpus ==> s.current[k] != t)
      && (forall k: nat :: k < s.cpus && s.current[k] == t ==> th.oncpu == k && !th.stat.Ready?)
      && (forall j, k :: 0 <= j < k < s.cpus ==> s.current[j] != s.current[k])
  {
    RunKeeps(ss, ops, i);
    assert QueueOk(ss[i], q, p);
    hide IsRun;
  }

  /** After every switch the CPU runs the most urgent thread it may run. */
  lemma RunSettles(ss: seq<Smp>, ops: seq<Op>, i: nat)
    requires IsRun(ss, ops) && i < |ops| && ops[i].SwitchOp?
    ensures Shape(ss[i + 1]) && ops[i].k < ss[i + 1].cpus && Settled(ss[i + 1], ops[i].k)
  {
    RunKeeps(ss, ops, i);
    SwitchKeeps(ss[i], ops[i].k);
    hide Queued, OnCpus, Settled;
  }
}
