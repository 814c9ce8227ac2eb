/** `scheduler_mp.c` with its global and per-CPU queues, updated in place; each method is
    shown to do what `MpSpec` says. */
module MpScheduler {
  import opened Common
  import opened ReadyLists
  import opened MpSpec

  class Scheduler {
    const cpus: nat
    const levels: nat
    /** The queue of CPU `k` at index `k`, the global one at index `cpus`. */
    const queues: seq<ReadyQueue>
    const threads: array<Thread>
    const attrs: array<Attr>
    const current: array<nat>

    ghost function Lists(): seq<seq<seq<nat>>>
      reads queues
    {
      seq(|queues|, q requires 0 <= q < |queues| reads queues => queues[q].lists)
    }

    ghost function S(): Smp
      reads queues, threads, current
    {
      Smp(cpus, levels, threads[..], Lists(), current[..])
    }

    /** Bitmaps, cached masks and ranges; holds between the stores of one call too. */
    ghost predicate Linked()
      reads queues, threads, attrs, current
    {
      && |queues| == cpus + 1 && threads.Length == attrs.Length && levels <= MAX_LEVELS && Shape(S())
      && (forall q :: 0 <= q < |queues| ==> queues[q].Valid() && queues[q].levels == levels)
      && (forall p, q :: 0 <= p < q < |queues| ==> queues[p] != queues[q])
      && (forall t :: 0 <= t < attrs.Length ==> attrs[t] == AttrOf(levels, threads[t].prio))
    }

    ghost predicate Valid()
      reads queues, threads, attrs, current
    {
      Linked() && Inv(S())
    }

    static method EmptyQueues(n: nat, levels: nat) returns (qs: seq<ReadyQueue>)
      requires 0 < levels <= MAX_LEVELS
      ensures |qs| == n && fresh(qs)
      ensures forall q :: 0 <= q < n ==> qs[q].Valid() && qs[q].levels == levels && qs[q].lists == seq(levels, p => [])
      ensures forall p, q :: 0 <= p < q < n ==> qs[p] != qs[q]
    {
      qs := [];
      while |qs| < n
        invariant |qs| <= n && fresh(qs)
        invariant forall q :: 0 <= q < |qs| ==> qs[q].Valid() && qs[q].levels == levels && qs[q].lists == seq(levels, p => [])
        invariant forall p, q :: 0 <= p < q < |qs| ==> qs[p] != qs[q]
      {
        var q := new ReadyQueue(levels);
        qs := qs + [q];
      }
    }

    /** `rt_system_scheduler_init`, with one thread on each CPU and none ready yet. */
    constructor (cpus: nat, levels: nat, init: seq<Thread>, first: seq<nat>)
      requires 0 < cpus == |first| && 0 < levels <= MAX_LEVELS
      requires forall t :: 0 <= t < |init| ==> init[t].prio < levels && init[t].bind <= cpus && !init[t].stat.Ready?
      requires forall k :: 0 <= k < cpus ==> first[k] < |init| && init[first[k]].oncpu == k
      requires forall t: nat :: t < |init| ==> init[t].oncpu <= cpus && (init[t].oncpu < cpus ==> first[init[t].oncpu] == t)
      requires forall t :: 0 <= t < |init| && init[t].stat.Running? ==> init[t].oncpu < cpus
      ensures Valid() && fresh(queues) && fresh(threads) && fresh(attrs) && fresh(current)
      ensures this.cpus == cpus && this.levels == levels && threads[..] == init && current[..] == first
      ensures forall q, p :: 0 <= q <= cpus && 0 <= p < levels ==> queues[q].lists[p] == []
    {
      var qs := EmptyQueues(cpus + 1, levels);
      this.cpus := cpus;
      this.levels := levels;
      queues := qs;
      threads := new Thread[|init|](t requires 0 <= t < |init| => init[t]);
      attrs := new Attr[|init|](t requires 0 <= t < |init| && init[t].prio < levels <= MAX_LEVELS => AttrOf(levels, init[t].prio));
      current := new nat[cpus](k requires 0 <= k < |first| => first[k]);
      new;
      hide Queued;
      assert threads[..] == init && current[..] == first;
      StartsSafe(S());
    }

    method SetThread(t: nat, th: Thread)
      requires Linked() && t < threads.Length
      requires th.prio < levels && th.bind <= cpus && th.oncpu <= cpus
      modifies threads, attrs
      ensures Linked() && S() == With(old(S()), t, th)
    {
      threads[t] := th;
      attrs[t] := AttrOf(levels, th.prio);
      assert threads[..] == old(threads[..])[t := th];
    }

    /** `_sched_insert_thread_locked`; the interrupt it sends to other CPUs lets them switch. */
    method InsertThread(t: nat)
      requires Linked() && t < threads.Length
      modifies threads, attrs, queues
      ensures Linked() && S() == Insert(old(S()), t)
    {
      var th := threads[t];
      if th.stat == Ready {
        return;
      } else if th.oncpu != cpus {
        SetThread(t, th.(stat := Running));
        return;
      }
      SetThread(t, th.(stat := Ready));
      ghost var before := Lists();
      queues[th.bind].Insert(t, th.prio, attrs[t], th.yielded);
      assert Lists() == before[th.bind := queues[th.bind].lists];
    }

    /** `_sched_remove_thread_locked`. */
    method UnlinkThread(t: nat)
      requires Linked() && t < threads.Length
      modifies queues
      ensures Linked() && S() == Unlink(old(S()), t)
    {
      var th := threads[t];
      ghost var before := Lists();
      queues[th.bind].RemoveThread(t, th.prio, attrs[t]);
      assert Lists() == before[th.bind := queues[th.bind].lists];
    }

    /** `_scheduler_get_highest_priority_thread` on CPU `k`. */
    method HighestPriorityThread(k: nat) returns (p: nat, ghost q: nat, to: nat)
      requires Valid() && k < cpus
      ensures q == PickQueue(S(), k) && p == Top(S(), q)
      ensures p != NO_PRIO ==> p < levels && queues[q].lists[p] != [] && to == queues[q].lists[p][0]
    {
      var global := queues[cpus].HighestOrNone();
      var local := queues[k].HighestOrNone();
      to := 0;
      if global < local {
        p, q := global, cpus;
        to := queues[cpus].lists[global][0];
      } else {
        p, q := local, k;
        if local != NO_PRIO {
          to := queues[k].lists[local][0];
        }
      }
    }

    /** CPU `k` lets go of its thread. */
    method ReleaseCpu(k: nat)
      requires Valid() && k < cpus
      modifies threads, attrs, queues
      ensures Linked() && S() == Release(old(S()), k)
    {
      var c := current[k];
      SetThread(c, threads[c].(oncpu := cpus));
      if threads[c].stat == Running {
        InsertThread(c);
        SetThread(c, threads[c].(yielded := false));
      }
    }

    /** CPU `k` takes the chosen thread. */
    method AcquireCpu(k: nat, to: nat)
      requires Linked() && k < cpus && to < threads.Length
      modifies threads, attrs, queues, current
      ensures Linked() && S() == Acquire(old(S()), k, to)
    {
      var th := threads[to];
      UnlinkThread(to);
      SetThread(to, th.(oncpu := k, stat := Running));
      current[k] := to;
      assert current[..] == old(current[..])[k := to];
    }

    /** `_prepare_context_switch_locked` on CPU `k`, then `rt_sched_post_ctx_switch`. */
    method ContextSwitch(k: nat)
      requires Valid() && k < cpus
      modifies threads, attrs, queues, current
      ensures Valid() && S() == Switch(old(S()), k)
    {
      ghost var s := S();
      SwitchKeeps(s, k);
      PickIsTop(s, k);
      SomethingReady(k);
      hide Queued, OnCpus, Release, Acquire, Settled, PickQueue, Top;
      if queues[cpus].group != 0 || queues[k].group != 0 {
        var p, q, to := HighestPriorityThread(k);
        var c := current[k];
        var th := threads[c];
        if th.stat == Running && (th.bind == cpus || th.bind == k) && (th.prio < p || (th.prio == p && !th.yielded)) {
          SetThread(c, th.(oncpu := k, yielded := false));
        } else {
          ReleaseCpu(k);
          AcquireCpu(k, to);
        }
      }
    }

    /** `rt_sched_remove_thread`. */
    method TakeThread(t: nat)
      requires Linked() && t < threads.Length
      modifies threads, attrs, queues
      ensures Linked() && S() == Take(old(S()), t)
    {
      UnlinkThread(t);
      SetThread(t, threads[t].(stat := Suspended, yielded := false));
    }

    /** `rt_sched_thread_bind_cpu`; the reschedule it ends with is a `ContextSwitch` of its own. */
    method BindCpu(t: nat, cpu: nat)
      requires Valid() && t < threads.Length
      modifies threads, attrs, queues
      ensures Valid() && S() == Bind(old(S()), t, cpu)
    {
      BindKeeps(S(), t, cpu);
      hide Queued, OnCpus, Unlink, Insert;
      ghost var s := S();
      var target := if cpu >= cpus then cpus else cpu;
      if threads[t].stat == Ready {
        TakeThread(t);
        WithTwice(Unlink(s, t), t, threads[t], threads[t].(bind := target));
        SetThread(t, threads[t].(bind := target));
        InsertThread(t);
      } else {
        SetThread(t, threads[t].(bind := target));
      }
    }

    /** `_rt_sched_update_priority`. */
    method UpdatePriority(t: nat, prio: nat)
      requires Valid() && t < threads.Length && prio < levels
      modifies threads, attrs, queues
      ensures Valid() && S() == SetPrio(old(S()), t, prio)
    {
      SetPrioKeeps(S(), t, prio);
      hide Queued, OnCpus, Unlink, Insert;
      ghost var s := S();
      if threads[t].stat == Ready {
        TakeThread(t);
        WithTwice(Unlink(s, t), t, threads[t], threads[t].(prio := prio, stat := Init, yielded := false));
        SetThread(t, threads[t].(prio := prio, stat := Init, yielded := false));
        InsertThread(t);
      } else {
        SetThread(t, threads[t].(prio := prio));
      }
    }

    /** `rt_sched_thread_ready`. */
    method ThreadReady(t: nat) returns (ok: bool)
      requires Valid() && t < threads.Length
      modifies threads, attrs, queues
      ensures Valid() && (ok, S()) == MakeReady(old(S()), t)
    {
      MakeReadyKeeps(S(), t);
      hide Queued, OnCpus;
      ok := threads[t].stat == Suspended;
      if ok {
        InsertThread(t);
      }
    }

    /** `rt_thread_suspend_to_list` without the list of the object waited for. */
    method SuspendThread(t: nat) returns (ok: bool)
      requires Valid() && t < threads.Length
      modifies threads, attrs, queues
      ensures Valid() && (ok, S()) == Suspend(old(S()), t)
    {
      SuspendKeeps(S(), t);
      hide Queued, OnCpus;
      var stat := threads[t].stat;
      ok := stat == Suspended || stat == Ready || stat == Running;
      if stat == Ready || stat == Running {
        TakeThread(t);
      }
    }

    /** `rt_thread_startup` up to the point where the thread may be made ready. */
    method StartThread(t: nat)
      requires Valid() && t < threads.Length && threads[t].stat.Init?
      modifies threads, attrs
      ensures Valid() && S() == Step(old(S()), StartOp(t)) && threads[t].stat.Suspended?
    {
      StartKeeps(S(), t);
      hide Queued, OnCpus;
      SetThread(t, threads[t].(stat := Suspended, yielded := false));
    }

    /** `rt_thread_close`, the scheduler's part. */
    method CloseThread(t: nat)
      requires Valid() && t < threads.Length
      modifies threads, attrs, queues
      ensures Valid() && S() == Close(old(S()), t)
    {
      CloseKeeps(S(), t);
      hide Queued, OnCpus;
      if threads[t].stat != Closed {
        if threads[t].stat != Init {
          UnlinkThread(t);
        }
        SetThread(t, threads[t].(stat := Closed, yielded := false));
      }
    }

    /** `rt_sched_thread_yield` of the thread on CPU `k`. */
    method ThreadYield(k: nat)
      requires Valid() && k < cpus
      modifies threads, attrs
      ensures Valid() && S() == Yield(old(S()), k)
    {
      YieldKeeps(S(), k);
      hide Queued, OnCpus;
      SetThread(current[k], threads[current[k]].(yielded := true));
    }

    lemma EmptyQueue(q: nat)
      requires Linked() && q <= cpus
      ensures queues[q].group == 0 <==> Top(S(), q) == NO_PRIO
    {
      queues[q].EmptyGroup();
    }

    lemma SomethingReady(k: nat)
      requires Linked() && k < cpus
      ensures queues[cpus].group != 0 || queues[k].group != 0 <==> Top(S(), PickQueue(S(), k)) != NO_PRIO
      ensures Lists()[PickQueue(S(), k)] == queues[PickQueue(S(), k)].lists
    {
      EmptyQueue(cpus);
      EmptyQueue(k);
    }
  }

  lemma WithTwice(s: Smp, t: nat, a: Thread, b: Thread)
    requires t < |s.ts|
    ensures With(With(s, t, a), t, b) == With(s, t, b)
  {
  }
}
