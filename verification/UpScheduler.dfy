/** `scheduler_up.c` and `scheduler_comm.c` with their ready lists and bitmaps, updated in
    place; each method is shown to do what `UpSpec` says. */
module UpScheduler {
  import opened Common
  import opened ReadyLists
  import opened UpSpec

  class Scheduler {
    const levels: nat
    const ready: ReadyQueue
    const threads: array<Thread>
    const attrs: array<Attr>
    var current: nat
    var lockNest: int
    var switchPending: bool

    ghost function S(): Sched
      reads this, ready, threads
    {
      Sched(threads[..], ready.lists, current, if lockNest >= 0 then lockNest else 0, switchPending)
    }

    /** Bitmaps, cached masks and links in range; holds between the stores of one call too. */
    ghost predicate Linked()
      reads this, ready, threads, attrs
    {
      && ready.Valid() && ready.levels == levels && lockNest >= 0
      && threads.Length == attrs.Length && Shape(S())
      && (forall t :: 0 <= t < attrs.Length ==> attrs[t] == AttrOf(levels, threads[t].prio))
    }

    ghost predicate Valid()
      reads this, ready, threads, attrs
    {
      Linked() && Inv(S())
    }

    /** `rt_system_scheduler_init`, with one thread running and none ready yet. */
    constructor (levels: nat, init: seq<Thread>, first: nat)
      requires 0 < levels <= MAX_LEVELS && first < |init|
      requires forall t :: 0 <= t < |init| ==> init[t].prio < levels && !init[t].stat.Ready? && (init[t].stat.Running? <==> t == first)
      ensures Valid() && fresh(ready) && fresh(threads) && fresh(attrs)
      ensures S() == Sched(init, seq(levels, p => []), first, 0, false)
    {
      this.levels := levels;
      ready := new ReadyQueue(levels);
      threads := new Thread[|init|](t requires 0 <= t < |init| => init[t]);
      attrs := new Attr[|init|](t requires 0 <= t < |init| && init[t].prio < levels <= MAX_LEVELS => AttrOf(levels, init[t].prio));
      current := first;
      lockNest := 0;
      switchPending := false;
      new;
      assert threads[..] == init;
    }

    method SetStat(t: nat, stat: Stat)
      requires Linked() && t < threads.Length
      modifies threads
      ensures Linked() && S() == WithStat(old(S()), t, stat)
    {
      threads[t] := threads[t].(stat := stat);
      assert threads[..] == old(threads[..])[t := old(threads[t]).(stat := stat)];
    }

    /** `rt_sched_insert_thread`. */
    method InsertThread(t: nat)
      requires Linked() && t < threads.Length
      modifies threads, ready
      ensures Linked() && S() == Insert(old(S()), t)
    {
      if t == current {
        SetStat(t, Running);
        return;
      }
      SetStat(t, Ready);
      LinkShape(S(), t, threads[t].yielded);
      ready.Insert(t, threads[t].prio, attrs[t], threads[t].yielded);
    }

    /** `rt_sched_remove_thread`. */
    method RemoveThread(t: nat)
      requires Linked() && t < threads.Length
      modifies ready
      ensures Linked() && S() == Unlink(old(S()), t)
    {
      UnlinkShape(S(), t);
      ready.RemoveThread(t, threads[t].prio, attrs[t]);
    }

    /** The thread that was running goes back to its list unless it gave up; its yield flag
        is consumed. */
    method LeaveCurrent(to: nat, insertFrom: bool)
      requires Valid() && to < threads.Length && threads[to].stat.Ready?
      requires insertFrom <==> threads[current].stat.Running?
      modifies this`current, ready, threads
      ensures Linked() && S() == HandedOver(old(S()), to)
    {
      hide Queued;
      HandOverKeeps(S(), to);
      var from := current;
      current := to;
      if insertFrom {
        InsertThread(from);
      }
      if threads[from].yielded {
        threads[from] := threads[from].(yielded := false);
      }
      assert S() == HandedOver(old(S()), to);
    }

    /** The switch proper: the chosen thread leaves its list and runs. */
    method SwitchTo(to: nat, insertFrom: bool)
      requires Valid() && to < threads.Length && threads[to].stat.Ready?
      requires insertFrom <==> threads[current].stat.Running?
      modifies this`current, ready, threads
      ensures Linked() && S() == WithStat(Unlink(HandedOver(old(S()), to), to), to, Running)
    {
      hide Inv, Shape, HandedOver;
      LeaveCurrent(to, insertFrom);
      RemoveThread(to);
      SetStat(to, Running);
    }

    /** `rt_schedule`, the context switch being the new value of `current`. */
    method Reschedule()
      requires Valid()
      modifies this`current, this`switchPending, ready, threads
      ensures Valid() && S() == Schedule(old(S()))
    {
      hide Queued, Settled, HandedOver, Unlink, WithStat;
      ghost var s := S();
      ScheduleKeeps(s);
      if lockNest == 0 {
        ready.EmptyGroup();
        if ready.group != 0 {
          var insertFrom := false;
          var p := ready.Highest();
          Positions(S(), p);
          var to := ready.lists[p][0];
          if threads[current].stat == Running {
            if threads[current].prio < p {
              to := current;
            } else if threads[current].prio == p && !threads[current].yielded {
              to := current;
            } else {
              insertFrom := true;
            }
          }
          if to != current {
            SwitchTo(to, insertFrom);
          } else {
            RemoveThread(current);
            SetStat(current, Running);
          }
        }
      } else {
        switchPending := true;
      }
    }

    /** `rt_sched_thread_ready`; unlinking from a suspend list is the caller's object's affair. */
    method ThreadReady(t: nat) returns (ok: bool)
      requires Valid() && t < threads.Length
      modifies threads, ready
      ensures Valid() && (ok, S()) == MakeReady(old(S()), t)
    {
      MakeReadyKeeps(S(), t);
      hide Queued;
      ok := threads[t].stat == Suspended;
      if ok {
        InsertThread(t);
      }
    }

    /** `rt_sched_thread_yield` of the current thread. */
    method ThreadYield()
      requires Valid()
      modifies threads
      ensures Valid() && S() == Yield(old(S()))
    {
      threads[current] := threads[current].(remaining := threads[current].initTick);
      threads[current] := threads[current].(yielded := true);
      assert S() == Yield(old(S()));
    }

    /** `rt_sched_tick_increase`. */
    method TickIncrease(tick: nat)
      requires Valid()
      modifies this`current, this`switchPending, ready, threads
      ensures Valid() && S() == Tick(old(S()), tick)
    {
      var left := if threads[current].remaining > tick then threads[current].remaining - tick else 0;
      threads[current] := threads[current].(remaining := left);
      assert S() == old(S()).(ts := S().ts);
      hide Queued;
      if threads[current].remaining == 0 {
        ThreadYield();
        Reschedule();
      }
    }

    method SetThread(t: nat, th: Thread)
      requires Linked() && t < threads.Length && th.prio < levels
      modifies threads, attrs
      ensures Linked() && S() == old(S()).(ts := old(S()).ts[t := th])
    {
      threads[t] := th;
      attrs[t] := AttrOf(levels, th.prio);
      assert threads[..] == old(threads[..])[t := th];
    }

    /** `_rt_sched_update_priority`. */
    method UpdatePriority(t: nat, prio: nat, initToo: bool)
      requires Valid() && t < threads.Length && prio < levels
      modifies threads, attrs, ready
      ensures Valid() && S() == SetPrio(old(S()), t, prio, initToo)
    {
      SetPrioKeeps(S(), t, prio, initToo);
      hide Queued;
      var th := threads[t];
      var changed := th.(initPrio := if initToo then prio else th.initPrio, prio := prio);
      if th.stat == Ready {
        RemoveThread(t);
        SetThread(t, changed.(stat := Init, yielded := false));
        InsertThread(t);
      } else {
        SetThread(t, changed);
      }
    }

    /** `rt_thread_suspend_to_list` without the list of the object waited for. */
    method SuspendThread(t: nat) returns (ok: bool)
      requires Valid() && t < threads.Length
      modifies threads, ready
      ensures Valid() && (ok, S()) == Suspend(old(S()), t)
    {
      SuspendKeeps(S(), t);
      hide Queued;
      var stat := threads[t].stat;
      ok := stat == Suspended || stat == Ready || stat == Running;
      if stat == Ready || stat == Running {
        RemoveThread(t);
        SetStat(t, Suspended);
      }
    }

    /** `rt_thread_startup` up to the point where the thread may be made ready. */
    method StartThread(t: nat)
      requires Valid() && t < threads.Length && threads[t].stat.Init?
      modifies threads, attrs
      ensures Valid() && S() == Start(old(S()), t) && threads[t].stat.Suspended?
    {
      StartKeeps(S(), t);
      hide Queued;
      SetThread(t, threads[t].(stat := Suspended, yielded := false));
    }

    /** `rt_thread_close`. */
    method CloseThread(t: nat)
      requires Valid() && t < threads.Length
      modifies threads, attrs, ready
      ensures Valid() && S() == Close(old(S()), t)
    {
      SuspendKeeps(S(), t);
      hide Queued;
      if threads[t].stat != Closed {
        if threads[t].stat != Init {
          RemoveThread(t);
        }
        SetThread(t, threads[t].(stat := Closed, yielded := false));
      }
    }

    method EnterCritical() returns (level: int)
      requires Valid()
      modifies this`lockNest
      ensures Valid() && S() == Enter(old(S())) && level == lockNest == old(lockNest) + 1
    {
      lockNest := lockNest + 1;
      level := lockNest;
    }

    /** The part of `rt_exit_critical` that runs with interrupts off. */
    method ReleaseLock() returns (outermost: bool)
      requires Valid()
      modifies this`lockNest
      ensures Valid() && S() == Unlock(old(S())) && outermost == (old(S()).nest <= 1)
      ensures lockNest == if old(lockNest) > 0 then old(lockNest) - 1 else 0
    {
      ghost var s := S();
      ExitKeeps(s);
      hide Inv, Shape;
      lockNest := lockNest - 1;
      outermost := lockNest <= 0;
      if outermost {
        lockNest := 0;
      }
      assert S() == Unlock(s);
    }

    method ClearFlag()
      requires Valid()
      modifies this`switchPending
      ensures Valid() && S() == ClearPending(old(S())) && !switchPending
    {
      ExitKeeps(S());
      switchPending := false;
    }

    /** `rt_exit_critical`; between its steps interrupts may do any other call. */
    method ExitCritical()
      requires Valid()
      modifies this`lockNest, this`current, this`switchPending, ready, threads
      ensures Valid() && S() == Exit(old(S()))
    {
      hide Inv, Shape, Schedule;
      var outermost := ReleaseLock();
      if outermost && switchPending {
        ClearFlag();
        Reschedule();
      }
    }
  }

  lemma LinkShape(s: Sched, t: nat, yielded: bool)
    requires Shape(s) && t < |s.ts|
    ensures var l := s.lists[s.ts[t].prio];
      Shape(s.(lists := s.lists[s.ts[t].prio := if yielded then l + [t] else [t] + l]))
  {
  }

  lemma UnlinkShape(s: Sched, t: nat)
    requires Shape(s) && t < |s.ts|
    ensures Shape(Unlink(s, t))
  {
    var p0, r := s.ts[t].prio, Unlink(s, t);
    forall i | 0 <= i < |r.lists[p0]| ensures r.lists[p0][i] < |r.ts| {
      assert r.lists[p0][i] in s.lists[p0];
      var j :| 0 <= j < |s.lists[p0]| && s.lists[p0][j] == r.lists[p0][i];
    }
  }
}
