/** The code itself: thread and mutex records updated in place, with the loops of
    `ipc.c`.  Each method is proved to compute its transition from `MutexOps`. */
module MutexKernel {
  import opened Common
  import opened MutexState
  import opened MutexChain
  import opened MutexOps
  import opened MutexSafety

  ghost function ChainMeasure(s: State, t: Tid, p: Prio): nat {
    if t < |s.threads| && Waiting(s, t) && Linked(s) then Inconsistent(s, t, p) else 0
  }

  lemma MostUrgentStep(ms: seq<Mutex>, taken: seq<Mid>, i: nat, start: Prio)
    requires i < |taken| && Below(taken, |ms|)
    ensures Below(taken[i..], |ms|) && Below(taken[i + 1..], |ms|)
    ensures MostUrgent(ms, taken[i..], start) == MostUrgent(ms, taken[i + 1..], Min(start, Demand(ms[taken[i]])))
  {
    assert taken[i..][1..] == taken[i + 1..];
  }

  /** Where the next link of the chain is read from. */
  lemma ChainOwner(s: State, t: Tid, p: Prio)
    requires t < |s.threads| && Ok(s) && Waiting(s, t)
    ensures Linked(SetCur(s, t, p)) && Waiting(SetCur(s, t, p), t)
    ensures var m := s.threads[t].pending.value; var s2 := Requeue(SetCur(s, t, p), t);
      && m < |s.mutexes| && |s2.mutexes| == |s.mutexes| && |s2.threads| == |s.threads|
      && s2.threads[t].pending == Some(m) && s2.mutexes[m].owner == Some(NextOwner(s, t, p))
      && ThreadLinks(s2, NextOwner(s, t, p))
      && (Waiting(s2, NextOwner(s, t, p)) ==> Ok(s2))
  {
    RequeueSorts(s, t, p);
    assert ThreadLinks(s, t) && MutexLinks(s, s.threads[t].pending.value);
    assert ThreadLinks(Requeue(SetCur(s, t, p), t), NextOwner(s, t, p));
  }

  /** The hold count takes no part in settling the priority and is overwritten by the hand-over. */
  lemma HoldIrrelevant(s: State, t: Tid, m: Mid)
    requires t < |s.threads| && m < |s.mutexes| && ThreadLinks(s, t) && MutexLinks(s, m)
    ensures var s0 := WithMutex(s, m, s.mutexes[m].(hold := 0));
      && ThreadLinks(s0, t)
      && GiveBack(s, t, m).mutexes == s.mutexes
      && |GiveBack(s, t, m).threads| == |s.threads|
      && GiveBack(s0, t, m) == WithMutex(GiveBack(s, t, m), m, s.mutexes[m].(hold := 0))
  {
    var s0 := WithMutex(s, m, s.mutexes[m].(hold := 0));
    var th := s.threads[t].(taken := Remove(s.threads[t].taken, m));
    var s1, s2 := WithThread(s, t, th), WithThread(s0, t, th);
    RemoveNoDup(s.threads[t].taken, m);
    assert ThreadLinks(s1, t) && ThreadLinks(s2, t);
    RecomputedFrame(s1, s2, t);
  }

  lemma HandOverSetsHold(g: State, m: Mid)
    requires m < |g.mutexes| && Below(g.mutexes[m].waiters, |g.threads|)
    ensures HandOver(WithMutex(g, m, g.mutexes[m].(hold := 0)), m) == HandOver(g, m)
  {
  }

  class Kernel {
    const threads: array<Thread>
    const mutexes: array<Mutex>

    /** The state the transitions speak about. */
    ghost function S(): State
      reads threads, mutexes
    {
      State(threads[..], mutexes[..])
    }

    constructor (inits: seq<Prio>, count: nat)
      ensures fresh(threads) && fresh(mutexes)
      ensures S().threads == seq(|inits|, i requires 0 <= i < |inits| => Thread(inits[i], inits[i], false, None, []))
      ensures S().mutexes == seq(count, _ => Mutex(None, 0, NO_PRIO, NO_PRIO, []))
    {
      threads := new Thread[|inits|](i requires 0 <= i < |inits| => Thread(inits[i], inits[i], false, None, []));
      mutexes := new Mutex[count](_ => Mutex(None, 0, NO_PRIO, NO_PRIO, []));
    }

    /** `rt_susp_list_enqueue`: walk to the first less urgent waiter and link in before it. */
    method SuspListEnqueue(ws: seq<Tid>, t: Tid) returns (r: seq<Tid>)
      requires t < threads.Length && Below(ws, threads.Length)
      ensures r == Enqueue(threads[..], ws, t)
    {
      ghost var ts := threads[..];
      var n := 0;
      while n < |ws| && !(threads[t].cur < threads[ws[n]].cur)
        invariant n <= |ws| && Below(ws[n..], |ts|)
        invariant Enqueue(ts, ws, t) == ws[..n] + Enqueue(ts, ws[n..], t)
      {
        assert ws[n..][1..] == ws[n + 1..];
        assert ws[..n + 1] == ws[..n] + [ws[n]];
        n := n + 1;
      }
      r := ws[..n] + [t] + ws[n..];
    }

    /** `_mutex_update_priority`. */
    method MutexUpdatePriority(m: Mid)
      requires m < mutexes.Length && Below(mutexes[m].waiters, threads.Length)
      modifies mutexes
      ensures S() == WithMutex(old(S()), m, old(mutexes[m]).(prio := FirstPrio(threads[..], old(mutexes[m]).waiters)))
    {
      if mutexes[m].waiters != [] {
        mutexes[m] := mutexes[m].(prio := threads[mutexes[m].waiters[0]].cur);
      } else {
        mutexes[m] := mutexes[m].(prio := NO_PRIO);
      }
    }

    /** `_thread_get_mutex_priority`: the loop over the taken list. */
    method ThreadGetMutexPriority(t: Tid) returns (priority: Prio)
      requires t < threads.Length && ThreadLinks(S(), t)
      ensures priority == Recomputed(S(), t)
    {
      ghost var ms, goal := mutexes[..], Recomputed(S(), t);
      priority := threads[t].init;
      var taken := threads[t].taken;
      var i := 0;
      while i < |taken|
        invariant i <= |taken| && Below(taken, |ms|) && Below(taken[i..], |ms|)
        invariant MostUrgent(ms, taken[i..], priority) == goal
      {
        var mutex := mutexes[taken[i]];
        var mutexPrio := mutex.prio;
        mutexPrio := if mutexPrio < mutex.ceiling then mutexPrio else mutex.ceiling;
        MostUrgentStep(ms, taken, i, priority);
        if priority > mutexPrio {
          priority := mutexPrio;
        }
        i := i + 1;
      }
    }

    /** Unlink a waiter whose priority changed, link it in again, refresh the mutex. */
    method RequeueWaiter(t: Tid)
      requires t < threads.Length && Linked(S()) && Waiting(S(), t)
      modifies mutexes
      ensures S() == Requeue(old(S()), t)
    {
      var m := threads[t].pending.value;
      assert ThreadLinks(S(), t) && MutexLinks(S(), m);
      var ws := SuspListEnqueue(Remove(mutexes[m].waiters, t), t);
      mutexes[m] := mutexes[m].(waiters := ws);
      MutexUpdatePriority(m);
    }

    /** `_thread_update_priority`: one loop iteration per link of the wait-for chain. */
    method ThreadUpdatePriority(t0: Tid, p0: Prio)
      requires t0 < threads.Length && (Waiting(S(), t0) ==> Ok(S()))
      modifies threads, mutexes
      ensures S() == UpdatePriority(old(S()), t0, p0)
    {
      hide Linked, Sorted, Inconsistent, Distance, Requeue, SameShape, MutexLinks, ThreadLinks, Recomputed;
      ghost var goal := UpdatePriority(S(), t0, p0);
      ghost var base, p := S(), p0;
      var thread := t0;
      threads[thread] := threads[thread].(cur := p0);
      assert S() == SetCur(base, thread, p0);
      var ret := true;
      while ret && threads[thread].suspended
        invariant thread < threads.Length && thread < |base.threads|
        invariant ret ==> S() == SetCur(base, thread, p) && (Waiting(base, thread) ==> Ok(base))
        invariant ret ==> UpdatePriority(base, thread, p) == goal
        invariant !ret ==> S() == goal
        decreases ret, ChainMeasure(base, thread, p), if thread < |base.threads| then Distance(base, thread, p) else 0
      {
        if threads[thread].pending.Some? {
          assert Waiting(base, thread) by { assert Waiting(S(), thread); }
          RequeueSorts(base, thread, p);
          ChainStep(base, thread, p);
          ChainOwner(base, thread, p);
          RequeueWaiter(thread);
          ghost var s2 := S();
          var owner := mutexes[threads[thread].pending.value].owner.value;
          assert owner == NextOwner(base, thread, p);
          var mutexPriority := ThreadGetMutexPriority(owner);
          if mutexPriority != threads[owner].cur {
            base, thread, p := s2, owner, mutexPriority;
            threads[thread] := threads[thread].(cur := mutexPriority);
            assert S() == SetCur(s2, owner, mutexPriority);
          } else {
            ret := false;
          }
        } else {
          ret := false;
        }
      }
    }

    /** `_check_and_update_prio`. */
    method CheckAndUpdatePriority(t: Tid, m: Mid)
      requires t < threads.Length && m < mutexes.Length && ThreadLinks(S(), t)
      modifies threads
      ensures S() == CheckAndUpdatePrio(old(S()), t, m)
    {
      if mutexes[m].ceiling != NO_PRIO || threads[t].cur == mutexes[m].prio {
        var priority := ThreadGetMutexPriority(t);
        threads[t] := threads[t].(cur := priority);
      }
    }

    /** `_rt_mutex_take` until it returns or the caller is suspended. */
    method MutexTake(t: Tid, m: Mid, wait: bool) returns (ret: Outcome)
      requires Ok(S()) && Running(S(), t) && m < mutexes.Length
      modifies threads, mutexes
      ensures (S(), ret) == Take(old(S()), t, m, wait)
      ensures Ok(S())
    {
      ghost var s := S();
      TakeKeeps(s, t, m, wait);
      assert MutexLinks(s, m) && ThreadLinks(s, t);
      if mutexes[m].owner == Some(t) {
        if mutexes[m].hold < HOLD_MAX {
          mutexes[m] := mutexes[m].(hold := mutexes[m].hold + 1);
          ret := Taken;
        } else {
          ret := Full;
        }
      } else if mutexes[m].owner == None {
        mutexes[m] := mutexes[m].(owner := Some(t), prio := NO_PRIO, hold := 1);
        assert S() == WithMutex(s, m, s.mutexes[m].(owner := Some(t), prio := NO_PRIO, hold := 1));
        if mutexes[m].ceiling != NO_PRIO && mutexes[m].ceiling < threads[t].cur {
          ThreadUpdatePriority(t, mutexes[m].ceiling);
        }
        threads[t] := threads[t].(taken := [m] + threads[t].taken);
        assert S() == Acquire(s, t, m);
        ret := Taken;
      } else if !wait {
        ret := TimedOut;
      } else {
        SuspendOk(s, t, m);
        var ws := SuspListEnqueue(mutexes[m].waiters, t);
        threads[t] := threads[t].(suspended := true);
        mutexes[m] := mutexes[m].(waiters := ws);
        threads[t] := threads[t].(pending := Some(m));
        assert S() == Suspend(s, t, m);
        var priority := threads[t].cur;
        if priority < mutexes[m].prio {
          mutexes[m] := mutexes[m].(prio := priority);
          assert S() == RecordWaiter(Suspend(s, t, m), t, m);
          var o := mutexes[m].owner.value;
          assert o != t && threads[o].cur == s.threads[o].cur;
          if mutexes[m].prio < threads[o].cur {
            ThreadUpdatePriority(o, priority);
          }
        }
        ret := Blocked;
      }
    }

    /** The tail of `_rt_mutex_take` when the wait ended without the mutex. */
    method MutexTakeFailed(t: Tid)
      requires Ok(S()) && t < threads.Length && !threads[t].suspended && threads[t].pending.Some?
      modifies threads, mutexes
      ensures S() == Abandon(old(S()), t)
      ensures Ok(S())
    {
      ghost var s := S();
      AbandonKeeps(s, t);
      assert ThreadLinks(s, t);
      var m := threads[t].pending.value;
      assert MutexLinks(s, m);
      LeaveShape(s, m, t);
      LeaveMutex(m, t);
      threads[t] := threads[t].(pending := None);
    }

    /** What a failed take and `rt_mutex_drop_thread` have in common. */
    method LeaveMutex(m: Mid, t: Tid)
      requires Ok(S()) && t < threads.Length && m < mutexes.Length && MutexLinks(S(), m)
      modifies threads, mutexes
      ensures S() == Leave(old(S()), m, t)
    {
      ghost var s := S();
      var needUpdate := mutexes[m].owner.Some? && threads[mutexes[m].owner.value].cur == threads[t].cur;
      PrioShape(s, m, FirstPrio(s.threads, s.mutexes[m].waiters));
      MutexUpdatePriority(m);
      if needUpdate {
        var o := mutexes[m].owner.value;
        assert ThreadLinks(S(), o);
        var priority := ThreadGetMutexPriority(o);
        if priority != threads[o].cur {
          ThreadUpdatePriority(o, priority);
        }
      }
    }

    /** `rt_mutex_drop_thread`. */
    method MutexDropThread(m: Mid, t: Tid)
      requires Ok(S()) && t < threads.Length && m < mutexes.Length
      requires !threads[t].suspended && threads[t].pending == Some(m)
      modifies threads, mutexes
      ensures S() == DropThread(old(S()), m, t)
    {
      NotListed(S(), m, t);
      mutexes[m] := mutexes[m].(waiters := Remove(mutexes[m].waiters, t));
      assert S() == old(S());
      LeaveMutex(m, t);
    }

    /** Wake-up of the first waiter, or clearing of the owner. */
    method PassOn(m: Mid)
      requires m < mutexes.Length && Below(mutexes[m].waiters, threads.Length) && mutexes[m].hold == 0
      modifies threads, mutexes
      ensures S() == HandOver(old(S()), m)
    {
      if mutexes[m].waiters != [] {
        var next := mutexes[m].waiters[0];
        mutexes[m] := mutexes[m].(waiters := mutexes[m].waiters[1..]);
        threads[next] := threads[next].(suspended := false);
        mutexes[m] := mutexes[m].(owner := Some(next), hold := 1);
        threads[next] := threads[next].(taken := [m] + threads[next].taken);
        threads[next] := threads[next].(pending := None);
        MutexUpdatePriority(m);
      } else {
        mutexes[m] := mutexes[m].(owner := None, prio := NO_PRIO);
      }
    }

    /** Unlinking the mutex from the owner's taken list and settling the owner's priority. */
    method Unlink(t: Tid, m: Mid)
      requires t < threads.Length && m < mutexes.Length && ThreadLinks(S(), t)
      modifies threads
      ensures S() == GiveBack(old(S()), t, m)
    {
      RemoveNoDup(threads[t].taken, m);
      threads[t] := threads[t].(taken := Remove(threads[t].taken, m));
      assert S() == WithThread(old(S()), t, old(threads[t]).(taken := Remove(old(threads[t]).taken, m)));
      assert ThreadLinks(S(), t);
      CheckAndUpdatePriority(t, m);
    }

    /** `rt_mutex_release`. */
    method MutexRelease(t: Tid, m: Mid) returns (ok: bool)
      requires Ok(S()) && Running(S(), t) && m < mutexes.Length
      modifies threads, mutexes
      ensures (S(), ok) == Release(old(S()), t, m)
      ensures Ok(S())
    {
      ghost var s := S();
      ReleaseKeeps(s, t, m);
      assert ThreadLinks(s, t) && MutexLinks(s, m);
      if mutexes[m].owner != Some(t) {
        return false;
      }
      mutexes[m] := mutexes[m].(hold := mutexes[m].hold - 1);
      if mutexes[m].hold == 0 {
        ghost var s0 := WithMutex(s, m, s.mutexes[m].(hold := 0));
        assert S() == s0 && ThreadLinks(s0, t);
        Unlink(t, m);
        HoldIrrelevant(s, t, m);
        HandOverSetsHold(GiveBack(s, t, m), m);
        PassOn(m);
      }
      ok := true;
    }

    /** A timer expiry, `rt_thread_resume` or `rt_thread_close` hitting thread `t`. */
    method WakeThread(t: Tid)
      requires Ok(S()) && t < threads.Length
      modifies threads, mutexes
      ensures ThreadLinks(old(S()), t) && S() == Wake(old(S()), t)
      ensures Ok(S())
    {
      ghost var s := S();
      assert ThreadLinks(s, t);
      WakeKeeps(s, t);
      if threads[t].suspended && threads[t].pending.Some? {
        var m := threads[t].pending.value;
        mutexes[m] := mutexes[m].(waiters := Remove(mutexes[m].waiters, t));
      }
      threads[t] := threads[t].(suspended := false);
    }

    /** `rt_mutex_setprioceiling`: the old ceiling, or 0xFF if the new one is refused. */
    method SetPrioCeiling(m: Mid, priority: Prio) returns (previous: Prio)
      requires Ok(S()) && m < mutexes.Length
      modifies threads, mutexes
      ensures S() == SetCeiling(old(S()), m, priority)
      ensures previous == if priority < PRIORITY_MAX then old(mutexes[m]).ceiling else NO_PRIO
      ensures Ok(S())
    {
      ghost var s := S();
      CeilingKeeps(s, m, priority);
      previous := NO_PRIO;
      if priority < PRIORITY_MAX {
        CeilingOk(s, m, priority);
        previous := mutexes[m].ceiling;
        mutexes[m] := mutexes[m].(ceiling := priority);
        assert S() == WithMutex(s, m, s.mutexes[m].(ceiling := priority));
        assert MutexLinks(S(), m);
        if mutexes[m].owner.Some? {
          var o := mutexes[m].owner.value;
          assert ThreadLinks(S(), o);
          var highest := ThreadGetMutexPriority(o);
          if highest != threads[o].cur {
            ThreadUpdatePriority(o, highest);
          }
        }
      }
    }
  }
}
