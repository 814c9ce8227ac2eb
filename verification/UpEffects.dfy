/** What each call of the uniprocessor scheduler does to the thread it is about and leaves alone
    elsewhere, and which threads are runnable over whole runs. */
module UpEffects {
  import opened Common
  import opened ReadyLists
  import opened UpSpec

  /** Ready in a list or running. */
  predicate Runnable(s: Sched, t: nat)
    requires t < |s.ts|
  {
    s.ts[t].stat.Ready? || s.ts[t].stat.Running?
  }

  /** All other threads are as before, in the same order in every list; nothing else changed. */
  ghost predicate Elsewhere(s: Sched, r: Sched, t: nat) {
    && r.current == s.current && r.nest == s.nest && r.pending == s.pending
    && |r.ts| == |s.ts| && |r.lists| == |s.lists|
    && (forall x: nat :: x < |s.ts| && x != t ==> r.ts[x] == s.ts[x])
    && (forall p :: 0 <= p < |s.lists| ==> Remove(r.lists[p], t) == Remove(s.lists[p], t))
  }

  /** `t` stands at the front of its list, or at the back. */
  ghost predicate StandsAt(s: Sched, t: nat, back: bool)
    requires t < |s.ts| && s.ts[t].prio < |s.lists|
  {
    var l := s.lists[s.ts[t].prio];
    l != [] && t == if back then l[|l| - 1] else l[0]
  }

  ghost predicate InNoList(s: Sched, t: nat) { forall p :: 0 <= p < |s.lists| ==> t !in s.lists[p] }

  lemma UnlinkElsewhere(s: Sched, t: nat, th: Thread)
    requires Shape(s) && Queued(s) && t < |s.ts|
    ensures var r := Unlink(s, t).(ts := s.ts[t := th]); Elsewhere(s, r, t) && InNoList(r, t)
  {
    var r := Unlink(s, t).(ts := s.ts[t := th]);
    forall p | 0 <= p < |s.lists| ensures Remove(r.lists[p], t) == Remove(s.lists[p], t) && t !in r.lists[p] {
      RemoveAbsent(Remove(s.lists[p], t), t);
    }
  }

  lemma LinkElsewhere(s: Sched, t: nat)
    requires Shape(s) && t < |s.ts|
    ensures var r := Insert(s, t);
      && Elsewhere(s, r, t) && r.ts == s.ts[t := s.ts[t].(stat := if t == s.current then Running else Ready)]
      && (t != s.current ==> StandsAt(r, t, s.ts[t].yielded))
  {
    RemoveEnds(s.lists[s.ts[t].prio], t);
  }

  lemma ElsewhereTwice(s: Sched, m: Sched, r: Sched, t: nat)
    requires Elsewhere(s, m, t) && Elsewhere(m, r, t)
    ensures Elsewhere(s, r, t)
  {
  }

  // ---------------------------------------------------------------- one thread

  /** A resume succeeds exactly for a suspended thread, which is then ready, at the end of its
      list its yield flag says, or running if it is the current one. */
  lemma MakeReadyMeans(s: Sched, t: nat)
    requires Inv(s) && t < |s.ts|
    ensures var (ok, r) := MakeReady(s, t);
      && Inv(r) && Elsewhere(s, r, t)
      && (ok <==> s.ts[t].stat.Suspended?) && (!ok ==> r == s)
      && (ok ==> r.ts[t] == s.ts[t].(stat := if t == s.current then Running else Ready))
      && (ok && t != s.current ==> StandsAt(r, t, s.ts[t].yielded))
  {
    MakeReadyKeeps(s, t);
    LinkElsewhere(s, t);
    hide Queued, Insert, StandsAt;
  }

  /** A suspension is refused exactly for a thread that is neither runnable nor suspended; the
      thread ends suspended and in no list. */
  lemma SuspendMeans(s: Sched, t: nat)
    requires Inv(s) && t < |s.ts|
    ensures var (ok, r) := Suspend(s, t);
      && Inv(r) && Elsewhere(s, r, t) && !Runnable(r, t) && InNoList(r, t)
      && (ok <==> Runnable(s, t) || s.ts[t].stat.Suspended?) && (!Runnable(s, t) ==> r == s)
      && (Runnable(s, t) ==> r.ts[t] == s.ts[t].(stat := Suspended))
  {
    SuspendKeeps(s, t);
    UnlinkElsewhere(s, t, s.ts[t].(stat := Suspended));
  }

  lemma CloseMeans(s: Sched, t: nat)
    requires Inv(s) && t < |s.ts|
    ensures var r := Close(s, t);
      && Inv(r) && Elsewhere(s, r, t) && InNoList(r, t)
      && r.ts[t] == s.ts[t].(stat := Closed, yielded := s.ts[t].stat.Closed? && s.ts[t].yielded)
  {
    SuspendKeeps(s, t);
    UnlinkElsewhere(s, t, s.ts[t].(stat := Closed, yielded := false));
  }

  /** A priority change; a ready thread goes to the front of its new list. */
  lemma SetPrioMeans(s: Sched, t: nat, prio: nat, initToo: bool)
    requires Inv(s) && t < |s.ts| && prio < |s.lists|
    ensures var r := SetPrio(s, t, prio, initToo);
      && Inv(r) && Elsewhere(s, r, t)
      && r.ts[t] == s.ts[t].(prio := prio, initPrio := if initToo then prio else s.ts[t].initPrio,
                             yielded := !s.ts[t].stat.Ready? && s.ts[t].yielded)
      && (s.ts[t].stat.Ready? ==> StandsAt(r, t, false))
  {
    SetPrioKeeps(s, t, prio, initToo);
    var th := s.ts[t].(prio := prio, initPrio := if initToo then prio else s.ts[t].initPrio, stat := Init, yielded := false);
    if s.ts[t].stat.Ready? {
      var m := Unlink(s, t).(ts := s.ts[t := th]);
      UnlinkKeeps(s, t, th);
      UnlinkElsewhere(s, t, th);
      LinkElsewhere(m, t);
      ElsewhereTwice(s, m, Insert(m, t), t);
      hide Queued, Unlink, Insert, StandsAt, Elsewhere, Shape;
    }
  }

  /** Yielding refills the slice and sets the flag, nothing else. */
  lemma YieldMeans(s: Sched)
    requires Inv(s)
    ensures var r, c := Yield(s), s.current;
      && Inv(r) && Elsewhere(s, r, c) && r.lists == s.lists
      && r.ts[c] == s.ts[c].(remaining := s.ts[c].initTick, yielded := true)
  {
  }

  // ---------------------------------------------------------------- the reschedule

  /** The next thread: first in its list, ready, none more urgent. */
  ghost predicate IsNext(s: Sched, d: nat)
    requires Shape(s) && d < |s.ts|
  {
    && s.ts[d].stat.Ready? && StandsAt(s, d, false)
    && forall t: nat :: t < |s.ts| && s.ts[t].stat.Ready? ==> s.ts[d].prio <= s.ts[t].prio
  }

  /** The processor went from `c` to `d`: `c` is ready again if it was running, at the end of
      its list its yield flag says; the others keep their order. */
  ghost predicate HandsOver(s: Sched, r: Sched, c: nat, d: nat)
    requires Shape(s) && Shape(r) && c < |s.ts| && d < |s.ts|
  {
    var run := s.ts[c].stat.Running?;
    && c != d && r.current == d && r.nest == s.nest && r.pending == s.pending && |r.lists| == |s.lists|
    && r.ts == s.ts[c := s.ts[c].(stat := if run then Ready else s.ts[c].stat, yielded := false)]
                   [d := s.ts[d].(stat := Running)]
    && (forall p :: 0 <= p < |s.lists| ==> Remove(Remove(r.lists[p], c), d) == Remove(Remove(s.lists[p], c), d))
    && (run ==> StandsAt(r, c, s.ts[c].yielded))
  }

  lemma NextIsPick(s: Sched) returns (d: nat)
    requires Inv(s) && (exists t: nat :: t < |s.ts| && s.ts[t].stat.Ready?)
    ensures d < |s.ts| && IsNext(s, d) && Least(s.lists) == s.ts[d].prio && s.lists[s.ts[d].prio][0] == d && d != s.current
  {
    forall t: nat | t < |s.ts| && s.ts[t].stat.Ready? ensures Least(s.lists) <= s.ts[t].prio { LeastBounds(s, t); }
    var p := Least(s.lists);
    Positions(s, p);
    d := s.lists[p][0];
  }

  lemma HandOverMeans(s: Sched, d: nat)
    requires Inv(s) && d < |s.ts| && IsNext(s, d) && d != s.current
    ensures var m := HandedOver(s, d); Shape(m) && Shape(WithStat(Unlink(m, d), d, Running))
                                       && HandsOver(s, WithStat(Unlink(m, d), d, Running), s.current, d)
  {
    var m := HandedOver(s, d);
    HandOverKeeps(s, d);
    UnlinkKeeps(m, d, m.ts[d].(stat := Running));
    HandOverThreads(s, d);
    forall p | 0 <= p < |s.lists|
      ensures Remove(Remove(WithStat(Unlink(m, d), d, Running).lists[p], s.current), d) == Remove(Remove(s.lists[p], s.current), d)
    {
      HandOverList(s, d, p);
    }
    PutBackStands(s, d);
    hide Inv, Shape, Queued, IsNext, StandsAt, HandedOver, Unlink;
  }

  lemma HandOverThreads(s: Sched, d: nat)
    requires Shape(s) && d < |s.ts| && d != s.current && Shape(HandedOver(s, d))
    ensures var c, r := s.current, WithStat(Unlink(HandedOver(s, d), d), d, Running); var run := s.ts[c].stat.Running?;
      && r.current == d && r.nest == s.nest && r.pending == s.pending && |r.lists| == |s.lists|
      && r.ts == s.ts[c := s.ts[c].(stat := if run then Ready else s.ts[c].stat, yielded := false)]
                     [d := s.ts[d].(stat := Running)]
  {
  }

  lemma HandOverList(s: Sched, d: nat, p: nat)
    requires Shape(s) && d < |s.ts| && d != s.current && Shape(HandedOver(s, d)) && p < |s.lists|
    ensures var c, r := s.current, WithStat(Unlink(HandedOver(s, d), d), d, Running);
      |r.lists| == |s.lists| && Remove(Remove(r.lists[p], c), d) == Remove(Remove(s.lists[p], c), d)
  {
    RemoveEnds(s.lists[p], s.current);
    TwiceRemoved(s.lists[p], HandedOver(s, d).lists[p], s.current, d);
  }

  /** The thread put back stands at its end although the next one is taken out afterwards. */
  lemma PutBackStands(s: Sched, d: nat)
    requires Shape(s) && d < |s.ts| && d != s.current && Shape(HandedOver(s, d))
    ensures var c, r := s.current, WithStat(Unlink(HandedOver(s, d), d), d, Running);
      && |r.ts| == |s.ts| && |r.lists| == |s.lists| && r.ts[c].prio == s.ts[c].prio < |r.lists|
      && (s.ts[c].stat.Running? ==> StandsAt(r, c, s.ts[c].yielded))
  {
    var c, r := s.current, WithStat(Unlink(HandedOver(s, d), d), d, Running);
    var l := s.lists[s.ts[c].prio];
    if s.ts[c].stat.Running? {
      var l' := if s.ts[c].yielded then l + [c] else [c] + l;
      assert r.lists[s.ts[c].prio] == if s.ts[d].prio == s.ts[c].prio then Remove(l', d) else l';
      RemoveLast(l, c, d);
      assert Remove([c] + l, d)[0] == c;
      hide HandedOver, Unlink, WithStat, Remove;
    }
  }

  lemma StaysPut(s: Sched)
    requires Inv(s) && s.ts[s.current].stat.Running?
    ensures WithStat(Unlink(s, s.current), s.current, Running) == s
  {
    AbsentUnlink(s, s.current);
  }

  lemma ToNext(s: Sched, d: nat)
    requires Inv(s) && s.nest == 0 && d < |s.ts| && IsNext(s, d)
    requires Least(s.lists) == s.ts[d].prio && s.lists[s.ts[d].prio][0] == d && d != s.current
    ensures Shape(Schedule(s)) && var c := s.ts[s.current];
      if c.stat.Running? && (c.prio < s.ts[d].prio || (c.prio == s.ts[d].prio && !c.yielded))
      then Schedule(s) == s else HandsOver(s, Schedule(s), s.current, d)
  {
    HandOverMeans(s, d);
    if s.ts[s.current].stat.Running? { StaysPut(s); }
    hide HandsOver, HandedOver, Unlink, WithStat, IsNext, Queued;
  }

  /** `rt_schedule`: under a lock only a note is made; without a ready thread nothing happens;
      the current thread stays exactly if it is running and more urgent than the next one, or as
      urgent with its yield flag clear; otherwise the processor is handed to the next one. */
  lemma ScheduleMeans(s: Sched) returns (d: nat)
    requires Inv(s)
    ensures var r, c := Schedule(s), s.current; var th := s.ts[c];
      && Inv(r)
      && (s.nest > 0 ==> r == s.(pending := true))
      && (s.nest == 0 && (forall t: nat :: t < |s.ts| ==> !s.ts[t].stat.Ready?) ==> r == s)
      && (s.nest == 0 && (exists t: nat :: t < |s.ts| && s.ts[t].stat.Ready?) ==>
            && d < |s.ts| && IsNext(s, d)
            && if th.stat.Running? && (th.prio < s.ts[d].prio || (th.prio == s.ts[d].prio && !th.yielded))
               then r == s else HandsOver(s, r, c, d))
  {
    d := 0;
    hide Queued, HandsOver, HandedOver, Unlink, StandsAt;
    ScheduleKeeps(s);
    if t: nat :| t < |s.ts| && s.ts[t].stat.Ready? {
      d := NextIsPick(s);
      if s.nest == 0 { ToNext(s, d); }
      hide IsNext, Schedule;
    } else if s.nest == 0 && Least(s.lists) < |s.lists| {
      Positions(s, Least(s.lists));
    }
  }

  lemma ScheduleRunnable(s: Sched, t: nat)
    requires Inv(s) && t < |s.ts|
    ensures |Schedule(s).ts| == |s.ts| && (Runnable(Schedule(s), t) <==> Runnable(s, t))
  {
    hide Queued, Schedule, StandsAt;
    var d := ScheduleMeans(s);
    if d < |s.ts| && IsNext(s, d) {
      assert s.ts[d].stat.Ready?;
      hide IsNext;
    }
  }

  /** A tick takes its length off the current slice; when the slice is used up it is refilled,
      and nobody else's changes. */
  lemma TickMeans(s: Sched, n: nat, t: nat)
    requires Inv(s) && t < |s.ts|
    ensures var r, c := Tick(s, n), s.current; var left := s.ts[c].remaining - n;
      && Inv(r) && |r.ts| == |s.ts| && (Runnable(r, t) <==> Runnable(s, t))
      && r.ts[t].initTick == s.ts[t].initTick
      && r.ts[t].remaining == (if t != c then s.ts[t].remaining else if left > 0 then left else s.ts[c].initTick)
      && (left > 0 ==> r == s.(ts := s.ts[c := s.ts[c].(remaining := left)]))
  {
    TickSettles(s, n);
    var c := s.current;
    if s.ts[c].remaining <= n {
      var y := Yield(s.(ts := s.ts[c := s.ts[c].(remaining := 0)]));
      assert y == Yield(s);
      YieldMeans(s);
      ScheduleRunnable(y, t);
      ScheduleTicks(y, t);
      hide Inv, Schedule, Elsewhere;
    }
  }

  lemma ScheduleTicks(s: Sched, t: nat)
    requires Inv(s) && t < |s.ts|
    ensures |Schedule(s).ts| == |s.ts|
    ensures Schedule(s).ts[t].remaining == s.ts[t].remaining && Schedule(s).ts[t].initTick == s.ts[t].initTick
  {
    hide Queued, Schedule, StandsAt, IsNext;
    var d := ScheduleMeans(s);
  }

  // ---------------------------------------------------------------- runs

  /** What a step does to the runnability of `t`. */
  predicate RunnableAfter(s: Sched, op: Op, t: nat)
    requires t < |s.ts|
  {
    match op
    case ReadyOp(x) => Runnable(s, t) || (x == t && s.ts[t].stat.Suspended?)
    case SuspendOp(x) => Runnable(s, t) && x != t
    case CloseOp(x) => Runnable(s, t) && x != t
    case _ => Runnable(s, t)
  }

  lemma EffectRunnable(s: Sched, op: Op, t: nat)
    requires Inv(s) && Enabled(Sys(s, 1, 1, 1), op) && t < |s.ts|
    ensures |Effect(s, op).ts| == |s.ts| && (Runnable(Effect(s, op), t) <==> RunnableAfter(s, op, t))
  {
    hide Queued, InNoList, StandsAt, MakeReady, Suspend, Close, SetPrio, Schedule, Yield, Tick;
    match op
    case ReadyOp(x) => MakeReadyMeans(s, x);
    case SuspendOp(x) => SuspendMeans(s, x);
    case CloseOp(x) => CloseMeans(s, x);
    case YieldOp => YieldMeans(s); ScheduleRunnable(Yield(s), t);
    case TickOp(n) => TickMeans(s, n, t);
    case SetPrioOp(x, prio, initToo) => SetPrioMeans(s, x, prio, initToo);
    case ScheduleOp => ScheduleRunnable(s, t);
    case MakeUpOp => ScheduleRunnable(s, t);
    case _ =>
  }

  lemma NextRunnable(ys: seq<Sys>, ops: seq<Op>, t: nat, k: nat)
    requires IsRun(ys, ops) && k < |ops| && t < |ys[k].s.ts|
    ensures t < |ys[k + 1].s.ts| && (Runnable(ys[k + 1].s, t) <==> RunnableAfter(ys[k].s, ops[k], t))
  {
    RunKeeps(ys, ops, k);
    EffectRunnable(ys[k].s, ops[k], t);
    hide Inv, Effect, Runnable, RunnableAfter;
  }

  /** Over any run: a runnable thread is the current one or in a list until it is suspended or
      closed, through switches, ticks and priority changes; one that is not runnable stays so
      until it is made ready. */
  lemma {:induction false} RunnableInRuns(ys: seq<Sys>, ops: seq<Op>, t: nat, i: nat, j: nat)
    requires IsRun(ys, ops) && i <= j <= |ops| && t < |ys[i].s.ts|
    ensures t < |ys[j].s.ts|
    ensures Runnable(ys[i].s, t) && (forall k :: i <= k < j ==> ops[k] != SuspendOp(t) && ops[k] != CloseOp(t)) ==> Runnable(ys[j].s, t)
    ensures !Runnable(ys[i].s, t) && (forall k :: i <= k < j ==> ops[k] != ReadyOp(t)) ==> !Runnable(ys[j].s, t)
    decreases j
  {
    if i < j {
      hide IsRun, Runnable;
      var k := j - 1;
      RunnableInRuns(ys, ops, t, i, k);
      NextRunnable(ys, ops, t, k);
    }
  }
}
