/** What each call of the multi-core scheduler does to the thread it is about and leaves alone
    elsewhere, and which threads are runnable over whole runs. */
module MpEffects {
  import opened Common
  import opened ReadyLists
  import opened MpSpec

  /** Ready in a queue or running on a CPU. */
  predicate Runnable(s: Smp, t: nat)
    requires t < |s.ts|
  {
    s.ts[t].stat.Ready? || s.ts[t].stat.Running?
  }

  /** All other threads are as before, in the same order in every queue, and no CPU changed hands. */
  ghost predicate Elsewhere(s: Smp, r: Smp, t: nat)
    requires Shape(s) && Shape(r)
  {
    && r.cpus == s.cpus && r.levels == s.levels && r.current == s.current && |r.ts| == |s.ts|
    && (forall x: nat :: x < |s.ts| && x != t ==> r.ts[x] == s.ts[x])
    && (forall q: nat, p: nat :: q <= s.cpus && p < s.levels ==> Remove(r.queues[q][p], t) == Remove(s.queues[q][p], t))
  }

  /** `t` stands at the front of its queue, or at the back. */
  ghost predicate StandsAt(s: Smp, t: nat, back: bool)
    requires Shape(s) && t < |s.ts|
  {
    var l := s.queues[s.ts[t].bind][s.ts[t].prio];
    l != [] && t == if back then l[|l| - 1] else l[0]
  }

  ghost predicate InNoQueue(s: Smp, t: nat)
    requires Shape(s)
  {
    forall q: nat, p: nat :: q <= s.cpus && p < s.levels ==> t !in s.queues[q][p]
  }

  lemma UnlinkElsewhere(s: Smp, t: nat, th: Thread)
    requires Inv(s) && t < |s.ts| && Shape(With(Unlink(s, t), t, th))
    ensures Elsewhere(s, With(Unlink(s, t), t, th), t) && InNoQueue(With(Unlink(s, t), t, th), t)
  {
    var r := With(Unlink(s, t), t, th);
    forall q: nat, p: nat | q <= s.cpus && p < s.levels
      ensures Remove(r.queues[q][p], t) == Remove(s.queues[q][p], t) && t !in r.queues[q][p]
    {
      RemoveAbsent(Remove(s.queues[q][p], t), t);
      assert QueueOk(s, q, p);
    }
  }

  lemma LinkElsewhere(s: Smp, t: nat)
    requires Shape(s) && t < |s.ts| && !s.ts[t].stat.Ready? && s.ts[t].oncpu == s.cpus && Shape(Insert(s, t))
    ensures Elsewhere(s, Insert(s, t), t) && StandsAt(Insert(s, t), t, s.ts[t].yielded)
    ensures Insert(s, t).ts == s.ts[t := s.ts[t].(stat := Ready)]
  {
    var b, p := s.ts[t].bind, s.ts[t].prio;
    RemoveEnds(s.queues[b][p], t);
  }

  lemma ElsewhereTwice(s: Smp, m: Smp, r: Smp, t: nat)
    requires Shape(s) && Shape(m) && Shape(r) && Elsewhere(s, m, t) && Elsewhere(m, r, t)
    ensures Elsewhere(s, r, t)
  {
  }

  // ---------------------------------------------------------------- one thread

  /** A resume succeeds exactly for a suspended thread, which is then ready, at the end of its
      queue its yield flag says, or running if it never left its CPU. */
  lemma MakeReadyMeans(s: Smp, t: nat)
    requires Inv(s) && t < |s.ts|
    ensures var (ok, r) := MakeReady(s, t);
      && Inv(r) && Elsewhere(s, r, t)
      && (ok <==> s.ts[t].stat.Suspended?) && (!ok ==> r == s)
      && (ok ==> r.ts[t] == s.ts[t].(stat := if s.ts[t].oncpu == s.cpus then Ready else Running))
      && (ok && s.ts[t].oncpu == s.cpus ==> StandsAt(r, t, s.ts[t].yielded))
  {
    MakeReadyKeeps(s, t);
    if s.ts[t].stat.Suspended? && s.ts[t].oncpu == s.cpus { LinkElsewhere(s, t); }
    hide Queued, OnCpus;
  }

  /** A suspension is refused exactly for a thread that is neither runnable nor suspended; the
      thread ends suspended and in no queue. */
  lemma SuspendMeans(s: Smp, t: nat)
    requires Inv(s) && t < |s.ts|
    ensures var (ok, r) := Suspend(s, t);
      && Inv(r) && Elsewhere(s, r, t) && !Runnable(r, t) && InNoQueue(r, t)
      && (ok <==> Runnable(s, t) || s.ts[t].stat.Suspended?) && (!Runnable(s, t) ==> r == s)
      && (Runnable(s, t) ==> r.ts[t] == s.ts[t].(stat := Suspended, yielded := false))
  {
    SuspendKeeps(s, t);
    if Runnable(s, t) {
      UnlinkElsewhere(s, t, s.ts[t].(stat := Suspended, yielded := false));
    } else {
      NotReadyNotQueued(s, t);
    }
  }

  lemma NotReadyNotQueued(s: Smp, t: nat)
    requires Inv(s) && t < |s.ts| && !s.ts[t].stat.Ready?
    ensures InNoQueue(s, t)
  {
    forall q: nat, p: nat | q <= s.cpus && p < s.levels ensures t !in s.queues[q][p] { assert QueueOk(s, q, p); }
  }

  /** A closed thread is in no queue. */
  lemma CloseMeans(s: Smp, t: nat)
    requires Inv(s) && t < |s.ts|
    ensures var r := Close(s, t);
      && Inv(r) && Elsewhere(s, r, t) && InNoQueue(r, t)
      && r.ts[t] == s.ts[t].(stat := Closed, yielded := s.ts[t].stat.Closed? && s.ts[t].yielded)
  {
    CloseKeeps(s, t);
    NotReadyNotQueued(Close(s, t), t);
    if !s.ts[t].stat.Closed? && !s.ts[t].stat.Init? { UnlinkElsewhere(s, t, s.ts[t].(stat := Closed, yielded := false)); }
    hide Queued, OnCpus;
  }

  /** A priority change; a ready thread goes to the front of its new list. */
  lemma SetPrioMeans(s: Smp, t: nat, prio: nat)
    requires Inv(s) && t < |s.ts| && prio < s.levels
    ensures var r := SetPrio(s, t, prio);
      && Inv(r) && Elsewhere(s, r, t)
      && r.ts[t] == s.ts[t].(prio := prio, yielded := !s.ts[t].stat.Ready? && s.ts[t].yielded)
      && (s.ts[t].stat.Ready? ==> StandsAt(r, t, false))
  {
    SetPrioKeeps(s, t, prio);
    if s.ts[t].stat.Ready? { MovedMeans(s, t, s.ts[t].(stat := Init, yielded := false, prio := prio)); }
    hide Queued, OnCpus;
  }

  /** Binding; a ready thread goes to the front of the queue it is now bound to. */
  lemma BindMeans(s: Smp, t: nat, cpu: nat)
    requires Inv(s) && t < |s.ts|
    ensures var r := Bind(s, t, cpu);
      && Inv(r) && Elsewhere(s, r, t)
      && r.ts[t] == s.ts[t].(bind := Min(cpu, s.cpus), yielded := !s.ts[t].stat.Ready? && s.ts[t].yielded)
      && (s.ts[t].stat.Ready? ==> StandsAt(r, t, false))
  {
    BindKeeps(s, t, cpu);
    if s.ts[t].stat.Ready? { MovedMeans(s, t, s.ts[t].(stat := Suspended, yielded := false, bind := Min(cpu, s.cpus))); }
    hide Queued, OnCpus;
  }

  /** Yielding sets the flag of the thread on the CPU, nothing else. */
  lemma YieldMeans(s: Smp, k: nat)
    requires Inv(s) && k < s.cpus
    ensures var r, c := Yield(s, k), s.current[k];
      && Inv(r) && Elsewhere(s, r, c) && r.queues == s.queues && r.ts[c] == s.ts[c].(yielded := true)
  {
    YieldKeeps(s, k);
    hide Queued, OnCpus;
  }

  /** Taking a ready thread out and linking it in again with other fields. */
  lemma MovedMeans(s: Smp, t: nat, th: Thread)
    requires Inv(s) && t < |s.ts| && s.ts[t].stat.Ready?
    requires !th.stat.Ready? && !th.stat.Running? && !th.yielded && th.oncpu == s.ts[t].oncpu && th.prio < s.levels && th.bind <= s.cpus
    ensures var m := With(Unlink(s, t), t, th);
      && Shape(m) && Shape(Insert(m, t)) && Elsewhere(s, Insert(m, t), t)
      && Insert(m, t).ts == s.ts[t := th.(stat := Ready)] && StandsAt(Insert(m, t), t, false)
  {
    var m := With(Unlink(s, t), t, th);
    TakeKeeps(s, t, th);
    InsertKeeps(m, t);
    UnlinkElsewhere(s, t, th);
    LinkElsewhere(m, t);
    ElsewhereTwice(s, m, Insert(m, t), t);
    hide Queued, Elsewhere, StandsAt, Unlink, Insert;
  }

  // ---------------------------------------------------------------- one CPU

  /** Apart from two threads the queues hold the same threads in the same order. */
  ghost predicate SameOthers(s: Smp, r: Smp, c: nat, d: nat)
    requires Shape(s) && Shape(r)
  {
    && r.cpus == s.cpus && r.levels == s.levels
    && forall q: nat, p: nat :: q <= s.cpus && p < s.levels ==>
         Remove(Remove(r.queues[q][p], c), d) == Remove(Remove(s.queues[q][p], c), d)
  }

  /** The next thread `d` of CPU `k`: first in its list, eligible, none more urgent, and
      none as urgent in the CPU's own queue if it comes from the global one. */
  ghost predicate IsNext(s: Smp, k: nat, d: nat)
    requires Shape(s) && d < |s.ts|
  {
    && Eligible(s, k, d) && StandsAt(s, d, false)
    && forall t: nat :: t < |s.ts| && Eligible(s, k, t) ==>
         s.ts[d].prio <= s.ts[t].prio && (s.ts[d].bind == s.cpus && s.ts[t].bind == k ==> s.ts[d].prio < s.ts[t].prio)
  }

  /** CPU `k` went from `c` to `d`: `c` is ready again if it was running, at the end of its
      queue its yield flag says. */
  ghost predicate HandsOver(s: Smp, r: Smp, k: nat, c: nat, d: nat)
    requires Shape(s) && Shape(r) && c < |s.ts| && d < |s.ts| && k < s.cpus
  {
    var run := s.ts[c].stat.Running?;
    && c != d && IsNext(s, k, d) && SameOthers(s, r, c, d)
    && r.current == s.current[k := d]
    && r.ts == s.ts[c := s.ts[c].(oncpu := s.cpus, stat := if run then Ready else s.ts[c].stat, yielded := !run && s.ts[c].yielded)]
                   [d := s.ts[d].(oncpu := k, stat := Running)]
    && (run ==> StandsAt(r, c, s.ts[c].yielded))
  }

  lemma NextIsPick(s: Smp, k: nat) returns (d: nat)
    requires Inv(s) && k < s.cpus && (exists t: nat :: t < |s.ts| && Eligible(s, k, t))
    ensures d < |s.ts| && IsNext(s, k, d)
    ensures var q := PickQueue(s, k); Top(s, q) == s.ts[d].prio && q == s.ts[d].bind && s.queues[q][Top(s, q)][0] == d
  {
    PickIsTop(s, k);
    var q := PickQueue(s, k);
    var p := Top(s, q);
    assert p != NO_PRIO;
    d := s.queues[q][p][0];
    assert QueueOk(s, q, p) && d in s.queues[q][p];
    forall t: nat | t < |s.ts| && Eligible(s, k, t) && q == s.cpus && s.ts[t].bind == k ensures p < s.ts[t].prio {
      assert t in s.queues[k][s.ts[t].prio];
      assert Least(s.queues[k]) <= s.ts[t].prio;
    }
  }

  lemma ReleaseLists(s: Smp, k: nat, q: nat, p: nat)
    requires Inv(s) && k < s.cpus && q <= s.cpus && p < s.levels
    ensures var c, r := s.current[k], Release(s, k); var l, l' := s.queues[q][p], r.queues[q][p];
      && Shape(r) && r.cpus == s.cpus && r.levels == s.levels && Remove(l', c) == Remove(l, c)
      && (s.ts[c].stat.Running? && q == s.ts[c].bind && p == s.ts[c].prio ==> l' == if s.ts[c].yielded then l + [c] else [c] + l)
  {
    ReleaseTables(s, k);
    RemoveEnds(s.queues[q][p], s.current[k]);
  }

  lemma SwitchQueues(s: Smp, k: nat, d: nat)
    requires Inv(s) && k < s.cpus && d < |s.ts| && d != s.current[k]
    requires Shape(Release(s, k)) && Release(s, k).ts[d] == s.ts[d] && Shape(Acquire(Release(s, k), k, d))
    ensures SameOthers(s, Acquire(Release(s, k), k, d), s.current[k], d)
  {
    var c, m := s.current[k], Release(s, k);
    var r := Acquire(m, k, d);
    ReleaseTables(s, k);
    forall q: nat, p: nat | q <= s.cpus && p < s.levels
      ensures Remove(Remove(r.queues[q][p], c), d) == Remove(Remove(s.queues[q][p], c), d)
    {
      ReleaseLists(s, k, q, p);
      TwiceRemoved(s.queues[q][p], m.queues[q][p], c, d);
    }
  }

  lemma AcquireList(m: Smp, k: nat, d: nat, b: nat, p: nat)
    requires Shape(m) && k < m.cpus && d < |m.ts| && Shape(Acquire(m, k, d)) && b <= m.cpus && p < m.levels
    ensures var r := Acquire(m, k, d);
      && r.cpus == m.cpus && r.levels == m.levels && |r.ts| == |m.ts| && (forall t: nat :: t < |m.ts| && t != d ==> r.ts[t] == m.ts[t])
      && r.queues[b][p] == if b == m.ts[d].bind && p == m.ts[d].prio then Remove(m.queues[b][p], d) else m.queues[b][p]
  {
  }

  /** The thread put back stands at its end although the next one was taken out afterwards. */
  lemma PutBackStands(s: Smp, k: nat, d: nat)
    requires Inv(s) && k < s.cpus && d < |s.ts| && IsNext(s, k, d) && s.ts[s.current[k]].stat.Running?
    requires !Stays(s, s.ts[s.current[k]], k, s.ts[d].prio)
    requires Shape(Release(s, k)) && Shape(Acquire(Release(s, k), k, d))
    ensures var c, r := s.current[k], Acquire(Release(s, k), k, d);
      d != c && r.ts[c].bind == s.ts[c].bind && r.ts[c].prio == s.ts[c].prio && StandsAt(r, c, s.ts[c].yielded)
  {
    var c, m := s.current[k], Release(s, k);
    var b, p := s.ts[c].bind, s.ts[c].prio;
    ReleaseTables(s, k);
    ReleaseLists(s, k, b, p);
    var l := s.queues[b][p];
    var l' := if s.ts[c].yielded then l + [c] else [c] + l;
    assert m.queues[b][p] == l' && m.ts[d] == s.ts[d] && m.ts[c].bind == b && m.ts[c].prio == p;
    hide Inv, Release, IsNext, Stays;
    AcquireList(m, k, d, b, p);
    RemoveLast(l, c, d);
    assert Remove([c] + l, d)[0] == c;
    hide Acquire, Remove;
  }

  /** A switch on CPU `k`: without an eligible thread nothing happens; the thread there stays
      exactly if it is running, may run there and is more urgent than the next one, or as urgent
      with its yield flag clear; otherwise the CPU is handed to the next one. */
  lemma SwitchMeans(s: Smp, k: nat) returns (d: nat)
    requires Inv(s) && k < s.cpus
    ensures var r, c := Switch(s, k), s.current[k]; var th := s.ts[c];
      && Inv(r)
      && ((forall t: nat :: t < |s.ts| ==> !Eligible(s, k, t)) ==> r == s)
      && ((exists t: nat :: t < |s.ts| && Eligible(s, k, t)) ==>
            && d < |s.ts| && IsNext(s, k, d)
            && if th.stat.Running? && (th.bind == s.cpus || th.bind == k) && (th.prio < s.ts[d].prio || (th.prio == s.ts[d].prio && !th.yielded))
               then r == s.(ts := s.ts[c := th.(yielded := false)])
               else HandsOver(s, r, k, c, d))
  {
    d := 0;
    SwitchKeeps(s, k);
    if t: nat :| t < |s.ts| && Eligible(s, k, t) {
      d := NextIsPick(s, k);
      var c := s.current[k];
      if !Stays(s, s.ts[c], k, s.ts[d].prio) { HandOverMeans(s, k, d); }
    } else {
      PickIsTop(s, k);
    }
    hide Queued, IsNext, HandsOver, Release, Acquire;
  }

  lemma HandOverMeans(s: Smp, k: nat, d: nat)
    requires Inv(s) && k < s.cpus && d < |s.ts| && IsNext(s, k, d) && !Stays(s, s.ts[s.current[k]], k, s.ts[d].prio)
    ensures Shape(Release(s, k)) && Shape(Acquire(Release(s, k), k, d))
    ensures HandsOver(s, Acquire(Release(s, k), k, d), k, s.current[k], d)
  {
    var c := s.current[k];
    ReleaseTables(s, k);
    ReleaseKeeps(s, k);
    AcquireKeeps(Release(s, k), k, d);
    SwitchQueues(s, k, d);
    if s.ts[c].stat.Running? { PutBackStands(s, k, d); }
    hide Queued, CpuOpen, IsNext, SameOthers, StandsAt, Release;
  }

  // ---------------------------------------------------------------- runs

  /** What a step does to the runnability of `t`. */
  predicate RunnableAfter(s: Smp, op: Op, t: nat)
    requires t < |s.ts|
  {
    match op
    case ReadyOp(x) => Runnable(s, t) || (x == t && s.ts[t].stat.Suspended?)
    case SuspendOp(x) => Runnable(s, t) && x != t
    case CloseOp(x) => Runnable(s, t) && x != t
    case _ => Runnable(s, t)
  }

  lemma StepRunnable(s: Smp, op: Op, t: nat)
    requires Inv(s) && Enabled(s, op) && t < |s.ts|
    ensures |Step(s, op).ts| == |s.ts| && (Runnable(Step(s, op), t) <==> RunnableAfter(s, op, t))
  {
    hide Queued, OnCpus, InNoQueue, StandsAt, MakeReady, Suspend, Close, SetPrio, Bind, Switch;
    match op
    case StartOp(x) =>
    case ReadyOp(x) => MakeReadyMeans(s, x);
    case SuspendOp(x) => SuspendMeans(s, x);
    case CloseOp(x) => CloseMeans(s, x);
    case SetPrioOp(x, prio) => SetPrioMeans(s, x, prio);
    case BindOp(x, cpu) => BindMeans(s, x, cpu);
    case YieldOp(k) =>
    case SwitchOp(k) => SwitchRunnable(s, k, t);
  }

  lemma SwitchRunnable(s: Smp, k: nat, t: nat)
    requires Inv(s) && k < s.cpus && t < |s.ts|
    ensures |Switch(s, k).ts| == |s.ts| && (Runnable(Switch(s, k), t) <==> Runnable(s, t))
  {
    hide Queued, OnCpus, Switch, StandsAt, SameOthers;
    var d := SwitchMeans(s, k);
    if d < |s.ts| && IsNext(s, k, d) {
      assert s.ts[d].stat.Ready?;
      hide IsNext;
    }
  }

  lemma NextRunnable(ss: seq<Smp>, ops: seq<Op>, t: nat, k: nat)
    requires IsRun(ss, ops) && k < |ops| && t < |ss[k].ts|
    ensures t < |ss[k + 1].ts| && (Runnable(ss[k + 1], t) <==> RunnableAfter(ss[k], ops[k], t))
  {
    RunKeeps(ss, ops, k);
    StepRunnable(ss[k], ops[k], t);
    hide Inv, Step, Runnable, RunnableAfter, Enabled;
  }

  /** Over any run: a runnable thread stays in a queue or on a CPU until it is suspended or
      closed, through switches, bindings and priority changes; one that is not runnable stays
      so until it is made ready. */
  lemma {:induction false} RunnableInRuns(ss: seq<Smp>, ops: seq<Op>, t: nat, i: nat, j: nat)
    requires IsRun(ss, ops) && i <= j <= |ops| && t < |ss[i].ts|
    ensures t < |ss[j].ts|
    ensures Runnable(ss[i], t) && (forall k :: i <= k < j ==> ops[k] != SuspendOp(t) && ops[k] != CloseOp(t)) ==> Runnable(ss[j], t)
    ensures !Runnable(ss[i], t) && (forall k :: i <= k < j ==> ops[k] != ReadyOp(t)) ==> !Runnable(ss[j], t)
    decreases j
  {
    if i < j {
      hide IsRun, Runnable;
      var k := j - 1;
      RunnableInRuns(ss, ops, t, i, k);
      NextRunnable(ss, ops, t, k);
    }
  }
}
