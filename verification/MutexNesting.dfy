/** Who holds a mutex and how often: what a take and a release tell their callers, and what
    these answers add up to over whole runs. */
module MutexNesting {
  import opened Common
  import opened MutexState
  import opened MutexChain
  import opened MutexOps
  import opened MutexSafety
  import opened MutexRuns

  /** How many takes of `m` by `t` are open. */
  function Depth(s: State, t: Tid, m: Mid): nat
    requires m < |s.mutexes|
  {
    if s.mutexes[m].owner == Some(t) then s.mutexes[m].hold else 0
  }

  /** Outside the threads `ts` and the mutex `m` only priorities and the order of wait lists differ. */
  ghost predicate Elsewhere(s: State, r: State, ts: set<Tid>, m: Mid) {
    && |r.threads| == |s.threads| && |r.mutexes| == |s.mutexes|
    && (forall t: Tid :: t < |s.threads| && t !in ts ==> r.threads[t] == s.threads[t].(cur := r.threads[t].cur))
    && (forall k: Mid :: k < |s.mutexes| && k != m ==> SameHolder(s.mutexes[k], r.mutexes[k]))
  }

  /** Owner, nesting, ceiling and the threads waiting are the same. */
  ghost predicate SameHolder(a: Mutex, b: Mutex) {
    && b.owner == a.owner && b.hold == a.hold && b.ceiling == a.ceiling
    && |b.waiters| == |a.waiters| && (forall w :: w in b.waiters <==> w in a.waiters)
  }

  lemma ShapeElsewhere(s: State, s1: State, r: State, ts: set<Tid>, m: Mid)
    requires Elsewhere(s, s1, ts, m) && SameShape(s1, r)
    ensures Elsewhere(s, r, ts, m)
  {
  }

  lemma EqualElsewhere(s: State, r: State, ts: set<Tid>, m: Mid)
    requires |r.threads| == |s.threads| && |r.mutexes| == |s.mutexes|
    requires forall t: Tid :: t < |s.threads| && t !in ts ==> r.threads[t] == s.threads[t]
    requires forall k: Mid :: k < |s.mutexes| && k != m ==> r.mutexes[k] == s.mutexes[k]
    ensures Elsewhere(s, r, ts, m)
  {
  }

  // ---------------------------------------------------------------- take

  /** What the thread and the mutex look like after a take that was answered `o`. */
  ghost predicate Took(s: State, r: State, t: Tid, m: Mid, o: Outcome)
    requires t < |s.threads| && m < |s.mutexes| && t < |r.threads| && m < |r.mutexes|
  {
    var a, b, th := s.mutexes[m], r.mutexes[m], r.threads[t];
    match o
    case Taken =>
      && b.owner == Some(t) && b.hold == Depth(s, t, m) + 1 && b.waiters == a.waiters
      && m in th.taken && (forall k :: k in th.taken <==> k == m || k in s.threads[t].taken)
      && !th.suspended && th.pending.None?
    case Blocked =>
      && b.owner == a.owner && b.hold == a.hold && |b.waiters| == |a.waiters| + 1
      && (forall w :: w in b.waiters <==> w == t || w in a.waiters)
      && th.suspended && th.pending == Some(m) && th.taken == s.threads[t].taken
    case _ => r == s
  }

  lemma TakeMeans(s: State, t: Tid, m: Mid, wait: bool)
    requires Ok(s) && Running(s, t) && m < |s.mutexes|
    ensures var (r, o) := Take(s, t, m, wait); var a := s.mutexes[m];
      && Elsewhere(s, r, {t}, m) && Took(s, r, t, m, o)
      && (o.Taken? <==> a.owner.None? || (a.owner == Some(t) && a.hold < HOLD_MAX))
      && (o.Full? <==> a.owner == Some(t) && a.hold == HOLD_MAX)
      && (o.TimedOut? <==> a.owner.Some? && a.owner != Some(t) && !wait)
      && (o.Blocked? <==> a.owner.Some? && a.owner != Some(t) && wait)
  {
    assert MutexLinks(s, m);
    var a := s.mutexes[m];
    if a.owner.Some? && a.owner != Some(t) && wait { BlockMeans(s, t, m); }
  }

  lemma BlockMeans(s: State, t: Tid, m: Mid)
    requires Ok(s) && Running(s, t) && m < |s.mutexes| && MutexLinks(s, m)
    requires s.mutexes[m].owner.Some? && s.mutexes[m].owner != Some(t)
    ensures Elsewhere(s, Block(s, t, m), {t}, m) && Took(s, Block(s, t, m), t, m, Blocked)
  {
    SuspendOk(s, t, m);
    var s1 := RecordWaiter(Suspend(s, t, m), t, m);
    var r := Block(s, t, m);
    assert Elsewhere(s, s1, {t}, m) && Took(s, s1, t, m, Blocked);
    hide Linked, Sorted, MutexLinks, Suspend, RecordWaiter, Enqueue, SortedList;
    if SameShape(s1, r) { ShapeElsewhere(s, s1, r, {t}, m); } else { assert r == s1; }
  }

  // ---------------------------------------------------------------- release

  /** What a release by the owner leaves: one take less; at the last one the first waiter has
      the mutex, or nobody. */
  ghost predicate Released(s: State, r: State, t: Tid, m: Mid)
    requires t < |s.threads| && m < |s.mutexes| && |r.threads| == |s.threads| && m < |r.mutexes|
  {
    var a, b := s.mutexes[m], r.mutexes[m];
    if a.hold > 1 then
      b.owner == Some(t) && b.hold == a.hold - 1 && b.waiters == a.waiters && r.threads[t] == s.threads[t]
    else
      && m !in r.threads[t].taken && (forall k :: k != m ==> (k in r.threads[t].taken <==> k in s.threads[t].taken))
      && (if a.waiters == [] then b.owner.None? && b.waiters == []
          else
            var n := a.waiters[0];
            && b.owner == Some(n) && b.hold == 1 && b.waiters == a.waiters[1..] && n != t && n < |s.threads|
            && !r.threads[n].suspended && r.threads[n].pending.None? && r.threads[n].cur == s.threads[n].cur
            && (forall k :: k in r.threads[n].taken <==> k == m || k in s.threads[n].taken))
  }

  /** The thread a release hands the mutex to, if any. */
  function Heirs(s: State, m: Mid): set<Tid>
    requires m < |s.mutexes|
  {
    if s.mutexes[m].waiters == [] then {} else {s.mutexes[m].waiters[0]}
  }

  lemma ReleaseMeans(s: State, t: Tid, m: Mid)
    requires Ok(s) && Running(s, t) && m < |s.mutexes|
    ensures var (r, ok) := Release(s, t, m);
      && (ok <==> s.mutexes[m].owner == Some(t)) && (!ok ==> r == s)
      && (ok ==> Elsewhere(s, r, {t} + Heirs(s, m), m) && Released(s, r, t, m))
      && (ok && s.mutexes[m].hold > 1 ==> Elsewhere(s, r, {}, m))
  {
    assert MutexLinks(s, m) && ThreadLinks(s, t);
    if s.mutexes[m].owner == Some(t) && s.mutexes[m].hold <= 1 {
      LastReleaseMeans(s, t, m);
      hide GiveBack, HandOver, Released, Elsewhere, MutexLinks, ThreadLinks;
    }
  }

  lemma LastReleaseMeans(s: State, t: Tid, m: Mid)
    requires Ok(s) && Running(s, t) && m < |s.mutexes| && MutexLinks(s, m) && ThreadLinks(s, t)
    requires s.mutexes[m].owner == Some(t) && s.mutexes[m].hold == 1
    ensures var r := HandOver(GiveBack(s, t, m), m); Elsewhere(s, r, {t} + Heirs(s, m), m) && Released(s, r, t, m)
  {
    GiveBackShape(s, t, m);
    var g, ws := GiveBack(s, t, m), s.mutexes[m].waiters;
    assert ws != [] ==> ws[0] in ws && ws[0] != t && ws[0] < |s.threads|;
    assert forall k :: k in g.threads[t].taken <==> k in s.threads[t].taken && k != m;
    PassedOn(g, m);
    hide GiveBack, HandOver, Ok, ThreadLinks, MutexLinks, Elsewhere;
    EqualElsewhere(s, HandOver(g, m), {t} + Heirs(s, m), m);
  }

  lemma PassedOn(g: State, m: Mid)
    requires m < |g.mutexes| && Below(g.mutexes[m].waiters, |g.threads|)
    ensures var (r, a) := (HandOver(g, m), g.mutexes[m]);
      && |r.threads| == |g.threads| && |r.mutexes| == |g.mutexes|
      && (forall t: Tid :: t < |g.threads| && t !in Heirs(g, m) ==> r.threads[t] == g.threads[t])
      && (forall k: Mid :: k < |g.mutexes| && k != m ==> r.mutexes[k] == g.mutexes[k])
      && (if a.waiters == [] then r.mutexes[m].owner.None? && r.mutexes[m].waiters == []
          else
            var n := a.waiters[0];
            && r.mutexes[m].owner == Some(n) && r.mutexes[m].hold == 1 && r.mutexes[m].waiters == a.waiters[1..]
            && !r.threads[n].suspended && r.threads[n].pending.None? && r.threads[n].cur == g.threads[n].cur
            && (forall k :: k in r.threads[n].taken <==> k == m || k in g.threads[n].taken))
  {
  }

  // ---------------------------------------------------------------- the other steps

  /** The end of a wait: the thread is on no wait list and runs again; nothing else changes. */
  lemma WakeMeans(s: State, t: Tid, m: Mid)
    requires Ok(s) && t < |s.threads| && ThreadLinks(s, t) && m < |s.mutexes|
    ensures var r := Wake(s, t);
      && r.threads == s.threads[t := s.threads[t].(suspended := false)] && |r.mutexes| == |s.mutexes|
      && r.mutexes[m] == s.mutexes[m].(waiters := r.mutexes[m].waiters)
      && (forall w :: w in r.mutexes[m].waiters <==> w in s.mutexes[m].waiters && w != t)
      && (t !in s.mutexes[m].waiters ==> r.mutexes[m] == s.mutexes[m])
  {
    assert MutexLinks(s, m);
    WakeList(s, t, m);
    if t !in s.mutexes[m].waiters { RemoveAbsent(s.mutexes[m].waiters, t); }
  }

  /** The clean-up ends the thread's interest in the mutex; owners, nestings and waits stay. */
  lemma AbandonMeans(s: State, t: Tid)
    requires Ok(s) && t < |s.threads| && !s.threads[t].suspended && s.threads[t].pending.Some?
    ensures var r := Abandon(s, t);
      && Elsewhere(s, r, {t}, |s.mutexes|)
      && r.threads[t] == s.threads[t].(pending := None, cur := r.threads[t].cur)
  {
    assert ThreadLinks(s, t);
    var m := s.threads[t].pending.value;
    assert MutexLinks(s, m);
    LeaveShape(s, m, t);
    hide Linked, Sorted, Leave;
  }

  /** The new ceiling is in force unless it is out of range; owners, nestings and waits stay. */
  lemma CeilingMeans(s: State, m: Mid, c: Prio)
    requires Ok(s) && m < |s.mutexes|
    ensures var r := SetCeiling(s, m, c);
      && Elsewhere(s, r, {}, m)
      && SameHolder(s.mutexes[m].(ceiling := if c < PRIORITY_MAX then c else s.mutexes[m].ceiling), r.mutexes[m])
      && (c >= PRIORITY_MAX ==> r == s)
  {
    if c < PRIORITY_MAX {
      CeilingOk(s, m, c);
      var s1 := WithMutex(s, m, s.mutexes[m].(ceiling := c));
      var r := SetCeiling(s, m, c);
      assert Elsewhere(s, s1, {}, m);
      hide Linked, Sorted;
      if SameShape(s1, r) { ShapeElsewhere(s, s1, r, {}, m); } else { assert r == s1; }
    }
  }

  lemma SleepMeans(s: State, t: Tid)
    requires Ok(s) && Running(s, t)
    ensures var r := Sleep(s, t);
      Elsewhere(s, r, {t}, |s.mutexes|) && r.threads[t] == s.threads[t].(suspended := true) && !Running(r, t)
  {
  }

  // ---------------------------------------------------------------- runs

  /** The step makes `t` hold `m` once more: its own take was answered `Taken`, or a release
      was answered with success and left the mutex to `t`. */
  ghost predicate Opens(s: State, op: Op, t: Tid, m: Mid)
    requires Ok(s) && Enabled(s, op) && m < |s.mutexes|
  {
    match op
    case OpTake(t', m', wait) => t' == t && m' == m && Take(s, t', m', wait).1.Taken?
    case OpRelease(t', m') => m' == m && t' != t && Release(s, t', m').1 && s.mutexes[m].hold == 1 && s.mutexes[m].waiters != [] && s.mutexes[m].waiters[0] == t
    case _ => false
  }

  /** A release of `m` by `t` was answered with success. */
  ghost predicate Closes(s: State, op: Op, t: Tid, m: Mid)
    requires Ok(s) && Enabled(s, op)
  {
    op.OpRelease? && op.t == t && op.m == m && Release(s, t, m).1
  }

  ghost function Count(b: bool): int { if b then 1 else 0 }

  lemma WaitEndDepth(s: State, op: Op, m: Mid)
    requires Ok(s) && Enabled(s, op) && m < |s.mutexes| && (op.OpWake? || op.OpAbandon? || op.OpGiveUp?)
    ensures var r := Apply(s, op);
      && |r.mutexes| == |s.mutexes| && |r.threads| == |s.threads|
      && r.mutexes[m].owner == s.mutexes[m].owner && r.mutexes[m].hold == s.mutexes[m].hold
  {
    assert ThreadLinks(s, op.t);
    match op
    case OpWake(t) => WakeMeans(s, t, m);
    case OpAbandon(t) => AbandonMeans(s, t);
    case OpGiveUp(t) => WakeMeans(s, t, m); WakeKeeps(s, t); AbandonMeans(Wake(s, t), t);
  }

  lemma StepDepth(s: State, op: Op, t: Tid, m: Mid)
    requires Ok(s) && Enabled(s, op) && t < |s.threads| && m < |s.mutexes|
    ensures |Apply(s, op).mutexes| == |s.mutexes| && |Apply(s, op).threads| == |s.threads|
    ensures Depth(Apply(s, op), t, m) == Depth(s, t, m) + Count(Opens(s, op, t, m)) - Count(Closes(s, op, t, m))
  {
    hide Linked, Sorted, Take, Release, Wake, Abandon, SetCeiling;
    match op
    case OpTake(t', m', wait) => TakeMeans(s, t', m', wait);
    case OpRelease(t', m') => ReleaseDepth(s, t', m', t, m);
    case OpWake(t') => WaitEndDepth(s, op, m);
    case OpAbandon(t') => WaitEndDepth(s, op, m);
    case OpGiveUp(t') => WaitEndDepth(s, op, m);
    case OpCeiling(m', c) => CeilingMeans(s, m', c);
    case OpSleep(t') =>
  }

  lemma ReleaseDepth(s: State, t': Tid, m': Mid, t: Tid, m: Mid)
    requires Ok(s) && Running(s, t') && m' < |s.mutexes| && t < |s.threads| && m < |s.mutexes|
    ensures var (r, ok) := Release(s, t', m');
      && |r.mutexes| == |s.mutexes| && |r.threads| == |s.threads|
      && Depth(r, t, m) == Depth(s, t, m)
           + Count(ok && m' == m && t' != t && s.mutexes[m].hold == 1 && s.mutexes[m].waiters != [] && s.mutexes[m].waiters[0] == t)
           - Count(ok && t' == t && m' == m)
  {
    ReleaseMeans(s, t', m');
    assert MutexLinks(s, m');
    hide Linked, Sorted, Release;
  }

  /** Openings less closings over the first `i` steps of a run. */
  ghost function Open(states: seq<State>, ops: seq<Op>, t: Tid, m: Mid, i: nat): int
    requires i <= |ops| && |states| == |ops| + 1
  {
    if i == 0 then 0
    else
      var s, op := states[i - 1], ops[i - 1];
      Open(states, ops, t, m, i - 1)
        + (if Ok(s) && Enabled(s, op) && m < |s.mutexes| then Count(Opens(s, op, t, m)) - Count(Closes(s, op, t, m)) else 0)
  }

  /** In every run a thread holds a mutex exactly as often as it was told it took it, or was
      handed it, and has not been told it released it. */
  lemma {:induction false} NestingBalances(states: seq<State>, ops: seq<Op>, t: Tid, m: Mid, i: nat)
    requires IsRun(states, ops) && i <= |ops| && t < |states[0].threads| && m < |states[0].mutexes|
    ensures Ok(states[i]) && |states[i].threads| == |states[0].threads| && |states[i].mutexes| == |states[0].mutexes|
    ensures Depth(states[i], t, m) == Depth(states[0], t, m) + Open(states, ops, t, m, i)
  {
    if i > 0 {
      NestingBalances(states, ops, t, m, i - 1);
      StepOk(states[i - 1], ops[i - 1]);
      StepDepth(states[i - 1], ops[i - 1], t, m);
      hide Ok, Enabled, Apply, Opens, Closes, Depth;
    }
  }

  /** Mutual exclusion: while takes of `t` are open, `t` is the owner, no take of anybody else
      is answered `Taken`, and no release of anybody else succeeds. */
  lemma MutualExclusion(states: seq<State>, ops: seq<Op>, t: Tid, m: Mid, i: nat)
    requires IsRun(states, ops) && i <= |ops| && t < |states[0].threads| && m < |states[0].mutexes|
    requires Depth(states[0], t, m) + Open(states, ops, t, m, i) > 0
    ensures m < |states[i].mutexes| && states[i].mutexes[m].owner == Some(t)
    ensures i < |ops| ==> Ok(states[i]) && Enabled(states[i], ops[i])
    ensures i < |ops| && ops[i].OpTake? && ops[i].m == m && ops[i].t != t ==>
      !Take(states[i], ops[i].t, m, ops[i].wait).1.Taken?
    ensures i < |ops| && ops[i].OpRelease? && ops[i].m == m && ops[i].t != t ==> !Release(states[i], ops[i].t, m).1
  {
    NestingBalances(states, ops, t, m, i);
    if i < |ops| && ops[i].OpTake? && ops[i].m == m { TakeMeans(states[i], ops[i].t, m, ops[i].wait); }
    if i < |ops| && ops[i].OpRelease? && ops[i].m == m { ReleaseMeans(states[i], ops[i].t, m); }
  }
}
