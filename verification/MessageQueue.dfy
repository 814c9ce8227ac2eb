/** Message queues of `ipc.c`: a pool of nodes that move between a free list, the queue and
    the hands of senders and receivers, which fill and read them outside the lock. */
module MessageQueue {
  import opened Common
  import opened IpcWaiters

  /** RT_MQ_ENTRY_MAX. */
  const ENTRY_MAX: nat := 0xFFFF

  type Message = seq<bv8>

  /** `writing` are the nodes in the hands of senders, `reading` those in the hands of
      receivers, `msgs` the contents of all nodes. */
  datatype Queue = Queue(queue: seq<nat>, free: seq<nat>, writing: set<nat>, reading: set<nat>, msgs: seq<Message>, w: Waiting)

  /** Every node of the pool is in exactly one of the four places. */
  ghost predicate Placed(q: Queue) {
    && NoDup(q.queue) && NoDup(q.free)
    && (forall n :: n in q.queue ==> n !in q.free && n !in q.writing && n !in q.reading)
    && (forall n :: n in q.free ==> n !in q.writing && n !in q.reading)
    && (forall n :: n in q.writing ==> n !in q.reading)
    && (forall n: nat :: n < |q.msgs| <==> n in q.queue || n in q.free || n in q.writing || n in q.reading)
  }

  ghost predicate Inv(q: Queue) { Placed(q) && Awake(q.w, |q.queue|, |q.free|) }

  // ---------------------------------------------------------------- the steps

  /** First half of a send: take a free node, wait, or give up. */
  function TakeNode(q: Queue, t: nat, wait: bool, at: nat): (Reply<nat>, Queue)
    requires at <= |q.w.senders|
  {
    if q.free == [] then
      if wait then (Blocked, q.(w := BlockSender(q.w, t, at))) else (Refused, q.(w := SenderRan(q.w, t)))
    else (Done(q.free[0]), q.(free := q.free[1..], writing := q.writing + {q.free[0]}, w := SenderRan(q.w, t)))
  }

  /** First half of `rt_mq_urgent`, which never waits and may run in an interrupt. */
  function TakeNodeNow(q: Queue): (Reply<nat>, Queue) {
    if q.free == [] then (Refused, q)
    else (Done(q.free[0]), q.(free := q.free[1..], writing := q.writing + {q.free[0]}))
  }

  /** Between the halves: the sender writes the message. */
  function Fill(q: Queue, n: nat, m: Message): Queue
    requires n < |q.msgs|
  {
    q.(msgs := q.msgs[n := m])
  }

  /** Second half of a send: link the node at the tail, or at the head if urgent. */
  function Link(q: Queue, n: nat): Queue {
    q.(queue := q.queue + [n], writing := q.writing - {n}, w := WakeReceiver(q.w))
  }

  function LinkUrgent(q: Queue, n: nat): Queue {
    q.(queue := [n] + q.queue, writing := q.writing - {n}, w := WakeReceiver(q.w))
  }

  /** First half of a receive: take the head node, wait, or give up. */
  function TakeHead(q: Queue, t: nat, wait: bool, at: nat): (Reply<nat>, Queue)
    requires at <= |q.w.receivers|
  {
    if q.queue == [] then
      if wait then (Blocked, q.(w := BlockReceiver(q.w, t, at))) else (Refused, q.(w := ReceiverRan(q.w, t)))
    else (Done(q.queue[0]), q.(queue := q.queue[1..], reading := q.reading + {q.queue[0]}, w := ReceiverRan(q.w, t)))
  }

  /** Second half of a receive: the node goes to the front of the free list. */
  function GiveBack(q: Queue, n: nat): Queue {
    q.(free := [n] + q.free, reading := q.reading - {n}, w := WakeSender(q.w))
  }

  /** RT_IPC_CMD_RESET: queued nodes go to the free list one by one, waiters leave with an
      error; nodes in flight stay in flight. */
  function Reset(q: Queue): Queue {
    q.(queue := [], free := Pushed(q.queue, q.free), w := AllReleased(q.w))
  }

  /** The nodes of `l` pushed to the front of `free` in turn. */
  function Pushed(l: seq<nat>, free: seq<nat>): seq<nat> {
    if l == [] then free else Pushed(l[1..], [l[0]] + free)
  }

  // ---------------------------------------------------------------- what they keep

  lemma HeadAndRest(l: seq<nat>)
    requires NoDup(l) && l != []
    ensures NoDup(l[1..]) && l[0] in l && l[0] !in l[1..] && forall n :: n in l <==> n == l[0] || n in l[1..]
  {
    assert l == [l[0]] + l[1..];
  }

  lemma TakeNodeKeeps(q: Queue, t: nat, wait: bool, at: nat)
    requires Inv(q) && RunsSender(q.w, t) && at <= |q.w.senders|
    ensures Inv(TakeNode(q, t, wait, at).1)
  {
    if q.free == [] {
      BlockSenderKeeps(q.w, |q.queue|, t, at);
      RanInVain(q.w, |q.queue|, 0, t);
    } else {
      HeadAndRest(q.free);
      SenderRanKeeps(q.w, |q.queue|, |q.free|, t);
    }
  }

  lemma TakeNowKeeps(q: Queue)
    requires Inv(q)
    ensures Inv(TakeNodeNow(q).1)
  {
    if q.free != [] {
      HeadAndRest(q.free);
      FewerKeeps(q.w, |q.queue|, |q.free|);
    }
  }

  lemma FillKeeps(q: Queue, n: nat, m: Message)
    requires Inv(q) && n < |q.msgs|
    ensures Inv(Fill(q, n, m))
  {
  }

  lemma LinkKeeps(q: Queue, n: nat)
    requires Inv(q) && n in q.writing
    ensures Inv(Link(q, n)) && Inv(LinkUrgent(q, n))
  {
    WakeReceiverKeeps(q.w, |q.queue|, |q.free|);
    assert forall x :: x in q.queue + [n] <==> x in q.queue || x == n;
    assert forall x :: x in [n] + q.queue <==> x in q.queue || x == n;
  }

  lemma TakeHeadKeeps(q: Queue, t: nat, wait: bool, at: nat)
    requires Inv(q) && RunsReceiver(q.w, t) && at <= |q.w.receivers|
    ensures Inv(TakeHead(q, t, wait, at).1)
  {
    if q.queue == [] {
      BlockReceiverKeeps(q.w, |q.free|, t, at);
      RanInVain(q.w, 0, |q.free|, t);
    } else {
      HeadAndRest(q.queue);
      ReceiverRanKeeps(q.w, |q.queue|, |q.free|, t);
    }
  }

  lemma GiveBackKeeps(q: Queue, n: nat)
    requires Inv(q) && n in q.reading
    ensures Inv(GiveBack(q, n))
  {
    WakeSenderKeeps(q.w, |q.queue|, |q.free|);
    assert forall x :: x in [n] + q.free <==> x in q.free || x == n;
  }

  lemma {:induction false} PushedKeeps(l: seq<nat>, free: seq<nat>)
    requires NoDup(l) && NoDup(free) && (forall n :: n in l ==> n !in free)
    ensures NoDup(Pushed(l, free)) && |Pushed(l, free)| == |l| + |free|
    ensures forall n :: n in Pushed(l, free) <==> n in l || n in free
  {
    if l != [] {
      HeadAndRest(l);
      PushedKeeps(l[1..], [l[0]] + free);
    }
  }

  lemma ResetKeeps(q: Queue)
    requires Inv(q)
    ensures Inv(Reset(q))
  {
    PushedKeeps(q.queue, q.free);
  }

  lemma TimeoutKeeps(q: Queue, t: nat)
    requires Inv(q)
    ensures Inv(q.(w := TimedOut(q.w, t)))
  {
    TimedOutKeeps(q.w, |q.queue|, |q.free|, t);
  }

  /** The entry count stays within the pool, so the overflow branches are unreachable. */
  lemma EntriesBounded(q: Queue)
    requires Placed(q)
    ensures |q.queue| + |q.free| + |q.writing| + |q.reading| == |q.msgs|
  {
    Distinct(q.queue);
    Distinct(q.free);
    FourParts(Elems(q.queue), Elems(q.free), q.writing, q.reading, Below(|q.msgs|));
  }

  lemma FourParts(a: set<nat>, b: set<nat>, c: set<nat>, d: set<nat>, all: set<nat>)
    requires a !! b && a !! c && a !! d && b !! c && b !! d && c !! d
    requires forall n: nat :: n in all <==> n in a || n in b || n in c || n in d
    ensures |a| + |b| + |c| + |d| == |all|
  {
    assert all == (a + b) + (c + d);
    assert |a + b| == |a| + |b| && |c + d| == |c| + |d|;
    assert (a + b) !! (c + d);
  }

  function Elems(l: seq<nat>): set<nat> { set n | n in l }

  function Below(n: nat): (r: set<nat>)
    ensures forall i: nat :: i in r <==> i < n
    ensures |r| == n
  {
    if n == 0 then {} else Below(n - 1) + {n - 1}
  }

  lemma {:induction false} Distinct(l: seq<nat>)
    requires NoDup(l)
    ensures |Elems(l)| == |l|
  {
    if l == [] {
      assert Elems(l) == {};
    } else {
      HeadAndRest(l);
      Distinct(l[1..]);
      assert Elems(l) == Elems(l[1..]) + {l[0]};
    }
  }

  // ---------------------------------------------------------------- runs

  datatype Op =
    | TakeOp(t: nat, wait: bool, at: nat) | TakeNowOp | FillOp(n: nat, m: Message) | LinkOp(n: nat) | UrgentOp(n: nat)
    | HeadOp(t: nat, wait: bool, at: nat) | BackOp(n: nat) | ResetOp | TimeoutOp(t: nat)

  /** A sender fills and links only a node it took, a receiver gives back only one it took. */
  predicate Enabled(q: Queue, op: Op) {
    match op
    case TakeOp(t, _, at) => RunsSender(q.w, t) && at <= |q.w.senders|
    case TakeNowOp => true
    case FillOp(n, _) => n in q.writing && n < |q.msgs|
    case LinkOp(n) => n in q.writing
    case UrgentOp(n) => n in q.writing
    case HeadOp(t, _, at) => RunsReceiver(q.w, t) && at <= |q.w.receivers|
    case BackOp(n) => n in q.reading
    case ResetOp => true
    case TimeoutOp(_) => true
  }

  /** Any interleaving of the halves of any number of sends and receives. */
  function Step(q: Queue, op: Op): Queue
    requires Enabled(q, op)
  {
    match op
    case TakeOp(t, wait, at) => TakeNode(q, t, wait, at).1
    case TakeNowOp => TakeNodeNow(q).1
    case FillOp(n, m) => Fill(q, n, m)
    case LinkOp(n) => Link(q, n)
    case UrgentOp(n) => LinkUrgent(q, n)
    case HeadOp(t, wait, at) => TakeHead(q, t, wait, at).1
    case BackOp(n) => GiveBack(q, n)
    case ResetOp => Reset(q)
    case TimeoutOp(t) => q.(w := TimedOut(q.w, t))
  }

  ghost predicate IsRun(qs: seq<Queue>, ops: seq<Op>) {
    && |qs| == |ops| + 1 && Inv(qs[0]) && qs[0].queue == [] && qs[0].reading == {}
    && forall i :: 0 <= i < |ops| ==> Enabled(qs[i], ops[i]) && qs[i + 1] == Step(qs[i], ops[i])
  }

  lemma StepKeeps(q: Queue, op: Op)
    requires Inv(q) && Enabled(q, op)
    ensures Inv(Step(q, op)) && |Step(q, op).msgs| == |q.msgs|
  {
    hide Placed, Awake;
    match op
    case TakeOp(t, wait, at) => TakeNodeKeeps(q, t, wait, at);
    case TakeNowOp => TakeNowKeeps(q);
    case FillOp(n, m) => FillKeeps(q, n, m);
    case LinkOp(n) => LinkKeeps(q, n);
    case UrgentOp(n) => LinkKeeps(q, n);
    case HeadOp(t, wait, at) => TakeHeadKeeps(q, t, wait, at);
    case BackOp(n) => GiveBackKeeps(q, n);
    case ResetOp => ResetKeeps(q);
    case TimeoutOp(t) => TimeoutKeeps(q, t);
  }

  lemma {:induction false} RunKeeps(qs: seq<Queue>, ops: seq<Op>, i: nat)
    requires IsRun(qs, ops) && i <= |ops|
    ensures Inv(qs[i]) && |qs[i].msgs| == |qs[0].msgs|
  {
    hide Inv;
    if i > 0 {
      RunKeeps(qs, ops, i - 1);
      StepKeeps(qs[i - 1], ops[i - 1]);
    }
  }

  /** In every run each node is in exactly one place and none is lost; and once all resumed
      threads have run, nobody waits for a message or a node that is there. */
  lemma NodesConserved(qs: seq<Queue>, ops: seq<Op>, i: nat)
    requires IsRun(qs, ops) && i <= |ops|
    ensures Placed(qs[i])
    ensures |qs[i].queue| + |qs[i].free| + |qs[i].writing| + |qs[i].reading| == |qs[0].msgs|
    ensures qs[i].w.wokenR == {} ==> qs[i].w.receivers == [] || qs[i].queue == []
    ensures qs[i].w.wokenS == {} ==> qs[i].w.senders == [] || qs[i].free == []
  {
    RunKeeps(qs, ops, i);
    EntriesBounded(qs[i]);
    NobodyForgotten(qs[i].w, |qs[i].queue|, |qs[i].free|);
  }

  // ---------------------------------------------------------------- what callers are told

  /** A sender gets a node exactly if one is free, a receiver exactly if one is queued; others
      are refused, or suspended on their list.  What links or gives back resumes the first waiter
      of the other kind; a reset frees every queued node and empties both lists. */
  lemma StepMeans(q: Queue, op: Op)
    requires Inv(q) && Enabled(q, op)
    ensures var r := Step(q, op);
      match op
      case TakeOp(t, wait, at) =>
        var reply := TakeNode(q, t, wait, at).0;
        && (reply.Done? <==> q.free != []) && (reply.Refused? <==> q.free == [] && !wait)
        && (reply.Done? ==> reply.value in q.free && r.writing == q.writing + {reply.value} && r.w.senders == q.w.senders)
        && (reply.Blocked? ==> r.w.senders == q.w.senders[..at] + [t] + q.w.senders[at..])
      case TakeNowOp =>
        var reply := TakeNodeNow(q).0;
        && (reply.Done? <==> q.free != []) && !reply.Blocked? && r.w == q.w
        && (reply.Done? ==> reply.value in q.free && r.writing == q.writing + {reply.value})
      case FillOp(n, m) => r == q.(msgs := r.msgs) && r.msgs[n] == m && forall k :: 0 <= k < |q.msgs| && k != n ==> r.msgs[k] == q.msgs[k]
      case LinkOp(n) => n in r.queue && WakesFirst(q.w.receivers, q.w.wokenR, r.w.receivers, r.w.wokenR)
      case UrgentOp(n) => n in r.queue && WakesFirst(q.w.receivers, q.w.wokenR, r.w.receivers, r.w.wokenR)
      case HeadOp(t, wait, at) =>
        var reply := TakeHead(q, t, wait, at).0;
        && (reply.Done? <==> q.queue != []) && (reply.Refused? <==> q.queue == [] && !wait)
        && (reply.Done? ==> reply.value == q.queue[0] && r.reading == q.reading + {reply.value} && r.w.receivers == q.w.receivers)
        && (reply.Blocked? ==> r.w.receivers == q.w.receivers[..at] + [t] + q.w.receivers[at..])
      case BackOp(n) => n in r.free && WakesFirst(q.w.senders, q.w.wokenS, r.w.senders, r.w.wokenS)
      case ResetOp =>
        && r.queue == [] && r.w.receivers == [] && r.w.senders == [] && r.writing == q.writing && r.reading == q.reading
        && forall n :: n in r.free <==> n in q.queue || n in q.free
      case TimeoutOp(t) => r == q.(w := r.w) && t !in r.w.receivers && t !in r.w.senders
  {
    hide Awake;
    PushedKeeps(q.queue, q.free);
    if op.LinkOp? { assert (q.queue + [op.n])[|q.queue|] == op.n; }
  }

  /** What a sender wrote last is what its node holds, at the latest until another fill of it:
      so what a link step puts into the deque is the message of that sender. */
  lemma {:induction false} FilledStays(qs: seq<Queue>, ops: seq<Op>, i: nat, j: nat)
    requires IsRun(qs, ops) && i < j <= |ops| && ops[i].FillOp?
    requires forall k :: i < k < j && ops[k].FillOp? ==> ops[k].n != ops[i].n
    ensures ops[i].n < |qs[j].msgs| && qs[j].msgs[ops[i].n] == ops[i].m
    decreases j
  {
    var k := j - 1;
    RunKeeps(qs, ops, k);
    StepKeepsMessages(qs[k], ops[k]);
    if i < k { FilledStays(qs, ops, i, k); }
  }

  lemma StepKeepsMessages(q: Queue, op: Op)
    requires Enabled(q, op)
    ensures Step(q, op).msgs == if op.FillOp? then q.msgs[op.n := op.m] else q.msgs
  {
    hide Pushed, BlockReceiver, BlockSender, ReceiverRan, SenderRan, WakeReceiver, WakeSender, AllReleased, TimedOut;
  }

  // ---------------------------------------------------------------- what is received

  /** The messages waiting, front first. */
  function Contents(q: Queue): (r: seq<Message>)
    requires forall i :: 0 <= i < |q.queue| ==> q.queue[i] < |q.msgs|
    ensures |r| == |q.queue|
  {
    seq(|q.queue|, i requires 0 <= i < |q.queue| => q.msgs[q.queue[i]])
  }

  /** A plain deque of messages, and the message each receiver has in hand. */
  datatype Mail = Mail(waiting: seq<Message>, held: map<nat, Message>)

  /** One step of the plain deque.  A message enters it as it is when its node is linked; of
      the nodes only the name under which a receiver holds its message is used. */
  function Deliver(d: Mail, q: Queue, op: Op): Mail {
    match op
    case LinkOp(n) => if n < |q.msgs| then d.(waiting := d.waiting + [q.msgs[n]]) else d
    case UrgentOp(n) => if n < |q.msgs| then d.(waiting := [q.msgs[n]] + d.waiting) else d
    case HeadOp(_, _, _) =>
      if d.waiting == [] || q.queue == [] then d
      else Mail(d.waiting[1..], d.held[q.queue[0] := d.waiting[0]])
    case BackOp(n) => d.(held := d.held - {n})
    case ResetOp => d.(waiting := [])
    case _ => d
  }

  /** The plain deque after the first `i` steps of a run. */
  function Replay(qs: seq<Queue>, ops: seq<Op>, i: nat): Mail
    requires i <= |ops| && |qs| == |ops| + 1
  {
    if i == 0 then Mail([], map[]) else Deliver(Replay(qs, ops, i - 1), qs[i - 1], ops[i - 1])
  }

  /** The nodes hold what the plain deque says: the queue its waiting messages in order, each
      node in a receiver's hands the message that was at the front when it was taken. */
  ghost predicate Carries(q: Queue, d: Mail) {
    && (forall i :: 0 <= i < |q.queue| ==> q.queue[i] < |q.msgs|)
    && d.waiting == Contents(q)
    && (forall n :: n in q.reading ==> n < |q.msgs| && n in d.held && d.held[n] == q.msgs[n])
  }

  lemma FillCarries(q: Queue, n: nat, m: Message, d: Mail)
    requires Inv(q) && n in q.writing && n < |q.msgs| && Carries(q, d)
    ensures Carries(Fill(q, n, m), d)
  {
    var r := Fill(q, n, m);
    forall i | 0 <= i < |q.queue| ensures r.msgs[q.queue[i]] == q.msgs[q.queue[i]] { assert q.queue[i] in q.queue; }
    assert Contents(r) == Contents(q);
  }

  lemma LinkCarries(q: Queue, n: nat, d: Mail)
    requires n < |q.msgs| && Carries(q, d)
    ensures Carries(Link(q, n), d.(waiting := d.waiting + [q.msgs[n]]))
    ensures Carries(LinkUrgent(q, n), d.(waiting := [q.msgs[n]] + d.waiting))
  {
    hide WakeReceiver;
    assert Contents(Link(q, n)) == Contents(q) + [q.msgs[n]];
    assert Contents(LinkUrgent(q, n)) == [q.msgs[n]] + Contents(q);
  }

  lemma HeadCarries(q: Queue, t: nat, wait: bool, at: nat, d: Mail)
    requires at <= |q.w.receivers| && q.queue != [] && Carries(q, d)
    ensures d.waiting != [] && Carries(TakeHead(q, t, wait, at).1, Mail(d.waiting[1..], d.held[q.queue[0] := d.waiting[0]]))
  {
    hide BlockReceiver, ReceiverRan;
    var r := TakeHead(q, t, wait, at).1;
    assert forall i :: 0 <= i < |r.queue| ==> r.queue[i] == q.queue[i + 1];
    assert Contents(q) == [q.msgs[q.queue[0]]] + Contents(r);
  }

  lemma StepCarries(q: Queue, op: Op, d: Mail)
    requires Inv(q) && Enabled(q, op) && Carries(q, d)
    ensures Carries(Step(q, op), Deliver(d, q, op))
  {
    hide Awake, Pushed, BlockReceiver, BlockSender, ReceiverRan, SenderRan, WakeReceiver, WakeSender, AllReleased, TimedOut;
    match op
    case FillOp(n, m) => FillCarries(q, n, m, d);
    case LinkOp(n) => LinkCarries(q, n, d);
    case UrgentOp(n) => LinkCarries(q, n, d);
    case HeadOp(t, wait, at) => if q.queue != [] { HeadCarries(q, t, wait, at, d); }
    case ResetOp => assert Contents(Reset(q)) == [];
    case _ => hide Placed; SameContents(q, Step(q, op));
  }

  lemma SameContents(q: Queue, r: Queue)
    requires r.queue == q.queue && r.msgs == q.msgs && (forall i :: 0 <= i < |q.queue| ==> q.queue[i] < |q.msgs|)
    ensures Contents(r) == Contents(q)
  {
  }

  /** However the halves of sends, urgent sends, receives and resets interleave: the queue is
      the deque fixed at the link steps, and what a receiver copies, at any time between its
      two halves, is the message that was at the front of that deque when it took the node. */
  lemma {:induction false} ReceivesTheDeque(qs: seq<Queue>, ops: seq<Op>, i: nat)
    requires IsRun(qs, ops) && i <= |ops|
    ensures Carries(qs[i], Replay(qs, ops, i))
  {
    hide Inv, Carries, Deliver, Step;
    if i == 0 {
      NothingYet(qs[0]);
    } else {
      ReceivesTheDeque(qs, ops, i - 1);
      RunKeeps(qs, ops, i - 1);
      StepCarries(qs[i - 1], ops[i - 1], Replay(qs, ops, i - 1));
    }
  }

  lemma NothingYet(q: Queue)
    requires q.queue == [] && q.reading == {}
    ensures Carries(q, Mail([], map[]))
  {
  }

  /** The message a step links at the tail, and the one it hands to a receiver. */
  function LinkedBy(q: Queue, op: Op): seq<Message> {
    if op.LinkOp? && op.n < |q.msgs| then [q.msgs[op.n]] else []
  }

  function HandedBy(d: Mail, q: Queue, op: Op): seq<Message> {
    if op.HeadOp? && q.queue != [] && d.waiting != [] then [d.waiting[0]] else []
  }

  /** The same over the first `i` steps of a run. */
  function Linked(qs: seq<Queue>, ops: seq<Op>, i: nat): seq<Message>
    requires i <= |ops| && |qs| == |ops| + 1
  {
    if i == 0 then [] else Linked(qs, ops, i - 1) + LinkedBy(qs[i - 1], ops[i - 1])
  }

  function Received(qs: seq<Queue>, ops: seq<Op>, i: nat): seq<Message>
    requires i <= |ops| && |qs| == |ops| + 1
  {
    if i == 0 then [] else Received(qs, ops, i - 1) + HandedBy(Replay(qs, ops, i - 1), qs[i - 1], ops[i - 1])
  }

  lemma DeliverStep(d: Mail, q: Queue, op: Op)
    requires !op.UrgentOp? && !op.ResetOp?
    ensures d.waiting + LinkedBy(q, op) == HandedBy(d, q, op) + Deliver(d, q, op).waiting
  {
  }

  /** In a run without urgent messages and resets, receivers get exactly the messages linked,
      in the order in which they were linked; the rest is waiting. */
  lemma {:induction false} ReceivedInOrder(qs: seq<Queue>, ops: seq<Op>, i: nat)
    requires IsRun(qs, ops) && i <= |ops|
    requires forall k :: 0 <= k < |ops| ==> !ops[k].UrgentOp? && !ops[k].ResetOp?
    ensures forall k :: 0 <= k < |qs[i].queue| ==> qs[i].queue[k] < |qs[i].msgs|
    ensures Linked(qs, ops, i) == Received(qs, ops, i) + Contents(qs[i])
  {
    ReceivesTheDeque(qs, ops, i);
    hide IsRun, Contents, LinkedBy, HandedBy, Deliver;
    WaitsInOrder(qs, ops, i);
  }

  lemma {:induction false} WaitsInOrder(qs: seq<Queue>, ops: seq<Op>, i: nat)
    requires i <= |ops| && |qs| == |ops| + 1
    requires forall k :: 0 <= k < |ops| ==> !ops[k].UrgentOp? && !ops[k].ResetOp?
    ensures Linked(qs, ops, i) == Received(qs, ops, i) + Replay(qs, ops, i).waiting
  {
    hide LinkedBy, HandedBy, Deliver;
    if i > 0 {
      WaitsInOrder(qs, ops, i - 1);
      var d, q, op := Replay(qs, ops, i - 1), qs[i - 1], ops[i - 1];
      DeliverStep(d, q, op);
      Regroup(Linked(qs, ops, i - 1), Received(qs, ops, i - 1), d.waiting,
              LinkedBy(q, op), HandedBy(d, q, op), Deliver(d, q, op).waiting);
    }
  }

  /** A message linked stays as it is until its node is given back. */
  lemma LinkedMessageStays(q: Queue, op: Op, n: nat)
    requires Inv(q) && Enabled(q, op) && (n in q.queue || n in q.reading)
    ensures n < |q.msgs| && n < |Step(q, op).msgs| && Step(q, op).msgs[n] == q.msgs[n]
    ensures n in Step(q, op).queue || n in Step(q, op).reading || op == BackOp(n) || op == ResetOp
  {
    StepKeeps(q, op);
    match op
    case LinkOp(k) => assert n in q.queue ==> n in q.queue + [k];
    case UrgentOp(k) => assert n in q.queue ==> n in [k] + q.queue;
    case HeadOp(_, _, _) => if q.queue != [] { HeadAndRest(q.queue); }
    case _ =>
  }

  // ---------------------------------------------------------------- linked nodes

  /** A pool node: link, length, and room for one message. */
  datatype Node = Node(next: Option<nat>, length: nat, body: seq<bv8>)

  function NextIn(l: seq<nat>, i: nat): Option<nat> {
    if i < |l| then Some(l[i]) else None
  }

  /** Following `next` from `start` visits exactly the nodes of `l` and ends. */
  ghost predicate Chain(ns: seq<Node>, start: Option<nat>, l: seq<nat>) {
    && start == NextIn(l, 0)
    && forall i {:trigger l[i]} :: 0 <= i < |l| ==> l[i] < |ns| && ns[l[i]].next == NextIn(l, i + 1)
  }

  lemma ChainTail(ns: seq<Node>, start: Option<nat>, l: seq<nat>)
    requires Chain(ns, start, l) && l != []
    ensures Chain(ns, ns[l[0]].next, l[1..])
  {
    assert ns[l[0]].next == NextIn(l, 1);
  }

  lemma ChainStart(ns: seq<Node>, start: Option<nat>, l: seq<nat>)
    requires Chain(ns, start, l)
    ensures start == if l == [] then None else Some(l[0])
    ensures forall i :: 0 <= i < |l| ==> l[i] < |ns|
  {
  }

  /** Stores into other nodes leave a chain alone. */
  lemma ChainKept(ns: seq<Node>, ns': seq<Node>, n: nat, start: Option<nat>, l: seq<nat>)
    requires Chain(ns, start, l) && |ns'| == |ns| && n !in l
    requires forall k :: 0 <= k < |ns| && k != n ==> ns'[k].next == ns[k].next
    ensures Chain(ns', start, l)
  {
    forall i | 0 <= i < |l| ensures ns'[l[i]].next == NextIn(l, i + 1) {
      assert l[i] in l;
      assert ns[l[i]].next == NextIn(l, i + 1);
    }
  }

  lemma ChainPush(ns: seq<Node>, start: Option<nat>, l: seq<nat>, n: nat)
    requires Chain(ns, start, l) && n < |ns| && n !in l
    ensures Chain(ns[n := ns[n].(next := start)], Some(n), [n] + l)
  {
    var l', ns' := [n] + l, ns[n := ns[n].(next := start)];
    forall i | 0 <= i < |l'| ensures l'[i] < |ns'| && ns'[l'[i]].next == NextIn(l', i + 1) {
      if i > 0 { assert l'[i] == l[i - 1]; }
    }
  }

  /** The old tail gets the new node as its successor. */
  lemma ChainAppend(ns: seq<Node>, start: Option<nat>, l: seq<nat>, n: nat)
    requires Chain(ns, start, l) && NoDup(l) && n < |ns| && n !in l && ns[n].next == None
    ensures l != [] ==> Chain(ns[l[|l| - 1] := ns[l[|l| - 1]].(next := Some(n))], start, l + [n])
    ensures l == [] ==> Chain(ns, Some(n), [n])
  {
    if l != [] {
      var last := l[|l| - 1];
      assert last < |ns|;
      var ns', l' := ns[last := ns[last].(next := Some(n))], l + [n];
      forall i | 0 <= i < |l'| ensures l'[i] < |ns'| && ns'[l'[i]].next == NextIn(l', i + 1) {
        if i < |l| { assert l'[i] == l[i]; }
      }
    }
  }

  /** The message a node holds. */
  function Text(n: Node): Message { if n.length <= |n.body| then n.body[..n.length] else n.body }

  function Texts(ns: seq<Node>): seq<Message> { seq(|ns|, n requires 0 <= n < |ns| => Text(ns[n])) }

  ghost predicate Sized(ns: seq<Node>, msgSize: nat) {
    forall n :: 0 <= n < |ns| ==> |ns[n].body| == msgSize && ns[n].length <= msgSize
  }

  /** The links and pointers of the queue object against its two lists. */
  datatype Heads = Heads(head: Option<nat>, tail: Option<nat>, free: Option<nat>)

  ghost predicate Stored(ns: seq<Node>, msgSize: nat, p: Heads, queue: seq<nat>, free: seq<nat>) {
    && Sized(ns, msgSize) && Chain(ns, p.head, queue) && Chain(ns, p.free, free)
    && p.tail == (if queue == [] then None else Some(queue[|queue| - 1]))
  }

  /** Lists without common or repeated nodes. */
  ghost predicate Disjoint(queue: seq<nat>, free: seq<nat>) {
    NoDup(queue) && NoDup(free) && forall n :: n in queue ==> n !in free
  }

  function Relinked(ns: seq<Node>, n: nat, next: Option<nat>): seq<Node>
    requires n < |ns|
  {
    ns[n := ns[n].(next := next)]
  }

  lemma RelinkedTexts(ns: seq<Node>, n: nat, next: Option<nat>, msgSize: nat)
    requires n < |ns| && Sized(ns, msgSize)
    ensures Texts(Relinked(ns, n, next)) == Texts(ns) && Sized(Relinked(ns, n, next), msgSize)
  {
  }

  lemma StoredHeads(ns: seq<Node>, msgSize: nat, p: Heads, queue: seq<nat>, free: seq<nat>)
    requires Stored(ns, msgSize, p, queue, free)
    ensures p.head == if queue == [] then None else Some(queue[0])
    ensures p.free == if free == [] then None else Some(free[0])
    ensures p.tail == if queue == [] then None else Some(queue[|queue| - 1])
    ensures queue != [] ==> queue[0] < |ns| && queue[|queue| - 1] < |ns|
    ensures free != [] ==> free[0] < |ns|
  {
    ChainStart(ns, p.head, queue);
    ChainStart(ns, p.free, free);
  }

  lemma PopFreeStored(ns: seq<Node>, msgSize: nat, p: Heads, queue: seq<nat>, free: seq<nat>)
    requires Stored(ns, msgSize, p, queue, free) && free != []
    ensures free[0] < |ns| && Stored(ns, msgSize, p.(free := ns[free[0]].next), queue, free[1..])
  {
    ChainTail(ns, p.free, free);
  }

  lemma PopHeadStored(ns: seq<Node>, msgSize: nat, p: Heads, queue: seq<nat>, free: seq<nat>)
    requires Stored(ns, msgSize, p, queue, free) && queue != [] && NoDup(queue)
    ensures queue[0] < |ns|
    ensures Stored(ns, msgSize, Heads(ns[queue[0]].next, if p.tail == Some(queue[0]) then None else p.tail, p.free), queue[1..], free)
  {
    ChainTail(ns, p.head, queue);
  }

  lemma LinkStored(ns: seq<Node>, msgSize: nat, p: Heads, queue: seq<nat>, free: seq<nat>, n: nat)
    requires Stored(ns, msgSize, p, queue, free) && Disjoint(queue, free)
    requires n < |ns| && n !in queue && n !in free && ns[n].next == None
    ensures p.tail.Some? ==> p.tail.value < |ns|
    ensures var ns' := if p.tail.Some? then Relinked(ns, p.tail.value, Some(n)) else ns;
      && Stored(ns', msgSize, Heads(if p.head.None? then Some(n) else p.head, Some(n), p.free), queue + [n], free)
      && Texts(ns') == Texts(ns)
  {
    StoredHeads(ns, msgSize, p, queue, free);
    ChainAppend(ns, p.head, queue, n);
    if queue != [] {
      var last := queue[|queue| - 1];
      assert last in queue;
      RelinkedTexts(ns, last, Some(n), msgSize);
      ChainKept(ns, Relinked(ns, last, Some(n)), last, p.free, free);
    }
  }

  lemma UrgentStored(ns: seq<Node>, msgSize: nat, p: Heads, queue: seq<nat>, free: seq<nat>, n: nat)
    requires Stored(ns, msgSize, p, queue, free) && n < |ns| && n !in queue && n !in free
    ensures Stored(Relinked(ns, n, p.head), msgSize, Heads(Some(n), if p.tail.None? then Some(n) else p.tail, p.free), [n] + queue, free)
    ensures Texts(Relinked(ns, n, p.head)) == Texts(ns)
  {
    RelinkedTexts(ns, n, p.head, msgSize);
    ChainPush(ns, p.head, queue, n);
    ChainKept(ns, Relinked(ns, n, p.head), n, p.free, free);
  }

  lemma PushStored(ns: seq<Node>, msgSize: nat, p: Heads, queue: seq<nat>, free: seq<nat>, n: nat)
    requires Stored(ns, msgSize, p, queue, free) && n < |ns| && n !in queue && n !in free
    ensures Stored(Relinked(ns, n, p.free), msgSize, p.(free := Some(n)), queue, [n] + free)
    ensures Texts(Relinked(ns, n, p.free)) == Texts(ns)
  {
    RelinkedTexts(ns, n, p.free, msgSize);
    ChainPush(ns, p.free, free, n);
    ChainKept(ns, Relinked(ns, n, p.free), n, p.head, queue);
  }

  lemma FillStored(ns: seq<Node>, msgSize: nat, p: Heads, queue: seq<nat>, free: seq<nat>, n: nat, m: Message, next: Option<nat>)
    requires Stored(ns, msgSize, p, queue, free) && n < |ns| && n !in queue && n !in free && |m| <= msgSize
    ensures |ns[n].body| == msgSize
    ensures var ns' := ns[n := Node(next, |m|, m + ns[n].body[|m|..])];
      Stored(ns', msgSize, p, queue, free) && Texts(ns') == Texts(ns)[n := m]
  {
    var ns' := ns[n := Node(next, |m|, m + ns[n].body[|m|..])];
    ChainKept(ns, ns', n, p.head, queue);
    ChainKept(ns, ns', n, p.free, free);
    assert Texts(ns') == Texts(ns)[n := m];
  }

  /** The nodes in somebody's hands. */
  function Hands(q: Queue): set<nat> { q.writing + q.reading }

  /** A node in somebody's hands is in no list; while there is one, the queue is not full. */
  lemma FlyingApart(q: Queue, n: nat)
    requires Inv(q) && n in Hands(q)
    ensures Disjoint(q.queue, q.free) && n !in q.queue && n !in q.free && n < |q.msgs| && |q.queue| < |q.msgs|
  {
    EntriesBounded(q);
    assert n in q.writing ==> |q.writing| > 0;
    assert n in q.reading ==> |q.reading| > 0;
  }

  /** Nodes in `hands` are as they were. */
  ghost predicate HandsKept(ns: seq<Node>, ns': seq<Node>, hands: set<nat>) {
    |ns'| == |ns| && forall k: nat :: k < |ns| && k in hands ==> ns'[k] == ns[k]
  }

  /** What the second halves find: room in the entry counter, a node that is in no list. */
  lemma LinkReady(q: Queue, n: nat)
    requires Inv(q) && n in q.writing
    ensures Inv(Link(q, n)) && Inv(LinkUrgent(q, n))
    ensures |q.queue| < |q.msgs| && n !in q.queue && n !in q.free && Disjoint(q.queue, q.free)
  {
    LinkKeeps(q, n);
    FlyingApart(q, n);
  }

  lemma GiveBackReady(q: Queue, n: nat)
    requires Inv(q) && n in q.reading
    ensures Inv(GiveBack(q, n)) && n !in q.queue && n !in q.free
  {
    GiveBackKeeps(q, n);
    FlyingApart(q, n);
  }

  lemma ResetReady(q: Queue)
    requires Inv(q)
    ensures Inv(Reset(q)) && Disjoint(q.queue, q.free)
  {
    ResetKeeps(q);
  }

  /** Stores into nodes that are in lists, or in `n`, leave the nodes in other hands alone. */
  lemma HandsAfterLink(q: Queue, n: nat, ns: seq<Node>, ns': seq<Node>)
    requires Inv(q) && n in q.writing && |ns'| == |ns|
    requires forall k: nat :: k < |ns| && k !in q.queue && k != n ==> ns'[k] == ns[k]
    ensures HandsKept(ns, ns', Hands(Link(q, n))) && HandsKept(ns, ns', Hands(LinkUrgent(q, n)))
  {
  }

  lemma HandsAfterGiveBack(q: Queue, n: nat, ns: seq<Node>, ns': seq<Node>)
    requires Inv(q) && n in q.reading && |ns'| == |ns|
    requires forall k: nat :: k < |ns| && k !in q.queue && k != n ==> ns'[k] == ns[k]
    ensures HandsKept(ns, ns', Hands(GiveBack(q, n)))
  {
  }

  lemma HandsAfterReset(q: Queue, ns: seq<Node>, ns': seq<Node>)
    requires Inv(q) && |ns'| == |ns|
    requires forall k: nat :: k < |ns| && k !in q.queue ==> ns'[k] == ns[k]
    ensures HandsKept(ns, ns', Hands(Reset(q)))
  {
  }

  lemma NothingStored(ns: seq<Node>, msgSize: nat)
    requires Sized(ns, msgSize)
    ensures Stored(ns, msgSize, Heads(None, None, None), [], [])
  {
  }

  lemma AllFree(q: Queue)
    requires q.queue == [] && q.writing == {} && q.reading == {} && NoDup(q.free) && q.w == Waiting([], [], {}, {})
    requires forall n: nat :: n in q.free <==> n < |q.msgs|
    ensures Inv(q)
  {
  }

  class MessageQueue {
    const msgSize: nat
    const nodes: array<Node>
    var head: Option<nat>
    var tail: Option<nat>
    var free: Option<nat>
    var entry: nat
    var w: Waiting
    ghost var queue: seq<nat>
    ghost var freeList: seq<nat>
    ghost var writing: set<nat>
    ghost var reading: set<nat>

    ghost function Q(): Queue
      reads this, nodes
    {
      Queue(queue, freeList, writing, reading, Texts(nodes[..]), w)
    }

    ghost predicate Valid()
      reads this, nodes
    {
      && nodes.Length <= ENTRY_MAX && entry == |queue|
      && Stored(nodes[..], msgSize, Heads(head, tail, free), queue, freeList)
      && Inv(Q())
    }

    /** `rt_mq_init`: all nodes on the free list, the last one first. */
    constructor (msgSize: nat, maxMsgs: nat)
      requires 0 < maxMsgs <= ENTRY_MAX
      ensures Valid() && fresh(nodes) && nodes.Length == maxMsgs && this.msgSize == msgSize
      ensures queue == [] && |freeList| == maxMsgs && writing == {} && reading == {} && w == Waiting([], [], {}, {})
    {
      this.msgSize := msgSize;
      nodes := new Node[maxMsgs](_ => Node(None, 0, seq(msgSize, _ => 0)));
      head, tail, free, entry := None, None, None, 0;
      w := Waiting([], [], {}, {});
      queue, freeList, writing, reading := [], [], {}, {};
      new;
      NothingStored(nodes[..], msgSize);
      ChainFree();
      AllFree(Q());
    }

    /** The loop of `rt_mq_init` over the pool. */
    method ChainFree()
      requires queue == [] && freeList == [] && Stored(nodes[..], msgSize, Heads(head, tail, free), queue, freeList)
      modifies this`free, this`freeList, nodes
      ensures Stored(nodes[..], msgSize, Heads(head, tail, free), queue, freeList) && NoDup(freeList)
      ensures |freeList| == nodes.Length && forall n: nat :: n in freeList <==> n < nodes.Length
    {
      hide Stored, Relinked;
      var temp := 0;
      while temp < nodes.Length
        invariant temp <= nodes.Length
        invariant Stored(nodes[..], msgSize, Heads(head, tail, free), queue, freeList) && NoDup(freeList)
        invariant |freeList| == temp && forall n: nat :: n in freeList <==> n < temp
      {
        PushStored(nodes[..], msgSize, Heads(head, tail, free), queue, freeList, temp);
        SetNext(temp, free);
        free := Some(temp);
        freeList := [temp] + freeList;
        temp := temp + 1;
      }
    }

    /** A store into the link of one node. */
    method SetNext(n: nat, next: Option<nat>)
      requires n < nodes.Length
      modifies nodes
      ensures nodes[..] == Relinked(old(nodes[..]), n, next)
    {
      nodes[n] := nodes[n].(next := next);
    }

    /** "move free list pointer". */
    method PopFree() returns (msg: nat)
      requires freeList != [] && Stored(nodes[..], msgSize, Heads(head, tail, free), queue, freeList)
      modifies this`free, this`freeList, this`writing
      ensures Stored(nodes[..], msgSize, Heads(head, tail, free), queue, freeList)
      ensures msg == old(freeList)[0] && freeList == old(freeList)[1..] && writing == old(writing) + {msg}
    {
      PopFreeStored(nodes[..], msgSize, Heads(head, tail, free), queue, freeList);
      StoredHeads(nodes[..], msgSize, Heads(head, tail, free), queue, freeList);
      hide Stored;
      msg := free.value;
      free := nodes[msg].next;
      freeList, writing := freeList[1..], writing + {msg};
    }

    /** First half of a send. */
    method TryTake(t: nat, wait: bool, place: nat) returns (r: Reply<nat>)
      requires Valid() && RunsSender(w, t) && place <= |w.senders|
      modifies this`free, this`freeList, this`writing, this`w
      ensures Valid() && (r, Q()) == TakeNode(old(Q()), t, wait, place)
    {
      TakeNodeKeeps(Q(), t, wait, place);
      StoredHeads(nodes[..], msgSize, Heads(head, tail, free), queue, freeList);
      hide Placed, Awake, Stored, Texts;
      if free.None? {
        if !wait {
          w := SenderRan(w, t);
          return Refused;
        }
        w := BlockSender(w, t, place);
        return Blocked;
      }
      w := SenderRan(w, t);
      var msg := PopFree();
      r := Done(msg);
    }

    /** First half of `rt_mq_urgent`. */
    method TryTakeNow() returns (r: Reply<nat>)
      requires Valid()
      modifies this`free, this`freeList, this`writing
      ensures Valid() && (r, Q()) == TakeNodeNow(old(Q()))
    {
      TakeNowKeeps(Q());
      StoredHeads(nodes[..], msgSize, Heads(head, tail, free), queue, freeList);
      hide Placed, Awake, Stored, Texts;
      if free.None? {
        return Refused;
      }
      var msg := PopFree();
      r := Done(msg);
    }

    /** The holder writes length and contents; a normal send also clears the link. */
    method FillNode(n: nat, m: Message, last: bool)
      requires Valid() && n in writing && n < nodes.Length && |m| <= msgSize
      modifies nodes
      ensures Valid() && Q() == Fill(old(Q()), n, m) && (last ==> nodes[n].next == None)
      ensures HandsKept(old(nodes[..]), nodes[..], Hands(Q()) - {n})
    {
      FillKeeps(Q(), n, m);
      LinkReady(Q(), n);
      ghost var ns := nodes[..];
      var next := if last then None else nodes[n].next;
      FillStored(ns, msgSize, Heads(head, tail, free), queue, freeList, n, m, next);
      hide Placed, Awake, Stored, Texts;
      nodes[n] := Node(next, |m|, m + nodes[n].body[|m|..]);
      assert nodes[..] == ns[n := nodes[n]];
    }

    /** "link msg to message queue". */
    method AppendNode(n: nat)
      requires Stored(nodes[..], msgSize, Heads(head, tail, free), queue, freeList) && Disjoint(queue, freeList)
      requires n < nodes.Length && n !in queue && n !in freeList && nodes[n].next == None
      modifies this`head, this`tail, this`queue, nodes
      ensures Stored(nodes[..], msgSize, Heads(head, tail, free), queue, freeList)
      ensures queue == old(queue) + [n] && Texts(nodes[..]) == old(Texts(nodes[..]))
      ensures forall k :: 0 <= k < nodes.Length && k !in old(queue) ==> nodes[k] == old(nodes[k])
    {
      LinkStored(nodes[..], msgSize, Heads(head, tail, free), queue, freeList, n);
      hide Stored, Texts, Disjoint, Relinked;
      if tail.Some? {
        SetNext(tail.value, Some(n));
      }
      tail := Some(n);
      if head.None? {
        head := Some(n);
      }
      queue := queue + [n];
    }

    /** Second half of a send.  The counter cannot overflow. */
    method LinkNode(n: nat)
      requires Valid() && n in writing && n < nodes.Length && nodes[n].next == None
      modifies this`head, this`tail, this`entry, this`w, this`queue, this`writing, nodes
      ensures Valid() && Q() == Link(old(Q()), n)
      ensures HandsKept(old(nodes[..]), nodes[..], Hands(Q()))
    {
      hide Inv, Stored, Disjoint, Hands, HandsKept, WakeReceiver;
      ghost var q, ns := Q(), nodes[..];
      LinkReady(q, n);
      assert entry < ENTRY_MAX;
      hide Texts;
      AppendNode(n);
      HandsAfterLink(q, n, ns, nodes[..]);
      entry := entry + 1;
      writing := writing - {n};
      w := WakeReceiver(w);
    }

    /** "link msg to the beginning of message queue". */
    method PrependNode(n: nat)
      requires Stored(nodes[..], msgSize, Heads(head, tail, free), queue, freeList)
      requires n < nodes.Length && n !in queue && n !in freeList
      modifies this`head, this`tail, this`queue, nodes
      ensures Stored(nodes[..], msgSize, Heads(head, tail, free), queue, freeList)
      ensures queue == [n] + old(queue) && Texts(nodes[..]) == old(Texts(nodes[..]))
      ensures forall k :: 0 <= k < nodes.Length && k != n ==> nodes[k] == old(nodes[k])
    {
      UrgentStored(nodes[..], msgSize, Heads(head, tail, free), queue, freeList, n);
      hide Stored, Texts;
      SetNext(n, head);
      head := Some(n);
      if tail.None? {
        tail := Some(n);
      }
      queue := [n] + queue;
    }

    /** Second half of `rt_mq_urgent`. */
    method LinkUrgentNode(n: nat)
      requires Valid() && n in writing && n < nodes.Length
      modifies this`head, this`tail, this`entry, this`w, this`queue, this`writing, nodes
      ensures Valid() && Q() == LinkUrgent(old(Q()), n)
      ensures HandsKept(old(nodes[..]), nodes[..], Hands(Q()))
    {
      hide Inv, Stored, Disjoint, Hands, HandsKept, WakeReceiver;
      ghost var q, ns := Q(), nodes[..];
      LinkReady(q, n);
      assert entry < ENTRY_MAX;
      hide Texts;
      PrependNode(n);
      HandsAfterLink(q, n, ns, nodes[..]);
      entry := entry + 1;
      writing := writing - {n};
      w := WakeReceiver(w);
    }

    /** "get message from queue". */
    method PopHead() returns (msg: nat)
      requires queue != [] && NoDup(queue) && Stored(nodes[..], msgSize, Heads(head, tail, free), queue, freeList)
      modifies this`head, this`tail, this`queue
      ensures Stored(nodes[..], msgSize, Heads(head, tail, free), queue, freeList)
      ensures msg == old(queue)[0] < nodes.Length && queue == old(queue)[1..]
    {
      PopHeadStored(nodes[..], msgSize, Heads(head, tail, free), queue, freeList);
      StoredHeads(nodes[..], msgSize, Heads(head, tail, free), queue, freeList);
      hide Stored;
      msg := head.value;
      head := nodes[msg].next;
      if tail == Some(msg) {
        tail := None;
      }
      queue := queue[1..];
    }

    /** First half of a receive. */
    method TryHead(t: nat, wait: bool, place: nat) returns (r: Reply<nat>)
      requires Valid() && RunsReceiver(w, t) && place <= |w.receivers|
      modifies this`head, this`tail, this`entry, this`w, this`queue, this`reading
      ensures Valid() && (r, Q()) == TakeHead(old(Q()), t, wait, place)
    {
      TakeHeadKeeps(Q(), t, wait, place);
      assert NoDup(queue);
      hide Placed, Awake, Stored, Texts;
      if entry == 0 {
        if !wait {
          w := ReceiverRan(w, t);
          return Refused;
        }
        w := BlockReceiver(w, t, place);
        return Blocked;
      }
      w := ReceiverRan(w, t);
      var msg := PopHead();
      entry := entry - 1;
      reading := reading + {msg};
      r := Done(msg);
    }

    /** The holder copies what fits into its buffer of `room` bytes. */
    method ReadNode(n: nat, room: nat) returns (m: Message)
      requires Valid() && n in reading && n < nodes.Length
      ensures m == Q().msgs[n][..Min(|Q().msgs[n]|, room)]
    {
      hide Placed, Awake;
      var len := nodes[n].length;
      if len > room {
        len := room;
      }
      m := nodes[n].body[..len];
    }

    /** "put message to free list". */
    method PushFree(n: nat)
      requires n < nodes.Length && n !in queue && n !in freeList
      requires Stored(nodes[..], msgSize, Heads(head, tail, free), queue, freeList)
      modifies this`free, this`freeList, nodes
      ensures Stored(nodes[..], msgSize, Heads(head, tail, free), queue, freeList)
      ensures freeList == [n] + old(freeList) && Texts(nodes[..]) == old(Texts(nodes[..]))
      ensures forall k :: 0 <= k < nodes.Length && k != n ==> nodes[k] == old(nodes[k])
    {
      PushStored(nodes[..], msgSize, Heads(head, tail, free), queue, freeList, n);
      hide Stored, Texts, Relinked;
      SetNext(n, free);
      free := Some(n);
      freeList := [n] + freeList;
    }

    /** Second half of a receive. */
    method GiveBackNode(n: nat)
      requires Valid() && n in reading && n < nodes.Length
      modifies this`free, this`w, this`freeList, this`reading, nodes
      ensures Valid() && Q() == GiveBack(old(Q()), n)
      ensures HandsKept(old(nodes[..]), nodes[..], Hands(Q()))
    {
      hide Inv, Stored, Texts, Disjoint, Hands, HandsKept, WakeSender;
      ghost var q, ns := Q(), nodes[..];
      GiveBackReady(q, n);
      PushFree(n);
      HandsAfterGiveBack(q, n, ns, nodes[..]);
      reading := reading - {n};
      w := WakeSender(w);
    }

    /** "release all message in the queue". */
    method Drain()
      requires Stored(nodes[..], msgSize, Heads(head, tail, free), queue, freeList) && Disjoint(queue, freeList)
      modifies this`head, this`tail, this`free, this`queue, this`freeList, nodes
      ensures Stored(nodes[..], msgSize, Heads(head, tail, free), queue, freeList)
      ensures queue == [] && freeList == Pushed(old(queue), old(freeList)) && Texts(nodes[..]) == old(Texts(nodes[..]))
      ensures forall k :: 0 <= k < nodes.Length && k !in old(queue) ==> nodes[k] == old(nodes[k])
    {
      hide Stored, Texts;
      StoredHeads(nodes[..], msgSize, Heads(head, tail, free), queue, freeList);
      while head.Some?
        invariant Stored(nodes[..], msgSize, Heads(head, tail, free), queue, freeList) && Disjoint(queue, freeList)
        invariant Texts(nodes[..]) == old(Texts(nodes[..])) && (head.Some? <==> queue != [])
        invariant Pushed(queue, freeList) == Pushed(old(queue), old(freeList))
        invariant forall k :: k in queue ==> k in old(queue)
        invariant forall k :: 0 <= k < nodes.Length && k !in old(queue) ==> nodes[k] == old(nodes[k])
        decreases |queue|
      {
        HeadAndRest(queue);
        var msg := PopHead();
        PushFree(msg);
        StoredHeads(nodes[..], msgSize, Heads(head, tail, free), queue, freeList);
      }
    }

    /** RT_IPC_CMD_RESET. */
    method ResetQueue()
      requires Valid()
      modifies this, nodes
      ensures Valid() && Q() == Reset(old(Q()))
      ensures HandsKept(old(nodes[..]), nodes[..], Hands(Q()))
    {
      hide Inv, Stored, Texts, Disjoint, Hands, HandsKept;
      ghost var q, ns := Q(), nodes[..];
      ResetReady(q);
      w := AllReleased(w);
      Drain();
      HandsAfterReset(q, ns, nodes[..]);
      entry := 0;
    }
  }

  // ---------------------------------------------------------------- overlapping calls

  /** Two sends overlap and a receive follows: the order is that of the link steps, not of the
      steps that took the nodes, and the receiver reads what the second sender wrote. */
  method OverlappingSends(mq: MessageQueue, m1: Message, m2: Message, t: nat, room: nat) returns (got: Message)
    requires mq.Valid() && mq.queue == [] && |mq.freeList| >= 2 && RunsReceiver(mq.w, t)
    requires |m1| <= mq.msgSize && |m2| <= mq.msgSize
    modifies mq, mq.nodes
    ensures mq.Valid() && got == m2[..Min(|m2|, room)]
    ensures (forall i :: 0 <= i < |mq.queue| ==> mq.queue[i] < mq.nodes.Length) && Contents(mq.Q()) == [m1]
  {
    hide Placed, Awake, Stored, BlockReceiver, BlockSender, ReceiverRan, SenderRan, WakeReceiver, WakeSender;
    var r1 := mq.TryTakeNow();
    InHands(mq.Q());
    var r2 := mq.TryTakeNow();
    InHands(mq.Q());
    var n1, n2 := r1.value, r2.value;
    assert n1 in Hands(mq.Q()) && n2 in Hands(mq.Q()) && n1 != n2;
    mq.FillNode(n1, m1, true);
    mq.FillNode(n2, m2, true);
    mq.LinkNode(n2);
    mq.LinkNode(n1);
    WakingOthers(old(mq.w), t);
    WakingOthers(WakeReceiver(old(mq.w)), t);
    var h := mq.TryHead(t, false, 0);
    InHands(mq.Q());
    assert h.value == n2 && n2 in Hands(mq.Q());
    got := mq.ReadNode(h.value, room);
    mq.GiveBackNode(h.value);
  }

  lemma WakingOthers(w: Waiting, t: nat)
    requires RunsReceiver(w, t)
    ensures RunsReceiver(WakeReceiver(w), t)
  {
  }

  lemma InHands(q: Queue)
    requires Placed(q)
    ensures forall n :: n in Hands(q) ==> n < |q.msgs|
    ensures q.free != [] ==> q.free[0] !in Hands(q)
  {
    if q.free != [] { assert q.free[0] in q.free; }
  }
}
