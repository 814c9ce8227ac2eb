/** Mailboxes of `ipc.c`: a ring of words behaving as a bounded deque, with its waiters. */
module Mailbox {
  import opened Common
  import opened IpcWaiters

  /** RT_MB_ENTRY_MAX. */
  const ENTRY_MAX: nat := 0xFFFF

  datatype Box = Box(size: nat, mails: seq<nat>, w: Waiting)

  ghost predicate Inv(b: Box) {
    |b.mails| <= b.size && Awake(b.w, |b.mails|, b.size - |b.mails|)
  }

  // ---------------------------------------------------------------- the deque

  /** One pass of `_rt_mb_send_wait` by thread `t`, from taking the lock to giving it up. */
  function Send(b: Box, t: nat, value: nat, wait: bool, at: nat): (Reply<()>, Box)
    requires at <= |b.w.senders|
  {
    if |b.mails| == b.size then
      if wait then (Blocked, b.(w := BlockSender(b.w, t, at))) else (Refused, b.(w := SenderRan(b.w, t)))
    else (Done(()), b.(mails := b.mails + [value], w := WakeReceiver(SenderRan(b.w, t))))
  }

  /** `rt_mb_urgent`. */
  function Urgent(b: Box, value: nat): (Reply<()>, Box) {
    if |b.mails| == b.size then (Refused, b)
    else (Done(()), b.(mails := [value] + b.mails, w := WakeReceiver(b.w)))
  }

  /** One pass of `_rt_mb_recv`. */
  function Recv(b: Box, t: nat, wait: bool, at: nat): (Reply<nat>, Box)
    requires at <= |b.w.receivers|
  {
    if b.mails == [] then
      if wait then (Blocked, b.(w := BlockReceiver(b.w, t, at))) else (Refused, b.(w := ReceiverRan(b.w, t)))
    else (Done(b.mails[0]), b.(mails := b.mails[1..], w := WakeSender(ReceiverRan(b.w, t))))
  }

  lemma SendKeeps(b: Box, t: nat, value: nat, wait: bool, at: nat)
    requires Inv(b) && RunsSender(b.w, t) && at <= |b.w.senders|
    ensures Inv(Send(b, t, value, wait, at).1)
  {
    var items, room := |b.mails|, b.size - |b.mails|;
    if room == 0 {
      BlockSenderKeeps(b.w, items, t, at);
      RanInVain(b.w, items, room, t);
    } else {
      SenderRanKeeps(b.w, items, room, t);
      WakeReceiverKeeps(SenderRan(b.w, t), items, room - 1);
    }
  }

  lemma UrgentKeeps(b: Box, value: nat)
    requires Inv(b)
    ensures Inv(Urgent(b, value).1)
  {
    if |b.mails| < b.size {
      FewerKeeps(b.w, |b.mails|, b.size - |b.mails|);
      WakeReceiverKeeps(b.w, |b.mails|, b.size - |b.mails| - 1);
    }
  }

  lemma RecvKeeps(b: Box, t: nat, wait: bool, at: nat)
    requires Inv(b) && RunsReceiver(b.w, t) && at <= |b.w.receivers|
    ensures Inv(Recv(b, t, wait, at).1)
  {
    var items, room := |b.mails|, b.size - |b.mails|;
    if items == 0 {
      BlockReceiverKeeps(b.w, room, t, at);
      RanInVain(b.w, items, room, t);
    } else {
      ReceiverRanKeeps(b.w, items, room, t);
      WakeSenderKeeps(ReceiverRan(b.w, t), items - 1, room);
    }
  }

  // ---------------------------------------------------------------- runs

  datatype Op =
    | SendOp(t: nat, value: nat, wait: bool, at: nat)
    | UrgentOp(value: nat)
    | RecvOp(t: nat, wait: bool, at: nat)
    | TimeoutOp(t: nat)

  predicate Enabled(b: Box, op: Op) {
    match op
    case SendOp(t, _, _, at) => RunsSender(b.w, t) && at <= |b.w.senders|
    case UrgentOp(_) => true
    case RecvOp(t, _, at) => RunsReceiver(b.w, t) && at <= |b.w.receivers|
    case TimeoutOp(_) => true
  }

  function Step(b: Box, op: Op): Box
    requires Enabled(b, op)
  {
    match op
    case SendOp(t, value, wait, at) => Send(b, t, value, wait, at).1
    case UrgentOp(value) => Urgent(b, value).1
    case RecvOp(t, wait, at) => Recv(b, t, wait, at).1
    case TimeoutOp(t) => b.(w := TimedOut(b.w, t))
  }

  ghost predicate IsRun(bs: seq<Box>, ops: seq<Op>) {
    && |bs| == |ops| + 1 && bs[0] == Box(bs[0].size, [], Waiting([], [], {}, {}))
    && forall i :: 0 <= i < |ops| ==> Enabled(bs[i], ops[i]) && bs[i + 1] == Step(bs[i], ops[i])
  }

  lemma {:induction false} RunKeeps(bs: seq<Box>, ops: seq<Op>, i: nat)
    requires IsRun(bs, ops) && i <= |ops|
    ensures Inv(bs[i]) && bs[i].size == bs[0].size
  {
    if i > 0 {
      RunKeeps(bs, ops, i - 1);
      match ops[i - 1]
      case SendOp(t, value, wait, at) => SendKeeps(bs[i - 1], t, value, wait, at);
      case UrgentOp(value) => UrgentKeeps(bs[i - 1], value);
      case RecvOp(t, wait, at) => RecvKeeps(bs[i - 1], t, wait, at);
      case TimeoutOp(t) => TimedOutKeeps(bs[i - 1].w, |bs[i - 1].mails|, bs[i - 1].size - |bs[i - 1].mails|, t);
    }
  }

  /** How often a step puts `x` in, less how often it takes it out. */
  function Delta(b: Box, op: Op, x: nat): int
    requires Enabled(b, op)
  {
    match op
    case SendOp(t, value, wait, at) => if value == x && Send(b, t, value, wait, at).0.Done? then 1 else 0
    case UrgentOp(value) => if value == x && Urgent(b, value).0.Done? then 1 else 0
    case RecvOp(t, wait, at) => if Recv(b, t, wait, at).0 == Done(x) then -1 else 0
    case TimeoutOp(_) => 0
  }

  lemma StepDelta(b: Box, op: Op, x: nat)
    requires Enabled(b, op)
    ensures multiset(Step(b, op).mails)[x] == multiset(b.mails)[x] + Delta(b, op, x)
  {
    hide WakeReceiver, WakeSender, BlockSender, BlockReceiver, SenderRan, ReceiverRan, TimedOut;
    match op
    case SendOp(t, value, wait, at) => OneMore(b.mails, value, x);
    case UrgentOp(value) => OneMore(b.mails, value, x);
    case RecvOp(t, wait, at) =>
      if b.mails != [] {
        assert b.mails == [b.mails[0]] + b.mails[1..];
        OneMore(b.mails[1..], b.mails[0], x);
      }
    case TimeoutOp(_) =>
  }

  lemma OneMore(l: seq<nat>, v: nat, x: nat)
    ensures multiset(l + [v])[x] == multiset([v] + l)[x] == multiset(l)[x] + (if v == x then 1 else 0)
  {
  }

  /** The same over the first `i` steps of a run. */
  function Flow(bs: seq<Box>, ops: seq<Op>, i: nat, x: nat): int
    requires i <= |ops| && |bs| == |ops| + 1 && (forall k :: 0 <= k < |ops| ==> Enabled(bs[k], ops[k]))
  {
    if i == 0 then 0 else Flow(bs, ops, i - 1, x) + Delta(bs[i - 1], ops[i - 1], x)
  }

  /** Nothing is lost or invented: what went in and did not come out is in the box. */
  lemma {:induction false} MailsConserved(bs: seq<Box>, ops: seq<Op>, i: nat, x: nat)
    requires IsRun(bs, ops) && i <= |ops|
    ensures multiset(bs[i].mails)[x] == Flow(bs, ops, i, x)
  {
    hide Delta, Step;
    if i > 0 {
      MailsConserved(bs, ops, i - 1, x);
      StepDelta(bs[i - 1], ops[i - 1], x);
    }
  }

  // ---------------------------------------------------------------- order of mails

  /** What the caller of a step is told. */
  datatype Told = Accepted | Gave(value: nat) | Full | Empty | Suspended | Nothing

  function Answer(b: Box, op: Op): Told
    requires Enabled(b, op)
  {
    match op
    case SendOp(t, value, wait, at) =>
      (match Send(b, t, value, wait, at).0 case Done(_) => Accepted case Refused => Full case Blocked => Told.Suspended)
    case UrgentOp(value) => if Urgent(b, value).0.Done? then Accepted else Full
    case RecvOp(t, wait, at) =>
      (match Recv(b, t, wait, at).0 case Done(v) => Gave(v) case Refused => Empty case Blocked => Told.Suspended)
    case TimeoutOp(_) => Nothing
  }

  /** A send is refused or suspends exactly at a full box, a receive at an empty one; an item
      or room that comes up resumes the first waiter; a suspended caller is on the list. */
  lemma AnswerMeans(b: Box, op: Op)
    requires Inv(b) && Enabled(b, op)
    ensures var r, told := Step(b, op), Answer(b, op);
      match op
      case SendOp(t, v, wait, at) =>
        && told == (if |b.mails| < b.size then Accepted else if wait then Told.Suspended else Full)
        && (told.Accepted? ==> WakesFirst(b.w.receivers, b.w.wokenR, r.w.receivers, r.w.wokenR))
        && (told.Suspended? ==> r.w.senders == b.w.senders[..at] + [t] + b.w.senders[at..])
        && (!told.Suspended? ==> r.w.senders == b.w.senders && r.w.wokenS == b.w.wokenS - {t})
      case UrgentOp(v) =>
        && told == (if |b.mails| < b.size then Accepted else Full)
        && (told.Accepted? ==> WakesFirst(b.w.receivers, b.w.wokenR, r.w.receivers, r.w.wokenR))
      case RecvOp(t, wait, at) =>
        && told == (if b.mails != [] then Gave(b.mails[0]) else if wait then Told.Suspended else Empty)
        && (told.Gave? ==> WakesFirst(b.w.senders, b.w.wokenS, r.w.senders, r.w.wokenS))
        && (told.Suspended? ==> r.w.receivers == b.w.receivers[..at] + [t] + b.w.receivers[at..])
        && (!told.Suspended? ==> r.w.receivers == b.w.receivers && r.w.wokenR == b.w.wokenR - {t})
      case TimeoutOp(t) => r.mails == b.mails && t !in r.w.receivers && t !in r.w.senders
  {
  }

  /** A deque that only sees operations and answers. */
  function Delivered(mails: seq<nat>, op: Op, told: Told): seq<nat> {
    match op
    case SendOp(_, value, _, _) => if told.Accepted? then mails + [value] else mails
    case UrgentOp(value) => if told.Accepted? then [value] + mails else mails
    case RecvOp(_, _, _) => if told.Gave? && mails != [] then mails[1..] else mails
    case TimeoutOp(_) => mails
  }

  /** The same over the first `i` steps of a run. */
  function Replay(bs: seq<Box>, ops: seq<Op>, i: nat): seq<nat>
    requires i <= |ops| && |bs| == |ops| + 1 && (forall k :: 0 <= k < |ops| ==> Enabled(bs[k], ops[k]))
  {
    if i == 0 then [] else Delivered(Replay(bs, ops, i - 1), ops[i - 1], Answer(bs[i - 1], ops[i - 1]))
  }

  lemma StepDelivers(b: Box, op: Op)
    requires Enabled(b, op)
    ensures Step(b, op).mails == Delivered(b.mails, op, Answer(b, op))
    ensures Answer(b, op).Gave? ==> b.mails != [] && Answer(b, op).value == b.mails[0]
  {
    hide WakeReceiver, WakeSender, BlockSender, BlockReceiver, SenderRan, ReceiverRan, TimedOut;
  }

  /** In every run the box holds what the deque holds, and every mail received was at its front. */
  lemma {:induction false} HoldsTheDeque(bs: seq<Box>, ops: seq<Op>, i: nat)
    requires IsRun(bs, ops) && i <= |ops|
    ensures bs[i].mails == Replay(bs, ops, i)
    ensures i < |ops| && Answer(bs[i], ops[i]).Gave? ==>
      Replay(bs, ops, i) != [] && Answer(bs[i], ops[i]).value == Replay(bs, ops, i)[0]
  {
    hide Answer, Delivered, Step;
    if i > 0 {
      HoldsTheDeque(bs, ops, i - 1);
      StepDelivers(bs[i - 1], ops[i - 1]);
    }
    if i < |ops| { StepDelivers(bs[i], ops[i]); }
  }

  /** The values accepted from senders, and those given to receivers, in order. */
  function Sent(bs: seq<Box>, ops: seq<Op>, i: nat): seq<nat>
    requires i <= |ops| && |bs| == |ops| + 1 && (forall k :: 0 <= k < |ops| ==> Enabled(bs[k], ops[k]))
  {
    if i == 0 then [] else Sent(bs, ops, i - 1) + SentBy(ops[i - 1], Answer(bs[i - 1], ops[i - 1]))
  }

  function Received(bs: seq<Box>, ops: seq<Op>, i: nat): seq<nat>
    requires i <= |ops| && |bs| == |ops| + 1 && (forall k :: 0 <= k < |ops| ==> Enabled(bs[k], ops[k]))
  {
    if i == 0 then [] else Received(bs, ops, i - 1) + ReceivedBy(Answer(bs[i - 1], ops[i - 1]))
  }

  function SentBy(op: Op, told: Told): seq<nat> { if op.SendOp? && told.Accepted? then [op.value] else [] }

  function ReceivedBy(told: Told): seq<nat> { if told.Gave? then [told.value] else [] }

  lemma OneDelivery(b: Box, op: Op)
    requires Enabled(b, op) && !op.UrgentOp?
    ensures b.mails + SentBy(op, Answer(b, op)) == ReceivedBy(Answer(b, op)) + Step(b, op).mails
  {
    StepDelivers(b, op);
    hide Step;
  }

  /** Without urgent mails receivers get exactly the values sent, in the order in which they
      were accepted; the rest is in the box. */
  lemma {:induction false} ReceivedInOrder(bs: seq<Box>, ops: seq<Op>, i: nat)
    requires IsRun(bs, ops) && i <= |ops| && (forall k :: 0 <= k < |ops| ==> !ops[k].UrgentOp?)
    ensures Sent(bs, ops, i) == Received(bs, ops, i) + bs[i].mails
  {
    hide Answer, Step, SentBy, ReceivedBy;
    if i > 0 {
      ReceivedInOrder(bs, ops, i - 1);
      var b, op := bs[i - 1], ops[i - 1];
      OneDelivery(b, op);
      Regroup(Sent(bs, ops, i - 1), Received(bs, ops, i - 1), b.mails, SentBy(op, Answer(b, op)), ReceivedBy(Answer(b, op)), Step(b, op).mails);
    }
  }

  /** No wake-up is lost in any run: when every resumed thread has run again, no receiver
      waits at a non-empty box and no sender at one with room. */
  lemma NobodyWaitsInVain(bs: seq<Box>, ops: seq<Op>, i: nat)
    requires IsRun(bs, ops) && i <= |ops|
    ensures bs[i].w.wokenR == {} ==> bs[i].w.receivers == [] || bs[i].mails == []
    ensures bs[i].w.wokenS == {} ==> bs[i].w.senders == [] || |bs[i].mails| == bs[i].size
  {
    RunKeeps(bs, ops, i);
    NobodyForgotten(bs[i].w, |bs[i].mails|, bs[i].size - |bs[i].mails|);
  }

  // ---------------------------------------------------------------- the ring

  /** The slot `k` places behind `out`. */
  function Slot(size: nat, out: nat, k: nat): int { if out + k < size then out + k else out + k - size }

  ghost predicate RingOk(size: nat, out: nat, entry: nat, input: nat) {
    && entry <= size && (out < size || (size == 0 && out == 0))
    && input == Slot(size, out, entry)
  }

  ghost predicate Holds(pool: seq<nat>, out: nat, mails: seq<nat>) {
    && |mails| <= |pool| && (out < |pool| || (pool == [] && out == 0))
    && forall k :: 0 <= k < |mails| ==> mails[k] == pool[Slot(|pool|, out, k)]
  }

  lemma Appended(pool: seq<nat>, out: nat, mails: seq<nat>, input: nat, value: nat)
    requires Holds(pool, out, mails) && RingOk(|pool|, out, |mails|, input) && |mails| < |pool|
    ensures input < |pool| && Holds(pool[input := value], out, mails + [value])
    ensures RingOk(|pool|, out, |mails| + 1, if input + 1 >= |pool| then 0 else input + 1)
  {
  }

  lemma Prepended(pool: seq<nat>, out: nat, mails: seq<nat>, input: nat, value: nat, before: int)
    requires Holds(pool, out, mails) && RingOk(|pool|, out, |mails|, input) && |mails| < |pool|
    requires before == if out > 0 then out - 1 else |pool| - 1
    ensures 0 <= before < |pool| && Holds(pool[before := value], before, [value] + mails)
    ensures RingOk(|pool|, before, |mails| + 1, input)
  {
    var mails' := [value] + mails;
    forall k | 0 <= k < |mails'| ensures mails'[k] == pool[before := value][Slot(|pool|, before, k)] {
      if k > 0 { assert mails'[k] == mails[k - 1]; }
    }
  }

  lemma Popped(pool: seq<nat>, out: nat, mails: seq<nat>, input: nat)
    requires Holds(pool, out, mails) && RingOk(|pool|, out, |mails|, input) && mails != []
    ensures out < |pool| && pool[out] == mails[0]
    ensures var out' := if out + 1 >= |pool| then 0 else out + 1;
      Holds(pool, out', mails[1..]) && RingOk(|pool|, out', |mails| - 1, input)
  {
  }

  class Mailbox {
    const size: nat
    const pool: array<nat>
    var entry: nat
    var inOffset: nat
    var outOffset: nat
    var w: Waiting
    ghost var mails: seq<nat>

    ghost function B(): Box
      reads this
    {
      Box(size, mails, w)
    }

    /** The contents are the `entry` slots from `outOffset` on, round the end of the pool. */
    ghost predicate Valid()
      reads this, pool
    {
      && pool.Length == size <= ENTRY_MAX && entry == |mails|
      && RingOk(size, outOffset, entry, inOffset) && Holds(pool[..], outOffset, mails)
      && Inv(B())
    }

    /** `rt_mb_init`. */
    constructor (size: nat)
      requires size <= ENTRY_MAX
      ensures Valid() && fresh(pool) && B() == Box(size, [], Waiting([], [], {}, {}))
    {
      this.size := size;
      pool := new nat[size];
      entry, inOffset, outOffset := 0, 0, 0;
      w := Waiting([], [], {}, {});
      mails := [];
    }

    /** "set ptr" and "increase input offset". */
    method PutBehind(value: nat)
      requires pool.Length == size && entry == |mails| < size
      requires RingOk(size, outOffset, entry, inOffset) && Holds(pool[..], outOffset, mails)
      modifies this`inOffset, this`mails, pool
      ensures RingOk(size, outOffset, entry + 1, inOffset) && Holds(pool[..], outOffset, mails)
      ensures mails == old(mails) + [value]
    {
      hide Holds, RingOk;
      ghost var before := pool[..];
      Appended(before, outOffset, mails, inOffset, value);
      pool[inOffset] := value;
      assert pool[..] == before[inOffset := value];
      inOffset := inOffset + 1;
      if inOffset >= size {
        inOffset := 0;
      }
      mails := mails + [value];
    }

    /** One pass of `_rt_mb_send_wait`.  The entry counter cannot overflow. */
    method TrySend(t: nat, value: nat, wait: bool, place: nat) returns (r: Reply<()>)
      requires Valid() && RunsSender(w, t) && place <= |w.senders|
      modifies this`entry, this`inOffset, this`w, this`mails, pool
      ensures Valid() && (r, B()) == Send(old(B()), t, value, wait, place)
    {
      SendKeeps(B(), t, value, wait, place);
      assert entry <= size;
      hide Inv, Holds, RingOk, InsertAt, BlockReceiver, BlockSender, ReceiverRan, SenderRan, WakeReceiver, WakeSender;
      if entry == size {
        if !wait {
          w := SenderRan(w, t);
          return Refused;
        }
        w := BlockSender(w, t, place);
        return Blocked;
      }
      w := SenderRan(w, t);
      PutBehind(value);
      assert entry < ENTRY_MAX;
      entry := entry + 1;
      w := WakeReceiver(w);
      r := Done(());
    }

    /** "rewind to the previous position" and store there. */
    method PutBefore(value: nat)
      requires pool.Length == size && entry == |mails| < size
      requires RingOk(size, outOffset, entry, inOffset) && Holds(pool[..], outOffset, mails)
      modifies this`outOffset, this`mails, pool
      ensures RingOk(size, outOffset, entry + 1, inOffset) && Holds(pool[..], outOffset, mails)
      ensures mails == [value] + old(mails)
    {
      hide Holds, RingOk;
      ghost var before, out := pool[..], outOffset;
      if outOffset > 0 {
        outOffset := outOffset - 1;
      } else {
        outOffset := size - 1;
      }
      Prepended(before, out, mails, inOffset, value, outOffset);
      pool[outOffset] := value;
      assert pool[..] == before[outOffset := value];
      mails := [value] + mails;
    }

    /** `rt_mb_urgent`. */
    method TryUrgent(value: nat) returns (r: Reply<()>)
      requires Valid()
      modifies this`entry, this`outOffset, this`w, this`mails, pool
      ensures Valid() && (r, B()) == Urgent(old(B()), value)
    {
      UrgentKeeps(B(), value);
      assert entry <= size;
      hide Inv, Holds, RingOk, WakeReceiver;
      if entry == size {
        return Refused;
      }
      PutBefore(value);
      entry := entry + 1;
      w := WakeReceiver(w);
      r := Done(());
    }

    /** "fill ptr" and "increase output offset". */
    method TakeFront() returns (value: nat)
      requires pool.Length == size && entry == |mails| > 0
      requires RingOk(size, outOffset, entry, inOffset) && Holds(pool[..], outOffset, mails)
      modifies this`outOffset, this`mails
      ensures RingOk(size, outOffset, entry - 1, inOffset) && Holds(pool[..], outOffset, mails)
      ensures value == old(mails)[0] && mails == old(mails)[1..]
    {
      hide Holds, RingOk;
      Popped(pool[..], outOffset, mails, inOffset);
      value := pool[outOffset];
      outOffset := outOffset + 1;
      if outOffset >= size {
        outOffset := 0;
      }
      mails := mails[1..];
    }

    /** One pass of `_rt_mb_recv`. */
    method TryRecv(t: nat, wait: bool, place: nat) returns (r: Reply<nat>)
      requires Valid() && RunsReceiver(w, t) && place <= |w.receivers|
      modifies this`entry, this`outOffset, this`w, this`mails
      ensures Valid() && (r, B()) == Recv(old(B()), t, wait, place)
    {
      RecvKeeps(B(), t, wait, place);
      hide Inv, Holds, RingOk, InsertAt, BlockReceiver, BlockSender, ReceiverRan, SenderRan, WakeReceiver, WakeSender;
      if entry == 0 {
        if !wait {
          w := ReceiverRan(w, t);
          return Refused;
        }
        w := BlockReceiver(w, t, place);
        return Blocked;
      }
      w := ReceiverRan(w, t);
      var value := TakeFront();
      entry := entry - 1;
      w := WakeSender(w);
      r := Done(value);
    }
  }
}
