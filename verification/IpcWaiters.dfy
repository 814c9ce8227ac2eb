/** Threads waiting on a buffer with two suspend lists: receivers for something to take,
    senders for room.  A resumed thread looks at the buffer again when it next runs. */
module IpcWaiters {
  import opened Common

  /** `wokenR` and `wokenS` are resumed threads that have not run yet. */
  datatype Waiting = Waiting(receivers: seq<nat>, senders: seq<nat>, wokenR: set<nat>, wokenS: set<nat>)

  /** What one region under the object's lock tells its caller. */
  datatype Reply<+T> = Done(value: T) | Refused | Blocked

  ghost predicate Apart(w: Waiting) {
    && NoDup(w.receivers) && NoDup(w.senders)
    && (forall t :: t in w.receivers ==> t !in w.wokenR)
    && (forall t :: t in w.senders ==> t !in w.wokenS)
  }

  /** No wake-up is lost: while receivers wait, every item is spoken for by a receiver that
      was resumed and has yet to run; likewise for senders and room. */
  ghost predicate Awake(w: Waiting, items: nat, room: nat) {
    && Apart(w)
    && (w.receivers != [] ==> items <= |w.wokenR|)
    && (w.senders != [] ==> room <= |w.wokenS|)
  }

  /** Once every resumed thread has run, nobody waits for what is there. */
  lemma NobodyForgotten(w: Waiting, items: nat, room: nat)
    requires Awake(w, items, room)
    ensures w.wokenR == {} ==> w.receivers == [] || items == 0
    ensures w.wokenS == {} ==> w.senders == [] || room == 0
  {
  }

  /** `rt_susp_list_enqueue` at the place its flag asks for. */
  function InsertAt(l: seq<nat>, at: nat, t: nat): seq<nat>
    requires at <= |l|
  {
    l[..at] + [t] + l[at..]
  }

  lemma InsertAtKeeps(l: seq<nat>, at: nat, t: nat)
    requires at <= |l| && NoDup(l) && t !in l
    ensures NoDup(InsertAt(l, at, t)) && InsertAt(l, at, t) != []
    ensures forall x :: x in InsertAt(l, at, t) <==> x == t || x in l
  {
    var r := InsertAt(l, at, t);
    assert forall i :: 0 <= i < |r| ==> r[i] == if i < at then l[i] else if i == at then t else l[i - 1];
    forall x | x == t || x in l ensures x in r {
      if x == t { assert r[at] == t; } else {
        var i :| 0 <= i < |l| && l[i] == x;
        assert r[if i < at then i else i + 1] == x;
      }
    }
  }

  /** A receiver or sender that is not suspended runs, resumed or for the first time. */
  predicate RunsReceiver(w: Waiting, t: nat) { t !in w.receivers }

  predicate RunsSender(w: Waiting, t: nat) { t !in w.senders }

  function BlockReceiver(w: Waiting, t: nat, at: nat): Waiting
    requires at <= |w.receivers|
  {
    w.(receivers := InsertAt(w.receivers, at, t), wokenR := w.wokenR - {t})
  }

  function BlockSender(w: Waiting, t: nat, at: nat): Waiting
    requires at <= |w.senders|
  {
    w.(senders := InsertAt(w.senders, at, t), wokenS := w.wokenS - {t})
  }

  /** `rt_susp_list_dequeue` on either list, if it is not empty. */
  function WakeReceiver(w: Waiting): Waiting {
    if w.receivers == [] then w else w.(receivers := w.receivers[1..], wokenR := w.wokenR + {w.receivers[0]})
  }

  function WakeSender(w: Waiting): Waiting {
    if w.senders == [] then w else w.(senders := w.senders[1..], wokenS := w.wokenS + {w.senders[0]})
  }

  function ReceiverRan(w: Waiting, t: nat): Waiting { w.(wokenR := w.wokenR - {t}) }

  function SenderRan(w: Waiting, t: nat): Waiting { w.(wokenS := w.wokenS - {t}) }

  /** An item or room came up: the first waiter is resumed. */
  ghost predicate WakesFirst(before: seq<nat>, woken: set<nat>, after: seq<nat>, woken': set<nat>) {
    if before == [] then after == [] && woken' == woken else after == before[1..] && woken' == woken + {before[0]}
  }

  /** Timer expiry takes a thread off its list. */
  function TimedOut(w: Waiting, t: nat): Waiting {
    w.(receivers := Remove(w.receivers, t), senders := Remove(w.senders, t))
  }

  /** `rt_susp_list_resume_all` with an error on both lists: these threads give up. */
  function AllReleased(w: Waiting): Waiting { w.(receivers := [], senders := []) }

  lemma CardRemove(s: set<nat>, t: nat)
    ensures |s - {t}| >= |s| - 1
    ensures t !in s ==> s - {t} == s
  {
    if t in s { assert s == (s - {t}) + {t}; } else { assert s - {t} == s; }
  }

  lemma CardAdd(s: set<nat>, t: nat)
    requires t !in s
    ensures |s + {t}| == |s| + 1
  {
  }

  lemma BlockReceiverKeeps(w: Waiting, room: nat, t: nat, at: nat)
    requires Awake(w, 0, room) && RunsReceiver(w, t) && at <= |w.receivers|
    ensures Awake(BlockReceiver(w, t, at), 0, room)
  {
    InsertAtKeeps(w.receivers, at, t);
  }

  lemma BlockSenderKeeps(w: Waiting, items: nat, t: nat, at: nat)
    requires Awake(w, items, 0) && RunsSender(w, t) && at <= |w.senders|
    ensures Awake(BlockSender(w, t, at), items, 0)
  {
    InsertAtKeeps(w.senders, at, t);
  }

  /** One more item, and the first waiting receiver resumed for it. */
  lemma WakeReceiverKeeps(w: Waiting, items: nat, room: nat)
    requires Awake(w, items, room)
    ensures Awake(WakeReceiver(w), items + 1, room)
  {
    if w.receivers != [] {
      assert w.receivers[0] in w.receivers;
      CardAdd(w.wokenR, w.receivers[0]);
    }
  }

  lemma WakeSenderKeeps(w: Waiting, items: nat, room: nat)
    requires Awake(w, items, room)
    ensures Awake(WakeSender(w), items, room + 1)
  {
    if w.senders != [] {
      assert w.senders[0] in w.senders;
      CardAdd(w.wokenS, w.senders[0]);
    }
  }

  /** A receiver that runs takes one item. */
  lemma ReceiverRanKeeps(w: Waiting, items: nat, room: nat, t: nat)
    requires Awake(w, items, room) && items > 0
    ensures Awake(ReceiverRan(w, t), items - 1, room)
  {
    CardRemove(w.wokenR, t);
  }

  lemma SenderRanKeeps(w: Waiting, items: nat, room: nat, t: nat)
    requires Awake(w, items, room) && room > 0
    ensures Awake(SenderRan(w, t), items, room - 1)
  {
    CardRemove(w.wokenS, t);
  }

  /** One that runs and finds nothing leaves with its wake-up. */
  lemma RanInVain(w: Waiting, items: nat, room: nat, t: nat)
    requires Awake(w, items, room)
    ensures items == 0 ==> Awake(ReceiverRan(w, t), items, room)
    ensures room == 0 ==> Awake(SenderRan(w, t), items, room)
  {
  }

  lemma FewerKeeps(w: Waiting, items: nat, room: nat)
    requires Awake(w, items, room) && room > 0
    ensures Awake(w, items, room - 1)
  {
  }

  lemma TimedOutKeeps(w: Waiting, items: nat, room: nat, t: nat)
    requires Awake(w, items, room)
    ensures Awake(TimedOut(w, t), items, room)
  {
    RemoveNoDup(w.receivers, t);
    RemoveNoDup(w.senders, t);
  }
}
