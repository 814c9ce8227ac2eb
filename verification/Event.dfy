/** Event sets of `ipc.c`: broadcast wake-up of threads waiting for all or any of their bits. */
module Event {
  import opened Bits

  /** RT_EVENT_FLAG_AND, _OR and _CLEAR. */
  datatype Flags = Flags(and: bool, or: bool, clear: bool)

  /** `event_set` and `event_info` of a suspended thread. */
  datatype Waiter = Waiter(thread: nat, mask: bv32, f: Flags)

  datatype EventSet = EventSet(bits: bv32, waiters: seq<Waiter>)

  datatype Reply = Done(recved: bv32) | Error | TimedOut | Blocked

  /** AND goes before OR when both are given. */
  predicate Satisfied(bits: bv32, mask: bv32, f: Flags) {
    if f.and then And(bits, mask) == mask else f.or && And(bits, mask) != 0
  }

  /** The set a woken thread receives and, with CLEAR, consumes. */
  function Received(bits: bv32, w: Waiter): bv32 { if w.f.and then w.mask else And(w.mask, bits) }

  // ---------------------------------------------------------------- one send, all waiters

  /** The waiters a send with resulting set `bits` wakes, with what they receive; in list order. */
  function Woken(ws: seq<Waiter>, bits: bv32): seq<Waiter> {
    if ws == [] then []
    else
      var rest, w := ws[..|ws| - 1], ws[|ws| - 1];
      Woken(rest, bits) + if Satisfied(bits, w.mask, w.f) then [w.(mask := Received(bits, w))] else []
  }

  function Remaining(ws: seq<Waiter>, bits: bv32): seq<Waiter> {
    if ws == [] then []
    else
      var rest, w := ws[..|ws| - 1], ws[|ws| - 1];
      Remaining(rest, bits) + if Satisfied(bits, w.mask, w.f) then [] else [w]
  }

  /** The union of what woken waiters with CLEAR consume. */
  function Consumed(ws: seq<Waiter>, bits: bv32): bv32 {
    if ws == [] then 0
    else
      var rest, w := ws[..|ws| - 1], ws[|ws| - 1];
      if Satisfied(bits, w.mask, w.f) && w.f.clear then Or(Consumed(rest, bits), Received(bits, w)) else Consumed(rest, bits)
  }

  /** `rt_event_send`: whether it went through, the woken threads, the new state. */
  function Send(e: EventSet, sent: bv32): (bool, seq<Waiter>, EventSet) {
    if sent == 0 then (false, [], e)
    else
      var bits := Or(e.bits, sent);
      (true, Woken(e.waiters, bits), EventSet(AndNot(bits, Consumed(e.waiters, bits)), Remaining(e.waiters, bits)))
  }

  /** One pass of `_rt_event_recv`. */
  function Recv(e: EventSet, t: nat, mask: bv32, f: Flags, wait: bool, at: nat): (Reply, EventSet)
    requires at <= |e.waiters|
  {
    if mask == 0 then (Error, e)
    else if Satisfied(e.bits, mask, f) then (Done(And(e.bits, mask)), if f.clear then e.(bits := AndNot(e.bits, mask)) else e)
    else if !wait then (TimedOut, e)
    else (Blocked, e.(waiters := e.waiters[..at] + [Waiter(t, mask, f)] + e.waiters[at..]))
  }

  // ---------------------------------------------------------------- what they keep

  /** No thread waits for what is already there. */
  ghost predicate Inv(e: EventSet) {
    forall i :: 0 <= i < |e.waiters| ==>
      (e.waiters[i].f.and || e.waiters[i].f.or) && !Satisfied(e.bits, e.waiters[i].mask, e.waiters[i].f)
  }

  /** Clearing bits satisfies nobody. */
  lemma ClearingSatisfiesNobody(bits: bv32, clear: bv32, mask: bv32, f: Flags)
    requires !Satisfied(bits, mask, f)
    ensures !Satisfied(AndNot(bits, clear), mask, f)
  {
    assert bits & !clear & mask == mask ==> bits & mask == mask;
    assert bits & mask == 0 ==> bits & !clear & mask == 0;
  }

  /** Exactly the waiters not satisfied by the uncleared set stay, in order. */
  lemma {:induction false} RemainingAre(ws: seq<Waiter>, bits: bv32)
    ensures forall w :: w in Remaining(ws, bits) <==> w in ws && !Satisfied(bits, w.mask, w.f)
  {
    hide Satisfied;
    if ws != [] {
      var rest, w := ws[..|ws| - 1], ws[|ws| - 1];
      assert ws == rest + [w];
      RemainingAre(rest, bits);
    }
  }

  /** A thread is woken exactly if the uncleared set satisfies it, and gets the bits it asked for. */
  lemma {:induction false} WokenAre(ws: seq<Waiter>, bits: bv32)
    ensures forall v :: v in Woken(ws, bits) <==> exists w :: w in ws && Satisfied(bits, w.mask, w.f) && v == w.(mask := Received(bits, w))
  {
    hide Satisfied, Received;
    if ws != [] {
      var rest, w := ws[..|ws| - 1], ws[|ws| - 1];
      assert ws == rest + [w];
      WokenAre(rest, bits);
    }
  }

  /** Waiters left keep their order, and so do the woken ones. */
  lemma {:induction false} OrderStays(a: seq<Waiter>, b: seq<Waiter>, bits: bv32)
    ensures Remaining(a + b, bits) == Remaining(a, bits) + Remaining(b, bits)
    ensures Woken(a + b, bits) == Woken(a, bits) + Woken(b, bits)
  {
    hide Satisfied, Received;
    if b == [] {
      assert a + b == a;
    } else {
      var rest, w := b[..|b| - 1], b[|b| - 1];
      OrderStays(a, rest, bits);
      assert (a + b)[..|a + b| - 1] == a + rest && (a + b)[|a + b| - 1] == w;
    }
  }

  lemma {:induction false} EveryoneOnce(ws: seq<Waiter>, bits: bv32)
    ensures |Woken(ws, bits)| + |Remaining(ws, bits)| == |ws|
  {
    hide Satisfied;
    if ws != [] { EveryoneOnce(ws[..|ws| - 1], bits); }
  }

  /** A bit is consumed exactly if a woken waiter with CLEAR received it. */
  lemma {:induction false} ConsumedAre(ws: seq<Waiter>, bits: bv32, b: nat)
    requires b < 32
    ensures Bit(Consumed(ws, bits), b) <==>
            exists w :: w in ws && Satisfied(bits, w.mask, w.f) && w.f.clear && Bit(Received(bits, w), b)
  {
    if ws == [] {
      NoBits(b);
    } else {
      var rest, w := ws[..|ws| - 1], ws[|ws| - 1];
      assert ws == rest + [w];
      ConsumedAre(rest, bits, b);
      OrBit(Consumed(rest, bits), Received(bits, w), b);
      hide Satisfied, Received, Bit, Or;
    }
  }

  lemma NoBits(b: nat)
    requires b < 32
    ensures !Bit(0, b)
  {
  }

  lemma OrBit(x: bv32, y: bv32, b: nat)
    requires b < 32
    ensures Bit(Or(x, y), b) <==> Bit(x, b) || Bit(y, b)
  {
    hide Mask, Or, And;
    OrUnder(x, y, Mask(b));
    OrIsZero(And(x, Mask(b)), And(y, Mask(b)));
  }

  lemma OrUnder(x: bv32, y: bv32, m: bv32)
    ensures And(Or(x, y), m) == Or(And(x, m), And(y, m))
  {
  }

  lemma OrIsZero(a: bv32, b: bv32)
    ensures Or(a, b) == 0 <==> a == 0 && b == 0
  {
  }

  lemma AndNotBit(x: bv32, y: bv32, b: nat)
    requires b < 32
    ensures Bit(AndNot(x, y), b) <==> Bit(x, b) && !Bit(y, b)
  {
    hide Mask, AndNot, And;
    WholeOrNone(y, b);
    AndNotUnder(x, y, Mask(b));
  }

  /** A mask of one bit meets a word in all of it or in nothing. */
  lemma WholeOrNone(x: bv32, b: nat)
    requires b < 32
    ensures Mask(b) != 0 && (And(x, Mask(b)) == 0 || And(x, Mask(b)) == Mask(b))
  {
  }

  lemma AndNotUnder(x: bv32, y: bv32, m: bv32)
    ensures And(y, m) == 0 ==> And(AndNot(x, y), m) == And(x, m)
    ensures And(y, m) == m ==> And(AndNot(x, y), m) == 0
  {
  }

  /** One send: all waiters are judged by the same uncleared set, and only then the bits
      consumed by woken CLEAR waiters go. */
  lemma SendMeans(e: EventSet, sent: bv32, b: nat)
    requires b < 32
    ensures (Send(e, sent).0 <==> sent != 0) && (sent == 0 ==> Send(e, sent) == (false, [], e))
    ensures sent != 0 ==> var bits := Or(e.bits, sent); var (ok, woken, r) := Send(e, sent);
      && |woken| + |r.waiters| == |e.waiters|
      && (forall w :: w in r.waiters <==> w in e.waiters && !Satisfied(bits, w.mask, w.f))
      && (forall v :: v in woken <==> exists w :: w in e.waiters && Satisfied(bits, w.mask, w.f) && v == w.(mask := Received(bits, w)))
      && (Bit(r.bits, b) <==> ((Bit(e.bits, b) || Bit(sent, b))
            && !exists w :: w in e.waiters && Satisfied(bits, w.mask, w.f) && w.f.clear && Bit(Received(bits, w), b)))
  {
    var bits := Or(e.bits, sent);
    hide Satisfied, Received, Bit, Or, AndNot, Consumed, Woken, Remaining;
    EveryoneOnce(e.waiters, bits);
    RemainingAre(e.waiters, bits);
    WokenAre(e.waiters, bits);
    ConsumedAre(e.waiters, bits, b);
    OrBit(e.bits, sent, b);
    AndNotBit(bits, Consumed(e.waiters, bits), b);
  }

  lemma AndBit(x: bv32, y: bv32, b: nat)
    requires b < 32
    ensures Bit(And(x, y), b) <==> Bit(x, b) && Bit(y, b)
  {
    hide Mask, And;
    WholeOrNone(y, b);
    AndUnder(x, y, Mask(b));
  }

  lemma AndUnder(x: bv32, y: bv32, m: bv32)
    ensures And(y, m) == 0 ==> And(And(x, y), m) == 0
    ensures And(y, m) == m ==> And(And(x, y), m) == And(x, m)
  {
  }

  lemma AllOf(bits: bv32, mask: bv32)
    ensures Or(And(bits, mask), AndNot(mask, bits)) == mask
    ensures Or(And(bits, mask), 0) == And(bits, mask)
  {
  }

  /** AND wants every bit of the mask, OR one of them; AND decides if both are given. */
  lemma SatisfiedMeans(bits: bv32, mask: bv32, f: Flags)
    ensures f.and ==> (Satisfied(bits, mask, f) <==> forall b: nat :: b < 32 && Bit(mask, b) ==> Bit(bits, b))
    ensures !f.and && f.or ==> (Satisfied(bits, mask, f) <==> exists b: nat :: b < 32 && Bit(mask, b) && Bit(bits, b))
    ensures !f.and && !f.or ==> !Satisfied(bits, mask, f)
  {
    hide Mask, And, AndNot, Or, Bit;
    AllOf(bits, mask);
    ZeroIff(AndNot(mask, bits));
    ZeroIff(And(bits, mask));
    forall b: nat | b < 32
      ensures Bit(AndNot(mask, bits), b) <==> Bit(mask, b) && !Bit(bits, b)
      ensures Bit(And(bits, mask), b) <==> Bit(bits, b) && Bit(mask, b)
    {
      AndNotBit(mask, bits, b);
      AndBit(bits, mask, b);
    }
    if And(bits, mask) == mask {
      assert forall b: nat :: b < 32 && Bit(mask, b) ==> Bit(bits, b);
    }
  }

  /** A satisfied waiter receives exactly the bits of its mask that are set. */
  lemma ReceivedMeans(bits: bv32, w: Waiter, b: nat)
    requires b < 32 && Satisfied(bits, w.mask, w.f)
    ensures Bit(Received(bits, w), b) <==> Bit(w.mask, b) && Bit(bits, b)
  {
    SatisfiedMeans(bits, w.mask, w.f);
    AndBit(w.mask, bits, b);
    hide Bit, And, Satisfied;
  }

  /** One receive: nothing for an empty mask; a satisfied one gets exactly the bits of its mask
      that are set and, with CLEAR, takes the bits of its mask out; any other is refused or
      suspended with the set as it is. */
  lemma RecvMeans(e: EventSet, t: nat, mask: bv32, f: Flags, wait: bool, at: nat, b: nat)
    requires at <= |e.waiters| && b < 32
    ensures var (reply, r) := Recv(e, t, mask, f, wait, at); var met := Satisfied(e.bits, mask, f);
      && (reply.Error? <==> mask == 0) && (reply.Done? <==> mask != 0 && met)
      && (reply.TimedOut? <==> mask != 0 && !met && !wait) && (reply.Blocked? <==> mask != 0 && !met && wait)
      && (reply.Done? ==>
            && (Bit(reply.recved, b) <==> Bit(e.bits, b) && Bit(mask, b))
            && (Bit(r.bits, b) <==> Bit(e.bits, b) && !(f.clear && Bit(mask, b)))
            && r.waiters == e.waiters)
      && (reply.Blocked? ==> r == e.(waiters := e.waiters[..at] + [Waiter(t, mask, f)] + e.waiters[at..]))
      && (reply.Error? || reply.TimedOut? ==> r == e)
  {
    AndBit(e.bits, mask, b);
    AndNotBit(e.bits, mask, b);
    hide Satisfied, Bit, And, AndNot;
  }

  lemma SendKeeps(e: EventSet, sent: bv32)
    requires Inv(e)
    ensures Inv(Send(e, sent).2)
  {
    hide Satisfied, AndNot, Or;
    if sent != 0 {
      var bits, r := Or(e.bits, sent), Send(e, sent).2;
      RemainingAre(e.waiters, bits);
      forall i | 0 <= i < |r.waiters|
        ensures (r.waiters[i].f.and || r.waiters[i].f.or) && !Satisfied(r.bits, r.waiters[i].mask, r.waiters[i].f)
      {
        assert r.waiters[i] in r.waiters;
        ClearingSatisfiesNobody(bits, Consumed(e.waiters, bits), r.waiters[i].mask, r.waiters[i].f);
      }
    }
  }

  lemma RecvKeeps(e: EventSet, t: nat, mask: bv32, f: Flags, wait: bool, at: nat)
    requires Inv(e) && (f.and || f.or) && at <= |e.waiters|
    ensures Inv(Recv(e, t, mask, f, wait, at).1)
  {
    hide Satisfied, AndNot;
    forall i | 0 <= i < |e.waiters| ensures !Satisfied(AndNot(e.bits, mask), e.waiters[i].mask, e.waiters[i].f) {
      ClearingSatisfiesNobody(e.bits, mask, e.waiters[i].mask, e.waiters[i].f);
    }
  }

  // ---------------------------------------------------------------- runs

  datatype Op =
    | SendOp(sent: bv32)
    | RecvOp(t: nat, mask: bv32, f: Flags, wait: bool, at: nat)
    | TimeoutOp(i: nat)

  /** Every receive gives AND or OR. */
  predicate Enabled(e: EventSet, op: Op) {
    match op
    case SendOp(_) => true
    case RecvOp(_, _, f, _, at) => (f.and || f.or) && at <= |e.waiters|
    case TimeoutOp(i) => i < |e.waiters|
  }

  function Step(e: EventSet, op: Op): EventSet
    requires Enabled(e, op)
  {
    match op
    case SendOp(sent) => Send(e, sent).2
    case RecvOp(t, mask, f, wait, at) => Recv(e, t, mask, f, wait, at).1
    case TimeoutOp(i) => e.(waiters := e.waiters[..i] + e.waiters[i + 1..])
  }

  ghost predicate IsRun(es: seq<EventSet>, ops: seq<Op>) {
    && |es| == |ops| + 1 && es[0].waiters == []
    && forall i :: 0 <= i < |ops| ==> Enabled(es[i], ops[i]) && es[i + 1] == Step(es[i], ops[i])
  }

  /** No wake-up is lost: in no run does a thread stay suspended on an event whose current
      set satisfies it. */
  lemma {:induction false} NobodyLeftWaiting(es: seq<EventSet>, ops: seq<Op>, i: nat)
    requires IsRun(es, ops) && i <= |ops|
    ensures Inv(es[i])
  {
    hide Satisfied;
    if i > 0 {
      NobodyLeftWaiting(es, ops, i - 1);
      match ops[i - 1]
      case SendOp(sent) => SendKeeps(es[i - 1], sent);
      case RecvOp(t, mask, f, wait, at) => RecvKeeps(es[i - 1], t, mask, f, wait, at);
      case TimeoutOp(k) =>
    }
  }

  // ---------------------------------------------------------------- the object

  class Event {
    var current: bv32
    var waiters: seq<Waiter>

    ghost function E(): EventSet
      reads this
    {
      EventSet(current, waiters)
    }

    ghost predicate Valid()
      reads this
    {
      Inv(E())
    }

    constructor ()
      ensures Valid() && E() == EventSet(0, [])
    {
      current := 0;
      waiters := [];
    }

    /** The loop over the suspend list. */
    method WakeWaiters() returns (woken: seq<Waiter>, needClear: bv32)
      modifies this`waiters
      ensures waiters == Remaining(old(waiters), current) && woken == Woken(old(waiters), current)
      ensures needClear == Consumed(old(waiters), current)
    {
      hide Satisfied, Received, Or, Woken, Remaining, Consumed, Looked;
      ghost var ws, rest := waiters, waiters;
      ghost var kept: seq<Waiter> := [];
      woken, needClear := [], 0;
      NobodyYet(ws, current);
      var n := 0;
      while n < |waiters|
        invariant |rest| <= |ws| && rest == ws[|ws| - |rest|..] && n == |kept| && waiters == kept + rest
        invariant Looked(ws, current, |ws| - |rest|, kept, woken, needClear)
        decreases |rest|
      {
        var w := waiters[n];
        Behind(ws, rest);
        LookedNext(ws, current, |ws| - |rest|, kept, woken, needClear);
        CutOut(kept, w, rest);
        if Satisfied(current, w.mask, w.f) {
          if w.f.clear {
            needClear := Or(needClear, Received(current, w));
          }
          woken := woken + [w.(mask := Received(current, w))];
          waiters := waiters[..n] + waiters[n + 1..];
        } else {
          n := n + 1;
          kept := kept + [w];
        }
        rest := rest[1..];
      }
      assert rest == [] && ws[..|ws|] == ws && kept + rest == kept;
      LookedAll(ws, current, kept, woken, needClear);
    }

    /** `rt_event_send`; the branch for a waiter with neither AND nor OR is never taken. */
    method SendEvent(s: bv32) returns (ok: bool, woken: seq<Waiter>)
      requires Valid()
      modifies this
      ensures Valid() && (ok, woken, E()) == Send(old(E()), s)
    {
      SendKeeps(E(), s);
      hide Inv, Satisfied, Received, Or, AndNot, Woken, Remaining, Consumed;
      if s == 0 {
        return false, [];
      }
      current := Or(current, s);
      var needClear;
      woken, needClear := WakeWaiters();
      NothingCleared(current);
      if needClear != 0 {
        current := AndNot(current, needClear);
      }
      ok := true;
    }

    /** One pass of `_rt_event_recv`. */
    method RecvEvent(t: nat, mask: bv32, f: Flags, wait: bool, place: nat) returns (r: Reply)
      requires Valid() && (f.and || f.or) && place <= |waiters|
      modifies this
      ensures Valid() && (r, E()) == Recv(old(E()), t, mask, f, wait, place)
    {
      RecvKeeps(E(), t, mask, f, wait, place);
      hide And, AndNot, Inv;
      if mask == 0 {
        return Error;
      }
      var status := false;
      if f.and {
        status := And(current, mask) == mask;
      } else if f.or {
        status := And(current, mask) != 0;
      }
      if status {
        r := Done(And(current, mask));
        if f.clear {
          current := AndNot(current, mask);
        }
      } else if !wait {
        r := TimedOut;
      } else {
        waiters := waiters[..place] + [Waiter(t, mask, f)] + waiters[place..];
        r := Blocked;
      }
    }
  }

  /** What the first `k` waiters amount to. */
  ghost predicate Looked(ws: seq<Waiter>, bits: bv32, k: int, kept: seq<Waiter>, woken: seq<Waiter>, needClear: bv32) {
    && 0 <= k <= |ws|
    && kept == Remaining(ws[..k], bits) && woken == Woken(ws[..k], bits) && needClear == Consumed(ws[..k], bits)
  }

  lemma NobodyYet(ws: seq<Waiter>, bits: bv32)
    ensures Looked(ws, bits, 0, [], [], 0) && ws[0..] == ws
  {
  }

  /** One more waiter looked at. */
  lemma NextWaiter(ws: seq<Waiter>, bits: bv32, k: nat)
    requires k < |ws|
    ensures var w := ws[k]; var s := Satisfied(bits, w.mask, w.f);
      && Remaining(ws[..k + 1], bits) == Remaining(ws[..k], bits) + (if s then [] else [w])
      && Woken(ws[..k + 1], bits) == Woken(ws[..k], bits) + (if s then [w.(mask := Received(bits, w))] else [])
      && Consumed(ws[..k + 1], bits) == if s && w.f.clear then Or(Consumed(ws[..k], bits), Received(bits, w)) else Consumed(ws[..k], bits)
  {
    hide Satisfied, Received, Or;
    assert ws[..k + 1][..k] == ws[..k] && ws[..k + 1] != [];
  }

  lemma LookedNext(ws: seq<Waiter>, bits: bv32, k: nat, kept: seq<Waiter>, woken: seq<Waiter>, needClear: bv32)
    requires k < |ws| && Looked(ws, bits, k, kept, woken, needClear)
    ensures var w := ws[k];
      if Satisfied(bits, w.mask, w.f) then
        Looked(ws, bits, k + 1, kept, woken + [w.(mask := Received(bits, w))], if w.f.clear then Or(needClear, Received(bits, w)) else needClear)
      else Looked(ws, bits, k + 1, kept + [w], woken, needClear)
  {
    hide Satisfied, Received, Or, Woken, Remaining, Consumed;
    NextWaiter(ws, bits, k);
    assert Remaining(ws[..k], bits) + [] == kept;
  }

  lemma LookedAll(ws: seq<Waiter>, bits: bv32, kept: seq<Waiter>, woken: seq<Waiter>, needClear: bv32)
    requires Looked(ws, bits, |ws|, kept, woken, needClear)
    ensures kept == Remaining(ws, bits) && woken == Woken(ws, bits) && needClear == Consumed(ws, bits)
  {
    assert ws[..|ws|] == ws;
  }

  lemma Behind(ws: seq<Waiter>, rest: seq<Waiter>)
    requires 0 < |rest| <= |ws| && rest == ws[|ws| - |rest|..]
    ensures rest[0] == ws[|ws| - |rest|] && rest[1..] == ws[|ws| - |rest| + 1..]
  {
  }

  /** The node after a prefix, taken out or passed over. */
  lemma CutOut(kept: seq<Waiter>, w: Waiter, rest: seq<Waiter>)
    requires rest != [] && rest[0] == w
    ensures (kept + rest)[..|kept|] + (kept + rest)[|kept| + 1..] == kept + rest[1..]
    ensures kept + rest == (kept + [w]) + rest[1..]
  {
  }

  lemma NothingCleared(bits: bv32)
    ensures AndNot(bits, 0) == bits
  {
  }
}
