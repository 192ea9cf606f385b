/** Every step of every thread keeps the invariant of the queue protocol. */
module QueueInvariant {
  import opened Bits
  import opened QueueProtocol

  lemma InitInv<V>(cap: nat)
    requires IsPow2(cap) && cap >= 2
    ensures Inv(Init<V>(cap))
  {
    var s := Init<V>(cap);
    forall i | 0 <= i < cap ensures SlotOk(s, i) {
      FirstLap(cap, i);
    }
  }

  /** The part of the invariant about the history of tickets. */
  ghost predicate TicketsOk<V>(s: State<V>)
    requires Shape(s)
  {
    && (forall k | k in s.pusher :: PusherOk(s, k))
    && (forall k | k in s.popper :: PopperOk(s, k))
    && (forall k: nat :: DeliveredOk(s, k))
  }

  /** Moving one thread between two places that own nothing. */
  lemma GotoInv<V>(s: State<V>, t: Tid, pc: Pc<V>)
    requires Inv(s)
    requires t in s.threads ==> !Owning(s.threads[t])
    requires ThreadOk(Goto(s, t, pc), t)
    ensures Inv(Goto(s, t, pc))
  {
    var s' := Goto(s, t, pc);
    forall i | 0 <= i < s'.cap ensures SlotOk(s', i) { assert SlotOk(s, i); }
    forall u | u in s'.threads ensures ThreadOk(s', u) {
      if u != t { assert ThreadOk(s, u); }
    }
    GotoTickets(s, t, pc);
  }

  lemma GotoTickets<V>(s: State<V>, t: Tid, pc: Pc<V>)
    requires Shape(s) && TicketsOk(s) && (t in s.threads ==> !Owning(s.threads[t]))
    ensures TicketsOk(Goto(s, t, pc))
  {
    var s' := Goto(s, t, pc);
    forall k | k in s'.pusher ensures PusherOk(s', k) { assert PusherOk(s, k); }
    forall k | k in s'.popper ensures PopperOk(s', k) { assert PopperOk(s, k); }
    forall k: nat ensures DeliveredOk(s', k) { assert DeliveredOk(s, k); }
  }

  /** Between the winning compare-and-swap and the releasing store. */
  predicate Owning<V>(pc: Pc<V>) {
    pc.PushWrite? || pc.PushPublish? || pc.PopRead? || pc.PopRelease?
  }

  lemma PushLoadInv<V>(s: State<V>, t: Tid)
    requires Inv(s) && t in s.threads && s.threads[t].PushLoad?
    ensures Inv(StepThread(s, t, false))
  {
    var PushLoad(v, next) := s.threads[t];
    var index := s.index[SlotOf(s.cap, next)];
    assert ThreadOk(s, t);
    if next == index {
      IndexEqualsNext(s, next);
    } else if index > next {
      IndexAboveNext(s, next);
    }
    GotoInv(s, t, PushDecide(v, next, index));
  }

  lemma PopLoadInv<V>(s: State<V>, t: Tid)
    requires Inv(s) && t in s.threads && s.threads[t].PopLoad?
    ensures Inv(StepThread(s, t, false))
  {
    var next := s.threads[t].next;
    var index := s.index[SlotOf(s.cap, next)];
    assert ThreadOk(s, t);
    if next + 1 == index {
      IndexEqualsNextPlusOne(s, next);
    } else if index > next + 1 {
      IndexAboveNextPlusOne(s, next);
    }
    GotoInv(s, t, PopDecide(next, index));
  }

  /** The slot of a ticket about to be won serves that very ticket. */
  lemma WinnableTicket<V>(s: State<V>, t: Tid)
    requires Inv(s) && t in s.threads && s.threads[t].PushCas? && s.threads[t].next == s.enq
    ensures s.ticket[SlotOf(s.cap, s.enq)] == s.enq
    ensures s.enq < s.deq + s.cap
  {
    assert ThreadOk(s, t);
    TicketLap(s, s.enq);
    assert SlotOk(s, SlotOf(s.cap, s.enq));
  }

  /** Only the slot of the ticket just won changes its stage. */
  lemma WinPushSlot<V>(s: State<V>, t: Tid, v: V, i: nat)
    requires Shape(s) && IsPow2(s.cap) && i < s.cap && SlotOk(s, i)
    requires s.ticket[SlotOf(s.cap, s.enq)] == s.enq && s.deq <= s.enq
    ensures SlotOk(WinPush(s, t, v), i)
  {
    if s.ticket[i] + s.cap == s.enq {
      NextLap(s.cap, s.ticket[i]);
    }
  }

  lemma WinPushThread<V>(s: State<V>, t: Tid, v: V, u: Tid)
    requires Inv(s) && t in s.threads && s.threads[t] == PushCas(v, s.enq) && u in s.threads
    ensures ThreadOk(WinPush(s, t, v), u)
  {
    WinnableTicket(s, t);
    assert ThreadOk(s, u);
  }

  lemma WinPushInv<V>(s: State<V>, t: Tid, v: V)
    requires Inv(s) && t in s.threads && s.threads[t] == PushCas(v, s.enq)
    ensures Inv(WinPush(s, t, v))
  {
    var s' := WinPush(s, t, v);
    WinnableTicket(s, t);
    forall i | 0 <= i < s'.cap ensures SlotOk(s', i) {
      assert SlotOk(s, i);
      WinPushSlot(s, t, v, i);
    }
    forall u | u in s'.threads ensures ThreadOk(s', u) { WinPushThread(s, t, v, u); }
    WinPushTickets(s, t, v);
  }

  lemma WinPushTickets<V>(s: State<V>, t: Tid, v: V)
    requires Shape(s) && TicketsOk(s) && t in s.threads && s.threads[t] == PushCas(v, s.enq) && s.deq <= s.enq
    ensures TicketsOk(WinPush(s, t, v))
  {
    var s' := WinPush(s, t, v);
    forall k | k in s'.pusher ensures PusherOk(s', k) {
      if k != s.enq { assert PusherOk(s, k); }
    }
    forall k | k in s'.popper ensures PopperOk(s', k) { assert PopperOk(s, k); }
    forall k: nat ensures DeliveredOk(s', k) { assert DeliveredOk(s, k); }
  }

  lemma WriteSlot<V>(s: State<V>, t: Tid, i: nat)
    requires Inv(s) && t in s.threads && s.threads[t].PushWrite? && i < s.cap
    ensures SlotOk(StepThread(s, t, false), i)
  {
    assert ThreadOk(s, t);
    assert SlotOk(s, i);
  }

  lemma WriteThread<V>(s: State<V>, t: Tid, u: Tid)
    requires Inv(s) && t in s.threads && s.threads[t].PushWrite? && u in s.threads
    ensures ThreadOk(StepThread(s, t, false), u)
  {
    assert ThreadOk(s, t);
    assert ThreadOk(s, u);
  }

  lemma WriteInv<V>(s: State<V>, t: Tid)
    requires Inv(s) && t in s.threads && s.threads[t].PushWrite?
    ensures Inv(StepThread(s, t, false))
  {
    var PushWrite(v, next) := s.threads[t];
    var s' := StepThread(s, t, false);
    assert ThreadOk(s, t);
    forall i | 0 <= i < s'.cap ensures SlotOk(s', i) { WriteSlot(s, t, i); }
    forall u | u in s'.threads ensures ThreadOk(s', u) { WriteThread(s, t, u); }
    forall k | k in s'.pusher ensures PusherOk(s', k) { assert PusherOk(s, k); }
    forall k | k in s'.popper ensures PopperOk(s', k) { assert PopperOk(s, k); }
    forall k: nat ensures DeliveredOk(s', k) { assert DeliveredOk(s, k); }
  }

  lemma PublishSlot<V>(s: State<V>, t: Tid, i: nat)
    requires Inv(s) && t in s.threads && s.threads[t].PushPublish? && i < s.cap
    ensures SlotOk(StepThread(s, t, false), i)
  {
    assert ThreadOk(s, t);
    assert SlotOk(s, i);
  }

  lemma PublishThread<V>(s: State<V>, t: Tid, u: Tid)
    requires Inv(s) && t in s.threads && s.threads[t].PushPublish? && u in s.threads
    ensures ThreadOk(StepThread(s, t, false), u)
  {
    assert ThreadOk(s, t);
    assert ThreadOk(s, u);
  }

  lemma PublishInv<V>(s: State<V>, t: Tid)
    requires Inv(s) && t in s.threads && s.threads[t].PushPublish?
    ensures Inv(StepThread(s, t, false))
  {
    var PushPublish(v, next) := s.threads[t];
    var s' := StepThread(s, t, false);
    assert ThreadOk(s, t);
    forall i | 0 <= i < s'.cap ensures SlotOk(s', i) { PublishSlot(s, t, i); }
    forall u | u in s'.threads ensures ThreadOk(s', u) { PublishThread(s, t, u); }
    forall k | k in s'.pusher ensures PusherOk(s', k) { assert PusherOk(s, k); }
    forall k | k in s'.popper ensures PopperOk(s', k) { assert PopperOk(s, k); }
    forall k: nat ensures DeliveredOk(s', k) { assert DeliveredOk(s, k); }
  }

  /** A published ticket that is next to be taken is in its slot. */
  lemma TakeableTicket<V>(s: State<V>, t: Tid)
    requires Inv(s) && t in s.threads && s.threads[t].PopCas? && s.threads[t].next == s.deq
    ensures s.ticket[SlotOf(s.cap, s.deq)] == s.deq && StatusOf(s, s.deq) == Published
    ensures s.data[SlotOf(s.cap, s.deq)] == Holds(s.log[s.deq])
  {
    assert ThreadOk(s, t);
    TicketLap(s, s.deq);
    assert SlotOk(s, SlotOf(s.cap, s.deq));
  }

  lemma WinPopSlot<V>(s: State<V>, t: Tid, i: nat)
    requires Inv(s) && t in s.threads && s.threads[t] == PopCas(s.deq) && i < s.cap
    ensures SlotOk(WinPop(s, t), i)
  {
    TakeableTicket(s, t);
    assert SlotOk(s, i);
  }

  lemma WinPopThread<V>(s: State<V>, t: Tid, u: Tid)
    requires Inv(s) && t in s.threads && s.threads[t] == PopCas(s.deq) && u in s.threads
    ensures ThreadOk(WinPop(s, t), u)
  {
    TakeableTicket(s, t);
    assert ThreadOk(s, u);
  }

  lemma WinPopInv<V>(s: State<V>, t: Tid)
    requires Inv(s) && t in s.threads && s.threads[t] == PopCas(s.deq)
    ensures Inv(WinPop(s, t))
  {
    var s' := WinPop(s, t);
    TakeableTicket(s, t);
    forall i | 0 <= i < s'.cap ensures SlotOk(s', i) { WinPopSlot(s, t, i); }
    forall u | u in s'.threads ensures ThreadOk(s', u) { WinPopThread(s, t, u); }
    WinPopTickets(s, t);
  }

  lemma WinPopTickets<V>(s: State<V>, t: Tid)
    requires Shape(s) && TicketsOk(s) && t in s.threads && s.threads[t] == PopCas(s.deq)
    requires s.deq < s.enq && s.deq !in s.pusher
    ensures TicketsOk(WinPop(s, t))
  {
    var s' := WinPop(s, t);
    forall k | k in s'.pusher ensures PusherOk(s', k) { assert PusherOk(s, k); }
    forall k | k in s'.popper ensures PopperOk(s', k) {
      if k != s.deq { assert PopperOk(s, k); }
    }
    forall k: nat ensures DeliveredOk(s', k) { assert DeliveredOk(s, k); }
  }

  lemma ReadSlot<V>(s: State<V>, t: Tid, i: nat)
    requires Inv(s) && t in s.threads && s.threads[t].PopRead? && i < s.cap
    ensures SlotOk(StepThread(s, t, false), i)
  {
    assert ThreadOk(s, t);
    assert SlotOk(s, i);
  }

  lemma ReadThread<V>(s: State<V>, t: Tid, u: Tid)
    requires Inv(s) && t in s.threads && s.threads[t].PopRead? && u in s.threads
    ensures ThreadOk(StepThread(s, t, false), u)
  {
    assert ThreadOk(s, t);
    assert ThreadOk(s, u);
  }

  lemma ReadInv<V>(s: State<V>, t: Tid)
    requires Inv(s) && t in s.threads && s.threads[t].PopRead?
    ensures Inv(StepThread(s, t, false))
  {
    var s' := StepThread(s, t, false);
    assert ThreadOk(s, t);
    forall i | 0 <= i < s'.cap ensures SlotOk(s', i) { ReadSlot(s, t, i); }
    forall u | u in s'.threads ensures ThreadOk(s', u) { ReadThread(s, t, u); }
    forall k | k in s'.pusher ensures PusherOk(s', k) { assert PusherOk(s, k); }
    forall k | k in s'.popper ensures PopperOk(s', k) { assert PopperOk(s, k); }
    forall k: nat ensures DeliveredOk(s', k) { assert DeliveredOk(s, k); }
  }

  /** The released slot now serves the ticket one lap later, which nobody has claimed. */
  lemma ReleasedSlot<V>(s: State<V>, t: Tid, next: nat, out: Cell<V>)
    requires Shape(s) && IsPow2(s.cap) && SlotOk(s, SlotOf(s.cap, next))
    requires s.ticket[SlotOf(s.cap, next)] == next < s.deq
    ensures SlotOk(Release(s, t, next, out), SlotOf(s.cap, next))
  {
    NextLap(s.cap, next);
  }

  lemma OtherSlot<V>(s: State<V>, t: Tid, next: nat, out: Cell<V>, i: nat)
    requires Inv(s) && i < s.cap && i != SlotOf(s.cap, next)
    ensures SlotOk(Release(s, t, next, out), i)
  {
    assert SlotOk(s, i);
    var s' := Release(s, t, next, out);
    assert StatusOf(s', s.ticket[i]) == StatusOf(s, s.ticket[i]);
  }

  lemma ReleaseThread<V>(s: State<V>, t: Tid, u: Tid)
    requires Inv(s) && t in s.threads && s.threads[t].PopRelease? && u in s.threads
    ensures ThreadOk(StepThread(s, t, false), u)
  {
    assert ThreadOk(s, t);
    assert ThreadOk(s, u);
  }

  lemma ReleaseInv<V>(s: State<V>, t: Tid)
    requires Inv(s) && t in s.threads && s.threads[t].PopRelease?
    ensures Inv(StepThread(s, t, false))
  {
    var PopRelease(next, out) := s.threads[t];
    var s' := Release(s, t, next, out);
    assert ThreadOk(s, t);
    forall i | 0 <= i < s'.cap ensures SlotOk(s', i) {
      assert SlotOk(s, i);
      if i == SlotOf(s.cap, next) { ReleasedSlot(s, t, next, out); } else { OtherSlot(s, t, next, out, i); }
    }
    forall u | u in s'.threads ensures ThreadOk(s', u) { ReleaseThread(s, t, u); }
    ReleaseTickets(s, t, next, out);
  }

  lemma ReleaseTickets<V>(s: State<V>, t: Tid, next: nat, out: Cell<V>)
    requires Shape(s) && TicketsOk(s) && t in s.threads && s.threads[t] == PopRelease(next, out)
    requires PopOwns(s, t, next) && out == Holds(s.log[next])
    ensures TicketsOk(Release(s, t, next, out))
  {
    var s' := Release(s, t, next, out);
    forall k | k in s'.pusher ensures PusherOk(s', k) { assert PusherOk(s, k); }
    forall k | k in s'.popper ensures PopperOk(s', k) { assert PopperOk(s, k); }
    forall k: nat ensures DeliveredOk(s', k) { assert DeliveredOk(s, k); }
  }

  lemma PushCasInv<V>(s: State<V>, t: Tid, weak: bool)
    requires Inv(s) && t in s.threads && s.threads[t].PushCas?
    ensures Inv(StepThread(s, t, weak))
  {
    var PushCas(v, next) := s.threads[t];
    if s.enq == next && !weak { WinPushInv(s, t, v); } else { GotoInv(s, t, PushLoad(v, s.enq)); }
  }

  lemma PushStepInv<V>(s: State<V>, t: Tid, weak: bool)
    requires Inv(s) && t in s.threads
    requires var pc := s.threads[t];
             pc.PushStart? || pc.PushLoad? || pc.PushCas? || pc.PushReload? || pc.PushWrite? || pc.PushPublish?
    ensures Inv(StepThread(s, t, weak))
  {
    match s.threads[t]
    case PushStart(v) => GotoInv(s, t, PushLoad(v, s.enq));
    case PushLoad(_, _) => PushLoadInv(s, t);
    case PushCas(_, _) => PushCasInv(s, t, weak);
    case PushReload(v, _) => GotoInv(s, t, PushLoad(v, s.enq));
    case PushWrite(_, _) => WriteInv(s, t);
    case PushPublish(_, _) => PublishInv(s, t);
  }

  lemma PopCasInv<V>(s: State<V>, t: Tid, weak: bool)
    requires Inv(s) && t in s.threads && s.threads[t].PopCas?
    ensures Inv(StepThread(s, t, weak))
  {
    if s.deq == s.threads[t].next && !weak { WinPopInv(s, t); } else { GotoInv(s, t, PopLoad(s.deq)); }
  }

  lemma PopStepInv<V>(s: State<V>, t: Tid, weak: bool)
    requires Inv(s) && t in s.threads
    requires var pc := s.threads[t];
             pc.PopStart? || pc.PopLoad? || pc.PopCas? || pc.PopReload? || pc.PopRead? || pc.PopRelease?
    ensures Inv(StepThread(s, t, weak))
  {
    match s.threads[t]
    case PopStart => GotoInv(s, t, PopLoad(s.deq));
    case PopLoad(_) => PopLoadInv(s, t);
    case PopCas(_) => PopCasInv(s, t, weak);
    case PopReload(_) => GotoInv(s, t, PopLoad(s.deq));
    case PopRead(_) => ReadInv(s, t);
    case PopRelease(_, _) => ReleaseInv(s, t);
  }

  /** The invariant is inductive. */
  lemma StepInv<V>(s: State<V>, t: Tid, weak: bool)
    requires Inv(s) && t in s.threads
    ensures Inv(StepThread(s, t, weak))
  {
    match s.threads[t]
    case Idle | PushReturn(_, _, _) | PopReturn(_, _, _) =>
    case PushStart(_) | PushLoad(_, _) | PushCas(_, _) | PushReload(_, _) | PushWrite(_, _) | PushPublish(_, _) =>
      PushStepInv(s, t, weak);
    case PopStart | PopLoad(_) | PopCas(_) | PopReload(_) | PopRead(_) | PopRelease(_, _) =>
      PopStepInv(s, t, weak);
  }

  lemma ApplyInv<V>(s: State<V>, a: Action<V>)
    requires Inv(s)
    ensures Inv(Apply(s, a))
  {
    match a
    case CallPush(t, v) => if CanCall(s, t) { GotoInv(s, t, PushStart(v)); }
    case CallPop(t) => if CanCall(s, t) { GotoInv(s, t, PopStart); }
    case Step(t, weak) => if t in s.threads { StepInv(s, t, weak); }
  }

  lemma {:induction false} ExecInv<V>(s: State<V>, acts: seq<Action<V>>)
    requires Inv(s)
    ensures Inv(Exec(s, acts))
  {
    if acts != [] {
      ExecInv(s, acts[..|acts| - 1]);
      ApplyInv(Exec(s, acts[..|acts| - 1]), acts[|acts| - 1]);
    }
  }
}
