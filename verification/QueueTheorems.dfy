/** What the queue protocol guarantees over every run. */
module QueueTheorems {
  import opened Bits
  import opened QueueProtocol
  import opened QueueInvariant
  import opened BoundedFifo

  /** Some interleaving of calls and steps leads a fresh queue to `s`. The capacity is a power
      of two, as the constructor asserts, and at least 2. */
  ghost predicate Reachable<V(!new)>(s: State<V>) {
    && IsPow2(s.cap) && s.cap >= 2
    && exists acts: seq<Action<V>> :: s == Exec(Init<V>(s.cap), acts)
  }

  lemma ReachableInv<V(!new)>(s: State<V>)
    requires Reachable(s)
    ensures Inv(s)
  {
    var acts: seq<Action<V>> :| s == Exec(Init<V>(s.cap), acts);
    InitInv<V>(s.cap);
    ExecInv(Init<V>(s.cap), acts);
  }

  /** Reachability is closed under every action, so a theorem about reachable states speaks
      about all states of all runs. */
  lemma ReachableStep<V(!new)>(s: State<V>, a: Action<V>)
    requires Reachable(s)
    ensures Shape(s) && Reachable(Apply(s, a))
  {
    ReachableInv(s);
    var acts: seq<Action<V>> :| s == Exec(Init<V>(s.cap), acts);
    var all := acts + [a];
    assert all[..|all| - 1] == acts;
    assert Apply(s, a) == Exec(Init<V>(s.cap), all);
  }

  // ---------------------------------------------------------------------
  // Conservation and order of the data
  // ---------------------------------------------------------------------

  /** No loss, no duplicate, ticket order: tickets `0..enq` were won by one Push each and
      tickets `0..deq` by one Pop each; a Pop that returned delivered exactly the value of
      the Push with its ticket, and a won ticket without a delivery is still in the hands of
      exactly one thread. */
  lemma FifoDelivery<V(!new)>(s: State<V>)
    requires Reachable(s)
    ensures s.deq <= s.enq == |s.log| && s.enq <= s.deq + s.cap
    ensures forall k | k in s.delivered :: k < s.deq && s.delivered[k] == Holds(s.log[k])
    ensures forall k: nat | k < s.deq :: k in s.delivered <==> k !in s.popper
    ensures forall k | k in s.popper :: PopperOk(s, k)
    ensures forall k | k in s.pusher :: PusherOk(s, k)
  {
    ReachableInv(s);
    CountersBounded(s);
    forall k | k in s.delivered ensures k < s.deq && s.delivered[k] == Holds(s.log[k]) {
      assert DeliveredOk(s, k);
    }
    forall k: nat | k < s.deq ensures k in s.delivered <==> k !in s.popper {
      assert DeliveredOk(s, k);
    }
  }

  /** What a caller gets: a `Push` that returned true has its value logged under the ticket it
      won, and a `Pop` that returned true hands over the logged value of the ticket it won. */
  lemma ReturnsItsTicket<V(!new)>(s: State<V>, t: Tid)
    requires Reachable(s) && t in s.threads
    ensures |s.log| == s.enq
    ensures var pc := s.threads[t];
            && (pc.PushReturn? && pc.ok ==> pc.next < s.enq && s.log[pc.next] == pc.v)
            && (pc.PopReturn? && pc.ok ==>
                  && pc.next < s.deq <= s.enq && pc.next in s.delivered
                  && s.delivered[pc.next] == pc.out == Holds(s.log[pc.next]))
  {
    ReachableInv(s);
    assert ThreadOk(s, t);
    if s.threads[t].PopReturn? && s.threads[t].ok {
      assert DeliveredOk(s, s.threads[t].next);
    }
  }

  lemma CountersBounded<V>(s: State<V>)
    requires Inv(s)
    ensures s.enq <= s.deq + s.cap
  {
    TicketLap(s, s.deq);
    assert SlotOk(s, SlotOf(s.cap, s.deq));
  }

  /** What one step can do to the history: the logged and the delivered values are final, and
      a counter moves by one only when a thread at its compare-and-swap wins a fresh ticket. */
  ghost predicate HistoryStep<V>(s: State<V>, a: Action<V>, s': State<V>) {
    && s.log <= s'.log && s.deq <= s'.deq && s.enq <= s'.enq
    && (forall k | k in s.delivered :: k in s'.delivered && s'.delivered[k] == s.delivered[k])
    && (s'.enq != s.enq ==>
          && a.Step? && a.t in s.threads && s.threads[a.t].PushCas? && s.enq !in s.pusher
          && a.t in s'.threads && s'.threads[a.t] == PushWrite(s.threads[a.t].v, s.enq)
          && s'.enq == s.enq + 1 && s'.log == s.log + [s.threads[a.t].v])
    && (s'.deq != s.deq ==>
          && a.Step? && a.t in s.threads && s.threads[a.t].PopCas? && s.deq !in s.popper
          && a.t in s'.threads && s'.threads[a.t] == PopRead(s.deq)
          && s'.deq == s.deq + 1)
  }

  lemma TicketsAreFinal<V(!new)>(s: State<V>, a: Action<V>)
    requires Reachable(s)
    ensures Shape(s) && HistoryStep(s, a, Apply(s, a))
  {
    ReachableInv(s);
    StepIsFinal(s, a);
  }

  lemma StepIsFinal<V>(s: State<V>, a: Action<V>)
    requires Inv(s)
    ensures HistoryStep(s, a, Apply(s, a))
  {
    forall k | k in s.pusher ensures k != s.enq { assert PusherOk(s, k); }
    forall k | k in s.popper ensures k != s.deq { assert PopperOk(s, k); }
    if a.Step? && a.t in s.threads && s.threads[a.t].PopRelease? {
      assert ThreadOk(s, a.t);
      assert DeliveredOk(s, s.threads[a.t].next);
      assert s.threads[a.t].next !in s.delivered;
    }
    StepHistory(s, a);
  }

  lemma StepHistory<V>(s: State<V>, a: Action<V>)
    requires Shape(s) && s.enq !in s.pusher && s.deq !in s.popper
    requires a.Step? && a.t in s.threads && s.threads[a.t].PopRelease? ==> s.threads[a.t].next !in s.delivered
    ensures HistoryStep(s, a, Apply(s, a))
  {
    if a.Step? && a.t in s.threads {
      var s' := Apply(s, a);
      match s.threads[a.t]
      case PushCas(v, next) =>
      case PopCas(next) =>
      case _ => assert s'.enq == s.enq && s'.deq == s.deq && s'.log == s.log;
    }
  }

  /** The ticket a thread has won is not below these counters. */
  ghost predicate WonAfter<V>(s: State<V>, t: Tid, enq: nat, deq: nat) {
    && enq <= s.enq && deq <= s.deq
    && (t in s.threads ==>
          var pc := s.threads[t];
          && (pc.PushWrite? || pc.PushPublish? ==> enq <= pc.next)
          && (pc.PopRead? || pc.PopRelease? ==> deq <= pc.next))
  }

  /** First come, first served in real time: a thread that was outside any call when the
      counters stood at `enq` and `deq` never wins a ticket below them later, so calls that
      completed before it was called come first in ticket order. */
  lemma {:induction false} RealTimeOrder<V(!new)>(s: State<V>, later: seq<Action<V>>, t: Tid)
    requires Reachable(s) && CanCall(s, t)
    ensures Shape(s) && WonAfter(Exec(s, later), t, s.enq, s.deq)
  {
    ReachableInv(s);
    WonLater(s, later, t);
  }

  lemma {:induction false} WonLater<V>(s: State<V>, later: seq<Action<V>>, t: Tid)
    requires Inv(s) && CanCall(s, t)
    ensures WonAfter(Exec(s, later), t, s.enq, s.deq)
  {
    if later != [] {
      var prefix := later[..|later| - 1];
      WonLater(s, prefix, t);
      ExecInv(s, prefix);
      WonStep(Exec(s, prefix), later[|later| - 1], t, s.enq, s.deq);
    }
  }

  lemma WonStep<V>(s: State<V>, a: Action<V>, t: Tid, enq: nat, deq: nat)
    requires Inv(s) && WonAfter(s, t, enq, deq)
    ensures WonAfter(Apply(s, a), t, enq, deq)
  {
    StepIsFinal(s, a);
    match a
    case CallPush(_, _) =>
    case CallPop(_) =>
    case Step(u, weak) =>
      if u == t && t in s.threads { OwnWin(s, t, weak); }
  }

  /** A thread enters its critical section with the ticket the counter showed. */
  lemma OwnWin<V>(s: State<V>, t: Tid, weak: bool)
    requires Shape(s) && t in s.threads
    ensures var pc, pc' := s.threads[t], StepThread(s, t, weak).threads[t];
            && (pc'.PushWrite? ==> pc'.next == s.enq)
            && (pc'.PushPublish? ==> pc.PushWrite? && pc'.next == pc.next)
            && (pc'.PopRead? ==> pc'.next == s.deq)
            && (pc'.PopRelease? ==> pc.PopRead? && pc'.next == pc.next)
  {
    var pc := s.threads[t];
    if pc.PushStart? || pc.PushLoad? || pc.PushCas? || pc.PushReload? || pc.PushWrite? || pc.PushPublish? {
      OwnPush(s, t, weak);
    } else {
      OwnPop(s, t, weak);
    }
  }

  lemma OwnPush<V>(s: State<V>, t: Tid, weak: bool)
    requires Shape(s) && t in s.threads
    requires var pc := s.threads[t];
             pc.PushStart? || pc.PushLoad? || pc.PushCas? || pc.PushReload? || pc.PushWrite? || pc.PushPublish?
    ensures var pc, pc' := s.threads[t], StepThread(s, t, weak).threads[t];
            && (pc'.PushWrite? ==> pc'.next == s.enq)
            && (pc'.PushPublish? ==> pc.PushWrite? && pc'.next == pc.next)
            && !pc'.PopRead? && !pc'.PopRelease?
  {
    var pc' := StepThread(s, t, weak).threads[t];
    match s.threads[t]
    case PushStart(v) => assert pc' == PushLoad(v, s.enq);
    case PushReload(v, _) => assert pc' == PushLoad(v, s.enq);
    case PushLoad(v, next) => assert pc' == PushDecide(v, next, s.index[SlotOf(s.cap, next)]);
    case PushCas(v, next) => assert pc' == if s.enq == next && !weak then PushWrite(v, s.enq) else PushLoad(v, s.enq);
    case PushWrite(v, next) => assert pc' == PushPublish(v, next);
    case PushPublish(v, next) => assert pc' == PushReturn(true, v, next);
  }

  lemma OwnPop<V>(s: State<V>, t: Tid, weak: bool)
    requires Shape(s) && t in s.threads
    requires var pc := s.threads[t];
             !pc.PushStart? && !pc.PushLoad? && !pc.PushCas? && !pc.PushReload? && !pc.PushWrite? && !pc.PushPublish?
    ensures var pc, pc' := s.threads[t], StepThread(s, t, weak).threads[t];
            && (pc'.PopRead? ==> pc'.next == s.deq)
            && (pc'.PopRelease? ==> pc.PopRead? && pc'.next == pc.next)
            && !pc'.PushWrite? && !pc'.PushPublish?
  {
    var pc' := StepThread(s, t, weak).threads[t];
    match s.threads[t]
    case Idle | PushReturn(_, _, _) | PopReturn(_, _, _) =>
    case PopStart | PopReload(_) => assert pc' == PopLoad(s.deq);
    case PopLoad(next) => assert pc' == PopDecide(next, s.index[SlotOf(s.cap, next)]);
    case PopCas(next) => assert pc' == if s.deq == next && !weak then PopRead(s.deq) else PopLoad(s.deq);
    case PopRead(next) => assert pc' == PopRelease(next, s.data[SlotOf(s.cap, next)]);
    case PopRelease(next, out) => assert pc' == PopReturn(true, out, next);
  }

  // ---------------------------------------------------------------------
  // Exclusive access and the exact value of every Index
  // ---------------------------------------------------------------------

  /** Between its winning compare-and-swap and its releasing store a thread is the only one
      that may touch the `Data` of its slot. */
  lemma ExclusiveSlot<V(!new)>(s: State<V>, t: Tid, u: Tid)
    requires Reachable(s) && t in s.threads && u in s.threads && t != u
    requires Owning(s.threads[t]) && Owning(s.threads[u])
    ensures SlotOf(s.cap, s.threads[t].next) != SlotOf(s.cap, s.threads[u].next)
  {
    ReachableInv(s);
    assert ThreadOk(s, t) && ThreadOk(s, u);
  }

  /** Every slot serves one ticket, and `Index` says exactly in which stage that ticket is. */
  lemma IndexIsDetermined<V(!new)>(s: State<V>, i: nat)
    requires Reachable(s) && i < s.cap
    ensures Shape(s)
    ensures var k := s.ticket[i];
            && SlotOf(s.cap, k) == i && k < s.deq + s.cap && s.enq <= k + s.cap
            && s.index[i] == (if k >= s.enq || k in s.pusher then k else k + 1)
            && (k < s.deq ==> k in s.popper)
            && (s.deq <= k < s.enq && k !in s.pusher ==> s.data[i] == Holds(s.log[k]))
  {
    ReachableInv(s);
    assert SlotOk(s, i);
  }

  /** All numbers stay below `enq + cap`, so nothing wraps around before 2^64 - cap tickets. */
  lemma NumbersStaySmall<V(!new)>(s: State<V>, i: nat)
    requires Reachable(s) && i < s.cap
    ensures Shape(s) && s.index[i] <= s.enq + s.cap && s.deq <= s.enq
  {
    ReachableInv(s);
    assert SlotOk(s, i);
  }

  // ---------------------------------------------------------------------
  // What a false return means
  // ---------------------------------------------------------------------

  ghost predicate BelowMeansFull<V>(s: State<V>, next: nat, below: bool) {
    && (below ==> next == s.enq && s.cap <= next && StatusOf(s, next - s.cap) != Released)
    && (next == s.enq && s.popper == map[] ==> (below <==> s.enq == s.deq + s.cap))
  }

  /** What the slot of ticket `next` shows a Push that asks for it. */
  lemma IndexBelowNext<V>(s: State<V>, next: nat)
    requires Shape(s) && s.cap >= 2 && SlotOk(s, SlotOf(s.cap, next))
    requires s.deq <= s.enq <= s.deq + s.cap && next <= s.enq && forall k | k in s.pusher :: s.deq <= k
    requires var k := s.ticket[SlotOf(s.cap, next)]; k == next || k + s.cap <= next || next + s.cap <= k
    ensures BelowMeansFull(s, next, s.index[SlotOf(s.cap, next)] < next)
  {
    var k := s.ticket[SlotOf(s.cap, next)];
    if s.popper == map[] {
      assert k !in s.popper;
    }
  }

  /** The same in every state of a run. */
  lemma FullSlot<V>(s: State<V>, next: nat)
    requires Inv(s) && next <= s.enq
    ensures BelowMeansFull(s, next, s.index[SlotOf(s.cap, next)] < next)
  {
    TicketLap(s, next);
    CountersBounded(s);
    forall k | k in s.pusher ensures s.deq <= k { assert PusherOk(s, k); }
    IndexBelowNext(s, next);
  }

  /** The index load at which `Push` gives up: `next` is the counter itself, and the ticket
      one lap earlier is not released. With no Pop inside its critical section, giving up
      means exactly that the queue is full. */
  lemma PushFalse<V(!new)>(s: State<V>, t: Tid)
    requires Reachable(s) && t in s.threads && s.threads[t].PushLoad?
    ensures Shape(s)
    ensures var next := s.threads[t].next;
            var gaveUp := StepThread(s, t, false).threads[t] == PushReturn(false, s.threads[t].v, next);
            && (gaveUp ==> next == s.enq && s.cap <= next && StatusOf(s, next - s.cap) != Released)
            && (next == s.enq && s.popper == map[] ==> (gaveUp <==> s.enq == s.deq + s.cap))
  {
    ReachableInv(s);
    PushFull(s, t);
  }

  lemma PushFull<V>(s: State<V>, t: Tid)
    requires Inv(s) && t in s.threads && s.threads[t].PushLoad?
    ensures var next := s.threads[t].next;
            BelowMeansFull(s, next, StepThread(s, t, false).threads[t] == PushReturn(false, s.threads[t].v, next))
  {
    PushAsks(s, t);
    FullSlot(s, s.threads[t].next);
    PushGivesUp(s, t);
  }

  lemma PushAsks<V>(s: State<V>, t: Tid)
    requires Inv(s) && t in s.threads && s.threads[t].PushLoad?
    ensures s.threads[t].next <= s.enq
  {
    assert ThreadOk(s, t);
  }

  lemma PushGivesUp<V>(s: State<V>, t: Tid)
    requires Shape(s) && t in s.threads && s.threads[t].PushLoad?
    ensures var next := s.threads[t].next;
            s.index[SlotOf(s.cap, next)] < next <==>
            StepThread(s, t, false).threads[t] == PushReturn(false, s.threads[t].v, next)
  {
    var PushLoad(v, next) := s.threads[t];
    assert StepThread(s, t, false).threads[t] == PushDecide(v, next, s.index[SlotOf(s.cap, next)]);
  }

  /** The index load at which `Pop` gives up: `next` is the counter itself, and that ticket is
      not published. With no Push inside its critical section, giving up means exactly that
      the queue is empty. */
  lemma PopFalse<V(!new)>(s: State<V>, t: Tid)
    requires Reachable(s) && t in s.threads && s.threads[t].PopLoad?
    ensures Shape(s)
    ensures var next := s.threads[t].next;
            var gaveUp := StepThread(s, t, false).threads[t] == PopReturn(false, Blank, next);
            && (gaveUp ==> next == s.deq && !WasPublished(s, next))
            && (next == s.deq && s.pusher == map[] ==> (gaveUp <==> s.enq == s.deq))
  {
    ReachableInv(s);
    var next := s.threads[t].next;
    assert ThreadOk(s, t);
    TicketLap(s, next);
    CountersBounded(s);
    assert SlotOk(s, SlotOf(s.cap, next));
  }

  // ---------------------------------------------------------------------
  // Progress
  // ---------------------------------------------------------------------

  /** Going round the loop again either was a spurious failure or found the counter moved on
      by another thread: the local `next` strictly increases. */
  lemma ExtraPassAdvances<V(!new)>(s: State<V>, t: Tid, weak: bool)
    requires Reachable(s) && t in s.threads
    ensures Shape(s)
    ensures var pc, pc' := s.threads[t], StepThread(s, t, weak).threads[t];
            && ((pc.PushCas? || pc.PushReload?) && pc'.PushLoad? ==>
                  pc'.next == s.enq && (pc.next < pc'.next || (weak && pc.PushCas? && pc.next == pc'.next)))
            && ((pc.PopCas? || pc.PopReload?) && pc'.PopLoad? ==>
                  pc'.next == s.deq && (pc.next < pc'.next || (weak && pc.PopCas? && pc.next == pc'.next)))
  {
    ReachableInv(s);
    assert ThreadOk(s, t);
  }

  /** Thread `t` running alone for `n` steps with no spurious failure. */
  function Solo<V>(s: State<V>, t: Tid, n: nat): (s': State<V>)
    requires Shape(s) && t in s.threads
    ensures Shape(s') && t in s'.threads
    decreases n
  {
    if n == 0 then s else Solo(StepThread(s, t, false), t, n - 1)
  }

  /** How many loop passes (loads of a slot's `Index`) those steps contain. */
  function Passes<V>(s: State<V>, t: Tid, n: nat): nat
    requires Shape(s) && t in s.threads
    decreases n
  {
    if n == 0 then 0
    else (if s.threads[t].PushLoad? || s.threads[t].PopLoad? then 1 else 0)
         + Passes(StepThread(s, t, false), t, n - 1)
  }

  predicate Returned<V>(pc: Pc<V>) {
    pc.PushReturn? || pc.PopReturn?
  }

  /** `t` returns within `n` lone steps and `p` passes. */
  ghost predicate FinishesWithin<V>(s: State<V>, t: Tid, n: nat, p: nat)
    requires Shape(s) && t in s.threads
  {
    Returned(Solo(s, t, n).threads[t]) && Passes(s, t, n) <= p
  }

  /** From any reachable state, a thread inside a call and running alone returns within six
      steps and at most two more passes of its loop. */
  lemma SoloFinishes<V(!new)>(s: State<V>, t: Tid) returns (n: nat)
    requires Reachable(s) && t in s.threads && !s.threads[t].Idle?
    ensures Shape(s) && n <= 6 && FinishesWithin(s, t, n, 2)
  {
    ReachableInv(s);
    var p: nat;
    n, p := SoloLoading(s, t);
  }

  lemma OneMore<V>(s: State<V>, t: Tid, n: nat, p: nat, p': nat)
    requires Shape(s) && t in s.threads
    requires FinishesWithin(StepThread(s, t, false), t, n, p)
    requires p' == p + if s.threads[t].PushLoad? || s.threads[t].PopLoad? then 1 else 0
    ensures FinishesWithin(s, t, n + 1, p')
  {
  }

  /** Before the releasing store. */
  lemma SoloReleasing<V>(s: State<V>, t: Tid)
    requires Shape(s) && t in s.threads && (s.threads[t].PushPublish? || s.threads[t].PopRelease?)
    ensures FinishesWithin(s, t, 1, 0)
  {
    OneMore(s, t, 0, 0, 0);
  }

  /** A thread that has returned or won its ticket needs no further pass. */
  lemma SoloOwning<V>(s: State<V>, t: Tid) returns (n: nat)
    requires Shape(s) && t in s.threads && (Owning(s.threads[t]) || Returned(s.threads[t]))
    ensures n <= 2 && FinishesWithin(s, t, n, 0)
  {
    if Returned(s.threads[t]) {
      n := 0;
    } else if s.threads[t].PushPublish? || s.threads[t].PopRelease? {
      SoloReleasing(s, t);
      n := 1;
    } else {
      SoloReleasing(StepThread(s, t, false), t);
      OneMore(s, t, 1, 0, 0);
      n := 2;
    }
  }

  ghost predicate Current<V>(s: State<V>, t: Tid)
    requires t in s.threads
  {
    var pc := s.threads[t];
    (pc.PushLoad? && pc.next == s.enq) || (pc.PopLoad? && pc.next == s.deq)
  }

  /** Before the compare-and-swap with an up-to-date `next`. */
  lemma SoloWinning<V>(s: State<V>, t: Tid) returns (n: nat)
    requires Inv(s) && t in s.threads
    requires var pc := s.threads[t]; (pc.PushCas? && pc.next == s.enq) || (pc.PopCas? && pc.next == s.deq)
    ensures n <= 3 && FinishesWithin(s, t, n, 0)
  {
    StepInv(s, t, false);
    n := SoloOwning(StepThread(s, t, false), t);
    OneMore(s, t, n, 0, 0);
    n := n + 1;
  }

  /** The load of `Index` with an up-to-date `next` leads out of the loop or to the
      compare-and-swap. */
  lemma CurrentLoad<V>(s: State<V>, t: Tid)
    requires Inv(s) && t in s.threads && Current(s, t)
    ensures var s' := StepThread(s, t, false);
            var pc := s'.threads[t];
            || Returned(pc)
            || (pc.PushCas? && pc.next == s'.enq)
            || (pc.PopCas? && pc.next == s'.deq)
  {
    var next := s.threads[t].next;
    if s.threads[t].PushLoad? {
      if s.index[SlotOf(s.cap, next)] > next { IndexAboveNext(s, next); }
    } else {
      if s.index[SlotOf(s.cap, next)] > next + 1 { IndexAboveNextPlusOne(s, next); }
    }
  }

  /** A thread whose `next` equals the counter needs just the pass it is about to make. */
  lemma SoloCurrent<V>(s: State<V>, t: Tid) returns (n: nat)
    requires Inv(s) && t in s.threads && Current(s, t)
    ensures n <= 4 && FinishesWithin(s, t, n, 1)
  {
    var s1 := StepThread(s, t, false);
    CurrentLoad(s, t);
    StepInv(s, t, false);
    if Returned(s1.threads[t]) {
      n := SoloOwning(s1, t);
    } else {
      n := SoloWinning(s1, t);
    }
    OneMore(s, t, n, 0, 1);
    n := n + 1;
  }

  /** A load or a failed compare-and-swap leaves the thread with an up-to-date `next`. */
  lemma {:induction false} SoloReloading<V>(s: State<V>, t: Tid) returns (n: nat)
    requires Inv(s) && t in s.threads
    requires Current(StepThread(s, t, false), t) && !s.threads[t].PushLoad? && !s.threads[t].PopLoad?
    ensures n <= 5 && FinishesWithin(s, t, n, 1)
  {
    StepInv(s, t, false);
    n := SoloCurrent(StepThread(s, t, false), t);
    OneMore(s, t, n, 1, 1);
    n := n + 1;
  }

  /** Every other place of the loop leads to one of these in one step. */
  lemma SoloNotLoading<V>(s: State<V>, t: Tid) returns (n: nat, p: nat)
    requires Inv(s) && t in s.threads
    requires var pc := s.threads[t]; !pc.Idle? && !pc.PushLoad? && !pc.PopLoad?
    ensures n <= 5 && p <= 1 && FinishesWithin(s, t, n, p)
  {
    p := 1;
    match s.threads[t]
    case PushStart(v) =>
      assert StepThread(s, t, false).threads[t] == PushLoad(v, s.enq);
      n := SoloReloading(s, t);
    case PushReload(v, _) =>
      assert StepThread(s, t, false).threads[t] == PushLoad(v, s.enq);
      n := SoloReloading(s, t);
    case PushCas(v, next) =>
      if next == s.enq {
        n := SoloWinning(s, t);
        p := 0;
      } else {
        assert StepThread(s, t, false).threads[t] == PushLoad(v, s.enq);
        n := SoloReloading(s, t);
      }
    case PopStart => n := SoloReloading(s, t);
    case PopReload(_) => n := SoloReloading(s, t);
    case PopCas(next) =>
      if next == s.deq {
        n := SoloWinning(s, t);
        p := 0;
      } else {
        n := SoloReloading(s, t);
      }
    case PushWrite(_, _) | PushPublish(_, _) | PushReturn(_, _, _)
      | PopRead(_) | PopRelease(_, _) | PopReturn(_, _, _) =>
      n := SoloOwning(s, t);
      p := 0;
  }

  lemma LoadLeaves<V>(s: State<V>, t: Tid)
    requires Shape(s) && t in s.threads && (s.threads[t].PushLoad? || s.threads[t].PopLoad?)
    ensures var pc := StepThread(s, t, false).threads[t]; !pc.Idle? && !pc.PushLoad? && !pc.PopLoad?
  {
  }

  lemma SoloLoading<V>(s: State<V>, t: Tid) returns (n: nat, p: nat)
    requires Inv(s) && t in s.threads && !s.threads[t].Idle?
    ensures n <= 6 && p <= 2 && FinishesWithin(s, t, n, p)
  {
    var pc := s.threads[t];
    if pc.PushLoad? || pc.PopLoad? {
      StepInv(s, t, false);
      LoadLeaves(s, t);
      n, p := SoloNotLoading(StepThread(s, t, false), t);
      OneMore(s, t, n, p, p + 1);
      n, p := n + 1, p + 1;
    } else {
      n, p := SoloNotLoading(s, t);
    }
  }

  // ---------------------------------------------------------------------
  // The abstract queue
  // ---------------------------------------------------------------------

  /** The tickets won by a Push and not yet by a Pop, in order. */
  function Contents<V>(s: State<V>): seq<V>
    requires Shape(s) && s.deq <= s.enq
  {
    s.log[s.deq..]
  }

  /** What an action means for the abstract queue. */
  function EventOf<V>(s: State<V>, a: Action<V>): Event<V>
    requires Shape(s)
  {
    if a.Step? && a.t in s.threads && !a.weak then
      match s.threads[a.t]
      case PushCas(v, next) => if next == s.enq then Put(v) else Internal
      case PopCas(next) => if next == s.deq && s.deq < s.enq then Take(s.log[s.deq]) else Internal
      case _ => Internal
    else Internal
  }

  /** Every step is invisible, or puts a value at the end of a queue that is not full, or
      takes the value at the front, which is the one this Pop will deliver. */
  lemma RefinesBoundedFifo<V(!new)>(s: State<V>, a: Action<V>)
    requires Reachable(s)
    ensures Shape(s) && s.deq <= s.enq
    ensures var s' := Apply(s, a);
            && s'.deq <= s'.enq
            && Allowed(s.cap, Contents(s), EventOf(s, a), Contents(s'))
            && (EventOf(s, a).Take? ==> s'.threads[a.t] == PopRead(s.deq) && s.log[s.deq] == EventOf(s, a).value)
  {
    ReachableInv(s);
    ApplyInv(s, a);
    if EventOf(s, a).Put? { PutStep(s, a); } else if EventOf(s, a).Take? { TakeStep(s, a); } else { QuietStep(s, a); }
  }

  lemma PutStep<V>(s: State<V>, a: Action<V>)
    requires Inv(s) && EventOf(s, a).Put?
    ensures Apply(s, a).deq == s.deq && Contents(Apply(s, a)) == Contents(s) + [EventOf(s, a).value]
    ensures |Contents(s)| < s.cap
  {
    var v := EventOf(s, a).value;
    WinnableTicket(s, a.t);
    assert Apply(s, a) == WinPush(s, a.t, v);
    assert (s.log + [v])[s.deq..] == s.log[s.deq..] + [v];
  }

  lemma TakeStep<V>(s: State<V>, a: Action<V>)
    requires Inv(s) && EventOf(s, a).Take?
    ensures Contents(s) == [EventOf(s, a).value] + Contents(Apply(s, a))
    ensures Apply(s, a).threads[a.t] == PopRead(s.deq) && s.log[s.deq] == EventOf(s, a).value
  {
    assert Apply(s, a) == WinPop(s, a.t);
    assert s.log[s.deq..] == [s.log[s.deq]] + s.log[s.deq + 1..];
  }

  /** Without such an event neither counter moves. */
  lemma QuietStep<V>(s: State<V>, a: Action<V>)
    requires Inv(s) && EventOf(s, a).Internal?
    ensures Apply(s, a).log == s.log && Apply(s, a).deq == s.deq
  {
    if a.Step? && a.t in s.threads && s.threads[a.t].PopCas? && s.threads[a.t].next == s.deq {
      assert ThreadOk(s, a.t);
    }
  }

  // ---------------------------------------------------------------------
  // Capacity 1
  // ---------------------------------------------------------------------

  /** A call of `Push` and its five steps, without interference. */
  function PushAlone<V>(t: Tid, v: V): seq<Action<V>> {
    [CallPush(t, v), Step(t, false), Step(t, false), Step(t, false), Step(t, false), Step(t, false)]
  }

  lemma {:induction false} ExecConcat<V>(s: State<V>, a: seq<Action<V>>, b: seq<Action<V>>)
    requires Shape(s)
    ensures Exec(s, a + b) == Exec(Exec(s, a), b)
  {
    if b == [] {
      assert a + b == a;
    } else {
      LastOfConcat(a, b);
      ExecConcat(s, a, b[..|b| - 1]);
    }
  }

  lemma LastOfConcat<V>(a: seq<Action<V>>, b: seq<Action<V>>)
    requires b != []
    ensures (a + b)[..|a + b| - 1] == a + b[..|b| - 1] && (a + b)[|a + b| - 1] == b[|b| - 1]
  {
  }

  lemma {:induction false} ExecFront<V>(s: State<V>, acts: seq<Action<V>>)
    requires Shape(s) && acts != []
    ensures Exec(s, acts) == Exec(Apply(s, acts[0]), acts[1..])
  {
    assert acts == [acts[0]] + acts[1..];
    assert [acts[0]][..0] == [];
    ExecConcat(s, [acts[0]], acts[1..]);
  }

  lemma Overwrite<V>(m: map<Tid, Pc<V>>, t: Tid, a: Pc<V>, b: Pc<V>)
    ensures m[t := a][t := b] == m[t := b]
  {
  }

  /** The six actions, from a state whose slot 0 shows the enqueue counter. */
  lemma OnePushAlone<V>(s: State<V>, t: Tid, v: V)
    requires Shape(s) && s.cap == 1 && CanCall(s, t) && s.index == [s.enq]
    ensures var s' := Exec(s, PushAlone(t, v));
            && s'.enq == s.enq + 1 && s'.deq == s.deq && s'.index == [s.enq + 1]
            && s'.threads == s.threads[t := PushReturn(true, v, s.enq)]
            && s'.data == [Holds(v)] && s'.log == s.log + [v]
  {
    ExecSix(s, PushAlone(t, v));
    PushLoop(s, t, v);
    PushStores(Goto(s, t, PushCas(v, s.enq)), t, v);
    Overwrite(s.threads, t, PushCas(v, s.enq), PushReturn(true, v, s.enq));
  }

  /** The call, the load of the counter and the load of `Index`. */
  lemma PushLoop<V>(s: State<V>, t: Tid, v: V)
    requires Shape(s) && s.cap == 1 && CanCall(s, t) && s.index == [s.enq]
    ensures Apply(Apply(Apply(s, CallPush(t, v)), Step(t, false)), Step(t, false)) == Goto(s, t, PushCas(v, s.enq))
  {
    Overwrite(s.threads, t, PushStart(v), PushLoad(v, s.enq));
    Overwrite(s.threads, t, PushLoad(v, s.enq), PushCas(v, s.enq));
  }

  /** The winning compare-and-swap and the two stores. */
  lemma PushStores<V>(s: State<V>, t: Tid, v: V)
    requires Shape(s) && s.cap == 1 && t in s.threads && s.threads[t] == PushCas(v, s.enq)
    ensures var s' := Apply(Apply(Apply(s, Step(t, false)), Step(t, false)), Step(t, false));
            && s'.enq == s.enq + 1 && s'.deq == s.deq && s'.index == [s.enq + 1]
            && s'.threads == s.threads[t := PushReturn(true, v, s.enq)]
            && s'.data == [Holds(v)] && s'.log == s.log + [v]
  {
    Overwrite(s.threads, t, PushWrite(v, s.enq), PushPublish(v, s.enq));
    Overwrite(s.threads, t, PushPublish(v, s.enq), PushReturn(true, v, s.enq));
    var s' := Publish(WriteData(WinPush(s, t, v), t, v, s.enq), t, v, s.enq);
    assert Apply(Apply(Apply(s, Step(t, false)), Step(t, false)), Step(t, false)) == s';
    assert |s'.index| == 1 && SlotOf(1, s.enq) == 0;
  }

  lemma ExecSix<V>(s: State<V>, acts: seq<Action<V>>)
    requires Shape(s) && |acts| == 6
    ensures Exec(s, acts)
         == Apply(Apply(Apply(Apply(Apply(Apply(s, acts[0]), acts[1]), acts[2]), acts[3]), acts[4]), acts[5])
  {
    var a1, a2, a3, a4, a5 := acts[1..], acts[2..], acts[3..], acts[4..], acts[5..];
    ExecFront(s, acts);
    assert acts[1..][1..] == a2 && a2[1..] == a3 && a3[1..] == a4 && a4[1..] == a5 && a5[1..] == [];
    var s1 := Apply(s, acts[0]);
    ExecFront(s1, a1);
    var s2 := Apply(s1, acts[1]);
    ExecFront(s2, a2);
    var s3 := Apply(s2, acts[2]);
    ExecFront(s3, a3);
    var s4 := Apply(s3, acts[3]);
    ExecFront(s4, a4);
    ExecFront(Apply(s4, acts[4]), a5);
  }

  /** With capacity 1 the mark `published for ticket 0` is the mark `free for ticket 1`: two
      Pushes in a row both return true, and the second overwrites the value of the first. */
  lemma CapacityOneLosesData()
    ensures var s := Exec(Init<int>(1), PushAlone(0, 7) + PushAlone(0, 8));
            && 0 in s.threads && s.threads[0] == PushReturn(true, 8, 1)
            && s.deq == 0 && s.enq == 2 && s.index == [2] && s.log == [7, 8] && s.data == [Holds(8)]
  {
    var s := Init<int>(1);
    assert s.index == [0];
    OnePushAlone(s, 0, 7);
    SecondPush(Exec(s, PushAlone(0, 7)));
    ExecConcat(s, PushAlone(0, 7), PushAlone(0, 8));
  }

  lemma SecondPush(s: State<int>)
    requires Shape(s) && s.cap == 1 && s.deq == 0 && s.enq == 1 && s.index == [1] && s.log == [7]
    requires s.threads == map[0 := PushReturn(true, 7, 0)]
    ensures var s' := Exec(s, PushAlone(0, 8));
            && 0 in s'.threads && s'.threads[0] == PushReturn(true, 8, 1)
            && s'.deq == 0 && s'.enq == 2 && s'.index == [2] && s'.log == [7, 8] && s'.data == [Holds(8)]
  {
    OnePushAlone(s, 0, 8);
  }

  /** A Pop that finds `Index` beyond its ticket, on a counter that nobody else moves. */
  predicate Spinning(s: State<int>, t: Tid) {
    && s.cap == 1 && |s.index| == 1 && s.index[0] > s.deq + 1 && t in s.threads
    && (s.threads[t] == PopStart || s.threads[t] == PopLoad(s.deq) || s.threads[t] == PopReload(s.deq))
  }

  lemma {:induction false} SpinsForEver(s: State<int>, t: Tid, n: nat)
    requires Shape(s) && Spinning(s, t)
    ensures !Returned(Solo(s, t, n).threads[t])
    decreases n
  {
    if n > 0 {
      assert StepThread(s, t, false).threads[t] == if s.threads[t].PopLoad? then PopReload(s.deq) else PopLoad(s.deq);
      SpinsForEver(StepThread(s, t, false), t, n - 1);
    }
  }

  /** After those two Pushes a `Pop` that runs alone goes round its loop for ever: the progress
      of `SoloFinishes` fails too. */
  lemma CapacityOneHangs(n: nat)
    ensures var s := Exec(Init<int>(1), PushAlone(0, 7) + PushAlone(0, 8) + [CallPop(0)]);
            0 in s.threads && !Returned(Solo(s, 0, n).threads[0])
  {
    CapacityOneLosesData();
    var acts := PushAlone(0, 7) + PushAlone(0, 8);
    ExecConcat(Init<int>(1), acts, [CallPop(0)]);
    var s := Exec(Init<int>(1), acts);
    ExecFront(s, [CallPop(0)]);
    SpinsForEver(Apply(s, CallPop(0)), 0, n);
  }

  /** The queue never accepts more than it can hold in any run exactly when its capacity, a
      power of two by the constructor's assertion, is at least 2. */
  lemma SafeCapacity(cap: nat)
    requires IsPow2(cap)
    ensures cap >= 2 <==> forall acts: seq<Action<int>> ::
              Exec(Init<int>(cap), acts).enq <= Exec(Init<int>(cap), acts).deq + cap
  {
    if cap >= 2 {
      forall acts: seq<Action<int>>
        ensures Exec(Init<int>(cap), acts).enq <= Exec(Init<int>(cap), acts).deq + cap
      {
        InitInv<int>(cap);
        ExecInv(Init<int>(cap), acts);
        CountersBounded(Exec(Init<int>(cap), acts));
      }
    } else {
      var n: nat :| cap == Pow2(n);
      CapacityOneLosesData();
      var acts := PushAlone(0, 7) + PushAlone(0, 8);
      assert Exec(Init<int>(cap), acts).enq > Exec(Init<int>(cap), acts).deq + cap;
    }
  }
}
