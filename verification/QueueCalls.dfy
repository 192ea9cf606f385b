/** What the callers of the queue see: when a call returns false, when it goes round its loop again,
    and what a whole call does that nobody interferes with. */
module QueueCalls {
  import opened QueueProtocol
  import opened QueueInvariant
  import opened QueueTheorems

  // ---------------------------------------------------------------------
  // Returning false
  // ---------------------------------------------------------------------

  /** Thread `t` has just returned false from `Push`. */
  ghost predicate PushHasFailed<V>(s: State<V>, s': State<V>, t: Tid) {
    && t in s'.threads && s'.threads[t].PushReturn? && !s'.threads[t].ok
    && (t in s.threads ==> s.threads[t] != s'.threads[t])
  }

  ghost predicate PopHasFailed<V>(s: State<V>, s': State<V>, t: Tid) {
    && t in s'.threads && s'.threads[t].PopReturn? && !s'.threads[t].ok
    && (t in s.threads ==> s.threads[t] != s'.threads[t])
  }

  /** Only the load of `Index` leads to a false return. */
  lemma FailsAtLoad<V>(s: State<V>, t: Tid, weak: bool)
    requires Shape(s) && t in s.threads
    ensures var s' := StepThread(s, t, weak);
            && (PushHasFailed(s, s', t) ==>
                  s.threads[t].PushLoad? && s'.threads[t] == PushReturn(false, s.threads[t].v, s.threads[t].next))
            && (PopHasFailed(s, s', t) ==>
                  s.threads[t].PopLoad? && s'.threads[t] == PopReturn(false, Blank, s.threads[t].next))
  {
    var pc' := StepThread(s, t, weak).threads[t];
    match s.threads[t]
    case PushLoad(v, next) => assert pc' == PushDecide(v, next, s.index[SlotOf(s.cap, next)]);
    case PopLoad(next) => assert pc' == PopDecide(next, s.index[SlotOf(s.cap, next)]);
    case PushCas(v, next) => assert pc' == if s.enq == next && !weak then PushWrite(v, s.enq) else PushLoad(v, s.enq);
    case PopCas(next) => assert pc' == if s.deq == next && !weak then PopRead(s.deq) else PopLoad(s.deq);
    case _ =>
  }

  lemma FailsInOwnStep<V>(s: State<V>, a: Action<V>, t: Tid)
    requires Shape(s) && (PushHasFailed(s, Apply(s, a), t) || PopHasFailed(s, Apply(s, a), t))
    ensures a.Step? && a.t == t && t in s.threads && Apply(s, a) == StepThread(s, t, a.weak)
  {
    if !a.Step? { CallsDoNotFail(s, a, t); }
  }

  lemma CallsDoNotFail<V>(s: State<V>, a: Action<V>, t: Tid)
    requires Shape(s) && !a.Step?
    ensures !PushHasFailed(s, Apply(s, a), t) && !PopHasFailed(s, Apply(s, a), t)
  {
  }

  /** `Push` returns false in one way only: at the load of `Index`, with its `next` equal to the
      counter, while the ticket a lap earlier is not released. With no Pop between its winning
      compare-and-swap and its releasing store, the queue is full at that moment. */
  lemma PushFailsOnlyWhenFull<V(!new)>(s: State<V>, a: Action<V>, t: Tid)
    requires Reachable(s) && Shape(s) && PushHasFailed(s, Apply(s, a), t)
    ensures a.Step? && a.t == t && t in s.threads && s.threads[t].PushLoad?
    ensures var next := s.threads[t].next;
            && Apply(s, a).threads[t] == PushReturn(false, s.threads[t].v, next)
            && next == s.enq && s.cap <= next && StatusOf(s, next - s.cap) != Released
            && (s.popper == map[] ==> s.enq == s.deq + s.cap)
  {
    FailsInOwnStep(s, a, t);
    FailsAtLoad(s, t, a.weak);
    PushFalse(s, t);
  }

  /** The same for `Pop`: its ticket is not published, and with no Push between its winning
      compare-and-swap and its releasing store, the queue is empty. */
  lemma PopFailsOnlyWhenEmpty<V(!new)>(s: State<V>, a: Action<V>, t: Tid)
    requires Reachable(s) && Shape(s) && PopHasFailed(s, Apply(s, a), t)
    ensures a.Step? && a.t == t && t in s.threads && s.threads[t].PopLoad?
    ensures var next := s.threads[t].next;
            && Apply(s, a).threads[t] == PopReturn(false, Blank, next)
            && next == s.deq && !WasPublished(s, next)
            && (s.pusher == map[] ==> s.enq == s.deq)
  {
    FailsInOwnStep(s, a, t);
    FailsAtLoad(s, t, a.weak);
    PopFalse(s, t);
  }

  // ---------------------------------------------------------------------
  // Staying in the loop
  // ---------------------------------------------------------------------

  /** A compare-and-swap wins exactly if it is not weak and `next` is the counter. Otherwise, and
      after a load of an `Index` above `next`, there is another pass with the present counter, which
      has moved on unless the failure was spurious. */
  lemma LoopGoesOn<V(!new)>(s: State<V>, t: Tid, weak: bool)
    requires Reachable(s) && t in s.threads
    ensures Shape(s)
    ensures var pc, pc' := s.threads[t], StepThread(s, t, weak).threads[t];
            && (pc.PushCas? ==>
                  if pc.next == s.enq && !weak then pc' == PushWrite(pc.v, s.enq)
                  else pc' == PushLoad(pc.v, s.enq) && (pc.next < s.enq || weak))
            && (pc.PushReload? ==> pc' == PushLoad(pc.v, s.enq) && pc.next < s.enq)
            && (pc.PopCas? ==>
                  if pc.next == s.deq && !weak then pc' == PopRead(s.deq)
                  else pc' == PopLoad(s.deq) && (pc.next < s.deq || weak))
            && (pc.PopReload? ==> pc' == PopLoad(s.deq) && pc.next < s.deq)
  {
    ReachableInv(s);
    assert ThreadOk(s, t);
    var pc' := StepThread(s, t, weak).threads[t];
    match s.threads[t]
    case PushCas(v, next) => assert pc' == if s.enq == next && !weak then PushWrite(v, s.enq) else PushLoad(v, s.enq);
    case PopCas(next) => assert pc' == if s.deq == next && !weak then PopRead(s.deq) else PopLoad(s.deq);
    case PushReload(v, _) => assert pc' == PushLoad(v, s.enq);
    case PopReload(_) => assert pc' == PopLoad(s.deq);
    case _ =>
  }

  // ---------------------------------------------------------------------
  // Whole calls
  // ---------------------------------------------------------------------

  /** The front ticket is published. */
  predicate Ready<V>(s: State<V>) {
    s.deq < s.enq && s.deq !in s.pusher
  }

  /** The ticket a lap before the next one has been released, or there is none. */
  predicate HasRoom<V>(s: State<V>) {
    s.enq < s.cap || (s.enq - s.cap < s.deq && s.enq - s.cap !in s.popper)
  }

  lemma FrontIndex<V>(s: State<V>)
    requires Inv(s)
    ensures var index := s.index[SlotOf(s.cap, s.deq)]; if Ready(s) then index == s.deq + 1 else index <= s.deq
  {
    TicketLap(s, s.deq);
    assert SlotOk(s, SlotOf(s.cap, s.deq));
  }

  lemma BackIndex<V>(s: State<V>)
    requires Inv(s)
    ensures var index := s.index[SlotOf(s.cap, s.enq)]; if HasRoom(s) then index == s.enq else index < s.enq
  {
    CountersBounded(s);
    TicketLap(s, s.enq);
    var i := SlotOf(s.cap, s.enq);
    assert SlotOk(s, i);
    var k := s.ticket[i];
    if k != s.enq {
      assert k + s.cap == s.enq;
      if k in s.pusher { assert PusherOk(s, k); }
    } else if s.enq >= s.cap {
      EarlierLap(s);
    }
  }

  /** If the slot already serves ticket `enq`, the ticket before it there has been released. */
  lemma EarlierLap<V>(s: State<V>)
    requires Inv(s) && s.enq >= s.cap && s.ticket[SlotOf(s.cap, s.enq)] == s.enq && s.enq <= s.deq + s.cap
    ensures HasRoom(s)
  {
    var k := s.enq - s.cap;
    NextLap(s.cap, k);
    SlotBound(s, SlotOf(s.cap, s.enq));
    if k in s.popper { PopperSlot(s, k); }
    RoomFacts(s, k);
  }

  lemma RoomFacts<V>(s: State<V>, k: nat)
    requires Shape(s) && s.enq == k + s.cap && s.ticket[SlotOf(s.cap, k)] == s.enq < s.deq + s.cap
    requires k in s.popper ==> s.ticket[SlotOf(s.cap, k)] == k
    ensures HasRoom(s)
  {
  }

  lemma SlotBound<V>(s: State<V>, i: nat)
    requires Inv(s) && i < s.cap
    ensures s.ticket[i] < s.deq + s.cap
  {
    assert SlotOk(s, i);
  }

  lemma PopperSlot<V>(s: State<V>, k: nat)
    requires Inv(s) && k in s.popper
    ensures s.ticket[SlotOf(s.cap, k)] == k
  {
    assert PopperOk(s, k);
    assert ThreadOk(s, s.popper[k]);
  }

  /** The state after a lone Pop that succeeds. */
  ghost predicate TookFront<V>(s: State<V>, t: Tid, s': State<V>) {
    && s.deq < |s.log| && s'.deq == s.deq + 1 && s'.enq == s.enq && s'.log == s.log && s'.cap == s.cap
    && s'.threads == s.threads[t := PopReturn(true, Holds(s.log[s.deq]), s.deq)]
  }

  /** The state after a lone Pop that fails, or has not won yet. */
  ghost predicate Unmoved<V>(s: State<V>, t: Tid, s': State<V>, pc: Pc<V>) {
    s' == s.(threads := s.threads[t := pc])
  }

  lemma PopLoads<V>(s: State<V>, t: Tid)
    requires Inv(s) && t in s.threads && s.threads[t] == PopStart
    ensures Unmoved(s, t, Solo(s, t, 1), PopLoad(s.deq))
    ensures Unmoved(s, t, Solo(s, t, 2), if Ready(s) then PopCas(s.deq) else PopReturn(false, Blank, s.deq))
  {
    FrontIndex(s);
    var s1 := Goto(s, t, PopLoad(s.deq));
    assert StepThread(s, t, false) == s1;
    assert StepThread(s1, t, false) == Goto(s1, t, PopDecide(s.deq, s.index[SlotOf(s.cap, s.deq)]));
    Overwrite(s.threads, t, PopLoad(s.deq), PopDecide(s.deq, s.index[SlotOf(s.cap, s.deq)]));
    assert Solo(s, t, 1) == Solo(s1, t, 0);
    assert Solo(s, t, 2) == Solo(s1, t, 1) == Solo(StepThread(s1, t, false), t, 0);
  }

  lemma PopWins<V>(s: State<V>, t: Tid)
    requires Shape(s) && t in s.threads && s.threads[t] == PopCas(s.deq) && s.deq < s.enq
    requires s.data[SlotOf(s.cap, s.deq)] == Holds(s.log[s.deq])
    ensures Solo(s, t, 1).threads[t] == PopRead(s.deq) && Solo(s, t, 2).threads[t].PopRelease?
    ensures TookFront(s, t, Solo(s, t, 3))
  {
    var out := Holds(s.log[s.deq]);
    var s1 := WinPop(s, t);
    var s2 := ReadData(s1, t, s.deq);
    WinPopStep(s, t);
    ReadStep(s1, t, s.deq);
    SoloTwo(s, s1, s2, t);
    ReleaseStep(s2, t, s.deq, out);
    Overwrite(s.threads, t, PopRead(s.deq), PopRelease(s.deq, out));
    Overwrite(s.threads, t, PopRelease(s.deq, out), PopReturn(true, out, s.deq));
  }

  lemma WinPopStep<V>(s: State<V>, t: Tid)
    requires Shape(s) && t in s.threads && s.threads[t] == PopCas(s.deq)
    ensures StepThread(s, t, false) == WinPop(s, t)
  {
  }

  lemma ReadStep<V>(s: State<V>, t: Tid, next: nat)
    requires Shape(s) && t in s.threads && s.threads[t] == PopRead(next)
    ensures StepThread(s, t, false) == ReadData(s, t, next)
  {
  }

  lemma ReleaseStep<V>(s: State<V>, t: Tid, next: nat, out: Cell<V>)
    requires Shape(s) && t in s.threads && s.threads[t] == PopRelease(next, out)
    ensures StepThread(s, t, false) == Release(s, t, next, out)
  {
  }

  lemma PublishStep<V>(s: State<V>, t: Tid, v: V, next: nat)
    requires Shape(s) && t in s.threads && s.threads[t] == PushPublish(v, next)
    ensures StepThread(s, t, false) == Publish(s, t, v, next)
  {
  }

  lemma SoloTwo<V>(s: State<V>, s1: State<V>, s2: State<V>, t: Tid)
    requires Shape(s) && t in s.threads && s1 == StepThread(s, t, false) && s2 == StepThread(s1, t, false)
    ensures Solo(s, t, 1) == s1 && Solo(s, t, 2) == s2 && Solo(s, t, 3) == StepThread(s2, t, false)
  {
    assert Solo(s, t, 1) == Solo(s1, t, 0);
    assert Solo(s, t, 2) == Solo(s1, t, 1) == Solo(s2, t, 0);
    assert Solo(s, t, 3) == Solo(s1, t, 2) == Solo(s2, t, 1) == Solo(StepThread(s2, t, false), t, 0);
  }

  lemma {:induction false} SoloJoin<V>(s: State<V>, t: Tid, a: nat, b: nat)
    requires Shape(s) && t in s.threads
    ensures Solo(Solo(s, t, a), t, b) == Solo(s, t, a + b)
    decreases a
  {
    if a > 0 {
      SoloJoin(StepThread(s, t, false), t, a - 1, b);
    }
  }

  lemma FrontIsThere<V>(s: State<V>)
    requires Inv(s) && Ready(s)
    ensures s.data[SlotOf(s.cap, s.deq)] == Holds(s.log[s.deq])
  {
    TicketLap(s, s.deq);
    assert SlotOk(s, SlotOf(s.cap, s.deq));
  }

  /** A Pop that runs alone returns the front value in five steps if that is published, and
      otherwise returns false in two, whatever the other threads have left unfinished. */
  lemma WholePop<V>(s: State<V>, t: Tid)
    requires Inv(s) && t in s.threads && s.threads[t] == PopStart
    ensures Ready(s) ==> TookFront(s, t, Solo(s, t, 5)) && forall n | 0 <= n < 5 :: !Returned(Solo(s, t, n).threads[t])
    ensures !Ready(s) ==>
              && Unmoved(s, t, Solo(s, t, 2), PopReturn(false, Blank, s.deq))
              && forall n | 0 <= n < 2 :: !Returned(Solo(s, t, n).threads[t])
  {
    PopLoads(s, t);
    if Ready(s) {
      FrontIsThere(s);
      PopWins(Solo(s, t, 2), t);
      SoloJoin(s, t, 2, 1);
      SoloJoin(s, t, 2, 2);
      SoloJoin(s, t, 2, 3);
      Overwrite(s.threads, t, PopCas(s.deq), PopReturn(true, Holds(s.log[s.deq]), s.deq));
      forall n | 0 <= n < 5 ensures !Returned(Solo(s, t, n).threads[t]) {
        assert n == 0 || n == 1 || n == 2 || n == 3 || n == 4;
      }
    } else {
      forall n | 0 <= n < 2 ensures !Returned(Solo(s, t, n).threads[t]) {
        assert n == 0 || n == 1;
      }
    }
  }

  /** The state after a lone Push that succeeds. */
  ghost predicate PutBack<V>(s: State<V>, t: Tid, v: V, s': State<V>) {
    && s'.deq == s.deq && s'.enq == s.enq + 1 && s'.log == s.log + [v] && s'.cap == s.cap
    && s'.threads == s.threads[t := PushReturn(true, v, s.enq)]
  }

  lemma PushLoads<V>(s: State<V>, t: Tid, v: V)
    requires Inv(s) && t in s.threads && s.threads[t] == PushStart(v)
    ensures Unmoved(s, t, Solo(s, t, 1), PushLoad(v, s.enq))
    ensures Unmoved(s, t, Solo(s, t, 2), if HasRoom(s) then PushCas(v, s.enq) else PushReturn(false, v, s.enq))
  {
    BackIndex(s);
    var s1 := Goto(s, t, PushLoad(v, s.enq));
    assert StepThread(s, t, false) == s1;
    assert StepThread(s1, t, false) == Goto(s1, t, PushDecide(v, s.enq, s.index[SlotOf(s.cap, s.enq)]));
    Overwrite(s.threads, t, PushLoad(v, s.enq), PushDecide(v, s.enq, s.index[SlotOf(s.cap, s.enq)]));
    assert Solo(s, t, 1) == Solo(s1, t, 0);
    assert Solo(s, t, 2) == Solo(s1, t, 1) == Solo(StepThread(s1, t, false), t, 0);
  }

  lemma PushWins<V>(s: State<V>, t: Tid, v: V)
    requires Shape(s) && t in s.threads && s.threads[t] == PushCas(v, s.enq)
    ensures Solo(s, t, 1).threads[t] == PushWrite(v, s.enq) && Solo(s, t, 2).threads[t] == PushPublish(v, s.enq)
    ensures PutBack(s, t, v, Solo(s, t, 3))
  {
    var s1 := WinPush(s, t, v);
    var s2 := WriteData(s1, t, v, s.enq);
    assert StepThread(s, t, false) == s1 && StepThread(s1, t, false) == s2;
    SoloTwo(s, s1, s2, t);
    PublishStep(s2, t, v, s.enq);
    Overwrite(s.threads, t, PushWrite(v, s.enq), PushPublish(v, s.enq));
    Overwrite(s.threads, t, PushPublish(v, s.enq), PushReturn(true, v, s.enq));
  }

  /** A Push that runs alone appends its value in five steps if there is room, and otherwise
      returns false in two. */
  lemma WholePush<V>(s: State<V>, t: Tid, v: V)
    requires Inv(s) && t in s.threads && s.threads[t] == PushStart(v)
    ensures HasRoom(s) ==> PutBack(s, t, v, Solo(s, t, 5))
    ensures !HasRoom(s) ==> Unmoved(s, t, Solo(s, t, 2), PushReturn(false, v, s.enq))
  {
    PushLoads(s, t, v);
    if HasRoom(s) {
      PushWins(Solo(s, t, 2), t, v);
      SoloJoin(s, t, 2, 3);
      Overwrite(s.threads, t, PushCas(v, s.enq), PushReturn(true, v, s.enq));
    }
  }

  /** With nobody between a winning compare-and-swap and its releasing store, there is room exactly
      if the queue is not full, and the front is ready exactly if it is not empty. */
  lemma QuietQueue<V>(s: State<V>)
    requires Inv(s) && s.pusher == map[] && s.popper == map[]
    ensures HasRoom(s) <==> s.enq - s.deq < s.cap
    ensures Ready(s) <==> s.deq < s.enq
  {
    CountersBounded(s);
  }

  lemma Called<V>(s: State<V>, a: Action<V>)
    requires Inv(s) && ((a.CallPush? && CanCall(s, a.t)) || (a.CallPop? && CanCall(s, a.t)))
    ensures Apply(s, a) == Goto(s, a.t, if a.CallPush? then PushStart(a.v) else PopStart) && Inv(Apply(s, a))
    ensures HasRoom(Apply(s, a)) == HasRoom(s) && Ready(Apply(s, a)) == Ready(s)
  {
    if a.CallPush? { GotoInv(s, a.t, PushStart(a.v)); } else { GotoInv(s, a.t, PopStart); }
    SameCounters(s, a.t, if a.CallPush? then PushStart(a.v) else PopStart);
  }

  lemma SameCounters<V>(s: State<V>, t: Tid, pc: Pc<V>)
    requires Shape(s)
    ensures HasRoom(Goto(s, t, pc)) == HasRoom(s) && Ready(Goto(s, t, pc)) == Ready(s)
  {
  }

  /** From any reachable state: a whole Pop that nobody interferes with hands over the front value
      if that is published, and returns false otherwise; with nobody between a winning
      compare-and-swap and its releasing store, it fails exactly on an empty queue. */
  lemma LonePop<V(!new)>(s: State<V>, t: Tid)
    requires Reachable(s) && Shape(s) && CanCall(s, t)
    ensures t in Apply(s, CallPop(t)).threads && s.deq <= s.enq
    ensures var s0 := Apply(s, CallPop(t));
            if Ready(s) then
              var s' := Solo(s0, t, 5);
              && s.deq < s.enq && s'.threads[t] == PopReturn(true, Holds(s.log[s.deq]), s.deq)
              && s'.deq <= s'.enq && Contents(s') == Contents(s)[1..]
            else Solo(s0, t, 2) == s.(threads := s.threads[t := PopReturn(false, Blank, s.deq)])
    ensures s.pusher == map[] && s.popper == map[] ==> (Ready(s) <==> Contents(s) != [])
  {
    ReachableInv(s);
    Called(s, CallPop(t));
    WholePop(Apply(s, CallPop(t)), t);
    Overwrite(s.threads, t, PopStart, PopReturn(false, Blank, s.deq));
  }

  /** The same for Push: it appends its value if the slot of its ticket has been released. */
  lemma LonePush<V(!new)>(s: State<V>, t: Tid, v: V)
    requires Reachable(s) && Shape(s) && CanCall(s, t)
    ensures t in Apply(s, CallPush(t, v)).threads && s.deq <= s.enq
    ensures var s0 := Apply(s, CallPush(t, v));
            if HasRoom(s) then
              var s' := Solo(s0, t, 5);
              && s'.threads[t] == PushReturn(true, v, s.enq)
              && s'.deq <= s'.enq && Contents(s') == Contents(s) + [v]
            else Solo(s0, t, 2) == s.(threads := s.threads[t := PushReturn(false, v, s.enq)])
    ensures s.pusher == map[] && s.popper == map[] ==> (HasRoom(s) <==> |Contents(s)| < s.cap)
  {
    ReachableInv(s);
    Called(s, CallPush(t, v));
    var s0 := Apply(s, CallPush(t, v));
    WholePush(s0, t, v);
    Overwrite(s.threads, t, PushStart(v), PushReturn(false, v, s.enq));
    if HasRoom(s) { ContentsGrow(s0, t, v, Solo(s0, t, 5)); }
    if s.pusher == map[] && s.popper == map[] { QuietQueue(s); }
  }

  lemma ContentsGrow<V>(s: State<V>, t: Tid, v: V, s': State<V>)
    requires Shape(s) && Shape(s') && s.deq <= s.enq && PutBack(s, t, v, s')
    ensures s'.deq <= s'.enq && Contents(s') == Contents(s) + [v]
  {
  }
}
