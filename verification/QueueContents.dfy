/** What the slots of the queue hold: an object is in a slot only from the moment its Push has
    written it until its Pop has moved it out, so nothing stays behind. */
module QueueContents {
  import opened QueueProtocol
  import opened QueueInvariant
  import opened QueueTheorems

  /** The Push that won ticket `k` has written its value and not yet published it. */
  ghost predicate IsWritten<V>(s: State<V>, k: nat) {
    StatusOf(s, k) == ClaimedByPush && s.pusher[k] in s.threads && s.threads[s.pusher[k]].PushPublish?
  }

  /** The Pop that won ticket `k` has not yet moved its value out. */
  ghost predicate IsUnread<V>(s: State<V>, k: nat) {
    StatusOf(s, k) == ClaimedByPop && s.popper[k] in s.threads && s.threads[s.popper[k]].PopRead?
  }

  ghost predicate SlotClean<V>(s: State<V>, i: nat)
    requires Shape(s) && i < s.cap
  {
    var k := s.ticket[i];
    s.data[i].Holds? ==> StatusOf(s, k) == Published || IsWritten(s, k) || IsUnread(s, k)
  }

  ghost predicate Clean<V>(s: State<V>)
    requires Shape(s)
  {
    forall i | 0 <= i < s.cap :: SlotClean(s, i)
  }

  /** A thread that owns nothing is not the one the slot is waiting for. */
  lemma GotoClean<V>(s: State<V>, t: Tid, pc: Pc<V>, i: nat)
    requires Shape(s) && i < s.cap && SlotClean(s, i) && (t in s.threads ==> !Owning(s.threads[t]))
    ensures SlotClean(Goto(s, t, pc), i)
  {
  }

  lemma WinPushClean<V>(s: State<V>, t: Tid, v: V, i: nat)
    requires Inv(s) && t in s.threads && s.threads[t] == PushCas(v, s.enq) && i < s.cap && SlotClean(s, i)
    ensures SlotClean(WinPush(s, t, v), i)
  {
    assert SlotOk(s, i);
  }

  lemma WriteClean<V>(s: State<V>, t: Tid, v: V, next: nat, i: nat)
    requires Inv(s) && t in s.threads && s.threads[t] == PushWrite(v, next) && i < s.cap && SlotClean(s, i)
    ensures SlotClean(WriteData(s, t, v, next), i)
  {
    assert ThreadOk(s, t);
  }

  lemma PublishClean<V>(s: State<V>, t: Tid, v: V, next: nat, i: nat)
    requires Inv(s) && t in s.threads && s.threads[t] == PushPublish(v, next) && i < s.cap && SlotClean(s, i)
    ensures SlotClean(Publish(s, t, v, next), i)
  {
    var k := s.ticket[i];
    assert ThreadOk(s, t);
    assert SlotOk(s, i);
    if k in s.pusher { assert PusherOk(s, k); }
  }

  lemma WinPopClean<V>(s: State<V>, t: Tid, i: nat)
    requires Inv(s) && t in s.threads && s.threads[t] == PopCas(s.deq) && i < s.cap && SlotClean(s, i)
    ensures SlotClean(WinPop(s, t), i)
  {
    TakeableTicket(s, t);
    assert SlotOk(s, i);
  }

  lemma ReadClean<V>(s: State<V>, t: Tid, next: nat, i: nat)
    requires Inv(s) && t in s.threads && s.threads[t] == PopRead(next) && i < s.cap && SlotClean(s, i)
    ensures SlotClean(ReadData(s, t, next), i)
  {
    var k := s.ticket[i];
    assert ThreadOk(s, t);
    assert SlotOk(s, i);
    if k in s.popper { assert PopperOk(s, k); }
  }

  lemma ReleaseClean<V>(s: State<V>, t: Tid, next: nat, out: Cell<V>, i: nat)
    requires Inv(s) && t in s.threads && s.threads[t] == PopRelease(next, out) && i < s.cap && SlotClean(s, i)
    ensures SlotClean(Release(s, t, next, out), i)
  {
    assert ThreadOk(s, t);
    assert SlotOk(s, i);
  }

  lemma PushStepClean<V>(s: State<V>, t: Tid, weak: bool, i: nat)
    requires Inv(s) && t in s.threads && i < s.cap && SlotClean(s, i)
    requires var pc := s.threads[t]; pc.PushCas? || pc.PushWrite? || pc.PushPublish?
    ensures SlotClean(StepThread(s, t, weak), i)
  {
    match s.threads[t]
    case PushCas(v, next) =>
      if s.enq == next && !weak { WinPushClean(s, t, v, i); } else { GotoClean(s, t, PushLoad(v, s.enq), i); }
    case PushWrite(v, next) => WriteClean(s, t, v, next, i);
    case PushPublish(v, next) => PublishClean(s, t, v, next, i);
  }

  lemma PopStepClean<V>(s: State<V>, t: Tid, weak: bool, i: nat)
    requires Inv(s) && t in s.threads && i < s.cap && SlotClean(s, i)
    requires var pc := s.threads[t]; pc.PopCas? || pc.PopRead? || pc.PopRelease?
    ensures SlotClean(StepThread(s, t, weak), i)
  {
    match s.threads[t]
    case PopCas(next) =>
      if s.deq == next && !weak { WinPopClean(s, t, i); } else { GotoClean(s, t, PopLoad(s.deq), i); }
    case PopRead(next) => ReadClean(s, t, next, i);
    case PopRelease(next, out) => ReleaseClean(s, t, next, out, i);
  }

  lemma StepClean<V>(s: State<V>, t: Tid, weak: bool, i: nat)
    requires Inv(s) && t in s.threads && i < s.cap && SlotClean(s, i)
    ensures SlotClean(StepThread(s, t, weak), i)
  {
    match s.threads[t]
    case PushCas(_, _) | PushWrite(_, _) | PushPublish(_, _) => PushStepClean(s, t, weak, i);
    case PopCas(_) | PopRead(_) | PopRelease(_, _) => PopStepClean(s, t, weak, i);
    case PushStart(_) | PushLoad(_, _) | PushReload(_, _) | PopStart | PopLoad(_) | PopReload(_) =>
      GotoClean(s, t, StepThread(s, t, weak).threads[t], i);
    case _ =>
  }

  /** Every action keeps the slots clean. */
  lemma ApplyClean<V>(s: State<V>, a: Action<V>)
    requires Inv(s) && Clean(s)
    ensures Clean(Apply(s, a))
  {
    forall i | 0 <= i < s.cap ensures SlotClean(Apply(s, a), i) {
      assert SlotClean(s, i);
      match a
      case CallPush(t, v) => if CanCall(s, t) { GotoClean(s, t, PushStart(v), i); }
      case CallPop(t) => if CanCall(s, t) { GotoClean(s, t, PopStart, i); }
      case Step(t, weak) => if t in s.threads { StepClean(s, t, weak, i); }
    }
  }

  lemma {:induction false} ExecClean<V>(s: State<V>, acts: seq<Action<V>>)
    requires Inv(s) && Clean(s)
    ensures Clean(Exec(s, acts))
  {
    if acts != [] {
      ExecInv(s, acts[..|acts| - 1]);
      ExecClean(s, acts[..|acts| - 1]);
      ApplyClean(Exec(s, acts[..|acts| - 1]), acts[|acts| - 1]);
    }
  }

  /** A slot holds an object exactly between the write and the move of its ticket, and it is the
      value of that ticket. */
  lemma CleanSlotHolds<V>(s: State<V>, i: nat)
    requires Inv(s) && Clean(s) && i < s.cap
    ensures var k := s.ticket[i];
            && SlotOf(s.cap, k) == i
            && (s.data[i].Holds? <==> StatusOf(s, k) == Published || IsWritten(s, k) || IsUnread(s, k))
            && (s.data[i].Holds? ==> k < s.enq && s.data[i] == Holds(s.log[k]) && (s.deq <= k || IsUnread(s, k)))
  {
    var k := s.ticket[i];
    assert SlotClean(s, i) && SlotOk(s, i);
    if IsWritten(s, k) {
      assert PusherOk(s, k);
      assert ThreadOk(s, s.pusher[k]);
    } else if IsUnread(s, k) {
      assert PopperOk(s, k);
      assert ThreadOk(s, s.popper[k]);
    }
  }

  lemma ReachableClean<V(!new)>(s: State<V>)
    requires Reachable(s)
    ensures Inv(s) && Clean(s)
  {
    ReachableInv(s);
    var acts: seq<Action<V>> :| s == Exec(Init<V>(s.cap), acts);
    InitInv<V>(s.cap);
    ExecClean(Init<V>(s.cap), acts);
  }

  /** In every reachable state a slot holds an object exactly while its ticket has been written and
      not yet moved out: no value stays behind in the queue. */
  lemma NothingStaysBehind<V(!new)>(s: State<V>, i: nat)
    requires Reachable(s) && i < s.cap
    ensures Shape(s)
    ensures var k := s.ticket[i];
            && SlotOf(s.cap, k) == i
            && (s.data[i].Holds? <==> StatusOf(s, k) == Published || IsWritten(s, k) || IsUnread(s, k))
            && (s.data[i].Holds? ==> k < s.enq && s.data[i] == Holds(s.log[k]))
  {
    ReachableClean(s);
    CleanSlotHolds(s, i);
  }
}
