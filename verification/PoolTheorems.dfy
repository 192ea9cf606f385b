/** What the thread pool guarantees over every run, for the capacity it is configured with. */
module PoolTheorems {
  import opened Bits
  import opened QueueProtocol
  import opened QueueTheorems
  import opened ConcretePool
  import Abstract = ThreadPool

  /** `ThreadPool(threads, capacity)`: every worker's queue gets `MakePowerOfTwo(capacity)`. */
  function PoolFor(threads: nat, capacity: nat): Pool
    requires capacity < WORD
  {
    NewPool(threads, PowerOfTwoFor(capacity))
  }

  /** The pool after any interleaving of its threads' steps. */
  function Run(threads: nat, capacity: nat, acts: seq<PoolAction>): (p: Pool)
    requires threads > 0 && capacity < WORD && PowerOfTwoFor(capacity) > 0
    ensures PoolShape(p) && Threads(p) == threads
  {
    ActAll(PoolFor(threads, capacity), acts)
  }

  /** The capacities for which the queues work. */
  predicate GoodCapacity(capacity: nat) {
    2 <= capacity <= WORD / 2
  }

  lemma GoodQueues(capacity: nat)
    requires GoodCapacity(capacity)
    ensures IsPow2(PowerOfTwoFor(capacity)) && capacity <= PowerOfTwoFor(capacity) && PowerOfTwoFor(capacity) >= 2
  {
    LeastPowerOfTwo(capacity);
  }

  lemma ReachedInv(threads: nat, capacity: nat, acts: seq<PoolAction>) returns (bs: seq<Abstract.Action>)
    requires threads > 0 && GoodCapacity(capacity)
    ensures PowerOfTwoFor(capacity) > 0
    ensures var p := Run(threads, capacity, acts);
            PoolInv(p) && View(p) == Abstract.Exec(Abstract.Init(threads, PowerOfTwoFor(capacity)), bs)
  {
    GoodQueues(capacity);
    bs := RunRefines(threads, PowerOfTwoFor(capacity), acts);
  }

  // ---------------------------------------------------------------------
  // Where a task is
  // ---------------------------------------------------------------------

  /** The `Submit` call of this task has returned, with this result. */
  predicate SubmitReturned(p: Pool, task: TaskId, result: bool)
    requires PoolShape(p)
  {
    task < |p.chosen| &&
    var q := p.queues[p.chosen[task]];
    Submitter(task) in q.threads && q.threads[Submitter(task)].PushReturn? && q.threads[Submitter(task)].ok == result
  }

  /** Where a task object can be: in slot `index` of a queue, moved out of it by a worker whose Pop
      has not been left yet, run by a worker, or done. */
  datatype Holder = Slot(queue: nat, index: nat) | Taker(worker: nat, queue: nat) | Runner(worker: nat) | Done(n: nat)

  predicate HeldBy(p: Pool, h: Holder, task: TaskId)
    requires PoolShape(p)
  {
    match h
    case Slot(j, i) => j < Threads(p) && i < p.cap && p.queues[j].data[i] == Holds(task)
    case Taker(i, j) => i < Threads(p) && j < Threads(p) && Carries(p, i, j, task)
    case Runner(i) => i < Threads(p) && p.pcs[i] == Running(task)
    case Done(n) => n < |p.finished| && p.finished[n].task == task
  }

  /** The task object is somewhere. */
  ghost predicate Held(p: Pool, task: TaskId)
    requires PoolShape(p)
  {
    exists h :: HeldBy(p, h, task)
  }

  /** Worker `i`, inside a Pop on queue `j`, has moved the task out of its slot. */
  predicate Carries(p: Pool, i: nat, j: nat, task: TaskId)
    requires PoolShape(p) && i < Threads(p) && j < Threads(p)
  {
    var q, t := p.queues[j], Worker(i);
    && Popping(p, i, j) && t in q.threads
    && (q.threads[t].PopRelease? || (q.threads[t].PopReturn? && q.threads[t].ok)) && q.threads[t].out == Holds(task)
  }

  // Finding a task that is counted.

  lemma {:induction false} InSomeQueue(qs: seq<seq<TaskId>>, t: TaskId) returns (j: nat)
    requires Abstract.InQueues(qs, t) > 0
    ensures j < |qs| && t in qs[j]
  {
    if t in qs[0] {
      j := 0;
    } else {
      j := InSomeQueue(qs[1..], t);
      j := j + 1;
    }
  }

  lemma {:induction false} InSomeHand(pcs: seq<Abstract.WorkerPc>, t: TaskId) returns (i: nat)
    requires Abstract.InHands(pcs, t) > 0
    ensures i < |pcs| && pcs[i] == Abstract.Running(t)
  {
    if pcs[0] == Abstract.Running(t) {
      i := 0;
    } else {
      i := InSomeHand(pcs[1..], t);
      i := i + 1;
    }
  }

  lemma {:induction false} IsFinished(finished: seq<Abstract.Finished>, t: TaskId) returns (n: nat)
    requires Abstract.InFinished(finished, t) > 0
    ensures n < |finished| && finished[n].task == t
  {
    if finished[|finished| - 1].task == t {
      n := |finished| - 1;
    } else {
      n := IsFinished(finished[..|finished| - 1], t);
    }
  }

  lemma {:induction false} PostedCounts(qs: seq<seq<TaskId>>, j: nat, t: TaskId)
    requires j < |qs| && t in qs[j]
    ensures Abstract.InQueues(qs, t) > 0
  {
    if j > 0 {
      PostedCounts(qs[1..], j - 1, t);
    }
  }

  /** A ticket that is logged and not yet taken has its value in its slot. */
  lemma WaitingIsInSlot(q: State<TaskId>, k: nat)
    requires Inv(q) && q.deq <= k < q.enq && k !in q.pusher
    ensures q.data[SlotOf(q.cap, k)] == Holds(q.log[k])
  {
    TicketLap(q, k);
    assert SlotOk(q, SlotOf(q.cap, k));
  }

  lemma WorkersDoNotPush(p: Pool, j: nat, i: nat)
    requires PoolInv(p) && j < Threads(p) && Worker(i) in p.queues[j].threads
    ensures var pc := p.queues[j].threads[Worker(i)]; !pc.PushWrite? && !pc.PushPublish?
  {
    assert QueueOk(p, j);
    assert WorkerOk(p, i, j);
  }

  lemma PushersAreSubmitters(p: Pool, j: nat, t: Tid)
    requires PoolInv(p) && j < Threads(p) && t in p.queues[j].threads
    requires p.queues[j].threads[t].PushWrite? || p.queues[j].threads[t].PushPublish?
    ensures t == Submitter(p.queues[j].threads[t].v)
  {
    assert QueueOk(p, j);
    if t % 2 == 0 {
      var u: TaskId := t / 2;
      assert t == Submitter(u);
      assert SubmitterOk(p, u);
    } else {
      var i := t / 2;
      assert t == Worker(i);
      WorkersDoNotPush(p, j, i);
    }
  }

  /** The task of a Submit that returned true is in the slot of its ticket while it waits. */
  lemma WaitingTaskIsHeld(p: Pool, task: TaskId, j: nat)
    requires PoolInv(p) && SubmitReturned(p, task, true) && j < Threads(p) && task in WaitingIn(p.queues[j])
    ensures Held(p, task)
  {
    assert QueueOk(p, j);
    var q := p.queues[j];
    assert q.deq <= q.enq == |q.log|;
    var d :| 0 <= d < |q.log[q.deq..]| && q.log[q.deq..][d] == task;
    var k := q.deq + d;
    assert q.log[k] == task && task in q.log;
    LoggedOnce(p, task, j, k);
    WaitingIsInSlot(q, k);
    assert HeldBy(p, Slot(j, SlotOf(q.cap, k)), task);
  }

  /** Whoever holds a pusher's ticket for the task is the submitter, who has not returned. */
  lemma LoggedOnce(p: Pool, task: TaskId, j: nat, k: nat)
    requires PoolInv(p) && SubmitReturned(p, task, true) && j < Threads(p) && Inv(p.queues[j])
    requires k < p.queues[j].enq && p.queues[j].log[k] == task
    ensures k !in p.queues[j].pusher
  {
    var q := p.queues[j];
    assert QueueOk(p, j) && task in q.log;
    if k in q.pusher {
      assert PusherOk(q, k);
      var t := q.pusher[k];
      assert ThreadOk(q, t);
      PushersAreSubmitters(p, j, t);
    }
  }

  lemma HandIsHeld(p: Pool, task: TaskId, i: nat)
    requires PoolInv(p) && i < Threads(p) && AbstractPc(p, i) == Abstract.Running(task)
    ensures Held(p, task)
  {
    if p.pcs[i] == Running(task) {
      assert HeldBy(p, Runner(i), task);
    } else {
      var j := if p.pcs[i] == OwnPop then i else Donor(p, i);
      TakenIsHeld(p, task, i, j);
    }
  }

  lemma TakenIsHeld(p: Pool, task: TaskId, i: nat, j: nat)
    requires PoolInv(p) && i < Threads(p) && j < Threads(p) && Popping(p, i, j)
    requires AbstractPc(p, i) == Abstract.Running(task)
    ensures Held(p, task)
  {
    var q, t := p.queues[j], Worker(i);
    assert QueueOk(p, j) && WorkerOk(p, i, j);
    assert ThreadOk(q, t);
    if q.threads[t].PopRead? {
      assert HeldBy(p, Slot(j, SlotOf(q.cap, q.threads[t].next)), task);
    } else {
      assert HeldBy(p, Taker(i, j), task);
    }
  }

  // ---------------------------------------------------------------------
  // Theorems over every run
  // ---------------------------------------------------------------------

  /** The Push of this task has won. */
  predicate Logged(p: Pool, task: TaskId)
    requires PoolShape(p)
  {
    task < |p.chosen| && task in p.queues[p.chosen[task]].log
  }

  lemma LoggedIsAccepted(p: Pool, task: TaskId)
    requires PoolInv(p)
    ensures Logged(p, task) <==> Abstract.Accepted(View(p), task) > 0
    ensures SubmitReturned(p, task, true) ==> Logged(p, task)
    ensures SubmitReturned(p, task, false) ==> !Logged(p, task)
  {
    if Logged(p, task) {
      PostedCounts(View(p).posted, p.chosen[task], task);
    }
    if Abstract.Accepted(View(p), task) > 0 {
      var j := InSomeQueue(View(p).posted, task);
      assert QueueOk(p, j);
    }
    if task < |p.chosen| { assert SubmitterOk(p, task); }
  }

  /** A task whose Push has won is in exactly one place, once: waiting in a queue, with a worker,
      or finished; no other task is anywhere. A Submit that returned true has won, and one that
      returned false has not. So nothing is run twice, even while workers stop. */
  lemma {:induction false} TaskConservation(threads: nat, capacity: nat, acts: seq<PoolAction>, task: TaskId)
    requires threads > 0 && GoodCapacity(capacity)
    ensures PowerOfTwoFor(capacity) > 0
    ensures var p := Run(threads, capacity, acts);
            && Abstract.Places(View(p), task) == (if Logged(p, task) then 1 else 0)
            && (SubmitReturned(p, task, true) ==> Logged(p, task))
            && (SubmitReturned(p, task, false) ==> !Logged(p, task))
  {
    var bs := ReachedInv(threads, capacity, acts);
    var p := Run(threads, capacity, acts);
    Abstract.TaskConservation(threads, PowerOfTwoFor(capacity), bs, task);
    LoggedIsAccepted(p, task);
  }

  /** Nothing accepted is lost: the task object of a Submit that returned true is in a slot, with
      a worker, or has been run. */
  lemma {:induction false} NothingIsLost(threads: nat, capacity: nat, acts: seq<PoolAction>, task: TaskId)
    requires threads > 0 && GoodCapacity(capacity)
    ensures PowerOfTwoFor(capacity) > 0
    ensures var p := Run(threads, capacity, acts); SubmitReturned(p, task, true) ==> Held(p, task)
  {
    var bs := ReachedInv(threads, capacity, acts);
    var p := Run(threads, capacity, acts);
    if SubmitReturned(p, task, true) {
      TaskConservation(threads, capacity, acts, task);
      PlacedIsHeld(p, task);
    }
  }

  lemma PlacedIsHeld(p: Pool, task: TaskId)
    requires PoolInv(p) && SubmitReturned(p, task, true) && Abstract.Places(View(p), task) > 0
    ensures Held(p, task)
  {
    if Abstract.InQueues(View(p).queues, task) > 0 {
      var j := InSomeQueue(View(p).queues, task);
      WaitingTaskIsHeld(p, task, j);
    } else if Abstract.InHands(View(p).pcs, task) > 0 {
      var i := InSomeHand(View(p).pcs, task);
      HandIsHeld(p, task, i);
    } else {
      var n := IsFinished(p.finished, task);
      assert HeldBy(p, Done(n), task);
    }
  }

  /** A task submitted to worker `j` is only ever run by `j` or by `j - 1` modulo the number of
      workers. */
  lemma {:induction false} OnlyNeighboursSteal(threads: nat, capacity: nat, acts: seq<PoolAction>)
    requires threads > 0 && GoodCapacity(capacity)
    ensures PowerOfTwoFor(capacity) > 0
    ensures var p := Run(threads, capacity, acts);
            && (forall i | 0 <= i < threads && p.pcs[i].Running? ::
                  p.pcs[i].task < |p.chosen| && Abstract.RunsFor(threads, i, p.chosen[p.pcs[i].task]))
            && (forall f | f in p.finished ::
                  f.task < |p.chosen| && Abstract.RunsFor(threads, f.worker, p.chosen[f.task]))
  {
    var bs := ReachedInv(threads, capacity, acts);
    var p := Run(threads, capacity, acts);
    Abstract.OnlyNeighboursSteal(threads, PowerOfTwoFor(capacity), bs);
    forall i | 0 <= i < threads && p.pcs[i].Running?
      ensures p.pcs[i].task < |p.chosen| && Abstract.RunsFor(threads, i, p.chosen[p.pcs[i].task])
    {
      assert View(p).pcs[i] == Abstract.Running(p.pcs[i].task);
    }
  }

  /** The waiting tasks never exceed the number of workers times the least power of two at or
      above the configured capacity, and each queue keeps its own bound. */
  lemma {:induction false} PoolCapacity(threads: nat, capacity: nat, acts: seq<PoolAction>)
    requires threads > 0 && GoodCapacity(capacity)
    ensures PowerOfTwoFor(capacity) > 0
    ensures var p := Run(threads, capacity, acts);
            && Abstract.Waiting(Waits(p.queues)) <= threads * PowerOfTwoFor(capacity)
            && (forall j | 0 <= j < threads :: |WaitingIn(p.queues[j])| <= PowerOfTwoFor(capacity))
  {
    var bs := ReachedInv(threads, capacity, acts);
    var p := Run(threads, capacity, acts);
    Abstract.PoolCapacity(threads, PowerOfTwoFor(capacity), bs);
    forall j | 0 <= j < threads ensures |WaitingIn(p.queues[j])| <= PowerOfTwoFor(capacity) {
      Abstract.QueuesAreFifo(threads, PowerOfTwoFor(capacity), bs, j);
      assert View(p).queues[j] == WaitingIn(p.queues[j]);
    }
  }

  /** Each queue is first in, first out: the tasks logged are those taken and those waiting, in
      this order, and a worker's Pop that returned true hands over the task of its place in it. */
  lemma {:induction false} QueuesAreFifo(threads: nat, capacity: nat, acts: seq<PoolAction>, j: nat)
    requires j < threads && GoodCapacity(capacity)
    ensures PowerOfTwoFor(capacity) > 0
    ensures var q := Run(threads, capacity, acts).queues[j];
            && q.log == TakenFrom(q) + WaitingIn(q) && |TakenFrom(q)| == q.deq
            && (forall t | t in q.threads && q.threads[t].PopReturn? && q.threads[t].ok ::
                  q.threads[t].next < q.deq && q.threads[t].out == Holds(TakenFrom(q)[q.threads[t].next]))
  {
    var bs := ReachedInv(threads, capacity, acts);
    var p := Run(threads, capacity, acts);
    assert QueueOk(p, j);
    QueueIsFifo(p.queues[j]);
  }

  lemma QueueIsFifo(q: State<TaskId>)
    requires Inv(q)
    ensures q.log == TakenFrom(q) + WaitingIn(q) && |TakenFrom(q)| == q.deq
    ensures forall t | t in q.threads && q.threads[t].PopReturn? && q.threads[t].ok ::
              q.threads[t].next < q.deq && q.threads[t].out == Holds(TakenFrom(q)[q.threads[t].next])
  {
    assert q.deq <= q.enq == |q.log|;
    forall t | t in q.threads && q.threads[t].PopReturn? && q.threads[t].ok
      ensures q.threads[t].next < q.deq && q.threads[t].out == Holds(TakenFrom(q)[q.threads[t].next])
    {
      assert ThreadOk(q, t);
      assert DeliveredOk(q, q.threads[t].next);
    }
  }

  // ---------------------------------------------------------------------
  // The other capacities
  // ---------------------------------------------------------------------

  lemma {:induction false} ExecJoin(p: Pool, a: seq<PoolAction>, b: seq<PoolAction>)
    requires PoolShape(p)
    ensures ActAll(p, a + b) == ActAll(ActAll(p, a), b)
  {
    if b == [] {
      assert a + b == a;
    } else {
      LastAction(a, b);
      ExecJoin(p, a, b[..|b| - 1]);
    }
  }

  lemma LastAction(a: seq<PoolAction>, b: seq<PoolAction>)
    requires b != []
    ensures (a + b)[..|a + b| - 1] == a + b[..|b| - 1] && (a + b)[|a + b| - 1] == b[|b| - 1]
  {
  }

  /** `n` steps of the Push of `task`. */
  function Steps(task: TaskId, n: nat): seq<PoolAction> {
    seq(n, _ => Submit(task, false))
  }

  function PushSteps(task: TaskId, n: nat): seq<Action<TaskId>> {
    seq(n, _ => Step(Submitter(task), false))
  }

  /** One whole Submit call without interference. */
  function SubmitAlone(task: TaskId): seq<PoolAction> {
    [Select] + Steps(task, 5)
  }

  lemma {:induction false} StepsOnQueue(p: Pool, task: TaskId, n: nat)
    requires PoolShape(p) && Threads(p) == 1 && task < |p.chosen|
    ensures ActAll(p, Steps(task, n))
         == WithQueue(p, 0, QueueProtocol.Exec(p.queues[0], PushSteps(task, n)))
    decreases n
  {
    if n == 0 {
      assert p.queues[0 := p.queues[0]] == p.queues;
    } else {
      StepsOnQueue(p, task, n - 1);
      LastStep(p, task, n);
      StepOnQueue(p, QueueProtocol.Exec(p.queues[0], PushSteps(task, n - 1)), task);
    }
  }

  lemma LastStep(p: Pool, task: TaskId, n: nat)
    requires PoolShape(p) && n > 0 && Threads(p) == 1
    ensures ActAll(p, Steps(task, n)) == Act(ActAll(p, Steps(task, n - 1)), Submit(task, false))
    ensures QueueProtocol.Exec(p.queues[0], PushSteps(task, n))
         == QueueProtocol.Apply(QueueProtocol.Exec(p.queues[0], PushSteps(task, n - 1)), Step(Submitter(task), false))
  {
    assert Steps(task, n)[..n - 1] == Steps(task, n - 1);
    assert PushSteps(task, n)[..n - 1] == PushSteps(task, n - 1);
  }

  lemma StepOnQueue(p: Pool, q: State<TaskId>, task: TaskId)
    requires PoolShape(p) && Threads(p) == 1 && task < |p.chosen| && Shape(q) && q.cap == p.cap
    ensures Act(WithQueue(p, 0, q), Submit(task, false))
         == WithQueue(p, 0, QueueProtocol.Apply(q, Step(Submitter(task), false)))
  {
    Overwritten(p.queues, q, QueueProtocol.Apply(q, Step(Submitter(task), false)));
  }

  lemma PushAloneSplits(q: State<TaskId>, task: TaskId)
    requires Shape(q)
    ensures QueueProtocol.Exec(q, PushAlone(Submitter(task), task))
         == QueueProtocol.Exec(QueueProtocol.Apply(q, CallPush(Submitter(task), task)), PushSteps(task, 5))
  {
    var call := [CallPush(Submitter(task), task)];
    assert call[..0] == [];
    assert call + PushSteps(task, 5) == PushAlone(Submitter(task), task);
    ExecConcat(q, call, PushSteps(task, 5));
  }

  /** The pool after a Submit call that nobody interferes with. */
  function Submitted(p: Pool, task: TaskId): (p': Pool)
    requires PoolShape(p) && Threads(p) == 1
    ensures PoolShape(p') && Threads(p') == 1
  {
    WithQueue(p, 0, QueueProtocol.Exec(p.queues[0], PushAlone(Submitter(task), task)))
      .(next := (p.next + 1) % WORD, chosen := p.chosen + [0])
  }

  lemma SelectAlone(p: Pool)
    requires PoolShape(p) && Threads(p) == 1
    ensures ActAll(p, [Select]) == SelectOn(p, 0)
  {
    var first: seq<PoolAction> := [Select];
    assert first[..0] == [];
  }

  lemma Overwritten(qs: seq<State<TaskId>>, a: State<TaskId>, b: State<TaskId>)
    requires |qs| == 1
    ensures qs[0 := a][0 := b] == qs[0 := b] && qs[0 := a][0] == a
  {
  }

  lemma SubmitAloneIsPush(p: Pool, task: TaskId)
    requires PoolShape(p) && Threads(p) == 1 && task == |p.chosen|
    ensures ActAll(p, SubmitAlone(task)) == Submitted(p, task)
  {
    ExecJoin(p, [Select], Steps(task, 5));
    SelectAlone(p);
    StepsOnQueue(SelectOn(p, 0), task, 5);
    PushAloneSplits(p.queues[0], task);
    var q1 := QueueProtocol.Apply(p.queues[0], CallPush(Submitter(task), task));
    Overwritten(p.queues, q1, QueueProtocol.Exec(q1, PushSteps(task, 5)));
  }

  /** What the one queue and the one worker look like after such a call. */
  lemma OneSubmit(p: Pool, task: TaskId)
    requires PoolShape(p) && Threads(p) == 1 && task == |p.chosen| && p.cap == 1
    requires p.queues[0].index == [p.queues[0].enq] && Submitter(task) !in p.queues[0].threads
    ensures var p' := ActAll(p, SubmitAlone(task));
            var q, q' := p.queues[0], p'.queues[0];
            && p'.cap == 1 && p'.pcs == p.pcs && p'.finished == p.finished && p'.chosen == p.chosen + [0]
            && q'.deq == q.deq && q'.enq == q.enq + 1 && q'.index == [q'.enq] && q'.data == [Holds(task)]
            && q'.threads == q.threads[Submitter(task) := PushReturn(true, task, q.enq)] && q'.log == q.log + [task]
  {
    SubmitAloneIsPush(p, task);
    OnePushAlone(p.queues[0], Submitter(task), task);
  }

  /** With one slot, and that taken by another task, and nobody doing anything. */
  lemma TaskIsGone(p: Pool, task: TaskId, other: TaskId)
    requires PoolShape(p) && Threads(p) == 1 && p.cap == 1 && task != other
    requires p.queues[0].data == [Holds(other)] && p.pcs == [Checking] && p.finished == []
    ensures !Held(p, task)
  {
  }

  lemma AllWaiting(qs: seq<State<TaskId>>)
    requires |qs| == 1 && qs[0].deq == 0
    ensures Abstract.Waiting(Waits(qs)) == |qs[0].log|
  {
    assert Waits(qs)[1..] == [];
    assert WaitingIn(qs[0]) == qs[0].log;
  }

  /** A pool of one worker with a queue of capacity 1 after its first Submit call. */
  ghost predicate OneTask(p: Pool) {
    && PoolShape(p) && Threads(p) == 1 && p.cap == 1 && p.pcs == [Checking] && p.finished == [] && p.chosen == [0]
    && var q := p.queues[0];
       && q.deq == 0 && q.index == [q.enq] && q.log == [0]
       && q.threads == map[Submitter(0) := PushReturn(true, 0, 0)]
  }

  lemma FirstSubmit()
    ensures OneTask(ActAll(NewPool(1, 1), SubmitAlone(0)))
  {
    var p := NewPool(1, 1);
    assert p.queues[0].index == [0];
    OneSubmit(p, 0);
  }

  lemma SecondSubmit(p: Pool)
    requires OneTask(p)
    ensures var p' := ActAll(p, SubmitAlone(1));
            && SubmitReturned(p', 0, true) && SubmitReturned(p', 1, true) && !Held(p', 0)
            && Abstract.Waiting(Waits(p'.queues)) == 2
  {
    OneSubmit(p, 1);
    var p' := ActAll(p, SubmitAlone(1));
    TaskIsGone(p', 0, 1);
    AllWaiting(p'.queues);
  }

  /** A pool of one worker with a queue of capacity 1: two Submit calls, one after the other,
      return true, and the task of the first is nowhere. */
  lemma TwoSubmits()
    ensures var p := ActAll(NewPool(1, 1), SubmitAlone(0) + SubmitAlone(1));
            && SubmitReturned(p, 0, true) && SubmitReturned(p, 1, true) && !Held(p, 0)
            && Abstract.Waiting(Waits(p.queues)) == 2
  {
    FirstSubmit();
    SecondSubmit(ActAll(NewPool(1, 1), SubmitAlone(0)));
    ExecJoin(NewPool(1, 1), SubmitAlone(0), SubmitAlone(1));
  }

  /** A configured capacity is safe if the queues' constructor accepts the one computed from it
      and in every run of every such pool no accepted task is lost. */
  ghost predicate PoolIsSafe(capacity: nat)
    requires capacity < WORD
  {
    var cap := PowerOfTwoFor(capacity);
    cap > 0 && BitAnd(cap, cap - 1) == 0 &&
    forall threads: nat, acts: seq<PoolAction>, task: TaskId | threads > 0 ::
      SubmitReturned(Run(threads, capacity, acts), task, true) ==> Held(Run(threads, capacity, acts), task)
  }

  /** The pool is safe for exactly the capacities from 2 to 2^63: below, an accepted task can
      be lost; above, the queues are refused. */
  lemma SafePool(capacity: nat)
    requires capacity < WORD
    ensures PoolIsSafe(capacity) <==> GoodCapacity(capacity)
  {
    LeastPowerOfTwo(capacity);
    var cap := PowerOfTwoFor(capacity);
    if GoodCapacity(capacity) {
      PowerOfTwoTest(cap);
      forall threads: nat, acts: seq<PoolAction>, task: TaskId | threads > 0
        ensures SubmitReturned(Run(threads, capacity, acts), task, true) ==> Held(Run(threads, capacity, acts), task)
      {
        NothingIsLost(threads, capacity, acts, task);
      }
    } else if capacity <= 1 {
      TwoSubmits();
      var p := Run(1, capacity, SubmitAlone(0) + SubmitAlone(1));
      assert SubmitReturned(p, 0, true) && !Held(p, 0);
    }
  }

  /** The same for the bound: with a configured capacity of 0 or 1 the one queue of a pool of one
      worker can come to hold two tasks. */
  lemma BoundFails(capacity: nat)
    requires capacity <= 1
    ensures PowerOfTwoFor(capacity) == 1
    ensures var p := Run(1, capacity, SubmitAlone(0) + SubmitAlone(1));
            Abstract.Waiting(Waits(p.queues)) > 1 * PowerOfTwoFor(capacity)
  {
    LeastPowerOfTwo(capacity);
    TwoSubmits();
  }

  // ---------------------------------------------------------------------
  // Round robin, whatever the capacity
  // ---------------------------------------------------------------------

  ghost predicate RoundRobin(p: Pool)
    requires PoolShape(p)
  {
    && (|p.chosen| < WORD ==> p.next == |p.chosen|)
    && (|p.chosen| <= WORD ==> forall k | 0 <= k < |p.chosen| :: p.chosen[k] == k % Threads(p))
  }

  lemma {:induction false} ExecRoundRobin(p: Pool, acts: seq<PoolAction>)
    requires PoolShape(p) && RoundRobin(p)
    ensures RoundRobin(ActAll(p, acts))
  {
    if acts != [] {
      ExecRoundRobin(p, acts[..|acts| - 1]);
      var q, a := ActAll(p, acts[..|acts| - 1]), acts[|acts| - 1];
      if a.Select? {
        SelectRoundRobin(q);
      } else {
        assert Act(q, a).chosen == q.chosen && Act(q, a).next == q.next;
      }
    }
  }

  lemma SelectRoundRobin(p: Pool)
    requires PoolShape(p) && RoundRobin(p)
    ensures RoundRobin(DoSelect(p))
  {
  }

  /** After `n <= 2^64` Submit calls from any threads, in any interleaving, accepted or not, every
      worker was selected `n / threads` times, or once more for the first `n % threads` workers. */
  lemma {:induction false} FairSelection(threads: nat, cap: nat, acts: seq<PoolAction>, j: nat)
    requires j < threads && cap > 0 && |ActAll(NewPool(threads, cap), acts).chosen| <= WORD
    ensures var chosen := ActAll(NewPool(threads, cap), acts).chosen;
            Abstract.Count(chosen, j) == |chosen| / threads + if j < |chosen| % threads then 1 else 0
  {
    ExecRoundRobin(NewPool(threads, cap), acts);
    Abstract.CountRoundRobin(ActAll(NewPool(threads, cap), acts).chosen, threads, j);
  }
}
