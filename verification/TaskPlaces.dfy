/** The task objects of the pool: a task is never in two slots, two hands, or in a slot and a hand. */
module TaskPlaces {
  import opened Bits
  import opened QueueProtocol
  import opened QueueContents
  import opened ConcretePool
  import opened PoolTheorems
  import Abstract = ThreadPool

  // ---------------------------------------------------------------------
  // The slots of all queues stay clean
  // ---------------------------------------------------------------------

  ghost predicate PoolClean(p: Pool)
    requires PoolShape(p)
  {
    forall j | 0 <= j < Threads(p) :: Clean(p.queues[j])
  }

  lemma OnQueueClean(p: Pool, j: nat, a: Action<TaskId>)
    requires PoolShape(p) && PoolClean(p) && j < Threads(p) && Inv(p.queues[j])
    ensures PoolClean(OnQueue(p, j, a))
  {
    ApplyClean(p.queues[j], a);
  }

  lemma ActClean(p: Pool, a: PoolAction)
    requires PoolInv(p) && PoolClean(p)
    ensures PoolClean(Act(p, a))
  {
    match a
    case Select =>
      var j := p.next % Threads(p);
      assert QueueOk(p, j);
      OnQueueClean(p, j, CallPush(Submitter(|p.chosen|), |p.chosen|));
    case Submit(task, weak) =>
      if task < |p.chosen| {
        assert QueueOk(p, p.chosen[task]);
        OnQueueClean(p, p.chosen[task], Step(Submitter(task), weak));
      }
    case Work(i, weak) => if i < Threads(p) { WorkClean(p, i, weak); }
    case Stop(i) =>
  }

  lemma WorkClean(p: Pool, i: nat, weak: bool)
    requires PoolInv(p) && PoolClean(p) && i < Threads(p)
    ensures PoolClean(DoWork(p, i, weak))
  {
    assert QueueOk(p, i) && QueueOk(p, Donor(p, i));
    match p.pcs[i]
    case Checking => OnQueueClean(p, i, CallPop(Worker(i)));
    case OwnPop =>
      OnQueueClean(p, i, Step(Worker(i), weak));
      OnQueueClean(p, Donor(p, i), CallPop(Worker(i)));
    case DonorPop => OnQueueClean(p, Donor(p, i), Step(Worker(i), weak));
    case _ =>
  }

  lemma {:induction false} RunClean(threads: nat, cap: nat, acts: seq<PoolAction>)
    requires threads > 0 && IsPow2(cap) && cap >= 2
    ensures PoolInv(ActAll(NewPool(threads, cap), acts)) && PoolClean(ActAll(NewPool(threads, cap), acts))
  {
    NewPoolInv(threads, cap);
    if acts != [] {
      var front := acts[..|acts| - 1];
      RunClean(threads, cap, front);
      StepRefines(ActAll(NewPool(threads, cap), front), acts[|acts| - 1]);
      ActClean(ActAll(NewPool(threads, cap), front), acts[|acts| - 1]);
    }
  }

  // ---------------------------------------------------------------------
  // Places of the abstract pool
  // ---------------------------------------------------------------------

  /** A position in a queue, a worker's hand, a record of a finished task. */
  datatype Place = Queued(queue: nat, position: nat) | Hand(worker: nat) | Record(n: nat)

  predicate At(s: Abstract.State, a: Place, task: TaskId) {
    match a
    case Queued(j, d) => j < |s.queues| && d < |s.queues[j]| && s.queues[j][d] == task
    case Hand(i) => i < |s.pcs| && s.pcs[i] == Abstract.Running(task)
    case Record(n) => n < |s.finished| && s.finished[n].task == task
  }

  lemma {:induction false} TwiceInSequence(s: seq<TaskId>, a: nat, b: nat, t: TaskId)
    requires a < b < |s| && s[a] == s[b] == t
    ensures multiset(s)[t] >= 2
  {
    assert s == s[..b] + s[b..];
    assert s[..b][a] == t && s[b..][0] == t;
    assert t in s[..b] && t in s[b..];
  }

  lemma {:induction false} WaitsCounts(qs: seq<seq<TaskId>>, j: nat, d: nat, t: TaskId)
    requires j < |qs| && d < |qs[j]| && qs[j][d] == t
    ensures Abstract.InQueues(qs, t) >= 1
  {
    assert t in qs[j];
    PostedCounts(qs, j, t);
  }

  lemma {:induction false} WaitsTwice(qs: seq<seq<TaskId>>, a: Place, b: Place, t: TaskId)
    requires a.Queued? && b.Queued? && a.queue <= b.queue < |qs| && (a.queue == b.queue ==> a.position < b.position)
    requires a.position < |qs[a.queue]| && qs[a.queue][a.position] == t
    requires b.position < |qs[b.queue]| && qs[b.queue][b.position] == t
    ensures Abstract.InQueues(qs, t) >= 2
  {
    if a.queue > 0 {
      WaitsTwice(qs[1..], Queued(a.queue - 1, a.position), Queued(b.queue - 1, b.position), t);
    } else if b.queue == 0 {
      TwiceInSequence(qs[0], a.position, b.position, t);
    } else {
      assert t in qs[0];
      WaitsCounts(qs[1..], b.queue - 1, b.position, t);
    }
  }

  lemma {:induction false} HandCounts(pcs: seq<Abstract.WorkerPc>, i: nat, t: TaskId)
    requires i < |pcs| && pcs[i] == Abstract.Running(t)
    ensures Abstract.InHands(pcs, t) >= 1
  {
    if i > 0 { HandCounts(pcs[1..], i - 1, t); }
  }

  lemma {:induction false} HandsTwice(pcs: seq<Abstract.WorkerPc>, a: nat, b: nat, t: TaskId)
    requires a < b < |pcs| && pcs[a] == pcs[b] == Abstract.Running(t)
    ensures Abstract.InHands(pcs, t) >= 2
  {
    if a > 0 { HandsTwice(pcs[1..], a - 1, b - 1, t); } else { HandCounts(pcs[1..], b - 1, t); }
  }

  lemma {:induction false} RecordCounts(finished: seq<Abstract.Finished>, n: nat, t: TaskId)
    requires n < |finished| && finished[n].task == t
    ensures Abstract.InFinished(finished, t) >= 1
  {
    if n < |finished| - 1 { RecordCounts(finished[..|finished| - 1], n, t); }
  }

  lemma {:induction false} RecordsTwice(finished: seq<Abstract.Finished>, a: nat, b: nat, t: TaskId)
    requires a < b < |finished| && finished[a].task == finished[b].task == t
    ensures Abstract.InFinished(finished, t) >= 2
  {
    var front := finished[..|finished| - 1];
    if b < |finished| - 1 { RecordsTwice(front, a, b, t); } else { RecordCounts(front, a, t); }
  }

  lemma AtCounts(s: Abstract.State, a: Place, t: TaskId)
    requires At(s, a, t)
    ensures a.Queued? ==> Abstract.InQueues(s.queues, t) >= 1
    ensures a.Hand? ==> Abstract.InHands(s.pcs, t) >= 1
    ensures a.Record? ==> Abstract.InFinished(s.finished, t) >= 1
  {
    match a
    case Queued(j, d) => WaitsCounts(s.queues, j, d, t);
    case Hand(i) => HandCounts(s.pcs, i, t);
    case Record(n) => RecordCounts(s.finished, n, t);
  }

  /** A task that is counted at most once has at most one place. */
  lemma OnePlace(s: Abstract.State, a: Place, b: Place, t: TaskId)
    requires At(s, a, t) && At(s, b, t) && Abstract.Places(s, t) <= 1
    ensures a == b
  {
    AtCounts(s, a, t);
    AtCounts(s, b, t);
    if a != b {
      match (a, b)
      case (Queued(j, d), Queued(k, f)) =>
        if j < k || (j == k && d < f) { WaitsTwice(s.queues, a, b, t); } else { WaitsTwice(s.queues, b, a, t); }
      case (Hand(i), Hand(k)) => HandsTwice(s.pcs, if i < k then i else k, if i < k then k else i, t);
      case (Record(m), Record(n)) => RecordsTwice(s.finished, if m < n then m else n, if m < n then n else m, t);
      case _ =>
    }
  }

  // ---------------------------------------------------------------------
  // From holders to places
  // ---------------------------------------------------------------------

  /** What the abstract pool makes of a holder. */
  function PlaceOf(p: Pool, h: Holder): Place
    requires PoolShape(p) && (h.Slot? ==> h.queue < Threads(p) && h.index < p.cap)
  {
    match h
    case Slot(j, i) =>
      var q := p.queues[j];
      var k := q.ticket[i];
      if q.deq <= k then Queued(j, k - q.deq) else if k in q.popper then Hand(q.popper[k] / 2) else Hand(0)
    case Taker(i, _) => Hand(i)
    case Runner(i) => Hand(i)
    case Done(n) => Record(n)
  }

  lemma SubmitterPushes(p: Pool, j: nat, task: TaskId)
    requires PoolInv(p) && j < Threads(p) && Submitter(task) in p.queues[j].threads
    ensures InPush(p.queues[j].threads[Submitter(task)])
  {
    assert QueueOk(p, j);
    assert SubmitterOk(p, task);
  }

  /** A thread that is moving a value out of queue `j` is a worker whose place is there. */
  lemma ReaderIsWorker(p: Pool, j: nat, t: Tid)
    requires PoolInv(p) && j < Threads(p) && t in p.queues[j].threads && p.queues[j].threads[t].PopRead?
    ensures t / 2 < Threads(p) && t == Worker(t / 2) && Popping(p, t / 2, j)
  {
    assert QueueOk(p, j);
    if t % 2 == 0 {
      SubmitterPushes(p, j, t / 2);
    } else {
      var i := t / 2;
      assert t == Worker(i);
      assert WorkerOk(p, i, j);
    }
  }

  lemma UnreadSlot(p: Pool, j: nat, i: nat)
    requires PoolInv(p) && j < Threads(p) && i < p.cap && IsUnread(p.queues[j], p.queues[j].ticket[i])
    ensures var q := p.queues[j];
            var w := q.popper[q.ticket[i]] / 2;
            && q.ticket[i] < q.deq && w < Threads(p) && Popping(p, w, j)
            && Worker(w) in q.threads && q.threads[Worker(w)] == PopRead(q.ticket[i])
            && q.ticket[i] < |q.log| && AbstractPc(p, w) == Abstract.Running(q.log[q.ticket[i]])
  {
    var q := p.queues[j];
    var k := q.ticket[i];
    var t := q.popper[k];
    assert QueueOk(p, j);
    assert PopperOk(q, k);
    assert ThreadOk(q, t);
    ReaderIsWorker(p, j, t);
  }

  lemma WaitsAt(q: State<TaskId>, k: nat)
    requires q.deq <= k < |q.log|
    ensures k - q.deq < |WaitingIn(q)| && WaitingIn(q)[k - q.deq] == q.log[k]
  {
  }

  lemma SlotIsAt(p: Pool, j: nat, i: nat, task: TaskId)
    requires PoolInv(p) && PoolClean(p) && HeldBy(p, Slot(j, i), task)
    ensures At(View(p), PlaceOf(p, Slot(j, i)), task)
  {
    var q := p.queues[j];
    assert QueueOk(p, j);
    CleanSlotHolds(q, i);
    if q.deq <= q.ticket[i] {
      WaitsAt(q, q.ticket[i]);
      assert Waits(p.queues)[j] == WaitingIn(q);
    } else {
      UnreadSlot(p, j, i);
    }
  }

  lemma TakerIsAt(p: Pool, i: nat, j: nat, task: TaskId)
    requires PoolInv(p) && HeldBy(p, Taker(i, j), task)
    ensures AbstractPc(p, i) == Abstract.Running(task)
  {
    var q, t := p.queues[j], Worker(i);
    assert QueueOk(p, j);
    assert ThreadOk(q, t);
  }

  /** The abstract pool counts every holder. */
  lemma HolderIsAt(p: Pool, h: Holder, task: TaskId)
    requires PoolInv(p) && PoolClean(p) && HeldBy(p, h, task)
    ensures At(View(p), PlaceOf(p, h), task)
  {
    match h
    case Slot(j, i) => SlotIsAt(p, j, i, task);
    case Taker(i, j) => TakerIsAt(p, i, j, task);
    case Runner(i) =>
    case Done(n) =>
  }

  /** Two slots for one place are the same slot. */
  lemma SameSlotOfPlace(p: Pool, a: Holder, b: Holder, task: TaskId)
    requires PoolInv(p) && PoolClean(p) && a.Slot? && b.Slot? && HeldBy(p, a, task) && HeldBy(p, b, task)
    requires PlaceOf(p, a) == PlaceOf(p, b)
    ensures a == b
  {
    assert QueueOk(p, a.queue) && QueueOk(p, b.queue);
    CleanSlotHolds(p.queues[a.queue], a.index);
    CleanSlotHolds(p.queues[b.queue], b.index);
    if PlaceOf(p, a).Hand? {
      UnreadSlot(p, a.queue, a.index);
      UnreadSlot(p, b.queue, b.index);
    }
  }

  /** A slot and a worker that has the task are not the same place. */
  lemma SlotIsNoHand(p: Pool, a: Holder, b: Holder, task: TaskId)
    requires PoolInv(p) && PoolClean(p) && a.Slot? && (b.Taker? || b.Runner?)
    requires HeldBy(p, a, task) && HeldBy(p, b, task)
    ensures PlaceOf(p, a) != PlaceOf(p, b)
  {
    assert QueueOk(p, a.queue);
    CleanSlotHolds(p.queues[a.queue], a.index);
    if PlaceOf(p, a).Hand? {
      UnreadSlot(p, a.queue, a.index);
    }
  }

  lemma SameHolder(p: Pool, a: Holder, b: Holder, task: TaskId)
    requires PoolInv(p) && PoolClean(p) && HeldBy(p, a, task) && HeldBy(p, b, task)
    requires PlaceOf(p, a) == PlaceOf(p, b)
    ensures a == b
  {
    if a.Slot? && b.Slot? {
      SameSlotOfPlace(p, a, b, task);
    } else if a.Slot? && (b.Taker? || b.Runner?) {
      SlotIsNoHand(p, a, b, task);
    } else if b.Slot? && (a.Taker? || a.Runner?) {
      SlotIsNoHand(p, b, a, task);
    }
  }

  /** In every run the object of a task is in at most one place: one slot, one worker's hand, or one
      record of a finished task. One whose Submit returned true is in exactly one. */
  lemma HeldOnce(threads: nat, capacity: nat, acts: seq<PoolAction>, task: TaskId)
    requires threads > 0 && GoodCapacity(capacity)
    ensures PowerOfTwoFor(capacity) > 0
    ensures var p := Run(threads, capacity, acts);
            && (forall a, b | HeldBy(p, a, task) && HeldBy(p, b, task) :: a == b)
            && (SubmitReturned(p, task, true) ==> exists h :: HeldBy(p, h, task))
  {
    GoodQueues(capacity);
    var p := Run(threads, capacity, acts);
    RunClean(threads, PowerOfTwoFor(capacity), acts);
    TaskConservation(threads, capacity, acts, task);
    forall a, b | HeldBy(p, a, task) && HeldBy(p, b, task) ensures a == b {
      HolderIsAt(p, a, task);
      HolderIsAt(p, b, task);
      OnePlace(View(p), PlaceOf(p, a), PlaceOf(p, b), task);
      SameHolder(p, a, b, task);
    }
    NothingIsLost(threads, capacity, acts, task);
  }
}
