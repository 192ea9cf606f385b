/** The thread pool on the real queues: every submitter and every worker takes the atomic steps
    of `Push` and `Pop` on the worker's queue. The proof that this pool does what `ThreadPool`
    says with whole operations. */
module ConcretePool {
  import opened Bits
  import opened QueueProtocol
  import opened QueueInvariant
  import Abstract = ThreadPool

  type TaskId = nat

  datatype WorkerPc =
    | Checking                // load of `_running`
    | OwnPop                  // inside `_queue.Pop(&task)`
    | DonorPop                // inside `donor->_Steal(&task)`
    | Running(task: TaskId)   // `task()`
    | Sleeping
    | Exited
    | Broken                  // `task()` on an empty object

  /** `queues[j]` is the queue of worker `j`. History: `chosen` and `finished`. */
  datatype Pool = Pool(
    cap: nat,
    queues: seq<State<TaskId>>,
    running: seq<bool>,
    pcs: seq<WorkerPc>,
    next: nat,
    chosen: seq<nat>,
    finished: seq<Abstract.Finished>)

  /** `fetch_add` and the call of `Push`; a step of that Push; a step of a worker; `Stop`. */
  datatype PoolAction =
    | Select
    | Submit(task: TaskId, weak: bool)
    | Work(i: nat, weak: bool)
    | Stop(i: nat)

  /** The thread that submits a task, and the thread of worker `i`. */
  function Submitter(task: TaskId): Tid {
    2 * task
  }

  function Worker(i: nat): Tid {
    2 * i + 1
  }

  ghost predicate PoolShape(p: Pool) {
    && |p.queues| > 0 && |p.running| == |p.pcs| == |p.queues|
    && (forall j | 0 <= j < |p.queues| :: Shape(p.queues[j]) && p.queues[j].cap == p.cap)
    && (forall t | 0 <= t < |p.chosen| :: p.chosen[t] < |p.queues|)
  }

  function Threads(p: Pool): nat {
    |p.queues|
  }

  function NewPool(threads: nat, cap: nat): Pool {
    Pool(cap, seq(threads, _ => QueueProtocol.Init<TaskId>(cap)), seq(threads, _ => true),
         seq(threads, _ => Checking), 0, [], [])
  }

  // ---------------------------------------------------------------------
  // Steps
  // ---------------------------------------------------------------------

  function WithQueue(p: Pool, j: nat, q: State<TaskId>): (p': Pool)
    requires PoolShape(p) && j < Threads(p) && Shape(q) && q.cap == p.cap
    ensures PoolShape(p') && Threads(p') == Threads(p)
  {
    p.(queues := p.queues[j := q])
  }

  function OnQueue(p: Pool, j: nat, a: Action<TaskId>): (p': Pool)
    requires PoolShape(p) && j < Threads(p)
    ensures PoolShape(p') && Threads(p') == Threads(p)
  {
    WithQueue(p, j, QueueProtocol.Apply(p.queues[j], a))
  }

  function SetPc(p: Pool, i: nat, pc: WorkerPc): (p': Pool)
    requires PoolShape(p) && i < Threads(p)
    ensures PoolShape(p') && Threads(p') == Threads(p)
  {
    p.(pcs := p.pcs[i := pc])
  }

  function Donor(p: Pool, i: nat): (j: nat)
    requires PoolShape(p)
    ensures j < Threads(p)
  {
    Abstract.Donor(Threads(p), i)
  }

  /** The Submit call that selects worker `j` starts. */
  function SelectOn(p: Pool, j: nat): (p': Pool)
    requires PoolShape(p) && j < Threads(p)
    ensures PoolShape(p') && Threads(p') == Threads(p)
  {
    var task: TaskId := |p.chosen|;
    OnQueue(p, j, CallPush(Submitter(task), task)).(next := (p.next + 1) % WORD, chosen := p.chosen + [j])
  }

  function DoSelect(p: Pool): (p': Pool)
    requires PoolShape(p)
    ensures PoolShape(p') && Threads(p') == Threads(p)
  {
    SelectOn(p, p.next % Threads(p))
  }

  function DoSubmit(p: Pool, task: TaskId, weak: bool): (p': Pool)
    requires PoolShape(p) && task < |p.chosen|
    ensures PoolShape(p') && Threads(p') == Threads(p)
  {
    OnQueue(p, p.chosen[task], Step(Submitter(task), weak))
  }

  /** Worker `i` starts a Pop on queue `j`. */
  function StartPop(p: Pool, i: nat, j: nat, pc: WorkerPc): (p': Pool)
    requires PoolShape(p) && i < Threads(p) && j < Threads(p)
    ensures PoolShape(p') && Threads(p') == Threads(p)
  {
    SetPc(OnQueue(p, j, CallPop(Worker(i))), i, pc)
  }

  /** What the worker goes on with when a Pop has returned. */
  function AfterPop(out: Cell<TaskId>): WorkerPc {
    if out.Holds? then Running(out.value) else Broken
  }

  /** Worker `i` inside a Pop on queue `j`; `failed` is where it goes when that returns false. */
  function PopStep(p: Pool, i: nat, j: nat, weak: bool, failed: Pool): (p': Pool)
    requires PoolShape(p) && i < Threads(p) && j < Threads(p)
    requires PoolShape(failed) && Threads(failed) == Threads(p)
    ensures PoolShape(p') && Threads(p') == Threads(p)
  {
    var q, t := p.queues[j], Worker(i);
    if t in q.threads && q.threads[t].PopReturn? then
      if q.threads[t].ok then SetPc(p, i, AfterPop(q.threads[t].out)) else failed
    else OnQueue(p, j, Step(t, weak))
  }

  function DoWork(p: Pool, i: nat, weak: bool): (p': Pool)
    requires PoolShape(p) && i < Threads(p)
    ensures PoolShape(p') && Threads(p') == Threads(p)
  {
    match p.pcs[i]
    case Checking => if p.running[i] then StartPop(p, i, i, OwnPop) else SetPc(p, i, Exited)
    case OwnPop => PopStep(p, i, i, weak, StartPop(p, i, Donor(p, i), DonorPop))
    case DonorPop => PopStep(p, i, Donor(p, i), weak, SetPc(p, i, Sleeping))
    case Running(task) => SetPc(p, i, Checking).(finished := p.finished + [Abstract.Finished(task, i)])
    case Sleeping => SetPc(p, i, Checking)
    case _ => p
  }

  /** An action that is not possible leaves the pool alone. */
  function Act(p: Pool, a: PoolAction): (p': Pool)
    requires PoolShape(p)
    ensures PoolShape(p') && Threads(p') == Threads(p)
  {
    match a
    case Select => DoSelect(p)
    case Submit(task, weak) => if task < |p.chosen| then DoSubmit(p, task, weak) else p
    case Work(i, weak) => if i < Threads(p) then DoWork(p, i, weak) else p
    case Stop(i) => if i < Threads(p) then p.(running := p.running[i := false]) else p
  }

  function ActAll(p: Pool, acts: seq<PoolAction>): (p': Pool)
    requires PoolShape(p)
    ensures PoolShape(p') && Threads(p') == Threads(p)
  {
    if acts == [] then p else Act(ActAll(p, acts[..|acts| - 1]), acts[|acts| - 1])
  }

  // ---------------------------------------------------------------------
  // What a step of a call does to its queue
  // ---------------------------------------------------------------------

  predicate Undecided(pc: Pc<TaskId>) {
    pc.PushStart? || pc.PushLoad? || pc.PushCas? || pc.PushReload?
  }

  predicate InPush(pc: Pc<TaskId>) {
    Undecided(pc) || pc.PushWrite? || pc.PushPublish? || pc.PushReturn?
  }

  predicate Refused(pc: Pc<TaskId>) {
    pc.PushReturn? && !pc.ok
  }

  predicate Trying(pc: Pc<TaskId>) {
    pc.PopStart? || pc.PopLoad? || pc.PopCas? || pc.PopReload?
  }

  /** The Pop has won the ticket `pc.next`. */
  predicate HasTaken(pc: Pc<TaskId>) {
    pc.PopRead? || pc.PopRelease? || (pc.PopReturn? && pc.ok)
  }

  predicate InPop(pc: Pc<TaskId>) {
    Trying(pc) || HasTaken(pc) || pc.PopReturn?
  }

  lemma PushMoves(q: State<TaskId>, t: Tid, weak: bool)
    requires Shape(q) && t in q.threads && InPush(q.threads[t])
    ensures var q' := StepThread(q, t, weak);
            var pc, pc' := q.threads[t], q'.threads[t];
            && q'.deq == q.deq && InPush(pc') && pc'.v == pc.v
            && q'.log == (if Undecided(pc) && pc'.PushWrite? then q.log + [pc.v] else q.log)
            && (Undecided(pc) && pc'.PushWrite? ==> pc.PushCas? && pc.next == q.enq)
            && (Undecided(pc) ==> Undecided(pc') || pc'.PushWrite? || Refused(pc'))
            && (!Undecided(pc) ==> !Undecided(pc') && (Refused(pc') <==> Refused(pc)))
  {
    var pc' := StepThread(q, t, weak).threads[t];
    match q.threads[t]
    case PushStart(v) => assert pc' == PushLoad(v, q.enq);
    case PushReload(v, _) => assert pc' == PushLoad(v, q.enq);
    case PushLoad(v, next) => assert pc' == PushDecide(v, next, q.index[SlotOf(q.cap, next)]);
    case PushCas(v, next) => assert pc' == if q.enq == next && !weak then PushWrite(v, q.enq) else PushLoad(v, q.enq);
    case PushWrite(v, next) => assert pc' == PushPublish(v, next);
    case PushPublish(v, next) => assert pc' == PushReturn(true, v, next);
    case PushReturn(_, _, _) =>
  }

  lemma PushStepEffect(q: State<TaskId>, t: Tid, weak: bool)
    requires Inv(q) && t in q.threads && InPush(q.threads[t])
    ensures var q' := StepThread(q, t, weak);
            var pc, pc' := q.threads[t], q'.threads[t];
            && Inv(q') && q'.deq == q.deq && InPush(pc') && pc'.v == pc.v
            && q'.log == (if Undecided(pc) && pc'.PushWrite? then q.log + [pc.v] else q.log)
            && (Undecided(pc) && pc'.PushWrite? ==> q.enq < q.deq + q.cap)
            && (Undecided(pc) ==> Undecided(pc') || pc'.PushWrite? || Refused(pc'))
            && (!Undecided(pc) ==> !Undecided(pc') && (Refused(pc') <==> Refused(pc)))
  {
    StepInv(q, t, weak);
    PushMoves(q, t, weak);
    if q.threads[t].PushCas? && q.threads[t].next == q.enq {
      WinnableTicket(q, t);
    }
  }

  lemma PopMoves(q: State<TaskId>, t: Tid, weak: bool)
    requires Shape(q) && t in q.threads && InPop(q.threads[t])
    requires q.threads[t].PopCas? && q.threads[t].next == q.deq ==> q.deq < q.enq
    ensures var q' := StepThread(q, t, weak);
            var pc, pc' := q.threads[t], q'.threads[t];
            && q'.log == q.log && InPop(pc')
            && (Trying(pc) ==>
                  || (q'.deq == q.deq && (Trying(pc') || (pc'.PopReturn? && !pc'.ok)))
                  || (q'.deq == q.deq + 1 <= q.enq && pc' == PopRead(q.deq)))
            && (HasTaken(pc) ==> q'.deq == q.deq && HasTaken(pc') && pc'.next == pc.next)
            && (pc.PopReturn? ==> q' == q)
  {
    var pc' := StepThread(q, t, weak).threads[t];
    match q.threads[t]
    case PopStart | PopReload(_) => assert pc' == PopLoad(q.deq);
    case PopLoad(next) => assert pc' == PopDecide(next, q.index[SlotOf(q.cap, next)]);
    case PopCas(next) => assert pc' == if q.deq == next && !weak then PopRead(q.deq) else PopLoad(q.deq);
    case PopRead(next) => assert pc' == PopRelease(next, q.data[SlotOf(q.cap, next)]);
    case PopRelease(next, out) => assert pc' == PopReturn(true, out, next);
    case PopReturn(_, _, _) =>
  }

  lemma PopStepEffect(q: State<TaskId>, t: Tid, weak: bool)
    requires Inv(q) && t in q.threads && InPop(q.threads[t])
    ensures var q' := StepThread(q, t, weak);
            var pc, pc' := q.threads[t], q'.threads[t];
            && Inv(q') && q'.log == q.log && InPop(pc')
            && (Trying(pc) ==>
                  || (q'.deq == q.deq && (Trying(pc') || (pc'.PopReturn? && !pc'.ok)))
                  || (q'.deq == q.deq + 1 <= q.enq && pc' == PopRead(q.deq)))
            && (HasTaken(pc) ==> q'.deq == q.deq && HasTaken(pc') && pc'.next == pc.next)
            && (pc.PopReturn? ==> q' == q)
  {
    StepInv(q, t, weak);
    if q.threads[t].PopCas? && q.threads[t].next == q.deq {
      TakeableTicket(q, t);
    }
    PopMoves(q, t, weak);
  }

  // ---------------------------------------------------------------------
  // The abstract pool
  // ---------------------------------------------------------------------

  /** The queue that worker `i` is taking from in its present place. */
  predicate Popping(p: Pool, i: nat, j: nat)
    requires PoolShape(p) && i < Threads(p)
  {
    (p.pcs[i] == OwnPop && j == i) || (p.pcs[i] == DonorPop && j == Donor(p, i))
  }

  /** A worker inside a Pop on `q`; `trying` and `failed` are its abstract places. */
  function PopPc(q: State<TaskId>, t: Tid, trying: Abstract.WorkerPc, failed: Abstract.WorkerPc): Abstract.WorkerPc {
    if t !in q.threads then trying
    else
      var pc := q.threads[t];
      if HasTaken(pc) && pc.next < |q.log| then Abstract.Running(q.log[pc.next])
      else if pc.PopReturn? then failed
      else trying
  }

  function AbstractPc(p: Pool, i: nat): Abstract.WorkerPc
    requires PoolShape(p) && i < Threads(p)
  {
    match p.pcs[i]
    case Checking => Abstract.Checking
    case OwnPop => PopPc(p.queues[i], Worker(i), Abstract.PopOwn, Abstract.PopDonor)
    case DonorPop => PopPc(p.queues[Donor(p, i)], Worker(i), Abstract.PopDonor, Abstract.Sleeping)
    case Running(task) => Abstract.Running(task)
    case Sleeping => Abstract.Sleeping
    case Exited => Abstract.Exited
    case Broken => Abstract.Exited
  }

  /** Is the Push of this task still to be decided? */
  predicate IsPending(p: Pool, task: TaskId)
    requires PoolShape(p) && task < |p.chosen|
  {
    var q := p.queues[p.chosen[task]];
    Submitter(task) in q.threads && Undecided(q.threads[Submitter(task)])
  }

  function PendingIn(p: Pool): map<TaskId, nat>
    requires PoolShape(p)
  {
    map t: nat | t < |p.chosen| && IsPending(p, t) :: p.chosen[t]
  }

  /** What has been taken from a queue, and what is still in it. */
  function TakenFrom(q: State<TaskId>): seq<TaskId> {
    if q.deq <= |q.log| then q.log[..q.deq] else q.log
  }

  function WaitingIn(q: State<TaskId>): seq<TaskId> {
    if q.deq <= |q.log| then q.log[q.deq..] else []
  }

  function Waits(qs: seq<State<TaskId>>): seq<seq<TaskId>> {
    seq(|qs|, j requires 0 <= j < |qs| => WaitingIn(qs[j]))
  }

  function Takens(qs: seq<State<TaskId>>): seq<seq<TaskId>> {
    seq(|qs|, j requires 0 <= j < |qs| => TakenFrom(qs[j]))
  }

  function Logs(qs: seq<State<TaskId>>): seq<seq<TaskId>> {
    seq(|qs|, j requires 0 <= j < |qs| => qs[j].log)
  }

  function PcsOf(p: Pool): seq<Abstract.WorkerPc>
    requires PoolShape(p)
  {
    seq(Threads(p), i requires 0 <= i < Threads(p) => AbstractPc(p, i))
  }

  lemma OneQueue(qs: seq<State<TaskId>>, j: nat, q: State<TaskId>)
    requires j < |qs|
    ensures Waits(qs[j := q]) == Waits(qs)[j := WaitingIn(q)]
    ensures Takens(qs[j := q]) == Takens(qs)[j := TakenFrom(q)]
    ensures Logs(qs[j := q]) == Logs(qs)[j := q.log]
  {
  }

  /** The pool with whole operations in place of calls in progress: a Push or a Pop takes place
      when its compare-and-swap wins, or when it gives up. */
  function View(p: Pool): (s: Abstract.State)
    requires PoolShape(p)
  {
    Abstract.State(p.cap, p.next, PendingIn(p), Waits(p.queues), p.running, PcsOf(p), p.finished, p.chosen,
                   Logs(p.queues), Takens(p.queues))
  }

  // ---------------------------------------------------------------------
  // The invariant
  // ---------------------------------------------------------------------

  /** The submitter of `task` is inside or behind its one Push; it is logged once that has won. */
  ghost predicate SubmitterOk(p: Pool, task: TaskId)
    requires PoolShape(p) && task < |p.chosen|
  {
    var q, t := p.queues[p.chosen[task]], Submitter(task);
    && t in q.threads && InPush(q.threads[t]) && q.threads[t].v == task
    && (Undecided(q.threads[t]) || Refused(q.threads[t]) <==> task !in q.log)
  }

  /** Worker `i` on queue `j`: in a Pop if that is its place, and otherwise in no call. */
  ghost predicate WorkerOk(p: Pool, i: nat, j: nat)
    requires PoolShape(p) && i < Threads(p) && j < Threads(p)
  {
    var q, t := p.queues[j], Worker(i);
    if Popping(p, i, j) then t in q.threads && InPop(q.threads[t])
    else t in q.threads ==> q.threads[t].PopReturn?
  }

  /** Only tasks submitted to queue `j` are there, in the hands of their submitters or logged. */
  ghost predicate QueueOk(p: Pool, j: nat)
    requires PoolShape(p) && j < Threads(p)
  {
    && Inv(p.queues[j])
    && (forall t: TaskId | Submitter(t) in p.queues[j].threads :: t < |p.chosen| && p.chosen[t] == j)
    && (forall i: nat | Worker(i) in p.queues[j].threads :: i < Threads(p))
    && (forall t | t in p.queues[j].log :: t < |p.chosen| && p.chosen[t] == j)
  }

  ghost predicate PoolInv(p: Pool) {
    && PoolShape(p)
    && (forall j | 0 <= j < Threads(p) :: QueueOk(p, j))
    && (forall t | 0 <= t < |p.chosen| :: SubmitterOk(p, t))
    && (forall i, j | 0 <= i < Threads(p) && 0 <= j < Threads(p) :: WorkerOk(p, i, j))
    && (forall i | 0 <= i < Threads(p) :: p.pcs[i] != Broken)
  }

  lemma NewPoolInv(threads: nat, cap: nat)
    requires threads > 0 && IsPow2(cap) && cap >= 2
    ensures PoolInv(NewPool(threads, cap))
    ensures View(NewPool(threads, cap)) == Abstract.Init(threads, cap)
  {
    InitInv<TaskId>(cap);
    var p, s := NewPool(threads, cap), Abstract.Init(threads, cap);
    assert View(p).queues == s.queues && View(p).pcs == s.pcs && View(p).posted == s.posted && View(p).taken == s.taken;
  }

  // ---------------------------------------------------------------------
  // Submitting
  // ---------------------------------------------------------------------

  /** Thread `t` is where it was. */
  predicate SameThread(q: State<TaskId>, q': State<TaskId>, t: Tid) {
    (t in q'.threads <==> t in q.threads) && (t in q.threads ==> q'.threads[t] == q.threads[t])
  }

  /** A ticket taken is a ticket logged. */
  lemma TakenIsLogged(q: State<TaskId>, t: Tid)
    requires Inv(q) && t in q.threads && HasTaken(q.threads[t])
    ensures q.threads[t].next < |q.log|
  {
    assert ThreadOk(q, t);
  }

  lemma PopPcStable(q: State<TaskId>, q': State<TaskId>, t: Tid, trying: Abstract.WorkerPc, failed: Abstract.WorkerPc)
    requires Inv(q) && SameThread(q, q', t) && q.log <= q'.log
    ensures PopPc(q', t, trying, failed) == PopPc(q, t, trying, failed)
  {
    if t in q.threads && HasTaken(q.threads[t]) {
      TakenIsLogged(q, t);
    }
  }

  /** A step of another thread on queue `j` is invisible to worker `i`. */
  lemma WorkerUntouched(p: Pool, j: nat, q: State<TaskId>, i: nat)
    requires PoolShape(p) && j < Threads(p) && i < Threads(p) && Shape(q) && q.cap == p.cap
    requires Inv(p.queues[j]) && SameThread(p.queues[j], q, Worker(i)) && p.queues[j].log <= q.log
    ensures AbstractPc(WithQueue(p, j, q), i) == AbstractPc(p, i)
  {
    PopPcStable(p.queues[j], q, Worker(i), Abstract.PopOwn, Abstract.PopDonor);
    PopPcStable(p.queues[j], q, Worker(i), Abstract.PopDonor, Abstract.Sleeping);
  }

  lemma WorkerStaysOk(p: Pool, j: nat, q: State<TaskId>, i: nat, k: nat)
    requires PoolShape(p) && j < Threads(p) && i < Threads(p) && k < Threads(p) && Shape(q) && q.cap == p.cap
    requires SameThread(p.queues[j], q, Worker(i)) && WorkerOk(p, i, k)
    ensures WorkerOk(WithQueue(p, j, q), i, k)
  {
  }

  /** The same for submitters, who see their own thread and the log. */
  lemma SubmitterStaysOk(p: Pool, j: nat, q: State<TaskId>, task: TaskId)
    requires PoolShape(p) && j < Threads(p) && Shape(q) && q.cap == p.cap && task < |p.chosen|
    requires SubmitterOk(p, task) && SameThread(p.queues[j], q, Submitter(task))
    requires task in q.log <==> task in p.queues[j].log
    ensures SubmitterOk(WithQueue(p, j, q), task)
    ensures IsPending(WithQueue(p, j, q), task) <==> IsPending(p, task)
  {
  }

  // A step of the Push of `task`, for its queue, its submitter and all others.

  lemma PushKeepsQueue(q: State<TaskId>, task: TaskId, weak: bool)
    requires Inv(q) && Submitter(task) in q.threads
    requires InPush(q.threads[Submitter(task)]) && q.threads[Submitter(task)].v == task
    ensures var q' := StepThread(q, Submitter(task), weak);
            && Inv(q') && (forall t :: t in q'.threads <==> t in q.threads)
            && (q'.log == q.log || q'.log == q.log + [task])
  {
    PushStepEffect(q, Submitter(task), weak);
  }

  lemma SubmitQueueOk(p: Pool, task: TaskId, weak: bool, k: nat)
    requires PoolShape(p) && task < |p.chosen| && SubmitterOk(p, task) && QueueOk(p, p.chosen[task])
    requires k < Threads(p) && QueueOk(p, k)
    ensures QueueOk(DoSubmit(p, task, weak), k)
  {
    var j := p.chosen[task];
    var q' := StepThread(p.queues[j], Submitter(task), weak);
    PushKeepsQueue(p.queues[j], task, weak);
    SubmitIsPush(p, task, weak);
    PushedQueueOk(p, task, q', k);
  }

  lemma SubmitIsPush(p: Pool, task: TaskId, weak: bool)
    requires PoolShape(p) && task < |p.chosen| && Submitter(task) in p.queues[p.chosen[task]].threads
    ensures DoSubmit(p, task, weak)
         == WithQueue(p, p.chosen[task], StepThread(p.queues[p.chosen[task]], Submitter(task), weak))
  {
  }

  lemma PushedQueueOk(p: Pool, task: TaskId, q: State<TaskId>, k: nat)
    requires PoolShape(p) && task < |p.chosen| && k < Threads(p) && QueueOk(p, k) && QueueOk(p, p.chosen[task])
    requires Inv(q) && q.cap == p.cap && forall t :: t in q.threads <==> t in p.queues[p.chosen[task]].threads
    requires q.log == p.queues[p.chosen[task]].log || q.log == p.queues[p.chosen[task]].log + [task]
    ensures QueueOk(WithQueue(p, p.chosen[task], q), k)
  {
  }

  lemma SubmitOwnOk(p: Pool, task: TaskId, weak: bool)
    requires PoolShape(p) && task < |p.chosen| && SubmitterOk(p, task) && QueueOk(p, p.chosen[task])
    ensures SubmitterOk(DoSubmit(p, task, weak), task)
  {
    SubmitIsPush(p, task, weak);
    PushLogs(p.queues[p.chosen[task]], task, weak);
  }

  lemma PushLogs(q: State<TaskId>, task: TaskId, weak: bool)
    requires Inv(q) && Submitter(task) in q.threads
    requires var pc := q.threads[Submitter(task)];
             InPush(pc) && pc.v == task && (Undecided(pc) || Refused(pc) <==> task !in q.log)
    ensures var q' := StepThread(q, Submitter(task), weak);
            var pc' := q'.threads[Submitter(task)];
            InPush(pc') && pc'.v == task && (Undecided(pc') || Refused(pc') <==> task !in q'.log)
  {
    PushStepEffect(q, Submitter(task), weak);
  }

  lemma SubmitOthers(p: Pool, task: TaskId, weak: bool)
    requires PoolShape(p) && task < |p.chosen| && SubmitterOk(p, task) && QueueOk(p, p.chosen[task])
    ensures var q := p.queues[p.chosen[task]];
            var q' := StepThread(q, Submitter(task), weak);
            && DoSubmit(p, task, weak) == WithQueue(p, p.chosen[task], q') && q'.deq == q.deq
            && (q'.log == q.log || q'.log == q.log + [task])
            && (forall t | t != Submitter(task) :: SameThread(q, q', t))
  {
    PushStepEffect(p.queues[p.chosen[task]], Submitter(task), weak);
  }

  lemma SubmitKeeps(p: Pool, task: TaskId, weak: bool)
    requires PoolInv(p) && task < |p.chosen|
    ensures PoolInv(DoSubmit(p, task, weak))
  {
    var j := p.chosen[task];
    assert SubmitterOk(p, task) && QueueOk(p, j);
    var q' := StepThread(p.queues[j], Submitter(task), weak);
    var p' := DoSubmit(p, task, weak);
    SubmitOthers(p, task, weak);
    forall k | 0 <= k < Threads(p) ensures QueueOk(p', k) {
      assert QueueOk(p, k);
      SubmitQueueOk(p, task, weak, k);
    }
    forall u | 0 <= u < |p.chosen| ensures SubmitterOk(p', u) {
      assert SubmitterOk(p, u);
      if u == task { SubmitOwnOk(p, task, weak); } else { SubmitterStaysOk(p, j, q', u); }
    }
    forall i, k | 0 <= i < Threads(p) && 0 <= k < Threads(p) ensures WorkerOk(p', i, k) {
      assert WorkerOk(p, i, k);
      WorkerStaysOk(p, j, q', i, k);
    }
  }

  /** Has this step decided the Push, and how? */
  function Decision(p: Pool, task: TaskId, weak: bool): Pc<TaskId>
    requires PoolShape(p) && task < |p.chosen| && Submitter(task) in p.queues[p.chosen[task]].threads
  {
    StepThread(p.queues[p.chosen[task]], Submitter(task), weak).threads[Submitter(task)]
  }

  /** What the abstract pool does in this step. */
  function SubmitView(p: Pool, task: TaskId, weak: bool): Abstract.State
    requires PoolShape(p) && task < |p.chosen| && Submitter(task) in p.queues[p.chosen[task]].threads
  {
    if IsPending(p, task) && !Undecided(Decision(p, task, weak)) then
      Abstract.DoPost(View(p), task, Decision(p, task, weak).PushWrite?)
    else View(p)
  }

  lemma SamePending(p: Pool, p': Pool)
    requires PoolShape(p) && PoolShape(p') && p'.chosen == p.chosen
    requires forall u: nat | u < |p.chosen| :: IsPending(p', u) <==> IsPending(p, u)
    ensures PendingIn(p') == PendingIn(p)
  {
  }

  lemma OneLessPending(p: Pool, p': Pool, task: TaskId)
    requires PoolShape(p) && PoolShape(p') && p'.chosen == p.chosen && task < |p.chosen|
    requires forall u: nat | u < |p.chosen| && u != task :: IsPending(p', u) <==> IsPending(p, u)
    requires IsPending(p, task) && !IsPending(p', task)
    ensures PendingIn(p') == PendingIn(p) - {task}
  {
    forall u: nat ensures u in PendingIn(p') <==> u in PendingIn(p) && u != task {
      if u < |p.chosen| && u != task { assert IsPending(p', u) <==> IsPending(p, u); }
    }
    OneLess(PendingIn(p), PendingIn(p'), task, p.chosen);
  }

  lemma OneLess(m: map<nat, nat>, m': map<nat, nat>, task: nat, chosen: seq<nat>)
    requires forall u :: u in m' <==> u in m && u != task
    requires forall u | u in m :: u < |chosen| && m[u] == chosen[u]
    requires forall u | u in m' :: u < |chosen| && m'[u] == chosen[u]
    ensures m' == m - {task}
  {
  }

  lemma OthersPending(p: Pool, task: TaskId, weak: bool, u: TaskId)
    requires PoolShape(p) && task < |p.chosen| && u < |p.chosen| && u != task
    requires SubmitterOk(p, task) && SubmitterOk(p, u) && QueueOk(p, p.chosen[task])
    ensures IsPending(DoSubmit(p, task, weak), u) <==> IsPending(p, u)
  {
    SubmitOthers(p, task, weak);
    SubmitterStaysOk(p, p.chosen[task], StepThread(p.queues[p.chosen[task]], Submitter(task), weak), u);
  }

  lemma OwnPending(p: Pool, task: TaskId, weak: bool)
    requires PoolShape(p) && task < |p.chosen| && SubmitterOk(p, task) && QueueOk(p, p.chosen[task])
    ensures IsPending(DoSubmit(p, task, weak), task) <==> Undecided(Decision(p, task, weak))
    ensures IsPending(DoSubmit(p, task, weak), task) ==> IsPending(p, task)
  {
    PushStepEffect(p.queues[p.chosen[task]], Submitter(task), weak);
  }

  lemma SubmitPending(p: Pool, task: TaskId, weak: bool)
    requires PoolInv(p) && task < |p.chosen| && SubmitterOk(p, task)
    ensures PendingIn(DoSubmit(p, task, weak)) == SubmitView(p, task, weak).pending
  {
    var p' := DoSubmit(p, task, weak);
    assert QueueOk(p, p.chosen[task]);
    forall u: nat | u < |p.chosen| && u != task ensures IsPending(p', u) <==> IsPending(p, u) {
      assert SubmitterOk(p, u);
      OthersPending(p, task, weak, u);
    }
    OwnPending(p, task, weak);
    if IsPending(p, task) && !IsPending(p', task) { OneLessPending(p, p', task); } else { SamePending(p, p'); }
  }

  /** The queue's side of the step. */
  lemma PushContents(q: State<TaskId>, task: TaskId, weak: bool)
    requires Inv(q) && Submitter(task) in q.threads
    requires InPush(q.threads[Submitter(task)]) && q.threads[Submitter(task)].v == task
    ensures var q' := StepThread(q, Submitter(task), weak);
            var won := Undecided(q.threads[Submitter(task)]) && q'.threads[Submitter(task)].PushWrite?;
            && TakenFrom(q') == TakenFrom(q)
            && WaitingIn(q') == (if won then WaitingIn(q) + [task] else WaitingIn(q))
            && q'.log == (if won then q.log + [task] else q.log)
            && (won ==> |WaitingIn(q)| < q.cap)
  {
    PushStepEffect(q, Submitter(task), weak);
    assert q.deq <= q.enq == |q.log|;
  }

  lemma SubmitContents(p: Pool, task: TaskId, weak: bool)
    requires PoolShape(p) && task < |p.chosen| && SubmitterOk(p, task) && QueueOk(p, p.chosen[task])
    ensures var q := p.queues[p.chosen[task]];
            var q' := StepThread(q, Submitter(task), weak);
            var won := IsPending(p, task) && Decision(p, task, weak).PushWrite?;
            && TakenFrom(q') == TakenFrom(q)
            && WaitingIn(q') == (if won then WaitingIn(q) + [task] else WaitingIn(q))
            && q'.log == (if won then q.log + [task] else q.log)
            && (won ==> |WaitingIn(q)| < p.cap)
  {
    PushContents(p.queues[p.chosen[task]], task, weak);
  }

  lemma SubmitPcs(p: Pool, task: TaskId, weak: bool)
    requires PoolShape(p) && task < |p.chosen| && SubmitterOk(p, task) && QueueOk(p, p.chosen[task])
    ensures PcsOf(DoSubmit(p, task, weak)) == PcsOf(p)
  {
    var p' := DoSubmit(p, task, weak);
    SubmitOthers(p, task, weak);
    forall i | 0 <= i < Threads(p) ensures AbstractPc(p', i) == AbstractPc(p, i) {
      WorkerUntouched(p, p.chosen[task], p'.queues[p.chosen[task]], i);
    }
  }

  /** A step of a Push is a stutter, or the abstract pool's decision of this Submit. */
  lemma SubmitRefines(p: Pool, task: TaskId, weak: bool)
    requires PoolInv(p) && task < |p.chosen| && SubmitterOk(p, task)
    ensures View(DoSubmit(p, task, weak)) == SubmitView(p, task, weak)
  {
    var j := p.chosen[task];
    assert QueueOk(p, j);
    SubmitPending(p, task, weak);
    SubmitPcs(p, task, weak);
    SubmitIsPush(p, task, weak);
    PushedView(p, j, StepThread(p.queues[j], Submitter(task), weak));
    SubmitSequences(p, task, weak);
  }

  /** The sequences of the abstract pool after the step. */
  lemma SubmitSequences(p: Pool, task: TaskId, weak: bool)
    requires PoolShape(p) && task < |p.chosen| && SubmitterOk(p, task) && QueueOk(p, p.chosen[task])
    ensures var j := p.chosen[task];
            var q' := StepThread(p.queues[j], Submitter(task), weak);
            var s, s' := View(p), SubmitView(p, task, weak);
            && s' == s.(pending := s'.pending, queues := s.queues[j := WaitingIn(q')],
                        posted := s.posted[j := q'.log], taken := s.taken[j := TakenFrom(q')])
  {
    SubmitContents(p, task, weak);
    SameView(View(p), p.chosen[task]);
    if IsPending(p, task) && !Undecided(Decision(p, task, weak)) {
      var q' := StepThread(p.queues[p.chosen[task]], Submitter(task), weak);
      PostSequences(View(p), task, Decision(p, task, weak).PushWrite?, WaitingIn(q'), q'.log);
    }
  }

  lemma PostSequences(s: Abstract.State, task: TaskId, won: bool, waiting: seq<TaskId>, posted: seq<TaskId>)
    requires Abstract.Shape(s) && task in s.pending
    requires var j := s.pending[task];
             if won then waiting == s.queues[j] + [task] && posted == s.posted[j] + [task] && |s.queues[j]| < s.cap
             else waiting == s.queues[j] && posted == s.posted[j]
    ensures var j := s.pending[task];
            Abstract.DoPost(s, task, won)
              == s.(pending := s.pending - {task}, queues := s.queues[j := waiting],
                    posted := s.posted[j := posted])
  {
    SameView(s, s.pending[task]);
  }

  lemma PushedView(p: Pool, j: nat, q: State<TaskId>)
    requires PoolShape(p) && j < Threads(p) && Shape(q) && q.cap == p.cap
    requires PcsOf(WithQueue(p, j, q)) == PcsOf(p)
    ensures View(WithQueue(p, j, q))
         == View(p).(pending := PendingIn(WithQueue(p, j, q)), queues := Waits(p.queues)[j := WaitingIn(q)],
                     posted := Logs(p.queues)[j := q.log], taken := Takens(p.queues)[j := TakenFrom(q)])
  {
    OneQueue(p.queues, j, q);
  }

  /** Writing back what is there changes nothing. */
  lemma SameView(s: Abstract.State, j: nat)
    requires Abstract.Shape(s) && j < |s.queues|
    ensures s.queues[j := s.queues[j]] == s.queues && s.taken[j := s.taken[j]] == s.taken
    ensures s.posted[j := s.posted[j]] == s.posted
  {
  }

  /** A call of Submit starts. */
  lemma PushStarts(q: State<TaskId>, task: TaskId)
    requires Inv(q) && Submitter(task) !in q.threads
    ensures var q' := QueueProtocol.Apply(q, CallPush(Submitter(task), task));
            q' == Goto(q, Submitter(task), PushStart(task)) && Inv(q')
  {
    GotoInv(q, Submitter(task), PushStart(task));
  }

  /** Queue `j` when the next task's Push has been called. */
  function Started(p: Pool, j: nat): State<TaskId>
    requires PoolShape(p) && j < Threads(p)
  {
    var task: TaskId := |p.chosen|;
    Goto(p.queues[j], Submitter(task), PushStart(task))
  }

  lemma SelectStarts(p: Pool, j: nat)
    requires PoolInv(p) && j < Threads(p)
    ensures var task: TaskId := |p.chosen|;
            var q' := Started(p, j);
            && Submitter(task) !in p.queues[j].threads && Inv(p.queues[j]) && Inv(q')
            && SelectOn(p, j) == WithQueue(p, j, q').(next := (p.next + 1) % WORD, chosen := p.chosen + [j])
  {
    assert QueueOk(p, j);
    PushStarts(p.queues[j], |p.chosen|);
  }

  lemma SelectQueue(p: Pool, j: nat, k: nat)
    requires PoolInv(p) && j < Threads(p) && k < Threads(p)
    ensures QueueOk(SelectOn(p, j), k)
  {
    SelectStarts(p, j);
    assert QueueOk(p, k) && QueueOk(p, j);
  }

  lemma SelectSubmitter(p: Pool, j: nat, u: TaskId)
    requires PoolInv(p) && j < Threads(p) && u <= |p.chosen|
    ensures SubmitterOk(SelectOn(p, j), u)
    ensures u < |p.chosen| ==> (IsPending(SelectOn(p, j), u) <==> IsPending(p, u))
    ensures u == |p.chosen| ==> IsPending(SelectOn(p, j), u)
  {
    SelectStarts(p, j);
    assert QueueOk(p, j);
    if u < |p.chosen| {
      assert SubmitterOk(p, u);
      SubmitterStaysOk(p, j, Started(p, j), u);
    }
  }

  lemma SelectWorker(p: Pool, j: nat, i: nat)
    requires PoolInv(p) && j < Threads(p) && i < Threads(p)
    ensures forall k | 0 <= k < Threads(p) :: WorkerOk(SelectOn(p, j), i, k)
    ensures AbstractPc(SelectOn(p, j), i) == AbstractPc(p, i)
  {
    SelectStarts(p, j);
    var q' := Started(p, j);
    forall k | 0 <= k < Threads(p) ensures WorkerOk(SelectOn(p, j), i, k) {
      assert WorkerOk(p, i, k);
      WorkerStaysOk(p, j, q', i, k);
    }
    WorkerUntouched(p, j, q', i);
  }

  lemma SelectKeeps(p: Pool, j: nat)
    requires PoolInv(p) && j < Threads(p)
    ensures PoolInv(SelectOn(p, j))
  {
    var p' := SelectOn(p, j);
    forall k | 0 <= k < Threads(p) ensures QueueOk(p', k) { SelectQueue(p, j, k); }
    forall u | 0 <= u < |p'.chosen| ensures SubmitterOk(p', u) { SelectSubmitter(p, j, u); }
    forall i, k | 0 <= i < Threads(p) && 0 <= k < Threads(p) ensures WorkerOk(p', i, k) { SelectWorker(p, j, i); }
  }

  lemma SelectRefines(p: Pool)
    requires PoolInv(p)
    ensures View(DoSelect(p)) == Abstract.DoSelect(View(p))
  {
    var j, task := p.next % Threads(p), |p.chosen|;
    var p' := SelectOn(p, j);
    SelectStarts(p, j);
    forall i | 0 <= i < Threads(p) ensures AbstractPc(p', i) == AbstractPc(p, i) { SelectWorker(p, j, i); }
    assert PcsOf(p') == PcsOf(p);
    forall u: nat | u <= task
      ensures IsPending(p', u) <==> u == task || IsPending(p, u)
    {
      SelectSubmitter(p, j, u);
    }
    OneMorePending(p, p', j);
    OneQueue(p.queues, j, p'.queues[j]);
    SameView(View(p), j);
  }

  lemma OneMorePending(p: Pool, p': Pool, j: nat)
    requires PoolShape(p) && PoolShape(p') && p'.chosen == p.chosen + [j]
    requires forall u: nat | u <= |p.chosen| :: IsPending(p', u) <==> u == |p.chosen| || IsPending(p, u)
    ensures PendingIn(p') == PendingIn(p)[|p.chosen| := j]
  {
  }

  // ---------------------------------------------------------------------
  // The workers
  // ---------------------------------------------------------------------

  /** Worker `i` has done something on queue `j` and gone to `pc`. */
  function Moved(p: Pool, i: nat, j: nat, q: State<TaskId>, pc: WorkerPc): (p': Pool)
    requires PoolShape(p) && i < Threads(p) && j < Threads(p) && Shape(q) && q.cap == p.cap
    ensures PoolShape(p') && Threads(p') == Threads(p)
  {
    SetPc(WithQueue(p, j, q), i, pc)
  }

  /** Only worker `i` has moved on this queue, and nothing was pushed. */
  ghost predicate OnlyWorker(q: State<TaskId>, q': State<TaskId>, i: nat) {
    q'.log == q.log && forall t | t != Worker(i) :: SameThread(q, q', t)
  }

  lemma MovedWorker(p: Pool, i: nat, j: nat, q: State<TaskId>, pc: WorkerPc, w: nat)
    requires PoolShape(p) && i < Threads(p) && j < Threads(p) && Shape(q) && q.cap == p.cap
    requires OnlyWorker(p.queues[j], q, i) && w < Threads(p) && w != i && Inv(p.queues[j])
    ensures AbstractPc(Moved(p, i, j, q, pc), w) == AbstractPc(p, w)
    ensures forall k | 0 <= k < Threads(p) && WorkerOk(p, w, k) :: WorkerOk(Moved(p, i, j, q, pc), w, k)
  {
    assert SameThread(p.queues[j], q, Worker(w));
    WorkerUntouched(p, j, q, w);
    forall k | 0 <= k < Threads(p) && WorkerOk(p, w, k) ensures WorkerOk(Moved(p, i, j, q, pc), w, k) {
      WorkerStaysOk(p, j, q, w, k);
    }
  }

  lemma MovedSubmitter(p: Pool, i: nat, j: nat, q: State<TaskId>, pc: WorkerPc, u: TaskId)
    requires PoolShape(p) && i < Threads(p) && j < Threads(p) && Shape(q) && q.cap == p.cap
    requires OnlyWorker(p.queues[j], q, i) && u < |p.chosen| && SubmitterOk(p, u)
    ensures SubmitterOk(Moved(p, i, j, q, pc), u)
    ensures IsPending(Moved(p, i, j, q, pc), u) <==> IsPending(p, u)
  {
    assert SameThread(p.queues[j], q, Submitter(u));
    SubmitterStaysOk(p, j, q, u);
  }

  lemma MovedQueue(p: Pool, i: nat, j: nat, q: State<TaskId>, pc: WorkerPc, k: nat)
    requires PoolShape(p) && i < Threads(p) && j < Threads(p) && Inv(q) && q.cap == p.cap
    requires OnlyWorker(p.queues[j], q, i) && k < Threads(p) && QueueOk(p, k) && QueueOk(p, j)
    ensures QueueOk(Moved(p, i, j, q, pc), k)
  {
    forall t: TaskId | Submitter(t) in q.threads ensures t < |p.chosen| && p.chosen[t] == j {
      assert SameThread(p.queues[j], q, Submitter(t));
    }
    forall w: nat | Worker(w) in q.threads ensures w < Threads(p) {
      if w != i { assert SameThread(p.queues[j], q, Worker(w)); }
    }
  }

  lemma MovedKeeps(p: Pool, i: nat, j: nat, q: State<TaskId>, pc: WorkerPc)
    requires PoolInv(p) && i < Threads(p) && j < Threads(p) && Inv(q) && q.cap == p.cap
    requires OnlyWorker(p.queues[j], q, i) && pc != Broken
    requires forall k | 0 <= k < Threads(p) :: WorkerOk(Moved(p, i, j, q, pc), i, k)
    ensures PoolInv(Moved(p, i, j, q, pc))
  {
    var p' := Moved(p, i, j, q, pc);
    assert QueueOk(p, j);
    forall k | 0 <= k < Threads(p) ensures QueueOk(p', k) {
      assert QueueOk(p, k);
      MovedQueue(p, i, j, q, pc, k);
    }
    forall u | 0 <= u < |p.chosen| ensures SubmitterOk(p', u) {
      assert SubmitterOk(p, u);
      MovedSubmitter(p, i, j, q, pc, u);
    }
    forall w, k | 0 <= w < Threads(p) && 0 <= k < Threads(p) ensures WorkerOk(p', w, k) {
      assert WorkerOk(p, w, k);
      if w != i { MovedWorker(p, i, j, q, pc, w); }
    }
  }

  lemma MovedView(p: Pool, i: nat, j: nat, q: State<TaskId>, pc: WorkerPc)
    requires PoolInv(p) && i < Threads(p) && j < Threads(p) && Inv(q) && q.cap == p.cap
    requires OnlyWorker(p.queues[j], q, i)
    ensures View(Moved(p, i, j, q, pc))
         == View(p).(queues := Waits(p.queues)[j := WaitingIn(q)], taken := Takens(p.queues)[j := TakenFrom(q)],
                     pcs := PcsOf(p)[i := AbstractPc(Moved(p, i, j, q, pc), i)])
  {
    var p' := Moved(p, i, j, q, pc);
    assert QueueOk(p, j);
    forall w | 0 <= w < Threads(p) && w != i ensures AbstractPc(p', w) == AbstractPc(p, w) {
      MovedWorker(p, i, j, q, pc, w);
    }
    assert PcsOf(p') == PcsOf(p)[i := AbstractPc(p', i)];
    forall u: nat | u < |p.chosen| ensures IsPending(p', u) <==> IsPending(p, u) {
      assert SubmitterOk(p, u);
      MovedSubmitter(p, i, j, q, pc, u);
    }
    SamePending(p, p');
    OneQueue(p.queues, j, q);
    assert Logs(p.queues)[j := q.log] == Logs(p.queues);
  }

  /** Worker `i` is in no call on any queue. */
  ghost predicate WorkerFree(p: Pool, i: nat)
    requires PoolShape(p)
  {
    forall k | 0 <= k < Threads(p) :: Worker(i) in p.queues[k].threads ==> p.queues[k].threads[Worker(i)].PopReturn?
  }

  lemma PopStarts(q: State<TaskId>, i: nat)
    requires Inv(q) && (Worker(i) in q.threads ==> q.threads[Worker(i)].PopReturn?)
    ensures var q' := QueueProtocol.Apply(q, CallPop(Worker(i)));
            q' == Goto(q, Worker(i), PopStart) && Inv(q') && OnlyWorker(q, q', i)
  {
    GotoInv(q, Worker(i), PopStart);
  }

  lemma StartPopWorker(p: Pool, i: nat, j: nat, pc: WorkerPc)
    requires PoolShape(p) && i < Threads(p) && j < Threads(p) && WorkerFree(p, i)
    requires (pc == OwnPop && j == i) || (pc == DonorPop && j == Donor(p, i))
    ensures var p' := Moved(p, i, j, Goto(p.queues[j], Worker(i), PopStart), pc);
            && (forall k | 0 <= k < Threads(p) :: WorkerOk(p', i, k))
            && AbstractPc(p', i) == if pc == OwnPop then Abstract.PopOwn else Abstract.PopDonor
  {
  }

  /** A free worker begins a Pop; the abstract worker stays at, or moves to, the place of that Pop. */
  lemma StartPopEffect(p: Pool, i: nat, j: nat, pc: WorkerPc)
    requires PoolInv(p) && i < Threads(p) && j < Threads(p) && WorkerFree(p, i)
    requires (pc == OwnPop && j == i) || (pc == DonorPop && j == Donor(p, i))
    ensures PoolInv(StartPop(p, i, j, pc))
    ensures View(StartPop(p, i, j, pc))
         == View(p).(pcs := PcsOf(p)[i := if pc == OwnPop then Abstract.PopOwn else Abstract.PopDonor])
  {
    assert QueueOk(p, j);
    PopStarts(p.queues[j], i);
    var q' := Goto(p.queues[j], Worker(i), PopStart);
    assert StartPop(p, i, j, pc) == Moved(p, i, j, q', pc);
    StartPopWorker(p, i, j, pc);
    MovedKeeps(p, i, j, q', pc);
    MovedView(p, i, j, q', pc);
    SameView(View(p), j);
  }

  /** A worker that is in no call goes on elsewhere. */
  lemma LeaveEffect(p: Pool, i: nat, pc: WorkerPc)
    requires PoolInv(p) && i < Threads(p) && WorkerFree(p, i)
    requires pc != OwnPop && pc != DonorPop && pc != Broken
    ensures PoolInv(SetPc(p, i, pc))
    ensures View(SetPc(p, i, pc)) == View(p).(pcs := PcsOf(p)[i := AbstractPc(SetPc(p, i, pc), i)])
  {
    assert QueueOk(p, i);
    assert p.queues[i := p.queues[i]] == p.queues;
    assert SetPc(p, i, pc) == Moved(p, i, i, p.queues[i], pc);
    MovedKeeps(p, i, i, p.queues[i], pc);
    MovedView(p, i, i, p.queues[i], pc);
    SameView(View(p), i);
  }

  /** Outside a Pop a worker is free; inside one it is free when that has returned. */
  lemma FreeWorker(p: Pool, i: nat)
    requires PoolInv(p) && i < Threads(p)
    requires forall j | 0 <= j < Threads(p) && Popping(p, i, j) ::
               Worker(i) in p.queues[j].threads && p.queues[j].threads[Worker(i)].PopReturn?
    ensures WorkerFree(p, i)
  {
    forall k | 0 <= k < Threads(p) && Worker(i) in p.queues[k].threads
      ensures p.queues[k].threads[Worker(i)].PopReturn?
    {
      assert WorkerOk(p, i, k);
    }
  }

  /** Where the abstract worker is during a Pop, and after it has failed. */
  function TryingPlace(pc: WorkerPc): Abstract.WorkerPc {
    if pc == OwnPop then Abstract.PopOwn else Abstract.PopDonor
  }

  function FailedPlace(pc: WorkerPc): Abstract.WorkerPc {
    if pc == OwnPop then Abstract.PopDonor else Abstract.Sleeping
  }

  /** Worker `i` is inside a Pop on queue `j` that has not returned. */
  ghost predicate InsidePop(p: Pool, i: nat, j: nat) {
    && PoolInv(p) && i < Threads(p) && j < Threads(p) && Popping(p, i, j)
    && Worker(i) in p.queues[j].threads && InPop(p.queues[j].threads[Worker(i)])
    && !p.queues[j].threads[Worker(i)].PopReturn?
  }

  /** The queue after the next step of that Pop. */
  function Popped(p: Pool, i: nat, j: nat, weak: bool): State<TaskId>
    requires PoolShape(p) && j < Threads(p) && Worker(i) in p.queues[j].threads
  {
    StepThread(p.queues[j], Worker(i), weak)
  }

  lemma PopInside(p: Pool, i: nat, j: nat, weak: bool)
    requires InsidePop(p, i, j)
    ensures Inv(p.queues[j]) && Inv(Popped(p, i, j, weak)) && OnlyWorker(p.queues[j], Popped(p, i, j, weak), i)
    ensures OnQueue(p, j, Step(Worker(i), weak)) == Moved(p, i, j, Popped(p, i, j, weak), p.pcs[i])
  {
    assert QueueOk(p, j);
    PopStepEffect(p.queues[j], Worker(i), weak);
    assert p.pcs[i := p.pcs[i]] == p.pcs;
  }

  lemma PopInsideKeeps(p: Pool, i: nat, j: nat, weak: bool)
    requires InsidePop(p, i, j)
    ensures PoolInv(Moved(p, i, j, Popped(p, i, j, weak), p.pcs[i]))
  {
    var q' := Popped(p, i, j, weak);
    PopInside(p, i, j, weak);
    PopStepEffect(p.queues[j], Worker(i), weak);
    forall k | 0 <= k < Threads(p) ensures WorkerOk(Moved(p, i, j, q', p.pcs[i]), i, k) {
      assert WorkerOk(p, i, k);
      PopInsideWorker(p, i, j, q', k);
    }
    MovedKeeps(p, i, j, q', p.pcs[i]);
  }

  lemma PopInsideWorker(p: Pool, i: nat, j: nat, q: State<TaskId>, k: nat)
    requires PoolShape(p) && i < Threads(p) && j < Threads(p) && k < Threads(p) && Shape(q) && q.cap == p.cap
    requires Popping(p, i, j) && Worker(i) in q.threads && InPop(q.threads[Worker(i)]) && WorkerOk(p, i, k)
    ensures WorkerOk(Moved(p, i, j, q, p.pcs[i]), i, k)
  {
  }

  /** What the step is for the abstract pool. */
  function PopView(p: Pool, i: nat, j: nat, weak: bool): Abstract.State
    requires PoolShape(p) && i < Threads(p) && j < Threads(p) && Worker(i) in p.queues[j].threads
  {
    var pc, pc' := p.queues[j].threads[Worker(i)], Popped(p, i, j, weak).threads[Worker(i)];
    if Trying(pc) && !Trying(pc') then
      Abstract.DoPop(View(p), i, j, pc'.PopRead?, FailedPlace(p.pcs[i]))
    else View(p)
  }

  /** The queue's side and the worker's side of such a step. */
  lemma PopContents(p: Pool, i: nat, j: nat, weak: bool)
    requires PoolShape(p) && i < Threads(p) && j < Threads(p)
    requires Inv(p.queues[j]) && Worker(i) in p.queues[j].threads && InPop(p.queues[j].threads[Worker(i)])
    ensures var q, q' := p.queues[j], Popped(p, i, j, weak);
            var won := Trying(q.threads[Worker(i)]) && q'.threads[Worker(i)].PopRead?;
            && (won ==> WaitingIn(q) != [] && WaitingIn(q') == WaitingIn(q)[1..] &&
                        TakenFrom(q') == TakenFrom(q) + [WaitingIn(q)[0]])
            && (!won ==> WaitingIn(q') == WaitingIn(q) && TakenFrom(q') == TakenFrom(q))
  {
    var q, q' := p.queues[j], Popped(p, i, j, weak);
    PopStepEffect(q, Worker(i), weak);
    assert q.deq <= q.enq == |q.log|;
    if q'.deq == q.deq + 1 { NextWaiting(q.log, q.deq); }
  }

  lemma NextWaiting(log: seq<TaskId>, d: nat)
    requires d < |log|
    ensures log[d..] != [] && log[d..][1..] == log[d + 1..] && log[..d + 1] == log[..d] + [log[d..][0]]
  {
  }

  lemma PopPlaces(p: Pool, i: nat, j: nat, weak: bool)
    requires PoolShape(p) && i < Threads(p) && j < Threads(p) && Popping(p, i, j)
    requires Inv(p.queues[j]) && Worker(i) in p.queues[j].threads && InPop(p.queues[j].threads[Worker(i)])
    ensures var q, q' := p.queues[j], Popped(p, i, j, weak);
            var pc, pc' := q.threads[Worker(i)], q'.threads[Worker(i)];
            var p' := Moved(p, i, j, q', p.pcs[i]);
            && (Trying(pc) ==> AbstractPc(p, i) == TryingPlace(p.pcs[i]))
            && (Trying(pc) && Trying(pc') ==> AbstractPc(p', i) == TryingPlace(p.pcs[i]))
            && (Trying(pc) && pc'.PopRead? ==>
                  WaitingIn(q) != [] && AbstractPc(p', i) == Abstract.Running(WaitingIn(q)[0]))
            && (Trying(pc) && pc'.PopReturn? ==> AbstractPc(p', i) == FailedPlace(p.pcs[i]))
            && (HasTaken(pc) ==> AbstractPc(p', i) == AbstractPc(p, i))
  {
    var q, q' := p.queues[j], Popped(p, i, j, weak);
    PlaceOfPop(p, i, j, q');
    PopPcMoves(q, Worker(i), weak, TryingPlace(p.pcs[i]), FailedPlace(p.pcs[i]));
  }

  lemma PlaceOfPop(p: Pool, i: nat, j: nat, q: State<TaskId>)
    requires PoolShape(p) && i < Threads(p) && j < Threads(p) && Popping(p, i, j) && Shape(q) && q.cap == p.cap
    ensures AbstractPc(p, i) == PopPc(p.queues[j], Worker(i), TryingPlace(p.pcs[i]), FailedPlace(p.pcs[i]))
    ensures AbstractPc(Moved(p, i, j, q, p.pcs[i]), i)
         == PopPc(q, Worker(i), TryingPlace(p.pcs[i]), FailedPlace(p.pcs[i]))
  {
  }

  /** The abstract place of a worker before and after a step of its Pop. */
  lemma PopPcMoves(q: State<TaskId>, t: Tid, weak: bool, trying: Abstract.WorkerPc, failed: Abstract.WorkerPc)
    requires Inv(q) && t in q.threads && InPop(q.threads[t])
    ensures var q' := StepThread(q, t, weak);
            var pc, pc' := q.threads[t], q'.threads[t];
            && (Trying(pc) ==> PopPc(q, t, trying, failed) == trying)
            && (Trying(pc) && Trying(pc') ==> PopPc(q', t, trying, failed) == trying)
            && (Trying(pc) && pc'.PopRead? ==>
                  WaitingIn(q) != [] && PopPc(q', t, trying, failed) == Abstract.Running(WaitingIn(q)[0]))
            && (Trying(pc) && pc'.PopReturn? ==> PopPc(q', t, trying, failed) == failed)
            && (HasTaken(pc) ==> PopPc(q', t, trying, failed) == PopPc(q, t, trying, failed))
  {
    PopStepEffect(q, t, weak);
    assert q.deq <= q.enq == |q.log|;
    if HasTaken(q.threads[t]) { TakenIsLogged(q, t); }
  }

  lemma PopInsideView(p: Pool, i: nat, j: nat, weak: bool)
    requires InsidePop(p, i, j)
    ensures View(OnQueue(p, j, Step(Worker(i), weak))) == PopView(p, i, j, weak)
  {
    PopInside(p, i, j, weak);
    MovedView(p, i, j, Popped(p, i, j, weak), p.pcs[i]);
    PopContents(p, i, j, weak);
    PopPlaces(p, i, j, weak);
    SameView(View(p), j);
    SamePcs(p, i);
    PopStepEffect(p.queues[j], Worker(i), weak);
  }

  lemma PopViewIsWork(p: Pool, i: nat, j: nat, weak: bool)
    requires InsidePop(p, i, j) && Inv(p.queues[j])
    ensures PopView(p, i, j, weak) == View(p) ||
            exists lucky :: PopView(p, i, j, weak) == Abstract.DoWork(View(p), i, lucky)
  {
    PopPlaces(p, i, j, weak);
    var pc, pc' := p.queues[j].threads[Worker(i)], Popped(p, i, j, weak).threads[Worker(i)];
    if Trying(pc) && !Trying(pc') {
      assert PopView(p, i, j, weak) == Abstract.DoWork(View(p), i, pc'.PopRead?);
    }
  }

  lemma SamePcs(p: Pool, i: nat)
    requires PoolShape(p) && i < Threads(p)
    ensures PcsOf(p)[i := AbstractPc(p, i)] == PcsOf(p)
  {
  }

  /** A Pop hands over the task of its ticket. */
  lemma PopHandsOver(q: State<TaskId>, t: Tid)
    requires Inv(q) && t in q.threads && q.threads[t].PopReturn? && q.threads[t].ok
    ensures q.threads[t].next < |q.log| && q.threads[t].out == Holds(q.log[q.threads[t].next])
  {
    assert ThreadOk(q, t);
  }

  lemma PopSucceeded(p: Pool, i: nat, j: nat, weak: bool)
    requires PoolInv(p) && i < Threads(p) && j < Threads(p) && Popping(p, i, j) && WorkerFree(p, i)
    requires PcsOf(p)[i := AbstractPc(p, i)] == PcsOf(p)
    requires Worker(i) in p.queues[j].threads
    requires p.queues[j].threads[Worker(i)].PopReturn? && p.queues[j].threads[Worker(i)].ok
    ensures PoolInv(DoWork(p, i, weak)) && View(DoWork(p, i, weak)) == View(p)
  {
    var q, t := p.queues[j], Worker(i);
    assert QueueOk(p, j);
    PopHandsOver(q, t);
    LeaveEffect(p, i, Running(q.log[q.threads[t].next]));
  }

  /** When the Pop has returned, the worker goes on where the abstract one already is. */
  lemma PopReturned(p: Pool, i: nat, j: nat, weak: bool)
    requires PoolInv(p) && i < Threads(p) && j < Threads(p) && Popping(p, i, j)
    requires Worker(i) in p.queues[j].threads && p.queues[j].threads[Worker(i)].PopReturn?
    ensures PoolInv(DoWork(p, i, weak)) && View(DoWork(p, i, weak)) == View(p)
  {
    FreeWorker(p, i);
    SamePcs(p, i);
    if p.queues[j].threads[Worker(i)].ok {
      PopSucceeded(p, i, j, weak);
    } else if p.pcs[i] == OwnPop {
      StartPopEffect(p, i, Donor(p, i), DonorPop);
    } else {
      LeaveEffect(p, i, Sleeping);
    }
  }

  /** `p'` is `p` to the abstract pool, or what one of its actions makes of it. */
  ghost predicate Simulates(p: Pool, p': Pool)
    requires PoolShape(p) && PoolShape(p')
  {
    View(p') == View(p) || exists b :: View(p') == Abstract.Apply(View(p), b)
  }

  lemma SimulatesWork(p: Pool, p': Pool, i: nat, lucky: bool)
    requires PoolShape(p) && PoolShape(p') && i < Threads(p)
    requires View(p') == Abstract.DoWork(View(p), i, lucky)
    ensures Simulates(p, p')
  {
    assert View(p') == Abstract.Apply(View(p), Abstract.Work(i, lucky));
  }

  lemma WorkInsidePop(p: Pool, i: nat, j: nat, weak: bool)
    requires InsidePop(p, i, j)
    ensures PoolInv(DoWork(p, i, weak)) && Simulates(p, DoWork(p, i, weak))
  {
    PopInside(p, i, j, weak);
    PopInsideKeeps(p, i, j, weak);
    PopInsideView(p, i, j, weak);
    PopViewIsWork(p, i, j, weak);
    var p' := OnQueue(p, j, Step(Worker(i), weak));
    assert DoWork(p, i, weak) == p';
    if View(p') != View(p) {
      var lucky :| PopView(p, i, j, weak) == Abstract.DoWork(View(p), i, lucky);
      SimulatesWork(p, p', i, lucky);
    }
  }

  lemma WorkInPop(p: Pool, i: nat, j: nat, weak: bool)
    requires PoolInv(p) && i < Threads(p) && j < Threads(p) && Popping(p, i, j)
    ensures PoolInv(DoWork(p, i, weak)) && Simulates(p, DoWork(p, i, weak))
  {
    assert WorkerOk(p, i, j);
    if p.queues[j].threads[Worker(i)].PopReturn? {
      PopReturned(p, i, j, weak);
    } else {
      WorkInsidePop(p, i, j, weak);
    }
  }

  lemma WorkElsewhere(p: Pool, i: nat, weak: bool)
    requires PoolInv(p) && i < Threads(p) && p.pcs[i] != OwnPop && p.pcs[i] != DonorPop
    ensures PoolInv(DoWork(p, i, weak)) && Simulates(p, DoWork(p, i, weak))
  {
    FreeWorker(p, i);
    match p.pcs[i]
    case Checking =>
      if p.running[i] { StartPopEffect(p, i, i, OwnPop); } else { LeaveEffect(p, i, Exited); }
      SimulatesWork(p, DoWork(p, i, weak), i, true);
    case Running(task) =>
      LeaveEffect(p, i, Checking);
      FinishedKeeps(SetPc(p, i, Checking), p.finished + [Abstract.Finished(task, i)]);
      SimulatesWork(p, DoWork(p, i, weak), i, true);
    case Sleeping =>
      LeaveEffect(p, i, Checking);
      SimulatesWork(p, DoWork(p, i, weak), i, true);
    case _ =>
  }

  /** The record of finished tasks is not read. */
  lemma FinishedKeeps(p: Pool, finished: seq<Abstract.Finished>)
    requires PoolInv(p)
    ensures PoolInv(p.(finished := finished))
    ensures View(p.(finished := finished)) == View(p).(finished := finished)
  {
    var p' := p.(finished := finished);
    forall k | 0 <= k < Threads(p) ensures QueueOk(p', k) { assert QueueOk(p, k); }
    forall u | 0 <= u < |p.chosen| ensures SubmitterOk(p', u) { assert SubmitterOk(p, u); }
    forall i, k | 0 <= i < Threads(p) && 0 <= k < Threads(p) ensures WorkerOk(p', i, k) { assert WorkerOk(p, i, k); }
    assert PcsOf(p') == PcsOf(p) && PendingIn(p') == PendingIn(p);
  }

  lemma StopKeeps(p: Pool, i: nat)
    requires PoolInv(p) && i < Threads(p)
    ensures PoolInv(Act(p, Stop(i))) && View(Act(p, Stop(i))) == Abstract.Apply(View(p), Abstract.Stop(i))
  {
    var p' := Act(p, Stop(i));
    forall k | 0 <= k < Threads(p) ensures QueueOk(p', k) { assert QueueOk(p, k); }
    forall u | 0 <= u < |p.chosen| ensures SubmitterOk(p', u) { assert SubmitterOk(p, u); }
    forall w, k | 0 <= w < Threads(p) && 0 <= k < Threads(p) ensures WorkerOk(p', w, k) { assert WorkerOk(p, w, k); }
    assert PcsOf(p') == PcsOf(p) && PendingIn(p') == PendingIn(p);
  }

  /** Every atomic step of the pool keeps the invariant and is a stutter or one action of the
      abstract pool. */
  lemma StepRefines(p: Pool, a: PoolAction)
    requires PoolInv(p)
    ensures PoolInv(Act(p, a)) && Simulates(p, Act(p, a))
  {
    match a
    case Select =>
      SelectKeeps(p, p.next % Threads(p));
      SelectRefines(p);
      assert View(Act(p, a)) == Abstract.Apply(View(p), Abstract.Select);
    case Submit(task, weak) =>
      if task < |p.chosen| {
        assert SubmitterOk(p, task);
        SubmitKeeps(p, task, weak);
        SubmitRefines(p, task, weak);
        SubmitSimulates(p, task, weak);
      }
    case Work(i, weak) =>
      if i < Threads(p) {
        if p.pcs[i] == OwnPop {
          WorkInPop(p, i, i, weak);
        } else if p.pcs[i] == DonorPop {
          WorkInPop(p, i, Donor(p, i), weak);
        } else {
          WorkElsewhere(p, i, weak);
        }
      }
    case Stop(i) =>
      if i < Threads(p) {
        StopKeeps(p, i);
        assert View(Act(p, a)) == Abstract.Apply(View(p), Abstract.Stop(i));
      }
  }

  lemma SubmitSimulates(p: Pool, task: TaskId, weak: bool)
    requires PoolInv(p) && task < |p.chosen| && SubmitterOk(p, task)
    requires View(DoSubmit(p, task, weak)) == SubmitView(p, task, weak)
    ensures Simulates(p, DoSubmit(p, task, weak))
  {
    if IsPending(p, task) && !Undecided(Decision(p, task, weak)) {
      var b := Abstract.Post(task, Decision(p, task, weak).PushWrite?);
      assert View(DoSubmit(p, task, weak)) == Abstract.Apply(View(p), b);
    }
  }

  /** Every run of the pool is, step by step, a run of the abstract pool. */
  lemma {:induction false} RunRefines(threads: nat, cap: nat, acts: seq<PoolAction>)
    returns (abstractActs: seq<Abstract.Action>)
    requires threads > 0 && IsPow2(cap) && cap >= 2
    ensures PoolInv(ActAll(NewPool(threads, cap), acts))
    ensures View(ActAll(NewPool(threads, cap), acts)) == Abstract.Exec(Abstract.Init(threads, cap), abstractActs)
  {
    NewPoolInv(threads, cap);
    if acts == [] {
      abstractActs := [];
    } else {
      var front, a := acts[..|acts| - 1], acts[|acts| - 1];
      var bs := RunRefines(threads, cap, front);
      var p := ActAll(NewPool(threads, cap), front);
      StepRefines(p, a);
      if View(Act(p, a)) == View(p) {
        abstractActs := bs;
      } else {
        var b :| View(Act(p, a)) == Abstract.Apply(View(p), b);
        abstractActs := bs + [b];
        assert abstractActs[..|abstractActs| - 1] == bs;
      }
    }
  }
}
