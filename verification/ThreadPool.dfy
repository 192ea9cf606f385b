/** The work-stealing thread pool with whole operations: submitters and workers interleave
    freely, and each queue is an ideal bounded sequence. `ConcretePool` puts the real queues in
    their place and `PoolTheorems` says for which capacities that is the same. */
module ThreadPool {
  import opened Bits

  /** Tasks are named by the number of the `Submit` call that created them. */
  type TaskId = nat

  /** Where a worker is inside `_Routine`. */
  datatype WorkerPc =
    | Checking               // load of `_running`
    | PopOwn                 // `_queue.Pop(&task)`
    | PopDonor               // `donor->_Steal(&task)`
    | Running(task: TaskId)  // `task()`
    | Sleeping
    | Exited

  datatype Finished = Finished(task: TaskId, worker: nat)

  /** `next` is the 64-bit atomic counter, `pending` the submitters between their `fetch_add`
      and the return of `Post`. History: `chosen[k]` is the worker selected by Submit call
      `k`; `posted[j]` and `taken[j]` are what entered and left the queue of worker `j`. */
  datatype State = State(
    cap: nat,
    next: nat,
    pending: map<TaskId, nat>,
    queues: seq<seq<TaskId>>,
    running: seq<bool>,
    pcs: seq<WorkerPc>,
    finished: seq<Finished>,
    chosen: seq<nat>,
    posted: seq<seq<TaskId>>,
    taken: seq<seq<TaskId>>)

  /** A submitter's `fetch_add`; the outcome of its `Push`; a step of worker `i`, whose Pop
      may fail on a queue with a call in flight (`lucky` false); the destructor's Stop. */
  datatype Action =
    | Select
    | Post(task: TaskId, lucky: bool)
    | Work(i: nat, lucky: bool)
    | Stop(i: nat)

  ghost predicate Shape(s: State) {
    && |s.queues| > 0 && |s.running| == |s.pcs| == |s.posted| == |s.taken| == |s.queues|
    && (forall t | t in s.pending :: s.pending[t] < |s.queues|)
  }

  function Threads(s: State): nat {
    |s.queues|
  }

  function Init(threads: nat, cap: nat): State {
    State(cap, 0, map[], seq(threads, i => []), seq(threads, i => true), seq(threads, i => Checking),
          [], [], seq(threads, i => []), seq(threads, i => []))
  }

  /** The worker whose queue worker `i` steals from. */
  function Donor(threads: nat, i: nat): nat
    requires threads > 0
  {
    (i + 1) % threads
  }

  function DoSelect(s: State): State
    requires Shape(s)
  {
    var j := s.next % Threads(s);
    s.(next := (s.next + 1) % WORD, pending := s.pending[|s.chosen| := j], chosen := s.chosen + [j])
  }

  function DoPost(s: State, task: TaskId, lucky: bool): State
    requires Shape(s) && task in s.pending
  {
    var j := s.pending[task];
    var s' := s.(pending := s.pending - {task});
    if lucky && |s.queues[j]| < s.cap then
      s'.(queues := s.queues[j := s.queues[j] + [task]], posted := s.posted[j := s.posted[j] + [task]])
    else s'
  }

  /** Worker `i` pops from the queue of worker `j`; `otherwise` is where it goes on failure. */
  function DoPop(s: State, i: nat, j: nat, lucky: bool, otherwise: WorkerPc): State
    requires Shape(s) && i < Threads(s) && j < Threads(s)
  {
    if lucky && s.queues[j] != [] then
      var task := s.queues[j][0];
      s.(queues := s.queues[j := s.queues[j][1..]], taken := s.taken[j := s.taken[j] + [task]],
         pcs := s.pcs[i := Running(task)])
    else s.(pcs := s.pcs[i := otherwise])
  }

  function DoWork(s: State, i: nat, lucky: bool): State
    requires Shape(s) && i < Threads(s)
  {
    match s.pcs[i]
    case Checking => s.(pcs := s.pcs[i := if s.running[i] then PopOwn else Exited])
    case PopOwn => DoPop(s, i, i, lucky, PopDonor)
    case PopDonor => DoPop(s, i, Donor(Threads(s), i), lucky, Sleeping)
    case Running(task) =>
      s.(pcs := s.pcs[i := Checking], finished := s.finished + [Finished(task, i)])
    case Sleeping => s.(pcs := s.pcs[i := Checking])
    case Exited => s
  }

  /** An action that is not possible leaves the state alone. */
  function Apply(s: State, a: Action): (s': State)
    requires Shape(s)
    ensures Shape(s') && Threads(s') == Threads(s) && s'.cap == s.cap
  {
    match a
    case Select => DoSelect(s)
    case Post(task, lucky) => if task in s.pending then DoPost(s, task, lucky) else s
    case Work(i, lucky) => if i < Threads(s) then DoWork(s, i, lucky) else s
    case Stop(i) => if i < Threads(s) then s.(running := s.running[i := false]) else s
  }

  function Exec(s: State, acts: seq<Action>): (s': State)
    requires Shape(s)
    ensures Shape(s') && Threads(s') == Threads(s) && s'.cap == s.cap
  {
    if acts == [] then s
    else Apply(Exec(s, acts[..|acts| - 1]), acts[|acts| - 1])
  }

  // ---------------------------------------------------------------------
  // Where the accepted tasks are
  // ---------------------------------------------------------------------

  /** How often `t` occurs in any of the sequences. */
  function InQueues(qs: seq<seq<TaskId>>, t: TaskId): nat {
    if qs == [] then 0 else multiset(qs[0])[t] + InQueues(qs[1..], t)
  }

  function InHand(pc: WorkerPc, t: TaskId): nat {
    if pc == Running(t) then 1 else 0
  }

  function InHands(pcs: seq<WorkerPc>, t: TaskId): nat {
    if pcs == [] then 0 else InHand(pcs[0], t) + InHands(pcs[1..], t)
  }

  function InFinished(finished: seq<Finished>, t: TaskId): nat {
    if finished == [] then 0
    else InFinished(finished[..|finished| - 1], t) + if finished[|finished| - 1].task == t then 1 else 0
  }

  /** How often `Submit` has put task `t` into a queue: its return value is true. */
  function Accepted(s: State, t: TaskId): nat {
    InQueues(s.posted, t)
  }

  lemma {:induction false} QueueUpdate(qs: seq<seq<TaskId>>, j: nat, q: seq<TaskId>, t: TaskId)
    requires j < |qs|
    ensures InQueues(qs[j := q], t) + multiset(qs[j])[t] == InQueues(qs, t) + multiset(q)[t]
  {
    if j == 0 {
      assert qs[j := q][1..] == qs[1..];
    } else {
      assert qs[j := q][1..] == qs[1..][j - 1 := q];
      QueueUpdate(qs[1..], j - 1, q, t);
    }
  }

  lemma {:induction false} HandsUpdate(pcs: seq<WorkerPc>, i: nat, pc: WorkerPc, t: TaskId)
    requires i < |pcs|
    ensures InHands(pcs[i := pc], t) + InHand(pcs[i], t) == InHands(pcs, t) + InHand(pc, t)
  {
    if i == 0 {
      assert pcs[i := pc][1..] == pcs[1..];
    } else {
      assert pcs[i := pc][1..] == pcs[1..][i - 1 := pc];
      HandsUpdate(pcs[1..], i - 1, pc, t);
    }
  }

  // ---------------------------------------------------------------------
  // The inductive invariant
  // ---------------------------------------------------------------------

  /** How often a task is in some queue, in some worker's hand, and finished. */
  function Places(s: State, t: TaskId): nat {
    InQueues(s.queues, t) + InHands(s.pcs, t) + InFinished(s.finished, t)
  }

  /** Every task accepted is in one place, and task names are never reused. */
  ghost predicate TaskOk(s: State, t: TaskId) {
    && Accepted(s, t) == Places(s, t) <= 1
    && (Accepted(s, t) == 1 ==> t < |s.chosen|)
    && (t in s.pending ==> t < |s.chosen| && s.pending[t] == s.chosen[t] && Accepted(s, t) == 0)
  }

  ghost predicate Tasks(s: State) {
    forall t: TaskId :: TaskOk(s, t)
  }

  ghost predicate QueueOk(s: State, j: nat)
    requires Shape(s) && j < Threads(s)
  {
    && s.posted[j] == s.taken[j] + s.queues[j]
    && |s.queues[j]| <= s.cap
    && (forall t | t in s.posted[j] :: t < |s.chosen| && s.chosen[t] == j)
  }

  /** Worker `i` may run task `t`: it was posted to `i` itself or to its donor. */
  ghost predicate MayRun(s: State, i: nat, t: TaskId)
    requires Shape(s)
  {
    t < |s.chosen| && (s.chosen[t] == i || s.chosen[t] == Donor(Threads(s), i))
  }

  ghost predicate Queues(s: State)
    requires Shape(s)
  {
    forall j | 0 <= j < Threads(s) :: QueueOk(s, j)
  }

  ghost predicate Runs(s: State)
    requires Shape(s)
  {
    && (forall i | 0 <= i < Threads(s) && s.pcs[i].Running? :: MayRun(s, i, s.pcs[i].task))
    && (forall f | f in s.finished :: f.worker < Threads(s) && MayRun(s, f.worker, f.task))
  }

  ghost predicate Inv(s: State) {
    Shape(s) && Tasks(s) && Queues(s) && Runs(s)
  }

  lemma {:induction false} QueuesEmpty(qs: seq<seq<TaskId>>, t: TaskId)
    requires forall j | 0 <= j < |qs| :: qs[j] == []
    ensures InQueues(qs, t) == 0
  {
    if qs != [] { QueuesEmpty(qs[1..], t); }
  }

  lemma {:induction false} HandsEmpty(pcs: seq<WorkerPc>, t: TaskId)
    requires forall i | 0 <= i < |pcs| :: !pcs[i].Running?
    ensures InHands(pcs, t) == 0
  {
    if pcs != [] { HandsEmpty(pcs[1..], t); }
  }

  lemma InitInv(threads: nat, cap: nat)
    requires threads > 0
    ensures Inv(Init(threads, cap))
  {
    var s := Init(threads, cap);
    forall t: TaskId ensures TaskOk(s, t) {
      QueuesEmpty(s.posted, t);
      QueuesEmpty(s.queues, t);
      HandsEmpty(s.pcs, t);
    }
  }

  lemma SelectInv(s: State)
    requires Inv(s)
    ensures Inv(DoSelect(s))
  {
    var s' := DoSelect(s);
    forall t: TaskId ensures TaskOk(s', t) { assert TaskOk(s, t); }
    forall j | 0 <= j < Threads(s') ensures QueueOk(s', j) { assert QueueOk(s, j); }
    RunsGrow(s, s');
  }

  /** More choices, and no new work in a hand or finished. */
  lemma RunsGrow(s: State, s': State)
    requires Shape(s) && Shape(s') && Runs(s) && Threads(s) == Threads(s')
    requires s.chosen <= s'.chosen && s'.finished == s.finished
    requires forall i | 0 <= i < Threads(s) && s'.pcs[i].Running? :: s'.pcs[i] == s.pcs[i]
    ensures Runs(s')
  {
    forall i | 0 <= i < Threads(s') && s'.pcs[i].Running? ensures MayRun(s', i, s'.pcs[i].task) {
      assert MayRun(s, i, s.pcs[i].task);
    }
    forall f | f in s'.finished ensures f.worker < Threads(s') && MayRun(s', f.worker, f.task) {
      assert MayRun(s, f.worker, f.task);
    }
  }

  /** The outcome of a Submit call changes the places of its own task only. */
  lemma PostTask(s: State, task: TaskId, lucky: bool, t: TaskId)
    requires Shape(s) && task in s.pending && TaskOk(s, task) && TaskOk(s, t)
    ensures TaskOk(DoPost(s, task, lucky), t)
  {
    var j := s.pending[task];
    Append(s.queues, j, task, t);
    Append(s.posted, j, task, t);
  }

  lemma PostQueue(s: State, task: TaskId, lucky: bool, k: nat)
    requires Shape(s) && task in s.pending && TaskOk(s, task) && k < Threads(s) && QueueOk(s, k)
    ensures QueueOk(DoPost(s, task, lucky), k)
  {
  }

  lemma PostInv(s: State, task: TaskId, lucky: bool)
    requires Inv(s) && task in s.pending
    ensures Inv(DoPost(s, task, lucky))
  {
    var s' := DoPost(s, task, lucky);
    assert TaskOk(s, task);
    forall t: TaskId ensures TaskOk(s', t) {
      assert TaskOk(s, t);
      PostTask(s, task, lucky, t);
    }
    forall k | 0 <= k < Threads(s') ensures QueueOk(s', k) {
      assert QueueOk(s, k);
      PostQueue(s, task, lucky, k);
    }
    RunsGrow(s, s');
  }

  lemma Append(qs: seq<seq<TaskId>>, j: nat, task: TaskId, t: TaskId)
    requires j < |qs|
    ensures InQueues(qs[j := qs[j] + [task]], t) == InQueues(qs, t) + if t == task then 1 else 0
  {
    QueueUpdate(qs, j, qs[j] + [task], t);
  }

  lemma RemoveFront(qs: seq<seq<TaskId>>, j: nat, t: TaskId)
    requires j < |qs| && qs[j] != []
    ensures InQueues(qs, t) == InQueues(qs[j := qs[j][1..]], t) + if t == qs[j][0] then 1 else 0
  {
    QueueUpdate(qs, j, qs[j][1..], t);
    assert qs[j] == [qs[j][0]] + qs[j][1..];
  }

  /** What the front of a queue is: posted there, by choice of its Submit call. */
  lemma FrontOk(s: State, j: nat)
    requires Inv(s) && j < Threads(s) && s.queues[j] != []
    ensures s.queues[j][0] < |s.chosen| && s.chosen[s.queues[j][0]] == j
    ensures s.posted[j] == (s.taken[j] + [s.queues[j][0]]) + s.queues[j][1..]
  {
    assert QueueOk(s, j);
    assert s.queues[j] == [s.queues[j][0]] + s.queues[j][1..];
    assert s.queues[j][0] in s.posted[j];
  }

  /** A worker that holds nothing picks up the front of a queue. */
  lemma TakeInv(s: State, i: nat, j: nat, otherwise: WorkerPc)
    requires Inv(s) && i < Threads(s) && j < Threads(s) && (j == i || j == Donor(Threads(s), i))
    requires !s.pcs[i].Running? && s.queues[j] != []
    ensures Inv(DoPop(s, i, j, true, otherwise))
  {
    var s' := DoPop(s, i, j, true, otherwise);
    forall t: TaskId ensures TaskOk(s', t) {
      assert TaskOk(s, t);
      RemoveFront(s.queues, j, t);
      HandsUpdate(s.pcs, i, Running(s.queues[j][0]), t);
    }
    FrontOk(s, j);
    forall k | 0 <= k < Threads(s') ensures QueueOk(s', k) { assert QueueOk(s, k); }
    TakeRuns(s, i, j, s');
  }

  lemma TakeRuns(s: State, i: nat, j: nat, s': State)
    requires Shape(s) && Shape(s') && Runs(s) && Threads(s) == Threads(s') && s'.chosen == s.chosen
    requires i < Threads(s) && j < Threads(s) && (j == i || j == Donor(Threads(s), i)) && s.queues[j] != []
    requires s.queues[j][0] < |s.chosen| && s.chosen[s.queues[j][0]] == j
    requires s'.pcs == s.pcs[i := Running(s.queues[j][0])] && s'.finished == s.finished
    ensures Runs(s')
  {
    forall k | 0 <= k < Threads(s') && s'.pcs[k].Running? ensures MayRun(s', k, s'.pcs[k].task) {
      if k != i { assert MayRun(s, k, s.pcs[k].task); }
    }
    forall f | f in s'.finished ensures f.worker < Threads(s') && MayRun(s', f.worker, f.task) {
      assert MayRun(s, f.worker, f.task);
    }
  }

  /** A worker moves on without touching a task. */
  lemma MoveInv(s: State, i: nat, pc: WorkerPc)
    requires Inv(s) && i < Threads(s) && !s.pcs[i].Running? && !pc.Running?
    ensures Inv(s.(pcs := s.pcs[i := pc]))
  {
    var s' := s.(pcs := s.pcs[i := pc]);
    forall t: TaskId ensures TaskOk(s', t) {
      assert TaskOk(s, t);
      HandsUpdate(s.pcs, i, pc, t);
    }
    forall k | 0 <= k < Threads(s') ensures QueueOk(s', k) { assert QueueOk(s, k); }
    RunsGrow(s, s');
  }

  lemma FinishInv(s: State, i: nat)
    requires Inv(s) && i < Threads(s) && s.pcs[i].Running?
    ensures Inv(DoWork(s, i, true))
  {
    var s' := DoWork(s, i, true);
    var task := s.pcs[i].task;
    assert s'.finished[..|s'.finished| - 1] == s.finished;
    forall t: TaskId ensures TaskOk(s', t) {
      assert TaskOk(s, t);
      HandsUpdate(s.pcs, i, Checking, t);
    }
    assert MayRun(s, i, task);
    forall k | 0 <= k < Threads(s') ensures QueueOk(s', k) { assert QueueOk(s, k); }
    forall k | 0 <= k < Threads(s') && s'.pcs[k].Running? ensures MayRun(s', k, s'.pcs[k].task) {
      assert MayRun(s, k, s.pcs[k].task);
    }
    forall f | f in s'.finished ensures f.worker < Threads(s') && MayRun(s', f.worker, f.task) {
      assert f in s.finished || f == Finished(task, i);
      if f in s.finished { assert MayRun(s, f.worker, f.task); }
    }
  }

  lemma WorkInv(s: State, i: nat, lucky: bool)
    requires Inv(s) && i < Threads(s)
    ensures Inv(DoWork(s, i, lucky))
  {
    var donor := Donor(Threads(s), i);
    match s.pcs[i]
    case Checking => MoveInv(s, i, if s.running[i] then PopOwn else Exited);
    case PopOwn =>
      if lucky && s.queues[i] != [] { TakeInv(s, i, i, PopDonor); } else { MoveInv(s, i, PopDonor); }
    case PopDonor =>
      if lucky && s.queues[donor] != [] { TakeInv(s, i, donor, Sleeping); } else { MoveInv(s, i, Sleeping); }
    case Running(_) => FinishInv(s, i);
    case Sleeping => MoveInv(s, i, Checking);
    case Exited =>
  }

  lemma {:induction false} ExecInv(s: State, acts: seq<Action>)
    requires Inv(s)
    ensures Inv(Exec(s, acts))
  {
    if acts != [] {
      ExecInv(s, acts[..|acts| - 1]);
      ApplyInv(Exec(s, acts[..|acts| - 1]), acts[|acts| - 1]);
    }
  }

  lemma ApplyInv(s: State, a: Action)
    requires Inv(s)
    ensures Inv(Apply(s, a))
  {
    match a
    case Select => SelectInv(s);
    case Post(task, lucky) => if task in s.pending { PostInv(s, task, lucky); }
    case Work(i, lucky) => if i < Threads(s) { WorkInv(s, i, lucky); }
    case Stop(i) =>
      var s' := Apply(s, a);
      forall t: TaskId ensures TaskOk(s', t) { assert TaskOk(s, t); }
      forall j | 0 <= j < Threads(s') ensures QueueOk(s', j) { assert QueueOk(s, j); }
      RunsGrow(s, s');
  }

  // ---------------------------------------------------------------------
  // Over every run, with ideal queues
  // ---------------------------------------------------------------------

  /** Every accepted task is at all times in exactly one place, once; no other task is
      anywhere. So nothing is lost and nothing runs twice, even while workers stop. */
  lemma {:induction false} TaskConservation(threads: nat, cap: nat, acts: seq<Action>, t: TaskId)
    requires threads > 0
    ensures var s := Exec(Init(threads, cap), acts);
            && Accepted(s, t) <= 1
            && InQueues(s.queues, t) + InHands(s.pcs, t) + InFinished(s.finished, t) == Accepted(s, t)
  {
    InitInv(threads, cap);
    ExecInv(Init(threads, cap), acts);
    assert TaskOk(Exec(Init(threads, cap), acts), t);
  }

  /** Worker `i` only runs tasks posted to `i` or to `i + 1` modulo the number of workers;
      seen from the task, it is run by its worker or by that worker's predecessor. */
  lemma OnlyNeighboursSteal(threads: nat, cap: nat, acts: seq<Action>)
    requires threads > 0
    ensures var s := Exec(Init(threads, cap), acts);
            && (forall i | 0 <= i < threads && s.pcs[i].Running? ::
                  s.pcs[i].task < |s.chosen| && RunsFor(threads, i, s.chosen[s.pcs[i].task]))
            && (forall f | f in s.finished ::
                  f.task < |s.chosen| && RunsFor(threads, f.worker, s.chosen[f.task]))
  {
    InitInv(threads, cap);
    ExecInv(Init(threads, cap), acts);
    var s := Exec(Init(threads, cap), acts);
    forall i | 0 <= i < threads && s.pcs[i].Running?
      ensures s.pcs[i].task < |s.chosen| && RunsFor(threads, i, s.chosen[s.pcs[i].task])
    {
      assert MayRun(s, i, s.pcs[i].task);
      Predecessor(threads, i);
    }
    forall f | f in s.finished
      ensures f.task < |s.chosen| && RunsFor(threads, f.worker, s.chosen[f.task])
    {
      assert MayRun(s, f.worker, f.task);
      Predecessor(threads, f.worker);
    }
  }

  /** `i` is `j` or `j - 1` modulo `threads`. */
  predicate RunsFor(threads: nat, i: nat, j: nat) {
    i < threads && j < threads && (i == j || i == if j == 0 then threads - 1 else j - 1)
  }

  lemma Predecessor(threads: nat, i: nat)
    requires i < threads
    ensures RunsFor(threads, i, Donor(threads, i))
  {
    if i + 1 < threads {
      DivModUnique(i + 1, threads, 0, i + 1);
    } else {
      DivModUnique(i + 1, threads, 1, 0);
    }
  }

  /** Each worker's tasks leave its queue in the order in which they were posted. */
  lemma {:induction false} QueuesAreFifo(threads: nat, cap: nat, acts: seq<Action>, j: nat)
    requires j < threads
    ensures var s := Exec(Init(threads, cap), acts);
            s.posted[j] == s.taken[j] + s.queues[j] && |s.queues[j]| <= cap
  {
    InitInv(threads, cap);
    ExecInv(Init(threads, cap), acts);
    assert QueueOk(Exec(Init(threads, cap), acts), j);
  }

  /** The number of waiting tasks. */
  function Waiting(qs: seq<seq<TaskId>>): nat {
    if qs == [] then 0 else |qs[0]| + Waiting(qs[1..])
  }

  /** The pool never holds more than `threads * cap` waiting tasks. */
  lemma PoolCapacity(threads: nat, cap: nat, acts: seq<Action>)
    requires threads > 0
    ensures Waiting(Exec(Init(threads, cap), acts).queues) <= threads * cap
  {
    var s := Exec(Init(threads, cap), acts);
    forall j | 0 <= j < threads ensures |s.queues[j]| <= cap {
      QueuesAreFifo(threads, cap, acts, j);
    }
    WaitingBound(s.queues, threads, cap);
  }

  lemma {:induction false} WaitingBound(qs: seq<seq<TaskId>>, n: nat, cap: nat)
    requires n == |qs| && forall j | 0 <= j < n :: |qs[j]| <= cap
    ensures Waiting(qs) <= n * cap
    decreases n
  {
    if n > 0 {
      WaitingBound(qs[1..], n - 1, cap);
      MulStep(n - 1, cap);
    }
  }

  lemma MulStep(n: nat, d: nat)
    ensures n * d + d == (n + 1) * d
  {
  }

  // ---------------------------------------------------------------------
  // Round robin
  // ---------------------------------------------------------------------

  function Count(chosen: seq<nat>, j: nat): nat {
    if chosen == [] then 0
    else Count(chosen[..|chosen| - 1], j) + if chosen[|chosen| - 1] == j then 1 else 0
  }

  lemma {:induction false} CountRoundRobin(chosen: seq<nat>, threads: nat, j: nat)
    requires j < threads && forall k | 0 <= k < |chosen| :: chosen[k] == k % threads
    ensures Count(chosen, j) == |chosen| / threads + if j < |chosen| % threads then 1 else 0
  {
    var n := |chosen|;
    if n == 0 {
      DivModUnique(0, threads, 0, 0);
    } else {
      CountRoundRobin(chosen[..n - 1], threads, j);
      NextQuotient(n - 1, threads);
    }
  }

  lemma NextQuotient(n: nat, d: nat)
    requires d > 0
    ensures (n + 1) / d == n / d + (if n % d == d - 1 then 1 else 0)
    ensures (n + 1) % d == if n % d == d - 1 then 0 else n % d + 1
  {
    var q, r := n / d, n % d;
    if r == d - 1 {
      MulStep(q, d);
      DivModUnique(n + 1, d, q + 1, 0);
    } else {
      DivModUnique(n + 1, d, q, r + 1);
    }
  }
}
