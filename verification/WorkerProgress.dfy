/** What a worker does with the tasks: one that runs alone comes to run the front task of its own
    queue, or of its neighbour's, and a stopped one exits. */
module WorkerProgress {
  import opened Bits
  import opened QueueProtocol
  import opened QueueInvariant
  import opened QueueTheorems
  import opened QueueCalls
  import opened ConcretePool
  import opened PoolTheorems
  import Abstract = ThreadPool

  function LoneSteps(i: nat, n: nat): seq<PoolAction> {
    seq(n, _ => Work(i, false))
  }

  /** Worker `i` takes `n` steps, and nobody else takes one. */
  function WorkAlone(p: Pool, i: nat, n: nat): (p': Pool)
    requires PoolShape(p) && i < Threads(p)
    ensures PoolShape(p') && Threads(p') == Threads(p)
  {
    ActAll(p, LoneSteps(i, n))
  }

  lemma WorkJoin(p: Pool, i: nat, a: nat, b: nat, c: nat)
    requires PoolShape(p) && i < Threads(p) && c == a + b
    ensures WorkAlone(WorkAlone(p, i, a), i, b) == WorkAlone(p, i, c)
  {
    ExecJoin(p, LoneSteps(i, a), LoneSteps(i, b));
    assert LoneSteps(i, a) + LoneSteps(i, b) == LoneSteps(i, c);
  }

  lemma WorkNone(p: Pool, i: nat)
    requires PoolShape(p) && i < Threads(p)
    ensures WorkAlone(p, i, 0) == p
  {
    assert LoneSteps(i, 0) == [];
  }

  lemma WorkOnce(p: Pool, i: nat)
    requires PoolShape(p) && i < Threads(p)
    ensures WorkAlone(p, i, 1) == DoWork(p, i, false)
  {
    assert LoneSteps(i, 1)[..0] == [];
    assert ActAll(p, LoneSteps(i, 1)) == Act(ActAll(p, []), Work(i, false));
  }

  // ---------------------------------------------------------------------
  // Inside a Pop
  // ---------------------------------------------------------------------

  /** Worker `i` has just called Pop on queue `j`. */
  ghost predicate AtPop(p: Pool, i: nat, j: nat, pc: WorkerPc) {
    && PoolShape(p) && i < Threads(p) && j < Threads(p) && p.pcs[i] == pc
    && ((pc == OwnPop && j == i) || (pc == DonorPop && j == Donor(p, i)))
    && Inv(p.queues[j]) && Worker(i) in p.queues[j].threads && p.queues[j].threads[Worker(i)] == PopStart
  }

  lemma StepInside(p: Pool, i: nat, j: nat, q: State<TaskId>)
    requires PoolShape(p) && i < Threads(p) && j < Threads(p) && Popping(p, i, j)
    requires Shape(q) && q.cap == p.cap && Worker(i) in q.threads && !q.threads[Worker(i)].PopReturn?
    ensures DoWork(WithQueue(p, j, q), i, false) == WithQueue(p, j, StepThread(q, Worker(i), false))
  {
    assert p.queues[j := q][j := StepThread(q, Worker(i), false)] == p.queues[j := StepThread(q, Worker(i), false)];
  }

  lemma {:induction false} StepsInside(p: Pool, i: nat, j: nat, q: State<TaskId>, n: nat)
    requires PoolShape(p) && i < Threads(p) && j < Threads(p) && Popping(p, i, j)
    requires Shape(q) && q.cap == p.cap && Worker(i) in q.threads
    requires StaysInside(q, Worker(i), n)
    ensures Solo(q, Worker(i), n).cap == q.cap
    ensures WorkAlone(WithQueue(p, j, q), i, n) == WithQueue(p, j, Solo(q, Worker(i), n))
    decreases n
  {
    var t := Worker(i);
    if n == 0 {
      WorkNone(WithQueue(p, j, q), i);
      assert Solo(q, t, 0) == q;
    } else {
      StepsInside(p, i, j, q, n - 1);
      LastStepInside(p, i, j, q, n);
    }
  }

  lemma LastStepInside(p: Pool, i: nat, j: nat, q: State<TaskId>, n: nat)
    requires PoolShape(p) && i < Threads(p) && j < Threads(p) && Popping(p, i, j) && n > 0
    requires Shape(q) && q.cap == p.cap && Worker(i) in q.threads
    requires var q1 := Solo(q, Worker(i), n - 1);
             && q1.cap == q.cap && !Returned(q1.threads[Worker(i)])
             && WorkAlone(WithQueue(p, j, q), i, n - 1) == WithQueue(p, j, q1)
    ensures Solo(q, Worker(i), n).cap == q.cap
    ensures WorkAlone(WithQueue(p, j, q), i, n) == WithQueue(p, j, Solo(q, Worker(i), n))
  {
    var q1, q2 := Solo(q, Worker(i), n - 1), Solo(q, Worker(i), n);
    SoloLast(q, Worker(i), n);
    StepsInsideOne(p, i, j, q1, q2);
    Chain(WithQueue(p, j, q), WithQueue(p, j, q1), i, n);
  }

  lemma SoloLast(q: State<TaskId>, t: Tid, n: nat)
    requires Shape(q) && t in q.threads && n > 0
    ensures Solo(q, t, n) == StepThread(Solo(q, t, n - 1), t, false)
  {
    SoloJoin(q, t, n - 1, 1);
    SoloOnce(Solo(q, t, n - 1), t);
  }

  lemma Chain(p: Pool, p': Pool, i: nat, n: nat)
    requires PoolShape(p) && i < Threads(p) && n > 0 && WorkAlone(p, i, n - 1) == p'
    ensures WorkAlone(p, i, n) == WorkAlone(p', i, 1)
  {
    WorkJoin(p, i, n - 1, 1, n);
  }

  lemma StepsInsideOne(p: Pool, i: nat, j: nat, q: State<TaskId>, q': State<TaskId>)
    requires PoolShape(p) && i < Threads(p) && j < Threads(p) && Popping(p, i, j)
    requires Shape(q) && q.cap == p.cap && Worker(i) in q.threads && !Returned(q.threads[Worker(i)])
    requires q' == StepThread(q, Worker(i), false)
    ensures WorkAlone(WithQueue(p, j, q), i, 1) == WithQueue(p, j, q')
  {
    StepInside(p, i, j, q);
    WorkOnce(WithQueue(p, j, q), i);
  }

  /** Thread `t` does not return in its next `n - 1` steps. */
  ghost predicate StaysInside(q: State<TaskId>, t: Tid, n: nat)
    requires Shape(q) && t in q.threads
  {
    n == 0 || (StaysInside(q, t, n - 1) && !Returned(Solo(q, t, n - 1).threads[t]))
  }

  lemma {:induction false} NotReturned(q: State<TaskId>, t: Tid, n: nat)
    requires Shape(q) && t in q.threads
    requires forall m | 0 <= m < n :: !Returned(Solo(q, t, m).threads[t])
    ensures StaysInside(q, t, n)
  {
    if n > 0 { NotReturned(q, t, n - 1); }
  }

  lemma SoloOnce(q: State<TaskId>, t: Tid)
    requires Shape(q) && t in q.threads
    ensures Solo(q, t, 1) == StepThread(q, t, false) && Solo(q, t, 1).cap == q.cap
  {
    assert Solo(q, t, 1) == Solo(StepThread(q, t, false), t, 0);
  }

  lemma PopAlone(p: Pool, i: nat, j: nat, pc: WorkerPc, n: nat)
    requires AtPop(p, i, j, pc) && n == if Ready(p.queues[j]) then 5 else 2
    ensures Solo(p.queues[j], Worker(i), n).cap == p.cap
    ensures WorkAlone(p, i, n) == WithQueue(p, j, Solo(p.queues[j], Worker(i), n))
  {
    WholePop(p.queues[j], Worker(i));
    NotReturned(p.queues[j], Worker(i), n);
    assert p.queues[j := p.queues[j]] == p.queues;
    StepsInside(p, i, j, p.queues[j], n);
  }

  /** With a published front task: six steps to run it. */
  lemma PopToTask(p: Pool, i: nat, j: nat, pc: WorkerPc)
    requires AtPop(p, i, j, pc) && Ready(p.queues[j])
    ensures WaitingIn(p.queues[j]) != []
    ensures WorkAlone(p, i, 6).pcs == p.pcs[i := Running(WaitingIn(p.queues[j])[0])]
    ensures WaitingIn(WorkAlone(p, i, 6).queues[j]) == WaitingIn(p.queues[j])[1..]
  {
    var q, t := p.queues[j], Worker(i);
    WholePop(q, t);
    PopAlone(p, i, j, pc, 5);
    var p5 := WorkAlone(p, i, 5);
    assert p5.queues[j] == Solo(q, t, 5);
    WorkOnce(p5, i);
    WorkJoin(p, i, 5, 1, 6);
  }

  /** Without one: two steps to a false return. */
  lemma PopToNothing(p: Pool, i: nat, j: nat, pc: WorkerPc)
    requires AtPop(p, i, j, pc) && !Ready(p.queues[j])
    ensures var q := p.queues[j];
            var q' := Goto(q, Worker(i), PopReturn(false, Blank, q.deq));
            && WorkAlone(p, i, 2) == WithQueue(p, j, q') && Inv(q')
  {
    var q, t := p.queues[j], Worker(i);
    WholePop(q, t);
    PopAlone(p, i, j, pc, 2);
    GotoInv(q, t, PopReturn(false, Blank, q.deq));
  }

  // ---------------------------------------------------------------------
  // From the check of `_running` on
  // ---------------------------------------------------------------------

  /** The number of the neighbour whose tasks worker `i` steals. */
  function Neighbour(p: Pool, i: nat): (j: nat)
    requires PoolShape(p)
    ensures j < Threads(p) && j == (i + 1) % Threads(p)
  {
    (i + 1) % Threads(p)
  }

  lemma StartOwn(p: Pool, i: nat)
    requires PoolInv(p) && i < Threads(p) && p.pcs[i] == Checking && p.running[i]
    ensures var p' := WorkAlone(p, i, 1);
            && AtPop(p', i, i, OwnPop) && p' == Moved(p, i, i, Goto(p.queues[i], Worker(i), PopStart), OwnPop)
  {
    WorkOnce(p, i);
    assert QueueOk(p, i) && WorkerOk(p, i, i);
    PopStarts(p.queues[i], i);
  }

  /** A failed Pop on the own queue leads to the neighbour's. */
  lemma StartDonor(p: Pool, i: nat)
    requires PoolInv(p) && i < Threads(p) && p.pcs[i] == Checking && p.running[i] && !Ready(p.queues[i])
    ensures var p' := WorkAlone(p, i, 4);
            var j := Neighbour(p, i);
            && AtPop(p', i, j, DonorPop) && p'.pcs == p.pcs[i := DonorPop]
            && Ready(p'.queues[j]) == Ready(p.queues[j]) && WaitingIn(p'.queues[j]) == WaitingIn(p.queues[j])
  {
    StartOwn(p, i);
    var p1 := WorkAlone(p, i, 1);
    PopToNothing(p1, i, i, OwnPop);
    WorkJoin(p, i, 1, 2, 3);
    var p3 := WorkAlone(p, i, 3);
    SameMove(p, i, p.queues[i].deq);
    FailedOwn(p, p3, i);
    WorkOnce(p3, i);
    WorkJoin(p, i, 3, 1, 4);
  }

  lemma SameMove(p: Pool, i: nat, next: nat)
    requires PoolShape(p) && i < Threads(p)
    ensures var q, failed := p.queues[i], PopReturn(false, Blank, next);
            var q0 := Goto(q, Worker(i), PopStart);
            && q0.threads[Worker(i) := failed] == q.threads[Worker(i) := failed]
            && WithQueue(Moved(p, i, i, q0, OwnPop), i, Goto(q0, Worker(i), failed))
               == Moved(p, i, i, Goto(q, Worker(i), failed), OwnPop)
  {
    var q, failed := p.queues[i], PopReturn(false, Blank, next);
    Overwrite(q.threads, Worker(i), PopStart, failed);
    assert p.queues[i := Goto(q, Worker(i), PopStart)][i := Goto(q, Worker(i), failed)]
        == p.queues[i := Goto(q, Worker(i), failed)];
  }

  lemma FailedOwn(p: Pool, p3: Pool, i: nat)
    requires PoolInv(p) && i < Threads(p) && p.pcs[i] == Checking && !Ready(p.queues[i])
    requires PoolShape(p3)
    requires var q := Goto(p.queues[i], Worker(i), PopReturn(false, Blank, p.queues[i].deq));
             p3 == Moved(p, i, i, q, OwnPop) && Inv(q)
    ensures var p' := DoWork(p3, i, false);
            var j := Neighbour(p, i);
            && AtPop(p', i, j, DonorPop) && p'.pcs == p.pcs[i := DonorPop]
            && Ready(p'.queues[j]) == Ready(p.queues[j]) && WaitingIn(p'.queues[j]) == WaitingIn(p.queues[j])
  {
    var j := Neighbour(p, i);
    assert QueueOk(p, j) && WorkerOk(p, i, j);
    assert Donor(p3, i) == j;
    PopStarts(p3.queues[j], i);
  }

  /** A worker at its check of `_running` that runs alone: stopped, it exits. Otherwise it comes in
      seven steps to run the front task of its own queue if that is published, in ten steps that of
      the queue of worker `i + 1` modulo the number of workers if that is, and else in seven steps
      to sleep, all whatever other threads have left unfinished. The other workers stay put. */
  lemma WorkerFinds(p: Pool, i: nat)
    requires PoolInv(p) && i < Threads(p) && p.pcs[i] == Checking
    ensures !p.running[i] ==> WorkAlone(p, i, 1).pcs == p.pcs[i := Exited]
    ensures p.running[i] && Ready(p.queues[i]) ==>
              var p' := WorkAlone(p, i, 7);
              && WaitingIn(p.queues[i]) != []
              && p'.pcs == p.pcs[i := Running(WaitingIn(p.queues[i])[0])]
              && WaitingIn(p'.queues[i]) == WaitingIn(p.queues[i])[1..]
    ensures p.running[i] && !Ready(p.queues[i]) && Ready(p.queues[(i + 1) % Threads(p)]) ==>
              var p', j := WorkAlone(p, i, 10), (i + 1) % Threads(p);
              && WaitingIn(p.queues[j]) != []
              && p'.pcs == p.pcs[i := Running(WaitingIn(p.queues[j])[0])]
              && WaitingIn(p'.queues[j]) == WaitingIn(p.queues[j])[1..]
    ensures p.running[i] && !Ready(p.queues[i]) && !Ready(p.queues[(i + 1) % Threads(p)]) ==>
              WorkAlone(p, i, 7).pcs == p.pcs[i := Sleeping]
  {
    WorkOnce(p, i);
    if p.running[i] {
      if Ready(p.queues[i]) {
        RunsOwn(p, i);
      } else {
        StartDonor(p, i);
        if Ready(p.queues[Neighbour(p, i)]) { RunsStolen(p, i); } else { DonorFails(p, i); }
      }
    }
  }

  lemma RunsOwn(p: Pool, i: nat)
    requires PoolInv(p) && i < Threads(p) && p.pcs[i] == Checking && p.running[i] && Ready(p.queues[i])
    ensures WaitingIn(p.queues[i]) != []
    ensures WorkAlone(p, i, 7).pcs == p.pcs[i := Running(WaitingIn(p.queues[i])[0])]
    ensures WaitingIn(WorkAlone(p, i, 7).queues[i]) == WaitingIn(p.queues[i])[1..]
  {
    StartOwn(p, i);
    PopToTask(WorkAlone(p, i, 1), i, i, OwnPop);
    WorkJoin(p, i, 1, 6, 7);
  }

  lemma RunsStolen(p: Pool, i: nat)
    requires PoolShape(p) && i < Threads(p) && Ready(p.queues[Neighbour(p, i)])
    requires var p4, j := WorkAlone(p, i, 4), Neighbour(p, i);
             && AtPop(p4, i, j, DonorPop) && p4.pcs == p.pcs[i := DonorPop]
             && Ready(p4.queues[j]) && WaitingIn(p4.queues[j]) == WaitingIn(p.queues[j])
    ensures var p', j := WorkAlone(p, i, 10), Neighbour(p, i);
            && WaitingIn(p.queues[j]) != []
            && p'.pcs == p.pcs[i := Running(WaitingIn(p.queues[j])[0])]
            && WaitingIn(p'.queues[j]) == WaitingIn(p.queues[j])[1..]
  {
    PopToTask(WorkAlone(p, i, 4), i, Neighbour(p, i), DonorPop);
    WorkJoin(p, i, 4, 6, 10);
  }

  lemma SleepsAfter(p: Pool, p': Pool, i: nat, j: nat)
    requires PoolShape(p) && PoolShape(p') && i < Threads(p) && j == Donor(p, i) && p.pcs[i] == DonorPop
    requires Threads(p') == Threads(p) && p'.pcs == p.pcs && Worker(i) in p'.queues[j].threads
    requires var pc := p'.queues[j].threads[Worker(i)]; pc.PopReturn? && !pc.ok
    ensures DoWork(p', i, false).pcs == p.pcs[i := Sleeping]
  {
  }

  lemma DonorFails(p: Pool, i: nat)
    requires PoolShape(p) && i < Threads(p)
    requires var p4 := WorkAlone(p, i, 4);
             && AtPop(p4, i, Neighbour(p, i), DonorPop) && p4.pcs == p.pcs[i := DonorPop]
             && !Ready(p4.queues[Neighbour(p, i)])
    ensures WorkAlone(p, i, 7).pcs == p.pcs[i := Sleeping]
  {
    var p4 := WorkAlone(p, i, 4);
    PopToNothing(p4, i, Neighbour(p, i), DonorPop);
    SleepsAfter(p4, WorkAlone(p4, i, 2), i, Neighbour(p, i));
    WorkOnce(WorkAlone(p4, i, 2), i);
    WorkJoin(p4, i, 2, 1, 3);
    WorkJoin(p, i, 4, 3, 7);
  }

  /** The same from every state of every pool whose capacity is a good one; and a task that is run
      is done after one more step, and the worker back at its check. */
  lemma {:induction false} WorkersWork(threads: nat, capacity: nat, acts: seq<PoolAction>, i: nat)
    requires i < threads && GoodCapacity(capacity)
    ensures PowerOfTwoFor(capacity) > 0
    ensures var p := Run(threads, capacity, acts);
            var own, next := p.queues[i], p.queues[(i + 1) % threads];
            && (p.pcs[i] == Checking && p.running[i] && Ready(own) ==>
                  WaitingIn(own) != [] && WorkAlone(p, i, 7).pcs[i] == Running(WaitingIn(own)[0]))
            && (p.pcs[i] == Checking && p.running[i] && !Ready(own) && Ready(next) ==>
                  WaitingIn(next) != [] && WorkAlone(p, i, 10).pcs[i] == Running(WaitingIn(next)[0]))
            && (p.pcs[i] == Checking && p.running[i] && !Ready(own) && !Ready(next) ==>
                  WorkAlone(p, i, 7).pcs[i] == Sleeping && WorkAlone(p, i, 8).pcs[i] == Checking)
            && (p.pcs[i] == Checking && !p.running[i] ==> WorkAlone(p, i, 1).pcs[i] == Exited)
            && (p.pcs[i].Running? ==>
                  var p' := WorkAlone(p, i, 1);
                  p'.pcs[i] == Checking && p'.finished == p.finished + [Abstract.Finished(p.pcs[i].task, i)])
  {
    var bs := ReachedInv(threads, capacity, acts);
    var p := Run(threads, capacity, acts);
    if p.pcs[i] == Checking { WorkerFinds(p, i); }
    WakesUp(p, i);
    FinishesTask(p, i);
  }

  lemma WakesUp(p: Pool, i: nat)
    requires PoolShape(p) && i < Threads(p)
    ensures WorkAlone(p, i, 7).pcs[i] == Sleeping ==> WorkAlone(p, i, 8).pcs[i] == Checking
  {
    WorkOnce(WorkAlone(p, i, 7), i);
    WorkJoin(p, i, 7, 1, 8);
  }

  lemma FinishesTask(p: Pool, i: nat)
    requires PoolShape(p) && i < Threads(p)
    ensures p.pcs[i].Running? ==>
              var p' := WorkAlone(p, i, 1);
              p'.pcs[i] == Checking && p'.finished == p.finished + [Abstract.Finished(p.pcs[i].task, i)]
  {
    WorkOnce(p, i);
  }

  // ---------------------------------------------------------------------
  // Stopping
  // ---------------------------------------------------------------------

  /** A worker's flag is set until its Stop, and a worker leaves its loop only after that. */
  lemma {:induction false} RunningUntilStopped(threads: nat, cap: nat, acts: seq<PoolAction>, i: nat)
    requires i < threads && cap > 0
    ensures var p := ActAll(NewPool(threads, cap), acts);
            && (p.running[i] <==> Stop(i) !in acts)
            && (p.pcs[i] == Exited ==> Stop(i) in acts)
  {
    if acts != [] {
      var front, a := acts[..|acts| - 1], acts[|acts| - 1];
      RunningUntilStopped(threads, cap, front, i);
      OneMoreAction(front, a, acts, i);
      RunningStep(ActAll(NewPool(threads, cap), front), a, i);
    }
  }

  lemma OneMoreAction(front: seq<PoolAction>, a: PoolAction, acts: seq<PoolAction>, i: nat)
    requires acts != [] && front == acts[..|acts| - 1] && a == acts[|acts| - 1]
    ensures Stop(i) in acts <==> Stop(i) in front || a == Stop(i)
  {
    assert acts == front + [a];
  }

  lemma RunningStep(p: Pool, a: PoolAction, i: nat)
    requires PoolShape(p) && i < Threads(p)
    ensures Act(p, a).running == if a.Stop? && a.i < Threads(p) then p.running[a.i := false] else p.running
    ensures Act(p, a).pcs[i] == Exited ==> p.pcs[i] == Exited || !p.running[i]
  {
  }

  // ---------------------------------------------------------------------
  // Submitting
  // ---------------------------------------------------------------------

  lemma {:induction false} PushAlong(p: Pool, task: TaskId, n: nat)
    requires PoolShape(p) && task < |p.chosen| && Submitter(task) in p.queues[p.chosen[task]].threads
    ensures var j := p.chosen[task];
            var q := Solo(p.queues[j], Submitter(task), n);
            q.cap == p.cap && ActAll(p, Steps(task, n)) == WithQueue(p, j, q)
    decreases n
  {
    var j, t := p.chosen[task], Submitter(task);
    if n == 0 {
      assert p.queues[j := p.queues[j]] == p.queues;
    } else {
      PushAlong(p, task, n - 1);
      SoloJoin(p.queues[j], t, n - 1, 1);
      assert Steps(task, n)[..n - 1] == Steps(task, n - 1);
      PushAlongOne(p, task, Solo(p.queues[j], t, n - 1));
    }
  }

  lemma PushAlongOne(p: Pool, task: TaskId, q: State<TaskId>)
    requires PoolShape(p) && task < |p.chosen| && Shape(q) && q.cap == p.cap && Submitter(task) in q.threads
    ensures var j := p.chosen[task];
            && Solo(q, Submitter(task), 1) == StepThread(q, Submitter(task), false)
            && Act(WithQueue(p, j, q), Submit(task, false)) == WithQueue(p, j, StepThread(q, Submitter(task), false))
  {
    var j, q' := p.chosen[task], StepThread(q, Submitter(task), false);
    assert Solo(q, Submitter(task), 1) == Solo(q', Submitter(task), 0);
    assert p.queues[j := q][j := q'] == p.queues[j := q'];
  }

  /** `Submit` with nobody interfering: the next worker in turn gets the task at the end of its queue
      if the slot there has been released, and the call returns true; otherwise it returns false. */
  lemma LoneSubmit(p: Pool)
    requires PoolInv(p)
    ensures var task, j := |p.chosen|, p.next % Threads(p);
            var p2, p5 := ActAll(p, [Select] + Steps(task, 2)), ActAll(p, [Select] + Steps(task, 5));
            && p2.chosen == p5.chosen == p.chosen + [j] && p5.next == (p.next + 1) % WORD
            && (HasRoom(p.queues[j]) ==>
                  SubmitReturned(p5, task, true) && WaitingIn(p5.queues[j]) == WaitingIn(p.queues[j]) + [task])
            && (!HasRoom(p.queues[j]) ==>
                  SubmitReturned(p2, task, false) && WaitingIn(p2.queues[j]) == WaitingIn(p.queues[j]))
  {
    SubmittingSteps(p, 2);
    SubmittingSteps(p, 5);
    LonePushResult(p, p.next % Threads(p));
  }

  /** The pool in the middle of that call. */
  function Submitting(p: Pool, j: nat, n: nat): (p': Pool)
    requires PoolShape(p) && j < Threads(p)
    requires Solo(Started(p, j), Submitter(|p.chosen|), n).cap == p.cap
    ensures PoolShape(p') && Threads(p') == Threads(p) && p'.chosen == p.chosen + [j]
  {
    WithQueue(SelectOn(p, j), j, Solo(Started(p, j), Submitter(|p.chosen|), n))
  }

  lemma SubmittingSteps(p: Pool, n: nat)
    requires PoolInv(p)
    ensures var task, j := |p.chosen|, p.next % Threads(p);
            && Solo(Started(p, j), Submitter(task), n).cap == p.cap
            && ActAll(p, [Select] + Steps(task, n)) == Submitting(p, j, n)
            && Submitting(p, j, n).next == (p.next + 1) % WORD
  {
    var j := p.next % Threads(p);
    SelectFirst(p, |p.chosen|, n);
    SelectStarts(p, j);
    PushAlong(SelectOn(p, j), |p.chosen|, n);
  }

  lemma LonePushResult(p: Pool, j: nat)
    requires PoolInv(p) && j < Threads(p)
    requires forall n | n == 2 || n == 5 :: Solo(Started(p, j), Submitter(|p.chosen|), n).cap == p.cap
    ensures HasRoom(p.queues[j]) ==>
              && SubmitReturned(Submitting(p, j, 5), |p.chosen|, true)
              && WaitingIn(Submitting(p, j, 5).queues[j]) == WaitingIn(p.queues[j]) + [|p.chosen|]
    ensures !HasRoom(p.queues[j]) ==>
              && SubmitReturned(Submitting(p, j, 2), |p.chosen|, false)
              && WaitingIn(Submitting(p, j, 2).queues[j]) == WaitingIn(p.queues[j])
  {
    var task: TaskId := |p.chosen|;
    SelectStarts(p, j);
    LonePushOnQueue(p.queues[j], task);
    if HasRoom(p.queues[j]) {
      ReturnedFrom(p, j, Solo(Started(p, j), Submitter(task), 5), true);
    } else {
      ReturnedFrom(p, j, Solo(Started(p, j), Submitter(task), 2), false);
    }
  }

  lemma ReturnedFrom(p: Pool, j: nat, q: State<TaskId>, ok: bool)
    requires PoolShape(p) && j < Threads(p) && Shape(q) && q.cap == p.cap
    requires var t := Submitter(|p.chosen|); t in q.threads && q.threads[t].PushReturn? && q.threads[t].ok == ok
    ensures var p' := WithQueue(SelectOn(p, j), j, q); SubmitReturned(p', |p.chosen|, ok) && p'.queues[j] == q
  {
  }

  lemma LonePushOnQueue(q: State<TaskId>, task: TaskId)
    requires Inv(q) && Submitter(task) !in q.threads && Inv(Goto(q, Submitter(task), PushStart(task)))
    ensures var t := Submitter(task);
            var q0 := Goto(q, t, PushStart(task));
            var q2, q5 := Solo(q0, t, 2), Solo(q0, t, 5);
            && (HasRoom(q) ==>
                  q5.threads[t] == PushReturn(true, task, q.enq) && WaitingIn(q5) == WaitingIn(q) + [task])
            && (!HasRoom(q) ==> q2.threads[t] == PushReturn(false, task, q.enq) && WaitingIn(q2) == WaitingIn(q))
  {
    var t := Submitter(task);
    var q0 := Goto(q, t, PushStart(task));
    SameRoom(q, t, PushStart(task));
    WholePush(q0, t, task);
    if HasRoom(q) {
      WaitingGrows(q0, t, task, Solo(q0, t, 5));
    } else {
      SameRoom(q0, t, PushReturn(false, task, q.enq));
    }
  }

  lemma SameRoom(q: State<TaskId>, t: Tid, pc: Pc<TaskId>)
    requires Shape(q)
    ensures HasRoom(Goto(q, t, pc)) == HasRoom(q) && WaitingIn(Goto(q, t, pc)) == WaitingIn(q)
  {
  }

  lemma WaitingGrows(q: State<TaskId>, t: Tid, task: TaskId, q': State<TaskId>)
    requires Inv(q) && PutBack(q, t, task, q')
    ensures WaitingIn(q') == WaitingIn(q) + [task]
  {
    assert q.deq <= q.enq == |q.log|;
  }

  lemma SelectFirst(p: Pool, task: TaskId, n: nat)
    requires PoolShape(p)
    ensures ActAll(p, [Select] + Steps(task, n)) == ActAll(DoSelect(p), Steps(task, n))
  {
    ExecJoin(p, [Select], Steps(task, n));
    var first: seq<PoolAction> := [Select];
    assert first[..0] == [];
    assert ActAll(p, first) == Act(ActAll(p, []), Select);
  }

  /** In every run: the worker in turn is the one whose number is that of the call, modulo the
      number of workers. */
  lemma {:induction false} SubmitDecides(threads: nat, capacity: nat, acts: seq<PoolAction>)
    requires threads > 0 && GoodCapacity(capacity)
    ensures PowerOfTwoFor(capacity) > 0
    ensures var p := Run(threads, capacity, acts);
            var task := |p.chosen|;
            task < WORD ==>
              var j := task % threads;
              var p2, p5 := ActAll(p, [Select] + Steps(task, 2)), ActAll(p, [Select] + Steps(task, 5));
              if HasRoom(p.queues[j]) then
                SubmitReturned(p5, task, true) && WaitingIn(p5.queues[j]) == WaitingIn(p.queues[j]) + [task]
              else SubmitReturned(p2, task, false) && WaitingIn(p2.queues[j]) == WaitingIn(p.queues[j])
  {
    var bs := ReachedInv(threads, capacity, acts);
    ExecRoundRobin(PoolFor(threads, capacity), acts);
    LoneSubmit(Run(threads, capacity, acts));
  }
}
