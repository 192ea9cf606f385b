/** The event loop of `MayhemServer`, its workers and the kernel's descriptor table as one state
    machine: who owns which open connection. */
module Mayhem {
  const MAX_FD: nat := 1024
  const MAX_EVENTS: nat := 64

  /** Accepted connections are numbered; descriptors are reused, numbers are not. */
  type Conn = nat

  /** An entry of `_handles`: null, or the builder made for a connection. */
  datatype Handle = Null | Builder(conn: Conn)

  datatype Event = Listening | Ready(fd: nat, readable: bool)

  /** Where `_Serve` is; `events` are the events of the batch still to be handled. */
  datatype LoopPc =
    | Checking                                              // while (_isRunning)
    | Waiting                                               // epoll::Wait
    | Picking(events: seq<Event>)                           // the loop over the batch
    | Accepting(events: seq<Event>)                         // AcceptSocket
    | Admitting(fd: nat, conn: Conn, events: seq<Event>)    // the MAX_FD test and _MonitorFd
    | Dropping(fd: nat, conn: Conn, events: seq<Event>)     // CloseSocket of a new connection
    | Storing(fd: nat, conn: Conn, events: seq<Event>)      // _handles[fd] = ..
    | Parsing(fd: nat, events: seq<Event>)                  // the assertion and handle->Parse
    | Unmonitoring(fd: nat, events: seq<Event>)
    | Submitting(fd: nat, events: seq<Event>)
    | Refusing(fd: nat, events: seq<Event>)                 // CloseSocket(fd)
    | Resetting(fd: nat, events: seq<Event>)                // _handles[fd].reset()
    | Closing                                               // _CloseSocket, _CloseEpoll
    | Ended
    | Aborted                                               // a failed assertion or a bad index

  /** A submitted task: handling the request, then the two `Close` calls of
      `DestroyHttpContext` on the one stream, each with its kernel call and its `_fd = 0`. */
  datatype Phase = Queued | Handling | Closing(second: bool) | Clearing(second: bool) | Finished

  datatype Task = Task(conn: Conn, phase: Phase)

  /** A call of `close`: the connection meant, and the one the descriptor stood for. */
  datatype Hit = Missed | Hit(conn: Conn)
  datatype Close = Close(meant: Conn, hit: Hit)

  /** The kernel's table of open descriptors. History: `fds[c]` is the descriptor `accept` gave
      to `c`, and every call of `close`. */
  datatype Table = Table(open: map<nat, Conn>, fds: seq<nat>, closes: seq<Close>)

  datatype ParseResult = Complete | More | Failed | Throws

  /** `streams[c]` is `_fd` in the `SocketStream` of connection `c`; `tasks` only grows, so it is
      also the history of submissions; `monitored` is epoll's list. History that no step reads:
      `results[c]` is what `Parse` last returned for connection `c`, and `answers[c]` is what
      `Submit` returned for it. */
  datatype State = State(
    isRunning: bool,
    pc: LoopPc,
    handles: seq<Handle>,
    streams: map<Conn, nat>,
    tasks: seq<Task>,
    table: Table,
    monitored: set<nat>,
    results: map<Conn, ParseResult>,
    answers: map<Conn, bool>)

  datatype Action =
    | Stop
    | Proceed
    | Wait(events: seq<Event>)
    | WaitFails
    | Accept(fd: nat)
    | AcceptNone
    | Monitor(ok: bool)
    | Parse(r: ParseResult)
    | Submit(ok: bool)
    | Work(task: nat)

  function Init(): State {
    State(true, Checking, seq(MAX_FD, _ => Null), map[], [], Table(map[], [], []), {}, map[], map[])
  }

  // ---------------------------------------------------------------------
  // The kernel
  // ---------------------------------------------------------------------

  function TableAccept(t: Table, fd: nat): Table {
    t.(open := t.open[fd := |t.fds|], fds := t.fds + [fd])
  }

  function TableClose(t: Table, fd: nat, meant: Conn): Table {
    t.(open := t.open - {fd},
       closes := t.closes + [Close(meant, if fd in t.open then Hit(t.open[fd]) else Missed)])
  }

  /** Closing a descriptor also ends its monitoring. */
  function KernelClose(s: State, fd: nat, meant: Conn): State {
    s.(table := TableClose(s.table, fd, meant), monitored := s.monitored - {fd})
  }

  /** A batch of events: at most 64, one for a descriptor, and only for monitored ones. */
  ghost predicate Batch(s: State, events: seq<Event>) {
    |events| <= MAX_EVENTS && Watched(s, events)
  }

  ghost predicate Watched(s: State, events: seq<Event>) {
    && (forall i | 0 <= i < |events| && events[i].Ready? :: events[i].fd in s.monitored)
    && (forall i, j | 0 <= i < j < |events| && events[i].Ready? && events[j].Ready? :: events[i].fd != events[j].fd)
  }

  // ---------------------------------------------------------------------
  // The loop
  // ---------------------------------------------------------------------

  function DoPick(s: State, events: seq<Event>): State {
    if events == [] then s.(pc := Checking)
    else
      match events[0]
      case Listening => s.(pc := Accepting(events[1..]))
      case Ready(fd, readable) => s.(pc := if readable then Parsing(fd, events[1..]) else Picking(events[1..]))
  }

  function DoAccept(s: State, fd: nat, events: seq<Event>): State {
    s.(pc := Admitting(fd, |s.table.fds|, events), table := TableAccept(s.table, fd))
  }

  function DoMonitor(s: State, fd: nat, conn: Conn, events: seq<Event>, ok: bool): State {
    if fd >= MAX_FD || !ok then s.(pc := Dropping(fd, conn, events))
    else s.(pc := Storing(fd, conn, events), monitored := s.monitored + {fd})
  }

  /** After the failed `_MonitorFd` the source goes on to store a handle. */
  function DoDrop(s: State, fd: nat, conn: Conn, events: seq<Event>): State {
    KernelClose(s, fd, conn).(pc := if fd >= MAX_FD then Picking(events) else Storing(fd, conn, events))
  }

  function DoStore(s: State, fd: nat, conn: Conn, events: seq<Event>): State {
    if fd >= |s.handles| then s.(pc := Aborted)
    else s.(pc := Accepting(events), handles := s.handles[fd := Builder(conn)], streams := s.streams[conn := fd])
  }

  function DoParse(s: State, fd: nat, events: seq<Event>, r: ParseResult): State {
    if fd >= |s.handles| || s.handles[fd] == Null then s.(pc := Aborted)
    else
      s.(pc := match r
               case Complete => Unmonitoring(fd, events)
               case More => Picking(events)
               case Failed => Refusing(fd, events)
               case Throws => Ended)
  }

  function DoSubmit(s: State, fd: nat, events: seq<Event>, ok: bool): State {
    if fd >= |s.handles| || s.handles[fd] == Null then s.(pc := Aborted)
    else if !ok then s.(pc := Refusing(fd, events))
    else s.(pc := Picking(events), tasks := s.tasks + [Task(s.handles[fd].conn, Queued)])
  }

  /** The loop's own steps, where the environment has no say. */
  function DoProceed(s: State): State {
    match s.pc
    case Checking => s.(pc := if s.isRunning then Waiting else LoopPc.Closing)
    case Picking(events) => DoPick(s, events)
    case Dropping(fd, conn, events) => DoDrop(s, fd, conn, events)
    case Storing(fd, conn, events) => DoStore(s, fd, conn, events)
    case Unmonitoring(fd, events) => s.(pc := Submitting(fd, events), monitored := s.monitored - {fd})
    case Refusing(fd, events) =>
      if fd >= |s.handles| || s.handles[fd] == Null then s.(pc := Aborted)
      else KernelClose(s, fd, s.handles[fd].conn).(pc := Resetting(fd, events))
    case Resetting(fd, events) =>
      if fd >= |s.handles| then s.(pc := Aborted)
      else s.(pc := Picking(events), handles := s.handles[fd := Null])
    case Closing => s.(pc := Ended, monitored := {})
    case _ => s
  }

  // ---------------------------------------------------------------------
  // The workers
  // ---------------------------------------------------------------------

  function StreamFd(s: State, c: Conn): nat {
    if c in s.streams then s.streams[c] else 0
  }

  function AfterClose(second: bool): Phase {
    if second then Finished else Phase.Closing(true)
  }

  function SetPhase(s: State, i: nat, p: Phase): State
    requires i < |s.tasks|
  {
    s.(tasks := s.tasks[i := s.tasks[i].(phase := p)])
  }

  /** `SocketStream::Close`, up to the kernel call and after it. */
  function DoWork(s: State, i: nat): State
    requires i < |s.tasks|
  {
    var c := s.tasks[i].conn;
    match s.tasks[i].phase
    case Queued => SetPhase(s, i, Handling)
    case Handling => SetPhase(s, i, Phase.Closing(false))
    case Closing(second) =>
      if StreamFd(s, c) > 0 then SetPhase(KernelClose(s, StreamFd(s, c), c), i, Clearing(second))
      else SetPhase(s, i, AfterClose(second))
    case Clearing(second) => SetPhase(s.(streams := s.streams[c := 0]), i, AfterClose(second))
    case Finished => s
  }

  /** What the environment answers, for the connection the descriptor stands for. */
  function NoteResult(s: State, fd: nat, r: ParseResult): State {
    if fd in s.table.open then s.(results := s.results[s.table.open[fd] := r]) else s
  }

  function NoteAnswer(s: State, fd: nat, ok: bool): State {
    if fd in s.table.open then s.(answers := s.answers[s.table.open[fd] := ok]) else s
  }

  /** An action that is not possible leaves the state alone. */
  ghost function Apply(s: State, a: Action): State {
    match a
    case Stop => s.(isRunning := false)
    case Proceed => DoProceed(s)
    case Wait(events) => if s.pc.Waiting? && Batch(s, events) then s.(pc := Picking(events)) else s
    case WaitFails => if s.pc.Waiting? then s.(pc := Picking([]), isRunning := false) else s
    case Accept(fd) =>
      if s.pc.Accepting? && 0 < fd && fd !in s.table.open then DoAccept(s, fd, s.pc.events) else s
    case AcceptNone => if s.pc.Accepting? then s.(pc := Picking(s.pc.events)) else s
    case Monitor(ok) => if s.pc.Admitting? then DoMonitor(s, s.pc.fd, s.pc.conn, s.pc.events, ok) else s
    case Parse(r) => if s.pc.Parsing? then DoParse(NoteResult(s, s.pc.fd, r), s.pc.fd, s.pc.events, r) else s
    case Submit(ok) => if s.pc.Submitting? then DoSubmit(NoteAnswer(s, s.pc.fd, ok), s.pc.fd, s.pc.events, ok) else s
    case Work(i) => if i < |s.tasks| then DoWork(s, i) else s
  }

  ghost function Exec(s: State, acts: seq<Action>): State {
    if acts == [] then s else Apply(Exec(s, acts[..|acts| - 1]), acts[|acts| - 1])
  }

  // ---------------------------------------------------------------------
  // The invariant
  // ---------------------------------------------------------------------

  /** Connection `c` is still open, under the descriptor it was given. */
  predicate IsOpen(t: Table, c: Conn) {
    c < |t.fds| && t.fds[c] in t.open && t.open[t.fds[c]] == c
  }

  ghost predicate WasClosed(t: Table, c: Conn) {
    exists k :: 0 <= k < |t.closes| && t.closes[k].meant == c
  }

  /** Each open descriptor stands for the connection it was given to. */
  ghost predicate OpenOk(t: Table) {
    forall fd | fd in t.open :: 0 < fd && t.open[fd] < |t.fds| && t.fds[t.open[fd]] == fd
  }

  /** Every close hits the connection it is meant for, and no connection is closed twice. */
  ghost predicate ClosesOk(t: Table) {
    && (forall k | 0 <= k < |t.closes| ::
          t.closes[k].hit == Hit(t.closes[k].meant) && t.closes[k].meant < |t.fds| && !IsOpen(t, t.closes[k].meant))
    && (forall j, k | 0 <= j < k < |t.closes| :: t.closes[j].meant != t.closes[k].meant)
  }

  ghost predicate ClosedOk(t: Table) {
    forall c | 0 <= c < |t.fds| :: IsOpen(t, c) || WasClosed(t, c)
  }

  ghost predicate TableOk(t: Table) {
    OpenOk(t) && ClosesOk(t) && ClosedOk(t)
  }

  /** The task has still to close its connection. */
  predicate Active(p: Phase) {
    p == Queued || p == Handling || p == Phase.Closing(false)
  }

  ghost predicate HasTask(tasks: seq<Task>, c: Conn) {
    exists i :: 0 <= i < |tasks| && tasks[i].conn == c && Active(tasks[i].phase)
  }

  /** Connection `c` has never been in a task. */
  ghost predicate Untasked(tasks: seq<Task>, c: Conn) {
    forall i | 0 <= i < |tasks| :: tasks[i].conn != c
  }

  /** The descriptor the loop is dealing with outside of epoll's list. */
  predicate InHand(s: State, fd: nat) {
    match s.pc
    case Admitting(f, _, _) => f == fd
    case Dropping(f, _, _) => f == fd
    case Submitting(f, _) => f == fd
    case Refusing(f, _) => f == fd && fd !in s.monitored
    case _ => false
  }

  /** The handle and the stream of descriptor `fd` are those of connection `c`. */
  predicate Handled(s: State, fd: nat, c: Conn) {
    fd < |s.handles| && s.handles[fd] == Builder(c) && StreamFd(s, c) == fd
  }

  predicate MonitoredOk(s: State, fd: nat) {
    && 0 < fd < MAX_FD && fd in s.table.open
    && (Handled(s, fd, s.table.open[fd]) || (s.pc.Storing? && s.pc.fd == fd))
  }

  ghost predicate MonitorOk(s: State) {
    forall fd | fd in s.monitored :: MonitoredOk(s, fd)
  }

  /** An active task's connection is open, and the loop has let go of it. */
  predicate TaskOk(s: State, t: Task) {
    && t.conn < |s.table.fds|
    && (Active(t.phase) <==> IsOpen(s.table, t.conn))
    && (Active(t.phase) ==>
          var fd := s.table.fds[t.conn]; fd !in s.monitored && !InHand(s, fd) && StreamFd(s, t.conn) == fd)
    && (t.phase == Phase.Closing(true) || t.phase == Finished ==> StreamFd(s, t.conn) == 0)
    && t.phase != Clearing(true)
  }

  ghost predicate TasksOk(s: State) {
    && (forall i | 0 <= i < |s.tasks| :: TaskOk(s, s.tasks[i]))
    && (forall i, j | 0 <= i < j < |s.tasks| :: s.tasks[i].conn != s.tasks[j].conn)
  }

  /** The rest of the batch, while the loop deals with `fd`. */
  ghost predicate Rest(s: State, events: seq<Event>, fd: nat) {
    Watched(s, events) && forall i | 0 <= i < |events| && events[i].Ready? :: events[i].fd != fd
  }

  /** A connection that has just been accepted. */
  ghost predicate Fresh(s: State, fd: nat, c: Conn) {
    IsOpen(s.table, c) && s.table.fds[c] == fd && fd !in s.monitored && Untasked(s.tasks, c)
  }

  /** A connection whose handle is in place and that no task has seen. */
  ghost predicate Settled(s: State, fd: nat) {
    fd in s.table.open && Handled(s, fd, s.table.open[fd]) && Untasked(s.tasks, s.table.open[fd])
  }

  ghost predicate PcOk(s: State) {
    match s.pc
    case Picking(es) => Watched(s, es)
    case Accepting(es) => Watched(s, es)
    case Admitting(fd, c, es) => Rest(s, es, fd) && Fresh(s, fd, c)
    case Dropping(fd, c, es) => Rest(s, es, fd) && Fresh(s, fd, c)
    case Storing(fd, c, es) =>
      && Rest(s, es, fd) && 0 < fd < MAX_FD && c < |s.table.fds| && s.table.fds[c] == fd && Untasked(s.tasks, c)
      && (if IsOpen(s.table, c) then fd in s.monitored else fd !in s.table.open)
    case Parsing(fd, es) => Rest(s, es, fd) && fd in s.monitored
    case Unmonitoring(fd, es) => Rest(s, es, fd) && fd in s.monitored
    case Submitting(fd, es) => Rest(s, es, fd) && Settled(s, fd) && fd !in s.monitored
    case Refusing(fd, es) => Rest(s, es, fd) && Settled(s, fd)
    case Resetting(fd, es) => Rest(s, es, fd) && fd < MAX_FD && fd !in s.monitored
    case Aborted => false
    case _ => true
  }

  /** The owners of an open descriptor. */
  ghost predicate Owned(s: State, fd: nat)
    requires fd in s.table.open
  {
    fd in s.monitored || InHand(s, fd) || HasTask(s.tasks, s.table.open[fd])
  }

  ghost predicate OwnersOk(s: State) {
    s.pc != Ended ==> forall fd | fd in s.table.open :: Owned(s, fd)
  }

  ghost predicate Inv(s: State) {
    |s.handles| == MAX_FD && TableOk(s.table) && MonitorOk(s) && TasksOk(s) && PcOk(s) && OwnersOk(s)
  }

  lemma InitInv()
    ensures Inv(Init())
  {
  }

  // ---------------------------------------------------------------------
  // Every step keeps the invariant
  // ---------------------------------------------------------------------

  lemma TableAcceptOk(t: Table, fd: nat)
    requires TableOk(t) && 0 < fd && fd !in t.open
    ensures TableOk(TableAccept(t, fd))
    ensures forall c | 0 <= c < |t.fds| :: IsOpen(TableAccept(t, fd), c) <==> IsOpen(t, c)
    ensures IsOpen(TableAccept(t, fd), |t.fds|)
  {
    var t' := TableAccept(t, fd);
    forall c | 0 <= c < |t'.fds| ensures IsOpen(t', c) || WasClosed(t', c) {
      if c < |t.fds| && WasClosed(t, c) {
        var k :| 0 <= k < |t.closes| && t.closes[k].meant == c;
        assert t'.closes[k].meant == c;
      }
    }
  }

  lemma TableCloseOk(t: Table, fd: nat, c: Conn)
    requires TableOk(t) && fd in t.open && t.open[fd] == c
    ensures TableOk(TableClose(t, fd, c))
    ensures forall d | 0 <= d < |t.fds| :: IsOpen(TableClose(t, fd, c), d) <==> IsOpen(t, d) && d != c
  {
    var t' := TableClose(t, fd, c);
    forall d | 0 <= d < |t'.fds| ensures IsOpen(t', d) || WasClosed(t', d) {
      if WasClosed(t, d) {
        var k :| 0 <= k < |t.closes| && t.closes[k].meant == d;
        assert t'.closes[k].meant == d;
      } else if d == c {
        assert t'.closes[|t.closes|].meant == c;
      }
    }
  }

  lemma OpenIsOpen(t: Table, fd: nat)
    requires OpenOk(t) && fd in t.open
    ensures IsOpen(t, t.open[fd])
  {
  }

  /** Owners when the table and the tasks stay as they are. */
  lemma OwnersFrame(s: State, s': State)
    requires OwnersOk(s) && s.pc != Ended && s'.table == s.table && s'.tasks == s.tasks
    requires forall fd | fd in s.table.open && (fd in s.monitored || InHand(s, fd)) ::
               fd in s'.monitored || InHand(s', fd)
    ensures OwnersOk(s')
  {
    forall fd | fd in s'.table.open ensures Owned(s', fd) {
      assert Owned(s, fd);
    }
  }

  /** The next event of the batch is for no other event's descriptor. */
  lemma WatchedTail(s: State, es: seq<Event>)
    requires es != [] && Watched(s, es)
    ensures Watched(s, es[1..])
    ensures es[0].Ready? ==> es[0].fd in s.monitored && Rest(s, es[1..], es[0].fd)
  {
  }

  /** A step in which only the place in the loop changes, between places without a descriptor
      in hand. */
  lemma MoveInv(s: State, pc: LoopPc)
    requires Inv(s) && s.pc != Ended && !s.pc.Storing? && PcOk(s.(pc := pc))
    requires forall fd | fd in s.table.open :: InHand(s.(pc := pc), fd) <==> InHand(s, fd)
    ensures Inv(s.(pc := pc))
  {
    OwnersFrame(s, s.(pc := pc));
  }

  lemma PickInv(s: State)
    requires Inv(s) && s.pc.Picking?
    ensures Inv(DoPick(s, s.pc.events))
  {
    var es := s.pc.events;
    if es != [] {
      WatchedTail(s, es);
      assert es[0].Ready? ==> Watched(s, es[1..]);
    }
    MoveInv(s, DoPick(s, es).pc);
  }

  lemma AcceptInv(s: State, fd: nat)
    requires Inv(s) && s.pc.Accepting? && 0 < fd && fd !in s.table.open
    ensures Inv(DoAccept(s, fd, s.pc.events))
  {
    TableAcceptOk(s.table, fd);
  }

  lemma MonitorInv(s: State, ok: bool)
    requires Inv(s) && s.pc.Admitting?
    ensures Inv(DoMonitor(s, s.pc.fd, s.pc.conn, s.pc.events, ok))
  {
    if s.pc.fd >= MAX_FD || !ok {
      MoveInv(s, Dropping(s.pc.fd, s.pc.conn, s.pc.events));
    } else {
      MonitoredInv(s);
    }
  }

  /** The connection in hand has been added to epoll's list. */
  function Monitored(s: State): State
    requires s.pc.Admitting?
  {
    s.(pc := Storing(s.pc.fd, s.pc.conn, s.pc.events), monitored := s.monitored + {s.pc.fd})
  }

  lemma MonitoredTasks(s: State)
    requires Inv(s) && s.pc.Admitting?
    ensures TasksOk(Monitored(s))
  {
    forall i | 0 <= i < |s.tasks| ensures TaskOk(Monitored(s), s.tasks[i]) {
      assert TaskOk(s, s.tasks[i]);
    }
  }

  lemma MonitoredInv(s: State)
    requires Inv(s) && s.pc.Admitting? && s.pc.fd < MAX_FD
    ensures Inv(Monitored(s))
  {
    MonitoredTasks(s);
    forall fd | fd in s.monitored ensures MonitoredOk(Monitored(s), fd) {
      assert MonitoredOk(s, fd);
    }
    OwnersFrame(s, Monitored(s));
  }

  lemma StoreInv(s: State)
    requires Inv(s) && s.pc.Storing?
    ensures Inv(DoStore(s, s.pc.fd, s.pc.conn, s.pc.events))
  {
    OwnersFrame(s, DoStore(s, s.pc.fd, s.pc.conn, s.pc.events));
  }

  lemma ParseInv(s: State, r: ParseResult)
    requires Inv(s) && s.pc.Parsing?
    ensures Inv(DoParse(s, s.pc.fd, s.pc.events, r))
  {
    assert MonitoredOk(s, s.pc.fd);
    MoveInv(s, DoParse(s, s.pc.fd, s.pc.events, r).pc);
  }

  lemma SubmitInv(s: State, ok: bool)
    requires Inv(s) && s.pc.Submitting?
    ensures Inv(DoSubmit(s, s.pc.fd, s.pc.events, ok))
  {
    if ok { SubmittedInv(s); } else { MoveInv(s, Refusing(s.pc.fd, s.pc.events)); }
  }

  lemma SubmittedInv(s: State)
    requires Inv(s) && s.pc.Submitting?
    ensures Inv(DoSubmit(s, s.pc.fd, s.pc.events, true))
  {
    SubmittedTasks(s);
    SubmittedOwners(s);
    assert MonitorOk(DoSubmit(s, s.pc.fd, s.pc.events, true)) by {
      forall fd | fd in s.monitored ensures MonitoredOk(DoSubmit(s, s.pc.fd, s.pc.events, true), fd) {
        assert MonitoredOk(s, fd);
      }
    }
  }

  lemma SubmittedTasks(s: State)
    requires Inv(s) && s.pc.Submitting?
    ensures TasksOk(DoSubmit(s, s.pc.fd, s.pc.events, true))
  {
    var s' := DoSubmit(s, s.pc.fd, s.pc.events, true);
    OpenIsOpen(s.table, s.pc.fd);
    forall i | 0 <= i < |s'.tasks| ensures TaskOk(s', s'.tasks[i]) {
      if i < |s.tasks| { assert TaskOk(s, s.tasks[i]); }
    }
  }

  lemma SubmittedOwners(s: State)
    requires Inv(s) && s.pc.Submitting?
    ensures OwnersOk(DoSubmit(s, s.pc.fd, s.pc.events, true))
  {
    var s' := DoSubmit(s, s.pc.fd, s.pc.events, true);
    HasTaskGrows(s.tasks, s'.tasks[|s.tasks|]);
    forall fd | fd in s'.table.open ensures Owned(s', fd) {
      assert Owned(s, fd);
    }
  }

  lemma HasTaskGrows(tasks: seq<Task>, t: Task)
    ensures forall c | HasTask(tasks, c) :: HasTask(tasks + [t], c)
    ensures Active(t.phase) ==> HasTask(tasks + [t], t.conn)
  {
    var tasks' := tasks + [t];
    assert tasks'[|tasks|] == t;
    forall c | HasTask(tasks, c) ensures HasTask(tasks', c) {
      var i :| 0 <= i < |tasks| && tasks[i].conn == c && Active(tasks[i].phase);
      assert tasks'[i] == tasks[i];
    }
  }

  lemma DropInv(s: State)
    requires Inv(s) && s.pc.Dropping?
    ensures Inv(DoDrop(s, s.pc.fd, s.pc.conn, s.pc.events))
  {
    TableCloseOk(s.table, s.pc.fd, s.pc.conn);
  }

  lemma RefuseInv(s: State)
    requires Inv(s) && s.pc.Refusing?
    ensures Inv(DoProceed(s))
  {
    var s' := DoProceed(s);
    TableCloseOk(s.table, s.pc.fd, s.table.open[s.pc.fd]);
    RefusedTasks(s);
    assert MonitorOk(s') by {
      forall fd | fd in s'.monitored ensures MonitoredOk(s', fd) { assert MonitoredOk(s, fd); }
    }
    assert OwnersOk(s') by {
      forall fd | fd in s'.table.open ensures Owned(s', fd) { assert Owned(s, fd); }
    }
  }

  lemma RefusedTasks(s: State)
    requires Inv(s) && s.pc.Refusing?
    ensures TasksOk(DoProceed(s))
  {
    var s' := DoProceed(s);
    TableCloseOk(s.table, s.pc.fd, s.table.open[s.pc.fd]);
    forall i | 0 <= i < |s'.tasks| ensures TaskOk(s', s'.tasks[i]) { assert TaskOk(s, s.tasks[i]); }
  }

  lemma UnmonitorInv(s: State)
    requires Inv(s) && s.pc.Unmonitoring?
    ensures Inv(DoProceed(s))
  {
    var s' := DoProceed(s);
    assert MonitoredOk(s, s.pc.fd);
    UnmonitoredTasks(s);
    assert MonitorOk(s') by {
      forall fd | fd in s'.monitored ensures MonitoredOk(s', fd) { assert MonitoredOk(s, fd); }
    }
    OwnersFrame(s, s');
  }

  lemma UnmonitoredTasks(s: State)
    requires Inv(s) && s.pc.Unmonitoring?
    ensures TasksOk(DoProceed(s)) && Untasked(s.tasks, s.table.open[s.pc.fd])
  {
    var s' := DoProceed(s);
    OpenIsOpen(s.table, s.pc.fd);
    assert MonitoredOk(s, s.pc.fd);
    forall i | 0 <= i < |s.tasks| ensures TaskOk(s', s.tasks[i]) && s.tasks[i].conn != s.table.open[s.pc.fd] {
      assert TaskOk(s, s.tasks[i]);
    }
  }

  lemma ResetInv(s: State)
    requires Inv(s) && s.pc.Resetting?
    ensures Inv(DoProceed(s))
  {
    OwnersFrame(s, DoProceed(s));
  }

  lemma AdmitInv(s: State)
    requires Inv(s) && (s.pc.Dropping? || s.pc.Storing?)
    ensures Inv(DoProceed(s))
  {
    if s.pc.Dropping? { DropInv(s); } else { StoreInv(s); }
  }

  lemma LeaveInv(s: State)
    requires Inv(s) && (s.pc.Unmonitoring? || s.pc.Refusing? || s.pc.Resetting?)
    ensures Inv(DoProceed(s))
  {
    if s.pc.Unmonitoring? { UnmonitorInv(s); } else if s.pc.Refusing? { RefuseInv(s); } else { ResetInv(s); }
  }

  /** The loop's step without a choice. */
  lemma ProceedInv(s: State)
    requires Inv(s)
    ensures Inv(DoProceed(s))
  {
    match s.pc
    case Checking => MoveInv(s, DoProceed(s).pc);
    case Picking(_) => PickInv(s);
    case Dropping(_, _, _) | Storing(_, _, _) => AdmitInv(s);
    case Unmonitoring(_, _) | Refusing(_, _) | Resetting(_, _) => LeaveInv(s);
    case Closing =>
    case _ =>
  }

  // ---------------------------------------------------------------------
  // The workers' steps
  // ---------------------------------------------------------------------

  /** Owners when task `i` moves on without closing anything. */
  lemma HasTaskMoves(tasks: seq<Task>, i: nat, p: Phase)
    requires i < |tasks| && (Active(tasks[i].phase) ==> Active(p))
    ensures forall c | HasTask(tasks, c) :: HasTask(tasks[i := tasks[i].(phase := p)], c)
  {
    var tasks' := tasks[i := tasks[i].(phase := p)];
    forall c | HasTask(tasks, c) ensures HasTask(tasks', c) {
      var j :| 0 <= j < |tasks| && tasks[j].conn == c && Active(tasks[j].phase);
      assert tasks'[j].conn == c && Active(tasks'[j].phase);
    }
  }

  /** A task moves on, before or after its close. */
  lemma PhaseInv(s: State, i: nat, p: Phase)
    requires Inv(s) && i < |s.tasks| && (Active(p) <==> Active(s.tasks[i].phase))
    requires TaskOk(s, s.tasks[i].(phase := p))
    ensures Inv(SetPhase(s, i, p))
  {
    PhaseTasks(s, i, p);
    PhaseMonitor(s, i, p);
    PhaseOwners(s, i, p);
  }

  lemma PhaseTasks(s: State, i: nat, p: Phase)
    requires TasksOk(s) && i < |s.tasks| && TaskOk(s, s.tasks[i].(phase := p))
    ensures TasksOk(SetPhase(s, i, p))
  {
    var s' := SetPhase(s, i, p);
    forall j | 0 <= j < |s'.tasks| ensures TaskOk(s', s'.tasks[j]) {
      assert TaskOk(s, s'.tasks[j]);
    }
  }

  lemma PhaseMonitor(s: State, i: nat, p: Phase)
    requires MonitorOk(s) && i < |s.tasks|
    ensures MonitorOk(SetPhase(s, i, p))
  {
    forall fd | fd in s.monitored ensures MonitoredOk(SetPhase(s, i, p), fd) {
      assert MonitoredOk(s, fd);
    }
  }

  lemma PhaseOwners(s: State, i: nat, p: Phase)
    requires OwnersOk(s) && i < |s.tasks| && (Active(s.tasks[i].phase) ==> Active(p))
    ensures OwnersOk(SetPhase(s, i, p))
  {
    var s' := SetPhase(s, i, p);
    HasTaskMoves(s.tasks, i, p);
    if s.pc != Ended {
      forall fd | fd in s'.table.open ensures Owned(s', fd) {
        assert Owned(s, fd);
      }
    }
  }

  /** The state after the kernel call of `Close` in task `i`. */
  function Closed(s: State, i: nat): State
    requires i < |s.tasks|
  {
    SetPhase(KernelClose(s, StreamFd(s, s.tasks[i].conn), s.tasks[i].conn), i, Clearing(false))
  }

  ghost predicate AboutToClose(s: State, i: nat) {
    Inv(s) && i < |s.tasks| && s.tasks[i].phase == Phase.Closing(false)
  }

  /** The descriptor closed is the task's own and neither monitored nor in the loop's hand. */
  lemma CloseOwn(s: State, i: nat)
    requires AboutToClose(s, i)
    ensures var c, fd := s.tasks[i].conn, StreamFd(s, s.tasks[i].conn);
            && fd in s.table.open && s.table.open[fd] == c && fd > 0 && s.table.fds[c] == fd
            && fd !in s.monitored && !InHand(s, fd)
            && Closed(s, i) == SetPhase(s.(table := TableClose(s.table, fd, c)), i, Clearing(false))
  {
    assert TaskOk(s, s.tasks[i]);
    assert s.monitored - {StreamFd(s, s.tasks[i].conn)} == s.monitored;
  }

  lemma CloseTasks(s: State, i: nat)
    requires AboutToClose(s, i)
    ensures TasksOk(Closed(s, i))
  {
    var s' := Closed(s, i);
    CloseOwn(s, i);
    TableCloseOk(s.table, StreamFd(s, s.tasks[i].conn), s.tasks[i].conn);
    forall j | 0 <= j < |s'.tasks| ensures TaskOk(s', s'.tasks[j]) {
      assert TaskOk(s, s.tasks[j]);
    }
  }

  lemma CloseMonitor(s: State, i: nat)
    requires AboutToClose(s, i)
    ensures TableOk(Closed(s, i).table) && MonitorOk(Closed(s, i))
  {
    CloseOwn(s, i);
    TableCloseOk(s.table, StreamFd(s, s.tasks[i].conn), s.tasks[i].conn);
    forall fd | fd in s.monitored ensures MonitoredOk(Closed(s, i), fd) {
      assert MonitoredOk(s, fd);
    }
  }

  lemma ClosePc(s: State, i: nat)
    requires AboutToClose(s, i)
    ensures PcOk(Closed(s, i))
  {
    CloseOwn(s, i);
    TableCloseOk(s.table, StreamFd(s, s.tasks[i].conn), s.tasks[i].conn);
  }

  lemma CloseOwners(s: State, i: nat)
    requires AboutToClose(s, i)
    ensures OwnersOk(Closed(s, i))
  {
    var s' := Closed(s, i);
    CloseOwn(s, i);
    if s.pc != Ended {
      forall fd | fd in s'.table.open ensures Owned(s', fd) {
        assert Owned(s, fd);
        if HasTask(s.tasks, s.table.open[fd]) {
          HasTaskOther(s.tasks, i, Clearing(false), s.table.open[fd]);
        }
      }
    }
  }

  /** The kernel call of `Close` by an active task. */
  lemma WorkCloseInv(s: State, i: nat)
    requires AboutToClose(s, i)
    ensures Inv(Closed(s, i)) && DoWork(s, i) == Closed(s, i)
  {
    CloseOwn(s, i);
    CloseTasks(s, i);
    CloseMonitor(s, i);
    ClosePc(s, i);
    CloseOwners(s, i);
  }

  lemma HasTaskOther(tasks: seq<Task>, i: nat, p: Phase, c: Conn)
    requires i < |tasks| && tasks[i].conn != c && HasTask(tasks, c)
    ensures HasTask(tasks[i := tasks[i].(phase := p)], c)
  {
    var j :| 0 <= j < |tasks| && tasks[j].conn == c && Active(tasks[j].phase);
    assert tasks[i := tasks[i].(phase := p)][j] == tasks[j];
  }

  /** `_fd = 0` in the stream of a connection that is closed. */
  lemma ForgetInv(s: State, c: Conn)
    requires Inv(s) && !IsOpen(s.table, c)
    ensures Inv(s.(streams := s.streams[c := 0]))
  {
    var s' := s.(streams := s.streams[c := 0]);
    forall i | 0 <= i < |s.tasks| ensures TaskOk(s', s.tasks[i]) {
      assert TaskOk(s, s.tasks[i]);
    }
    if s.pc != Ended { OwnersFrame(s, s'); }
  }

  lemma ClearInv(s: State, i: nat)
    requires Inv(s) && i < |s.tasks| && s.tasks[i].phase == Clearing(false)
    ensures Inv(DoWork(s, i))
  {
    var c := s.tasks[i].conn;
    assert TaskOk(s, s.tasks[i]);
    ForgetInv(s, c);
    PhaseInv(s.(streams := s.streams[c := 0]), i, Phase.Closing(true));
  }

  lemma WorkInv(s: State, i: nat)
    requires Inv(s) && i < |s.tasks|
    ensures Inv(DoWork(s, i))
  {
    assert TaskOk(s, s.tasks[i]);
    match s.tasks[i].phase
    case Queued => PhaseInv(s, i, Handling);
    case Handling => PhaseInv(s, i, Phase.Closing(false));
    case Closing(second) =>
      if second { PhaseInv(s, i, Finished); } else { WorkCloseInv(s, i); }
    case Clearing(second) => ClearInv(s, i);
    case Finished =>
  }

  lemma StopInv(s: State, pc: LoopPc)
    requires Inv(s) && (pc == s.pc || (s.pc.Waiting? && pc == Picking([])))
    ensures Inv(s.(isRunning := false, pc := pc))
  {
    var s' := s.(isRunning := false, pc := pc);
    if s.pc != Ended { OwnersFrame(s, s'); }
  }

  /** The invariant does not read these notes. */
  lemma NotesInv(s: State, s': State)
    requires Inv(s) && s' == s.(results := s'.results, answers := s'.answers)
    ensures Inv(s')
  {
    assert MonitorOk(s') by {
      forall fd | fd in s'.monitored ensures MonitoredOk(s', fd) { assert MonitoredOk(s, fd); }
    }
    assert TasksOk(s') by {
      forall i | 0 <= i < |s'.tasks| ensures TaskOk(s', s'.tasks[i]) { assert TaskOk(s, s.tasks[i]); }
    }
    if s.pc != Ended { OwnersFrame(s, s'); }
  }

  lemma NotedParseInv(s: State, r: ParseResult)
    requires Inv(s) && s.pc.Parsing?
    ensures Inv(DoParse(NoteResult(s, s.pc.fd, r), s.pc.fd, s.pc.events, r))
  {
    NotesInv(s, NoteResult(s, s.pc.fd, r));
    ParseInv(NoteResult(s, s.pc.fd, r), r);
  }

  lemma NotedSubmitInv(s: State, ok: bool)
    requires Inv(s) && s.pc.Submitting?
    ensures Inv(DoSubmit(NoteAnswer(s, s.pc.fd, ok), s.pc.fd, s.pc.events, ok))
  {
    NotesInv(s, NoteAnswer(s, s.pc.fd, ok));
    SubmitInv(NoteAnswer(s, s.pc.fd, ok), ok);
  }

  /** The loop's steps in which the environment has a say. */
  lemma ChoiceInv(s: State, a: Action)
    requires Inv(s) && !a.Stop? && !a.Proceed? && !a.Work?
    ensures Inv(Apply(s, a))
  {
    match a
    case Wait(events) => if s.pc.Waiting? && Batch(s, events) { MoveInv(s, Picking(events)); }
    case WaitFails => if s.pc.Waiting? { StopInv(s, Picking([])); }
    case Accept(fd) =>
      if s.pc.Accepting? && 0 < fd && fd !in s.table.open { AcceptInv(s, fd); }
    case AcceptNone => if s.pc.Accepting? { MoveInv(s, Picking(s.pc.events)); }
    case Monitor(ok) => if s.pc.Admitting? { MonitorInv(s, ok); }
    case Parse(r) => if s.pc.Parsing? { NotedParseInv(s, r); }
    case Submit(ok) => if s.pc.Submitting? { NotedSubmitInv(s, ok); }
  }

  lemma ApplyInv(s: State, a: Action)
    requires Inv(s)
    ensures Inv(Apply(s, a))
  {
    match a
    case Stop => StopInv(s, s.pc);
    case Proceed => ProceedInv(s);
    case Work(i) => if i < |s.tasks| { WorkInv(s, i); }
    case _ => ChoiceInv(s, a);
  }

  lemma {:induction false} ExecInv(acts: seq<Action>)
    ensures Inv(Exec(Init(), acts))
  {
    if acts == [] {
      InitInv();
    } else {
      ExecInv(acts[..|acts| - 1]);
      ApplyInv(Exec(Init(), acts[..|acts| - 1]), acts[|acts| - 1]);
    }
  }

  // ---------------------------------------------------------------------
  // What holds in every run
  // ---------------------------------------------------------------------

  datatype Owner = Epoll | Loop | ByTask(i: nat)

  /** `o` is responsible for the open descriptor `fd`. */
  predicate Owns(s: State, fd: nat, o: Owner)
    requires fd in s.table.open
  {
    match o
    case Epoll => fd in s.monitored
    case Loop => InHand(s, fd)
    case ByTask(i) => i < |s.tasks| && s.tasks[i].conn == s.table.open[fd] && Active(s.tasks[i].phase)
  }

  lemma SomeOwner(s: State, fd: nat) returns (o: Owner)
    requires Inv(s) && s.pc != Ended && fd in s.table.open
    ensures Owns(s, fd, o)
  {
    assert Owned(s, fd);
    if fd in s.monitored {
      o := Epoll;
    } else if InHand(s, fd) {
      o := Loop;
    } else {
      var i :| 0 <= i < |s.tasks| && s.tasks[i].conn == s.table.open[fd] && Active(s.tasks[i].phase);
      o := ByTask(i);
    }
  }

  lemma OnlyOwner(s: State, fd: nat, o: Owner, p: Owner)
    requires Inv(s) && fd in s.table.open && Owns(s, fd, o) && Owns(s, fd, p)
    ensures o == p
  {
    if o.ByTask? { assert TaskOk(s, s.tasks[o.i]); }
    if p.ByTask? { assert TaskOk(s, s.tasks[p.i]); }
  }

  /** One owner: while the loop runs, every open connection is either in epoll's list, or in the
      hand of the loop, or in one task that has still to close it, and never in two of these. */
  lemma OneOwner(acts: seq<Action>)
    ensures var s := Exec(Init(), acts);
            && (s.pc != Ended ==> forall fd | fd in s.table.open :: exists o :: Owns(s, fd, o))
            && (forall fd, o, p | fd in s.table.open && Owns(s, fd, o) && Owns(s, fd, p) :: o == p)
  {
    var s := Exec(Init(), acts);
    ExecInv(acts);
    if s.pc != Ended {
      forall fd | fd in s.table.open ensures exists o :: Owns(s, fd, o) {
        var o := SomeOwner(s, fd);
      }
    }
    forall fd, o, p | fd in s.table.open && Owns(s, fd, o) && Owns(s, fd, p) ensures o == p {
      OnlyOwner(s, fd, o, p);
    }
  }

  /** No assertion fails and no index is out of bounds: a monitored descriptor is below `MAX_FD`,
      and what the loop parses is the handle of the connection the descriptor stands for. */
  lemma {:induction false} HandlesAreRight(acts: seq<Action>)
    ensures var s := Exec(Init(), acts);
            && s.pc != Aborted && |s.handles| == 1024
            && (forall fd | fd in s.monitored :: 0 < fd < 1024 && fd in s.table.open)
            && (s.pc.Parsing? || s.pc.Unmonitoring? || s.pc.Submitting? || s.pc.Refusing? ==>
                  s.pc.fd in s.table.open && s.pc.fd < 1024 && s.handles[s.pc.fd] == Builder(s.table.open[s.pc.fd]))
  {
    var s := Exec(Init(), acts);
    ExecInv(acts);
    assert forall fd | fd in s.monitored :: MonitoredOk(s, fd);
  }

  /** A connection is submitted at most once. It is closed at most once, and by a call that
      means it, although descriptors are reused and `DestroyHttpContext` closes twice; and it is
      closed unless it is still open. */
  lemma {:induction false} AtMostOnce(acts: seq<Action>)
    ensures var s := Exec(Init(), acts);
            && (forall i, j | 0 <= i < j < |s.tasks| :: s.tasks[i].conn != s.tasks[j].conn)
            && (forall j, k | 0 <= j < k < |s.table.closes| :: s.table.closes[j].meant != s.table.closes[k].meant)
            && (forall k | 0 <= k < |s.table.closes| :: s.table.closes[k].hit == Hit(s.table.closes[k].meant))
            && (forall c | 0 <= c < |s.table.fds| :: WasClosed(s.table, c) <==> !IsOpen(s.table, c))
  {
    var s := Exec(Init(), acts);
    ExecInv(acts);
    forall c | 0 <= c < |s.table.fds| ensures WasClosed(s.table, c) <==> !IsOpen(s.table, c) {
      if k :| 0 <= k < |s.table.closes| && s.table.closes[k].meant == c {
        assert !IsOpen(s.table, s.table.closes[k].meant);
      }
    }
  }

  /** A task that has begun to handle its request has its connection to itself until its own
      close; the second `Close` makes no kernel call; a finished task leaves it closed. */
  lemma {:induction false} TaskOwnsConnection(acts: seq<Action>, i: nat)
    requires i < |Exec(Init(), acts).tasks|
    ensures var s := Exec(Init(), acts);
            var t := s.tasks[i];
            && (Active(t.phase) <==> IsOpen(s.table, t.conn))
            && (Active(t.phase) ==> StreamFd(s, t.conn) == s.table.fds[t.conn])
            && (t.phase == Phase.Closing(true) ==> DoWork(s, i) == SetPhase(s, i, Finished))
            && (t.phase == Finished ==> WasClosed(s.table, t.conn))
  {
    ExecInv(acts);
    var s := Exec(Init(), acts);
    assert TaskOk(s, s.tasks[i]);
    assert IsOpen(s.table, s.tasks[i].conn) || WasClosed(s.table, s.tasks[i].conn);
  }

  /** When the loop ends, the connections it was still monitoring, and no others, are left open
      without an owner. */
  lemma ShutdownLeaks(acts: seq<Action>)
    requires Exec(Init(), acts).pc == LoopPc.Closing
    ensures var s := Exec(Init(), acts);
            var s' := Apply(s, Proceed);
            s'.table == s.table &&
            forall fd | fd in s.table.open :: (exists o :: Owns(s', fd, o)) <==> fd !in s.monitored
  {
    var s := Exec(Init(), acts);
    var s' := Apply(s, Proceed);
    ExecInv(acts);
    forall fd | fd in s.table.open ensures (exists o :: Owns(s', fd, o)) <==> fd !in s.monitored {
      var o := SomeOwner(s, fd);
      if fd in s.monitored {
        if p :| Owns(s', fd, p) {
          OnlyOwner(s, fd, p, Epoll);
        }
      } else {
        assert Owns(s', fd, o);
      }
    }
  }
}
