/** What the event loop decides: for every connection, what `Parse` and `Submit` last returned is
    what becomes of it. */
module MayhemDecisions {
  import opened Mayhem

  // ---------------------------------------------------------------------
  // The fate of a connection
  // ---------------------------------------------------------------------

  ghost predicate InTask(s: State, c: Conn) {
    exists i :: 0 <= i < |s.tasks| && s.tasks[i].conn == c
  }

  /** Connection `c` is open and the loop is about to take it out of epoll's list or to submit it. */
  predicate ToSubmit(s: State, c: Conn) {
    (s.pc.Unmonitoring? || s.pc.Submitting?) && s.pc.fd in s.table.open && s.table.open[s.pc.fd] == c
  }

  /** Connection `c` is open and the loop is about to close it. */
  predicate ToClose(s: State, c: Conn) {
    s.pc.Refusing? && s.pc.fd in s.table.open && s.table.open[s.pc.fd] == c
  }

  predicate InEpoll(s: State, c: Conn) {
    IsOpen(s.table, c) && s.table.fds[c] in s.monitored
  }

  /** What has become of connection `c`. */
  ghost predicate FateOk(s: State, c: Conn) {
    if c !in s.results then !InTask(s, c) && c !in s.answers
    else
      match s.results[c]
      case More => !InTask(s, c) && c !in s.answers && (InEpoll(s, c) || s.pc.Ended?)
      case Failed => !InTask(s, c) && c !in s.answers && (ToClose(s, c) || !IsOpen(s.table, c))
      case Throws => !InTask(s, c) && c !in s.answers && s.pc.Ended?
      case Complete =>
        if c !in s.answers then !InTask(s, c) && ToSubmit(s, c)
        else if s.answers[c] then InTask(s, c)
        else !InTask(s, c) && (ToClose(s, c) || !IsOpen(s.table, c))
  }

  /** The loop has a connection in hand for a reason. */
  predicate HandOk(s: State, c: Conn) {
    match s.pc
    case Parsing(_, _) => (c in s.results ==> s.results[c] == More) && c !in s.answers
    case Unmonitoring(_, _) | Submitting(_, _) => c in s.results && s.results[c] == Complete && c !in s.answers
    case Refusing(_, _) => c in s.results && (if c in s.answers then !s.answers[c] else s.results[c] == Failed)
    case _ => true
  }

  ghost predicate LoopOk(s: State) {
    && (s.pc.Parsing? || s.pc.Unmonitoring? || s.pc.Submitting? || s.pc.Refusing? ==>
          s.pc.fd in s.table.open && HandOk(s, s.table.open[s.pc.fd]))
    && (s.pc.Admitting? || s.pc.Dropping? || s.pc.Storing? ==> s.pc.conn !in s.results)
  }

  /** What epoll still watches has been parsed to no end, unless the loop has it in hand. */
  predicate WatchedOk(s: State, fd: nat) {
    fd in s.table.open ==>
      var c := s.table.open[fd];
      (c in s.results ==> s.results[c] == More) || ToSubmit(s, c) || ToClose(s, c) || s.pc.Ended?
  }

  ghost predicate Decisions(s: State) {
    && (forall c | c in s.results :: c < |s.table.fds|)
    && (forall c | c in s.answers :: c < |s.table.fds|)
    && (forall c | 0 <= c < |s.table.fds| :: FateOk(s, c))
    && (forall fd | fd in s.monitored :: WatchedOk(s, fd))
    && LoopOk(s)
  }

  // ---------------------------------------------------------------------
  // Every step keeps this
  // ---------------------------------------------------------------------

  /** Places of the loop without a parsed connection in hand. */
  predicate Plain(pc: LoopPc) {
    !pc.Parsing? && !pc.Unmonitoring? && !pc.Submitting? && !pc.Refusing?
  }

  lemma NoPlainHand(s: State, c: Conn)
    requires Plain(s.pc)
    ensures !ToSubmit(s, c) && !ToClose(s, c)
  {
  }

  /** A step between plain places that leaves tables, tasks and notes alone. */
  lemma PlainMove(s: State, s': State)
    requires Inv(s) && Decisions(s) && Plain(s.pc) && Plain(s'.pc) && s'.table == s.table && s'.tasks == s.tasks
    requires s'.results == s.results && s'.answers == s.answers
    requires s.pc.Ended? ==> s'.pc.Ended?
    requires s'.monitored == s.monitored || s'.pc.Ended?
    requires s'.pc.Admitting? || s'.pc.Dropping? || s'.pc.Storing? ==> s'.pc.conn !in s.results
    ensures Decisions(s')
  {
    forall c | 0 <= c < |s'.table.fds| ensures FateOk(s', c) { assert FateOk(s, c); }
    forall fd | fd in s'.monitored ensures WatchedOk(s', fd) {
      if fd in s.monitored { assert WatchedOk(s, fd); }
    }
  }

  /** An event for a descriptor that epoll watches. */
  lemma PickParse(s: State)
    requires Inv(s) && Decisions(s) && s.pc.Picking? && DoPick(s, s.pc.events).pc.Parsing?
    ensures Decisions(DoPick(s, s.pc.events))
  {
    var s' := DoPick(s, s.pc.events);
    var fd := s'.pc.fd;
    PickMoves(s);
    assert fd == s.pc.events[0].fd && fd in s.monitored;
    assert MonitoredOk(s, fd) && WatchedOk(s, fd);
    assert OpenOk(s.table);
    assert FateOk(s, s.table.open[fd]);
    forall c | 0 <= c < |s'.table.fds| ensures FateOk(s', c) { assert FateOk(s, c); }
    forall f | f in s'.monitored ensures WatchedOk(s', f) { assert WatchedOk(s, f); }
  }

  lemma PickOk(s: State)
    requires Inv(s) && Decisions(s) && s.pc.Picking?
    ensures Decisions(DoPick(s, s.pc.events))
  {
    if DoPick(s, s.pc.events).pc.Parsing? { PickParse(s); } else { PickPlain(s); }
  }

  lemma PickPlain(s: State)
    requires Inv(s) && Decisions(s) && s.pc.Picking? && !DoPick(s, s.pc.events).pc.Parsing?
    ensures Decisions(DoPick(s, s.pc.events))
  {
    PickMoves(s);
    PlainMove(s, s.(pc := DoPick(s, s.pc.events).pc));
  }

  lemma PickMoves(s: State)
    requires s.pc.Picking?
    ensures var s' := DoPick(s, s.pc.events);
            && s' == s.(pc := s'.pc) && (s'.pc.Parsing? || Plain(s'.pc))
            && !s'.pc.Admitting? && !s'.pc.Dropping? && !s'.pc.Storing?
  {
  }

  lemma AcceptOk(s: State, fd: nat)
    requires Inv(s) && Decisions(s) && s.pc.Accepting? && 0 < fd && fd !in s.table.open
    ensures Decisions(DoAccept(s, fd, s.pc.events))
  {
    var s' := DoAccept(s, fd, s.pc.events);
    TableAcceptOk(s.table, fd);
    assert !InTask(s, |s.table.fds|) by {
      forall i | 0 <= i < |s.tasks| ensures s.tasks[i].conn != |s.table.fds| { assert TaskOk(s, s.tasks[i]); }
    }
    forall c | 0 <= c < |s'.table.fds| ensures FateOk(s', c) {
      if c < |s.table.fds| { assert FateOk(s, c); }
    }
    forall f | f in s'.monitored ensures WatchedOk(s', f) {
      assert MonitoredOk(s, f) && WatchedOk(s, f);
    }
  }

  lemma MonitorStepOk(s: State, ok: bool)
    requires Inv(s) && Decisions(s) && s.pc.Admitting?
    ensures Decisions(DoMonitor(s, s.pc.fd, s.pc.conn, s.pc.events, ok))
  {
    var s' := DoMonitor(s, s.pc.fd, s.pc.conn, s.pc.events, ok);
    if s'.pc.Dropping? {
      PlainMove(s, s');
    } else {
      forall c | 0 <= c < |s'.table.fds| ensures FateOk(s', c) { assert FateOk(s, c); }
      forall f | f in s'.monitored ensures WatchedOk(s', f) {
        if f in s.monitored { assert WatchedOk(s, f); }
      }
    }
  }

  /** After a close of connection `c` by its descriptor. */
  lemma CloseFate(s: State, s': State, fd: nat, c: Conn, d: Conn)
    requires Inv(s) && fd in s.table.open && s.table.open[fd] == c && fd !in s.monitored - {fd}
    requires s'.table == TableClose(s.table, fd, c) && s'.monitored == s.monitored - {fd} && s'.tasks == s.tasks
    requires s'.results == s.results && s'.answers == s.answers && Plain(s'.pc) && !s'.pc.Ended? && !s.pc.Ended?
    requires d < |s.table.fds| && FateOk(s, d)
    requires d == c ==> (c !in s.results || (s.results[c] == Failed) || (c in s.answers && !s.answers[c]))
    requires d != c ==> !ToSubmit(s, d) && !ToClose(s, d)
    ensures FateOk(s', d)
  {
    TableCloseOk(s.table, fd, c);
    assert IsOpen(s'.table, d) <==> IsOpen(s.table, d) && d != c;
    if d != c && IsOpen(s.table, d) { assert s.table.fds[d] != fd; }
  }

  lemma DropOk(s: State)
    requires Inv(s) && Decisions(s) && s.pc.Dropping?
    ensures Decisions(DoDrop(s, s.pc.fd, s.pc.conn, s.pc.events))
  {
    var s' := DoDrop(s, s.pc.fd, s.pc.conn, s.pc.events);
    forall d | 0 <= d < |s'.table.fds| ensures FateOk(s', d) {
      assert FateOk(s, d);
      CloseFate(s, s', s.pc.fd, s.pc.conn, d);
    }
    forall f | f in s'.monitored ensures WatchedOk(s', f) { assert WatchedOk(s, f); }
  }

  lemma RefuseOk(s: State)
    requires Inv(s) && Decisions(s) && s.pc.Refusing?
    ensures Decisions(DoProceed(s))
  {
    var s' := DoProceed(s);
    var fd := s.pc.fd;
    var c := s.table.open[fd];
    assert OpenOk(s.table);
    assert FateOk(s, c);
    forall d | 0 <= d < |s'.table.fds| ensures FateOk(s', d) {
      assert FateOk(s, d);
      CloseFate(s, s', fd, c, d);
    }
    forall f | f in s'.monitored ensures WatchedOk(s', f) {
      assert WatchedOk(s, f) && MonitoredOk(s, f);
      assert s.table.fds[s.table.open[f]] == f;
    }
  }

  /** The answer of `Parse`, and where the loop goes with it. */
  lemma ParseOk(s: State, r: ParseResult)
    requires Inv(s) && Decisions(s) && s.pc.Parsing?
    ensures Decisions(DoParse(NoteResult(s, s.pc.fd, r), s.pc.fd, s.pc.events, r))
  {
    var fd := s.pc.fd;
    var c := s.table.open[fd];
    var s' := DoParse(NoteResult(s, fd, r), fd, s.pc.events, r);
    assert MonitoredOk(s, fd) && OpenOk(s.table);
    OpenIsOpen(s.table, fd);
    assert FateOk(s, c);
    forall d | 0 <= d < |s'.table.fds| ensures FateOk(s', d) { assert FateOk(s, d); }
    forall f | f in s'.monitored ensures WatchedOk(s', f) {
      assert WatchedOk(s, f);
      if f != fd { assert f in s.table.open ==> s.table.fds[s.table.open[f]] == f; }
    }
  }

  lemma UnmonitorOk(s: State)
    requires Inv(s) && Decisions(s) && s.pc.Unmonitoring?
    ensures Decisions(DoProceed(s))
  {
    var s' := DoProceed(s);
    var c := s.table.open[s.pc.fd];
    assert OpenOk(s.table);
    forall d | 0 <= d < |s'.table.fds| ensures FateOk(s', d) {
      assert FateOk(s, d);
      if IsOpen(s.table, d) && d != c { assert s.table.fds[d] != s.pc.fd; }
    }
    forall f | f in s'.monitored ensures WatchedOk(s', f) {
      assert WatchedOk(s, f);
      assert f in s.table.open ==> s.table.fds[s.table.open[f]] == f;
    }
  }

  /** The answer of `Submit`, and where the loop goes with it. */
  lemma SubmitOk(s: State, ok: bool)
    requires Inv(s) && Decisions(s) && s.pc.Submitting?
    ensures Decisions(DoSubmit(NoteAnswer(s, s.pc.fd, ok), s.pc.fd, s.pc.events, ok))
  {
    var fd := s.pc.fd;
    var c := s.table.open[fd];
    var s' := DoSubmit(NoteAnswer(s, fd, ok), fd, s.pc.events, ok);
    assert OpenOk(s.table);
    assert FateOk(s, c);
    forall d | 0 <= d < |s'.table.fds| ensures FateOk(s', d) {
      assert FateOk(s, d);
      SubmittedIsInTask(s, s', c, ok, d);
    }
    forall f | f in s'.monitored ensures WatchedOk(s', f) {
      assert WatchedOk(s, f) && MonitoredOk(s, f);
      assert s.table.fds[s.table.open[f]] == f;
    }
  }

  lemma SubmittedIsInTask(s: State, s': State, c: Conn, ok: bool, d: Conn)
    requires s'.tasks == if ok then s.tasks + [Task(c, Queued)] else s.tasks
    ensures InTask(s', d) <==> InTask(s, d) || (ok && d == c)
  {
    if InTask(s, d) {
      var i :| 0 <= i < |s.tasks| && s.tasks[i].conn == d;
      assert s'.tasks[i] == s.tasks[i];
    }
    if ok { assert s'.tasks[|s.tasks|].conn == c; }
  }

  lemma ProceedOk(s: State)
    requires Inv(s) && Decisions(s)
    ensures Decisions(DoProceed(s))
  {
    match s.pc
    case Picking(_) => PickOk(s);
    case Dropping(_, _, _) => DropOk(s);
    case Unmonitoring(_, _) => UnmonitorOk(s);
    case Refusing(_, _) => RefuseOk(s);
    case Checking | Storing(_, _, _) | Resetting(_, _) | Closing => ProceedPlain(s);
    case _ =>
  }

  lemma ProceedPlain(s: State)
    requires Inv(s) && Decisions(s) && (s.pc.Checking? || s.pc.Storing? || s.pc.Resetting? || s.pc.Closing?)
    ensures Decisions(DoProceed(s))
  {
    PlainMove(s, DoProceed(s));
  }

  // ---------------------------------------------------------------------
  // The workers
  // ---------------------------------------------------------------------

  /** A worker moves a task on, closes its connection or clears its descriptor. */
  lemma WorkOk(s: State, i: nat)
    requires Inv(s) && Decisions(s) && i < |s.tasks|
    ensures Decisions(DoWork(s, i))
  {
    assert TaskOk(s, s.tasks[i]);
    if s.tasks[i].phase == Phase.Closing(false) {
      WorkCloses(s, i);
    } else {
      SameTasks(s, DoWork(s, i), i);
    }
  }

  lemma SamePlaces(s: State, s': State, i: nat)
    requires i < |s.tasks| == |s'.tasks|
    requires s'.tasks == s.tasks[i := s'.tasks[i]] && s'.tasks[i].conn == s.tasks[i].conn
    ensures forall c :: InTask(s', c) <==> InTask(s, c)
  {
    forall c ensures InTask(s', c) <==> InTask(s, c) {
      if InTask(s, c) {
        var k :| 0 <= k < |s.tasks| && s.tasks[k].conn == c;
        assert s'.tasks[k].conn == c;
      }
      if InTask(s', c) {
        var k :| 0 <= k < |s'.tasks| && s'.tasks[k].conn == c;
        assert s.tasks[k].conn == c;
      }
    }
  }

  lemma SameTasks(s: State, s': State, i: nat)
    requires Decisions(s) && i < |s.tasks| && |s'.tasks| == |s.tasks|
    requires s'.tasks == s.tasks[i := s'.tasks[i]] && s'.tasks[i].conn == s.tasks[i].conn
    requires s' == s.(tasks := s'.tasks, streams := s'.streams)
    ensures Decisions(s')
  {
    SamePlaces(s, s', i);
    forall c | 0 <= c < |s'.table.fds| ensures FateOk(s', c) { assert FateOk(s, c); }
    forall fd | fd in s'.monitored ensures WatchedOk(s', fd) { assert WatchedOk(s, fd); }
  }

  lemma WorkCloses(s: State, i: nat)
    requires Inv(s) && Decisions(s) && i < |s.tasks| && s.tasks[i].phase == Phase.Closing(false)
    ensures Decisions(DoWork(s, i))
  {
    var c := s.tasks[i].conn;
    var fd := StreamFd(s, c);
    CloseOwn(s, i);
    WorkCloseInv(s, i);
    var s' := Closed(s, i);
    SamePlaces(s, s', i);
    assert InTask(s, c);
    TableCloseOk(s.table, fd, c);
    assert OpenOk(s.table);
    forall d | 0 <= d < |s'.table.fds| ensures FateOk(s', d) {
      assert FateOk(s, d);
      ClosedElsewhere(s, s', fd, c, d);
    }
    forall f | f in s'.monitored ensures WatchedOk(s', f) { assert WatchedOk(s, f) && MonitoredOk(s, f); }
  }

  /** Closing `c` does not touch what the loop has in hand or epoll watches for another. */
  lemma ClosedElsewhere(s: State, s': State, fd: nat, c: Conn, d: Conn)
    requires TableOk(s.table) && fd in s.table.open && s.table.open[fd] == c && d < |s.table.fds|
    requires s'.table == TableClose(s.table, fd, c) && s'.pc == s.pc
    requires s'.monitored == s.monitored && fd !in s.monitored
    ensures d != c ==> (ToSubmit(s', d) <==> ToSubmit(s, d)) && (ToClose(s', d) <==> ToClose(s, d))
    ensures d != c ==> (IsOpen(s'.table, d) <==> IsOpen(s.table, d)) && (InEpoll(s', d) <==> InEpoll(s, d))
    ensures !IsOpen(s'.table, c)
  {
    TableCloseOk(s.table, fd, c);
  }

  lemma ApplyOk(s: State, a: Action)
    requires Inv(s) && Decisions(s)
    ensures Decisions(Apply(s, a))
  {
    match a
    case Stop => StopOk(s, s.(isRunning := false));
    case Proceed => ProceedOk(s);
    case Wait(_) | WaitFails => WaitOk(s, a);
    case Accept(fd) => if s.pc.Accepting? && 0 < fd && fd !in s.table.open { AcceptOk(s, fd); }
    case AcceptNone => if s.pc.Accepting? { PlainMove(s, Apply(s, a)); }
    case Monitor(ok) => if s.pc.Admitting? { MonitorStepOk(s, ok); }
    case Parse(r) => if s.pc.Parsing? { ParseOk(s, r); }
    case Submit(ok) => if s.pc.Submitting? { SubmitOk(s, ok); }
    case Work(i) => if i < |s.tasks| { WorkOk(s, i); }
  }

  lemma WaitOk(s: State, a: Action)
    requires Inv(s) && Decisions(s) && (a.Wait? || a.WaitFails?)
    ensures Decisions(Apply(s, a))
  {
    if s.pc.Waiting? { PlainMove(s, Apply(s, a)); }
  }

  lemma StopOk(s: State, s': State)
    requires Decisions(s) && s' == s.(isRunning := false)
    ensures Decisions(s')
  {
    forall c | 0 <= c < |s'.table.fds| ensures FateOk(s', c) { assert FateOk(s, c); }
    forall fd | fd in s'.monitored ensures WatchedOk(s', fd) { assert WatchedOk(s, fd); }
  }

  lemma {:induction false} ExecOk(acts: seq<Action>)
    ensures Inv(Exec(Init(), acts)) && Decisions(Exec(Init(), acts))
  {
    ExecInv(acts);
    if acts != [] {
      ExecOk(acts[..|acts| - 1]);
      ApplyOk(Exec(Init(), acts[..|acts| - 1]), acts[|acts| - 1]);
    }
  }

  // ---------------------------------------------------------------------
  // Over every run
  // ---------------------------------------------------------------------

  /** The connections that a handler gets are exactly those whose request was complete and whose
      task `Submit` took. */
  lemma {:induction false} OnlyCompleteRequestsAreHandled(acts: seq<Action>)
    ensures var s := Exec(Init(), acts);
            forall c | 0 <= c < |s.table.fds| ::
              InTask(s, c) <==> c in s.results && s.results[c] == Complete && c in s.answers && s.answers[c]
  {
    var s := Exec(Init(), acts);
    ExecOk(acts);
    forall c | 0 <= c < |s.table.fds|
      ensures InTask(s, c) <==> c in s.results && s.results[c] == Complete && c in s.answers && s.answers[c]
    {
      assert FateOk(s, c);
    }
  }

  /** What becomes of a connection whose last `Parse` said this: after `More` it stays in epoll's
      list with its handle in place, as long as the loop runs; after `Failed`, and after `Complete`
      if `Submit` refuses, it is closed, unless that is what the loop is about to do, and it is
      never in a task; after `Complete` it goes on to `Submit`; an exception ends the loop. */
  lemma {:induction false} LoopDecides(acts: seq<Action>, c: Conn)
    requires c in Exec(Init(), acts).results
    ensures var s := Exec(Init(), acts);
            && c < |s.table.fds|
            && var fd := s.table.fds[c];
            match s.results[c]
            case More =>
              s.pc == Ended ||
              (InEpoll(s, c) && fd < |s.handles| && s.handles[fd] == Builder(c) && !InTask(s, c) && c !in s.answers)
            case Failed =>
              !InTask(s, c) && (WasClosed(s.table, c) || (s.pc.Refusing? && s.pc.fd == fd && IsOpen(s.table, c)))
            case Throws => s.pc == Ended && !InTask(s, c)
            case Complete =>
              if c !in s.answers then
                !InTask(s, c) && IsOpen(s.table, c) && (s.pc.Unmonitoring? || s.pc.Submitting?) && s.pc.fd == fd
              else if s.answers[c] then InTask(s, c)
              else !InTask(s, c) && (WasClosed(s.table, c) || (s.pc.Refusing? && s.pc.fd == fd && IsOpen(s.table, c)))
  {
    var s := Exec(Init(), acts);
    ExecOk(acts);
    assert FateOk(s, c);
    assert IsOpen(s.table, c) || WasClosed(s.table, c);
    assert OpenOk(s.table);
    if InEpoll(s, c) { assert MonitoredOk(s, s.table.fds[c]); }
  }

  // ---------------------------------------------------------------------
  // Whole passes of the loop
  // ---------------------------------------------------------------------

  /** Connection `c` is closed, out of epoll's list and without a handle, and no task has it. */
  ghost predicate Gone(s: State, fd: nat, c: Conn) {
    !IsOpen(s.table, c) && fd !in s.monitored && fd < |s.handles| && s.handles[fd] == Null && !InTask(s, c)
  }

  /** The loop has the handle of connection `c`, open under descriptor `fd`. */
  ghost predicate HasHandle(s: State, fd: nat, c: Conn) {
    && OpenOk(s.table) && fd in s.table.open && s.table.open[fd] == c
    && fd < |s.handles| && s.handles[fd] == Builder(c)
  }

  lemma HandleAtHand(acts: seq<Action>)
    requires Exec(Init(), acts).pc.Parsing?
    ensures var s := Exec(Init(), acts);
            s.pc.fd in s.table.open && HasHandle(s, s.pc.fd, s.table.open[s.pc.fd]) && !InTask(s, s.table.open[s.pc.fd])
  {
    var s := Exec(Init(), acts);
    ExecOk(acts);
    assert MonitoredOk(s, s.pc.fd);
    OpenIsOpen(s.table, s.pc.fd);
    assert FateOk(s, s.table.open[s.pc.fd]);
  }

  lemma RefusalCloses(s: State, fd: nat, es: seq<Event>, c: Conn)
    requires HasHandle(s, fd, c) && !InTask(s, c) && s.pc == Refusing(fd, es)
    ensures var s' := Apply(Apply(s, Proceed), Proceed);
            s'.pc == Picking(es) && s'.tasks == s.tasks && Gone(s', fd, c)
  {
    ClosingForgets(s.table, fd);
    var s1 := KernelClose(s, fd, c).(pc := Resetting(fd, es));
    assert Apply(s, Proceed) == s1;
    assert Apply(s1, Proceed) == s1.(pc := Picking(es), handles := s1.handles[fd := Null]);
  }

  lemma ClosingForgets(t: Table, fd: nat)
    requires OpenOk(t) && fd in t.open
    ensures !IsOpen(TableClose(t, fd, t.open[fd]), t.open[fd])
  {
  }

  /** Connection `c` has left epoll's list and is about to be submitted. */
  function Unwatched(s: State, fd: nat, es: seq<Event>, c: Conn): State {
    s.(pc := Submitting(fd, es), results := s.results[c := Complete], monitored := s.monitored - {fd})
  }

  lemma CompleteUnwatches(s: State, fd: nat, es: seq<Event>, c: Conn)
    requires HasHandle(s, fd, c) && s.pc == Parsing(fd, es)
    ensures Apply(Apply(s, Parse(Complete)), Proceed) == Unwatched(s, fd, es, c)
  {
    assert Apply(s, Parse(Complete)) == s.(pc := Unmonitoring(fd, es), results := s.results[c := Complete]);
  }

  lemma SubmitOutcome(s: State, fd: nat, es: seq<Event>, c: Conn, ok: bool)
    requires HasHandle(s, fd, c) && s.pc == Submitting(fd, es)
    ensures Apply(s, Submit(ok))
         == if ok then s.(pc := Picking(es), answers := s.answers[c := true], tasks := s.tasks + [Task(c, Queued)])
            else s.(pc := Refusing(fd, es), answers := s.answers[c := false])
  {
  }

  /** A complete request of a connection is taken out of epoll's list and submitted once; if that is
      refused the connection is closed and forgotten. */
  lemma {:induction false} CompleteIsSubmitted(acts: seq<Action>)
    requires Exec(Init(), acts).pc.Parsing?
    ensures var s := Exec(Init(), acts);
            var fd, es := s.pc.fd, s.pc.events;
            && fd in s.table.open
            && var c := s.table.open[fd];
            var asked := Apply(Apply(s, Parse(Complete)), Proceed);
            var taken := Apply(asked, Submit(true));
            var refused := Apply(Apply(Apply(asked, Submit(false)), Proceed), Proceed);
            && taken.pc == Picking(es) && taken.tasks == s.tasks + [Task(c, Queued)]
            && taken.monitored == s.monitored - {fd} && taken.table == s.table
            && refused.pc == Picking(es) && refused.tasks == s.tasks && Gone(refused, fd, c)
  {
    var s := Exec(Init(), acts);
    var fd, es := s.pc.fd, s.pc.events;
    HandleAtHand(acts);
    var c := s.table.open[fd];
    CompleteUnwatches(s, fd, es, c);
    var asked := Unwatched(s, fd, es, c);
    SubmitOutcome(asked, fd, es, c, true);
    SubmitOutcome(asked, fd, es, c, false);
    RefusalCloses(asked.(pc := Refusing(fd, es), answers := asked.answers[c := false]), fd, es, c);
  }

  /** A failed one is closed and forgotten; an unfinished one just waits for more. */
  lemma {:induction false} FailedIsClosed(acts: seq<Action>)
    requires Exec(Init(), acts).pc.Parsing?
    ensures var s := Exec(Init(), acts);
            var fd, es := s.pc.fd, s.pc.events;
            && fd in s.table.open
            && var c := s.table.open[fd];
            var failed := Apply(Apply(Apply(s, Parse(Failed)), Proceed), Proceed);
            && failed.pc == Picking(es) && failed.tasks == s.tasks && Gone(failed, fd, c)
            && Apply(s, Parse(More)) == s.(pc := Picking(es), results := s.results[c := More])
            && Apply(s, Parse(Throws)).pc == Ended
  {
    var s := Exec(Init(), acts);
    var fd, es := s.pc.fd, s.pc.events;
    HandleAtHand(acts);
    var c := s.table.open[fd];
    ParseOutcome(s, fd, es, c);
    RefusalCloses(s.(pc := Refusing(fd, es), results := s.results[c := Failed]), fd, es, c);
  }

  lemma ParseOutcome(s: State, fd: nat, es: seq<Event>, c: Conn)
    requires HasHandle(s, fd, c) && s.pc == Parsing(fd, es)
    ensures Apply(s, Parse(Failed)) == s.(pc := Refusing(fd, es), results := s.results[c := Failed])
    ensures Apply(s, Parse(More)) == s.(pc := Picking(es), results := s.results[c := More])
    ensures Apply(s, Parse(Throws)) == s.(pc := Ended, results := s.results[c := Throws])
  {
  }

  /** A new connection: below descriptor 1024 and with epoll's consent it is watched with its own
      handle and the loop asks for the next; if epoll refuses, it is closed and the loop goes on;
      from 1024 on it is closed and the loop stops accepting. */
  lemma NewConnection(acts: seq<Action>, fd: nat)
    requires var s := Exec(Init(), acts); s.pc.Accepting? && 0 < fd && fd !in s.table.open
    ensures var s := Exec(Init(), acts);
            var es, c := s.pc.events, |s.table.fds|;
            var s1 := Apply(s, Accept(fd));
            var watched := Apply(Apply(s1, Monitor(true)), Proceed);
            var dropped := Apply(Apply(s1, Monitor(false)), Proceed);
            && (fd < 1024 ==>
                  && watched.pc == Accepting(es) && InEpoll(watched, c) && watched.table.fds[c] == fd
                  && fd < |watched.handles| && watched.handles[fd] == Builder(c) && StreamFd(watched, c) == fd
                  && Apply(dropped, Proceed).pc == Accepting(es)
                  && !IsOpen(dropped.table, c) && fd !in dropped.monitored)
            && (fd >= 1024 ==>
                  && watched.pc == Picking(es) && !IsOpen(watched.table, c) && fd !in watched.monitored
                  && dropped == watched)
  {
    var s := Exec(Init(), acts);
    ExecOk(acts);
    var es, c := s.pc.events, |s.table.fds|;
    var s1 := DoAccept(s, fd, es);
    TableAcceptOk(s.table, fd);
    ClosingForgets(s1.table, fd);
    NotWatched(s, fd);
    assert Apply(s, Accept(fd)) == s1;
    if fd < 1024 { Admitted(s1, fd, c, es); } else { TooMany(s1, fd, c, es); }
  }

  lemma Admitted(s: State, fd: nat, c: Conn, es: seq<Event>)
    requires s.pc == Admitting(fd, c, es) && fd < 1024 && |s.handles| == MAX_FD
    ensures Apply(Apply(s, Monitor(true)), Proceed)
         == s.(pc := Accepting(es), monitored := s.monitored + {fd},
               handles := s.handles[fd := Builder(c)], streams := s.streams[c := fd])
    ensures var dropped := Apply(Apply(s, Monitor(false)), Proceed);
            dropped == KernelClose(s, fd, c).(pc := Storing(fd, c, es)) && Apply(dropped, Proceed).pc == Accepting(es)
  {
    var s1 := s.(pc := Storing(fd, c, es), monitored := s.monitored + {fd});
    assert Apply(s, Monitor(true)) == s1 && Apply(s1, Proceed) == DoStore(s1, fd, c, es);
    var s2 := s.(pc := Dropping(fd, c, es));
    assert Apply(s, Monitor(false)) == s2 && Apply(s2, Proceed) == DoDrop(s2, fd, c, es);
  }

  lemma TooMany(s: State, fd: nat, c: Conn, es: seq<Event>)
    requires s.pc == Admitting(fd, c, es) && fd >= 1024
    ensures forall ok :: Apply(Apply(s, Monitor(ok)), Proceed) == KernelClose(s, fd, c).(pc := Picking(es))
  {
    var s1 := s.(pc := Dropping(fd, c, es));
    forall ok ensures Apply(Apply(s, Monitor(ok)), Proceed) == KernelClose(s, fd, c).(pc := Picking(es)) {
      assert Apply(s, Monitor(ok)) == s1 && Apply(s1, Proceed) == DoDrop(s1, fd, c, es);
    }
  }

  lemma NotWatched(s: State, fd: nat)
    requires MonitorOk(s) && fd !in s.table.open
    ensures fd !in s.monitored
  {
  }

  /** Every readable event leads to a `Parse` on the handle of that very connection; events for the
      listening socket to accepting until there is no more, and then to the rest of the batch; the
      others are passed over. A batch has at most 64 events. */
  lemma EventsAreHandled(acts: seq<Action>)
    ensures var s := Exec(Init(), acts);
            && (s.pc.Picking? && s.pc.events != [] ==>
                  var e, es, s' := s.pc.events[0], s.pc.events[1..], Apply(s, Proceed);
                  && (e.Listening? ==> s'.pc == Accepting(es))
                  && (e.Ready? && !e.readable ==> s'.pc == Picking(es))
                  && (e.Ready? && e.readable ==>
                        && s'.pc == Parsing(e.fd, es) && e.fd in s.table.open && e.fd < |s.handles|
                        && s.handles[e.fd] == Builder(s.table.open[e.fd])))
            && (s.pc == Picking([]) ==> Apply(s, Proceed).pc == LoopPc.Checking)
            && (s.pc.Accepting? ==> Apply(s, AcceptNone) == s.(pc := Picking(s.pc.events)))
            && (forall events | s.pc.Waiting? && Batch(s, events) ::
                  |events| <= 64 && Apply(s, Wait(events)).pc == Picking(events))
  {
    var s := Exec(Init(), acts);
    ExecOk(acts);
    if s.pc.Picking? && s.pc.events != [] && s.pc.events[0].Ready? {
      assert MonitoredOk(s, s.pc.events[0].fd);
    }
  }

  /** After `Stop`, and after a failed wait, the loop ends at its next check. */
  lemma LoopStops(acts: seq<Action>)
    ensures var s := Exec(Init(), acts);
            && (s.pc.Checking? && s.isRunning ==> Apply(s, Proceed).pc == Waiting)
            && (s.pc.Checking? && !s.isRunning ==> Apply(Apply(s, Proceed), Proceed).pc == Ended)
            && (s.pc.Waiting? ==>
                  Apply(Apply(Apply(Apply(s, WaitFails), Proceed), Proceed), Proceed).pc == Ended)
            && (Stop in acts ==> !s.isRunning)
  {
    StopIsKept(acts);
    NextCheck(Exec(Init(), acts));
  }

  lemma NextCheck(s: State)
    ensures s.pc.Checking? ==> Apply(s, Proceed).pc == if s.isRunning then Waiting else LoopPc.Closing
    ensures s.pc.Checking? && !s.isRunning ==> Apply(Apply(s, Proceed), Proceed).pc == Ended
    ensures s.pc.Waiting? ==> Apply(Apply(Apply(Apply(s, WaitFails), Proceed), Proceed), Proceed).pc == Ended
  {
    if s.pc.Waiting? {
      var s1 := s.(pc := Picking([]), isRunning := false);
      assert Apply(s, WaitFails) == s1 && Apply(s1, Proceed) == s1.(pc := LoopPc.Checking);
    }
  }

  lemma {:induction false} StopIsKept(acts: seq<Action>)
    ensures Stop in acts ==> !Exec(Init(), acts).isRunning
  {
    if acts != [] {
      var front, a := acts[..|acts| - 1], acts[|acts| - 1];
      StopIsKept(front);
      assert acts == front + [a];
      StopStep(Exec(Init(), front), a);
    }
  }

  lemma StopStep(s: State, a: Action)
    ensures !s.isRunning || a.Stop? ==> !Apply(s, a).isRunning
  {
  }

  // ---------------------------------------------------------------------
  // A task to its end
  // ---------------------------------------------------------------------

  function Worked(s: State, i: nat, n: nat): (s': State)
    requires i < |s.tasks|
    ensures |s'.tasks| == |s.tasks|
    decreases n
  {
    if n == 0 then s else Worked(DoWork(s, i), i, n - 1)
  }

  /** The steps a task has still to take. */
  function StepsLeft(p: Phase): nat {
    match p
    case Queued => 5
    case Handling => 4
    case Closing(second) => if second then 1 else 3
    case Clearing(_) => 2
    case Finished => 0
  }

  lemma WorkCounts(s: State, i: nat)
    requires Inv(s) && i < |s.tasks| && s.tasks[i].phase != Finished
    ensures StepsLeft(DoWork(s, i).tasks[i].phase) == StepsLeft(s.tasks[i].phase) - 1
  {
    assert TaskOk(s, s.tasks[i]);
    if s.tasks[i].phase == Phase.Closing(false) {
      CloseOwn(s, i);
      WorkCloseInv(s, i);
    }
  }

  lemma {:induction false} WorkToTheEnd(s: State, i: nat, n: nat)
    requires Inv(s) && i < |s.tasks| && n == StepsLeft(s.tasks[i].phase)
    ensures Inv(Worked(s, i, n)) && Worked(s, i, n).tasks[i].phase == Finished
    decreases n
  {
    if n > 0 {
      WorkCounts(s, i);
      WorkInv(s, i);
      WorkToTheEnd(DoWork(s, i), i, n - 1);
    }
  }

  /** A worker that takes a task on to its end needs five steps, after which the request is handled
      and the task's own connection is closed. */
  lemma TaskFinishes(acts: seq<Action>, i: nat)
    requires i < |Exec(Init(), acts).tasks|
    ensures var s := Exec(Init(), acts);
            var s' := Worked(s, i, StepsLeft(s.tasks[i].phase));
            && StepsLeft(s.tasks[i].phase) <= 5 && s'.tasks[i].phase == Finished
            && !IsOpen(s'.table, s'.tasks[i].conn) && WasClosed(s'.table, s'.tasks[i].conn)
  {
    var s := Exec(Init(), acts);
    ExecInv(acts);
    WorkToTheEnd(s, i, StepsLeft(s.tasks[i].phase));
    var s' := Worked(s, i, StepsLeft(s.tasks[i].phase));
    assert TaskOk(s', s'.tasks[i]);
    assert IsOpen(s'.table, s'.tasks[i].conn) || WasClosed(s'.table, s'.tasks[i].conn);
  }
}
