/** Runs from the start of the worker that lose a request or miss an edit. */
module PlcExamples {
  import opened PlcWorker
  import opened PlcRuns

  /** The call succeeds; a transfer ends without polling. */
  const DONE := Answer(true, false, false, false)

  function OkRun(n: nat): seq<Event> {
    if n == 0 then [] else OkRun(n - 1) + [Worker(DONE)]
  }

  lemma OkRunStep(s: State, n: nat)
    ensures Exec(s, OkRun(n + 1)) == WorkerStep(Exec(s, OkRun(n)), DONE)
    ensures Exec(s, OkRun(0)) == s
  {
    hide WorkerStep;
    assert OkRun(n + 1)[..|OkRun(n)|] == OkRun(n);
  }

  lemma FiveSteps(s: State)
    ensures Exec(s, OkRun(5))
            == WorkerStep(WorkerStep(WorkerStep(WorkerStep(WorkerStep(s, DONE), DONE), DONE), DONE), DONE)
  {
    hide WorkerStep, OkRun;
    OkRunStep(s, 0);
    OkRunStep(s, 1);
    OkRunStep(s, 2);
    OkRunStep(s, 3);
    OkRunStep(s, 4);
  }

  lemma Dials(s: State)
    requires s.pc == Dial(CheckEnabled) && s.settings.opcEnabled
    ensures Exec(s, OkRun(5)).pc == Dial(ConnectedStatus)
    ensures Exec(s, OkRun(5)) == s.(pc := Dial(ConnectedStatus), link := Exec(s, OkRun(5)).link)
  {
    hide OkRun, Exec, RunStep, CloseStep;
    FiveSteps(s);
  }

  lemma Connects(s: State)
    requires s.pc == Dial(ConnectedStatus)
    ensures
      var t := Exec(s, OkRun(5));
      && t.pc == Run(LoopTop) && t.settings == s.settings && t.plc == s.plc && t.running == s.running
      && !t.watch.linkDown && t.clock.now == t.clock.lastDiag == t.clock.lastBeat
  {
    hide OkRun, Exec, RunStep, CloseStep;
    FiveSteps(s);
  }

  lemma RunsToSwitch(s: State)
    requires s.pc == Run(LoopTop) && s.running && s.settings.revision == s.settings.bootRev && !s.watch.linkDown
    requires s.settings.opcEnabled && s.clock.now == s.clock.lastDiag
    ensures Exec(s, OkRun(5)) == s.(pc := Run(ReadSwitch))
  {
    hide OkRun, Exec, DialStep, CloseStep;
    FiveSteps(s);
  }

  lemma RunsToTransfer(s: State)
    requires s.pc == Run(ReadSwitch) && s.settings.dataEnabled && s.clock.now == s.clock.lastBeat
    requires !s.plc.update.bit && !s.plc.show.bit && s.plc.transfer.bit
    ensures Exec(s, OkRun(5)).pc == Run(Transferring)
  {
    hide OkRun, Exec, DialStep, CloseStep;
    FiveSteps(s);
  }

  lemma ReadsSettings(s: State)
    requires s.pc == Dial(Top) && s.running
    ensures Exec(s, OkRun(2)) == s.(pc := Dial(ReadRevision), settings := s.settings.(used := s.settings.stored))
  {
    hide OkRun, Exec, RunStep, CloseStep;
    OkRunStep(s, 0);
    OkRunStep(s, 1);
    assert WorkerStep(s, DONE) == s.(pc := Dial(Apply));
  }

  lemma ReadsRevision(s: State)
    requires s.pc == Dial(ReadRevision)
    ensures Exec(s, OkRun(1))
            == s.(pc := Dial(CheckEnabled), settings := s.settings.(bootRev := s.settings.revision))
  {
    hide OkRun, Exec, RunStep, CloseStep;
    OkRunStep(s, 0);
  }

  /** From the reading of the revision to the operating loop. */
  function ToSession(): seq<Event> { OkRun(1) + (OkRun(5) + OkRun(5)) }

  lemma OpensSession(s: State)
    requires s.pc == Dial(ReadRevision) && s.settings.opcEnabled
    ensures
      var t := Exec(s, ToSession());
      && t.pc == Run(LoopTop) && t.settings == s.settings.(bootRev := s.settings.revision) && t.plc == s.plc
      && t.running == s.running && !t.watch.linkDown && t.clock.now == t.clock.lastDiag == t.clock.lastBeat
  {
    hide Next, OkRun;
    ExecConcat(s, OkRun(1), OkRun(5) + OkRun(5));
    ReadsRevision(s);
    var u := Exec(s, OkRun(1));
    ExecConcat(u, OkRun(5), OkRun(5));
    Dials(u);
    Connects(Exec(u, OkRun(5)));
  }

  /** A run from the start of the worker into a transfer. */
  function IntoTransfer(): seq<Event> { OkRun(2) + (ToSession() + (OkRun(5) + OkRun(5))) }

  lemma ReachesTransfer(s: State)
    requires Initial(s) && s.running && s.settings.opcEnabled && s.settings.dataEnabled
    requires !s.plc.update.bit && !s.plc.show.bit && s.plc.transfer.bit
    ensures Exec(s, IntoTransfer()).pc == Run(Transferring)
  {
    hide Next, OkRun, ToSession;
    ExecConcat(s, OkRun(2), ToSession() + (OkRun(5) + OkRun(5)));
    ReadsSettings(s);
    var t := Exec(s, OkRun(2));
    ExecConcat(t, ToSession(), OkRun(5) + OkRun(5));
    OpensSession(t);
    var u := Exec(t, ToSession());
    ExecConcat(u, OkRun(5), OkRun(5));
    RunsToSwitch(u);
    RunsToTransfer(Exec(u, OkRun(5)));
  }

  /** From the start of the worker with a transfer requested: the transfer begins, the PLC
      asks for another one, and this second request is lost. */
  lemma RequestIsLostInARun(s: State)
    requires Initial(s) && s.running && s.settings.opcEnabled && s.settings.dataEnabled
    requires !s.plc.update.bit && !s.plc.show.bit && s.plc.transfer.bit
    ensures Lost(Exec(s, IntoTransfer() + [Raise(ReadProject), Worker(DONE), Worker(DONE)]))
  {
    hide Next, IntoTransfer, Lost;
    ReachesTransfer(s);
    ExecConcat(s, IntoTransfer(), [Raise(ReadProject), Worker(DONE), Worker(DONE)]);
    RaiseDuringTransferIsLost(Exec(s, IntoTransfer()), DONE, DONE);
  }

  /** From the start of the worker: an edit between its two reads, and it works in a session
      with the old settings although its revision is the stored one. */
  lemma EditIsMissedInARun(s: State, value: int)
    requires Initial(s) && s.running && s.settings.pendingBumps == 0 && value != s.settings.stored
    ensures
      var es := OkRun(2) + ([EditStart(value, true, true), EditCommit] + ToSession());
      var t := Exec(s, es);
      && t.pc == Run(LoopTop) && t.settings.revision == t.settings.bootRev && t.settings.pendingBumps == 0
      && t.settings.used == s.settings.stored && t.settings.stored == value
  {
    hide OkRun, ToSession, WorkerStep;
    ExecConcat(s, OkRun(2), [EditStart(value, true, true), EditCommit] + ToSession());
    ReadsSettings(s);
    var t := Exec(s, OkRun(2));
    ExecConcat(t, [EditStart(value, true, true), EditCommit], ToSession());
    ExecFront(t, EditStart(value, true, true), [EditCommit]);
    ExecFront(Next(t, EditStart(value, true, true)), EditCommit, []);
    assert [EditStart(value, true, true), EditCommit] == [EditStart(value, true, true)] + [EditCommit];
    assert [EditCommit] == [EditCommit] + [];
    OpensSession(Exec(t, [EditStart(value, true, true), EditCommit]));
  }
}
