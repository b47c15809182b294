/** How a session comes about: connecting, pausing after a failure, and the switch. */
module PlcDialling {
  import opened PlcWorker
  import opened PlcSafety
  import opened PlcRuns

  // ---------- pausing between two attempts ----------

  /** Pieces of 200 ms in a pause, the last one counted in full. */
  function Rounds(ms: int): nat { if ms <= 0 then 0 else (ms + 199) / 200 }

  /** Neither shutdown nor a counted edit. */
  predicate Undisturbed(es: seq<Event>) {
    forall i :: 0 <= i < |es| ==> es[i] != Shutdown && es[i] != EditCommit
  }

  /** The worker stands in a pause and nothing calls it off. */
  predicate Pausing(s: State, waited: nat, total: nat) {
    s.pc == Dial(Wait(waited, total)) && s.running && s.settings.revision == s.settings.bootRev
  }

  lemma PauseStep(s: State, e: Event, waited: nat, total: nat)
    requires Pausing(s, waited, total) && e != Shutdown && e != EditCommit
    ensures
      if !e.Worker? then Pausing(Next(s, e), waited, total)
      else if waited < total then Pausing(Next(s, e), waited + 200, total)
      else Next(s, e).pc == Dial(Top)
  {
  }

  lemma RoundsStep(ms: int)
    ensures Rounds(ms) == if ms > 0 then Rounds(ms - 200) + 1 else 0
  {
  }

  /** Left alone, the worker stays in its pause for all its rounds. */
  lemma {:induction false} PauseIsKept(s: State, es: seq<Event>, waited: nat, total: nat)
    requires Pausing(s, waited, total) && Undisturbed(es) && WorkerSteps(es) <= Rounds(total - waited)
    ensures Pausing(Exec(s, es), waited + 200 * WorkerSteps(es), total)
    decreases |es|
  {
    hide Next, Pausing, Rounds;
    if es != [] {
      RoundsStep(total - waited);
      PauseStep(s, es[0], waited, total);
      PauseIsKept(Next(s, es[0]), es[1..], if es[0].Worker? then waited + 200 else waited, total);
      assert es == [es[0]] + es[1..];
      ExecFront(s, es[0], es[1..]);
    }
  }

  /** The step after them starts the next attempt; shutdown or a counted edit starts it at once. */
  lemma PauseEnds(s: State, es: seq<Event>, a: Answer, waited: nat, total: nat)
    requires Pausing(s, waited, total) && Undisturbed(es) && WorkerSteps(es) == Rounds(total - waited)
    ensures Exec(s, es + [Worker(a)]).pc == Dial(Top)
    ensures Next(Next(s, Shutdown), Worker(a)).pc == Dial(Top)
    ensures s.settings.pendingBumps > 0 ==> Next(Next(s, EditCommit), Worker(a)).pc == Dial(Top)
  {
    PauseIsKept(s, es, waited, total);
    assert (es + [Worker(a)])[..|es|] == es;
    PauseStep(Exec(s, es), Worker(a), waited + 200 * WorkerSteps(es), total);
  }

  /** A PLC that does not answer is tried again after 3 s. */
  lemma UnreachablePauses(s: State, a: Answer, b: Answer, c: Answer)
    requires s.pc == Dial(Probe) && !a.ok
    ensures
      var t := Exec(s, [Worker(a), Worker(b), Worker(c)]);
      && t.pc == Dial(Wait(0, 3000)) && t.link == Link(false, false, s.link.session, Unreachable)
      && t.running == s.running && t.settings == s.settings
  {
    ExecThree(s, Worker(a), Worker(b), Worker(c));
    hide Exec, RunStep, CloseStep;
  }

  /** One that refuses the connection after 5 s. */
  lemma RefusedPauses(s: State, a: Answer, b: Answer, c: Answer)
    requires s.pc == Dial(Connect) && !a.ok
    ensures
      var t := Exec(s, [Worker(a), Worker(b), Worker(c)]);
      && t.pc == Dial(Wait(0, 5000)) && t.link == Link(false, false, false, Unreachable)
      && t.running == s.running && t.settings == s.settings
  {
    ExecThree(s, Worker(a), Worker(b), Worker(c));
    hide Exec, RunStep, CloseStep;
  }

  /** So is one whose nodes cannot be set up; what is wrong with them stays on show, and the
      connection is given up. */
  lemma BadSetupPauses(s: State, a: Answer, b: Answer, c: Answer, d: Answer)
    requires s.pc == Dial(Setup) && !a.ok
    ensures
      var t := Next(Exec(s, [Worker(a), Worker(b), Worker(c)]), Worker(d));
      && t.pc == Dial(Wait(0, 5000)) && t.link == Link(false, b.entries, false, SetupFailed)
      && t.running == s.running && t.settings == s.settings
  {
    ExecThree(s, Worker(a), Worker(b), Worker(c));
    hide Exec, RunStep, CloseStep;
  }

  /** Switched off, the worker shows no connection and looks again after ten rounds. */
  lemma SwitchedOffPauses(s: State, a: Answer, b: Answer, c: Answer)
    requires s.pc == Dial(CheckEnabled) && !s.settings.opcEnabled
    ensures
      var t := Exec(s, [Worker(a), Worker(b), Worker(c)]);
      && t.pc == Dial(OffWait(0)) && t.link == Link(false, false, s.link.session, Disabled)
      && t.running == s.running
  {
    ExecThree(s, Worker(a), Worker(b), Worker(c));
    hide Exec, RunStep, CloseStep;
  }

  lemma OffStep(s: State, e: Event, i: nat)
    requires s.pc == Dial(OffWait(i)) && s.running && e != Shutdown && (e.Worker? ==> i < 10)
    ensures Next(s, e).running && Next(s, e).pc == if e.Worker? then Dial(OffWait(i + 1)) else s.pc
  {
  }

  lemma {:induction false} OffPauseIsKept(s: State, es: seq<Event>, i: nat)
    requires s.pc == Dial(OffWait(i)) && s.running && WorkerSteps(es) <= 10 - i && Shutdown !in es
    ensures Exec(s, es).pc == Dial(OffWait(i + WorkerSteps(es))) && Exec(s, es).running
    decreases |es|
  {
    if es != [] {
      hide Next;
      assert es[0] in es;
      OffStep(s, es[0], i);
      OffPauseIsKept(Next(s, es[0]), es[1..], if es[0].Worker? then i + 1 else i);
      assert es == [es[0]] + es[1..];
      ExecFront(s, es[0], es[1..]);
    }
  }

  lemma OffPauseEnds(s: State, es: seq<Event>, a: Answer)
    requires s.pc == Dial(OffWait(0)) && s.running && WorkerSteps(es) == 10 && Shutdown !in es
    ensures Exec(s, es + [Worker(a)]).pc == Dial(Top)
    ensures Next(Next(s, Shutdown), Worker(a)).pc == Dial(Top)
  {
    OffPauseIsKept(s, es, 0);
    assert (es + [Worker(a)])[..|es|] == es;
  }

  // ---------- opening a session ----------

  /** The calls of this step succeed, the switch stays on and no shutdown comes. */
  predicate Favourable(e: Event) {
    match e
    case Worker(a) => a.ok
    case EditStart(_, opc, _) => opc
    case EditLive(opc, _) => opc
    case Shutdown => false
    case _ => true
  }

  /** Most worker steps up to the operating loop. */
  function StepsLeft(d: Dialling): nat {
    match d
    case StartWatchdog => 1
    case ReadyDiag => 2
    case ReadyStatus => 3
    case Setup => 4
    case ConnectedStatus => 5
    case Connect => 6
    case Probe => 7
    case DialStatus => 8
    case DialClear => 9
    case CheckEnabled => 10
    case ReadRevision => 11
    case Apply => 12
    case Top => 13
    case Wait(waited, total) => 14 + Rounds(total - waited)
    case FailStatus(ms) => 15 + Rounds(ms)
    case FailClear(ms) => 16 + Rounds(ms)
    case SetupDisconnect => 40
    case SetupStatus => 41
    case SetupDiag => 42
    case OffWait(i) => if i < 10 then 24 - i else 14
    case OffStatus => 25
    case OffClear => 26
  }

  lemma TowardsSession(s: State, e: Event)
    requires s.pc.Dial? && s.running && s.settings.opcEnabled && Favourable(e)
    ensures
      var t := Next(s, e);
      && t.running && t.settings.opcEnabled
      && (t.pc.Dial? || (t.pc == Run(LoopTop) && e.Worker? && s.pc == Dial(StartWatchdog)))
      && (t.pc.Dial? ==> if e.Worker? then StepsLeft(t.pc.dial) < StepsLeft(s.pc.dial) else t.pc == s.pc)
  {
    hide RunStep, CloseStep, Rounds;
    if s.pc.dial.Wait? {
      RoundsStep(s.pc.dial.total - s.pc.dial.waited);
    }
    SetupPause();
  }

  lemma SetupPause()
    ensures Rounds(5000) == 25
  {
  }

  lemma SessionStarts(s: State, a: Answer)
    requires SessionInv(s) && s.pc == Dial(StartWatchdog)
    ensures
      var t := Next(s, Worker(a));
      && t.pc == Run(LoopTop) && t.link.session && t.link.connected && t.watch == Watch(WatchTop, true, false)
      && t.clock.lastBeat == t.clock.now && t.clock.heartbeat == 0
  {
  }

  /** From anywhere outside a session: with answering calls and the switch on, the worker opens
      one, at the latest when its pause is over, whatever happens in between; then "connected"
      is on show and the watchdog runs. */
  lemma {:induction false} SessionOpens(s: State, es: seq<Event>) returns (p: nat)
    requires SessionInv(s) && s.pc.Dial? && s.running && s.settings.opcEnabled
    requires forall i :: 0 <= i < |es| ==> Favourable(es[i])
    requires WorkerSteps(es) >= StepsLeft(s.pc.dial)
    ensures p <= |es| && WorkerSteps(es[..p]) <= StepsLeft(s.pc.dial)
    ensures
      var t := Exec(s, es[..p]);
      && t.pc == Run(LoopTop) && t.link.session && t.link.connected && t.watch == Watch(WatchTop, true, false)
    decreases |es|
  {
    hide Next, SessionInv, Favourable;
    SomeStepLeft(s.pc.dial);
    var t := Next(s, es[0]);
    TowardsSession(s, es[0]);
    NextKeepsSession(s, es[0]);
    var rest := es[1..];
    var q := 0;
    if t.pc.Dial? {
      q := SessionOpens(t, rest);
    } else {
      SessionStarts(s, es[0].answer);
    }
    p := q + 1;
    assert es[..p] == [es[0]] + rest[..q];
    assert es[..p][1..] == rest[..q];
    ExecFront(s, es[0], rest[..q]);
  }

  lemma SomeStepLeft(d: Dialling)
    ensures StepsLeft(d) > 0
  {
  }

  // ---------- switched off ----------

  /** Where the worker may be without a connection while the switch is off. */
  predicate Idle(pc: Pc) {
    match pc
    case Dial(d) => d.Top? || d.Apply? || d.ReadRevision? || d.CheckEnabled? || d.OffClear? || d.OffStatus? ||
                    d.OffWait? || d.FailClear? || d.FailStatus? || d.Wait?
    case _ => pc.Exited?
  }

  /** The switch stays off. */
  predicate KeepsOff(es: seq<Event>) {
    forall i :: 0 <= i < |es| ==> (es[i].EditStart? ==> !es[i].opc) && (es[i].EditLive? ==> !es[i].opcNow)
  }

  lemma IdleStep(s: State, e: Event)
    requires Idle(s.pc) && !s.settings.opcEnabled
    requires (e.EditStart? ==> !e.opc) && (e.EditLive? ==> !e.opcNow)
    ensures Idle(Next(s, e).pc) && !Next(s, e).settings.opcEnabled && Next(s, e).link.session == s.link.session
  {
    hide RunStep, CloseStep;
  }

  /** Switched off and without a connection, the worker does not open one in any run. */
  lemma {:induction false} StaysOff(s: State, es: seq<Event>)
    requires Idle(s.pc) && !s.settings.opcEnabled && KeepsOff(es)
    ensures Idle(Exec(s, es).pc) && Exec(s, es).link.session == s.link.session
    decreases |es|
  {
    hide Next, Idle;
    if es != [] {
      IdleStep(s, es[0]);
      StaysOff(Next(s, es[0]), es[1..]);
      assert es == [es[0]] + es[1..];
      ExecFront(s, es[0], es[1..]);
    }
  }
}
