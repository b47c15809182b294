/** What the connection thread and its watchdog do about changed settings, a lost link, the
    switch, shutdown and a failed attempt. */
module PlcReaction {
  import opened PlcWorker
  import opened PlcSafety
  import opened PlcRuns

  // ---------- leaving a session ----------

  /** What the check at `at` finds. */
  predicate Broken(s: State, at: Operating) {
    match at
    case LoopTop => !s.running
    case CheckRevision => s.settings.revision > s.settings.bootRev
    case CheckLink => s.watch.linkDown
    case CheckSwitch => !s.settings.opcEnabled
    case _ => false
  }

  /** It stays so as long as the session lasts. */
  predicate StaysBroken(s: State, es: seq<Event>, at: Operating)
    decreases |es|
  {
    s.pc.Run? ==> Broken(s, at) && (es != [] ==> StaysBroken(Next(s, es[0]), es[1..], at))
  }

  /** A transfer is not waited for after shutdown or with the link down: its next poll ends it. */
  function PollsLeft(s: State, es: seq<Event>, at: Operating): nat {
    if at == LoopTop || at == CheckLink then 0 else TransferPolls(s, es)
  }

  lemma AtCheckLeaves(s: State, at: Operating, a: Answer)
    requires s.pc == Run(at) && Broken(s, at)
    ensures RunStep(s, at, a).pc.Close?
  {
  }

  lemma TransferGoesOn(s: State, e: Event)
    requires GoesOn(s, e)
    ensures e.Worker? && Next(s, e).pc == s.pc && s.running && !s.watch.linkDown
  {
  }

  lemma TowardsLeaving(s: State, e: Event, at: Operating)
    requires s.pc.Run? && Broken(s, at)
    ensures Next(s, e).pc.Close? || Next(s, e).pc.Run?
    ensures !e.Worker? ==> Next(s, e).pc == s.pc
    ensures e.Worker? && Next(s, e).pc.Run? && !GoesOn(s, e) ==>
              StepsTo(Next(s, e).pc.run, at) < StepsTo(s.pc.run, at)
  {
    match e
    case Worker(a) =>
      StepForward(s, s.pc.run, a);
      CheckPlaces(s.pc.run, at);
      if s.pc.run == at {
        AtCheckLeaves(s, at, a);
      }
      hide RunStep, Broken, Place;
    case _ =>
  }

  lemma CheckPlaces(r: Operating, at: Operating)
    requires at.LoopTop? || at.CheckRevision? || at.CheckLink? || at.CheckSwitch?
    ensures Place(LoopTop) == 0 && Place(at) <= 4 && Place(r) <= 17
    ensures Place(r) == Place(at) ==> r == at
  {
  }

  /** For every interleaving and all answers: a session in which a check would fail, and goes
      on failing, is left within eighteen steps of the worker, plus one for each time a
      transfer goes on where the check is about settings. */
  lemma {:induction false} SessionEnds(s: State, es: seq<Event>, at: Operating) returns (p: nat)
    requires s.pc.Run? && StaysBroken(s, es, at)
    requires WorkerSteps(es) >= StepsTo(s.pc.run, at) + PollsLeft(s, es, at)
    ensures p <= |es| && Exec(s, es[..p]).pc.Close?
    ensures StepsTo(s.pc.run, at) <= 18
    ensures WorkerSteps(es[..p]) <= StepsTo(s.pc.run, at) + PollsLeft(s, es[..p], at)
    decreases |es|
  {
    hide Next, GoesOn;
    CheckPlaces(s.pc.run, at);
    var t := Next(s, es[0]);
    TowardsLeaving(s, es[0], at);
    if GoesOn(s, es[0]) {
      TransferGoesOn(s, es[0]);
    }
    var rest := es[1..];
    var q := 0;
    if t.pc.Run? {
      q := SessionEnds(t, rest, at);
    }
    p := q + 1;
    assert es[..p] == [es[0]] + rest[..q];
    assert es[..p][1..] == rest[..q];
    ExecFront(s, es[0], rest[..q]);
  }

  lemma RevisionStep(s: State, e: Event)
    requires s.pc.Run?
    ensures Broken(s, CheckRevision) && Next(s, e).pc.Run? ==> Broken(Next(s, e), CheckRevision)
    ensures Broken(s, LoopTop) && Next(s, e).pc.Run? ==> Broken(Next(s, e), LoopTop)
  {
    match e
    case Worker(a) =>
      StepForward(s, s.pc.run, a);
      hide RunStep;
    case _ =>
  }

  lemma {:induction false} RevisionStays(s: State, es: seq<Event>, at: Operating)
    requires s.pc.Run? ==> Broken(s, at) && (at == CheckRevision || at == LoopTop)
    ensures StaysBroken(s, es, at)
    decreases |es|
  {
    hide Next, Broken;
    if es != [] && s.pc.Run? {
      RevisionStep(s, es[0]);
      RevisionStays(Next(s, es[0]), es[1..], at);
    }
  }

  /** A session whose settings were changed is left, whatever else happens. */
  lemma SettingsChangeEndsSession(s: State, es: seq<Event>) returns (p: nat)
    requires s.pc.Run? && s.settings.revision > s.settings.bootRev
    requires WorkerSteps(es) >= StepsTo(s.pc.run, CheckRevision) + TransferPolls(s, es)
    ensures p <= |es| && Exec(s, es[..p]).pc.Close?
    ensures StepsTo(s.pc.run, CheckRevision) <= 18
    ensures WorkerSteps(es[..p]) <= StepsTo(s.pc.run, CheckRevision) + TransferPolls(s, es[..p])
  {
    RevisionStays(s, es, CheckRevision);
    p := SessionEnds(s, es, CheckRevision);
  }

  // ---------- a lost link ----------

  /** While a session lasts its watchdog lives, up to shutdown. */
  predicate WatchAlive(s: State) {
    s.pc.Run? ==> s.watch.loopRunning && !s.watch.pc.NoWatchdog? && (s.watch.pc.WatchDone? ==> !s.running)
  }

  lemma NextKeepsWatch(s: State, e: Event)
    requires WatchAlive(s)
    ensures WatchAlive(Next(s, e))
  {
    match e
    case Worker(a) =>
      match s.pc {
        case Dial(_) =>
        case Run(r) =>
          StepForward(s, r, a);
          hide RunStep;
        case Close(_) =>
        case Exited =>
      }
    case _ =>
  }

  lemma {:induction false} WatchdogLives(s: State, es: seq<Event>)
    requires Initial(s)
    ensures WatchAlive(Exec(s, es))
  {
    hide Next;
    if es != [] {
      WatchdogLives(s, es[..|es| - 1]);
      NextKeepsWatch(Exec(s, es[..|es| - 1]), es[|es| - 1]);
    }
  }

  function WatchSteps(es: seq<Event>): nat {
    if es == [] then 0 else (if es[0].Watchdog? then 1 else 0) + WatchSteps(es[1..])
  }

  /** The PLC cannot be reached. */
  predicate NoProbeWorks(es: seq<Event>) {
    forall i :: 0 <= i < |es| ==> es[i].Watchdog? ==> !es[i].reachable
  }

  /** Watchdog steps until a failing probe is marked; the pause between two probes is fifteen. */
  function ToMark(w: WatchPc): nat {
    match w
    case NoWatchdog => 0
    case WatchDone => 0
    case WatchMark => 1
    case WatchProbe => 2
    case WatchTop => 3
    case WatchSleep(i) => if i < 15 then 19 - i else 4
    case WatchUp => 20
    case WatchStatus => 20
    case WatchClear => 21
  }

  /** The loss is marked, and no earlier success is about to overwrite that. */
  predicate Marked(w: Watch) { w.linkDown && !w.pc.WatchUp? }

  lemma TowardsMark(s: State, e: Event)
    requires s.pc.Run? && WatchAlive(s) && s.running && !Marked(s.watch) && (e.Watchdog? ==> !e.reachable)
    ensures
      var t := Next(s, e);
      && (t.pc.Run? || t.pc.Close?) && WatchAlive(t) && ToMark(s.watch.pc) > 0
      && (t.pc.Run? && t.running && !Marked(t.watch) ==>
            ToMark(t.watch.pc) == ToMark(s.watch.pc) - (if e.Watchdog? then 1 else 0))
  {
    NextKeepsWatch(s, e);
    match e
    case Worker(a) =>
      StepForward(s, s.pc.run, a);
      hide RunStep;
    case _ =>
  }

  /** While no probe works the loss is marked within 21 steps of the watchdog, unless the
      session ends or shutdown comes first. */
  lemma {:induction false} LinkLossIsMarked(s: State, es: seq<Event>) returns (p: nat)
    requires s.pc.Run? && WatchAlive(s) && NoProbeWorks(es) && WatchSteps(es) >= ToMark(s.watch.pc)
    ensures p <= |es| && WatchSteps(es[..p]) <= ToMark(s.watch.pc) <= 21
    ensures
      var t := Exec(s, es[..p]);
      t.pc.Close? || (t.pc.Run? && (!t.running || Marked(t.watch)))
    decreases |es|
  {
    hide Next, WatchAlive, Marked;
    if !s.running || Marked(s.watch) {
      p := 0;
    } else {
      LastMark(s, es);
      var t := Next(s, es[0]);
      TowardsMark(s, es[0]);
      var rest := es[1..];
      var q := 0;
      if t.pc.Run? && t.running && !Marked(t.watch) {
        q := LinkLossIsMarked(t, rest);
      }
      p := q + 1;
      assert es[..p] == [es[0]] + rest[..q];
      assert es[..p][1..] == rest[..q];
      ExecFront(s, es[0], rest[..q]);
    }
  }

  lemma LastMark(s: State, es: seq<Event>)
    requires s.pc.Run? && WatchAlive(s) && s.running && WatchSteps(es) >= ToMark(s.watch.pc)
    ensures es != [] && ToMark(s.watch.pc) > 0
  {
  }

  lemma MarkStays(s: State, e: Event)
    requires s.pc.Run? && Marked(s.watch) && (e.Watchdog? ==> !e.reachable)
    ensures Next(s, e).pc.Run? ==> Marked(Next(s, e).watch)
    ensures Broken(s, CheckLink)
  {
    match e
    case Worker(a) =>
      StepForward(s, s.pc.run, a);
      hide RunStep;
    case _ =>
  }

  lemma {:induction false} LinkStaysDown(s: State, es: seq<Event>)
    requires (s.pc.Run? ==> Marked(s.watch)) && NoProbeWorks(es)
    ensures StaysBroken(s, es, CheckLink)
    decreases |es|
  {
    hide Next, Marked;
    if s.pc.Run? {
      MarkStays(s, if es == [] then Shutdown else es[0]);
      if es != [] {
        LinkStaysDown(Next(s, es[0]), es[1..]);
      }
    }
  }

  lemma {:induction false} StepsAdd(es: seq<Event>, fs: seq<Event>)
    ensures WorkerSteps(es + fs) == WorkerSteps(es) + WorkerSteps(fs)
  {
    if es == [] {
      assert es + fs == fs;
    } else {
      assert (es + fs)[1..] == es[1..] + fs;
      StepsAdd(es[1..], fs);
    }
  }

  lemma MarkedSessionEnds(s: State, es: seq<Event>) returns (p: nat)
    requires s.pc.Run? && (!s.running || Marked(s.watch)) && NoProbeWorks(es) && WorkerSteps(es) >= 18
    ensures p <= |es| && Exec(s, es[..p]).pc.Close?
  {
    hide Next, Exec, Marked, Broken, Place;
    var at := if s.running then CheckLink else LoopTop;
    if s.running {
      LinkStaysDown(s, es);
    } else {
      ShutdownIsBroken(s);
      RevisionStays(s, es, LoopTop);
    }
    StepsBound(s.pc.run, at);
    p := SessionEnds(s, es, at);
  }

  lemma NoProbeWorksIn(es: seq<Event>, fs: seq<Event>, q: nat)
    requires NoProbeWorks(es + fs) && q <= |es|
    ensures NoProbeWorks(es) && NoProbeWorks(es[q..] + fs)
  {
    assert forall i :: 0 <= i < |es| ==> es[i] == (es + fs)[i];
    var rest := es[q..] + fs;
    assert forall i :: 0 <= i < |rest| ==> rest[i] == (es + fs)[q + i];
  }

  /** Hence a session whose PLC can no longer be reached is left: the watchdog makes enough
      steps in `es`, then the worker in `fs`, a transfer under way included. */
  lemma LinkLossEndsSession(s: State, es: seq<Event>, fs: seq<Event>) returns (p: nat)
    requires s.pc.Run? && WatchAlive(s) && NoProbeWorks(es + fs)
    requires WatchSteps(es) >= 21 && WorkerSteps(fs) >= 18
    ensures p <= |es + fs| && Exec(s, (es + fs)[..p]).pc.Close?
  {
    hide Exec, WatchAlive, Marked, NoProbeWorks, WatchSteps, WorkerSteps;
    NoProbeWorksIn(es, fs, 0);
    MarkBound(s.watch.pc);
    var q := LinkLossIsMarked(s, es);
    var rest := es[q..] + fs;
    p := q;
    assert (es + fs)[..q] == es[..q];
    if !Exec(s, es[..q]).pc.Close? {
      NoProbeWorksIn(es, fs, q);
      StepsAdd(es[q..], fs);
      var r := MarkedSessionEnds(Exec(s, es[..q]), rest);
      p := q + r;
      assert (es + fs)[..p] == es[..q] + rest[..r];
      ExecConcat(s, es[..q], rest[..r]);
    }
  }

  lemma MarkBound(w: WatchPc)
    ensures ToMark(w) <= 21
  {
  }

  lemma StepsBound(r: Operating, at: Operating)
    requires at == CheckLink || at == LoopTop
    ensures StepsTo(r, at) <= 18
  {
  }

  lemma ShutdownIsBroken(s: State)
    ensures Broken(s, LoopTop) <==> !s.running
  {
  }

  /** A marked loss goes off show: after the watchdog's next steps neither "connected" nor
      diagnostics are left, and on its own it never brings them back. */
  lemma LossIsShown(s: State, x: bool, y: bool, z: bool)
    requires s.watch.pc == WatchMark
    ensures
      var t := Exec(s, [Watchdog(x), Watchdog(y), Watchdog(z)]);
      t.watch == s.watch.(pc := WatchSleep(0), linkDown := true) && !t.link.connected && !t.link.diag
  {
    ExecThree(s, Watchdog(x), Watchdog(y), Watchdog(z));
    hide Exec, WorkerStep;
  }

  lemma OnlyWorkerShows(s: State, e: Event)
    requires !e.Worker?
    ensures Next(s, e).link.connected ==> s.link.connected
    ensures Next(s, e).link.diag ==> s.link.diag
    ensures Next(s, e).link.session == s.link.session
  {
  }

  // ---------- the way out ----------

  /** Steps of both threads from joining the watchdog to the next attempt. */
  function ClosingLeft(s: State): nat
    requires s.pc.Close?
  {
    CloseRank(s.pc.close) - 1 + WatchRank(s.watch.pc)
  }

  /** The watchdog was told to end. */
  predicate Told(s: State) {
    s.pc.Close? && s.pc != Close(StopWatchdog) && (s.pc == Close(Join) ==> !s.watch.loopRunning)
  }

  lemma ClosingCounts(s: State, e: Event)
    requires Told(s) && SessionInv(s)
    ensures
      var t := Next(s, e);
      && (Told(t) || (t.pc == Dial(Top) && e.Worker? && ClosingLeft(s) == 1))
      && (Told(t) ==> if OwnStep(s, e) then ClosingLeft(t) < ClosingLeft(s) else ClosingLeft(t) == ClosingLeft(s))
      && (!Told(t) ==> OwnStep(s, e))
  {
    hide DialStep, RunStep;
  }

  /** Told to end, the watchdog does, and the worker starts over: in every interleaving, after
      at most as many steps of the two as are left, of which one is always possible. */
  lemma {:induction false} SessionCloses(s: State, es: seq<Event>) returns (p: nat)
    requires Told(s) && SessionInv(s) && OwnSteps(s, es) >= ClosingLeft(s)
    ensures p <= |es| && Exec(s, es[..p]).pc == Dial(Top)
    ensures OwnSteps(s, es[..p]) <= ClosingLeft(s) <= 10
    ensures !WorkerBlocked(s) || !WatchdogOver(s)
    decreases |es|
  {
    NotStuck(s);
    ClosingBound(s);
    hide Next, SessionInv, OwnStep, Told, WorkerBlocked, WatchdogOver;
    var t := Next(s, es[0]);
    ClosingCounts(s, es[0]);
    NextKeepsSession(s, es[0]);
    var rest := es[1..];
    var q := 0;
    if Told(t) {
      q := SessionCloses(t, rest);
    }
    p := q + 1;
    assert es[..p] == [es[0]] + rest[..q];
    assert es[..p][0] == es[0] && es[..p][1..] == rest[..q];
    ExecFront(s, es[0], rest[..q]);
  }

  lemma ClosingBound(s: State)
    requires Told(s)
    ensures 0 < ClosingLeft(s) <= 10
  {
  }

  lemma StopTells(s: State, a: Answer)
    requires s.pc == Close(StopWatchdog)
    ensures Told(Next(s, Worker(a))) && ClosingLeft(Next(s, Worker(a))) <= 10
  {
  }

  /** From the start of closing: one step of the worker tells the watchdog. */
  lemma ClosingCompletes(s: State, a: Answer, es: seq<Event>) returns (p: nat)
    requires s.pc == Close(StopWatchdog) && SessionInv(s) && OwnSteps(Next(s, Worker(a)), es) >= 10
    ensures p <= |es| && Exec(s, [Worker(a)] + es[..p]).pc == Dial(Top)
  {
    hide Next, SessionInv, Told, OwnSteps;
    StopTells(s, a);
    NextKeepsSession(s, Worker(a));
    p := SessionCloses(Next(s, Worker(a)), es);
    ExecFront(s, Worker(a), es[..p]);
  }

  // ---------- the mark and the probes ----------

  /** Whether the last probe of the session failed. */
  predicate ProbeFailed(s: State, es: seq<Event>) {
    es != [] &&
    var before := es[..|es| - 1];
    var t := Exec(s, before);
    var e := es[|es| - 1];
    if e.Watchdog? && t.watch.pc.WatchProbe? then !e.reachable
    else if e.Worker? && t.pc == Dial(StartWatchdog) then false
    else ProbeFailed(s, before)
  }

  predicate ProbeInv(s: State, failed: bool) {
    HoldsWatchdog(s.pc) ==>
      match s.watch.pc
      case WatchMark => failed
      case WatchUp => !failed
      case _ => s.watch.linkDown <==> failed
  }

  lemma NextKeepsProbe(s: State, e: Event, failed: bool)
    requires ProbeInv(s, failed)
    ensures
      var after := if e.Watchdog? && s.watch.pc.WatchProbe? then !e.reachable
                   else if e.Worker? && s.pc == Dial(StartWatchdog) then false
                   else failed;
      ProbeInv(Next(s, e), after)
  {
    match e
    case Worker(a) =>
      match s.pc {
        case Dial(_) =>
        case Run(r) =>
          StepForward(s, r, a);
          hide RunStep;
        case Close(_) =>
        case Exited =>
      }
    case _ =>
  }

  /** In every run: while the watchdog has nothing to store, the link counts as down exactly
      if the last probe of the session failed. */
  lemma {:induction false} LinkDownIsLastProbe(s: State, es: seq<Event>)
    requires Initial(s)
    ensures ProbeInv(Exec(s, es), ProbeFailed(s, es))
  {
    hide Next;
    if es != [] {
      var before := es[..|es| - 1];
      LinkDownIsLastProbe(s, before);
      NextKeepsProbe(Exec(s, before), es[|es| - 1], ProbeFailed(s, before));
    }
  }

  // ---------- heartbeat and diagnostics are fresh ----------

  /** Whether the worker's next step looks whether a heartbeat is due. */
  predicate BeatPoint(s: State, a: Answer) {
    s.pc.Run? && (s.pc.run.Beat? || (s.pc.run.Transferring? && a.polls))
  }

  /** After every look the last heartbeat is less than a second old; one is written exactly
      if it was not, and its success is on show. */
  lemma BeatIsFresh(s: State, a: Answer)
    requires BeatPoint(s, a)
    ensures
      var t := Next(s, Worker(a));
      var due := s.clock.now - s.clock.lastBeat >= 1000;
      && t.clock.now == s.clock.now && t.clock.now - t.clock.lastBeat < 1000
      && t.clock.beats == s.clock.beats + (if due then [BeatRecord(s.clock.heartbeat, s.clock.now)] else [])
      && t.link.connected == (if due then a.ok else s.link.connected)
      && (s.pc.run.Beat? ==> (t.pc == Close(StopWatchdog) <==> due && !a.ok))
      && (s.pc.run.Transferring? ==>
            t.pc == if a.goesOn && s.running && !s.watch.linkDown && !(due && !a.ok) then s.pc else Run(ClearTransfer))
  {
  }

  /** Past their refreshing the diagnostics of a session are less than ten seconds old. */
  lemma DiagIsFresh(s: State, a: Answer)
    requires s.pc == Run(RefreshDiag)
    ensures
      var t := Next(s, Worker(a));
      var due := s.clock.now - s.clock.lastDiag >= 10000;
      && t.pc == Run(CheckLink) && t.clock.now - t.clock.lastDiag < 10000
      && t.link.diag == (if due then a.entries else s.link.diag)
      && t.clock.lastBeat == s.clock.lastBeat
  {
  }
}
