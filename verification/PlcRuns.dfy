/** Requests, heartbeats, settings and shutdown over whole runs of the PLC connection. */
module PlcRuns {
  import opened Int16
  import opened PlcWorker
  import opened PlcSafety

  // ---------- requests ----------

  /** Whether a raise of the bit still waits for a service. */
  predicate Owed(p: Plc, name: TriggerName) {
    match name
    case UpdateList => p.update.owed
    case ShowInfo => p.show.owed
    case ReadProject => p.transfer.owed
  }

  /** From the start of a transfer to the clearing of its bit. */
  predicate InTransfer(pc: Pc) { pc == Run(Transferring) || pc == Run(ClearTransfer) }

  /** A raise that the worker will still see, or is just about to serve. */
  predicate Waiting(s: State, name: TriggerName) {
    Owed(s.plc, name) &&
    match name
    case UpdateList => s.plc.update.bit || s.pc == Run(ServeUpdate)
    case ShowInfo => s.plc.show.bit || s.pc == Run(ServeShow)
    case ReadProject => s.plc.transfer.bit && !InTransfer(s.pc)
  }

  /** No raise of the bit is forgotten. */
  predicate Kept(s: State, name: TriggerName) { Owed(s.plc, name) ==> Waiting(s, name) }

  /** A raise of ReadProjekt while a transfer is under way. */
  predicate RaisesInTransfer(s: State, e: Event) { e == Raise(ReadProject) && InTransfer(s.pc) }

  lemma NextKeepsRequests(s: State, e: Event, name: TriggerName)
    requires Kept(s, name) && !(name == ReadProject && RaisesInTransfer(s, e))
    ensures Kept(Next(s, e), name)
  {
    hide DialStep, RunStep, CloseStep;
    match e
    case Worker(a) =>
      match s.pc {
        case Dial(d) => DialKeepsPlc(s, d, a);
        case Run(r) => RunKeepsRequests(s, r, a, name);
        case Close(c) => CloseKeepsPlc(s, c);
        case Exited =>
      }
    case _ =>
  }

  lemma RunKeepsRequests(s: State, r: Operating, a: Answer, name: TriggerName)
    requires s.pc == Run(r) && Kept(s, name)
    ensures Kept(RunStep(s, r, a), name)
  {
  }

  lemma DialKeepsPlc(s: State, d: Dialling, a: Answer)
    ensures DialStep(s, d, a).plc == s.plc
    ensures DialStep(s, d, a).running == s.running
    ensures DialStep(s, d, a).pc.Run? ==> DialStep(s, d, a).pc == Run(LoopTop)
  {
  }

  lemma CloseKeepsPlc(s: State, c: Closing)
    requires s.pc == Close(c)
    ensures CloseStep(s, c).plc == s.plc
    ensures CloseStep(s, c).running == s.running
    ensures !CloseStep(s, c).pc.Run?
  {
  }

  /** Whether some raise of ReadProjekt in the run comes while a transfer is under way. */
  predicate RaisedInTransfer(s: State, es: seq<Event>) {
    es != [] &&
    var before := es[..|es| - 1];
    RaisedInTransfer(s, before) || RaisesInTransfer(Exec(s, before), es[|es| - 1])
  }

  /** In every run: a raise of UpdateProjektList or ShowProjektInfo that still waits has its
      bit set, or its service is the worker's next step; the same for ReadProjekt as long as
      none is raised during a transfer (TransferLoses says what happens then). */
  lemma {:induction false} NoRequestForgotten(s: State, es: seq<Event>, name: TriggerName)
    requires Initial(s)
    ensures name != ReadProject || !RaisedInTransfer(s, es) ==> Kept(Exec(s, es), name)
  {
    hide Next, Kept, RaisesInTransfer;
    if es == [] {
      StartsKept(s, name);
    } else {
      NoRequestForgotten(s, es[..|es| - 1], name);
      if name != ReadProject || !RaisedInTransfer(s, es) {
        NextKeepsRequests(Exec(s, es[..|es| - 1]), es[|es| - 1], name);
      }
    }
  }

  lemma StartsKept(s: State, name: TriggerName)
    requires Initial(s)
    ensures Kept(s, name)
  {
  }

  function TriggerOf(p: Plc, name: TriggerName): Trigger {
    match name
    case UpdateList => p.update
    case ShowInfo => p.show
    case ReadProject => p.transfer
  }

  /** The step that serves the bit. */
  function Service(name: TriggerName): Operating {
    match name
    case UpdateList => ServeUpdate
    case ShowInfo => ServeShow
    case ReadProject => ReadTransfer
  }

  /** The step that clears the bit. */
  function Clearing(name: TriggerName): Operating {
    match name
    case UpdateList => ClearUpdate
    case ShowInfo => ClearShow
    case ReadProject => ClearTransfer
  }

  lemma RunSettles(s: State, r: Operating, a: Answer, name: TriggerName)
    requires s.pc == Run(r)
    ensures
      var t := RunStep(s, r, a);
      var was, now := TriggerOf(s.plc, name), TriggerOf(t.plc, name);
      && (now.owed == was.owed || (r == Service(name) && !now.owed))
      && (now.bit == was.bit || (r == Clearing(name) && !now.bit && a.ok))
      && (r == Clearing(name) && a.ok ==> !now.bit)
      && (name == ReadProject && now.owed != was.owed ==> t.pc == Run(Transferring))
      && (InTransfer(t.pc) ==> InTransfer(s.pc) || (r == ReadTransfer && !t.plc.transfer.owed))
  {
    hide BeatDue, WriteBeat, KeepAlive;
  }

  /** For each of the three bits: only the start of its service settles a raise, so whatever is
      raised is settled by a service that starts after it; only its clearing step clears it. */
  lemma OnlyServiceSettles(s: State, e: Event, name: TriggerName)
    ensures
      var t := Next(s, e);
      var was, now := TriggerOf(s.plc, name), TriggerOf(t.plc, name);
      && (was.owed && !now.owed ==> e.Worker? && s.pc == Run(Service(name)))
      && (was.bit && !now.bit ==> e.Worker? && s.pc == Run(Clearing(name)) && e.answer.ok)
      && ((!was.owed && now.owed) || (!was.bit && now.bit) ==> e == Raise(name))
      && (e == Raise(name) ==> now == Trigger(true, true))
      && (name == ReadProject && was.owed && !now.owed ==> t.pc == Run(Transferring))
      && (InTransfer(t.pc) && !InTransfer(s.pc) ==> e.Worker? && s.pc == Run(ReadTransfer) && !t.plc.transfer.owed)
  {
    hide DialStep, CloseStep, RunStep;
    match e
    case Worker(a) =>
      match s.pc {
        case Dial(d) => DialKeepsPlc(s, d, a);
        case Run(r) => RunSettles(s, r, a, name);
        case Close(c) => CloseKeepsPlc(s, c);
        case Exited =>
      }
    case _ =>
  }

  lemma {:induction false} ExecFront(s: State, e: Event, es: seq<Event>)
    ensures Exec(s, [e] + es) == Exec(Next(s, e), es)
  {
    hide Next;
    if es == [] {
      assert [e] + es == [e] && [e][..0] == [];
    } else {
      var n := |es| - 1;
      assert ([e] + es)[..n + 1] == [e] + es[..n];
      ExecFront(s, e, es[..n]);
    }
  }

  lemma {:induction false} ExecConcat(s: State, es: seq<Event>, fs: seq<Event>)
    ensures Exec(s, es + fs) == Exec(Exec(s, es), fs)
  {
    hide Next;
    if fs == [] {
      assert es + fs == es;
    } else {
      var n := |fs| - 1;
      assert (es + fs)[..|es| + n] == es + fs[..n];
      ExecConcat(s, es, fs[..n]);
    }
  }

  lemma ExecThree(s: State, a: Event, b: Event, c: Event)
    ensures Exec(s, [a, b, c]) == Next(Next(Next(s, a), b), c)
  {
    hide Next;
    assert [a, b, c][..2] == [a, b] && [a, b][..1] == [a] && [a][..0] == [];
    assert Exec(s, [a]) == Next(s, a);
    assert Exec(s, [a, b]) == Next(Next(s, a), b);
  }

  // ---------- every raise is served ----------

  /** The calls of this step succeed and data exchange stays switched on. */
  predicate Smooth(e: Event) {
    match e
    case Worker(a) => a.ok
    case EditStart(_, _, data) => data
    case EditLive(_, data) => data
    case _ => true
  }

  function WorkerSteps(es: seq<Event>): nat {
    if es == [] then 0 else (if es[0].Worker? then 1 else 0) + WorkerSteps(es[1..])
  }

  /** The worker polls its callback in a transfer and goes on with the transfer. */
  predicate GoesOn(s: State, e: Event) { e.Worker? && s.pc == Run(Transferring) && Next(s, e).pc == s.pc }

  /** How often a run does that. */
  function TransferPolls(s: State, es: seq<Event>): nat
    decreases |es|
  {
    if es == [] then 0 else (if GoesOn(s, es[0]) then 1 else 0) + TransferPolls(Next(s, es[0]), es[1..])
  }

  /** How far into one round of the operating loop the worker is. */
  function Place(r: Operating): nat {
    match r
    case LoopTop => 0
    case CheckRevision => 1
    case RefreshDiag => 2
    case CheckLink => 3
    case CheckSwitch => 4
    case ReadSwitch => 5
    case Beat(dataOn) => if dataOn then 6 else 16
    case ReadUpdate => 7
    case ClearUpdate => 8
    case ServeUpdate => 9
    case ReadShow => 10
    case ClearShow => 11
    case ServeShow => 12
    case ReportShow => 13
    case ReadTransfer => 14
    case Transferring => 15
    case ClearTransfer => 16
    case LoopSleep => 17
    case PauseSleep => 17
  }

  /** Most worker steps up to and including the one at `at`, in this round or the next. */
  function StepsTo(r: Operating, at: Operating): nat {
    if Place(r) <= Place(at) then Place(at) + 1 - Place(r) else 18 - Place(r) + Place(at) + 1
  }

  function ToService(r: Operating, name: TriggerName): nat { StepsTo(r, Service(name)) }

  /** What ends a session whose heartbeats are written. */
  predicate MayLeave(s: State) {
    !s.running || s.settings.revision != s.settings.bootRev || s.watch.linkDown || !s.settings.opcEnabled
  }

  lemma WaitsOn(s: State, e: Event, name: TriggerName)
    requires Waiting(s, name) && !(e.Worker? && s.pc == Run(Service(name)))
    ensures Waiting(Next(s, e), name)
  {
    OnlyServiceSettles(s, e, name);
    NextKeepsRequests(s, e, name);
    hide Next;
  }

  lemma StepForward(s: State, r: Operating, a: Answer)
    requires s.pc == Run(r)
    ensures
      var t := RunStep(s, r, a);
      && t.settings == s.settings && t.running == s.running && t.watch == s.watch
      && (t.pc.Run? || (t.pc.Close? && (a.ok ==> MayLeave(s))))
      && (t.pc == s.pc ==> r == Transferring)
      && (t.pc.Run? && t.pc != s.pc ==> if Place(r) == 17 then t.pc.run == LoopTop else Place(t.pc.run) > Place(r))
      && (t.pc.Run? && (Place(r) < 5 || (Place(r) < 7 && s.settings.dataEnabled)) ==> Place(t.pc.run) <= Place(r) + 1)
  {
    hide BeatDue, WriteBeat, KeepAlive, ClearBit;
  }

  lemma NotPastService(s: State, r: Operating, a: Answer, name: TriggerName)
    requires s.pc == Run(r) && Waiting(s, name) && a.ok && 7 <= Place(r) < Place(Service(name))
    ensures RunStep(s, r, a).pc.Run? && Place(RunStep(s, r, a).pc.run) <= Place(Service(name))
  {
    hide BeatDue, WriteBeat, KeepAlive, ClearBit;
  }

  lemma RoundGoesOn(s: State, r: Operating, a: Answer, name: TriggerName)
    requires s.pc == Run(r) && Waiting(s, name) && s.settings.dataEnabled && a.ok && r != Service(name)
    ensures
      var t := RunStep(s, r, a);
      && t.settings == s.settings
      && (t.pc.Run? || (t.pc.Close? && MayLeave(t)))
      && (t.pc.Run? && t.pc != s.pc ==> ToService(t.pc.run, name) < ToService(r, name))
      && (t.pc == s.pc ==> r == Transferring)
  {
    ServicePlace(r, name);
    StepForward(s, r, a);
    if 7 <= Place(r) < Place(Service(name)) {
      NotPastService(s, r, a, name);
    }
    hide RunStep, Waiting, Place, Service;
  }

  /** Nothing but the service itself stands at its place. */
  lemma ServicePlace(r: Operating, name: TriggerName)
    ensures Place(LoopTop) == 0 && 7 <= Place(Service(name)) <= 14 && Place(r) <= 17
    ensures Place(r) == Place(Service(name)) ==> r == Service(name)
  {
  }

  lemma TowardsService(s: State, e: Event, name: TriggerName)
    requires Waiting(s, name) && s.pc.Run? && s.settings.dataEnabled && Smooth(e)
    requires !(e.Worker? && s.pc == Run(Service(name)))
    ensures Next(s, e).settings.dataEnabled && Waiting(Next(s, e), name)
    ensures (Next(s, e).pc.Close? && MayLeave(Next(s, e))) || Next(s, e).pc.Run?
    ensures !e.Worker? || GoesOn(s, e) ==> Next(s, e).pc == s.pc
    ensures GoesOn(s, e) ==> e.Worker?
    ensures e.Worker? && Next(s, e).pc.Run? && !GoesOn(s, e) ==>
              ToService(Next(s, e).pc.run, name) < ToService(s.pc.run, name)
  {
    WaitsOn(s, e, name);
    hide Waiting, ToService, RunStep;
    match e
    case Worker(a) => RoundGoesOn(s, s.pc.run, a, name);
    case _ =>
  }

  /** A raise that waits anywhere in the operating loop is served within eighteen steps of
      the worker plus one for each time a transfer goes on, whatever happens in between,
      unless the session ends for one of its reasons. */
  lemma {:induction false} RaiseIsServed(s: State, es: seq<Event>, name: TriggerName) returns (p: nat)
    requires Waiting(s, name) && s.pc.Run? && s.settings.dataEnabled
    requires forall i :: 0 <= i < |es| ==> Smooth(es[i])
    requires WorkerSteps(es) >= ToService(s.pc.run, name) + TransferPolls(s, es)
    ensures p <= |es|
    ensures (Exec(s, es[..p]).pc.Close? && MayLeave(Exec(s, es[..p]))) ||
            (p < |es| && es[p].Worker? && Exec(s, es[..p]).pc == Run(Service(name)) && Waiting(Exec(s, es[..p]), name))
    ensures ToService(s.pc.run, name) <= 18
    ensures WorkerSteps(es[..p]) <= ToService(s.pc.run, name) + TransferPolls(s, es[..p])
    decreases |es|
  {
    hide Next, Waiting, Smooth, GoesOn, Service;
    if es[0].Worker? && s.pc == Run(Service(name)) {
      p := 0;
    } else {
      var t := Next(s, es[0]);
      TowardsService(s, es[0], name);
      var rest := es[1..];
      var q := 0;
      if t.pc.Run? {
        q := RaiseIsServed(t, rest, name);
      }
      p := q + 1;
      assert es[..p] == [es[0]] + rest[..q];
      assert es[..p][1..] == rest[..q];
      ExecFront(s, es[0], rest[..q]);
    }
  }

  // ---------- the transfer request ----------

  predicate NoTransferRaise(es: seq<Event>) {
    forall i :: 0 <= i < |es| ==> es[i] != Raise(ReadProject)
  }

  /** The run starts in a transfer, and the clearing at its end succeeds. */
  predicate EndsCleared(s: State, es: seq<Event>)
    decreases |es|
  {
    && es != [] && InTransfer(s.pc)
    && if es[0].Worker? && s.pc == Run(ClearTransfer) then es[0].answer.ok
       else EndsCleared(Next(s, es[0]), es[1..])
  }

  /** A raise whose bit is gone although it was never served. */
  predicate Lost(s: State) { s.plc.transfer.owed && !s.plc.transfer.bit }

  lemma {:induction false} KeptTransferStays(s: State, es: seq<Event>)
    requires Kept(s, ReadProject) && NoTransferRaise(es)
    ensures !Lost(Exec(s, es))
    decreases |es|
  {
    hide Next;
    if es != [] {
      NextKeepsRequests(s, es[0], ReadProject);
      KeptTransferStays(Next(s, es[0]), es[1..]);
      ExecFront(s, es[0], es[1..]);
      assert es == [es[0]] + es[1..];
    }
  }

  lemma LostStep(s: State, e: Event)
    requires e != Raise(ReadProject) && Lost(s) && !InTransfer(s.pc)
    ensures Lost(Next(s, e)) && !InTransfer(Next(s, e).pc)
  {
    OnlyServiceSettles(s, e, ReadProject);
  }

  lemma {:induction false} LostStays(s: State, es: seq<Event>)
    requires NoTransferRaise(es) && Lost(s) && !InTransfer(s.pc)
    ensures Lost(Exec(s, es))
    decreases |es|
  {
    hide Next;
    if es != [] {
      LostStep(s, es[0]);
      LostStays(Next(s, es[0]), es[1..]);
      ExecFront(s, es[0], es[1..]);
      assert es == [es[0]] + es[1..];
    }
  }

  lemma TransferStep(s: State, e: Event)
    requires e != Raise(ReadProject) && InTransfer(s.pc) && s.plc.transfer == Trigger(true, true)
    ensures
      var t := Next(s, e);
      if e.Worker? && s.pc == Run(ClearTransfer)
      then !InTransfer(t.pc) && t.plc.transfer == Trigger(!e.answer.ok, true)
      else InTransfer(t.pc) && t.plc.transfer == Trigger(true, true)
  {
  }

  lemma {:induction false} RaisedInTransferEnds(s: State, es: seq<Event>)
    requires NoTransferRaise(es) && InTransfer(s.pc) && s.plc.transfer == Trigger(true, true)
    ensures Lost(Exec(s, es)) <==> EndsCleared(s, es)
    decreases |es|
  {
    hide Next;
    if es != [] {
      var t := Next(s, es[0]);
      TransferStep(s, es[0]);
      if InTransfer(t.pc) {
        RaisedInTransferEnds(t, es[1..]);
      } else if es[0].answer.ok {
        LostStays(t, es[1..]);
      } else {
        KeptTransferStays(t, es[1..]);
      }
      ExecFront(s, es[0], es[1..]);
      assert es == [es[0]] + es[1..];
    }
  }

  /** For every state and every run without another raise: a raise of ReadProjekt is lost
      exactly when it is made during a transfer and the clearing at the end of that transfer
      succeeds. Made at any other point it is never lost. */
  lemma TransferLoses(s: State, es: seq<Event>)
    requires NoTransferRaise(es)
    ensures
      var t := Next(s, Raise(ReadProject));
      && (Lost(Exec(t, es)) <==> EndsCleared(t, es))
      && (EndsCleared(t, es) ==> InTransfer(s.pc))
      && (!InTransfer(s.pc) ==> Waiting(t, ReadProject))
  {
    var t := Next(s, Raise(ReadProject));
    assert t.pc == s.pc;
    if InTransfer(s.pc) {
      RaisedInTransferEnds(t, es);
    } else {
      KeptTransferStays(t, es);
    }
  }

  /** Such a run: the transfer ends at once and its bit is cleared. */
  lemma RaiseDuringTransferIsLost(s: State, a: Answer, b: Answer)
    requires s.pc == Run(Transferring) && !a.polls && b.ok
    ensures
      var t := Exec(s, [Raise(ReadProject), Worker(a), Worker(b)]);
      Lost(t) && t.pc == Run(LoopSleep)
  {
    ExecThree(s, Raise(ReadProject), Worker(a), Worker(b));
  }

  // ---------- heartbeat ----------

  /** Time of the beat before beat `k`, or the start of the session. */
  function TimeBefore(c: Clock, k: nat): int
    requires k <= |c.beats|
  {
    if k == 0 then c.sessionStart else c.beats[k - 1].time
  }

  predicate BeatsInOrder(c: Clock) {
    forall k :: 0 <= k < |c.beats| ==> c.beats[k].value == ToInt16(k) && c.beats[k].time - TimeBefore(c, k) >= 1000
  }

  predicate BeatInv(c: Clock) {
    BeatsInOrder(c) && c.heartbeat == ToInt16(|c.beats|) && c.lastBeat == TimeBefore(c, |c.beats|)
  }

  predicate InSession(pc: Pc) { HoldsWatchdog(pc) }

  lemma WriteKeepsBeats(c: Clock)
    requires BeatInv(c) && BeatDue(c)
    ensures BeatInv(WriteBeat(c))
  {
    NextInt16(|c.beats|);
    var d := WriteBeat(c);
    hide ToInt16;
    forall k | 0 <= k < |d.beats|
      ensures d.beats[k].value == ToInt16(k) && d.beats[k].time - TimeBefore(d, k) >= 1000
    {
      if k < |c.beats| {
        assert TimeBefore(d, k) == TimeBefore(c, k) && d.beats[k] == c.beats[k];
      } else {
        assert TimeBefore(d, k) == c.lastBeat;
      }
    }
  }

  lemma RunKeepsBeats(s: State, r: Operating, a: Answer)
    requires BeatInv(s.clock)
    ensures BeatInv(RunStep(s, r, a).clock)
  {
    if BeatDue(s.clock) {
      WriteKeepsBeats(s.clock);
    }
    DiagKeepsBeats(s.clock, s.clock.now);
    hide BeatInv, WriteBeat, BeatDue;
    match r
    case Beat(_) =>
    case Transferring =>
    case RefreshDiag =>
    case _ =>
      assert RunStep(s, r, a).clock == s.clock;
  }

  lemma DiagKeepsBeats(c: Clock, t: int)
    ensures BeatInv(c) ==> BeatInv(c.(lastDiag := t))
  {
  }

  lemma CloseKeepsClock(s: State, c: Closing)
    requires s.pc == Close(c)
    ensures CloseStep(s, c).clock == s.clock
    ensures InSession(CloseStep(s, c).pc) ==> InSession(s.pc)
  {
  }

  lemma NextKeepsBeats(s: State, e: Event)
    requires InSession(s.pc) ==> BeatInv(s.clock)
    ensures InSession(Next(s, e).pc) ==> BeatInv(Next(s, e).clock)
  {
    NothingBeatenYet(s.clock);
    hide BeatInv, WriteBeat, BeatDue, DialStep, RunStep, CloseStep;
    match e
    case Worker(a) =>
      match s.pc {
        case Dial(d) => DialKeepsClock(s, d, a);
        case Run(r) => RunKeepsBeats(s, r, a);
        case Close(c) => CloseKeepsClock(s, c);
        case Exited =>
      }
    case Tick(ms) => TickKeepsBeats(s.clock, ms);
    case _ =>
  }

  lemma TickKeepsBeats(c: Clock, ms: nat)
    ensures BeatInv(c) ==> BeatInv(c.(now := c.now + ms))
  {
  }

  lemma NothingBeatenYet(c: Clock)
    ensures BeatInv(c.(heartbeat := 0, lastBeat := c.now, sessionStart := c.now, beats := []))
  {
  }

  lemma DialKeepsClock(s: State, d: Dialling, a: Answer)
    ensures DialStep(s, d, a).pc.Run? ==>
              DialStep(s, d, a).clock
              == s.clock.(heartbeat := 0, lastBeat := s.clock.now, sessionStart := s.clock.now, beats := [])
    ensures !DialStep(s, d, a).pc.Close?
  {
  }

  /** In every run: the heartbeats of a session, from both call sites, are 0, 1, 2, ... as
      int16, at least a second apart. */
  lemma {:induction false} HeartbeatSequence(s: State, es: seq<Event>)
    requires Initial(s)
    ensures InSession(Exec(s, es).pc) ==> BeatInv(Exec(s, es).clock)
  {
    hide Next, BeatInv;
    if es != [] {
      HeartbeatSequence(s, es[..|es| - 1]);
      NextKeepsBeats(Exec(s, es[..|es| - 1]), es[|es| - 1]);
    }
  }

  // ---------- settings ----------

  /** Whether the last edit that fell between the worker's latest reading of the settings and
      its reading of their revision, if there was one, left other settings than were read. */
  predicate EditedBetween(s: State, es: seq<Event>) {
    es != [] &&
    var before := es[..|es| - 1];
    var t := Exec(s, before);
    var e := es[|es| - 1];
    if e.Worker? && t.pc == Dial(Apply) then false
    else if e.EditStart? && t.pc == Dial(ReadRevision) then e.value != t.settings.used
    else EditedBetween(s, before)
  }

  /** `edited` tells whether the worker's copy is the stored one: until the revision is read,
      and then as long as the revision has not risen and is not about to. */
  predicate FreshInv(pc: Pc, c: Settings, edited: bool) {
    match pc
    case Dial(Top) => true
    case Dial(Apply) => true
    case Dial(ReadRevision) => c.used == c.stored <==> !edited
    case Exited => true
    case _ =>
      && c.revision >= c.bootRev
      && (c.revision == c.bootRev && c.pendingBumps == 0 ==> (c.used == c.stored <==> !edited))
  }

  lemma NextKeepsFresh(s: State, e: Event, edited: bool)
    requires FreshInv(s.pc, s.settings, edited)
    ensures
      var after := if e.Worker? && s.pc == Dial(Apply) then false
                   else if e.EditStart? && s.pc == Dial(ReadRevision) then e.value != s.settings.used
                   else edited;
      FreshInv(Next(s, e).pc, Next(s, e).settings, after)
  {
  }

  /** In every run: in a session whose revision is unchanged, once edits are counted, the
      settings in use are the stored ones exactly if no edit fell between the two reads and
      left other settings. */
  lemma {:induction false} SettingsAreCurrent(s: State, es: seq<Event>)
    requires Initial(s)
    ensures FreshInv(Exec(s, es).pc, Exec(s, es).settings, EditedBetween(s, es))
    ensures
      var t := Exec(s, es);
      var c := t.settings;
      t.pc.Run? && c.revision == c.bootRev && c.pendingBumps == 0 ==>
        (c.used == c.stored <==> !EditedBetween(s, es))
  {
    hide Next;
    if es != [] {
      var before := es[..|es| - 1];
      SettingsAreCurrent(s, before);
      NextKeepsFresh(Exec(s, before), es[|es| - 1], EditedBetween(s, before));
    }
  }

  /** An edit that does fall there is missed: the old settings stay in use under the new
      revision. */
  lemma EditBetweenReadsIsMissed(s: State, value: int, opc: bool, data: bool, a: Answer)
    requires s.pc == Dial(ReadRevision) && s.settings.used != value && s.settings.pendingBumps == 0
    ensures
      var t := Exec(s, [EditStart(value, opc, data), EditCommit, Worker(a)]);
      && t.settings.stored == value && t.settings.used == s.settings.used != value
      && t.settings.revision == t.settings.bootRev && t.settings.pendingBumps == 0
      && t.pc == Dial(CheckEnabled)
  {
    ExecThree(s, EditStart(value, opc, data), EditCommit, Worker(a));
  }

  // ---------- shutdown ----------

  function DialRank(d: Dialling): nat {
    match d
    case Top => 1
    case Wait(_, _) => 2
    case OffWait(_) => 2
    case FailStatus(_) => 3
    case FailClear(_) => 4
    case OffStatus => 3
    case OffClear => 4
    case SetupDisconnect => 3
    case SetupStatus => 4
    case SetupDiag => 5
    case StartWatchdog => 9
    case ReadyDiag => 10
    case ReadyStatus => 11
    case Setup => 12
    case ConnectedStatus => 13
    case Connect => 14
    case Probe => 15
    case DialStatus => 16
    case DialClear => 17
    case CheckEnabled => 18
    case ReadRevision => 19
    case Apply => 20
  }

  function RunRank(r: Operating): nat {
    match r
    case LoopTop => 7
    case LoopSleep => 8
    case PauseSleep => 8
    case ClearTransfer => 9
    case Transferring => 10
    case ReadTransfer => 11
    case ReportShow => 12
    case ServeShow => 13
    case ClearShow => 14
    case ReadShow => 15
    case ServeUpdate => 16
    case ClearUpdate => 17
    case ReadUpdate => 18
    case Beat(_) => 19
    case ReadSwitch => 20
    case CheckSwitch => 21
    case CheckLink => 22
    case RefreshDiag => 23
    case CheckRevision => 24
  }

  function CloseRank(c: Closing): nat {
    match c
    case FinalStatus => 2
    case FinalClear => 3
    case Disconnect => 4
    case Join => 5
    case StopWatchdog => 6
  }

  function WatchRank(w: WatchPc): nat {
    match w
    case NoWatchdog => 0
    case WatchDone => 0
    case WatchTop => 1
    case WatchSleep(_) => 2
    case WatchUp => 3
    case WatchStatus => 3
    case WatchClear => 4
    case WatchMark => 5
    case WatchProbe => 6
  }

  function WorkerRank(pc: Pc): nat {
    match pc
    case Dial(d) => DialRank(d)
    case Run(r) => RunRank(r)
    case Close(c) => CloseRank(c)
    case Exited => 0
  }

  /** Steps the two threads can still make once shutdown is requested. */
  function Remaining(s: State): nat { WorkerRank(s.pc) + WatchRank(s.watch.pc) }

  /** The worker waits only for its watchdog. */
  predicate WorkerBlocked(s: State) {
    s.pc == Exited || (s.pc == Close(Join) && s.watch.pc != WatchDone)
  }

  predicate WatchdogOver(s: State) { s.watch.pc == NoWatchdog || s.watch.pc == WatchDone }

  /** Whether the event is a step of one of the two threads. */
  predicate OwnStep(s: State, e: Event) {
    (e.Worker? && !WorkerBlocked(s)) || (e.Watchdog? && !WatchdogOver(s))
  }

  lemma WorkerStepCounts(s: State, a: Answer)
    requires !s.running && !WorkerBlocked(s) && SessionInv(s)
    ensures Remaining(WorkerStep(s, a)) < Remaining(s)
  {
    hide SessionInv;
    match s.pc
    case Dial(d) => DialStepCounts(s, d, a);
    case Run(r) => RunStepCounts(s, r, a);
    case Close(c) => CloseStepCounts(s, c);
    case Exited =>
  }

  lemma DialStepCounts(s: State, d: Dialling, a: Answer)
    requires !s.running
    ensures WorkerRank(DialStep(s, d, a).pc) < DialRank(d)
    ensures d != StartWatchdog ==> DialStep(s, d, a).watch == s.watch
    ensures d == StartWatchdog ==>
              WorkerRank(DialStep(s, d, a).pc) + 1 < DialRank(d) && DialStep(s, d, a).watch.pc == WatchTop
  {
  }

  lemma RunStepCounts(s: State, r: Operating, a: Answer)
    requires !s.running
    ensures WorkerRank(RunStep(s, r, a).pc) < RunRank(r) && RunStep(s, r, a).watch == s.watch
  {
  }

  lemma CloseStepCounts(s: State, c: Closing)
    requires c == Join ==> s.watch.pc == WatchDone
    ensures WorkerRank(CloseStep(s, c).pc) < CloseRank(c)
    ensures WatchRank(CloseStep(s, c).watch.pc) == WatchRank(s.watch.pc)
  {
  }

  lemma StepCounts(s: State, e: Event)
    requires !s.running && SessionInv(s)
    ensures !Next(s, e).running
    ensures if OwnStep(s, e) then Remaining(Next(s, e)) < Remaining(s) else Remaining(Next(s, e)) == Remaining(s)
  {
    hide DialStep, RunStep, CloseStep;
    match e
    case Worker(a) =>
      if WorkerBlocked(s) {
        BlockedStays(s, a);
      } else {
        hide WorkerStep, SessionInv;
        WorkerStepCounts(s, a);
        WorkerKeepsRunning(s, a);
      }
    case _ =>
  }

  lemma BlockedStays(s: State, a: Answer)
    requires WorkerBlocked(s)
    ensures WorkerStep(s, a) == s
  {
  }

  lemma WorkerKeepsRunning(s: State, a: Answer)
    ensures WorkerStep(s, a).running == s.running
  {
  }

  function OwnSteps(s: State, es: seq<Event>): nat
    decreases |es|
  {
    if es == [] then 0 else (if OwnStep(s, es[0]) then 1 else 0) + OwnSteps(Next(s, es[0]), es[1..])
  }

  /** Once shutdown is requested the two threads together make at most `Remaining` more
      steps, in any interleaving; until the worker has left, one of them can always step. */
  lemma {:induction false} ShutdownIsBounded(s: State, es: seq<Event>)
    requires !s.running && SessionInv(s)
    ensures OwnSteps(s, es) + Remaining(Exec(s, es)) <= Remaining(s) <= 30
    ensures Exec(s, es).pc != Exited ==> !WorkerBlocked(Exec(s, es)) || !WatchdogOver(Exec(s, es))
    ensures OwnSteps(s, es) >= Remaining(s) ==> Exec(s, es).pc == Exited
    decreases |es|
  {
    hide Next, SessionInv;
    RankBound(s);
    if es == [] {
      NotStuck(s);
    } else {
      StepCounts(s, es[0]);
      NextKeepsSession(s, es[0]);
      ShutdownIsBounded(Next(s, es[0]), es[1..]);
      assert es == [es[0]] + es[1..];
      ExecFront(s, es[0], es[1..]);
    }
  }

  lemma RankBound(s: State)
    ensures Remaining(s) <= 30
    ensures Remaining(s) == 0 ==> s.pc == Exited
  {
  }

  lemma NotStuck(s: State)
    requires SessionInv(s)
    ensures s.pc != Exited ==> !WorkerBlocked(s) || !WatchdogOver(s)
  {
  }

  /** The outer loop is left only after shutdown was requested. */
  lemma {:induction false} LeavesOnlyOnShutdown(s: State, es: seq<Event>)
    requires Initial(s)
    ensures Exec(s, es).pc == Exited ==> !Exec(s, es).running
  {
    if es != [] {
      LeavesOnlyOnShutdown(s, es[..|es| - 1]);
      ExitNeedsShutdown(Exec(s, es[..|es| - 1]), es[|es| - 1]);
    }
  }

  lemma ExitNeedsShutdown(s: State, e: Event)
    requires s.pc == Exited ==> !s.running
    ensures Next(s, e).pc == Exited ==> !Next(s, e).running
  {
  }
}
