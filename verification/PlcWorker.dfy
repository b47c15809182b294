/** The PLC connection thread as a state machine: its own steps, those of its watchdog
    thread, of the PLC, of the settings editor, of the clock and of shutdown, in any order. */
module PlcWorker {
  import opened Int16

  // ---------- where the threads stand ----------

  /** The connection loop, up to a working session. */
  datatype Dialling =
    | Top | Apply | ReadRevision | CheckEnabled
    | OffClear | OffStatus | OffWait(round: nat)
    | DialClear | DialStatus | Probe | FailClear(ms: nat) | FailStatus(ms: nat) | Wait(waited: nat, total: nat)
    | Connect | ConnectedStatus | Setup | SetupDiag | SetupStatus | SetupDisconnect
    | ReadyStatus | ReadyDiag | StartWatchdog

  /** The operating loop. */
  datatype Operating =
    | LoopTop | CheckRevision | RefreshDiag | CheckLink | CheckSwitch | ReadSwitch | Beat(dataOn: bool) | PauseSleep
    | ReadUpdate | ClearUpdate | ServeUpdate
    | ReadShow | ClearShow | ServeShow | ReportShow
    | ReadTransfer | Transferring | ClearTransfer | LoopSleep

  /** The way out of a session. */
  datatype Closing = StopWatchdog | Join | Disconnect | FinalClear | FinalStatus

  datatype Pc = Dial(dial: Dialling) | Run(run: Operating) | Close(close: Closing) | Exited

  datatype WatchPc =
    | NoWatchdog | WatchTop | WatchProbe | WatchMark | WatchClear | WatchStatus | WatchUp
    | WatchSleep(round: nat) | WatchDone

  // ---------- the shared state ----------

  /** How the last connection attempt ended. */
  datatype Outcome = NoAttempt | Disabled | Unreachable | SetupFailed | Closed

  /** `connected` is g_sps_connected; `diag`: node diagnostics are shown and not empty;
      `session`: the controller holds a connection. */
  datatype Link = Link(connected: bool, diag: bool, session: bool, outcome: Outcome)

  /** The store (contents, revision, edits not yet counted in the revision, the two
      switches) and the worker's copies of contents and revision. */
  datatype Settings = Settings(stored: int, revision: int, pendingBumps: nat, opcEnabled: bool, dataEnabled: bool,
                               used: int, bootRev: int)

  datatype Watch = Watch(pc: WatchPc, loopRunning: bool, linkDown: bool)

  /** One heartbeat write: the value attempted and the time recorded for it. */
  datatype BeatRecord = BeatRecord(value: int, time: int)

  datatype Clock = Clock(now: int, lastDiag: int, lastBeat: int, heartbeat: int, sessionStart: int,
                         beats: seq<BeatRecord>)

  /** A trigger bit of the PLC, and whether a raise of it still waits for a service. */
  datatype Trigger = Trigger(bit: bool, owed: bool)

  datatype Plc = Plc(update: Trigger, show: Trigger, transfer: Trigger)

  datatype State = State(running: bool, pc: Pc, link: Link, settings: Settings, watch: Watch, clock: Clock, plc: Plc)

  // ---------- events ----------

  /** What the outside answers to one step: success of the call, whether the diagnostics
      have entries, whether a transfer polls its keep-alive callback and then goes on. */
  datatype Answer = Answer(ok: bool, entries: bool, polls: bool, goesOn: bool)

  datatype TriggerName = UpdateList | ShowInfo | ReadProject

  datatype Event =
    | Worker(answer: Answer)
    | Watchdog(reachable: bool)
    | Raise(name: TriggerName)
    | EditStart(value: int, opc: bool, data: bool) | EditCommit | EditLive(opcNow: bool, dataNow: bool)
    | Tick(ms: nat)
    | Shutdown

  // ---------- the worker ----------

  function DialStep(s: State, d: Dialling, a: Answer): State {
    match d
    case Top => s.(pc := if s.running then Dial(Apply) else Exited)
    case Apply => s.(settings := s.settings.(used := s.settings.stored), pc := Dial(ReadRevision))
    case ReadRevision => s.(settings := s.settings.(bootRev := s.settings.revision), pc := Dial(CheckEnabled))
    case CheckEnabled => s.(pc := Dial(if s.settings.opcEnabled then DialClear else OffClear))
    case OffClear => s.(link := s.link.(diag := false, outcome := Disabled), pc := Dial(OffStatus))
    case OffStatus => s.(link := s.link.(connected := false), pc := Dial(OffWait(0)))
    case OffWait(i) => s.(pc := Dial(if i < 10 && s.running then OffWait(i + 1) else Top))
    case DialClear => s.(link := s.link.(diag := false), pc := Dial(DialStatus))
    case DialStatus => s.(link := s.link.(connected := false), pc := Dial(Probe))
    case Probe => s.(pc := Dial(if a.ok then Connect else FailClear(3000)))
    case FailClear(ms) => s.(link := s.link.(diag := false, outcome := Unreachable), pc := Dial(FailStatus(ms)))
    case FailStatus(ms) => s.(link := s.link.(connected := false), pc := Dial(Wait(0, ms)))
    case Wait(waited, total) =>
      s.(pc := Dial(if waited < total && s.running && s.settings.revision == s.settings.bootRev
                    then Wait(waited + 200, total) else Top))
    case Connect => s.(link := s.link.(session := a.ok), pc := Dial(if a.ok then ConnectedStatus else FailClear(5000)))
    case ConnectedStatus => s.(link := s.link.(connected := true), pc := Dial(Setup))
    case Setup => s.(pc := Dial(if a.ok then ReadyStatus else SetupDiag))
    case SetupDiag => s.(link := s.link.(diag := a.entries, outcome := SetupFailed), pc := Dial(SetupStatus))
    case SetupStatus => s.(link := s.link.(connected := false), pc := Dial(SetupDisconnect))
    case SetupDisconnect => s.(link := s.link.(session := false), pc := Dial(Wait(0, 5000)))
    case ReadyStatus => s.(link := s.link.(connected := true), pc := Dial(ReadyDiag))
    case ReadyDiag =>
      s.(link := s.link.(diag := a.entries), clock := s.clock.(lastDiag := s.clock.now), pc := Dial(StartWatchdog))
    case StartWatchdog =>
      s.(watch := Watch(WatchTop, true, false), pc := Run(LoopTop),
         clock := s.clock.(heartbeat := 0, lastBeat := s.clock.now, sessionStart := s.clock.now, beats := []))
  }

  predicate BeatDue(c: Clock) { c.now - c.lastBeat >= 1000 }

  /** One heartbeat write; the value goes up whether the write succeeds or not. */
  function WriteBeat(c: Clock): Clock {
    c.(beats := c.beats + [BeatRecord(c.heartbeat, c.now)], heartbeat := ToInt16(c.heartbeat + 1), lastBeat := c.now)
  }

  /** The heartbeat code that the operating loop and the keep-alive callback share. */
  function BeatIfDue(s: State, ok: bool): State {
    if BeatDue(s.clock) then s.(clock := WriteBeat(s.clock), link := s.link.(connected := ok)) else s
  }

  /** What the keep-alive callback answers. */
  predicate KeepAlive(s: State, ok: bool) {
    !(BeatDue(s.clock) && !ok) && s.running && !s.watch.linkDown
  }

  function ClearBit(t: Trigger, ok: bool): Trigger { t.(bit := t.bit && !ok) }

  function RunStep(s: State, r: Operating, a: Answer): State {
    match r
    case LoopTop => s.(pc := if s.running then Run(CheckRevision) else Close(StopWatchdog))
    case CheckRevision =>
      s.(pc := if s.settings.revision != s.settings.bootRev then Close(StopWatchdog) else Run(RefreshDiag))
    case RefreshDiag =>
      if s.clock.now - s.clock.lastDiag >= 10000 then
        s.(link := s.link.(diag := a.entries), clock := s.clock.(lastDiag := s.clock.now), pc := Run(CheckLink))
      else s.(pc := Run(CheckLink))
    case CheckLink => s.(pc := if s.watch.linkDown then Close(StopWatchdog) else Run(CheckSwitch))
    case CheckSwitch => s.(pc := if s.settings.opcEnabled then Run(ReadSwitch) else Close(StopWatchdog))
    case ReadSwitch => s.(pc := Run(Beat(s.settings.dataEnabled)))
    case Beat(dataOn) =>
      BeatIfDue(s, a.ok).(pc := if BeatDue(s.clock) && !a.ok then Close(StopWatchdog)
                                else if dataOn then Run(ReadUpdate) else Run(PauseSleep))
    case PauseSleep => s.(pc := Run(LoopTop))
    case ReadUpdate => s.(pc := Run(if a.ok && s.plc.update.bit then ClearUpdate else ReadShow))
    case ClearUpdate => s.(plc := s.plc.(update := ClearBit(s.plc.update, a.ok)), pc := Run(ServeUpdate))
    case ServeUpdate => s.(plc := s.plc.(update := s.plc.update.(owed := false)), pc := Run(ReadShow))
    case ReadShow => s.(pc := Run(if a.ok && s.plc.show.bit then ClearShow else ReadTransfer))
    case ClearShow => s.(plc := s.plc.(show := ClearBit(s.plc.show, a.ok)), pc := Run(ServeShow))
    case ServeShow => s.(plc := s.plc.(show := s.plc.show.(owed := false)), pc := Run(ReportShow))
    case ReportShow => s.(pc := Run(ReadTransfer))
    case ReadTransfer =>
      if a.ok && s.plc.transfer.bit then
        s.(plc := s.plc.(transfer := s.plc.transfer.(owed := false)), pc := Run(Transferring))
      else s.(pc := Run(LoopSleep))
    case Transferring =>
      if a.polls then
        BeatIfDue(s, a.ok).(pc := Run(if a.goesOn && KeepAlive(s, a.ok) then Transferring else ClearTransfer))
      else s.(pc := Run(ClearTransfer))
    case ClearTransfer => s.(plc := s.plc.(transfer := ClearBit(s.plc.transfer, a.ok)), pc := Run(LoopSleep))
    case LoopSleep => s.(pc := Run(LoopTop))
  }

  function CloseStep(s: State, c: Closing): State {
    match c
    case StopWatchdog => s.(watch := s.watch.(loopRunning := false), pc := Close(Join))
    case Join => if s.watch.pc.WatchDone? then s.(watch := s.watch.(pc := NoWatchdog), pc := Close(Disconnect)) else s
    case Disconnect => s.(link := s.link.(session := false), pc := Close(FinalClear))
    case FinalClear => s.(link := s.link.(diag := false, outcome := Closed), pc := Close(FinalStatus))
    case FinalStatus => s.(link := s.link.(connected := false), pc := Dial(Top))
  }

  function WorkerStep(s: State, a: Answer): State {
    match s.pc
    case Dial(d) => DialStep(s, d, a)
    case Run(r) => RunStep(s, r, a)
    case Close(c) => CloseStep(s, c)
    case Exited => s
  }

  // ---------- the watchdog ----------

  function WatchdogStep(s: State, reachable: bool): State {
    var w := s.watch;
    match w.pc
    case WatchTop => s.(watch := w.(pc := if w.loopRunning && s.running then WatchProbe else WatchDone))
    case WatchProbe => s.(watch := w.(pc := if reachable then WatchUp else WatchMark))
    case WatchMark => s.(watch := w.(linkDown := true, pc := WatchClear))
    case WatchClear => s.(watch := w.(pc := WatchStatus), link := s.link.(diag := false))
    case WatchStatus => s.(watch := w.(pc := WatchSleep(0)), link := s.link.(connected := false))
    case WatchUp => s.(watch := w.(linkDown := false, pc := WatchSleep(0)))
    case WatchSleep(i) =>
      s.(watch := w.(pc := if i < 15 && w.loopRunning && s.running then WatchSleep(i + 1) else WatchTop))
    case _ => s
  }

  // ---------- everything else ----------

  function RaiseStep(p: Plc, name: TriggerName): Plc {
    match name
    case UpdateList => p.(update := Trigger(true, true))
    case ShowInfo => p.(show := Trigger(true, true))
    case ReadProject => p.(transfer := Trigger(true, true))
  }

  /** An edit changes the contents first and counts the revision up afterwards. */
  function EditStep(c: Settings, e: Event): Settings {
    match e
    case EditStart(value, opc, data) =>
      c.(stored := value, opcEnabled := opc, dataEnabled := data, pendingBumps := c.pendingBumps + 1)
    case EditCommit =>
      if c.pendingBumps > 0 then c.(revision := c.revision + 1, pendingBumps := c.pendingBumps - 1) else c
    case EditLive(opc, data) => c.(opcEnabled := opc, dataEnabled := data)
    case _ => c
  }

  /** One event; an event that cannot happen changes nothing. */
  function Next(s: State, e: Event): State {
    match e
    case Worker(a) => WorkerStep(s, a)
    case Watchdog(reachable) => WatchdogStep(s, reachable)
    case Raise(name) => s.(plc := RaiseStep(s.plc, name))
    case Tick(ms) => s.(clock := s.clock.(now := s.clock.now + ms))
    case Shutdown => s.(running := false)
    case _ => s.(settings := EditStep(s.settings, e))
  }

  function Exec(s: State, es: seq<Event>): State {
    if es == [] then s else Next(Exec(s, es[..|es| - 1]), es[|es| - 1])
  }

  /** The worker thread has just been started; the PLC's bits and the settings are whatever
      they are. */
  predicate Initial(s: State) {
    && s.pc == Dial(Top) && s.watch.pc == NoWatchdog
    && s.link == Link(false, false, false, NoAttempt)
    && (s.plc.update.owed ==> s.plc.update.bit) && (s.plc.show.owed ==> s.plc.show.bit)
    && (s.plc.transfer.owed ==> s.plc.transfer.bit)
  }
}
