/** What holds in every state the PLC connection can reach, under every interleaving. */
module PlcSafety {
  import opened Int16
  import opened PlcWorker

  // ---------- the session ----------

  /** Between a successful connect and the disconnect. */
  predicate HoldsSession(pc: Pc) {
    match pc
    case Dial(d) => d.ConnectedStatus? || d.Setup? || d.SetupDiag? || d.SetupStatus? || d.SetupDisconnect? ||
                    d.ReadyStatus? || d.ReadyDiag? || d.StartWatchdog?
    case Run(_) => true
    case Close(c) => c.StopWatchdog? || c.Join? || c.Disconnect?
    case Exited => false
  }

  /** Between starting the watchdog thread and joining it. */
  predicate HoldsWatchdog(pc: Pc) {
    pc.Run? || (pc.Close? && (pc.close.StopWatchdog? || pc.close.Join?))
  }

  /** Between reporting "connected" and taking it back. */
  predicate MayShowConnected(pc: Pc) {
    match pc
    case Dial(d) => d.Setup? || d.SetupDiag? || d.SetupStatus? || d.ReadyStatus? || d.ReadyDiag? || d.StartWatchdog?
    case Run(_) => true
    case Close(_) => true
    case Exited => false
  }

  /** Between collecting the diagnostics of a session and clearing them. */
  predicate MayShowLiveDiag(pc: Pc) {
    pc.Run? || pc == Dial(StartWatchdog) || (pc.Close? && !pc.close.FinalStatus?)
  }

  /** Where the diagnostics of a failed node setup are still on show. */
  predicate KeepsSetupDiag(pc: Pc) {
    match pc
    case Dial(d) => d.Top? || d.Apply? || d.ReadRevision? || d.CheckEnabled? || d.OffClear? || d.DialClear? ||
                    d.SetupStatus? || d.SetupDisconnect? || d.Wait?
    case _ => pc.Exited?
  }

  /** From the setup of a session to its start "connected" is on show. */
  predicate ShowsConnected(pc: Pc) {
    pc == Dial(Setup) || pc == Dial(ReadyDiag) || pc == Dial(StartWatchdog)
  }

  predicate LinkInv(pc: Pc, link: Link, watch: WatchPc) {
    && (link.session <==> HoldsSession(pc))
    && (!watch.NoWatchdog? <==> HoldsWatchdog(pc))
    && (link.connected ==> MayShowConnected(pc))
    && (ShowsConnected(pc) ==> link.connected)
    && (link.diag ==> MayShowLiveDiag(pc) || (KeepsSetupDiag(pc) && link.outcome.SetupFailed?))
  }

  predicate SessionInv(s: State) { LinkInv(s.pc, s.link, s.watch.pc) }

  lemma DiallingKeepsSession(s: State, a: Answer)
    requires SessionInv(s) && s.pc.Dial?
    ensures SessionInv(DialStep(s, s.pc.dial, a))
  {
    var t := DialStep(s, s.pc.dial, a);
    match s.pc.dial
    case Top | Apply | ReadRevision | CheckEnabled | OffWait(_) | Wait(_, _) =>
      assert t.link == s.link && t.watch == s.watch;
    case OffClear | DialClear | FailClear(_) =>
      assert !t.link.diag && t.watch == s.watch;
    case OffStatus | DialStatus | FailStatus(_) =>
      assert !t.link.connected && t.watch == s.watch;
    case Probe | Connect =>
      assert t.watch == s.watch && !t.link.diag;
    case _ =>
  }

  lemma OperatingKeepsSession(s: State, a: Answer)
    requires SessionInv(s) && s.pc.Run?
    ensures SessionInv(RunStep(s, s.pc.run, a))
  {
  }

  lemma ClosingKeepsSession(s: State)
    requires SessionInv(s) && s.pc.Close?
    ensures SessionInv(CloseStep(s, s.pc.close))
  {
  }

  lemma NextKeepsSession(s: State, e: Event)
    requires SessionInv(s)
    ensures SessionInv(Next(s, e))
  {
    hide DialStep, RunStep, CloseStep;
    match e
    case Worker(a) =>
      match s.pc {
        case Dial(_) => DiallingKeepsSession(s, a);
        case Run(_) => OperatingKeepsSession(s, a);
        case Close(_) => ClosingKeepsSession(s);
        case Exited =>
      }
    case _ =>
  }

  /** In every run: at the top of the outer loop there is no session, no watchdog and no
      "connected" on show, and diagnostics only from a failed node setup. "Connected" without
      a session is on show only between the disconnect and the status that follows it. */
  lemma {:induction false} SessionSafety(s: State, es: seq<Event>)
    requires Initial(s)
    ensures SessionInv(Exec(s, es))
    ensures
      var t := Exec(s, es);
      && (t.pc == Dial(Top) || t.pc == Exited ==>
            !t.link.session && t.watch.pc == NoWatchdog && !t.link.connected &&
            (t.link.diag ==> t.link.outcome == SetupFailed))
      && (t.link.connected && !t.link.session ==> t.pc == Close(FinalClear) || t.pc == Close(FinalStatus))
      && (t.watch.pc != NoWatchdog ==> t.link.session)
  {
    hide Next;
    if es != [] {
      SessionSafety(s, es[..|es| - 1]);
      NextKeepsSession(Exec(s, es[..|es| - 1]), es[|es| - 1]);
    }
  }
}
