/** One migration run shared by four goroutines: `poll`, `tailProgress`, the
    `stageThenStartDest` goroutine and any number of `Stop` callers, talking to one reader
    over a channel of capacity 8. A run is any list of steps; a step that the code cannot
    take in that state (a full channel, a context not yet done) leaves the state alone. */
module RunProtocol {
  import opened Text
  import opened Poll

  const Capacity: nat := 8

  datatype Sender = ByApply | ByPoll | ByTail | ByStage
  datatype Update = Update(from: Sender, phase: Phase)

  /** Where poll stands. `Sending` is its plain, blocking channel send; with no `resume`
      the update is the terminal one and poll returns into its deferred closes. */
  datatype PollPc =
    | Watching(state: PollState)
    | Sending(update: Update, resume: Option<PollState>)
    | ClosingFinished
    | ClosingUpdates
    | Leaving
    | Exited

  /** `Checking` is the non-blocking test in front of `run.send`; `Offering` is the select
      inside it. `last` says that tailProgress returns after this update. */
  datatype TailPc = Locating | Idle | Checking(last: bool) | Offering(last: bool) | TailGone
  datatype StagePc = Staging | Reporting | Cancelling | StageGone
  datatype Closing = FinishedClosed | UpdatesClosed

  datatype Run = Run(
    poll: PollPc,
    tail: TailPc,
    stage: StagePc,
    stops: nat,               // Stop calls that hold the run and have not cancelled yet
    cancelled: bool,
    inflight: bool,
    buffer: seq<Update>,      // inside the channel
    received: seq<Update>,    // taken out by the reader
    closings: seq<Closing>,   // channel closes, in order
    crashed: bool,            // a panic that nothing absorbs
    sent: seq<Update>,        // everything that ever entered the channel
    ticks: seq<Tick>)         // what poll observed

  predicate Finished(s: Run) { FinishedClosed in s.closings }
  predicate Closed(s: Run) { UpdatesClosed in s.closings }
  predicate Room(s: Run) { |s.buffer| < Capacity }

  datatype Step =
    | PollSees(tick: Tick)
    | PollSends
    | PollCloses
    | TailLocates(ok: bool)
    | TailReads(last: bool)
    | TailStops
    | TailChecks
    | TailOffers(takeFinished: bool)
    | StageEnds(ok: bool)
    | StageOffers(takeFinished: bool)
    | StageCancels
    | StopLooksUp
    | StopCancels
    | Receives

  /** Apply's hand-over: the run is registered and holds its first update. */
  function Init(replay: bool): (s: Run)
  {
    var first := Update(ByApply, Submitted);
    Run(Watching(Fresh), Locating, if replay then Staging else StageGone, 0, false, true,
        [first], [], [], false, [first], [])
  }

  function Enqueue(s: Run, u: Update): Run
  {
    s.(buffer := s.buffer + [u], sent := s.sent + [u])
  }

  /** `nativeRun.send`: a select between the finished signal and the channel. A send on a
      closed channel panics and the deferred recover drops the update. `None`: still blocked. */
  function SelectSend(s: Run, u: Update, takeFinished: bool): (r: Option<Run>)
  {
    if takeFinished then (if Finished(s) then Some(s) else None)
    else if Closed(s) then Some(s)
    else if Room(s) then Some(Enqueue(s, u))
    else None
  }

  function PollNext(s: Run, step: Step): Run
    requires step.PollSees? || step.PollSends? || step.PollCloses?
  {
    match (step, s.poll)
    case (PollSees(t), Watching(ps)) =>
      if t.CtxDone? && !s.cancelled then s
      else
        var s' := s.(ticks := s.ticks + [t]);
        (match PollTick(ps, t)
         case Stop(v) => s'.(poll := Sending(Update(ByPoll, PhaseOf(v)), None))
         case Continue(ps', true) => s'.(poll := Sending(Update(ByPoll, Transferring), Some(ps')))
         case Continue(ps', false) => s'.(poll := Watching(ps')))
    case (PollSends, Sending(u, resume)) =>
      if Closed(s) then s.(crashed := true)
      else if !Room(s) then s
      else Enqueue(s, u).(poll := if resume.Some? then Watching(resume.value) else ClosingFinished)
    case (PollCloses, ClosingFinished) =>
      if Finished(s) then s.(crashed := true)
      else s.(closings := s.closings + [FinishedClosed], poll := ClosingUpdates)
    case (PollCloses, ClosingUpdates) =>
      s.(closings := if Closed(s) then s.closings else s.closings + [UpdatesClosed], poll := Leaving)
    case (PollCloses, Leaving) => s.(inflight := false, poll := Exited)
    case _ => s
  }

  function TailNext(s: Run, step: Step): Run
  {
    match (step, s.tail)
    case (TailLocates(ok), Locating) => s.(tail := if ok then Idle else TailGone)
    case (TailReads(last), Idle) => s.(tail := Checking(last))
    case (TailStops, Idle) => s.(tail := TailGone)
    case (TailChecks, Checking(last)) =>
      s.(tail := if s.cancelled || Finished(s) then TailGone else Offering(last))
    case (TailOffers(takeFinished), Offering(last)) =>
      (match SelectSend(s, Update(ByTail, Transferring), takeFinished)
       case None => s
       case Some(s') => s'.(tail := if last then TailGone else Idle))
    case _ => s
  }

  function StageNext(s: Run, step: Step): Run
  {
    match (step, s.stage)
    case (StageEnds(ok), Staging) => s.(stage := if ok then StageGone else Reporting)
    case (StageOffers(takeFinished), Reporting) =>
      (match SelectSend(s, Update(ByStage, PhaseFailed), takeFinished)
       case None => s
       case Some(s') => s'.(stage := Cancelling))
    case (StageCancels, Cancelling) => s.(cancelled := true, stage := StageGone)
    case _ => s
  }

  function Next(s: Run, step: Step): Run
  {
    match step
    case PollSees(_) => PollNext(s, step)
    case PollSends => PollNext(s, step)
    case PollCloses => PollNext(s, step)
    case StageEnds(_) => StageNext(s, step)
    case StageOffers(_) => StageNext(s, step)
    case StageCancels => StageNext(s, step)
    case StopLooksUp => if s.inflight then s.(stops := s.stops + 1) else s
    case StopCancels => if s.stops > 0 then s.(stops := s.stops - 1, cancelled := true) else s
    case Receives =>
      if s.buffer == [] then s
      else s.(received := s.received + [s.buffer[0]], buffer := s.buffer[1..])
    case _ => TailNext(s, step)
  }

  function Exec(s: Run, steps: seq<Step>): Run
  {
    if steps == [] then s
    else Next(Exec(s, steps[..|steps| - 1]), steps[|steps| - 1])
  }

  // ---------------------------------------------------------------- the invariant

  predicate Done(pc: PollPc)
  {
    pc.ClosingFinished? || pc.ClosingUpdates? || pc.Leaving? || pc.Exited?
  }

  function ClosingsAt(pc: PollPc): seq<Closing>
  {
    if pc.Leaving? || pc.Exited? then [FinishedClosed, UpdatesClosed]
    else if pc.ClosingUpdates? then [FinishedClosed]
    else []
  }

  /** Entry `k` is poll's terminal update: its last entry, and its only terminal one. */
  ghost predicate FinalAt(sent: seq<Update>, k: nat)
  {
    && k < |sent| && sent[k].from == ByPoll && TerminalPhase(sent[k].phase)
    && forall j | 0 <= j < |sent| && j != k && sent[j].from == ByPoll :: j < k && !TerminalPhase(sent[j].phase)
  }

  /** The observations end in the first deciding tick, and it decides `phase`. */
  ghost predicate DecidedAs(ticks: seq<Tick>, phase: Phase)
  {
    && ticks != [] && Undecided(ticks[..|ticks| - 1])
    && Decides(ticks, |ticks| - 1).Some?
    && PhaseOf(Decides(ticks, |ticks| - 1).value) == phase
  }

  ghost predicate SendersOk(sent: seq<Update>, stage: StagePc)
  {
    && sent != [] && sent[0] == Update(ByApply, Submitted)
    && (forall i | 0 < i < |sent| :: sent[i].from != ByApply)
    && (forall u | u in sent && u.from == ByTail :: u.phase == Transferring)
    && (forall u | u in sent && u.from == ByStage :: u.phase == PhaseFailed)
    && (stage.Staging? || stage.Reporting? ==> forall u | u in sent :: u.from != ByStage)
    && (forall i, j | 0 <= i < |sent| && 0 <= j < |sent| && sent[i].from == ByStage && sent[j].from == ByStage ::
      i == j)
  }

  ghost predicate PollOk(pc: PollPc, sent: seq<Update>, ticks: seq<Tick>)
  {
    if Done(pc) then exists k: nat :: FinalAt(sent, k) && DecidedAs(ticks, sent[k].phase)
    else
      && (forall u | u in sent && u.from == ByPoll :: !TerminalPhase(u.phase))
      && match pc
         case Watching(ps) => Undecided(ticks) && Tracks(ps, ticks)
         case Sending(u, Some(ps)) => u == Update(ByPoll, Transferring) && Undecided(ticks) && Tracks(ps, ticks)
         case Sending(u, None) => u.from == ByPoll && TerminalPhase(u.phase) && DecidedAs(ticks, u.phase)
         case _ => true
  }

  ghost predicate Inv(s: Run)
  {
    && !s.crashed
    && s.sent == s.received + s.buffer && |s.buffer| <= Capacity
    && s.closings == ClosingsAt(s.poll)
    && (s.inflight <==> !s.poll.Exited?)
    && SendersOk(s.sent, s.stage)
    && PollOk(s.poll, s.sent, s.ticks)
  }

  lemma InitInv(replay: bool)
    ensures Inv(Init(replay))
  {
  }

  lemma PollSeesKeepsInv(s: Run, t: Tick)
    requires Inv(s)
    ensures Inv(Next(s, PollSees(t)))
  {
    if s.poll.Watching? && !(t.CtxDone? && !s.cancelled) {
      TickMatches(s.poll.state, s.ticks, t);
      var s' := Next(s, PollSees(t));
      assert s'.ticks[..|s'.ticks| - 1] == s.ticks;
      if PollTick(s.poll.state, t).Continue? { UndecidedSnoc(s.ticks, t); }
    }
  }

  lemma SendersSnoc(s: Run, u: Update, s': Run)
    requires SendersOk(s.sent, s.stage) && s'.sent == s.sent + [u] && u.from != ByApply
    requires u.from == ByTail ==> u.phase == Transferring
    requires if u.from == ByStage then u.phase == PhaseFailed && s.stage.Reporting? && s'.stage.Cancelling?
      else s'.stage == s.stage
    ensures SendersOk(s'.sent, s'.stage)
  {
    assert forall w | w in s'.sent :: w in s.sent || w == u;
    forall i, j | 0 <= i < |s'.sent| && 0 <= j < |s'.sent| && s'.sent[i].from == ByStage && s'.sent[j].from == ByStage
      ensures i == j
    {
      assert u.from == ByStage ==> forall h | 0 <= h < |s.sent| :: s.sent[h] in s.sent && s.sent[h].from != ByStage;
    }
  }

  /** Poll's own update keeps poll's part of the invariant. */
  lemma PollSentOk(s: Run, s': Run)
    requires PollOk(s.poll, s.sent, s.ticks) && s.poll.Sending? && s'.sent == s.sent + [s.poll.update]
      && s'.ticks == s.ticks
    requires s'.poll == if s.poll.resume.Some? then Watching(s.poll.resume.value) else ClosingFinished
    ensures PollOk(s'.poll, s'.sent, s'.ticks)
  {
    if s.poll.resume.None? {
      assert forall j | 0 <= j < |s.sent| :: s'.sent[j] == s.sent[j] && s.sent[j] in s.sent;
      assert FinalAt(s'.sent, |s.sent|);
    } else {
      assert forall w | w in s'.sent :: w in s.sent || w == s.poll.update;
    }
  }

  lemma PollSendsKeepsInv(s: Run)
    requires Inv(s)
    ensures Inv(Next(s, PollSends))
  {
    if s.poll.Sending? && Room(s) {
      var s' := Next(s, PollSends);
      SendersSnoc(s, s.poll.update, s');
      PollSentOk(s, s');
      Assoc(s.received, s.buffer, [s.poll.update]);
    }
  }

  lemma FinalAtSnoc(sent: seq<Update>, k: nat, u: Update)
    requires FinalAt(sent, k) && u.from != ByPoll
    ensures FinalAt(sent + [u], k)
  {
  }

  lemma EnqueueKeepsPollOk(s: Run, u: Update)
    requires PollOk(s.poll, s.sent, s.ticks) && u.from != ByPoll
    ensures PollOk(s.poll, s.sent + [u], s.ticks)
  {
    if Done(s.poll) {
      var k: nat :| FinalAt(s.sent, k) && DecidedAs(s.ticks, s.sent[k].phase);
      FinalAtSnoc(s.sent, k, u);
      assert (s.sent + [u])[k] == s.sent[k];
    }
  }

  lemma EnqueueKeepsInv(s: Run, u: Update, s': Run)
    requires Inv(s) && Room(s)
    requires u in {Update(ByTail, Transferring), Update(ByStage, PhaseFailed)}
    requires u.from == ByStage ==> s.stage.Reporting? && s'.stage.Cancelling?
    requires s' == Enqueue(s, u).(tail := s'.tail, stage := s'.stage)
    requires u.from == ByTail ==> s'.stage == s.stage
    ensures Inv(s')
  {
    EnqueueKeepsPollOk(s, u);
    SendersSnoc(s, u, s');
    Assoc(s.received, s.buffer, [u]);
  }

  lemma TailKeepsInv(s: Run, step: Step)
    requires Inv(s)
    ensures Inv(TailNext(s, step))
  {
    var s' := TailNext(s, step);
    if s'.sent != s.sent {
      EnqueueKeepsInv(s, Update(ByTail, Transferring), s');
    } else {
      assert s' == s.(tail := s'.tail);
    }
  }

  lemma StageKeepsInv(s: Run, step: Step)
    requires Inv(s)
    ensures Inv(StageNext(s, step))
  {
    var s' := StageNext(s, step);
    if s'.sent != s.sent {
      EnqueueKeepsInv(s, Update(ByStage, PhaseFailed), s');
    } else {
      assert s' == s.(stage := s'.stage, cancelled := s'.cancelled);
    }
  }

  lemma ReceivesKeepsInv(s: Run)
    requires Inv(s)
    ensures Inv(Next(s, Receives))
  {
    if s.buffer != [] {
      Assoc(s.received, [s.buffer[0]], s.buffer[1..]);
      assert s.buffer == [s.buffer[0]] + s.buffer[1..];
    }
  }

  lemma PollClosesKeepsInv(s: Run)
    requires Inv(s)
    ensures Inv(Next(s, PollCloses))
  {
  }

  lemma StopKeepsInv(s: Run, step: Step)
    requires Inv(s) && (step.StopLooksUp? || step.StopCancels?)
    ensures Inv(Next(s, step))
  {
  }

  lemma NextKeepsInv(s: Run, step: Step)
    requires Inv(s)
    ensures Inv(Next(s, step))
  {
    match step
    case PollSees(t) => PollSeesKeepsInv(s, t);
    case PollSends => PollSendsKeepsInv(s);
    case StageEnds(_) => StageKeepsInv(s, step);
    case StageOffers(_) => StageKeepsInv(s, step);
    case StageCancels => StageKeepsInv(s, step);
    case Receives => ReceivesKeepsInv(s);
    case PollCloses => PollClosesKeepsInv(s);
    case StopLooksUp => StopKeepsInv(s, step);
    case StopCancels => StopKeepsInv(s, step);
    case _ => TailKeepsInv(s, step);
  }

  lemma {:induction false} ExecKeepsInv(s: Run, steps: seq<Step>)
    requires Inv(s)
    ensures Inv(Exec(s, steps))
  {
    if steps != [] {
      ExecKeepsInv(s, steps[..|steps| - 1]);
      NextKeepsInv(Exec(s, steps[..|steps| - 1]), steps[|steps| - 1]);
    }
  }

  // ---------------------------------------------------------------- what every run keeps

  /** In every run: no unabsorbed panic, the channel never holds more than its capacity and
      loses nothing, and the closes that have happened are a prefix of finished, updates. */
  lemma EveryRunIsSafe(replay: bool, steps: seq<Step>)
    ensures var s := Exec(Init(replay), steps);
            && !s.crashed
            && s.sent == s.received + s.buffer && |s.buffer| <= Capacity
            && s.closings <= [FinishedClosed, UpdatesClosed]
            && (!s.inflight ==> s.closings == [FinishedClosed, UpdatesClosed])
  {
    InitInv(replay);
    ExecKeepsInv(Init(replay), steps);
  }

  lemma ClosedIsFrozen(s: Run, step: Step)
    requires Inv(s) && Closed(s)
    ensures var s' := Next(s, step); s'.sent == s.sent && s'.closings == s.closings
  {
  }

  /** Once updates is closed, nothing ever enters it again, whoever runs. */
  lemma {:induction false} NothingEntersAfterClose(s: Run, steps: seq<Step>)
    requires Inv(s) && Closed(s)
    ensures Exec(s, steps).sent == s.sent
    ensures Exec(s, steps).closings == s.closings
  {
    if steps != [] {
      var before := steps[..|steps| - 1];
      NothingEntersAfterClose(s, before);
      ExecKeepsInv(s, before);
      ClosedIsFrozen(Exec(s, before), steps[|steps| - 1]);
    }
  }

  /** The reader has taken everything out of a closed channel: its range loop ends. */
  predicate Drained(s: Run)
  {
    Closed(s) && s.buffer == []
  }

  /** Every drained stream starts with `submitted` and holds exactly one terminal update from
      poll, with the verdict of the observations; only progress lines and at most one staging
      failure can come after it. */
  lemma DrainedStream(replay: bool, steps: seq<Step>) returns (k: nat)
    requires Drained(Exec(Init(replay), steps))
    ensures var s := Exec(Init(replay), steps);
            && s.received != [] && s.received[0] == Update(ByApply, Submitted)
            && FinalAt(s.received, k) && DecidedAs(s.ticks, s.received[k].phase)
            && (forall i | k < i < |s.received| ::
              s.received[i] in {Update(ByTail, Transferring), Update(ByStage, PhaseFailed)})
            && (!replay ==> forall u | u in s.received :: u.from != ByStage)
  {
    InitInv(replay);
    ExecKeepsInv(Init(replay), steps);
    var s := Exec(Init(replay), steps);
    assert s.received == s.sent;
    k :| FinalAt(s.sent, k) && DecidedAs(s.ticks, s.sent[k].phase);
    forall i | k < i < |s.received|
      ensures s.received[i] in {Update(ByTail, Transferring), Update(ByStage, PhaseFailed)}
    {
      assert s.received[i] in s.sent;
      assert s.received[i].from != ByPoll && s.received[i].from != ByApply;
    }
    if !replay {
      NoStageWithoutReplay(steps);
    }
  }

  ghost predicate NoStage(s: Run)
  {
    s.stage.StageGone? && forall u | u in s.sent :: u.from != ByStage
  }

  lemma EnqueueKeepsNoStage(s: Run, u: Update)
    requires NoStage(s) && u.from != ByStage
    ensures NoStage(Enqueue(s, u))
  {
  }

  lemma PollKeepsNoStage(s: Run, step: Step)
    requires Inv(s) && NoStage(s) && (step.PollSees? || step.PollSends? || step.PollCloses?)
    ensures NoStage(PollNext(s, step))
  {
    if s.poll.Sending? {
      EnqueueKeepsNoStage(s, s.poll.update);
    }
  }

  lemma TailKeepsNoStage(s: Run, step: Step)
    requires NoStage(s)
    ensures NoStage(TailNext(s, step))
  {
    EnqueueKeepsNoStage(s, Update(ByTail, Transferring));
  }

  lemma NextKeepsNoStage(s: Run, step: Step)
    requires Inv(s) && NoStage(s)
    ensures NoStage(Next(s, step))
  {
    match step
    case PollSees(_) => PollKeepsNoStage(s, step);
    case PollSends => PollKeepsNoStage(s, step);
    case PollCloses => PollKeepsNoStage(s, step);
    case StageEnds(_) =>
    case StageOffers(_) =>
    case StageCancels =>
    case StopLooksUp =>
    case StopCancels =>
    case Receives =>
    case _ => TailKeepsNoStage(s, step);
  }

  lemma {:induction false} NoStageWithoutReplay(steps: seq<Step>)
    ensures NoStage(Exec(Init(false), steps))
  {
    if steps != [] {
      var before := steps[..|steps| - 1];
      NoStageWithoutReplay(before);
      InitInv(false);
      ExecKeepsInv(Init(false), before);
      NextKeepsNoStage(Exec(Init(false), before), steps[|steps| - 1]);
    }
  }

  // ---------------------------------------------------------------- the two readers

  /** The terminal phase that ends up sticky in the dashboard: the last terminal one. */
  function StickyPhase(stream: seq<Update>): Option<Phase>
  {
    if stream == [] then None
    else
      var last := stream[|stream| - 1];
      if TerminalPhase(last.phase) then Some(last.phase) else StickyPhase(stream[..|stream| - 1])
  }

  /** The range loop of runOrchestrator, as far as its verdict goes. */
  method DashboardVerdict(stream: seq<Update>) returns (terminal: Option<Phase>)
    ensures terminal == StickyPhase(stream)
  {
    terminal := None;
    for i := 0 to |stream|
      invariant terminal == StickyPhase(stream[..i])
    {
      assert stream[..i + 1][..i] == stream[..i];
      if TerminalPhase(stream[i].phase) {
        terminal := Some(stream[i].phase);
      }
    }
    assert stream[..|stream|] == stream;
  }

  /** What the controller's dispatch reports: the last phase, if it is terminal. */
  function DispatchOutcome(stream: seq<Update>): Option<Phase>
  {
    if stream != [] && TerminalPhase(stream[|stream| - 1].phase) then Some(stream[|stream| - 1].phase) else None
  }

  /** The controller's dispatch keeps only the last phase it read. */
  method DispatchVerdict(stream: seq<Update>) returns (outcome: Option<Phase>)
    ensures outcome == DispatchOutcome(stream)
  {
    var lastPhase: Option<Phase> := None;
    for i := 0 to |stream|
      invariant i == 0 ==> lastPhase == None
      invariant i > 0 ==> lastPhase == Some(stream[i - 1].phase)
    {
      lastPhase := Some(stream[i].phase);
    }
    outcome := match lastPhase
      case Some(Succeeded) => Some(Succeeded)
      case Some(PhaseFailed) => Some(PhaseFailed)
      case _ => None;
  }

  lemma {:induction false} StickyAfter(stream: seq<Update>, k: nat)
    requires FinalAt(stream, k)
    requires forall i | k < i < |stream| :: stream[i] in {Update(ByTail, Transferring), Update(ByStage, PhaseFailed)}
    ensures StickyPhase(stream) ==
            Some(if exists i :: k < i < |stream| && stream[i].from == ByStage then PhaseFailed else stream[k].phase)
  {
    var n := |stream| - 1;
    if n > k && !TerminalPhase(stream[n].phase) {
      var init := stream[..n];
      assert FinalAt(init, k);
      StickyAfter(init, k);
      assert forall i | k < i < n :: init[i] == stream[i];
    }
  }

  /** The dashboard always ends with a verdict, and it is poll's verdict on the observations
      unless a staging failure slipped in after a success. Without command-line replay it is
      poll's verdict, always. */
  lemma DashboardIsPoll(replay: bool, steps: seq<Step>)
    requires Drained(Exec(Init(replay), steps))
    ensures var s := Exec(Init(replay), steps);
            var d := StickyPhase(s.received);
            && d.Some?
            && (DecidedAs(s.ticks, d.value) <==>
                !(DecidedAs(s.ticks, Succeeded) && LateStageFailure(s.received)))
            && (!replay ==> DecidedAs(s.ticks, d.value))
  {
    var k := DrainedStream(replay, steps);
    var s := Exec(Init(replay), steps);
    StickyAfter(s.received, k);
  }

  /** A staging failure entered the channel behind poll's terminal update. */
  ghost predicate LateStageFailure(stream: seq<Update>)
  {
    exists k: nat, i :: FinalAt(stream, k) && k < i < |stream| && stream[i].from == ByStage
  }

  /** The controller loses a verdict ("watch closed without terminal status") exactly when a
      progress update got in last, behind poll's terminal one; otherwise it reports what the
      dashboard reports. */
  lemma DispatchLosesExactly(replay: bool, steps: seq<Step>)
    requires Drained(Exec(Init(replay), steps))
    ensures var s := Exec(Init(replay), steps);
            && s.received != []
            && (DispatchOutcome(s.received).None? <==> s.received[|s.received| - 1].from == ByTail)
            && (DispatchOutcome(s.received).Some? ==> DispatchOutcome(s.received) == StickyPhase(s.received))
  {
    var k := DrainedStream(replay, steps);
  }

  // The race in the open: tailProgress passes its check, poll sees the destination complete
  // and enqueues success, and the progress update goes in before the closes.

  lemma ExecSnoc(s: Run, steps: seq<Step>, step: Step)
    ensures Exec(s, steps + [step]) == Next(Exec(s, steps), step)
  {
    assert (steps + [step])[..|steps|] == steps;
  }

  /** Up to the point where poll has enqueued success and tailProgress is past its check. */
  lemma RaceFirstHalf(s: Run, t: Tick) returns (steps: seq<Step>)
    requires s == Init(false) && DestIs(t, Complete)
    ensures var sent := [Update(ByApply, Submitted), Update(ByPoll, Succeeded)];
            Exec(s, steps) == s.(tail := Offering(false), poll := ClosingFinished, ticks := [t], buffer := sent,
              sent := sent)
  {
    steps := [TailLocates(true)];
    ExecSnoc(s, [], TailLocates(true));
    ExecSnoc(s, steps, TailReads(false));
    steps := steps + [TailReads(false)];
    ExecSnoc(s, steps, TailChecks);
    steps := steps + [TailChecks];
    ExecSnoc(s, steps, PollSees(t));
    steps := steps + [PollSees(t)];
    ExecSnoc(s, steps, PollSends);
    steps := steps + [PollSends];
  }

  /** poll reported success, the dashboard shows success, and dispatch counts a failure. */
  lemma DispatchCanLoseSuccess(t: Tick) returns (steps: seq<Step>)
    requires DestIs(t, Complete)
    ensures var s := Exec(Init(false), steps);
            && Drained(s)
            && DecidedAs(s.ticks, Succeeded)
            && StickyPhase(s.received) == Some(Succeeded)
            && DispatchOutcome(s.received) == None
  {
    var s := Init(false);
    steps := RaceFirstHalf(s, t);
    ExecSnoc(s, steps, TailOffers(false));
    steps := steps + [TailOffers(false)];
    ExecSnoc(s, steps, PollCloses);
    steps := steps + [PollCloses];
    ExecSnoc(s, steps, PollCloses);
    steps := steps + [PollCloses];
    steps := ReadThree(s, steps);
    OneTickDecides(t);
  }

  lemma ReadThree(s: Run, steps: seq<Step>) returns (more: seq<Step>)
    requires var x := Exec(s, steps); |x.buffer| == 3 && x.received == []
    ensures Exec(s, more) == Exec(s, steps).(buffer := [], received := Exec(s, steps).buffer)
  {
    var x := Exec(s, steps);
    more := steps + [Receives];
    ExecSnoc(s, steps, Receives);
    ExecSnoc(s, more, Receives);
    more := more + [Receives];
    ExecSnoc(s, more, Receives);
    more := more + [Receives];
    assert Exec(s, more).received == x.buffer;
  }

  // The other race: the destination completes while staging fails. Poll enqueues success, and the
  // staging goroutine's failure goes in before the closes.

  lemma StagingFirstHalf(s: Run, t: Tick) returns (steps: seq<Step>)
    requires s == Init(true) && DestIs(t, Complete)
    ensures var sent := [Update(ByApply, Submitted), Update(ByPoll, Succeeded)];
            Exec(s, steps) == s.(stage := Reporting, poll := ClosingFinished, ticks := [t], buffer := sent,
              sent := sent)
  {
    steps := [StageEnds(false)];
    ExecSnoc(s, [], StageEnds(false));
    ExecSnoc(s, steps, PollSees(t));
    steps := steps + [PollSees(t)];
    ExecSnoc(s, steps, PollSends);
    steps := steps + [PollSends];
  }

  /** Poll decided for success, and the dashboard and dispatch both report a failure. */
  lemma StagingCanOverrideSuccess(t: Tick) returns (steps: seq<Step>)
    requires DestIs(t, Complete)
    ensures var s := Exec(Init(true), steps);
            && Drained(s)
            && DecidedAs(s.ticks, Succeeded)
            && StickyPhase(s.received) == Some(PhaseFailed)
            && DispatchOutcome(s.received) == Some(PhaseFailed)
  {
    var s := Init(true);
    steps := StagingFirstHalf(s, t);
    ExecSnoc(s, steps, StageOffers(false));
    steps := steps + [StageOffers(false)];
    ExecSnoc(s, steps, PollCloses);
    steps := steps + [PollCloses];
    ExecSnoc(s, steps, PollCloses);
    steps := steps + [PollCloses];
    steps := ReadThree(s, steps);
    OneTickDecides(t);
  }

  lemma OneTickDecides(t: Tick)
    requires DestIs(t, Complete)
    ensures DecidedAs([t], Succeeded)
  {
    assert [t][..0] == [];
  }

  // What each goroutine leaves alone.

  predicate PollStep(step: Step) { step.PollSees? || step.PollSends? || step.PollCloses? }
  predicate StageStep(step: Step) { step.StageEnds? || step.StageOffers? || step.StageCancels? }
  predicate TailStep(step: Step)
  {
    step.TailLocates? || step.TailReads? || step.TailStops? || step.TailChecks? || step.TailOffers?
  }

  lemma PollFrame(s: Run, step: Step)
    requires PollStep(step)
    ensures var v := PollNext(s, step);
      v.stage == s.stage && v.tail == s.tail && v.stops == s.stops && v.cancelled == s.cancelled
  {
  }

  lemma TailFrame(s: Run, step: Step)
    requires TailStep(step)
    ensures var v := TailNext(s, step);
      && v.stage == s.stage && v.stops == s.stops && v.cancelled == s.cancelled && v.ticks == s.ticks
      && v.closings == s.closings
  {
  }

  lemma StageFrame(s: Run, step: Step)
    requires StageStep(step)
    ensures var v := StageNext(s, step);
      v.tail == s.tail && v.stops == s.stops && v.ticks == s.ticks && v.closings == s.closings
  {
  }

  lemma NextIs(s: Run, step: Step)
    ensures PollStep(step) ==> Next(s, step) == PollNext(s, step)
    ensures TailStep(step) ==> Next(s, step) == TailNext(s, step)
    ensures StageStep(step) ==> Next(s, step) == StageNext(s, step)
    ensures !PollStep(step) && !TailStep(step) && !StageStep(step) ==> step in {StopLooksUp, StopCancels, Receives}
  {
  }

  lemma Framed(s: Run, step: Step)
    ensures PollStep(step) ==> var v := Next(s, step);
      v.stage == s.stage && v.tail == s.tail && v.stops == s.stops && v.cancelled == s.cancelled
    ensures TailStep(step) ==> var v := Next(s, step);
      && v.stage == s.stage && v.stops == s.stops && v.cancelled == s.cancelled && v.ticks == s.ticks
      && v.closings == s.closings
    ensures StageStep(step) ==> var v := Next(s, step);
      v.tail == s.tail && v.stops == s.stops && v.ticks == s.ticks && v.closings == s.closings
  {
    NextIs(s, step);
    if PollStep(step) { PollFrame(s, step); }
    if TailStep(step) { TailFrame(s, step); }
    if StageStep(step) { StageFrame(s, step); }
  }

  // ---------------------------------------------------------------- who cancels a run, told from the steps

  /** The run before step `n`. */
  function At(replay: bool, steps: seq<Step>, n: nat): Run
    requires n <= |steps|
  {
    Exec(Init(replay), steps[..n])
  }

  lemma AtNext(replay: bool, steps: seq<Step>, n: nat)
    requires n < |steps|
    ensures At(replay, steps, n + 1) == Next(At(replay, steps, n), steps[n])
  {
    assert steps[..n + 1][..n] == steps[..n];
  }

  /** Step `i` is a Stop call that finds the run registered. */
  predicate Looked(replay: bool, steps: seq<Step>, i: nat)
    requires i < |steps|
  {
    steps[i] == StopLooksUp && At(replay, steps, i).inflight
  }

  ghost predicate LookedBy(replay: bool, steps: seq<Step>, n: nat)
    requires n <= |steps|
  {
    exists i: nat :: i < n && Looked(replay, steps, i)
  }

  /** A Stop call that found the run has gone on to cancel. */
  ghost predicate StoppedBy(replay: bool, steps: seq<Step>, n: nat)
    requires n <= |steps|
  {
    exists i: nat, k: nat :: i < k < n && Looked(replay, steps, i) && steps[k] == StopCancels
  }

  /** Staging came to its end at step `j`, and failed. */
  predicate StagingFails(steps: seq<Step>, j: nat)
    requires j < |steps|
  {
    steps[j] == StageEnds(false) && forall i | 0 <= i < j :: !steps[i].StageEnds?
  }

  ghost predicate FailedBy(replay: bool, steps: seq<Step>, n: nat)
    requires n <= |steps|
  {
    replay && exists j: nat :: j < n && StagingFails(steps, j)
  }

  /** Step `i` offers the staging failure, and the offer is taken or given up. */
  ghost predicate Reports(replay: bool, steps: seq<Step>, i: nat)
    requires i < |steps|
  {
    && FailedBy(replay, steps, i) && steps[i].StageOffers?
    && var s := At(replay, steps, i); if steps[i].takeFinished then Finished(s) else Closed(s) || Room(s)
  }

  ghost predicate ReportedBy(replay: bool, steps: seq<Step>, n: nat)
    requires n <= |steps|
  {
    exists i: nat :: i < n && Reports(replay, steps, i)
  }

  /** The staging goroutine has gone on to cancel after its report. */
  ghost predicate StageCancelledBy(replay: bool, steps: seq<Step>, n: nat)
    requires n <= |steps|
  {
    exists i: nat, k: nat :: i < k < n && Reports(replay, steps, i) && steps[k] == StageCancels
  }

  predicate StagingOver(steps: seq<Step>, n: nat)
    requires n <= |steps|
  {
    exists i | 0 <= i < n :: steps[i].StageEnds?
  }

  /** Where the staging goroutine is, told from the steps. */
  ghost function StageTold(replay: bool, steps: seq<Step>, n: nat): StagePc
    requires n <= |steps|
  {
    if !replay then StageGone
    else if !StagingOver(steps, n) then Staging
    else if !FailedBy(replay, steps, n) then StageGone
    else if !ReportedBy(replay, steps, n) then Reporting
    else if !StageCancelledBy(replay, steps, n) then Cancelling
    else StageGone
  }

  lemma StopHistoryStep(replay: bool, steps: seq<Step>, n: nat)
    requires n < |steps|
    ensures LookedBy(replay, steps, n + 1) <==> LookedBy(replay, steps, n) || Looked(replay, steps, n)
    ensures StoppedBy(replay, steps, n + 1) <==>
      StoppedBy(replay, steps, n) || (LookedBy(replay, steps, n) && steps[n] == StopCancels)
  {
  }

  lemma FailedStep(replay: bool, steps: seq<Step>, n: nat)
    requires n < |steps|
    ensures StagingOver(steps, n + 1) <==> StagingOver(steps, n) || steps[n].StageEnds?
    ensures FailedBy(replay, steps, n + 1) <==>
      FailedBy(replay, steps, n) || (replay && steps[n] == StageEnds(false) && !StagingOver(steps, n))
    ensures FailedBy(replay, steps, n) ==> StagingOver(steps, n)
  {
    if replay && steps[n] == StageEnds(false) && !StagingOver(steps, n) {
      assert StagingFails(steps, n);
    }
    if FailedBy(replay, steps, n) {
      var j: nat :| j < n && StagingFails(steps, j);
      assert steps[j].StageEnds?;
    }
  }

  lemma ReportedStep(replay: bool, steps: seq<Step>, n: nat)
    requires n < |steps|
    ensures ReportedBy(replay, steps, n + 1) <==> ReportedBy(replay, steps, n) || Reports(replay, steps, n)
    ensures StageCancelledBy(replay, steps, n + 1) <==>
      StageCancelledBy(replay, steps, n) || (ReportedBy(replay, steps, n) && steps[n] == StageCancels)
    ensures ReportedBy(replay, steps, n) ==> FailedBy(replay, steps, n)
    ensures StageCancelledBy(replay, steps, n) ==> ReportedBy(replay, steps, n)
  {
    if ReportedBy(replay, steps, n) {
      var i: nat :| i < n && Reports(replay, steps, i);
      assert FailedBy(replay, steps, i);
    }
  }

  lemma {:induction false} StageIsTold(replay: bool, steps: seq<Step>, n: nat)
    requires n <= |steps|
    ensures At(replay, steps, n).stage == StageTold(replay, steps, n)
  {
    if n == 0 {
      assert steps[..0] == [];
    } else {
      StageIsTold(replay, steps, n - 1);
      AtNext(replay, steps, n - 1);
      FailedStep(replay, steps, n - 1);
      ReportedStep(replay, steps, n - 1);
      StageMoves(At(replay, steps, n - 1), steps[n - 1]);
    }
  }

  /** Who moves the staging goroutine, and where to. */
  lemma StageMoves(s: Run, step: Step)
    ensures Next(s, step).stage ==
      if s.stage.Staging? && step.StageEnds? then (if step.ok then StageGone else Reporting)
      else if s.stage.Reporting? && step.StageOffers?
        && (if step.takeFinished then Finished(s) else Closed(s) || Room(s))
      then Cancelling
      else if s.stage.Cancelling? && step.StageCancels? then StageGone
      else s.stage
  {
    Framed(s, step);
    NextIs(s, step);
  }

  lemma StageCancelMoves(s: Run, step: Step)
    requires StageStep(step)
    ensures StageNext(s, step).cancelled <==> s.cancelled || (step == StageCancels && s.stage.Cancelling?)
  {
  }

  /** Who changes what Stop is about. */
  lemma CancelMoves(s: Run, step: Step)
    ensures Next(s, step).stops ==
      s.stops + (if step == StopLooksUp && s.inflight then 1 else if step == StopCancels && s.stops > 0 then -1 else 0)
    ensures Next(s, step).cancelled <==>
      s.cancelled || (step == StopCancels && s.stops > 0) || (step == StageCancels && s.stage.Cancelling?)
  {
    Framed(s, step);
    NextIs(s, step);
    if StageStep(step) { StageCancelMoves(s, step); }
  }

  ghost predicate Told(replay: bool, steps: seq<Step>, n: nat, stops: nat, cancelled: bool)
    requires n <= |steps|
  {
    && (stops > 0 ==> LookedBy(replay, steps, n))
    && (LookedBy(replay, steps, n) ==> stops > 0 || StoppedBy(replay, steps, n))
    && (cancelled <==> StoppedBy(replay, steps, n) || StageCancelledBy(replay, steps, n))
  }

  lemma CancellingIsTold(replay: bool, steps: seq<Step>, n: nat)
    requires n < |steps|
    ensures At(replay, steps, n).stage.Cancelling? <==>
      ReportedBy(replay, steps, n) && !StageCancelledBy(replay, steps, n)
  {
    StageIsTold(replay, steps, n);
    FailedStep(replay, steps, n);
    ReportedStep(replay, steps, n);
  }

  lemma ToldStep(replay: bool, steps: seq<Step>, n: nat, s: Run)
    requires n < |steps| && s == At(replay, steps, n) && Told(replay, steps, n, s.stops, s.cancelled)
    ensures Told(replay, steps, n + 1, Next(s, steps[n]).stops, Next(s, steps[n]).cancelled)
  {
    StopHistoryStep(replay, steps, n);
    ReportedStep(replay, steps, n);
    CancellingIsTold(replay, steps, n);
    CancelMoves(s, steps[n]);
  }

  lemma {:induction false} CancelIsTold(replay: bool, steps: seq<Step>, n: nat)
    requires n <= |steps|
    ensures Told(replay, steps, n, At(replay, steps, n).stops, At(replay, steps, n).cancelled)
  {
    if n == 0 {
      assert steps[..0] == [];
    } else {
      CancelIsTold(replay, steps, n - 1);
      AtNext(replay, steps, n - 1);
      ToldStep(replay, steps, n - 1, At(replay, steps, n - 1));
    }
  }

  /** A run is cancelled exactly if a Stop call that had found it registered has gone on to cancel it,
      or the staging goroutine has after its failure was reported. */
  lemma CancelledExactly(replay: bool, steps: seq<Step>)
    ensures Exec(Init(replay), steps).cancelled <==>
      StoppedBy(replay, steps, |steps|) || StageCancelledBy(replay, steps, |steps|)
  {
    CancelIsTold(replay, steps, |steps|);
    assert steps[..|steps|] == steps;
  }

  /** Stop stops: from every run whose poll is watching, a Stop call followed by poll's next look at
      its context has poll sending a failure and nothing after it. */
  lemma StopEndsPoll(replay: bool, steps: seq<Step>)
    requires Exec(Init(replay), steps).poll.Watching?
    ensures var s := Exec(Init(replay), steps + [StopLooksUp] + [StopCancels] + [PollSees(CtxDone)]);
      s.cancelled && s.poll == Sending(Update(ByPoll, PhaseFailed), None)
  {
    InitInv(replay);
    ExecKeepsInv(Init(replay), steps);
    StopThenLook(Exec(Init(replay), steps));
    ThreeMore(Init(replay), steps, StopLooksUp, StopCancels, PollSees(CtxDone));
  }

  lemma ThreeMore(s: Run, steps: seq<Step>, a: Step, b: Step, c: Step)
    ensures Exec(s, steps + [a] + [b] + [c]) == Next(Next(Next(Exec(s, steps), a), b), c)
  {
    ExecSnoc(s, steps, a);
    ExecSnoc(s, steps + [a], b);
    ExecSnoc(s, steps + [a] + [b], c);
  }

  lemma StopThenLook(s: Run)
    requires s.inflight <==> !s.poll.Exited?
    requires s.poll.Watching?
    ensures var v := Next(Next(Next(s, StopLooksUp), StopCancels), PollSees(CtxDone));
      v.cancelled && v.poll == Sending(Update(ByPoll, PhaseFailed), None)
  {
    var a := s.(stops := s.stops + 1);
    assert Next(s, StopLooksUp) == a;
    var b := a.(stops := s.stops, cancelled := true);
    assert Next(a, StopCancels) == b;
  }

  /** Poll reports a cancellation only in a run that was cancelled. */
  lemma {:induction false} CtxDoneNeedsCancel(replay: bool, steps: seq<Step>, n: nat)
    requires n <= |steps|
    ensures CtxDone in At(replay, steps, n).ticks ==> At(replay, steps, n).cancelled
  {
    if n == 0 {
      assert steps[..0] == [];
    } else {
      CtxDoneNeedsCancel(replay, steps, n - 1);
      AtNext(replay, steps, n - 1);
      CancelMoves(At(replay, steps, n - 1), steps[n - 1]);
      TicksMove(At(replay, steps, n - 1), steps[n - 1]);
    }
  }

  lemma PollTicksMove(s: Run, step: Step)
    requires PollStep(step)
    ensures var v := PollNext(s, step);
      v.ticks == s.ticks || (step.PollSees? && v.ticks == s.ticks + [step.tick] && (step.tick.CtxDone? ==> s.cancelled))
  {
  }

  lemma TicksMove(s: Run, step: Step)
    ensures var v := Next(s, step);
      v.ticks == s.ticks || (step.PollSees? && v.ticks == s.ticks + [step.tick] && (step.tick.CtxDone? ==> s.cancelled))
  {
    Framed(s, step);
    NextIs(s, step);
    if PollStep(step) { PollTicksMove(s, step); }
  }

  // ---------------------------------------------------------------- what the progress tail can still send

  function TailUpdates(sent: seq<Update>): nat
  {
    if sent == [] then 0
    else TailUpdates(sent[..|sent| - 1]) + if sent[|sent| - 1].from == ByTail then 1 else 0
  }

  /** How many updates the tail may still send, if that is bounded: none once it is gone; the one it
      is offering, if that is its last or the run is finished or cancelled; and otherwise none if the
      run is finished or cancelled, because it checks before each. */
  function Allowance(s: Run): Option<nat>
  {
    var stopping := s.cancelled || Finished(s);
    match s.tail
    case TailGone => Some(0)
    case Offering(last) => if last || stopping then Some(1) else None
    case Checking(last) => if stopping then Some(0) else if last then Some(1) else None
    case _ => if stopping then Some(0) else None
  }

  lemma TailSnoc(sent: seq<Update>, u: Update)
    ensures TailUpdates(sent + [u]) == TailUpdates(sent) + if u.from == ByTail then 1 else 0
  {
    assert (sent + [u])[..|sent|] == sent;
  }

  /** What a step puts into the channel. */
  lemma SentMoves(s: Run, step: Step)
    requires PollSpeaksForItself(s)
    ensures var v := Next(s, step);
      || (v.sent == s.sent && (step.TailOffers? && s.tail.Offering? ==> v.tail == s.tail || v.tail in {Idle, TailGone}))
      || (exists u :: v.sent == s.sent + [u] && (u.from == ByTail <==> step.TailOffers? && s.tail.Offering?))
  {
    var v := Next(s, step);
    if v.sent != s.sent {
      var u := v.sent[|s.sent|];
      assert v.sent == s.sent + [u];
    }
  }

  predicate PollSpeaksForItself(s: Run)
  {
    s.poll.Sending? ==> s.poll.update.from == ByPoll
  }

  lemma InvSpeaks(s: Run)
    requires Inv(s)
    ensures PollSpeaksForItself(s)
  {
  }

  lemma StoppingStays(s: Run, step: Step)
    ensures (s.cancelled ==> Next(s, step).cancelled) && (Finished(s) ==> Finished(Next(s, step)))
  {
  }

  lemma OtherStepsLeaveTail(s: Run, step: Step)
    requires !TailStep(step)
    ensures Next(s, step).tail == s.tail
  {
    Framed(s, step);
    NextIs(s, step);
  }

  lemma TailAllowance(s: Run, step: Step)
    requires TailStep(step) && Allowance(s).Some?
    ensures var v := TailNext(s, step);
      && Allowance(v).Some?
      && (if v.sent == s.sent then Allowance(v).value <= Allowance(s).value
          else v.sent == s.sent + [Update(ByTail, Transferring)] && Allowance(v).value < Allowance(s).value)
  {
  }

  lemma OtherAllowance(s: Run, v: Run)
    requires Allowance(s).Some? && v.tail == s.tail
    requires (s.cancelled ==> v.cancelled) && (Finished(s) ==> Finished(v))
    ensures Allowance(v).Some? && Allowance(v).value <= Allowance(s).value
  {
  }

  lemma AllowanceStep(s: Run, step: Step)
    requires Inv(s) && Allowance(s).Some?
    ensures var v := Next(s, step);
      Allowance(v).Some? && TailUpdates(v.sent) + Allowance(v).value <= TailUpdates(s.sent) + Allowance(s).value
  {
    if TailStep(step) {
      TailAllowance(s, step);
      TailSnoc(s.sent, Update(ByTail, Transferring));
    } else {
      OtherStepsLeaveTail(s, step);
      StoppingStays(s, step);
      OtherAllowance(s, Next(s, step));
      OthersSend(s, step);
    }
  }

  lemma OthersSend(s: Run, step: Step)
    requires Inv(s) && !TailStep(step)
    ensures TailUpdates(Next(s, step).sent) == TailUpdates(s.sent)
  {
    InvSpeaks(s);
    SentMoves(s, step);
    var v := Next(s, step);
    if v.sent != s.sent {
      var u :| v.sent == s.sent + [u] && (u.from == ByTail <==> step.TailOffers? && s.tail.Offering?);
      TailSnoc(s.sent, u);
    }
  }

  /** However a run goes on, the tail sends no more than its allowance: in particular, once a run is
      finished or cancelled, at most the one update that had passed its check before. */
  lemma {:induction false} TailStaysWithin(s: Run, steps: seq<Step>)
    requires Inv(s) && Allowance(s).Some?
    ensures var v := Exec(s, steps);
      Allowance(v).Some? && TailUpdates(v.sent) + Allowance(v).value <= TailUpdates(s.sent) + Allowance(s).value
  {
    if steps != [] {
      var before := steps[..|steps| - 1];
      TailStaysWithin(s, before);
      ExecKeepsInv(s, before);
      AllowanceStep(Exec(s, before), steps[|steps| - 1]);
    }
  }

  /** The tail found the source pod, at its first try. */
  ghost predicate LocatedBy(steps: seq<Step>, n: nat)
    requires n <= |steps|
  {
    exists i: nat :: i < n && steps[i] == TailLocates(true) && forall j | 0 <= j < i :: !steps[j].TailLocates?
  }

  /** How many lines the tail has read off the pod's log. */
  function LinesRead(steps: seq<Step>, n: nat): nat
    requires n <= |steps|
  {
    if n == 0 then 0 else LinesRead(steps, n - 1) + if steps[n - 1].TailReads? then 1 else 0
  }

  ghost predicate TailStory(steps: seq<Step>, n: nat, tail: TailPc, updates: nat)
    requires n <= |steps|
  {
    && (tail.Locating? ==> forall j | 0 <= j < n :: !steps[j].TailLocates?)
    && (tail.Idle? || tail.Checking? || tail.Offering? || updates > 0 ==> LocatedBy(steps, n))
    && updates + (if tail.Checking? || tail.Offering? then 1 else 0) <= LinesRead(steps, n)
  }

  lemma TailSends(s: Run, step: Step)
    requires Inv(s) && TailStep(step)
    ensures var v := Next(s, step);
      && (TailUpdates(v.sent) == TailUpdates(s.sent) ||
          (s.tail.Offering? && step.TailOffers? && TailUpdates(v.sent) == TailUpdates(s.sent) + 1 && !v.tail.Offering?))
      && (v.tail == s.tail
          || (s.tail.Locating? && step.TailLocates? && v.tail == if step.ok then Idle else TailGone)
          || (s.tail.Idle? && step.TailReads? && v.tail.Checking?)
          || (s.tail.Idle? && v.tail.TailGone?)
          || (s.tail.Checking? && (v.tail.Offering? || v.tail.TailGone?))
          || (s.tail.Offering? && (v.tail.Idle? || v.tail.TailGone?)))
  {
    TailSnoc(s.sent, Update(ByTail, Transferring));
  }

  lemma TailStoryStep(steps: seq<Step>, n: nat, s: Run)
    requires n < |steps| && Inv(s) && TailStory(steps, n, s.tail, TailUpdates(s.sent))
    ensures TailStory(steps, n + 1, Next(s, steps[n]).tail, TailUpdates(Next(s, steps[n]).sent))
  {
    LocatedStays(steps, n);
    if TailStep(steps[n]) {
      TailSends(s, steps[n]);
    } else {
      OtherStepsLeaveTail(s, steps[n]);
      OthersSend(s, steps[n]);
    }
  }

  lemma LocatedStays(steps: seq<Step>, n: nat)
    requires n < |steps|
    ensures LocatedBy(steps, n) ==> LocatedBy(steps, n + 1)
    ensures (forall j | 0 <= j < n :: !steps[j].TailLocates?) && steps[n] == TailLocates(true) ==>
      LocatedBy(steps, n + 1)
  {
  }

  lemma {:induction false} TailIsTold(replay: bool, steps: seq<Step>, n: nat)
    requires n <= |steps|
    ensures TailStory(steps, n, At(replay, steps, n).tail, TailUpdates(At(replay, steps, n).sent))
  {
    if n == 0 {
      assert steps[..0] == [];
      assert Init(replay).sent[..0] == [];
    } else {
      TailIsTold(replay, steps, n - 1);
      InitInv(replay);
      ExecKeepsInv(Init(replay), steps[..n - 1]);
      AtNext(replay, steps, n - 1);
      TailStoryStep(steps, n - 1, At(replay, steps, n - 1));
    }
  }

  /** In every run, the tail sends at most one update for each line it read, and none at all unless
      its first try to find the source pod succeeded. */
  lemma TailSendsWhatItRead(replay: bool, steps: seq<Step>)
    ensures var updates := TailUpdates(Exec(Init(replay), steps).sent);
      updates <= LinesRead(steps, |steps|) && (updates > 0 ==> LocatedBy(steps, |steps|))
  {
    TailIsTold(replay, steps, |steps|);
    assert steps[..|steps|] == steps;
  }
}
