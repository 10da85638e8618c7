/** The two loops that turn Job observations into a migration verdict: `native.poll`,
    which follows a live run, and `Reconciler.recover`, which follows the same two Jobs
    after a controller restart. Each tick is what the API server happened to answer. */
module Poll {
  import opened Text

  // ---------------------------------------------------------------- Job conditions

  datatype ConditionType = Complete | Failed | OtherType(name: string)
  datatype Condition = Condition(kind: ConditionType, holds: bool, time: int, reason: string, message: string)
  datatype Job = Job(conditions: seq<Condition>, active: int, ready: Option<int>)

  predicate IsTerminal(c: Condition)
  {
    c.holds && !c.kind.OtherType?
  }

  /** Position `i` holds the newest terminal condition; of equal times the last listed wins. */
  ghost predicate IsNewest(conds: seq<Condition>, i: nat)
  {
    && i < |conds| && IsTerminal(conds[i])
    && forall j | 0 <= j < |conds| && IsTerminal(conds[j]) ::
         conds[j].time < conds[i].time || (conds[j].time == conds[i].time && j <= i)
  }

  function LatestTerminal(conds: seq<Condition>): (r: Option<Condition>)
    ensures r.Some? ==> IsTerminal(r.value)
  {
    if conds == [] then None
    else
      var prev := LatestTerminal(conds[..|conds| - 1]);
      var c := conds[|conds| - 1];
      if IsTerminal(c) && (prev.None? || c.time >= prev.value.time) then Some(c) else prev
  }

  lemma {:induction false} LatestTerminalIsNewest(conds: seq<Condition>) returns (i: nat)
    ensures LatestTerminal(conds).None? <==> forall c | c in conds :: !IsTerminal(c)
    ensures LatestTerminal(conds).Some? ==> IsNewest(conds, i) && conds[i] == LatestTerminal(conds).value
  {
    i := 0;
    if conds != [] {
      var init, last := conds[..|conds| - 1], |conds| - 1;
      assert conds == init + [conds[last]];
      i := LatestTerminalIsNewest(init);
      if LatestTerminal(conds) == Some(conds[last]) && LatestTerminal(conds) != LatestTerminal(init) {
        i := last;
      } else if IsTerminal(conds[last]) && LatestTerminal(init).Some? && conds[last].time >= conds[i].time {
        i := last;
      }
      forall j | 0 <= j < last ensures conds[j] == init[j] { }
    }
  }

  /** The `latest`/`found` loop of LatestTerminalJobCondition. */
  method LatestTerminalJobCondition(conds: seq<Condition>) returns (r: Option<Condition>)
    ensures r == LatestTerminal(conds)
  {
    r := None;
    for k := 0 to |conds|
      invariant r == LatestTerminal(conds[..k])
    {
      var c := conds[k];
      assert conds[..k + 1][..k] == conds[..k];
      if !c.holds || c.kind.OtherType? {
        continue;
      }
      if r.None? || !(c.time < r.value.time) {
        r := Some(c);
      }
    }
    assert conds[..|conds|] == conds;
  }

  // ---------------------------------------------------------------- poll

  datatype Phase = Submitted | Transferring | Succeeded | PhaseFailed

  predicate TerminalPhase(p: Phase) { p.Succeeded? || p.PhaseFailed? }

  datatype JobView = Missing | Unavailable | Found(job: Job)

  /** One turn of poll's select: the context was done, or the ticker fired and both Jobs
      were fetched. `markAt` and `checkAt` are the two clock readings of the tick. */
  datatype Tick = CtxDone | Sample(src: JobView, dest: JobView, markAt: int, checkAt: int)

  datatype Verdict =
    | DestComplete
    | DestFailed(cond: Condition)
    | SourceGone
    | SourceFailed(cond: Condition)
    | Canceled

  function PhaseOf(v: Verdict): Phase
  {
    if v.DestComplete? then Succeeded else PhaseFailed
  }

  /** 90 seconds in nanoseconds. */
  const SourceFailGrace: int := 90_000_000_000

  datatype PollState = PollState(announced: bool, failedAt: Option<int>)
  datatype TickResult = Continue(state: PollState, announce: bool) | Stop(verdict: Verdict)

  function Terminal(v: JobView): Option<Condition>
  {
    if v.Found? then LatestTerminal(v.job.conditions) else None
  }

  predicate SourceRunning(j: Job)
  {
    j.active > 0 || (j.ready.Some? && j.ready.value > 0)
  }

  /** The body of poll's loop for one tick, branch by branch. */
  function PollTick(s: PollState, t: Tick): (r: TickResult)
  {
    if t.CtxDone? then Stop(Canceled)
    else
      var dest := Terminal(t.dest);
      if dest.Some? && dest.value.kind.Complete? then Stop(DestComplete)
      else if dest.Some? && dest.value.kind.Failed? then Stop(DestFailed(dest.value))
      else if t.src.Missing? then Stop(SourceGone)
      else if t.src.Unavailable? then Continue(s, false)
      else
        var src := Terminal(t.src);
        if src.Some? && src.value.kind.Failed? then
          var failedAt := if s.failedAt.None? then t.markAt else s.failedAt.value;
          if t.checkAt - failedAt > SourceFailGrace then Stop(SourceFailed(src.value))
          else Continue(s.(failedAt := Some(failedAt)), false)
        else if !s.announced && SourceRunning(t.src.job) then Continue(s.(announced := true), true)
        else Continue(s, false)
  }

  const Fresh := PollState(false, None)

  // What a tick means on its own, with no loop state.

  predicate DestIs(t: Tick, kind: ConditionType)
  {
    t.Sample? && Terminal(t.dest).Some? && Terminal(t.dest).value.kind == kind
  }

  predicate SourceFailedIn(t: Tick)
  {
    t.Sample? && Terminal(t.src).Some? && Terminal(t.src).value.kind.Failed?
  }

  /** A tick that shows the source Job running and not failed. */
  predicate ShowsRunning(t: Tick)
  {
    && t.Sample? && t.src.Found? && !SourceFailedIn(t)
    && (t.src.job.active >= 1 || (t.src.job.ready.Some? && t.src.job.ready.value >= 1))
  }

  ghost predicate FirstFailure(ticks: seq<Tick>, f: nat)
  {
    && f < |ticks| && SourceFailedIn(ticks[f])
    && forall j | 0 <= j < f :: !SourceFailedIn(ticks[j])
  }

  /** At tick `i` the source is failed and more than the grace has gone by since the
      first tick that saw it failed. */
  ghost predicate GraceOver(ticks: seq<Tick>, i: nat)
  {
    && i < |ticks| && SourceFailedIn(ticks[i])
    && exists f: nat :: f <= i && FirstFailure(ticks, f) && ticks[i].checkAt - ticks[f].markAt > SourceFailGrace
  }

  /** What tick `i` would decide, read off the observations alone. */
  ghost function Decides(ticks: seq<Tick>, i: nat): (v: Option<Verdict>)
    requires i < |ticks|
  {
    var t := ticks[i];
    if t.CtxDone? then Some(Canceled)
    else if DestIs(t, Complete) then Some(DestComplete)
    else if DestIs(t, Failed) then Some(DestFailed(Terminal(t.dest).value))
    else if t.src.Missing? then Some(SourceGone)
    else if GraceOver(ticks, i) then Some(SourceFailed(Terminal(t.src).value))
    else None
  }

  ghost predicate Undecided(ticks: seq<Tick>)
  {
    forall i | 0 <= i < |ticks| :: Decides(ticks, i).None?
  }

  /** The stored failure time is the mark of the first failed sighting, and nothing else. */
  ghost predicate Tracks(s: PollState, ticks: seq<Tick>)
  {
    match s.failedAt
    case None => forall j | 0 <= j < |ticks| :: !SourceFailedIn(ticks[j])
    case Some(at) => exists f: nat :: FirstFailure(ticks, f) && at == ticks[f].markAt
  }

  lemma DecidesPrefix(ticks: seq<Tick>, n: nat, i: nat)
    requires i < n <= |ticks|
    ensures Decides(ticks[..n], i) == Decides(ticks, i)
  {
    var p := ticks[..n];
    forall f: nat | f <= i ensures FirstFailure(p, f) <==> FirstFailure(ticks, f) {
      assert p[f] == ticks[f];
      assert forall j | 0 <= j < f :: p[j] == ticks[j];
    }
    if GraceOver(ticks, i) {
      var f: nat :| f <= i && FirstFailure(ticks, f) && ticks[i].checkAt - ticks[f].markAt > SourceFailGrace;
      assert FirstFailure(p, f) && p[i].checkAt - p[f].markAt > SourceFailGrace;
    }
    if GraceOver(p, i) {
      var f: nat :| f <= i && FirstFailure(p, f) && p[i].checkAt - p[f].markAt > SourceFailGrace;
      assert FirstFailure(ticks, f) && ticks[i].checkAt - ticks[f].markAt > SourceFailGrace;
    }
  }

  lemma UndecidedSnoc(ticks: seq<Tick>, t: Tick)
    requires Undecided(ticks) && Decides(ticks + [t], |ticks|).None?
    ensures Undecided(ticks + [t])
  {
    var all := ticks + [t];
    assert all[..|ticks|] == ticks;
    forall i | 0 <= i < |all| ensures Decides(all, i).None? {
      if i < |ticks| { DecidesPrefix(all, |ticks|, i); }
    }
  }

  /** One tick of the stateful loop agrees with the stateless reading of the history. */
  lemma TickMatches(s: PollState, ticks: seq<Tick>, t: Tick)
    requires Tracks(s, ticks)
    ensures var i := |ticks|; var all := ticks + [t];
            match PollTick(s, t)
            case Stop(v) => Decides(all, i) == Some(v)
            case Continue(s', _) => Decides(all, i).None? && Tracks(s', all)
  {
    var i, all := |ticks|, ticks + [t];
    assert forall j | 0 <= j < i :: all[j] == ticks[j];
    match s.failedAt {
      case None =>
        if SourceFailedIn(t) { assert FirstFailure(all, i); }
      case Some(at) =>
        var f: nat :| FirstFailure(ticks, f) && at == ticks[f].markAt;
        assert FirstFailure(all, f);
    }
    if SourceFailedIn(t) {
      assert forall f: nat, g: nat | FirstFailure(all, f) && FirstFailure(all, g) :: f == g;
    }
  }

  /** One turn of poll's loop. */
  method PollOnce(announced: bool, sourceFailedAt: Option<int>, t: Tick) returns (r: TickResult)
    ensures r == PollTick(PollState(announced, sourceFailedAt), t)
    ensures r.Continue? ==> (r.state.announced <==> announced || ShowsRunning(t))
  {
    var failedAt := sourceFailedAt;
    if t.CtxDone? {
      return Stop(Canceled);
    }
    var dest := Terminal(t.dest);
    if dest.Some? && dest.value.kind.Complete? {
      return Stop(DestComplete);
    } else if dest.Some? && dest.value.kind.Failed? {
      return Stop(DestFailed(dest.value));
    }
    if t.src.Missing? {
      return Stop(SourceGone);
    }
    if t.src.Unavailable? {
      return Continue(PollState(announced, failedAt), false);
    }
    var src := Terminal(t.src);
    if src.Some? && src.value.kind.Failed? {
      if failedAt.None? {
        failedAt := Some(t.markAt);
      }
      if t.checkAt - failedAt.value > SourceFailGrace {
        return Stop(SourceFailed(src.value));
      }
      return Continue(PollState(announced, failedAt), false);
    }
    var first := !announced && SourceRunning(t.src.job);
    r := Continue(PollState(announced || first, failedAt), first);
  }

  /** poll as a loop over whatever ticks come. It stops at the first tick that decides on
      its own terms, with that tick's verdict, and otherwise keeps running. */
  method RunPoll(ticks: seq<Tick>) returns (ending: Option<(nat, Verdict)>, announced: bool)
    ensures match ending
            case None => Undecided(ticks)
            case Some((k, v)) => k < |ticks| && Decides(ticks, k) == Some(v) && Undecided(ticks[..k])
    ensures var n := if ending.Some? then ending.value.0 else |ticks|;
            announced <==> exists i :: 0 <= i < n && ShowsRunning(ticks[i])
  {
    announced := false;
    var sourceFailedAt: Option<int> := None;
    assert ticks[..0] == [];
    for k := 0 to |ticks|
      invariant Undecided(ticks[..k])
      invariant announced <==> exists i :: 0 <= i < k && ShowsRunning(ticks[i])
      invariant Tracks(PollState(announced, sourceFailedAt), ticks[..k])
    {
      var r := PollOnce(announced, sourceFailedAt, ticks[k]);
      TurnMatches(PollState(announced, sourceFailedAt), ticks, k);
      match r
      case Stop(v) => return Some((k, v)), announced;
      case Continue(s, _) => announced, sourceFailedAt := s.announced, s.failedAt;
    }
    assert ticks[..|ticks|] == ticks;
    ending := None;
  }

  lemma TurnMatches(s: PollState, ticks: seq<Tick>, k: nat)
    requires k < |ticks| && Tracks(s, ticks[..k]) && Undecided(ticks[..k])
    ensures match PollTick(s, ticks[k])
            case Stop(v) => Decides(ticks, k) == Some(v)
            case Continue(s', _) => Undecided(ticks[..k + 1]) && Tracks(s', ticks[..k + 1])
  {
    assert ticks[..k + 1] == ticks[..k] + [ticks[k]];
    TickMatches(s, ticks[..k], ticks[k]);
    DecidesPrefix(ticks, k + 1, k);
    if PollTick(s, ticks[k]).Continue? { UndecidedSnoc(ticks[..k], ticks[k]); }
  }

  /** Success is reported exactly when a tick shows the destination Complete before any
      other deciding tick; a source failure is reported only after the grace, and no tick
      up to then showed a terminal destination. */
  lemma VerdictMeaning(ticks: seq<Tick>, k: nat, v: Verdict)
    requires k < |ticks| && Decides(ticks, k) == Some(v) && Undecided(ticks[..k])
    ensures PhaseOf(v) == Succeeded <==> DestIs(ticks[k], Complete)
    ensures v.SourceFailed? ==>
              && (forall i | 0 <= i <= k :: !DestIs(ticks[i], Complete) && !DestIs(ticks[i], Failed))
              && exists f: nat ::
                f <= k && FirstFailure(ticks, f) && ticks[k].checkAt - ticks[f].markAt > 90_000_000_000
    ensures forall i | 0 <= i < k ::
              ticks[i].Sample? && !ticks[i].src.Missing? && !DestIs(ticks[i], Complete) && !DestIs(ticks[i], Failed)
  {
    forall i | 0 <= i < k
      ensures ticks[i].Sample? && !ticks[i].src.Missing? && !DestIs(ticks[i], Complete) && !DestIs(ticks[i], Failed)
    {
      DecidesPrefix(ticks, k, i);
      assert Decides(ticks[..k], i).None?;
    }
  }

  // ---------------------------------------------------------------- recover

  /** What the cluster holds for one migration id. */
  datatype Cluster = Cluster(src: Option<Job>, dest: Option<Job>)

  datatype Recovery = Patch(phase: Phase) | Keep(resume: bool)

  function TerminalKind(j: Option<Job>): Option<ConditionType>
  {
    if j.None? then None
    else match LatestTerminal(j.value.conditions)
      case None => None
      case Some(c) => Some(c.kind)
  }

  /** One pass of the recover loop after a successful list, before its deadline. */
  function RecoverTick(c: Cluster): (r: Recovery)
  {
    var dest := TerminalKind(c.dest);
    var src := TerminalKind(c.src);
    if dest == Some(Complete) then Patch(Succeeded)
    else if dest == Some(Failed) then Patch(PhaseFailed)
    else if c.dest.None? && src == Some(Failed) then Patch(PhaseFailed)
    else if c.dest.None? && c.src.None? then Patch(PhaseFailed)
    else Keep(c.dest.None? && c.src.Some? && src.None?)
  }

  function ViewOf(j: Option<Job>): JobView
  {
    if j.None? then Missing else Found(j.value)
  }

  /** The failure clock poll would compare against the grace at this tick. */
  function Waited(s: PollState, markAt: int, checkAt: int): int
  {
    checkAt - (if s.failedAt.None? then markAt else s.failedAt.value)
  }

  /** poll and recover reading the same cluster agree on every terminal destination, in
      every state of poll; elsewhere they agree exactly on the cases listed. */
  lemma PollAgreesWithRecover(s: PollState, c: Cluster, markAt: int, checkAt: int)
    ensures var p := PollTick(s, Sample(ViewOf(c.src), ViewOf(c.dest), markAt, checkAt));
            var r := RecoverTick(c);
            var agree := match r case Patch(ph) => p.Stop? && PhaseOf(p.verdict) == ph case Keep(_) => p.Continue?;
            var late := Waited(s, markAt, checkAt) > SourceFailGrace;
            && (TerminalKind(c.dest).Some? ==> agree && p.Stop?)
            && (TerminalKind(c.dest).None? ==>
                  (agree <==>
                     if c.src.None? then c.dest.None?
                     else if TerminalKind(c.src) == Some(Failed) then late == c.dest.None?
                     else true))
  {
    var t := Sample(ViewOf(c.src), ViewOf(c.dest), markAt, checkAt);
    assert TerminalKind(c.dest).Some? ==>
      Terminal(t.dest).Some? && Terminal(t.dest).value.kind == TerminalKind(c.dest).value;
    assert TerminalKind(c.src).Some? ==>
      Terminal(t.src).Some? && Terminal(t.src).value.kind == TerminalKind(c.src).value;
  }

  // ---------------------------------------------------------------- the whole recovery loop

  datatype Component = SourceJob | DestJob | OtherJob
  datatype Labelled = Labelled(component: Component, job: Job)

  /** One turn: the context was done, the deadline has passed, the list failed, or Jobs were listed. */
  datatype Pass = Gone | Overdue | ListFailed | Listed(items: seq<Labelled>)

  /** The last listed Job of a component. */
  function LastOf(items: seq<Labelled>, c: Component): (r: Option<Job>)
    ensures r.None? <==> forall i | 0 <= i < |items| :: items[i].component != c
  {
    if items == [] then None
    else if items[|items| - 1].component == c then Some(items[|items| - 1].job)
    else LastOf(items[..|items| - 1], c)
  }

  function ClusterOf(items: seq<Labelled>): Cluster
  {
    Cluster(LastOf(items, SourceJob), LastOf(items, DestJob))
  }

  method PickJobs(items: seq<Labelled>) returns (c: Cluster)
    ensures c == ClusterOf(items)
  {
    c := Cluster(None, None);
    for i := 0 to |items|
      invariant c == ClusterOf(items[..i])
    {
      assert items[..i + 1][..i] == items[..i];
      match items[i].component
      case SourceJob => c := c.(src := Some(items[i].job));
      case DestJob => c := c.(dest := Some(items[i].job));
      case OtherJob =>
    }
    assert items[..|items|] == items;
  }

  datatype RecoveryEnd = Patched(phase: Phase) | Abandoned

  /** How one pass ends the loop, if it does. A failed list never does. */
  function PassEnds(p: Pass): Option<RecoveryEnd>
  {
    match p
    case Gone => Some(Abandoned)
    case Overdue => Some(Patched(PhaseFailed))
    case ListFailed => None
    case Listed(items) =>
      match RecoverTick(ClusterOf(items))
      case Patch(ph) => Some(Patched(ph))
      case Keep(_) => None
  }

  // What a listing means on its own.

  /** Item `i` is the last of its component. */
  predicate IsLast(items: seq<Labelled>, c: Component, i: nat)
  {
    && i < |items| && items[i].component == c
    && forall j | i < j < |items| :: items[j].component != c
  }

  predicate Lacks(items: seq<Labelled>, c: Component)
  {
    forall i | 0 <= i < |items| :: items[i].component != c
  }

  /** The last Job of a component has this as its newest terminal condition. */
  ghost predicate LastIs(items: seq<Labelled>, c: Component, kind: ConditionType)
  {
    exists i: nat, j: nat ::
      IsLast(items, c, i) && IsNewest(items[i].job.conditions, j) && items[i].job.conditions[j].kind == kind
  }

  /** No destination Job is listed, and the last source Job has no terminal condition. */
  ghost predicate NeedsDest(items: seq<Labelled>)
  {
    && Lacks(items, DestJob)
    && exists i: nat :: IsLast(items, SourceJob, i) && forall c | c in items[i].job.conditions :: !IsTerminal(c)
  }

  lemma {:induction false} LastOfIsLast(items: seq<Labelled>, c: Component) returns (i: nat)
    ensures LastOf(items, c).None? <==> Lacks(items, c)
    ensures LastOf(items, c).Some? ==> IsLast(items, c, i) && LastOf(items, c) == Some(items[i].job)
  {
    i := 0;
    if items != [] {
      if items[|items| - 1].component == c {
        i := |items| - 1;
      } else {
        i := LastOfIsLast(items[..|items| - 1], c);
      }
    }
  }

  lemma NewestIsOne(conds: seq<Condition>, i: nat, j: nat)
    requires IsNewest(conds, i) && IsNewest(conds, j)
    ensures i == j
  {
  }

  lemma KindIsLast(items: seq<Labelled>, c: Component, kind: ConditionType)
    ensures TerminalKind(LastOf(items, c)) == Some(kind) <==> LastIs(items, c, kind)
  {
    var i := LastOfIsLast(items, c);
    if LastOf(items, c).Some? {
      var j := LatestTerminalIsNewest(items[i].job.conditions);
      if LastIs(items, c, kind) {
        var i': nat, j': nat :| IsLast(items, c, i') && IsNewest(items[i'].job.conditions, j')
                      && items[i'].job.conditions[j'].kind == kind;
        assert i' == i;
        assert items[i].job.conditions[j'] in items[i].job.conditions;
        NewestIsOne(items[i].job.conditions, j, j');
      }
    }
  }

  lemma NoKindIsLast(items: seq<Labelled>, c: Component)
    ensures LastOf(items, c).Some? && TerminalKind(LastOf(items, c)).None?
            <==> exists i: nat :: IsLast(items, c, i) && forall x | x in items[i].job.conditions :: !IsTerminal(x)
  {
    var i := LastOfIsLast(items, c);
    if LastOf(items, c).Some? {
      var _ := LatestTerminalIsNewest(items[i].job.conditions);
      forall k: nat | IsLast(items, c, k) ensures k == i { }
    }
  }

  /** How a pass ends the loop, a listing told from its items alone. */
  lemma ListingEndsExactly(items: seq<Labelled>)
    ensures PassEnds(Gone) == Some(Abandoned) && PassEnds(Overdue) == Some(Patched(PhaseFailed))
      && PassEnds(ListFailed) == None
    ensures PassEnds(Listed(items)) == Some(Patched(Succeeded)) <==> LastIs(items, DestJob, Complete)
    ensures PassEnds(Listed(items)) == Some(Patched(PhaseFailed)) <==>
      || LastIs(items, DestJob, Failed)
      || (Lacks(items, DestJob) && (LastIs(items, SourceJob, Failed) || Lacks(items, SourceJob)))
    ensures PassEnds(Listed(items)).Some? ==>
      PassEnds(Listed(items)) in {Some(Patched(Succeeded)), Some(Patched(PhaseFailed))}
  {
    KindIsLast(items, DestJob, Complete);
    KindIsLast(items, DestJob, Failed);
    KindIsLast(items, SourceJob, Failed);
    var _ := LastOfIsLast(items, DestJob);
    var _ := LastOfIsLast(items, SourceJob);
  }

  /** A listing makes recovery call Resume exactly if it shows a source Job that is not over and no
      destination Job. */
  lemma ResumesExactly(items: seq<Labelled>)
    ensures RecoverTick(ClusterOf(items)) == Keep(true) <==> NeedsDest(items)
  {
    var _ := LastOfIsLast(items, DestJob);
    NoKindIsLast(items, SourceJob);
  }

  /** The passes up to `k` that call Resume. */
  ghost function ResumingPasses(passes: seq<Pass>, k: nat): set<nat>
    requires k <= |passes|
  {
    set i: nat | i < k && passes[i].Listed? && NeedsDest(passes[i].items)
  }

  lemma ResumingStep(passes: seq<Pass>, k: nat)
    requires k < |passes|
    ensures |ResumingPasses(passes, k + 1)| == |ResumingPasses(passes, k)|
              + (if passes[k].Listed? && NeedsDest(passes[k].items) then 1 else 0)
  {
    var before, after := ResumingPasses(passes, k), ResumingPasses(passes, k + 1);
    assert after == before + if passes[k].Listed? && NeedsDest(passes[k].items) then {k} else {};
  }

  /** One pass over a listed cluster, branch by branch. */
  method RecoverOnce(c: Cluster) returns (r: Recovery)
    ensures r == RecoverTick(c)
  {
    if c.dest.Some? {
      var cond := LatestTerminalJobCondition(c.dest.value.conditions);
      if cond.Some? && cond.value.kind == Complete { return Patch(Succeeded); }
      if cond.Some? && cond.value.kind == Failed { return Patch(PhaseFailed); }
    }
    var src: Option<Condition> := None;
    if c.src.Some? { src := LatestTerminalJobCondition(c.src.value.conditions); }
    if c.dest.None? && c.src.Some? && src.Some? && src.value.kind == Failed { return Patch(PhaseFailed); }
    if c.dest.None? && c.src.Some? && src.None? { return Keep(true); }
    if c.dest.None? && c.src.None? { return Patch(PhaseFailed); }
    r := Keep(false);
  }

  /** recover as a loop over whatever passes come: it ends at the first pass that ends it, and has
      called Resume once for every pass before that showed a running source and no destination. */
  method RunRecover(passes: seq<Pass>) returns (end: Option<(nat, RecoveryEnd)>, resumes: nat)
    ensures end.None? ==>
      (forall i | 0 <= i < |passes| :: PassEnds(passes[i]).None?) && resumes == |ResumingPasses(passes, |passes|)|
    ensures end.Some? ==>
      && end.value.0 < |passes| && PassEnds(passes[end.value.0]) == Some(end.value.1)
      && (forall i | 0 <= i < end.value.0 :: PassEnds(passes[i]).None?)
      && resumes == |ResumingPasses(passes, end.value.0)|
  {
    resumes := 0;
    for k := 0 to |passes|
      invariant forall i | 0 <= i < k :: PassEnds(passes[i]).None?
      invariant resumes == |ResumingPasses(passes, k)|
    {
      ResumingStep(passes, k);
      match passes[k]
      case Gone => return Some((k, Abandoned)), resumes;
      case Overdue => return Some((k, Patched(PhaseFailed))), resumes;
      case ListFailed =>
      case Listed(items) =>
        var c := PickJobs(items);
        var r := RecoverOnce(c);
        ResumesExactly(items);
        match r
        case Patch(ph) => return Some((k, Patched(ph))), resumes;
        case Keep(resume) => if resume { resumes := resumes + 1; }
    }
    end := None;
  }

  /** What both loops see at one moment, and poll's two clock readings. */
  datatype Moment = Moment(items: seq<Labelled>, markAt: int, checkAt: int)

  /** What poll reads at that moment. */
  function TickOf(m: Moment): Tick
  {
    Sample(ViewOf(ClusterOf(m.items).src), ViewOf(ClusterOf(m.items).dest), m.markAt, m.checkAt)
  }

  function TicksOf(ms: seq<Moment>): seq<Tick>
  {
    seq(|ms|, i requires 0 <= i < |ms| => TickOf(ms[i]))
  }

  /** When the two loops, reading the same cluster at the first moment that ends either, agree. */
  ghost predicate AgreeAt(ms: seq<Moment>, k: nat)
    requires k < |ms|
  {
    var c := ClusterOf(ms[k].items);
    if TerminalKind(c.dest).Some? then true
    else if c.src.None? then c.dest.None?
    else GraceOver(TicksOf(ms), k) && c.dest.None?
  }

  /** Poll and recovery watching the same cluster give the same verdict at the same moment exactly
      if the first moment that ends either shows a terminal destination, shows no Job at all, or
      shows no destination and a source that has been failed for longer than the grace. Otherwise
      one of them ends there and the other goes on. */
  lemma RunsAgreeExactly(ms: seq<Moment>, k: nat)
    requires k < |ms| && Undecided(TicksOf(ms)[..k]) && forall i | 0 <= i < k :: PassEnds(Listed(ms[i].items)).None?
    requires Decides(TicksOf(ms), k).Some? || PassEnds(Listed(ms[k].items)).Some?
    ensures var p, r := Decides(TicksOf(ms), k), PassEnds(Listed(ms[k].items));
      && (p.Some? && r == Some(Patched(PhaseOf(p.value))) <==> AgreeAt(ms, k))
      && (!AgreeAt(ms, k) ==> (p.Some? <==> r.None?))
  {
    var c, t := ClusterOf(ms[k].items), TicksOf(ms)[k];
    KindsMatch(c, t);
    if GraceOver(TicksOf(ms), k) {
      assert SourceFailedIn(t);
    }
  }

  lemma KindsMatch(c: Cluster, t: Tick)
    requires t.Sample? && t.src == ViewOf(c.src) && t.dest == ViewOf(c.dest)
    ensures DestIs(t, Complete) <==> TerminalKind(c.dest) == Some(Complete)
    ensures DestIs(t, Failed) <==> TerminalKind(c.dest) == Some(Failed)
    ensures SourceFailedIn(t) <==> TerminalKind(c.src) == Some(Failed)
    ensures TerminalKind(c.dest).Some? ==> TerminalKind(c.dest).value in {Complete, Failed}
  {
  }
}
