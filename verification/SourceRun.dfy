/** The source side of a migration from validated configuration to exit: every command it issues,
    in order, and what has been cleaned up by the time it returns. */
module SourceRun {
  import opened Text
  import StorageSync
  import Waits
  import Tunnel

  // ---------------------------------------------------------------- configuration

  datatype ModeName = Unset | Known(mode: Tunnel.Mode) | Unknown

  datatype Config = Config(
    dest: Tunnel.Addr, vm: Tunnel.Addr, drives: seq<string>, shared: bool, mode: ModeName,
    limit: int, auto: bool, floor: int, multifd: int)

  predicate Alphanumeric(c: char)
  {
    'a' <= c <= 'z' || 'A' <= c <= 'Z' || '0' <= c <= '9'
  }

  predicate ValidDrive(id: string)
  {
    && 1 <= |id| <= 256 && Alphanumeric(id[0])
    && forall i | 1 <= i < |id| :: Alphanumeric(id[i]) || id[i] in {'.', '_', '-'}
  }

  ghost predicate ValidDrives(ids: seq<string>)
  {
    && ids != []
    && (forall i | 0 <= i < |ids| :: ValidDrive(ids[i]))
    && (forall i, j | 0 <= i < j < |ids| :: ids[i] != ids[j])
  }

  method ValidateDriveIDs(ids: seq<string>) returns (ok: bool)
    ensures ok <==> ValidDrives(ids)
  {
    if ids == [] { return false; }
    var seen: set<string> := {};
    for n := 0 to |ids|
      invariant seen == set i | 0 <= i < n :: ids[i]
      invariant forall i | 0 <= i < n :: ValidDrive(ids[i])
      invariant forall i, j | 0 <= i < j < n :: ids[i] != ids[j]
    {
      if !ValidDrive(ids[n]) || ids[n] in seen { return false; }
      seen := seen + {ids[n]};
    }
    ok := true;
  }

  ghost predicate ValidConfig(c: Config)
  {
    && Tunnel.Acceptable(Tunnel.Unmap(c.dest), Tunnel.Unmap(c.vm))
    && c.mode != Unknown && c.multifd >= 0
    && (c.shared || ValidDrives(c.drives))
  }

  function ModeOf(c: Config): Tunnel.Mode
  {
    if c.mode.Known? then c.mode.mode else Tunnel.Ipip
  }

  // ---------------------------------------------------------------- what the surroundings answer

  /** The answers of QEMU, the kernel and the clock, one per question a run can ask. Mirrors of
      `refused` drives are reported as not started; those of `slipped` ones start all the same. */
  datatype Env = Env(
    connect: bool, refused: set<string>, slipped: set<string>, sync: seq<StorageSync.Poll>, caps: bool,
    rtt: Option<nat>, params: bool, migrate: Tunnel.Result, stop: seq<Waits.StopTurn>, name: Option<string>,
      ip: Tunnel.Results,
    finish: seq<Waits.Turn>, teardown: Tunnel.Result)

  const MirrorPrefix := "mirror-"

  function JobId(drive: string): string
  {
    MirrorPrefix + drive
  }

  function JobIds(drives: seq<string>): (ids: seq<string>)
  {
    seq(|drives|, i requires 0 <= i < |drives| => JobId(drives[i]))
  }

  function Ids(drives: seq<string>): set<string>
  {
    set d | d in drives :: JobId(d)
  }

  function MirrorResult(e: Env, drive: string): Tunnel.Result
  {
    if drive !in e.refused then Tunnel.Done else if drive in e.slipped then Tunnel.FailedWith else Tunnel.FailedWithout
  }

  /** How many mirrors are reported started before the first refusal. */
  function Started(drives: seq<string>, refused: set<string>): (n: nat)
    ensures n <= |drives| && (forall i | 0 <= i < n :: drives[i] !in refused) && (n < |drives| ==> drives[n] in refused)
  {
    if drives == [] || drives[0] in refused then 0 else 1 + Started(drives[1..], refused)
  }

  const MinOverheadMs := 25
  const RttFactor := 2

  function RttMs(c: Config, e: Env): int
  {
    if c.auto && e.rtt.Some? then e.rtt.value / 1_000_000 else 0
  }

  /** A sum of 64-bit integers. */
  function Wrap64(n: int): (r: int)
    ensures MinInt64 <= r <= MaxInt64
    ensures MinInt64 <= n <= MaxInt64 ==> r == n
  {
    (n - MinInt64) % 0x1_0000_0000_0000_0000 + MinInt64
  }

  /** The downtime limit a run programs: twice the round trip plus the floor if it is to be
      computed and the round trip could be measured, else the configured one. */
  function Limit(c: Config, e: Env): int
  {
    if c.auto && e.rtt.Some? then
      Wrap64(RttMs(c, e) * RttFactor + if c.floor <= 0 then MinOverheadMs else c.floor)
    else c.limit
  }

  /** How the three waits of a run come out, and whether the wait for the pause and the wait for the
      end were told by a status that the migration is over. */
  datatype Seen = Seen(
    sync: Option<Waits.Ending>, stop: Option<Waits.Ending>, over: bool, end: Option<Waits.Ending>, told: bool)

  /** All of it follows from what was observed. */
  ghost function SeenBy(c: Config, e: Env): Seen
  {
    Seen(SyncResult(c, e), Waits.StopResult(e.stop), Waits.StopOver(e.stop),
         Waits.EndResult(e.finish), Waits.EndTold(e.finish))
  }

  // ---------------------------------------------------------------- the commands of a run

  datatype Event =
    | Mirror(drive: string, r: Tunnel.Result)
    | Synced
    | SyncFailed
    | Caps(multifd: bool, ok: bool)
    | Announce(limit: int, rtt: int, auto: bool)
    | Params(limit: int, channels: int, ok: bool)
    | Migrate(r: Tunnel.Result)
    | Paused(over: bool)
    | StopFailed(over: bool)
    | NoTunnelName
    | Forward(ok: bool)
    | Ended(good: bool, told: bool)
    | Metrics
    | CancelMigration
    | CancelMirror(job: string)
    | Converge
    | Teardown

  /** The events of a run so far, the latest outermost. */
  datatype Log = Empty | Then(before: Log, last: Event)

  datatype Phase =
    Idle | Mirrored | Capable | Announced(limit: int) | Tuned | Moving | Stopped | Forwarding | Over(good: bool)

  /** RAM migration: not requested, running as far as the run knows, or known to be over or asked
      to be. */
  datatype Ram = NoRam | Running | RamOver

  /** `mirrors` were reported started, `stray` ones started without being reported; `cancelled` were
      asked to stop. */
  datatype World = World(
    phase: Phase, failed: bool, mirrors: seq<string>, stray: seq<string>, cancelled: seq<string>,
    ram: Ram, aborts: nat, tunnels: nat, teardowns: nat, converged: bool)

  const Start := World(Idle, false, [], [], [], NoRam, 0, 0, 0, false)

  function Reach(w: World, ok: bool, p: Phase): World
  {
    if ok then w.(phase := p) else w.(failed := true)
  }

  function After(w: World, ev: Event): World
  {
    match ev
    case Mirror(d, r) =>
      (match r
       case Done => w.(mirrors := w.mirrors + [JobId(d)])
       case FailedWith => w.(failed := true, stray := w.stray + [JobId(d)])
       case FailedWithout => w.(failed := true))
    case Synced => w.(phase := Mirrored)
    case SyncFailed => w.(failed := true)
    case Caps(_, ok) => Reach(w, ok, Capable)
    case Announce(limit, _, _) => w.(phase := Announced(limit))
    case Params(_, _, ok) => Reach(w, ok, Tuned)
    case Migrate(r) => Reach(w, r == Tunnel.Done, Moving).(ram := if r == Tunnel.FailedWithout then w.ram else Running)
    case Paused(over) => w.(phase := Stopped, ram := if over then RamOver else w.ram)
    case StopFailed(over) => w.(failed := true, ram := if over then RamOver else w.ram)
    case NoTunnelName => w.(failed := true)
    case Forward(ok) => if ok then w.(phase := Forwarding, tunnels := w.tunnels + 1) else w.(failed := true)
    case Ended(good, told) => w.(phase := Over(good), ram := if told then RamOver else w.ram)
    case Metrics => w
    case CancelMigration => w.(aborts := w.aborts + 1, ram := RamOver)
    case CancelMirror(j) => w.(cancelled := w.cancelled + [j])
    case Converge => w.(converged := true)
    case Teardown => w.(teardowns := w.teardowns + 1)
  }

  function Replay(log: Log): World
  {
    if log.Empty? then Start else After(Replay(log.before), log.last)
  }

  /** Nothing has failed and no mirror has been cancelled: the run may still move forward. */
  predicate Live(w: World)
  {
    !w.failed && w.cancelled == []
  }

  /** What must hold before an event, in the run so far and in the answers the surroundings gave.
      RAM migration waits for polls that say every mirror is in step; packets are redirected only
      once the guest was seen to pause; a run is given up only for an answer that is bad; nothing
      moves forward after a failure or once a mirror has been cancelled; mirrors are cancelled one
      by one, only when all of them had been started and the migration is decided or given up; the
      tunnel goes last. */
  predicate Allowed(c: Config, e: Env, x: Seen, w: World, ev: Event)
  {
    match ev
    case Mirror(d, r) =>
      && Live(w) && w.phase == Idle && !c.shared && |w.mirrors| < |c.drives| && d == c.drives[|w.mirrors|]
      && r == MirrorResult(e, d)
    case Synced => Live(w) && w.phase == Idle && !c.shared && w.mirrors == JobIds(c.drives)
      && x.sync == Some(Waits.Good)
    case SyncFailed => Live(w) && w.phase == Idle && !c.shared && w.mirrors == JobIds(c.drives)
      && x.sync == Some(Waits.Bad)
    case Caps(multifd, ok) =>
      && Live(w) && w.phase == (if c.shared then Idle else Mirrored) && (multifd <==> c.multifd > 0) && ok == e.caps
    case Announce(limit, rtt, auto) =>
      Live(w) && w.phase == Capable && limit == Limit(c, e) && rtt == RttMs(c, e) && auto == c.auto
    case Params(limit, channels, ok) =>
      Live(w) && w.phase == Announced(limit) && channels == c.multifd && ok == e.params
    case Migrate(r) => Live(w) && w.phase == Tuned && r == e.migrate
    case Paused(over) =>
      && Live(w) && w.phase == Moving
      && x.stop == Some(Waits.Good) && over == x.over
    case StopFailed(over) =>
      && Live(w) && w.phase == Moving
      && x.stop == Some(Waits.Bad) && over == x.over
    case NoTunnelName => Live(w) && w.phase == Stopped && ModeOf(c) != Tunnel.NoTunnel && e.name.None?
    case Forward(ok) =>
      && Live(w) && w.phase == Stopped && w.tunnels == 0 && ModeOf(c) != Tunnel.NoTunnel
      && e.name.Some? && ok == TunnelOk(c, e)
    case Ended(good, told) =>
      && Live(w) && w.phase == (if ModeOf(c) == Tunnel.NoTunnel then Stopped else Forwarding)
      && x.end == Some(if good then Waits.Good else Waits.Bad) && told == x.told
    case Metrics => w.phase == Over(true)
    case CancelMigration => w.phase == Over(false) && w.aborts == 0
    case CancelMirror(j) =>
      && (w.failed || w.phase.Over?)
      && w.mirrors == JobIds(c.drives) && |w.cancelled| < |w.mirrors| && j == w.mirrors[|w.cancelled|]
    case Converge => w.phase == Over(true) && w.cancelled == w.mirrors && w.tunnels > w.teardowns
    case Teardown =>
      w.phase.Over? && w.cancelled == w.mirrors && w.tunnels > w.teardowns && (w.phase.good ==> w.converged)
  }

  predicate Obeys(c: Config, e: Env, x: Seen, log: Log)
  {
    log.Empty? || (Obeys(c, e, x, log.before) && Allowed(c, e, x, Replay(log.before), log.last))
  }

  lemma Did(c: Config, e: Env, x: Seen, log: Log, ev: Event)
    requires Obeys(c, e, x, log) && Allowed(c, e, x, Replay(log), ev)
    ensures Obeys(c, e, x, Then(log, ev)) && Replay(Then(log, ev)) == After(Replay(log), ev)
  {
  }

  // ---------------------------------------------------------------- the wait for the mirrors

  /** The polls decide for success, told from the listings alone. */
  ghost predicate Syncs(c: Config, e: Env)
  {
    exists n :: 0 <= n < |e.sync| && FirstDecides(Ids(c.drives), e.sync, n, StorageSync.Synced)
  }

  /** The polls decide against it. */
  ghost predicate SyncBreaks(c: Config, e: Env)
  {
    exists n: int, out: StorageSync.Outcome ::
      && 0 <= n < |e.sync| && !out.Synced? && !out.Waiting?
      && FirstDecides(Ids(c.drives), e.sync, n, out)
  }

  ghost predicate FirstDecides(ids: set<string>, polls: seq<StorageSync.Poll>, n: int, out: StorageSync.Outcome)
    requires 0 <= n < |polls|
  {
    StorageSync.DecidedAs(ids, polls, n, out) && forall k | 0 <= k < n :: StorageSync.StillWaiting(ids, polls, k)
  }

  lemma FirstDecisionIsUnique(
    ids: set<string>, polls: seq<StorageSync.Poll>, n: nat, a: StorageSync.Outcome, m: nat, b: StorageSync.Outcome)
    requires n < |polls| && m < |polls| && !a.Waiting? && !b.Waiting?
    requires FirstDecides(ids, polls, n, a) && FirstDecides(ids, polls, m, b)
    ensures a.Synced? <==> b.Synced?
  {
    StorageSync.DecidesOrWaits(ids, polls, n);
    StorageSync.DecidesOrWaits(ids, polls, m);
    assert n == m;
    StorageSync.AnswerIsOrderFree(ids, polls, n, a, b);
  }

  ghost function SyncResult(c: Config, e: Env): Option<Waits.Ending>
  {
    if Syncs(c, e) then Some(Waits.Good) else if SyncBreaks(c, e) then Some(Waits.Bad) else None
  }

  lemma SyncsIsDecided(c: Config, e: Env, m: nat, out: StorageSync.Outcome)
    requires m < |e.sync| && !out.Waiting? && FirstDecides(Ids(c.drives), e.sync, m, out)
    ensures SyncResult(c, e) == Some(if out.Synced? then Waits.Good else Waits.Bad)
  {
    var ids := Ids(c.drives);
    if Syncs(c, e) {
      var n :| 0 <= n < |e.sync| && FirstDecides(ids, e.sync, n, StorageSync.Synced);
      FirstDecisionIsUnique(ids, e.sync, n, StorageSync.Synced, m, out);
    }
  }

  /** The wait for the mirrors, as this run needs it. */
  method AwaitMirrors(c: Config, e: Env) returns (s: Option<Waits.Ending>)
    ensures s == SyncResult(c, e)
  {
    var ids := Ids(c.drives);
    var out, n := StorageSync.WaitForStorageSync(ids, e.sync);
    if out.Waiting? {
      NothingDecides(ids, e.sync);
      s := None;
    } else {
      SyncsIsDecided(c, e, n - 1, out);
      s := Some(if out.Synced? then Waits.Good else Waits.Bad);
    }
  }

  lemma NothingDecides(ids: set<string>, polls: seq<StorageSync.Poll>)
    requires forall k | 0 <= k < |polls| :: StorageSync.StillWaiting(ids, polls, k)
    ensures forall n, out | 0 <= n < |polls| :: !FirstDecides(ids, polls, n, out)
  {
    forall n, out | 0 <= n < |polls| ensures !FirstDecides(ids, polls, n, out) {
      StorageSync.DecidesOrWaits(ids, polls, n);
    }
  }

  // ---------------------------------------------------------------- the run, stretch by stretch

  /** A run that was at `w` has failed at `v` before its migration was decided. */
  predicate GivenUp(w: World, v: World, ram: Ram)
  {
    !v.phase.Over? && v == w.(phase := v.phase, failed := true, ram := ram)
  }

  /** A stretch of the run goes on, is stuck in a wait whose answers have not all come, or failed. */
  datatype Status = On | Stuck | Off

  lemma JobIdsStep(drives: seq<string>, n: nat)
    requires n < |drives|
    ensures JobIds(drives[..n + 1]) == JobIds(drives[..n]) + [JobId(drives[n])]
  {
  }

  /** Which mirror runs although its start was reported as failed. */
  function Stray(c: Config, e: Env): seq<string>
  {
    var n := Started(c.drives, e.refused);
    if n < |c.drives| && c.drives[n] in e.slipped then [JobId(c.drives[n])] else []
  }

  /** The log of mirrors that were all started. */
  function StartedLog(drives: seq<string>): Log
  {
    if drives == [] then Empty else Then(StartedLog(drives[..|drives| - 1]), Mirror(drives[|drives| - 1], Tunnel.Done))
  }

  lemma {:induction false} StartedLogObeys(c: Config, e: Env, x: Seen, n: nat)
    requires !c.shared && n <= |c.drives| && forall i | 0 <= i < n :: c.drives[i] !in e.refused
    ensures Obeys(c, e, x, StartedLog(c.drives[..n]))
      && Replay(StartedLog(c.drives[..n])) == Start.(mirrors := JobIds(c.drives[..n]))
  {
    if n > 0 {
      StartedLogObeys(c, e, x, n - 1);
      assert c.drives[..n][..n - 1] == c.drives[..n - 1];
      JobIdsStep(c.drives, n - 1);
      Did(c, e, x, StartedLog(c.drives[..n - 1]), Mirror(c.drives[n - 1], Tunnel.Done));
    }
  }

  lemma {:induction false} StartedFrom(drives: seq<string>, refused: set<string>, n: nat)
    requires n <= |drives| && forall i | 0 <= i < n :: drives[i] !in refused
    ensures Started(drives, refused) >= n && (n < |drives| && drives[n] in refused ==> Started(drives, refused) == n)
  {
    if n > 0 {
      StartedFrom(drives[1..], refused, n - 1);
    }
  }

  method StartMirrors(c: Config, e: Env, ghost x: Seen) returns (log: Log, ok: bool)
    requires !c.shared
    ensures Obeys(c, e, x, log)
    ensures var n := Started(c.drives, e.refused);
      && (ok <==> n == |c.drives|)
      && Replay(log) == Start.(mirrors := JobIds(c.drives[..n]), stray := Stray(c, e), failed := !ok)
  {
    log := Empty;
    for n := 0 to |c.drives|
      invariant log == StartedLog(c.drives[..n])
      invariant forall i | 0 <= i < n :: c.drives[i] !in e.refused
    {
      var d := c.drives[n];
      log := Then(log, Mirror(d, MirrorResult(e, d)));
      if d in e.refused {
        RefusedLog(c, e, x, n);
        return log, false;
      }
      assert c.drives[..n + 1][..n] == c.drives[..n];
    }
    StartedFrom(c.drives, e.refused, |c.drives|);
    StartedLogObeys(c, e, x, |c.drives|);
    ok := true;
  }

  lemma RefusedLog(c: Config, e: Env, x: Seen, n: nat)
    requires !c.shared && n < |c.drives| && c.drives[n] in e.refused
    requires forall i | 0 <= i < n :: c.drives[i] !in e.refused
    ensures n == Started(c.drives, e.refused)
    ensures var log := Then(StartedLog(c.drives[..n]), Mirror(c.drives[n], MirrorResult(e, c.drives[n])));
      && Obeys(c, e, x, log)
      && Replay(log) == Start.(mirrors := JobIds(c.drives[..n]), stray := Stray(c, e), failed := true)
  {
    StartedFrom(c.drives, e.refused, n);
    StartedLogObeys(c, e, x, n);
    Did(c, e, x, StartedLog(c.drives[..n]), Mirror(c.drives[n], MirrorResult(e, c.drives[n])));
  }

  /** Where a run is when the mirrors, if any, are up and nothing else has happened. */
  predicate MirrorsUp(c: Config, w: World)
  {
    w == Start.(mirrors := if c.shared then [] else JobIds(c.drives))
  }

  /** What is running after a migration that could not be started: RAM migration, if its request
      took effect although it was reported as failed. */
  function RamAfterStart(c: Config, e: Env, x: Seen): Ram
  {
    var launched := (c.shared || x.sync == Some(Waits.Good)) && e.caps && e.params;
    if launched && e.migrate != Tunnel.FailedWithout then Running else NoRam
  }

  /** From running mirrors to a running RAM migration. */
  method StartMigration(c: Config, e: Env, ghost x: Seen, before: Log) returns (log: Log, s: Status)
    requires Obeys(c, e, x, before) && MirrorsUp(c, Replay(before)) && x.sync == SyncResult(c, e)
    ensures Obeys(c, e, x, log)
    ensures s == On <==> BodyLaunches(c, e, x) && e.migrate == Tunnel.Done
    ensures s == Stuck <==> !c.shared && x.sync == None
    ensures s == On ==> Replay(log) == Replay(before).(phase := Moving, ram := Running)
    ensures s == Off ==> GivenUp(Replay(before), Replay(log), RamAfterStart(c, e, x))
    ensures s == Stuck ==> log == before
  {
    log := before;
    if !c.shared {
      var sync := AwaitMirrors(c, e);
      if sync == None { s := Stuck; return; }
      var ev := if sync == Some(Waits.Good) then Synced else SyncFailed;
      Did(c, e, x, log, ev);
      log := Then(log, ev);
      s := Off;
      if sync == Some(Waits.Bad) { return; }
    }
    Did(c, e, x, log, Caps(c.multifd > 0, e.caps));
    log := Then(log, Caps(c.multifd > 0, e.caps));
    s := Off;
    if !e.caps { return; }
    log, s := Tune(c, e, x, log);
  }

  method ComputeLimit(c: Config, e: Env) returns (limit: int, rttMs: int)
    ensures limit == Limit(c, e) && rttMs == RttMs(c, e)
    ensures c.auto && e.rtt.Some? ==>
      rttMs == e.rtt.value / 1_000_000 && limit == Wrap64(2 * rttMs + if c.floor > 0 then c.floor else 25)
    ensures !(c.auto && e.rtt.Some?) ==> rttMs == 0 && limit == c.limit
  {
    limit, rttMs := c.limit, 0;
    if c.auto {
      var floor := c.floor;
      if floor <= 0 { floor := MinOverheadMs; }
      if e.rtt.Some? {
        rttMs := e.rtt.value / 1_000_000;
        limit := Wrap64(rttMs * RttFactor + floor);
      }
    }
  }

  method Tune(c: Config, e: Env, ghost x: Seen, before: Log) returns (log: Log, s: Status)
    requires Obeys(c, e, x, before) && Live(Replay(before)) && Replay(before).phase == Capable
      && Replay(before).ram == NoRam
    ensures Obeys(c, e, x, log) && s != Stuck
    ensures s == On <==> e.params && e.migrate == Tunnel.Done
    ensures s == On ==> Replay(log) == Replay(before).(phase := Moving, ram := Running)
    ensures s == Off ==>
      GivenUp(Replay(before), Replay(log), if e.params && e.migrate != Tunnel.FailedWithout then Running else NoRam)
  {
    var limit, rttMs := ComputeLimit(c, e);
    Did(c, e, x, before, Announce(limit, rttMs, c.auto));
    log := Then(before, Announce(limit, rttMs, c.auto));
    Did(c, e, x, log, Params(limit, c.multifd, e.params));
    log := Then(log, Params(limit, c.multifd, e.params));
    s := Off;
    if !e.params { return; }
    Did(c, e, x, log, Migrate(e.migrate));
    log := Then(log, Migrate(e.migrate));
    if e.migrate == Tunnel.Done { s := On; }
  }

  /** The tunnel, if one is wanted, can be set up. */
  predicate TunnelOk(c: Config, e: Env)
  {
    || ModeOf(c) == Tunnel.NoTunnel
    || (e.name.Some? && e.ip.add == Tunnel.Done && e.ip.raise == Tunnel.Done && e.ip.route == Tunnel.Done)
  }

  function HostAfterSetup(c: Config, e: Env, h: Tunnel.Host): Tunnel.Host
  {
    if ModeOf(c) == Tunnel.NoTunnel || e.name.None? then h
    else Tunnel.Setup(h, Tunnel.Unmap(c.dest), Tunnel.Unmap(c.vm), ModeOf(c), e.name.value, e.ip).0
  }

  /** A running RAM migration, unless the wait for the pause has learnt that it is over. */
  function RamAfterStop(x: Seen): Ram
  {
    if x.over then RamOver else Running
  }

  predicate IsMoving(w: World)
  {
    Live(w) && w.phase == Moving && w.tunnels == 0 && w.ram == Running
  }

  /** From a running RAM migration to redirected packets. */
  method CutOver(c: Config, e: Env, ghost x: Seen, h: Tunnel.Host, before: Log)
      returns (log: Log, s: Status, h': Tunnel.Host)
    requires Tunnel.Acceptable(Tunnel.Unmap(c.dest), Tunnel.Unmap(c.vm))
    requires Obeys(c, e, x, before) && IsMoving(Replay(before))
    requires x.stop == Waits.StopResult(e.stop) && x.over == Waits.StopOver(e.stop)
    ensures Obeys(c, e, x, log)
    ensures s == On <==> x.stop == Some(Waits.Good) && TunnelOk(c, e)
    ensures s == Off <==> x.stop == Some(Waits.Bad) || (x.stop == Some(Waits.Good) && !TunnelOk(c, e))
    ensures s == Stuck <==> x.stop.None?
    ensures s == On ==>
      Replay(log) == if ModeOf(c) == Tunnel.NoTunnel then Replay(before).(phase := Stopped, ram := RamAfterStop(x))
                     else Replay(before).(phase := Forwarding, tunnels := 1, ram := RamAfterStop(x))
    ensures s == Off ==> GivenUp(Replay(before), Replay(log), RamAfterStop(x))
    ensures s == Stuck ==> log == before
    ensures h' == if x.stop == Some(Waits.Good) then HostAfterSetup(c, e, h) else h
  {
    log, h' := before, h;
    var out, over := Waits.WaitForStop(e.stop);
    if out.None? { s := Stuck; return; }
    if out.value == Waits.Bad {
      Did(c, e, x, log, StopFailed(over));
      log, s := Then(log, StopFailed(over)), Off;
      return;
    }
    Did(c, e, x, log, Paused(over));
    log, s := Then(log, Paused(over)), On;
    if ModeOf(c) != Tunnel.NoTunnel {
      log, s, h' := RaiseTunnel(c, e, x, h, log);
    }
  }

  method RaiseTunnel(c: Config, e: Env, ghost x: Seen, h: Tunnel.Host, before: Log)
      returns (log: Log, s: Status, h': Tunnel.Host)
    requires Tunnel.Acceptable(Tunnel.Unmap(c.dest), Tunnel.Unmap(c.vm)) && ModeOf(c) != Tunnel.NoTunnel
    requires Obeys(c, e, x, before) && Live(Replay(before)) && Replay(before).phase == Stopped
      && Replay(before).tunnels == 0
    ensures Obeys(c, e, x, log) && s != Stuck
    ensures s == On <==> TunnelOk(c, e)
    ensures Replay(log) == if s == On then Replay(before).(phase := Forwarding, tunnels := 1)
      else Replay(before).(failed := true)
    ensures h' == HostAfterSetup(c, e, h)
  {
    h' := h;
    if e.name.None? {
      Did(c, e, x, before, NoTunnelName);
      return Then(before, NoTunnelName), Off, h';
    }
    var error;
    h', error := Tunnel.SetupTunnel(h, Tunnel.Unmap(c.dest), Tunnel.Unmap(c.vm), ModeOf(c), e.name.value, e.ip);
    Did(c, e, x, before, Forward(error.None?));
    log, s := Then(before, Forward(error.None?)), if error.None? then On else Off;
  }

  /** A log followed by the cancelling of `ids`. */
  function CancelledLog(log: Log, ids: seq<string>): Log
  {
    if ids == [] then log else Then(CancelledLog(log, ids[..|ids| - 1]), CancelMirror(ids[|ids| - 1]))
  }

  lemma CancelIsAllowed(c: Config, e: Env, x: Seen, w: World, n: nat)
    requires (w.failed || w.phase.Over?) && w.mirrors == JobIds(c.drives) && n < |w.mirrors|
    ensures var v, ev := w.(cancelled := w.mirrors[..n]), CancelMirror(w.mirrors[n]);
      Allowed(c, e, x, v, ev) && After(v, ev) == w.(cancelled := w.mirrors[..n + 1])
  {
    assert w.mirrors[..n + 1] == w.mirrors[..n] + [w.mirrors[n]];
  }

  lemma {:induction false} CancelledLogObeys(c: Config, e: Env, x: Seen, log: Log, w: World, n: nat)
    requires Obeys(c, e, x, log) && Replay(log) == w && (w.failed || w.phase.Over?) && w.cancelled == []
    requires n <= |w.mirrors| && w.mirrors == JobIds(c.drives)
    ensures var log' := CancelledLog(log, w.mirrors[..n]);
      Obeys(c, e, x, log') && Replay(log') == w.(cancelled := w.mirrors[..n])
  {
    if n > 0 {
      CancelledLogObeys(c, e, x, log, w, n - 1);
      assert w.mirrors[..n][..n - 1] == w.mirrors[..n - 1];
      CancelIsAllowed(c, e, x, w, n - 1);
      Did(c, e, x, CancelledLog(log, w.mirrors[..n - 1]), CancelMirror(w.mirrors[n - 1]));
    }
  }

  method CancelMirrors(c: Config, e: Env, ghost x: Seen, ids: seq<string>, before: Log) returns (log: Log)
    requires Obeys(c, e, x, before) && Replay(before).cancelled == []
    requires Replay(before).failed || Replay(before).phase.Over?
    requires ids == Replay(before).mirrors == JobIds(c.drives)
    ensures Obeys(c, e, x, log) && Replay(log) == Replay(before).(cancelled := ids)
  {
    log := before;
    for n := 0 to |ids|
      invariant log == CancelledLog(before, ids[..n])
    {
      log := Then(log, CancelMirror(ids[n]));
      assert ids[..n + 1][..n] == ids[..n];
    }
    assert ids[..|ids|] == ids;
    CancelledLogObeys(c, e, x, before, Replay(before), |ids|);
  }

  /** Where a run is once packets are redirected, or the guest has paused and need not be. */
  predicate Handed(c: Config, w: World)
  {
    && Live(w) && w.aborts == 0 && w.teardowns == 0 && !w.converged
    && w.phase == (if ModeOf(c) == Tunnel.NoTunnel then Stopped else Forwarding)
    && w.tunnels == (if ModeOf(c) == Tunnel.NoTunnel then 0 else 1)
    && w.mirrors == (if c.shared then [] else JobIds(c.drives))
  }

  /** The world at exit of a run that had its migration decided. */
  function Finished(w: World, good: bool, told: bool): World
  {
    World(Over(good), w.failed, w.mirrors, w.stray, w.mirrors, if told || !good then RamOver else w.ram,
          if good then 0 else 1, w.tunnels, w.tunnels, good && w.tunnels > 0)
  }

  /** From redirected packets to the end: the wait, and everything that is taken down after it. */
  method Finish(c: Config, e: Env, ghost x: Seen, h: Tunnel.Host, before: Log)
      returns (log: Log, s: Status, h': Tunnel.Host)
    requires Obeys(c, e, x, before) && Handed(c, Replay(before)) && (ModeOf(c) != Tunnel.NoTunnel ==> e.name.Some?)
    requires x.end == Waits.EndResult(e.finish) && x.told == Waits.EndTold(e.finish)
    ensures Obeys(c, e, x, log)
    ensures s == On <==> x.end == Some(Waits.Good)
    ensures s == Off <==> x.end == Some(Waits.Bad)
    ensures s == Stuck <==> x.end.None?
    ensures if s == Stuck then log == before else Replay(log) == Finished(Replay(before), s == On, x.told)
    ensures h' == if s == Stuck || ModeOf(c) == Tunnel.NoTunnel then h
      else Tunnel.Execute(h, Tunnel.Delete(e.name.value), e.teardown)
  {
    h' := h;
    var out, told, _, _ := Waits.WaitForMigrationComplete(e.finish);
    if out.None? { return before, Stuck, h'; }
    var good := out.value == Waits.Good;
    s := if good then On else Off;
    log := Decide(c, e, x, good, told, before);
    if !c.shared {
      log := CancelMirrors(c, e, x, JobIds(c.drives), log);
    }
    if ModeOf(c) != Tunnel.NoTunnel {
      log := TearDown(c, e, x, good, log);
      h' := Tunnel.Execute(h, Tunnel.Delete(e.name.value), e.teardown);
    }
  }

  /** The metrics query after a good end, the request to abort after a bad one. */
  method Decide(c: Config, e: Env, ghost x: Seen, good: bool, told: bool, before: Log) returns (log: Log)
    requires Obeys(c, e, x, before) && Handed(c, Replay(before))
    requires x.end == Some(if good then Waits.Good else Waits.Bad) && told == x.told
    ensures Obeys(c, e, x, log)
    ensures var w := Replay(before);
      Replay(log) == w.(phase := Over(good), ram := if told || !good then RamOver else w.ram,
                        aborts := if good then 0 else 1)
  {
    Did(c, e, x, before, Ended(good, told));
    log := Then(before, Ended(good, told));
    var next := if good then Metrics else CancelMigration;
    Did(c, e, x, log, next);
    log := Then(log, next);
  }

  method TearDown(c: Config, e: Env, ghost x: Seen, good: bool, before: Log) returns (log: Log)
    requires var w := Replay(before);
      Obeys(c, e, x, before) && w.phase == Over(good) && w.cancelled == w.mirrors && w.tunnels > w.teardowns
    ensures Obeys(c, e, x, log)
    ensures var w := Replay(before); Replay(log) == w.(teardowns := w.teardowns + 1, converged := w.converged || good)
  {
    log := before;
    if good {
      Did(c, e, x, log, Converge);
      log := Then(log, Converge);
    }
    Did(c, e, x, log, Teardown);
    log := Then(log, Teardown);
  }

  // ---------------------------------------------------------------- the whole run

  datatype Outcome = Rejected | Succeeded | Failed | Pending

  /** RAM migration is requested once the mirrors run. */
  predicate BodyLaunches(c: Config, e: Env, x: Seen)
  {
    (c.shared || x.sync == Some(Waits.Good)) && e.caps && e.params
  }

  /** The completion wait is reached. */
  predicate BodyHandsOver(c: Config, e: Env, x: Seen)
  {
    BodyLaunches(c, e, x) && e.migrate == Tunnel.Done && x.stop == Some(Waits.Good) && TunnelOk(c, e)
  }

  /** A wait of the run has not had all its answers yet. */
  predicate BodyWaits(c: Config, e: Env, x: Seen)
  {
    || (!c.shared && x.sync.None?)
    || (BodyLaunches(c, e, x) && e.migrate == Tunnel.Done && x.stop.None?)
    || (BodyHandsOver(c, e, x) && x.end.None?)
  }

  /** RAM migration took effect, was never asked to stop, and no status told the run that it is
      over: its request was reported as failed, or the wait for the pause failed or the tunnel did,
      or the run took a long silence for the end. */
  predicate BodyLeaks(c: Config, e: Env, x: Seen)
  {
    && BodyLaunches(c, e, x)
    && (|| e.migrate == Tunnel.FailedWith
        || (&& e.migrate == Tunnel.Done && !x.over
            && (|| x.stop == Some(Waits.Bad)
                || (x.stop == Some(Waits.Good) && !TunnelOk(c, e))
                || (x.stop == Some(Waits.Good) && x.end == Some(Waits.Good) && !x.told))))
  }

  /** The host once the guest has paused: the tunnel is set up, or as far as it got, and removed
      again after the wait for the end. */
  function HostAfterTunnel(c: Config, e: Env, x: Seen, h: Tunnel.Host): Tunnel.Host
  {
    var up := HostAfterSetup(c, e, h);
    if ModeOf(c) == Tunnel.NoTunnel || e.name.None? || !TunnelOk(c, e) || x.end.None? then up
    else Tunnel.Execute(up, Tunnel.Delete(e.name.value), e.teardown)
  }

  function HostAtExit(c: Config, e: Env, x: Seen, h: Tunnel.Host): Tunnel.Host
  {
    if BodyLaunches(c, e, x) && e.migrate == Tunnel.Done && x.stop == Some(Waits.Good) then HostAfterTunnel(c, e, x, h)
    else h
  }

  /** The mirrors, if any, are started. */
  ghost predicate Begins(c: Config, e: Env)
  {
    ValidConfig(c) && e.connect && (c.shared || Started(c.drives, e.refused) == |c.drives|)
  }

  ghost predicate HandsOver(c: Config, e: Env)
  {
    Begins(c, e) && BodyHandsOver(c, e, SeenBy(c, e))
  }

  /** Everything a migration needs to go right. */
  ghost predicate AllWell(c: Config, e: Env)
  {
    HandsOver(c, e) && Waits.EndResult(e.finish) == Some(Waits.Good)
  }

  ghost predicate LeaksMigration(c: Config, e: Env)
  {
    Begins(c, e) && BodyLeaks(c, e, SeenBy(c, e))
  }

  /** What holds when a run has returned: every tunnel raised has been taken down once, and every
      mirror has been cancelled once, provided all of them had been started. */
  predicate Closed(c: Config, w: World)
  {
    && w.teardowns == w.tunnels <= 1
    && w.cancelled == (if |w.mirrors| == |c.drives| then w.mirrors else [])
  }

  /** A mirror still running when the run has returned: it was started and never asked to stop. */
  predicate LeftRunning(w: World, job: string)
  {
    (job in w.mirrors || job in w.stray) && job !in w.cancelled
  }

  /** A mirror could not be started, and an earlier one runs or that one took effect. */
  ghost predicate LeaksMirror(c: Config, e: Env)
  {
    && ValidConfig(c) && e.connect && !c.shared
    && var n := Started(c.drives, e.refused);
    n < |c.drives| && (0 < n || c.drives[n] in e.slipped)
  }

  /** What a run's log says about the mirrors it started. */
  ghost predicate MirrorsAre(c: Config, e: Env, w: World)
  {
    var started := ValidConfig(c) && e.connect && !c.shared;
    && w.mirrors == (if started then JobIds(c.drives[..Started(c.drives, e.refused)]) else [])
    && w.stray == (if started then Stray(c, e) else [])
  }

  /** How a run comes out: its outcome, the tunnels it raised and took down, and the host it leaves. */
  datatype Summary = Summary(outcome: Outcome, tunnels: nat, teardowns: nat, host: Tunnel.Host)

  ghost function RunOf(c: Config, e: Env, h: Tunnel.Host): Summary
  {
    var x := SeenBy(c, e);
    if !ValidConfig(c) then Summary(Rejected, 0, 0, h)
    else if !Begins(c, e) then Summary(Failed, 0, 0, h)
    else
      var raised := if BodyHandsOver(c, e, x) && ModeOf(c) != Tunnel.NoTunnel then 1 else 0;
      if BodyWaits(c, e, x) then Summary(Pending, raised, 0, HostAtExit(c, e, x, h))
      else Summary(if AllWell(c, e) then Succeeded else Failed, raised, raised, HostAtExit(c, e, x, h))
  }

  method RunSource(c: Config, e: Env, h: Tunnel.Host) returns (out: Outcome, log: Log, h': Tunnel.Host)
    ensures Obeys(c, e, SeenBy(c, e), log) && MirrorsAre(c, e, Replay(log))
    ensures out == Succeeded <==> AllWell(c, e)
    ensures out == Succeeded <==> Replay(log).phase == Over(true)
    ensures out == Rejected <==> !ValidConfig(c)
    ensures Replay(log).aborts == if HandsOver(c, e) && Waits.EndResult(e.finish) == Some(Waits.Bad) then 1 else 0
    ensures out != Pending ==> Closed(c, Replay(log))
    ensures out != Pending ==> (Replay(log).ram == Running <==> LeaksMigration(c, e))
    ensures out != Pending ==> ((exists job :: LeftRunning(Replay(log), job)) <==> LeaksMirror(c, e))
    ensures RunOf(c, e, h) == Summary(out, Replay(log).tunnels, Replay(log).teardowns, h')
  {
    ghost var x := SeenBy(c, e);
    log, h' := Empty, h;
    var ok := true;
    if !c.shared { ok := ValidateDriveIDs(c.drives); }
    if !Tunnel.Acceptable(Tunnel.Unmap(c.dest), Tunnel.Unmap(c.vm)) || c.mode.Unknown? || c.multifd < 0 || !ok {
      return Rejected, log, h';
    }
    if !e.connect { return Failed, log, h'; }
    var pending := [];
    if !c.shared {
      log, ok := StartMirrors(c, e, x);
      if !ok {
        MirrorsLeakExactly(c, e, Replay(log));
        return Failed, log, h';
      }
      assert c.drives[..|c.drives|] == c.drives;
      pending := JobIds(c.drives);
    }
    var s;
    log, s, h', pending := Body(c, e, x, h, log, pending);
    if s == Stuck { return Pending, log, h'; }
    if pending != [] {
      log := CancelMirrors(c, e, x, pending, log);
    }
    MirrorsLeakExactly(c, e, Replay(log));
    out := if s == On then Succeeded else Failed;
  }

  /** Everything between the mirrors' start and the deferred clean-up; `left` is what the clean-up
      still has to cancel. */
  method Body(c: Config, e: Env, ghost x: Seen, h: Tunnel.Host, before: Log, mirrors: seq<string>)
    returns (log: Log, s: Status, h': Tunnel.Host, left: seq<string>)
    requires x == SeenBy(c, e)
    requires ValidConfig(c) && Obeys(c, e, x, before) && MirrorsUp(c, Replay(before))
      && mirrors == Replay(before).mirrors
    ensures Obeys(c, e, x, log)
    ensures s == On <==> BodyHandsOver(c, e, x) && x.end == Some(Waits.Good)
    ensures s == On <==> Replay(log).phase == Over(true)
    ensures Replay(log).mirrors == mirrors && Replay(log).stray == []
    ensures Replay(log).aborts == if BodyHandsOver(c, e, x) && x.end == Some(Waits.Bad) then 1 else 0
    ensures s == Stuck <==> BodyWaits(c, e, x)
    ensures Replay(log).tunnels == if BodyHandsOver(c, e, x) && ModeOf(c) != Tunnel.NoTunnel then 1 else 0
    ensures s == Stuck ==> Replay(log).teardowns == 0
    ensures s != Stuck ==> (Replay(log).ram == Running <==> BodyLeaks(c, e, x))
    ensures s != Stuck ==>
      var w := Replay(log);
      && w.teardowns == w.tunnels <= 1
      && (if left == [] then w.cancelled == mirrors else left == mirrors && w.cancelled == [] && w.failed)
    ensures h' == HostAtExit(c, e, x, h)
  {
    left, h' := mirrors, h;
    log, s := StartMigration(c, e, x, before);
    assert e.migrate.Done? || e.migrate.FailedWith? || e.migrate.FailedWithout?;
    if s != On { return; }
    log, s, h', left := Switch(c, e, x, h, log, mirrors);
  }

  /** From a running RAM migration to the end. */
  method Switch(c: Config, e: Env, ghost x: Seen, h: Tunnel.Host, before: Log, mirrors: seq<string>)
    returns (log: Log, s: Status, h': Tunnel.Host, left: seq<string>)
    requires Tunnel.Acceptable(Tunnel.Unmap(c.dest), Tunnel.Unmap(c.vm)) && Obeys(c, e, x, before)
    requires x.stop == Waits.StopResult(e.stop) && x.over == Waits.StopOver(e.stop)
      && x.end == Waits.EndResult(e.finish) && x.told == Waits.EndTold(e.finish)
    requires Replay(before) == Start.(mirrors := mirrors, phase := Moving, ram := Running)
    requires mirrors == if c.shared then [] else JobIds(c.drives)
    ensures Obeys(c, e, x, log)
    ensures s == On <==> x.stop == Some(Waits.Good) && TunnelOk(c, e) && x.end == Some(Waits.Good)
    ensures Switched(c, e, x, Replay(log), mirrors, s, left)
    ensures h' == if x.stop == Some(Waits.Good) then HostAfterTunnel(c, e, x, h) else h
  {
    left, h' := mirrors, h;
    log, s, h' := CutOver(c, e, x, h, before);
    if s != On { return; }
    log, s, h' := Finish(c, e, x, h', log);
    left := [];
  }

  /** Where a run is that had RAM migration running. */
  predicate Switched(c: Config, e: Env, x: Seen, w: World, mirrors: seq<string>, s: Status, left: seq<string>)
  {
    var over := x.stop == Some(Waits.Good) && TunnelOk(c, e);
    && (s == On <==> w.phase == Over(true))
    && w.mirrors == mirrors && w.stray == []
    && w.aborts == (if over && x.end == Some(Waits.Bad) then 1 else 0)
    && (s != Stuck ==>
        && (w.ram == Running <==> !x.over && (!over || (x.end == Some(Waits.Good) && !x.told)))
        && w.teardowns == w.tunnels <= 1
        && (if left == [] then w.cancelled == mirrors else left == mirrors && w.cancelled == [] && w.failed))
    && w.tunnels == (if over && ModeOf(c) != Tunnel.NoTunnel then 1 else 0)
    && (s == Stuck <==> x.stop.None? || (over && x.end.None?))
    && (s == Stuck ==> w.teardowns == 0)
    && (s == Off <==>
          || x.stop == Some(Waits.Bad)
          || (x.stop == Some(Waits.Good) && !TunnelOk(c, e))
          || (over && x.end == Some(Waits.Bad)))
  }

  // ---------------------------------------------------------------- what the configuration means

  lemma SameObservations(c: Config, c': Config, e: Env)
    requires c' == c.(mode := c'.mode, dest := c'.dest, vm := c'.vm)
    ensures SeenBy(c, e) == SeenBy(c', e)
  {
    assert Syncs(c, e) <==> Syncs(c', e);
    assert SyncBreaks(c, e) <==> SyncBreaks(c', e);
  }

  /** A configuration that names no tunnel mode runs as one that names IPIP, whatever happens. */
  lemma UnsetRunsAsIpip(c: Config, e: Env, h: Tunnel.Host)
    requires c.mode == Unset
    ensures RunOf(c, e, h) == RunOf(c.(mode := Known(Tunnel.Ipip)), e, h)
  {
    SameObservations(c, c.(mode := Known(Tunnel.Ipip)), e);
  }

  /** An IPv4 address written as an IPv6 one is as good as the address itself. */
  lemma MappedRunsAsPlain(c: Config, e: Env, h: Tunnel.Host, dest: string, vm: string)
    requires c.dest == Tunnel.Mapped(dest) && c.vm == Tunnel.Mapped(vm)
    ensures RunOf(c, e, h) == RunOf(c.(dest := Tunnel.V4(dest)), e, h) == RunOf(c.(vm := Tunnel.V4(vm)), e, h)
  {
    SameObservations(c, c.(dest := Tunnel.V4(dest)), e);
    SameObservations(c, c.(vm := Tunnel.V4(vm)), e);
  }

  /** A run that hands over and was not told to do without a tunnel has raised exactly one, and while
      it stands the VM's packets are forwarded to the destination: by IPIP if no mode was named, and
      by the named mode otherwise. */
  lemma HandedOverForwards(c: Config, e: Env, h: Tunnel.Host)
    requires HandsOver(c, e) && c.mode != Known(Tunnel.NoTunnel)
    ensures RunOf(c, e, h).tunnels == 1 && e.name.Some?
    ensures var mode := if c.mode == Unset then Tunnel.Ipip else c.mode.mode;
      Tunnel.Forwards(HostAfterSetup(c, e, h), e.name.value, mode, Tunnel.Unmap(c.dest), Tunnel.Unmap(c.vm))
  {
    Tunnel.SetupForwards(h, Tunnel.Unmap(c.dest), Tunnel.Unmap(c.vm), ModeOf(c), e.name.value, e.ip);
  }

  /** A run that was told to do without a tunnel raises none and leaves the host alone. */
  lemma NoTunnelMeansNone(c: Config, e: Env, h: Tunnel.Host)
    requires c.mode == Known(Tunnel.NoTunnel)
    ensures RunOf(c, e, h).tunnels == RunOf(c, e, h).teardowns == 0 && RunOf(c, e, h).host == h
  {
  }

  // ---------------------------------------------------------------- success on silence

  /** A run can succeed on silence alone, and then RAM migration is left running as far as it knows:
      the guest paused, and every query after that failed for longer than the grace. */
  lemma SilenceSucceeds(c: Config, e: Env, pause: Waits.StopTurn, from: int)
    requires Begins(c, e) && (c.shared || Syncs(c, e)) && e.caps && e.params
    requires e.migrate == Tunnel.Done && TunnelOk(c, e)
    requires pause.parked && e.stop == [pause]
    requires e.finish == [Waits.Unreachable(from, from), Waits.Unreachable(from, from + Waits.StallGrace + 1)]
    ensures AllWell(c, e) && LeaksMigration(c, e)
  {
    Waits.EndsAt(e.finish, 1, 0);
  }

  // ---------------------------------------------------------------- what the log means

  /** Mirrors are left running exactly if one could not be started and either an earlier one was,
      because the clean-up is armed only after the last one is up, or its own start took effect. */
  lemma MirrorsLeakExactly(c: Config, e: Env, w: World)
    requires Closed(c, w) && MirrorsAre(c, e, w)
    ensures (exists job :: LeftRunning(w, job)) <==> LeaksMirror(c, e)
  {
    if LeaksMirror(c, e) {
      var n := Started(c.drives, e.refused);
      assert LeftRunning(w, if n > 0 then w.mirrors[0] else w.stray[0]);
    }
  }

  /** What every log that obeys the rules keeps: past its first phase all mirrors have been
      started, and mirrors are cancelled in the order they were started. */
  predicate InStep(c: Config, w: World)
  {
    && (!c.shared && w.phase != Idle ==> w.mirrors == JobIds(c.drives))
    && (c.shared ==> w.mirrors == [])
    && |w.cancelled| <= |w.mirrors| && w.cancelled == w.mirrors[..|w.cancelled|]
    && w.teardowns <= w.tunnels <= 1 && w.aborts <= 1
    && (w.tunnels == 1 ==> w.phase in {Forwarding, Over(true), Over(false)})
    && (w.aborts == 1 ==> w.phase == Over(false))
  }

  lemma MirrorsStayInStep(c: Config, e: Env, x: Seen, w: World, ev: Event)
    requires Allowed(c, e, x, w, ev) && InStep(c, w)
    ensures var v := After(w, ev);
      && (!c.shared && v.phase != Idle ==> v.mirrors == JobIds(c.drives))
      && (c.shared ==> v.mirrors == [])
  {
  }

  lemma CancelsStayInStep(c: Config, e: Env, x: Seen, w: World, ev: Event)
    requires Allowed(c, e, x, w, ev) && InStep(c, w)
    ensures var v := After(w, ev); |v.cancelled| <= |v.mirrors| && v.cancelled == v.mirrors[..|v.cancelled|]
  {
    AfterCounts(w, ev);
    if ev.CancelMirror? {
      assert w.mirrors[..|w.cancelled| + 1] == w.mirrors[..|w.cancelled|] + [ev.job];
    }
  }

  lemma TunnelsStayInStep(c: Config, e: Env, x: Seen, w: World, ev: Event)
    requires Allowed(c, e, x, w, ev) && InStep(c, w)
    ensures var v := After(w, ev);
      && v.teardowns <= v.tunnels <= 1 && v.aborts <= 1
      && (v.tunnels == 1 ==> v.phase in {Forwarding, Over(true), Over(false)})
      && (v.aborts == 1 ==> v.phase == Over(false))
  {
  }

  lemma StaysInStep(c: Config, e: Env, x: Seen, w: World, ev: Event)
    requires Allowed(c, e, x, w, ev) && InStep(c, w)
    ensures InStep(c, After(w, ev))
  {
    MirrorsStayInStep(c, e, x, w, ev);
    CancelsStayInStep(c, e, x, w, ev);
    TunnelsStayInStep(c, e, x, w, ev);
  }

  lemma {:induction false} EveryLogIsInStep(c: Config, e: Env, x: Seen, log: Log)
    requires Obeys(c, e, x, log)
    ensures InStep(c, Replay(log))
  {
    if log.Then? {
      EveryLogIsInStep(c, e, x, log.before);
      StaysInStep(c, e, x, Replay(log.before), log.last);
    }
  }

  /** What the phase of a log says about the surroundings' answers. */
  predicate Witnessed(c: Config, e: Env, x: Seen, w: World)
  {
    && (!c.shared && w.phase != Idle ==> x.sync == Some(Waits.Good))
    && (w.phase in {Stopped, Forwarding} || w.phase.Over? ==> x.stop == Some(Waits.Good))
    && (w.phase in {Moving, Stopped, Forwarding} || w.phase.Over? ==> e.migrate == Tunnel.Done)
    && (w.aborts > 0 ==> x.end == Some(Waits.Bad))
    && (w.phase.Over? ==> x.end == Some(if w.phase.good then Waits.Good else Waits.Bad))
  }

  lemma StaysWitnessed(c: Config, e: Env, x: Seen, w: World, ev: Event)
    requires Allowed(c, e, x, w, ev) && Witnessed(c, e, x, w)
    ensures Witnessed(c, e, x, After(w, ev))
  {
  }

  lemma {:induction false} EveryLogIsWitnessed(c: Config, e: Env, x: Seen, log: Log)
    requires Obeys(c, e, x, log)
    ensures Witnessed(c, e, x, Replay(log))
  {
    if log.Then? {
      EveryLogIsWitnessed(c, e, x, log.before);
      StaysWitnessed(c, e, x, Replay(log.before), log.last);
    }
  }

  /** `part` is where the run was at some earlier point, or is now. */
  predicate Passed(log: Log, part: Log)
  {
    log == part || (log.Then? && Passed(log.before, part))
  }

  lemma {:induction false} PassedObeys(c: Config, e: Env, x: Seen, log: Log, part: Log)
    requires Obeys(c, e, x, log) && Passed(log, part)
    ensures Obeys(c, e, x, part)
  {
    if log != part {
      PassedObeys(c, e, x, log.before, part);
    }
  }

  /** Poll `k` shows the mirror ready; up to it, it was never missing once listed and never ended. */
  ghost predicate InStepAt(e: Env, k: nat, job: string)
    requires k < |e.sync|
  {
    && e.sync[k].Listed? && StorageSync.ReadyIn(e.sync[k].entries, job)
    && forall i, j | 0 <= i < j <= k && e.sync[i].Listed? && StorageSync.Lists(e.sync[i].entries, job) ::
         e.sync[j].Listed? && StorageSync.Lists(e.sync[j].entries, job) && !StorageSync.EndedIn(e.sync[j].entries, job)
  }

  lemma SyncedPolls(c: Config, e: Env, drive: string) returns (n: nat, k: nat)
    requires Syncs(c, e) && drive in c.drives
    ensures n < |e.sync| && FirstDecides(Ids(c.drives), e.sync, n, StorageSync.Synced)
    ensures k <= n && InStepAt(e, k, JobId(drive))
  {
    n :| 0 <= n < |e.sync| && FirstDecides(Ids(c.drives), e.sync, n, StorageSync.Synced);
    k := StorageSync.SyncedMeansMirrored(Ids(c.drives), e.sync, n + 1, JobId(drive));
  }

  /** Whenever a run has requested RAM migration, every drive's mirror had been started, none had
      been cancelled, and each had reported ready in a poll up to which it was never missing once
      listed and had not ended. */
  lemma MigratesOnlyWhenMirrored(c: Config, e: Env, log: Log, part: Log, drive: string) returns (n: nat, k: nat)
    requires Obeys(c, e, SeenBy(c, e), log) && Passed(log, part) && part.Then? && part.last.Migrate?
    requires !c.shared && drive in c.drives
    ensures Live(Replay(part.before)) && Replay(part.before).mirrors == JobIds(c.drives)
    ensures n < |e.sync| && FirstDecides(Ids(c.drives), e.sync, n, StorageSync.Synced)
    ensures k <= n && InStepAt(e, k, JobId(drive))
  {
    var x := SeenBy(c, e);
    PassedObeys(c, e, x, log, part);
    EveryLogIsInStep(c, e, x, part.before);
    EveryLogIsWitnessed(c, e, x, part.before);
    n, k := SyncedPolls(c, e, drive);
  }

  /** Whenever a run has tried to redirect packets, RAM migration had been accepted, and the guest
      had been seen to pause: a STOP event was there, or a query reported completion. */
  lemma ForwardsOnlyWhenPaused(c: Config, e: Env, log: Log, part: Log) returns (k: nat)
    requires Obeys(c, e, SeenBy(c, e), log) && Passed(log, part) && part.Then?
      && (part.last.Forward? || part.last.NoTunnelName?)
    ensures e.migrate == Tunnel.Done
    ensures k < |e.stop| && forall i | 0 <= i < k :: Waits.StopEnding(e.stop[i]).None?
    ensures var t := e.stop[k];
      t.parked || Waits.Stop in Waits.Delivered(t) || (t.reply.Answered? && t.reply.info.status == Waits.Completed)
  {
    var x := SeenBy(c, e);
    PassedObeys(c, e, x, log, part);
    EveryLogIsWitnessed(c, e, x, part.before);
    k := Waits.GoodStopWasObserved(e.stop);
  }

  /** A request to abort is only ever issued after the completion wait ended badly. */
  lemma AbortsOnlyAfterBadEnd(c: Config, e: Env, log: Log, part: Log)
    requires Obeys(c, e, SeenBy(c, e), log) && Passed(log, part) && part.Then? && part.last.CancelMigration?
    ensures Waits.EndResult(e.finish) == Some(Waits.Bad)
  {
    var x := SeenBy(c, e);
    PassedObeys(c, e, x, log, part);
    EveryLogIsWitnessed(c, e, x, part);
  }

  // ---------------------------------------------------------------- the world is the log

  /** How often an event is in the log. */
  function Count(log: Log, ev: Event): nat
  {
    if log.Empty? then 0 else Count(log.before, ev) + if log.last == ev then 1 else 0
  }

  /** The jobs that were asked to stop, in order. */
  function CancelledJobs(log: Log): seq<string>
  {
    if log.Empty? then []
    else if log.last.CancelMirror? then CancelledJobs(log.before) + [log.last.job] else CancelledJobs(log.before)
  }

  /** The drives whose mirrors were reported started, in order. */
  function StartedDrives(log: Log): seq<string>
  {
    if log.Empty? then []
    else match log.last
      case Mirror(d, Done) => StartedDrives(log.before) + [d]
      case _ => StartedDrives(log.before)
  }

  lemma JobIdsCat(a: seq<string>, d: string)
    ensures JobIds(a + [d]) == JobIds(a) + [JobId(d)]
  {
  }

  lemma AfterCounts(w: World, ev: Event)
    ensures var v := After(w, ev);
      && v.tunnels == w.tunnels + (if ev == Forward(true) then 1 else 0)
      && v.teardowns == w.teardowns + (if ev == Teardown then 1 else 0)
      && v.aborts == w.aborts + (if ev == CancelMigration then 1 else 0)
      && v.cancelled == w.cancelled + (if ev.CancelMirror? then [ev.job] else [])
      && v.mirrors == w.mirrors + (if ev.Mirror? && ev.r == Tunnel.Done then [JobId(ev.drive)] else [])
  {
  }

  /** What the rules and results count are the commands in the log. */
  lemma {:induction false} WorldCounts(log: Log)
    ensures var w := Replay(log);
      && w.tunnels == Count(log, Forward(true)) && w.teardowns == Count(log, Teardown)
      && w.aborts == Count(log, CancelMigration) && w.cancelled == CancelledJobs(log)
      && w.mirrors == JobIds(StartedDrives(log))
  {
    if log.Then? {
      WorldCounts(log.before);
      AfterCounts(Replay(log.before), log.last);
      if log.last.Mirror? { JobIdsCat(StartedDrives(log.before), log.last.drive); }
    }
  }
}
