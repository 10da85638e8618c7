/** The destination side of a migration after its arguments have been checked: the packet queue on
    the guest's interface, the incoming listener, the NBD server, and their clean-up. */
module DestRun {
  import opened Tunnel

  /** The interface's queue: none of ours, letting packets through, or holding them back. A plug
      queue that has just been added holds packets back. */
  datatype Queue = NoQueue | PassThrough | Holding

  /** What the run finds on the node: the interface's queue, and whether QEMU has a server up. */
  datatype Found = Found(queue: Queue, server: bool)

  datatype Config = Config(tap: bool, shared: bool, drives: seq<string>, multifd: nat)

  /** The answers of the interface, of QEMU and of the clock. For a command that changes the queue
      or the server, a failure may still have taken effect. */
  datatype Env = Env(
    shown: bool, preclear: Result, add: Result, ready: Result, rollback: Result,
    connect: bool, caps: bool, channels: bool, incoming: bool,
    prestop: bool, serve: Result, refused: set<string>,
    hold: Result, resume: bool, release: Result,
    stop: Result, announce: bool, cleanup: Result)

  datatype Event =
    | Clear(r: Result)
    | AddQueue(r: Result)
    | Release(r: Result)
    | Hold(r: Result)
    | Caps(multifd: bool, ok: bool)
    | Channels(n: nat, ok: bool)
    | NoConnection
    | Incoming(ok: bool)
    | Prestop(ok: bool)
    | Serve(r: Result)
    | Export(drive: string, ok: bool)
    | Resumed
    | NeverResumed
    | StopServer(r: Result)
    | Announce(ok: bool)

  datatype Log = Empty | Then(before: Log, last: Event)

  /** The first four are about the queue: untouched, cleared, added, and ready for use; a queue
      that was added and could not be made ready is `Undone`. */
  datatype Phase =
    | Fresh | Cleared | Added | Undone | Queued
    | Capable | Channelled | Listening | Stopped | Exporting | Waiting | Running | Announced

  /** `armed`: a queue is installed and the run still owes its release or removal; `serving`: the
      server was started and the run still owes its stop. */
  datatype World = World(
    phase: Phase, failed: bool, queue: Queue, armed: bool,
    server: bool, serving: bool, exports: seq<string>, starts: nat, stops: nat)

  function Start(q: Found): World
  {
    World(Fresh, false, q.queue, false, q.server, false, [], 0, 0)
  }

  function Took(r: Result, q: Queue, was: Queue): Queue
  {
    if r == FailedWithout then was else q
  }

  function Reach(w: World, ok: bool, p: Phase): World
  {
    if ok then w.(phase := p) else w.(failed := true)
  }

  function After(w: World, e: Event): World
  {
    match e
    case Clear(r) =>
      w.(queue := Took(r, NoQueue, w.queue), armed := false,
         phase := if w.phase == Fresh then Cleared else if w.phase == Added then Undone else w.phase)
    case AddQueue(r) => Reach(w, r == Done, Added).(queue := Took(r, Holding, w.queue))
    case Release(r) =>
      if w.phase == Added then Reach(w, r == Done, Queued).(queue := Took(r, PassThrough, w.queue), armed := r == Done)
      else w.(queue := Took(r, PassThrough, w.queue), failed := r != Done, armed := r != Done)
    case Hold(r) => Reach(w, r == Done, Waiting).(queue := Took(r, Holding, w.queue))
    case NoConnection => w.(failed := true)
    case Caps(_, ok) => Reach(w, ok, Capable)
    case Channels(_, ok) => Reach(w, ok, Channelled)
    case Incoming(ok) => Reach(w, ok, Listening)
    case Prestop(ok) => w.(phase := Stopped, server := w.server && !ok)
    case Serve(r) =>
      if r == Done then w.(phase := Exporting, server := true, serving := true, starts := w.starts + 1)
      else w.(failed := true, server := w.server || r == FailedWith)
    case Export(d, ok) => if ok then w.(exports := w.exports + [d]) else w.(failed := true)
    case Resumed => w.(phase := Running)
    case NeverResumed => w.(failed := true)
    case StopServer(r) => w.(server := w.server && r == FailedWithout, serving := false, stops := w.stops + 1)
    case Announce(ok) => Reach(w, ok, Announced)
  }

  function Replay(q: Found, log: Log): World
  {
    if log.Empty? then Start(q) else After(Replay(q, log.before), log.last)
  }

  predicate UsesQueue(c: Config, e: Env)
  {
    c.tap && e.shown
  }

  /** The queue, if the run uses one, is ready and QEMU has not been talked to. */
  predicate AtDoor(c: Config, e: Env, w: World)
  {
    !w.failed && w.phase == (if UsesQueue(c, e) then Queued else Fresh)
  }

  /** The phase in which everything the source will connect to is in place. */
  predicate Ready(c: Config, w: World)
  {
    if c.shared then w.phase == Listening else w.phase == Exporting && w.exports == c.drives
  }

  /** The guest is being waited for: with a queue, packets are held. */
  predicate Awaits(c: Config, e: Env, w: World)
  {
    !w.failed && if UsesQueue(c, e) then w.armed && w.phase == Waiting else Ready(c, w)
  }

  /** What must hold before an event, in the run so far and in the surroundings' answers. Packets
      are held back only once all exports are up, and let through again only once the guest has
      resumed; the server outlives the guest's arrival; nothing moves forward after a failure; a
      run is given up only for an answer that is bad; only what the run owns is removed. */
  predicate Allowed(c: Config, e: Env, w: World, ev: Event)
  {
    match ev
    case Clear(r) =>
      && UsesQueue(c, e)
      && if !w.failed then w.phase == Fresh && r == e.preclear
         else if w.armed then r == e.cleanup && !w.serving
         else w.phase == Added && r == e.rollback
    case AddQueue(r) => !w.failed && UsesQueue(c, e) && w.phase == Cleared && r == e.add
    case Release(r) =>
      && !w.failed && UsesQueue(c, e)
      && ((w.phase == Added && r == e.ready) || (w.phase == Running && w.armed && r == e.release))
    case Hold(r) => !w.failed && w.armed && Ready(c, w) && r == e.hold
    case NoConnection => AtDoor(c, e, w) && !e.connect
    case Caps(multifd, ok) => AtDoor(c, e, w) && e.connect && (multifd <==> c.multifd > 0) && ok == e.caps
    case Channels(n, ok) => !w.failed && w.phase == Capable && n == c.multifd > 0 && ok == e.channels
    case Incoming(ok) => !w.failed && w.phase == (if c.multifd > 0 then Channelled else Capable) && ok == e.incoming
    case Prestop(ok) => !w.failed && w.phase == Listening && !c.shared && ok == e.prestop
    case Serve(r) => !w.failed && w.phase == Stopped && r == e.serve
    case Export(d, ok) =>
      && !w.failed && w.phase == Exporting && |w.exports| < |c.drives| && d == c.drives[|w.exports|]
      && ok == (d !in e.refused)
    case Resumed => Awaits(c, e, w) && e.resume
    case NeverResumed => Awaits(c, e, w) && !e.resume
    case StopServer(r) => w.serving && (w.failed || (w.phase == Running && !w.armed)) && r == e.stop
    case Announce(ok) => !w.failed && w.phase == Running && !w.armed && !w.serving && ok == e.announce
  }

  predicate Obeys(c: Config, e: Env, q: Found, log: Log)
  {
    log.Empty? || (Obeys(c, e, q, log.before) && Allowed(c, e, Replay(q, log.before), log.last))
  }

  lemma Did(c: Config, e: Env, q: Found, log: Log, ev: Event)
    requires Obeys(c, e, q, log) && Allowed(c, e, Replay(q, log), ev)
    ensures Obeys(c, e, q, Then(log, ev)) && Replay(q, Then(log, ev)) == After(Replay(q, log), ev)
  {
  }

  // ---------------------------------------------------------------- the queue

  /** The queue after the first step, when that step is taken and succeeds or fails. */
  function QueueAfterPrepare(e: Env, q: Queue): Queue
  {
    if e.add == FailedWithout then Took(e.preclear, NoQueue, q)
    else if e.add == FailedWith then Holding
    else if e.ready == Done then PassThrough
    else Took(e.rollback, NoQueue, Took(e.ready, PassThrough, Holding))
  }

  method PrepareQueue(c: Config, e: Env, q: Found) returns (log: Log, ok: bool)
    ensures Obeys(c, e, q, log)
    ensures ok <==> !UsesQueue(c, e) || (e.add == Done && e.ready == Done)
    ensures var w := Replay(q, log);
      && (UsesQueue(c, e) ==> w == Start(q).(phase := w.phase, queue := QueueAfterPrepare(e, q.queue),
        failed := !ok, armed := ok))
      && (!UsesQueue(c, e) ==> w == Start(q))
      && (ok ==> AtDoor(c, e, w))
      && w.phase in {Fresh, Cleared, Added, Undone, Queued}
  {
    log, ok := Empty, true;
    if !c.tap || !e.shown { return; }
    Did(c, e, q, log, Clear(e.preclear));
    log := Then(log, Clear(e.preclear));
    Did(c, e, q, log, AddQueue(e.add));
    log := Then(log, AddQueue(e.add));
    if e.add != Done { ok := false; return; }
    Did(c, e, q, log, Release(e.ready));
    log := Then(log, Release(e.ready));
    if e.ready != Done {
      Did(c, e, q, log, Clear(e.rollback));
      log := Then(log, Clear(e.rollback));
      ok := false;
    }
  }

  // ---------------------------------------------------------------- listener and exports

  predicate ListensWell(c: Config, e: Env)
  {
    e.caps && (c.multifd > 0 ==> e.channels) && e.incoming
  }

  method OpenListener(c: Config, e: Env, q: Found, before: Log) returns (log: Log, ok: bool)
    requires Obeys(c, e, q, before) && AtDoor(c, e, Replay(q, before)) && e.connect
    ensures Obeys(c, e, q, log)
    ensures ok <==> ListensWell(c, e)
    ensures var w, v := Replay(q, before), Replay(q, log);
            v == w.(phase := v.phase, failed := !ok) && if ok then v.phase == Listening
              else v.phase in {Fresh, Queued, Capable, Channelled}
  {
    Did(c, e, q, before, Caps(c.multifd > 0, e.caps));
    log, ok := Then(before, Caps(c.multifd > 0, e.caps)), e.caps;
    if !ok { return; }
    if c.multifd > 0 {
      Did(c, e, q, log, Channels(c.multifd, e.channels));
      log, ok := Then(log, Channels(c.multifd, e.channels)), e.channels;
      if !ok { return; }
    }
    Did(c, e, q, log, Incoming(e.incoming));
    log, ok := Then(log, Incoming(e.incoming)), e.incoming;
  }

  predicate NoneRefused(c: Config, e: Env)
  {
    forall i | 0 <= i < |c.drives| :: c.drives[i] !in e.refused
  }

  predicate ExportsAll(c: Config, e: Env)
  {
    e.serve == Done && NoneRefused(c, e)
  }

  /** The run is where it was at `w`, with the first `n` drives exported since. */
  predicate HasExported(c: Config, w: World, q: Found, log: Log, n: nat)
    requires n <= |c.drives|
  {
    Replay(q, log) == w.(exports := c.drives[..n])
  }

  function WithExports(log: Log, drives: seq<string>): Log
  {
    if drives == [] then log else Then(WithExports(log, drives[..|drives| - 1]), Export(drives[|drives| - 1], true))
  }

  lemma ExportIsAllowed(c: Config, e: Env, w: World, n: nat)
    requires n < |c.drives| && !w.failed && w.phase == Exporting
    ensures var v, ev := w.(exports := c.drives[..n]), Export(c.drives[n], c.drives[n] !in e.refused);
      Allowed(c, e, v, ev) && After(v, ev) == if ev.ok then w.(exports := c.drives[..n + 1]) else v.(failed := true)
  {
    assert c.drives[..n + 1] == c.drives[..n] + [c.drives[n]];
  }

  lemma {:induction false} Exports(c: Config, e: Env, q: Found, w: World, log: Log, n: nat)
    requires n <= |c.drives| && Obeys(c, e, q, log) && Replay(q, log) == w
    requires !w.failed && w.phase == Exporting && w.exports == [] && forall i | 0 <= i < n :: c.drives[i] !in e.refused
    ensures Obeys(c, e, q, WithExports(log, c.drives[..n])) && HasExported(c, w, q, WithExports(log, c.drives[..n]), n)
  {
    if n > 0 {
      Exports(c, e, q, w, log, n - 1);
      assert c.drives[..n][..n - 1] == c.drives[..n - 1];
      ExportIsAllowed(c, e, w, n - 1);
      Did(c, e, q, WithExports(log, c.drives[..n - 1]), Export(c.drives[n - 1], true));
    }
  }

  /** The world after the server step, as far as the rest of the run depends on it. */
  predicate Served(c: Config, e: Env, w: World, v: World)
  {
    && v.queue == w.queue && v.armed == w.armed && v.stops == w.stops
      && v.starts == w.starts + (if v.serving then 1 else 0)
    && (v.serving <==> e.serve == Done)
    && (v.server <==> e.serve != FailedWithout || (w.server && !e.prestop))
    && (v.failed <==> !ExportsAll(c, e))
    && (!v.failed ==> v.phase == Exporting && v.exports == c.drives)
    && (v.failed ==> v.phase in {Stopped, Exporting})
  }

  method ExportDrives(c: Config, e: Env, before: Log) returns (log: Log, n: nat)
    ensures n <= |c.drives| && (n == |c.drives| <==> NoneRefused(c, e))
    ensures (forall i | 0 <= i < n :: c.drives[i] !in e.refused) && (n < |c.drives| ==> c.drives[n] in e.refused)
    ensures var done := WithExports(before, c.drives[..n]); log == if n < |c.drives| then Then(done,
      Export(c.drives[n], false)) else done
  {
    log, n := before, 0;
    while n < |c.drives|
      invariant n <= |c.drives| && log == WithExports(before, c.drives[..n])
      invariant forall i | 0 <= i < n :: c.drives[i] !in e.refused
    {
      var d := c.drives[n];
      log := Then(log, Export(d, d !in e.refused));
      if d in e.refused { return; }
      n := n + 1;
      assert c.drives[..n][..n - 1] == c.drives[..n - 1];
    }
  }

  method ServeDrives(c: Config, e: Env, q: Found, before: Log) returns (log: Log, ok: bool)
    requires Obeys(c, e, q, before) && !c.shared
    requires var w := Replay(q, before); !w.failed && w.phase == Listening && !w.serving && w.exports == []
    ensures Obeys(c, e, q, log)
    ensures ok <==> ExportsAll(c, e)
    ensures Served(c, e, Replay(q, before), Replay(q, log))
  {
    Did(c, e, q, before, Prestop(e.prestop));
    log := Then(before, Prestop(e.prestop));
    Did(c, e, q, log, Serve(e.serve));
    log, ok := Then(log, Serve(e.serve)), e.serve == Done;
    if ok {
      var started, n := log, 0;
      log, n := ExportDrives(c, e, started);
      ExportedLog(c, e, q, started, n);
      ok := n == |c.drives|;
    }
  }

  lemma ExportedLog(c: Config, e: Env, q: Found, started: Log, n: nat)
    requires n <= |c.drives| && Obeys(c, e, q, started)
    requires var w := Replay(q, started); !w.failed && w.phase == Exporting && w.exports == []
    requires (forall i | 0 <= i < n :: c.drives[i] !in e.refused) && (n < |c.drives| ==> c.drives[n] in e.refused)
    ensures var done := WithExports(started, c.drives[..n]);
      var log := if n < |c.drives| then Then(done, Export(c.drives[n], false)) else done;
      Obeys(c, e, q, log) && Replay(q, log) == Replay(q, started).(exports := c.drives[..n], failed := n < |c.drives|)
  {
    var w := Replay(q, started);
    Exports(c, e, q, w, started, n);
    if n < |c.drives| {
      ExportIsAllowed(c, e, w, n);
      Did(c, e, q, WithExports(started, c.drives[..n]), Export(c.drives[n], false));
    }
  }

  // ---------------------------------------------------------------- the guest's arrival

  predicate Arrives(c: Config, e: Env)
  {
    e.resume && (UsesQueue(c, e) ==> e.hold == Done && e.release == Done)
  }

  /** The queue after this step, if the run uses one. */
  function QueueAfterArrival(e: Env): Queue
  {
    if e.hold == FailedWithout then PassThrough
    else if e.hold == FailedWith || !e.resume then Holding
    else Took(e.release, PassThrough, Holding)
  }

  method AwaitGuest(c: Config, e: Env, q: Found, before: Log) returns (log: Log, ok: bool)
    requires Obeys(c, e, q, before)
    requires var w := Replay(q, before);
      !w.failed && Ready(c, w) && (w.armed <==> UsesQueue(c, e)) && (w.armed ==> w.queue == PassThrough)
    ensures Obeys(c, e, q, log)
    ensures ok <==> Arrives(c, e)
    ensures var w, v := Replay(q, before), Replay(q, log);
            v == w.(phase := v.phase, failed := !ok,
                    queue := if w.armed then QueueAfterArrival(e) else w.queue, armed := w.armed && !ok)
    ensures ok ==> Replay(q, log).phase == Running
    ensures !ok ==> Replay(q, log).phase != Announced
  {
    log, ok := before, true;
    if UsesQueue(c, e) {
      Did(c, e, q, log, Hold(e.hold));
      log := Then(log, Hold(e.hold));
      if e.hold != Done { ok := false; return; }
    }
    var ev := if e.resume then Resumed else NeverResumed;
    Did(c, e, q, log, ev);
    log := Then(log, ev);
    if !e.resume { ok := false; return; }
    if UsesQueue(c, e) {
      Did(c, e, q, log, Release(e.release));
      log := Then(log, Release(e.release));
      ok := e.release == Done;
    }
  }

  // ---------------------------------------------------------------- the whole run

  predicate AllWell(c: Config, e: Env)
  {
    && (UsesQueue(c, e) ==> e.add == Done && e.ready == Done)
    && e.connect && ListensWell(c, e)
    && (c.shared || ExportsAll(c, e))
    && Arrives(c, e) && e.announce
  }

  /** Everything up to the point where packets are held back went well. */
  predicate Prepared(c: Config, e: Env)
  {
    e.add == Done && e.ready == Done && e.connect && ListensWell(c, e) && (c.shared || ExportsAll(c, e))
  }

  /** When the guest's packets are still being held back after the run has returned: an added queue
      was reported as failed although it was there; or the command that had to undo a failure took
      no effect while packets were held. */
  predicate StaysHeld(c: Config, e: Env, q: Found)
  {
    if !UsesQueue(c, e) then q.queue == Holding
    else
      || e.add == FailedWith
      || (e.add == FailedWithout && e.preclear == FailedWithout && q.queue == Holding)
      || (e.add == Done && e.ready == FailedWithout && e.rollback == FailedWithout)
      || (Prepared(c, e) && e.cleanup == FailedWithout && e.hold != FailedWithout
          && (e.hold == FailedWith || !e.resume || e.release == FailedWithout))
  }

  /** When the NBD server is still running after the run has returned. */
  predicate StillServing(c: Config, e: Env, found: bool)
  {
    if c.shared || (UsesQueue(c, e) && !(e.add == Done && e.ready == Done)) || !e.connect
      || !ListensWell(c, e) then found
    else match e.serve
      case Done => e.stop == FailedWithout
      case FailedWith => true
      case FailedWithout => found && !e.prestop
  }

  /** What a run that has returned leaves: nothing owed, and a server that was started has been
      asked to stop exactly once. */
  predicate Closed(w: World)
  {
    !w.armed && !w.serving && w.stops == w.starts <= 1
  }

  method RunDestination(c: Config, e: Env, q: Found) returns (ok: bool, log: Log)
    ensures Obeys(c, e, q, log) && Closed(Replay(q, log))
    ensures ok <==> AllWell(c, e)
    ensures ok <==> Replay(q, log).phase == Announced
    ensures ok ==> !Replay(q, log).failed
    ensures Replay(q, log).queue == Holding <==> StaysHeld(c, e, q)
    ensures Replay(q, log).server <==> StillServing(c, e, q.server)
    ensures ok && UsesQueue(c, e) ==> Replay(q, log).queue == PassThrough
  {
    log, ok := PrepareQueue(c, e, q);
    if !ok { return; }
    var installed, started := UsesQueue(c, e), false;
    if !e.connect {
      Did(c, e, q, log, NoConnection);
      log, ok := Then(log, NoConnection), false;
    } else {
      log, ok, installed, started := Converse(c, e, q, log);
    }
    log := CleanUp(c, e, q, log, installed, started);
  }

  /** Where a run stands when its queue is prepared. */
  predicate QueueReady(c: Config, e: Env, q: Found, w: World)
  {
    w == Start(q).(phase := if UsesQueue(c, e) then Queued else Fresh,
                   queue := if UsesQueue(c, e) then PassThrough else q.queue, armed := UsesQueue(c, e))
  }

  /** The queue at the deferred clean-up, if the run uses one. */
  function QueueBeforeCleanUp(c: Config, e: Env): Queue
  {
    if Prepared(c, e) then QueueAfterArrival(e) else PassThrough
  }

  /** Everything said to QEMU; `installed` and `started` are what the clean-up still has to do. */
  method Converse(c: Config, e: Env, q: Found, before: Log) returns (log: Log, ok: bool, installed: bool, started: bool)
    requires e.connect && (UsesQueue(c, e) ==> e.add == Done && e.ready == Done)
    requires Obeys(c, e, q, before) && QueueReady(c, e, q, Replay(q, before))
    ensures Obeys(c, e, q, log)
    ensures ok <==> AllWell(c, e)
    ensures var v := Replay(q, log);
      && (v.failed <==> !ok) && (ok <==> v.phase == Announced)
      && v.queue == (if UsesQueue(c, e) then QueueBeforeCleanUp(c, e) else q.queue)
      && installed == v.armed && started == v.serving
      && (v.armed <==> UsesQueue(c, e) && !(Prepared(c, e) && Arrives(c, e)))
      && v.stops + (if v.serving then 1 else 0) == v.starts <= 1
      && (v.serving ==> v.server)
      && ((v.server && !(v.serving && e.stop != FailedWithout)) <==> StillServing(c, e, q.server))
  {
    installed := UsesQueue(c, e);
    log, ok, started := MakeReady(c, e, q, before);
    if !ok { return; }
    log, ok, installed, started := Arrival(c, e, q, log);
  }

  method MakeReady(c: Config, e: Env, q: Found, before: Log) returns (log: Log, ok: bool, started: bool)
    requires Obeys(c, e, q, before) && QueueReady(c, e, q, Replay(q, before)) && e.connect
    ensures Obeys(c, e, q, log)
    ensures ok <==> ListensWell(c, e) && (c.shared || ExportsAll(c, e))
    ensures started <==> !c.shared && ListensWell(c, e) && e.serve == Done
    ensures var w, v := Replay(q, before), Replay(q, log);
      && v == w.(phase := v.phase, failed := !ok, exports := v.exports, serving := started, server := v.server,
                 starts := if started then 1 else 0)
      && (if ok then Ready(c, v) else v.phase in {Fresh, Queued, Capable, Channelled, Stopped, Exporting})
      && (v.server <==> if c.shared || !ListensWell(c, e) then w.server
        else e.serve != FailedWithout || (w.server && !e.prestop))
  {
    started := false;
    log, ok := OpenListener(c, e, q, before);
    if !ok { return; }
    if !c.shared {
      log, ok := ServeDrives(c, e, q, log);
      started := e.serve == Done;
    }
  }

  /** The guest's arrival, and what is taken down and announced after it. */
  method Arrival(c: Config, e: Env, q: Found, before: Log) returns (log: Log, ok: bool, installed: bool, started: bool)
    requires Obeys(c, e, q, before)
    requires var w := Replay(q, before); !w.failed && Ready(c, w) && w.stops == 0 && (w.serving <==> !c.shared)
    requires var w := Replay(q, before); (w.armed <==> UsesQueue(c, e)) && (w.armed ==> w.queue == PassThrough)
    ensures Obeys(c, e, q, log)
    ensures ok <==> Arrives(c, e) && e.announce
    ensures var w, v := Replay(q, before), Replay(q, log);
      && v == w.(phase := v.phase, failed := !ok, queue := if w.armed then QueueAfterArrival(e) else w.queue,
                 armed := w.armed && !Arrives(c, e), serving := w.serving && !Arrives(c, e),
                 stops := if w.serving && Arrives(c, e) then 1 else 0,
                 server := w.server && !(w.serving && Arrives(c, e) && e.stop != FailedWithout))
      && (ok <==> v.phase == Announced) && installed == v.armed && started == v.serving
  {
    installed, started := UsesQueue(c, e), !c.shared;
    log, ok := AwaitGuest(c, e, q, before);
    if !ok { return; }
    installed := false;
    if !c.shared {
      started := false;
      Did(c, e, q, log, StopServer(e.stop));
      log := Then(log, StopServer(e.stop));
    }
    Did(c, e, q, log, Announce(e.announce));
    log, ok := Then(log, Announce(e.announce)), e.announce;
  }

  /** The deferred clean-ups, the latest armed first: the server, then the queue. */
  method CleanUp(c: Config, e: Env, q: Found, before: Log, installed: bool, started: bool) returns (log: Log)
    requires Obeys(c, e, q, before)
    requires var w := Replay(q, before); w.armed || w.serving ==> w.failed
    requires var w := Replay(q, before); installed == w.armed && started == w.serving && (w.armed ==> UsesQueue(c, e))
    ensures Obeys(c, e, q, log)
    ensures var w, v := Replay(q, before), Replay(q, log);
      v == w.(armed := false, serving := false, stops := w.stops + (if w.serving then 1 else 0),
              server := w.server && !(w.serving && e.stop != FailedWithout),
              queue := if w.armed then Took(e.cleanup, NoQueue, w.queue) else w.queue)
  {
    log := before;
    EveryLogIsSound(c, e, q, before);
    if started {
      Did(c, e, q, log, StopServer(e.stop));
      log := Then(log, StopServer(e.stop));
    }
    if installed {
      Did(c, e, q, log, Clear(e.cleanup));
      log := Then(log, Clear(e.cleanup));
    }
  }

  // ---------------------------------------------------------------- what every log keeps

  /** Packets are held back during the whole wait for the guest. While a run goes well they are
      held back at no other time than that wait, up to the release that ends it, and the moment
      between adding the queue and its first release. Where the guest runs it was seen to resume,
      it found every drive exported, and a server is asked to stop as often as it was started. */
  predicate Sound(c: Config, e: Env, w: World)
  {
    SoundQueue(c, e, w) && SoundGuest(c, e, w) && SoundServer(w)
  }

  /** The clauses of `Sound` about the queue, while a run goes well and after. */
  predicate SoundQueue(c: Config, e: Env, w: World)
  {
    && (w.armed ==> UsesQueue(c, e))
    && (w.phase == Waiting && w.armed ==> w.queue == Holding)
    && (UsesQueue(c, e) && w.queue == Holding && !w.failed && w.phase !in {Fresh, Cleared, Added} ==>
          w.armed && w.phase in {Waiting, Running})
    && (UsesQueue(c, e) && !w.failed && w.phase in {Queued, Capable, Channelled, Listening, Stopped, Exporting} ==>
          w.armed && w.queue == PassThrough)
    && (w.phase == Added && !w.failed ==> w.queue == Holding)
    && (!w.failed && w.phase in {Running, Announced} && !w.armed && UsesQueue(c, e) ==> w.queue == PassThrough)
    && (w.phase in {Fresh, Cleared, Added, Undone} ==> !w.armed)
  }

  lemma QueueStaysSound(c: Config, e: Env, w: World, ev: Event)
    requires SoundQueue(c, e, w) && Allowed(c, e, w, ev)
    ensures SoundQueue(c, e, After(w, ev))
  {
  }

  predicate SoundGuest(c: Config, e: Env, w: World)
  {
    && (w.phase in {Running, Announced} ==> e.resume)
    && (!c.shared && w.phase in {Waiting, Running, Announced} ==> w.exports == c.drives)
  }

  predicate SoundServer(w: World)
  {
    && w.stops + (if w.serving then 1 else 0) == w.starts <= 1
    && (w.phase in {Fresh, Cleared, Added, Undone, Queued, Capable, Channelled, Listening, Stopped} ==> w.starts == 0)
    && (w.stops > 0 ==> w.failed || w.phase in {Running, Announced})
  }

  lemma GuestStaysSound(c: Config, e: Env, w: World, ev: Event)
    requires SoundQueue(c, e, w) && SoundGuest(c, e, w) && Allowed(c, e, w, ev)
    ensures SoundGuest(c, e, After(w, ev))
  {
  }

  lemma ServerStaysSound(c: Config, e: Env, w: World, ev: Event)
    requires SoundServer(w) && Allowed(c, e, w, ev)
    ensures SoundServer(After(w, ev))
  {
  }

  lemma StaysSound(c: Config, e: Env, w: World, ev: Event)
    requires Sound(c, e, w) && Allowed(c, e, w, ev)
    ensures Sound(c, e, After(w, ev))
  {
    QueueStaysSound(c, e, w, ev);
    GuestStaysSound(c, e, w, ev);
    ServerStaysSound(c, e, w, ev);
  }

  lemma {:induction false} EveryLogIsSound(c: Config, e: Env, q: Found, log: Log)
    requires Obeys(c, e, q, log)
    ensures Sound(c, e, Replay(q, log))
  {
    if log.Then? {
      EveryLogIsSound(c, e, q, log.before);
      StaysSound(c, e, Replay(q, log.before), log.last);
    }
  }

  /** `part` is where the run was at some earlier point, or is now. */
  predicate Passed(log: Log, part: Log)
  {
    log == part || (log.Then? && Passed(log.before, part))
  }

  lemma {:induction false} PassedObeys(c: Config, e: Env, q: Found, log: Log, part: Log)
    requires Obeys(c, e, q, log) && Passed(log, part)
    ensures Obeys(c, e, q, part)
  {
    if log != part {
      PassedObeys(c, e, q, log.before, part);
    }
  }

  /** No command on the queue was issued after `part`. */
  predicate QueueAlone(log: Log, part: Log)
  {
    log == part || (log.Then? && !log.last.Clear? && !log.last.AddQueue? && !log.last.Release? && !log.last.Hold?
                    && QueueAlone(log.before, part))
  }

  lemma {:induction false} QueueIsKept(q: Found, log: Log, part: Log)
    requires QueueAlone(log, part)
    ensures Replay(q, log).queue == Replay(q, part).queue
  {
    if log != part {
      QueueIsKept(q, log.before, part);
      OtherEventsKeepQueue(Replay(q, log.before), log.last);
    }
  }

  lemma OtherEventsKeepQueue(w: World, ev: Event)
    requires !ev.Clear? && !ev.AddQueue? && !ev.Release? && !ev.Hold?
    ensures After(w, ev).queue == w.queue
  {
  }

  /** The blocking window opens with the command that holds packets, once everything the source
      needs is in place, and packets are held at every point until the next command on the queue.
      That is a release, and then the guest was seen to resume since; or a removal, and then the
      run has failed. */
  lemma BlockingWindow(c: Config, e: Env, q: Found, log: Log, held: Log, part: Log)
    requires Obeys(c, e, q, log) && Passed(log, part) && part.Then? && QueueAlone(part.before, held)
    requires held.Then? && held.last == Hold(Done) && Passed(part.before, held)
    ensures Ready(c, Replay(q, held.before)) && Replay(q, held.before).queue == PassThrough
    ensures Replay(q, part.before).queue == Holding
    ensures part.last.Release? ==> e.resume && Happened(part.before, Resumed)
    ensures part.last.Clear? ==> Replay(q, part.before).failed
    ensures !part.last.Hold? && !part.last.AddQueue?
  {
    PassedObeys(c, e, q, log, part);
    PassedObeys(c, e, q, part.before, held);
    EveryLogIsSound(c, e, q, held.before);
    QueueIsKept(q, part.before, held);
    EveryLogIsSound(c, e, q, part.before);
    LateStays(c, e, q, part.before, held);
    RunningMeansResumed(c, e, q, part.before);
  }

  predicate Happened(log: Log, ev: Event)
  {
    log.Then? && (log.last == ev || Happened(log.before, ev))
  }

  lemma {:induction false} RunningMeansResumed(c: Config, e: Env, q: Found, log: Log)
    requires Obeys(c, e, q, log)
    ensures Replay(q, log).phase in {Running, Announced} ==> Happened(log, Resumed)
  {
    if log.Then? {
      RunningMeansResumed(c, e, q, log.before);
      RunningStep(c, e, Replay(q, log.before), log.last);
    }
  }

  lemma RunningStep(c: Config, e: Env, w: World, ev: Event)
    requires Allowed(c, e, w, ev)
    ensures After(w, ev).phase in {Running, Announced} ==> w.phase in {Running, Announced} || ev == Resumed
  {
  }

  /** Once packets are held a run never gets back to an earlier phase. */
  lemma {:induction false} LateStays(c: Config, e: Env, q: Found, log: Log, held: Log)
    requires Obeys(c, e, q, log) && Passed(log, held) && held.Then? && held.last == Hold(Done)
    ensures Replay(q, log).phase in {Waiting, Running, Announced}
  {
    if log != held {
      LateStays(c, e, q, log.before, held);
      LateStep(c, e, Replay(q, log.before), log.last);
    }
  }

  lemma LateStep(c: Config, e: Env, w: World, ev: Event)
    requires Allowed(c, e, w, ev) && w.phase in {Waiting, Running, Announced}
    ensures After(w, ev).phase in {Waiting, Running, Announced}
  {
  }

  /** If the commands that remove a queue do what they say and the node held nothing back before,
      a run leaves packets held exactly if adding the queue was reported as failed although it was
      there. */
  lemma HeldOnlyByFailedAdd(c: Config, e: Env, q: Found)
    requires q.queue != Holding && e.rollback != FailedWithout && e.cleanup != FailedWithout
    ensures StaysHeld(c, e, q) <==> UsesQueue(c, e) && e.add == FailedWith
  {
  }

  // ---------------------------------------------------------------- what a run does, by its configuration

  predicate PastListening(p: Phase)
  {
    p in {Listening, Stopped, Exporting, Waiting, Running, Announced}
  }

  /** What the phase of a run says about the commands it has issued. */
  predicate Story(c: Config, e: Env, w: World, log: Log)
  {
    && (!(c.tap && e.shown) ==> QueueAlone(log, Empty) && !w.armed)
    && (PastListening(w.phase) ==> Happened(log, Incoming(true)))
    && (c.multifd > 0 && (PastListening(w.phase) || w.phase == Channelled) ==> Happened(log, Channels(c.multifd, true)))
    && (c.tap && e.shown && w.phase in {Waiting, Running, Announced} ==> Happened(log, Hold(Done)))
    && (c.tap && e.shown && w.phase in {Running, Announced} && !w.armed && !w.failed ==> Happened(log, Release(Done)))
  }

  lemma StoryOfQueue(c: Config, e: Env, w: World, log: Log, ev: Event)
    requires Story(c, e, w, log) && Sound(c, e, w) && Allowed(c, e, w, ev)
    requires ev.Clear? || ev.AddQueue? || ev.Release? || ev.Hold?
    ensures Story(c, e, After(w, ev), Then(log, ev))
  {
  }

  lemma StoryOfOthers(c: Config, e: Env, w: World, log: Log, ev: Event)
    requires Story(c, e, w, log) && Sound(c, e, w) && Allowed(c, e, w, ev)
    requires !ev.Clear? && !ev.AddQueue? && !ev.Release? && !ev.Hold?
    ensures Story(c, e, After(w, ev), Then(log, ev))
  {
  }

  lemma {:induction false} EveryLogTells(c: Config, e: Env, q: Found, log: Log)
    requires Obeys(c, e, q, log)
    ensures Story(c, e, Replay(q, log), log)
  {
    if log.Then? {
      EveryLogTells(c, e, q, log.before);
      EveryLogIsSound(c, e, q, log.before);
      var w := Replay(q, log.before);
      if log.last.Clear? || log.last.AddQueue? || log.last.Release? || log.last.Hold? {
        StoryOfQueue(c, e, w, log.before, log.last);
      } else {
        StoryOfOthers(c, e, w, log.before, log.last);
      }
    }
  }

  /** Drives are exported one by one, only without shared storage, and the server is started for that. */
  predicate Exported(c: Config, w: World)
  {
    && (c.shared ==> w.starts == 0 && w.exports == [] && w.phase !in {Stopped, Exporting})
    && (!c.shared && w.phase in {Exporting, Waiting, Running, Announced} ==> w.starts == 1)
    && (!c.shared && w.phase in {Waiting, Running, Announced} ==> w.exports == c.drives)
  }

  lemma StaysExported(c: Config, e: Env, w: World, ev: Event)
    requires Exported(c, w) && Sound(c, e, w) && Allowed(c, e, w, ev)
    ensures Exported(c, After(w, ev))
  {
  }

  lemma {:induction false} EveryLogExports(c: Config, e: Env, q: Found, log: Log)
    requires Obeys(c, e, q, log)
    ensures Exported(c, Replay(q, log))
  {
    if log.Then? {
      EveryLogExports(c, e, q, log.before);
      EveryLogIsSound(c, e, q, log.before);
      StaysExported(c, e, Replay(q, log.before), log.last);
    }
  }

  /** What a run that reached its announcement did: with a tap interface that is there it held packets
      and released them, and otherwise issued no command on a queue; it set the channels if there are
      to be any; it opened the listener; and without shared storage it started the server once and
      exported every drive. */
  lemma AnnouncedRunDid(c: Config, e: Env, q: Found, log: Log)
    requires Obeys(c, e, q, log) && Replay(q, log).phase == Announced && !Replay(q, log).failed && !Replay(q, log).armed
    ensures if c.tap && e.shown then Happened(log, Hold(Done)) && Happened(log, Release(Done))
      else QueueAlone(log, Empty)
    ensures c.multifd > 0 ==> Happened(log, Channels(c.multifd, true))
    ensures Happened(log, Incoming(true))
    ensures if c.shared then Replay(q, log).starts == 0
            else Replay(q, log).starts == 1 && Replay(q, log).exports == c.drives
  {
    EveryLogTells(c, e, q, log);
    EveryLogExports(c, e, q, log);
  }
}
