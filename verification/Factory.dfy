/** The VM factory: a watcher that discovers migrated VMs in a directory and a server that hands
    them out, each to one shim. */
module Factory {
  import opened Text

  datatype Vm = Vm(
    id: string, qemuPid: int, virtiofsdPid: int, hypervisor: string, cpu: nat, memory: nat,
    vmConfig: string, agentConfig: string)

  /** The metadata file of a sandbox directory: not readable, malformed, or well-formed. */
  datatype File = Unreadable | Malformed | Meta(vm: Vm)

  datatype Entry = Entry(name: string, dir: bool)

  /** One look at the directory. `files` gives the metadata file of each sandbox directory. */
  datatype Look = Unlistable | Listing(entries: seq<Entry>, files: map<string, File>)

  /** Names in one directory differ. */
  ghost predicate Distinct(entries: seq<Entry>)
  {
    forall i, j | 0 <= i < j < |entries| :: entries[i].name != entries[j].name
  }

  ghost predicate WellFormed(l: Look)
  {
    l.Listing? ==> Distinct(l.entries)
  }

  function FileOf(files: map<string, File>, name: string): File
  {
    if name in files then files[name] else Unreadable
  }

  function Dirs(entries: seq<Entry>): set<string>
  {
    set i | 0 <= i < |entries| && entries[i].dir :: entries[i].name
  }

  /** The sandboxes whose file could be read, well-formed or not. */
  function Readable(entries: seq<Entry>, files: map<string, File>): set<string>
  {
    set d | d in Dirs(entries) && FileOf(files, d) != Unreadable
  }

  predicate IsNew(e: Entry, files: map<string, File>, seen: set<string>)
  {
    e.dir && e.name !in seen && e.name in files && files[e.name].Meta?
  }

  /** A VM offered to the server, with the sandbox it was found in. */
  datatype Offer = Offer(name: string, vm: Vm)

  function Vms(offers: seq<Offer>): seq<Vm>
  {
    seq(|offers|, i requires 0 <= i < |offers| => offers[i].vm)
  }

  function OffersOf(entries: seq<Entry>, files: map<string, File>, seen: set<string>): seq<Offer>
  {
    if entries == [] then [] else
      var e, before := entries[|entries| - 1], OffersOf(entries[..|entries| - 1], files, seen);
      if IsNew(e, files, seen) then before + [Offer(e.name, files[e.name].vm)] else before
  }

  /** What one look offers, given the sandboxes already dealt with: the well-formed new ones, in
      directory order. */
  function Offers(l: Look, seen: set<string>): seq<Offer>
  {
    if l.Unlistable? then [] else OffersOf(l.entries, l.files, seen)
  }

  /** What counts as dealt with after one look. */
  function SeenAfter(l: Look, seen: set<string>): set<string>
  {
    if l.Unlistable? then seen else (seen + Readable(l.entries, l.files)) * Dirs(l.entries)
  }

  // ---------------------------------------------------------------- the server

  datatype Config = Config(vm: string, agent: string)

  function Configured(c: Config, offers: seq<Vm>): Config
  {
    if offers == [] then c else
      var last := offers[|offers| - 1];
      if last.vmConfig != "" then Config(last.vmConfig, last.agentConfig) else Configured(c, offers[..|offers| - 1])
  }

  lemma {:induction false} ConfiguredSnoc(c: Config, offers: seq<Vm>, vm: Vm)
    ensures Configured(c, offers + [vm]) == if vm.vmConfig != "" then Config(vm.vmConfig, vm.agentConfig)
      else Configured(c, offers)
  {
    assert (offers + [vm])[..|offers|] == offers;
  }

  /** The configuration in force is that of the latest offer that carried one. */
  lemma {:induction false} ConfiguredIsLatest(c: Config, offers: seq<Vm>)
    ensures || (Configured(c, offers) == c && forall v | v in offers :: v.vmConfig == "")
            || (exists i | 0 <= i < |offers| ::
                  && Configured(c, offers) == Config(offers[i].vmConfig, offers[i].agentConfig)
                    && offers[i].vmConfig != ""
                  && forall j | i < j < |offers| :: offers[j].vmConfig == "")
  {
    if offers != [] {
      var init, n := offers[..|offers| - 1], |offers| - 1;
      ConfiguredIsLatest(c, init);
      if offers[n].vmConfig == "" && !(Configured(c, init) == c && forall v | v in init :: v.vmConfig == "") {
        var i :| 0 <= i < n && Configured(c, init) == Config(init[i].vmConfig, init[i].agentConfig)
          && init[i].vmConfig != ""
                 && forall j | i < j < n :: init[j].vmConfig == "";
        assert forall j | i < j < n :: offers[j] == init[j];
        assert offers[i] == init[i];
      }
    }
  }

  datatype Refusal = DeadlineExceeded | Cancelled | ShuttingDown | NothingQueued
  datatype Context = Alive | PastDeadline | Aborted

  /** The reply a shim gets for a VM. */
  datatype Reply = Reply(id: string, hypervisor: string, proxyPid: int, cpu: nat, memory: nat)

  /** Why a request is refused, if it is. */
  function Refused(ctx: Context, quit: bool, queue: seq<Vm>): Option<Refusal>
  {
    match ctx
    case PastDeadline => Some(DeadlineExceeded)
    case Aborted => Some(Cancelled)
    case Alive => if quit then Some(ShuttingDown) else if queue == [] then Some(NothingQueued) else None
  }

  class Server {
    var queue: seq<Vm>
    var quit: bool
    var config: Config
    var warned: bool

    constructor ()
      ensures queue == [] && !quit && config == Config("", "") && !warned
    {
      queue, quit, config, warned := [], false, Config("", ""), false;
    }

    method OfferVM(vm: Vm)
      modifies this
      ensures queue == old(queue) + [vm] && quit == old(quit) && config == old(config) && warned == old(warned)
    {
      queue := queue + [vm];
    }

    method SetConfig(c: Config)
      modifies this
      ensures config == c && !warned && queue == old(queue) && quit == old(quit)
    {
      config, warned := c, false;
    }

    /** The configuration, unless there is none yet. The first refusal since the last change of
        configuration is the one that is worth a warning. */
    method GetConfig() returns (c: Option<Config>, warn: bool)
      modifies this
      ensures c == if config.vm != "" then Some(config) else None
      ensures warn == (c.None? && !old(warned)) && warned == (old(warned) || c.None?)
      ensures queue == old(queue) && quit == old(quit) && config == old(config)
    {
      warn := false;
      if config.vm != "" { return Some(config), warn; }
      warn := !warned;
      warned := true;
      c := None;
    }

    method GetBaseVM(ctx: Context) returns (reply: Option<Reply>, refusal: Option<Refusal>)
      modifies this
      ensures refusal == Refused(ctx, old(quit), old(queue)) && (reply.Some? <==> refusal.None?)
      ensures refusal.None? <==> ctx == Alive && !old(quit) && old(queue) != []
      ensures refusal == Some(DeadlineExceeded) <==> ctx == PastDeadline
      ensures refusal == Some(Cancelled) <==> ctx == Aborted
      ensures refusal == Some(ShuttingDown) <==> ctx == Alive && old(quit)
      ensures reply.None? ==> queue == old(queue)
      ensures reply.Some? ==>
        && queue == old(queue)[1..]
        && reply.value.id == old(queue)[0].id && reply.value.hypervisor == old(queue)[0].hypervisor
        && reply.value.proxyPid == old(queue)[0].virtiofsdPid
        && reply.value.cpu == old(queue)[0].cpu && reply.value.memory == old(queue)[0].memory
      ensures quit == old(quit) && config == old(config) && warned == old(warned)
    {
      if ctx == PastDeadline { return None, Some(DeadlineExceeded); }
      if ctx == Aborted { return None, Some(Cancelled); }
      if quit { return None, Some(ShuttingDown); }
      if queue == [] { return None, Some(NothingQueued); }
      var vm := queue[0];
      queue := queue[1..];
      reply, refusal := Some(Reply(vm.id, vm.hypervisor, vm.virtiofsdPid, vm.cpu, vm.memory)), None;
    }

    method Quit()
      modifies this
      ensures quit && queue == old(queue) && config == old(config) && warned == old(warned)
    {
      quit := true;
    }
  }

  // ---------------------------------------------------------------- the watcher

  lemma DirsSnoc(entries: seq<Entry>, n: nat)
    requires n < |entries|
    ensures Dirs(entries[..n + 1]) == Dirs(entries[..n]) + if entries[n].dir then {entries[n].name} else {}
  {
    var more := entries[..n + 1];
    forall d | d in Dirs(more) ensures d in Dirs(entries[..n]) || (entries[n].dir && d == entries[n].name) {
      var i :| 0 <= i < |more| && more[i].dir && more[i].name == d;
      if i < n { assert entries[..n][i] == more[i]; }
    }
    forall d | d in Dirs(entries[..n]) ensures d in Dirs(more) {
      var i :| 0 <= i < n && entries[..n][i].dir && entries[..n][i].name == d;
      assert more[i] == entries[i];
    }
    assert more[n] == entries[n];
  }

  lemma ReadableSnoc(entries: seq<Entry>, files: map<string, File>, n: nat)
    requires n < |entries|
    ensures var e := entries[n];
      Readable(entries[..n + 1], files) == Readable(entries[..n], files) +
        if e.dir && FileOf(files, e.name) != Unreadable then {e.name} else {}
  {
    DirsSnoc(entries, n);
  }

  lemma OffersSnoc(entries: seq<Entry>, files: map<string, File>, seen: set<string>, n: nat)
    requires n < |entries|
    ensures var e, before := entries[n], OffersOf(entries[..n], files, seen);
      OffersOf(entries[..n + 1], files, seen) == if IsNew(e, files,
        seen) then before + [Offer(e.name, files[e.name].vm)] else before
  {
    assert entries[..n + 1][..n] == entries[..n];
  }

  lemma VmsSnoc(offers: seq<Offer>, o: Offer)
    ensures Vms(offers + [o]) == Vms(offers) + [o.vm]
  {
  }

  lemma NotYetRead(entries: seq<Entry>, files: map<string, File>, n: nat)
    requires n < |entries| && Distinct(entries)
    ensures entries[n].name !in Readable(entries[..n], files)
  {
    assert forall i | 0 <= i < n :: entries[..n][i] == entries[i];
  }

  class Watcher {
    const server: Server
    var seen: set<string>

    constructor (s: Server)
      ensures server == s && seen == {}
    {
      server, seen := s, {};
    }

    method Scan(l: Look)
      requires WellFormed(l)
      modifies this, server
      ensures seen == SeenAfter(l, old(seen))
      ensures server.queue == old(server.queue) + Vms(Offers(l, old(seen)))
      ensures server.config == Configured(old(server.config), Vms(Offers(l, old(seen))))
      ensures server.quit == old(server.quit)
    {
      if l.Unlistable? { return; }
      var current: set<string> := {};
      for n := 0 to |l.entries|
        invariant current == Dirs(l.entries[..n])
        invariant seen == old(seen) + Readable(l.entries[..n], l.files)
        invariant server.queue == old(server.queue) + Vms(OffersOf(l.entries[..n], l.files, old(seen)))
        invariant server.config == Configured(old(server.config), Vms(OffersOf(l.entries[..n], l.files, old(seen))))
        invariant server.quit == old(server.quit)
      {
        var e := l.entries[n];
        DirsSnoc(l.entries, n);
        ReadableSnoc(l.entries, l.files, n);
        OffersSnoc(l.entries, l.files, old(seen), n);
        NotYetRead(l.entries, l.files, n);
        if e.dir {
          current := current + {e.name};
          var file := FileOf(l.files, e.name);
          Visit(e.name, file);
          if file.Meta? {
            ghost var offers := OffersOf(l.entries[..n], l.files, old(seen));
            VmsSnoc(offers, Offer(e.name, file.vm));
            ConfiguredSnoc(old(server.config), Vms(offers), file.vm);
            Assoc(old(server.queue), Vms(offers), [file.vm]);
          }
        }
      }
      assert l.entries[..|l.entries|] == l.entries;
      Prune(current);
    }

    /** Deals with one sandbox directory, unless that has been done. */
    method Visit(name: string, file: File)
      modifies this`seen, server
      ensures seen == old(seen) + if file != Unreadable then {name} else {}
      ensures server.quit == old(server.quit)
      ensures if name !in old(seen) && file.Meta?
              then server.queue == old(server.queue) + [file.vm]
                   && server.config == if file.vm.vmConfig != "" then Config(file.vm.vmConfig, file.vm.agentConfig)
                     else old(server.config)
              else server.queue == old(server.queue) && server.config == old(server.config)
    {
      if name in seen || file.Unreadable? { return; }
      seen := seen + {name};
      if file.Malformed? { return; }
      if file.vm.vmConfig != "" {
        server.SetConfig(Config(file.vm.vmConfig, file.vm.agentConfig));
      }
      server.OfferVM(file.vm);
    }

    /** Forgets the sandboxes that are gone, one by one in any order. */
    method Prune(current: set<string>)
      modifies this`seen
      ensures seen == old(seen) * current
    {
      var rest := seen;
      while rest != {}
        invariant rest <= old(seen)
        invariant forall x :: x in seen <==> x in old(seen) && (x in rest || x in current)
      {
        var p :| p in rest;
        rest := rest - {p};
        if p !in current { seen := seen - {p}; }
      }
    }
  }

  // ---------------------------------------------------------------- whole runs

  predicate Lists(l: Look, d: string)
  {
    l.Listing? && d in Dirs(l.entries)
  }

  predicate Reads(l: Look, d: string)
  {
    l.Listing? && d in Readable(l.entries, l.files)
  }

  /** What the watcher has dealt with before look `k`. */
  function SeenBefore(looks: seq<Look>, k: nat): set<string>
    requires k <= |looks|
  {
    if k == 0 then {} else SeenAfter(looks[k - 1], SeenBefore(looks, k - 1))
  }

  /** The sandbox's file was read at some look before `k`, and the sandbox has been in every
      listing since. Looks that could not list the directory do not count. */
  predicate DealtWith(looks: seq<Look>, k: nat, d: string)
    requires k <= |looks|
  {
    exists j | 0 <= j < k :: Reads(looks[j], d) && StaysListed(looks, j, k, d)
  }

  predicate StaysListed(looks: seq<Look>, j: nat, k: nat, d: string)
    requires k <= |looks|
  {
    forall i | j <= i < k :: looks[i].Listing? ==> Lists(looks[i], d)
  }

  /** The watcher's memory, told from the looks alone. */
  lemma {:induction false} SeenMeansDealtWith(looks: seq<Look>, k: nat, d: string)
    requires k <= |looks|
    ensures d in SeenBefore(looks, k) <==> DealtWith(looks, k, d)
  {
    if k > 0 {
      SeenMeansDealtWith(looks, k - 1, d);
      if d in SeenBefore(looks, k) {
        if d in SeenBefore(looks, k - 1) {
          var j :| 0 <= j < k - 1 && Reads(looks[j], d) && StaysListed(looks, j, k - 1, d);
          assert StaysListed(looks, j, k, d);
        } else {
          assert Reads(looks[k - 1], d) && StaysListed(looks, k - 1, k, d);
        }
      } else if DealtWith(looks, k, d) {
        var j :| 0 <= j < k && Reads(looks[j], d) && StaysListed(looks, j, k, d);
        if j < k - 1 { assert StaysListed(looks, j, k - 1, d); }
        NotSeen(looks, k, d, j);
      }
    }
  }

  lemma NotSeen(looks: seq<Look>, k: nat, d: string, j: nat)
    requires 0 < k <= |looks| && j < k && Reads(looks[j], d) && StaysListed(looks, j, k, d)
    requires j < k - 1 ==> d in SeenBefore(looks, k - 1)
    ensures d in SeenBefore(looks, k)
  {
  }

  // ---------------------------------------------------------------- how often a sandbox is offered

  /** How many of the offers are for a sandbox. */
  function CountFor(offers: seq<Offer>, d: string): nat
  {
    if offers == [] then 0 else CountFor(offers[..|offers| - 1], d) + if offers[|offers| - 1].name == d then 1 else 0
  }

  lemma CountSnoc(offers: seq<Offer>, o: Offer, d: string)
    ensures CountFor(offers + [o], d) == CountFor(offers, d) + if o.name == d then 1 else 0
  {
    assert (offers + [o])[..|offers|] == offers;
  }

  predicate NewIn(entries: seq<Entry>, files: map<string, File>, seen: set<string>, d: string)
  {
    d in Dirs(entries) && d !in seen && FileOf(files, d).Meta?
  }

  /** Each new sandbox is offered once, and no other. */
  lemma {:induction false} CountOf(entries: seq<Entry>, files: map<string, File>, seen: set<string>, d: string, n: nat)
    requires n <= |entries| && Distinct(entries)
    ensures CountFor(OffersOf(entries[..n], files, seen), d) == if NewIn(entries[..n], files, seen, d) then 1 else 0
  {
    if n > 0 {
      CountOf(entries, files, seen, d, n - 1);
      OffersSnoc(entries, files, seen, n - 1);
      DirsSnoc(entries, n - 1);
      NotADir(entries, n - 1);
      var e := entries[n - 1];
      if IsNew(e, files, seen) {
        CountSnoc(OffersOf(entries[..n - 1], files, seen), Offer(e.name, files[e.name].vm), d);
      }
    }
  }

  lemma NotADir(entries: seq<Entry>, n: nat)
    requires n < |entries| && Distinct(entries)
    ensures entries[n].name !in Dirs(entries[..n])
  {
    assert forall i | 0 <= i < n :: entries[..n][i] == entries[i];
  }

  lemma {:induction false} OfferedOf(entries: seq<Entry>, files: map<string, File>, seen: set<string>, o: Offer)
    ensures o in OffersOf(entries, files, seen) <==>
      o.name in Dirs(entries) && o.name !in seen && FileOf(files, o.name) == Meta(o.vm)
  {
    if entries != [] {
      var n := |entries| - 1;
      OfferedOf(entries[..n], files, seen, o);
      OffersSnoc(entries, files, seen, n);
      DirsSnoc(entries, n);
      assert entries[..n + 1] == entries;
    }
  }

  /** Exactly what a look offers, told from the looks alone: the sandboxes whose file is well-formed
      now and was not read before in the current unbroken stretch of listings, each with its VM. */
  lemma OfferedExactly(looks: seq<Look>, k: nat, o: Offer)
    requires k < |looks|
    ensures o in Offers(looks[k], SeenBefore(looks, k))
            <==> Lists(looks[k], o.name) && FileOf(looks[k].files, o.name) == Meta(o.vm) && !DealtWith(looks, k, o.name)
  {
    SeenMeansDealtWith(looks, k, o.name);
    if looks[k].Listing? {
      OfferedOf(looks[k].entries, looks[k].files, SeenBefore(looks, k), o);
    }
  }

  /** Offers come in the order of the directory: that of an earlier entry first. */
  lemma {:induction false} OffersInOrder(entries: seq<Entry>, files: map<string, File>, seen: set<string>)
      returns (at: seq<nat>)
    ensures |at| == |OffersOf(entries, files, seen)|
    ensures forall i | 0 <= i < |at| ::
      at[i] < |entries| && entries[at[i]].name == OffersOf(entries, files, seen)[i].name
    ensures forall i, j | 0 <= i < j < |at| :: at[i] < at[j]
  {
    at := [];
    if entries != [] {
      var n := |entries| - 1;
      at := OffersInOrder(entries[..n], files, seen);
      if IsNew(entries[n], files, seen) { at := at + [n]; }
    }
  }

  /** How often a sandbox is offered at the looks from `j` up to `k`. */
  function TimesOffered(looks: seq<Look>, j: nat, k: nat, d: string): nat
    requires j <= k <= |looks|
  {
    if j == k then 0
    else TimesOffered(looks, j, k - 1, d) + CountFor(Offers(looks[k - 1], SeenBefore(looks, k - 1)), d)
  }

  /** The first of these looks that reads the sandbox's file. */
  function FirstRead(looks: seq<Look>, j: nat, k: nat, d: string): (r: Option<nat>)
    requires j <= k <= |looks|
    ensures r.Some? ==> j <= r.value < k && Reads(looks[r.value], d) && forall i | j <= i < r.value ::
      !Reads(looks[i], d)
    ensures r.None? ==> forall i | j <= i < k :: !Reads(looks[i], d)
  {
    if j == k then None
    else match FirstRead(looks, j, k - 1, d)
      case Some(i) => Some(i)
      case None => if Reads(looks[k - 1], d) then Some(k - 1) else None
  }

  lemma DealtWithAfter(looks: seq<Look>, j: nat, k: nat, d: string)
    requires j <= k <= |looks| && StaysListed(looks, j, k, d)
    ensures DealtWith(looks, k, d) <==> DealtWith(looks, j, d) || FirstRead(looks, j, k, d).Some?
  {
    if DealtWith(looks, j, d) {
      var i :| 0 <= i < j && Reads(looks[i], d) && StaysListed(looks, i, j, d);
      assert StaysListed(looks, i, k, d);
    }
    if FirstRead(looks, j, k, d).Some? {
      assert StaysListed(looks, FirstRead(looks, j, k, d).value, k, d);
    }
    if DealtWith(looks, k, d) {
      var i :| 0 <= i < k && Reads(looks[i], d) && StaysListed(looks, i, k, d);
      if i < j { assert StaysListed(looks, i, j, d); }
    }
  }

  /** Over an unbroken stretch of listings a sandbox is offered at most once: exactly once if it had
      not been dealt with before and the first file read in the stretch is well-formed, and never
      otherwise. */
  lemma {:induction false} OncePerStretch(looks: seq<Look>, j: nat, k: nat, d: string)
    requires j <= k <= |looks| && StaysListed(looks, j, k, d) && forall l | l in looks :: WellFormed(l)
    ensures TimesOffered(looks, j, k, d) ==
      var first := FirstRead(looks, j, k, d);
      if !DealtWith(looks, j, d) && first.Some? && FileOf(looks[first.value].files, d).Meta? then 1 else 0
  {
    if j < k {
      assert StaysListed(looks, j, k - 1, d);
      OncePerStretch(looks, j, k - 1, d);
      DealtWithAfter(looks, j, k - 1, d);
      OneLookOffers(looks, k - 1, d);
    }
  }

  lemma OneLookOffers(looks: seq<Look>, k: nat, d: string)
    requires k < |looks| && WellFormed(looks[k])
    ensures CountFor(Offers(looks[k], SeenBefore(looks, k)), d) ==
      if Reads(looks[k], d) && FileOf(looks[k].files, d).Meta? && !DealtWith(looks, k, d) then 1 else 0
  {
    SeenMeansDealtWith(looks, k, d);
    if looks[k].Listing? {
      var entries := looks[k].entries;
      CountOf(entries, looks[k].files, SeenBefore(looks, k), d, |entries|);
      assert entries[..|entries|] == entries;
    }
  }

  // ---------------------------------------------------------------- whole runs of the factory

  /** A run of the factory: looks of the watcher, requests of shims, and the request to quit. */
  datatype Event = Looked(look: Look) | Asked(ctx: Context) | QuitAsked

  datatype World = World(seen: set<string>, queue: seq<Vm>, quit: bool, config: Config, offered: seq<Vm>,
    served: seq<Vm>)

  function Happen(w: World, e: Event): World
  {
    match e
    case Looked(l) =>
      var vms := Vms(Offers(l, w.seen));
      w.(seen := SeenAfter(l, w.seen), queue := w.queue + vms, config := Configured(w.config, vms),
        offered := w.offered + vms)
    case Asked(ctx) =>
      if Refused(ctx, w.quit, w.queue).Some? then w else w.(queue := w.queue[1..], served := w.served + [w.queue[0]])
    case QuitAsked => w.(quit := true)
  }

  /** A run of a factory that was given `start` as its configuration at startup. */
  function Run(start: Config, es: seq<Event>): World
  {
    if es == [] then World({}, [], false, start, [], []) else Happen(Run(start, es[..|es| - 1]), es[|es| - 1])
  }

  function LooksIn(es: seq<Event>): seq<Look>
  {
    if es == [] then [] else
      LooksIn(es[..|es| - 1]) + if es[|es| - 1].Looked? then [es[|es| - 1].look] else []
  }

  function AllOffers(looks: seq<Look>, k: nat): seq<Vm>
    requires k <= |looks|
  {
    if k == 0 then [] else AllOffers(looks, k - 1) + Vms(Offers(looks[k - 1], SeenBefore(looks, k - 1)))
  }

  lemma {:induction false} PrefixLooks(looks: seq<Look>, more: Look, k: nat)
    requires k <= |looks|
    ensures SeenBefore(looks + [more], k) == SeenBefore(looks, k) && AllOffers(looks + [more], k) == AllOffers(looks, k)
  {
    if k > 0 {
      PrefixLooks(looks, more, k - 1);
    }
  }

  lemma OneMoreLook(looks: seq<Look>, l: Look)
    ensures var more, k := looks + [l], |looks|;
      && SeenBefore(more, k + 1) == SeenAfter(l, SeenBefore(looks, k))
      && AllOffers(more, k + 1) == AllOffers(looks, k) + Vms(Offers(l, SeenBefore(looks, k)))
  {
    PrefixLooks(looks, l, |looks|);
    assert (looks + [l])[|looks|] == l;
  }

  lemma LooksAgree(w: World, looks: seq<Look>, l: Look)
    requires w.offered == AllOffers(looks, |looks|) && w.seen == SeenBefore(looks, |looks|)
    ensures var v, more := Happen(w, Looked(l)), looks + [l];
      v.offered == AllOffers(more, |more|) && v.seen == SeenBefore(more, |more|)
  {
    OneMoreLook(looks, l);
  }

  lemma OneEventConserves(w: World, e: Event)
    requires w.offered == w.served + w.queue
    ensures Happen(w, e).offered == Happen(w, e).served + Happen(w, e).queue
  {
    if e.Looked? {
      Assoc(w.served, w.queue, Vms(Offers(e.look, w.seen)));
    }
  }

  /** What every run keeps: no VM is lost, duplicated or reordered between the directory and the
      shims, and what is offered depends on the looks alone. */
  lemma {:induction false} NothingIsLost(start: Config, es: seq<Event>)
    ensures Run(start, es).offered == Run(start, es).served + Run(start, es).queue
    ensures Run(start, es).offered == AllOffers(LooksIn(es), |LooksIn(es)|)
    ensures Run(start, es).seen == SeenBefore(LooksIn(es), |LooksIn(es)|)
  {
    if es != [] {
      var init, e := es[..|es| - 1], es[|es| - 1];
      NothingIsLost(start, init);
      OneEventConserves(Run(start, init), e);
      OneMoreEvent(start, es);
      if e.Looked? {
        LooksAgree(Run(start, init), LooksIn(init), e.look);
      }
    }
  }

  lemma OneMoreEvent(start: Config, es: seq<Event>)
    requires es != []
    ensures var init, e := es[..|es| - 1], es[|es| - 1];
      && Run(start, es) == Happen(Run(start, init), e)
      && LooksIn(es) == if e.Looked? then LooksIn(init) + [e.look] else LooksIn(init)
  {
  }

  /** The configuration the server answers with is that of the latest VM offered that carried one. */
  lemma {:induction false} ConfigFollowsOffers(start: Config, es: seq<Event>)
    ensures Run(start, es).config == Configured(start, Run(start, es).offered)
  {
    if es != [] {
      var init, e := es[..|es| - 1], es[|es| - 1];
      ConfigFollowsOffers(start, init);
      if e.Looked? {
        ConfiguredCat(start, Run(start, init).offered, Vms(Offers(e.look, Run(start, init).seen)));
      }
    }
  }

  lemma {:induction false} ConfiguredCat(c: Config, a: seq<Vm>, b: seq<Vm>)
    ensures Configured(c, a + b) == Configured(Configured(c, a), b)
  {
    if b == [] {
      assert a + b == a;
    } else {
      var init := b[..|b| - 1];
      ConfiguredCat(c, a, init);
      assert a + b == (a + init) + [b[|b| - 1]];
      ConfiguredSnoc(c, a + init, b[|b| - 1]);
    }
  }

  /** After a request to quit, no run hands out a VM any more. */
  lemma {:induction false} NoneServedAfterQuit(start: Config, es: seq<Event>, later: seq<Event>)
    requires Run(start, es).quit
    ensures Run(start, es + later).quit && Run(start, es + later).served == Run(start, es).served
  {
    if later == [] {
      assert es + later == es;
    } else {
      var init := later[..|later| - 1];
      NoneServedAfterQuit(start, es, init);
      assert (es + later)[..|es + later| - 1] == es + init;
    }
  }
}
