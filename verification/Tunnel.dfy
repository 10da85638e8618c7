/** The IP tunnel that forwards packets from the source node while routes converge. */
module Tunnel {
  import opened Text

  /** `Mapped` is an IPv4 address written as an IPv6 one. */
  datatype Addr = NoAddr | V4(text: string) | V6(text: string) | Mapped(text: string)

  function Unmap(a: Addr): Addr
  {
    if a.Mapped? then V4(a.text) else a
  }

  datatype Mode = Ipip | Gre | NoTunnel
  datatype Kind = KindIpip | KindGre | KindIp6Ip6 | KindIp6Gre

  datatype Link = Link(kind: Kind, remote: Addr, up: bool)

  /** What the kernel holds: tunnel devices, and host routes through devices. */
  datatype Host = Host(links: map<string, Link>, routes: map<Addr, string>)

  datatype Command = Delete(name: string) | Add(name: string, kind: Kind, remote: Addr)
    | Raise(name: string) | Route(vm: Addr, name: string)

  /** How a command ends. A failed one may still have taken effect, for instance when it was
      interrupted while it was being waited for. */
  datatype Result = Done | FailedWithout | FailedWith

  function Effect(h: Host, c: Command): Host
  {
    match c
    case Delete(n) => Host(map m | m in h.links && m != n :: h.links[m], map r | r in h.routes
      && h.routes[r] != n :: h.routes[r])
    case Add(n, k, to) => h.(links := h.links[n := Link(k, to, false)])
    case Raise(n) => if n in h.links then h.(links := h.links[n := h.links[n].(up := true)]) else h
    case Route(vm, n) => h.(routes := h.routes[vm := n])
  }

  function Execute(h: Host, c: Command, r: Result): Host
  {
    if r == FailedWithout then h else Effect(h, c)
  }

  /** The results of the five commands a setup can issue. */
  datatype Results = Results(stale: Result, add: Result, raise: Result, route: Result, rollback: Result)

  datatype SetupError = BadDest | BadVm | FamiliesDiffer | AddFailed | RaiseFailed | RouteFailed

  predicate Acceptable(dest: Addr, vm: Addr)
  {
    dest != NoAddr && vm != NoAddr && (dest.V4? <==> vm.V4?)
  }

  /** The encapsulation that carries the mode over the destination's address family. */
  predicate Carries(kind: Kind, mode: Mode, dest: Addr)
  {
    && (kind in {KindGre, KindIp6Gre} <==> mode == Gre)
    && (kind in {KindIp6Ip6, KindIp6Gre} <==> dest.V6? || dest.Mapped?)
  }

  /** The device is up towards the destination and the VM's packets go through it. */
  predicate Forwards(h: Host, name: string, mode: Mode, dest: Addr, vm: Addr)
  {
    && name in h.links && h.links[name].up && h.links[name].remote == dest
    && Carries(h.links[name].kind, mode, dest)
    && vm in h.routes && h.routes[vm] == name
  }

  ghost predicate OthersUntouched(h: Host, h': Host, name: string, vm: Addr)
  {
    && (forall m | m != name :: (m in h'.links <==> m in h.links) && (m in h.links ==> h'.links[m] == h.links[m]))
    && (forall a | a != vm && a in h.routes && h.routes[a] != name :: a in h'.routes && h'.routes[a] == h.routes[a])
    && (forall a | a != vm && a in h'.routes :: a in h.routes && h'.routes[a] == h.routes[a])
  }

  /** Whether a failed setup leaves the device behind. */
  predicate LeavesDevice(h: Host, name: string, r: Results, e: SetupError)
  {
    match e
    case AddFailed => r.add == FailedWith || (name in h.links && r.stale == FailedWithout)
    case RaiseFailed => r.rollback == FailedWithout
    case RouteFailed => r.rollback == FailedWithout
    case _ => name in h.links
  }

  /** The host after the setup's first one to four commands, each given how it ended. */
  function AfterAdd(h: Host, dest: Addr, mode: Mode, name: string, r: Results): Host
  {
    Execute(Execute(h, Delete(name), r.stale), Add(name, KindFor(mode, dest), dest), r.add)
  }

  function AfterRaise(h: Host, dest: Addr, mode: Mode, name: string, r: Results): Host
  {
    Execute(AfterAdd(h, dest, mode, name, r), Raise(name), r.raise)
  }

  function AfterRoute(h: Host, dest: Addr, vm: Addr, mode: Mode, name: string, r: Results): Host
  {
    Execute(AfterRaise(h, dest, mode, name, r), Route(vm, name), r.route)
  }

  function Setup(h: Host, dest: Addr, vm: Addr, mode: Mode, name: string, r: Results): (Host, Option<SetupError>)
  {
    if dest == NoAddr then (h, Some(BadDest))
    else if vm == NoAddr then (h, Some(BadVm))
    else if !Acceptable(dest, vm) then (h, Some(FamiliesDiffer))
    else if r.add != Done then (AfterAdd(h, dest, mode, name, r), Some(AddFailed))
    else if r.raise != Done then (Execute(AfterRaise(h, dest, mode, name, r), Delete(name), r.rollback),
      Some(RaiseFailed))
    else if r.route != Done then (Execute(AfterRoute(h, dest, vm, mode, name, r), Delete(name), r.rollback),
      Some(RouteFailed))
    else (AfterRoute(h, dest, vm, mode, name, r), None)
  }

  method SetupTunnel(h: Host, dest: Addr, vm: Addr, mode: Mode, name: string, r: Results)
    returns (h': Host, error: Option<SetupError>)
    ensures (h', error) == Setup(h, dest, vm, mode, name, r)
    ensures error.None? <==> Acceptable(dest, vm) && r.add == Done && r.raise == Done && r.route == Done
  {
    h' := h;
    if dest == NoAddr { return h', Some(BadDest); }
    if vm == NoAddr { return h', Some(BadVm); }
    if dest.V4? != vm.V4? { return h', Some(FamiliesDiffer); }
    h' := Execute(h', Delete(name), r.stale);
    var six := !dest.V4?;
    var kind := if mode == Gre && six then KindIp6Gre else if mode == Gre then KindGre else if six then KindIp6Ip6
      else KindIpip;
    h' := Execute(h', Add(name, kind, dest), r.add);
    if r.add != Done { return h', Some(AddFailed); }
    h' := Execute(h', Raise(name), r.raise);
    if r.raise != Done {
      h' := Execute(h', Delete(name), r.rollback);
      return h', Some(RaiseFailed);
    }
    h' := Execute(h', Route(vm, name), r.route);
    if r.route != Done {
      h' := Execute(h', Delete(name), r.rollback);
      return h', Some(RouteFailed);
    }
    error := None;
  }

  /** A setup that reports success forwards the VM's packets to the destination. */
  lemma SetupForwards(h: Host, dest: Addr, vm: Addr, mode: Mode, name: string, r: Results)
    requires Setup(h, dest, vm, mode, name, r).1 == None
    ensures Forwards(Setup(h, dest, vm, mode, name, r).0, name, mode, dest, vm)
  {
    var added := AfterAdd(h, dest, mode, name, r);
    assert name in added.links && added.links[name] == Link(KindFor(mode, dest), dest, false);
    var raised := AfterRaise(h, dest, mode, name, r);
    assert name in raised.links && raised.links[name] == Link(KindFor(mode, dest), dest, true);
  }

  /** A setup that reports an error leaves the device behind exactly in the listed cases. */
  lemma SetupLeaves(h: Host, dest: Addr, vm: Addr, mode: Mode, name: string, r: Results)
    requires Setup(h, dest, vm, mode, name, r).1.Some?
    ensures var (h', e) := Setup(h, dest, vm, mode, name, r);
            name in h'.links <==> LeavesDevice(h, name, r, e.value)
  {
    var added := AfterAdd(h, dest, mode, name, r);
    assert r.add == Done ==> name in added.links;
    assert r.add == Done ==> name in AfterRaise(h, dest, mode, name, r).links;
  }

  lemma OneCommandTouches(h: Host, h1: Host, c: Command, r: Result, name: string, vm: Addr)
    requires OthersUntouched(h, h1, name, vm) && c.name == name && (c.Route? ==> c.vm == vm)
    ensures OthersUntouched(h, Execute(h1, c, r), name, vm)
  {
  }

  /** Whatever happens, other devices keep their state and other addresses their routes. */
  lemma SetupTouchesOnly(h: Host, dest: Addr, vm: Addr, mode: Mode, name: string, r: Results)
    ensures OthersUntouched(h, Setup(h, dest, vm, mode, name, r).0, name, vm)
  {
    assert OthersUntouched(h, h, name, vm);
    OneCommandTouches(h, h, Delete(name), r.stale, name, vm);
    var stale := Execute(h, Delete(name), r.stale);
    OneCommandTouches(h, stale, Add(name, KindFor(mode, dest), dest), r.add, name, vm);
    var added := AfterAdd(h, dest, mode, name, r);
    OneCommandTouches(h, added, Raise(name), r.raise, name, vm);
    var raised := AfterRaise(h, dest, mode, name, r);
    OneCommandTouches(h, raised, Delete(name), r.rollback, name, vm);
    OneCommandTouches(h, raised, Route(vm, name), r.route, name, vm);
    var routed := AfterRoute(h, dest, vm, mode, name, r);
    OneCommandTouches(h, routed, Delete(name), r.rollback, name, vm);
  }

  /** Tunnel names are drawn at random: nothing on the host uses the name yet. */
  predicate Fresh(h: Host, name: string)
  {
    name !in h.links && forall a | a in h.routes :: h.routes[a] != name
  }

  function KindFor(mode: Mode, dest: Addr): (k: Kind)
    ensures Carries(k, mode, dest)
  {
    var six := dest.V6? || dest.Mapped?;
    if mode == Gre then (if six then KindIp6Gre else KindGre) else (if six then KindIp6Ip6 else KindIpip)
  }

  /** Under a fresh name: the device as left by `r`, and the VM's route. */
  function Routed(h: Host, vm: Addr, name: string, r: Results): map<Addr, string>
  {
    if r.route == FailedWithout then h.routes else h.routes[vm := name]
  }

  lemma FreshAdd(h: Host, dest: Addr, mode: Mode, name: string, r: Results)
    requires Fresh(h, name) && r.add == Done
    ensures AfterAdd(h, dest, mode, name, r) == Host(h.links[name := Link(KindFor(mode, dest), dest, false)], h.routes)
  {
    assert Effect(h, Delete(name)) == h;
  }

  lemma FreshRoute(h: Host, dest: Addr, vm: Addr, mode: Mode, name: string, r: Results)
    requires Fresh(h, name) && r.add == Done && r.raise == Done
    ensures AfterRoute(h, dest, vm, mode, name, r)
            == Host(h.links[name := Link(KindFor(mode, dest), dest, true)], Routed(h, vm, name, r))
  {
    FreshAdd(h, dest, mode, name, r);
  }

  /** Deleting a device gives back the host without it; a route moved onto it is lost. */
  lemma DeleteRestores(h: Host, link: Link, routes: map<Addr, string>, vm: Addr, name: string)
    requires Fresh(h, name) && (routes == h.routes || routes == h.routes[vm := name])
    ensures Effect(Host(h.links[name := link], routes), Delete(name))
            == Host(h.links, if routes == h.routes then h.routes else h.routes - {vm})
  {
    var h' := Effect(Host(h.links[name := link], routes), Delete(name));
    assert h'.links == h.links;
    assert h'.routes == if routes == h.routes then h.routes else h.routes - {vm};
  }

  lemma LostRoute(h: Host, vm: Addr, name: string)
    requires Fresh(h, name)
    ensures h.routes[vm := name] != h.routes
    ensures h.routes - {vm} == h.routes <==> vm !in h.routes
  {
    assert h.routes[vm := name][vm] == name;
  }

  /** Tearing down a tunnel that was set up under a fresh name gives the host back as it was,
      exactly if the VM had no route of its own: the setup replaces that route and nothing puts
      it back. */
  lemma TeardownUndoesSetupExactly(h: Host, dest: Addr, vm: Addr, mode: Mode, name: string, r: Results)
    requires Fresh(h, name) && Setup(h, dest, vm, mode, name, r).1 == None
    ensures Effect(Setup(h, dest, vm, mode, name, r).0, Delete(name)) == h <==> vm !in h.routes
  {
    FreshRoute(h, dest, vm, mode, name, r);
    DeleteRestores(h, Link(KindFor(mode, dest), dest, true), Routed(h, vm, name, r), vm, name);
    LostRoute(h, vm, name);
  }

  /** The results after which a failed setup has left no trace: the device was never added, or it
      was rolled back and the VM did not lose a route of its own to it. */
  predicate Traceless(h: Host, vm: Addr, r: Results)
  {
    || r.add == FailedWithout
    || (r.add == Done && r.rollback != FailedWithout
      && (vm !in h.routes || r.raise != Done || r.route == FailedWithout))
  }

  /** A failed setup under a fresh name gives the host back as it was exactly in those cases. */
  lemma FailedSetupUndoneExactly(h: Host, dest: Addr, vm: Addr, mode: Mode, name: string, r: Results)
    requires Fresh(h, name) && Acceptable(dest, vm) && Setup(h, dest, vm, mode, name, r).1.Some?
    ensures Setup(h, dest, vm, mode, name, r).0 == h <==> Traceless(h, vm, r)
  {
    SetupLeaves(h, dest, vm, mode, name, r);
    if r.add != Done {
      assert Effect(h, Delete(name)) == h;
    } else if r.rollback != FailedWithout {
      RolledBack(h, dest, vm, mode, name, r);
      LostRoute(h, vm, name);
    }
  }

  lemma RolledBack(h: Host, dest: Addr, vm: Addr, mode: Mode, name: string, r: Results)
    requires Fresh(h, name) && Acceptable(dest, vm) && Setup(h, dest, vm, mode, name, r).1.Some?
    requires r.add == Done && r.rollback != FailedWithout
    ensures Setup(h, dest, vm, mode, name, r).0
            == Host(h.links, if r.raise == Done && r.route != FailedWithout then h.routes - {vm} else h.routes)
  {
    FreshAdd(h, dest, mode, name, r);
    LostRoute(h, vm, name);
    if r.raise != Done {
      DeleteRestores(h, Link(KindFor(mode, dest), dest, r.raise != FailedWithout), h.routes, vm, name);
    } else {
      FreshRoute(h, dest, vm, mode, name, r);
      DeleteRestores(h, Link(KindFor(mode, dest), dest, true), Routed(h, vm, name, r), vm, name);
    }
  }
}
