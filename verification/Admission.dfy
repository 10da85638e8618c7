/** The admission rule that keeps workload controllers from replacing a pod whose VM is being
    adopted elsewhere, and the registry with expiring entries behind it. */
module Admission {
  import opened Text

  // ---------------------------------------------------------------- what has happened

  /** Everything that concerns the registry, with the times at which it happened. */
  datatype Op = Marked(uid: string, migration: string, at: int) | Cleared(uid: string) | Asked(at: int)

  /** Nanoseconds for which a mark holds. */
  const Ttl := 300_000_000_000

  datatype Mark = Mark(migration: string, at: int)

  /** The mark in force for a controller, if any: the latest one not cleared since. */
  function LastMark(history: seq<Op>, uid: string): Option<Mark>
  {
    if history == [] then None else
      match history[|history| - 1]
      case Marked(u, m, at) => if u == uid then Some(Mark(m, at)) else LastMark(history[..|history| - 1], uid)
      case Cleared(u) => if u == uid then None else LastMark(history[..|history| - 1], uid)
      case Asked(_) => LastMark(history[..|history| - 1], uid)
  }

  /** The answer to a lookup, told from the history alone. */
  function Answer(history: seq<Op>, uid: string, now: int): string
  {
    var m := LastMark(history, uid);
    if uid != "" && m.Some? && now <= m.value.at + Ttl then m.value.migration else ""
  }

  /** No earlier time than any in the history. */
  predicate NotBefore(history: seq<Op>, now: int)
  {
    forall i | 0 <= i < |history| :: !history[i].Cleared? ==> history[i].at <= now
  }

  lemma {:induction false} LastMarkSnoc(history: seq<Op>, op: Op, uid: string)
    ensures LastMark(history + [op], uid) ==
      if op.Marked? && op.uid == uid then Some(Mark(op.migration, op.at))
      else if op.Cleared? && op.uid == uid then None else LastMark(history, uid)
  {
    assert (history + [op])[..|history|] == history;
  }

  // ---------------------------------------------------------------- the registry

  datatype Pending = Pending(migration: string, expires: int)

  /** The table stands for the history up to `now`: it holds nothing but marks in force, and what
      it does not hold has expired by then. */
  ghost predicate StandsFor(entries: map<string, Pending>, history: seq<Op>, now: int)
  {
    && "" !in entries
    && (forall uid | uid in entries ::
          LastMark(history, uid).Some? && entries[uid] == Pending(LastMark(history, uid).value.migration,
            LastMark(history, uid).value.at + Ttl))
    && (forall uid | uid !in entries && uid != "" ::
          LastMark(history, uid).Some? ==> LastMark(history, uid).value.at + Ttl < now)
  }

  lemma OtherOp(entries: map<string, Pending>, history: seq<Op>, op: Op, now: int, later: int)
    requires StandsFor(entries, history, now) && now <= later && op.Asked?
    ensures StandsFor(entries, history + [op], later)
  {
    forall uid ensures LastMark(history + [op], uid) == LastMark(history, uid) {
      LastMarkSnoc(history, op, uid);
    }
  }

  lemma MarkOp(entries: map<string, Pending>, history: seq<Op>, uid: string, migration: string, now: int, later: int)
    requires StandsFor(entries, history, now) && now <= later && uid != ""
    ensures StandsFor(entries[uid := Pending(migration, later + Ttl)], history + [Marked(uid, migration, later)], later)
  {
    forall u ensures LastMark(history + [Marked(uid, migration, later)],
      u) == if u == uid then Some(Mark(migration, later)) else LastMark(history, u) {
      LastMarkSnoc(history, Marked(uid, migration, later), u);
    }
  }

  lemma ClearOp(entries: map<string, Pending>, history: seq<Op>, uid: string, now: int)
    requires StandsFor(entries, history, now)
    ensures StandsFor(entries - {uid}, history + [Cleared(uid)], now)
  {
    forall u ensures LastMark(history + [Cleared(uid)], u) == if u == uid then None else LastMark(history, u) {
      LastMarkSnoc(history, Cleared(uid), u);
    }
  }

  class Registry {
    var entries: map<string, Pending>
    ghost var history: seq<Op>
    ghost var clock: int

    ghost predicate Valid()
      reads this
    {
      StandsFor(entries, history, clock) && NotBefore(history, clock)
    }

    constructor (ghost now: int)
      ensures Valid() && history == [] && clock == now
    {
      entries, history, clock := map[], [], now;
    }

    method Mark(uid: string, migration: string, now: int)
      requires Valid() && clock <= now
      modifies this
      ensures Valid() && clock == now
      ensures history == if uid == "" then old(history) else old(history) + [Marked(uid, migration, now)]
    {
      if uid != "" {
        MarkOp(entries, history, uid, migration, clock, now);
        entries := entries[uid := Pending(migration, now + Ttl)];
        history := history + [Marked(uid, migration, now)];
      }
      clock := now;
    }

    method Clear(uid: string)
      requires Valid()
      modifies this
      ensures Valid() && clock == old(clock)
      ensures history == if uid == "" then old(history) else old(history) + [Cleared(uid)]
    {
      if uid != "" {
        ClearOp(entries, history, uid, clock);
        entries := entries - {uid};
        history := history + [Cleared(uid)];
      }
    }

    /** Expired entries are dropped on the way; no later answer can tell. */
    method MigrationFor(uid: string, now: int) returns (migration: string)
      requires Valid() && clock <= now
      modifies this
      ensures Valid() && clock == now && history == old(history) + [Asked(now)]
      ensures migration == Answer(old(history), uid, now)
    {
      OtherOp(entries, history, Asked(now), clock, now);
      ghost var was := history;
      history, clock := history + [Asked(now)], now;
      LastMarkSnoc(was, Asked(now), uid);
      if uid == "" || uid !in entries { return ""; }
      var e := entries[uid];
      if now > e.expires {
        entries := entries - {uid};
        return "";
      }
      migration := e.migration;
    }
  }

  /** Lookups never change an answer: with or without them, and the pruning they do, the history
      gives the same answers. */
  lemma {:induction false} LookupsAreInvisible(history: seq<Op>, uid: string, now: int)
    ensures Answer(WithoutLookups(history), uid, now) == Answer(history, uid, now)
    ensures LastMark(WithoutLookups(history), uid) == LastMark(history, uid)
  {
    if history != [] {
      var init, op := history[..|history| - 1], history[|history| - 1];
      LookupsAreInvisible(init, uid, now);
      LastMarkSnoc(WithoutLookups(init), op, uid);
    }
  }

  function WithoutLookups(history: seq<Op>): seq<Op>
  {
    if history == [] then [] else
      var init, op := WithoutLookups(history[..|history| - 1]), history[|history| - 1];
      if op.Asked? then init else init + [op]
  }

  /** What a table answers. */
  function TableAnswer(entries: map<string, Pending>, uid: string, now: int): string
  {
    if uid != "" && uid in entries && now <= entries[uid].expires then entries[uid].migration else ""
  }

  /** However many entries have been pruned on lookups, a table that stands for a history answers,
      now and later, as one from which nothing was ever pruned would for the marks and clearings
      alone. */
  lemma PrunedTableAnswers(entries: map<string, Pending>, history: seq<Op>, since: int, uid: string, now: int)
    requires StandsFor(entries, history, since) && since <= now
    ensures TableAnswer(entries, uid, now) == Answer(WithoutLookups(history), uid, now)
  {
    LookupsAreInvisible(history, uid, now);
  }

  // ---------------------------------------------------------------- pods

  datatype Kind = ReplicaSet | StatefulSet | DaemonSet | Job | OtherKind(name: string)

  datatype Owner = Owner(kind: Kind, uid: string, controller: Option<bool>)

  datatype Pod = Pod(labels: map<string, string>, owners: seq<Owner>)

  const NameKey := "app.kubernetes.io/name"
  const ComponentKey := "app.kubernetes.io/component"
  const SourceKey := "katamaran.io/source-pod"
  const Adopted := "adopted-vm"

  predicate IsManaged(o: Owner)
  {
    o.controller == Some(true) && !o.kind.OtherKind?
  }

  predicate IsAdoption(p: Pod)
  {
    ComponentKey in p.labels && p.labels[ComponentKey] == Adopted
  }

  /** An owner because of which the pod is turned away, looked up at the given time. */
  predicate Blocks(history: seq<Op>, o: Owner, now: int)
  {
    IsManaged(o) && Answer(history, o.uid, now) != ""
  }

  /** Clock readings, one per owner, that do not run backwards. */
  predicate Steady(clock: seq<int>, since: int)
  {
    forall i | 0 <= i < |clock| :: since <= clock[i] && forall j | i < j < |clock| :: clock[i] <= clock[j]
  }

  lemma {:induction false} AskedChangesNothing(history: seq<Op>, more: seq<Op>, uid: string, now: int)
    requires forall op | op in more :: op.Asked?
    ensures Answer(history + more, uid, now) == Answer(history, uid, now)
    ensures LastMark(history + more, uid) == LastMark(history, uid)
  {
    if more == [] {
      assert history + more == history;
    } else {
      var init := more[..|more| - 1];
      assert forall op | op in init :: op in more;
      assert more[|more| - 1] in more;
      AskedChangesNothing(history, init, uid, now);
      assert history + more == (history + init) + [more[|more| - 1]];
      LastMarkSnoc(history + init, more[|more| - 1], uid);
    }
  }

  /** The pod is turned away, when its owners are looked up at these times. */
  predicate Denied(history: seq<Op>, p: Pod, clock: seq<int>)
    requires |clock| == |p.owners|
  {
    !IsAdoption(p) && exists i | 0 <= i < |p.owners| :: Blocks(history, p.owners[i], clock[i])
  }

  /** The admission decision. A pod is denied exactly if it is not an adoption pod and one of its
      managing controllers has a mark in force when it is looked up; the answer names the first. */
  method ShouldDenyPodCreate(r: Registry, p: Pod, clock: seq<int>) returns (denied: Option<nat>, ghost asked: seq<Op>)
    requires r.Valid() && |clock| == |p.owners| && Steady(clock, r.clock)
    modifies r
    ensures r.Valid()
    ensures denied.Some? <==> Denied(old(r.history), p, clock)
    ensures denied.Some? ==>
      denied.value < |p.owners| && Blocks(old(r.history), p.owners[denied.value], clock[denied.value])
                             && forall i | 0 <= i < denied.value :: !Blocks(old(r.history), p.owners[i], clock[i])
    ensures r.history == old(r.history) + asked && forall op | op in asked :: op.Asked?
  {
    asked := [];
    if ComponentKey in p.labels && p.labels[ComponentKey] == Adopted { return None, asked; }
    for n := 0 to |p.owners|
      invariant r.Valid() && forall i | n <= i < |clock| :: r.clock <= clock[i]
      invariant r.history == old(r.history) + asked && forall op | op in asked :: op.Asked?
      invariant forall i | 0 <= i < n :: !Blocks(old(r.history), p.owners[i], clock[i])
    {
      var o := p.owners[n];
      if o.controller != Some(true) { continue; }
      if o.kind.OtherKind? { continue; }
      AskedChangesNothing(old(r.history), asked, o.uid, clock[n]);
      Assoc(old(r.history), asked, [Asked(clock[n])]);
      asked := asked + [Asked(clock[n])];
      var migration := r.MigrationFor(o.uid, clock[n]);
      if migration != "" { return Some(n), asked; }
    }
    denied := None;
  }

  // ---------------------------------------------------------------- adoption pods and marks

  /** The labels every adoption pod starts from. */
  function BaseLabels(source: string): map<string, string>
  {
    map[NameKey := "katamaran"][SourceKey := source][ComponentKey := Adopted]
  }

  /** The adoption pod of a source pod: its own labels win over the source pod's, and it has the
      source pod's owners. A source pod that cannot be fetched gives it nothing. */
  function Adopting(name: string, source: Option<Pod>): Pod
  {
    match source
    case None => Pod(BaseLabels(name), [])
    case Some(p) => Pod(p.labels + BaseLabels(name), p.owners)
  }

  /** The labels are taken over one by one, in any order. */
  method CreateAdoptionPod(name: string, source: Option<Pod>) returns (p: Pod)
    ensures p == Adopting(name, source)
  {
    var labels := BaseLabels(name);
    if source.None? { return Pod(labels, []); }
    var src := source.value.labels;
    ghost var base := labels;
    var rest := src.Keys;
    while rest != {}
      invariant rest <= src.Keys
      invariant labels.Keys == base.Keys + (src.Keys - rest)
      invariant forall k | k in labels :: labels[k] == if k in base then base[k] else src[k]
    {
      var k :| k in rest;
      rest := rest - {k};
      if k !in labels { labels := labels[k := src[k]]; }
    }
    assert labels == src + base;
    p := Pod(labels, source.value.owners);
  }

  /** Whatever the source pod looked like, whatever has been marked and whenever it is asked for,
      the adoption pod is admitted; yet it belongs to the same controllers, so that a pod with the
      source pod's owners and without the adoption label is denied under the very same history
      exactly if one of them has a mark in force. */
  lemma AdoptionPodIsNeverDenied(history: seq<Op>, name: string, source: Option<Pod>, clock: seq<int>)
    requires |clock| == |Adopting(name, source).owners|
    ensures !Denied(history, Adopting(name, source), clock)
    ensures source.Some? && !IsAdoption(source.value) ==>
      (Denied(history, source.value, clock) <==>
         exists i | 0 <= i < |clock| :: Blocks(history, Adopting(name, source).owners[i], clock[i]))
  {
    assert ComponentKey in BaseLabels(name) && BaseLabels(name)[ComponentKey] == Adopted;
  }

  /** The controller that is marked before a source pod is deleted: its first managing one. */
  method MarkSource(r: Registry, source: Pod, migration: string, now: int) returns (uid: string)
    requires r.Valid() && r.clock <= now
    modifies r
    ensures r.Valid()
    ensures if exists i | 0 <= i < |source.owners| :: IsManaged(source.owners[i])
            then exists i | 0 <= i < |source.owners| ::
                   && IsManaged(source.owners[i]) && uid == source.owners[i].uid
                   && (forall j | 0 <= j < i :: !IsManaged(source.owners[j]))
                   && r.history == if uid == "" then old(r.history) else old(r.history) + [Marked(uid, migration, now)]
            else uid == "" && r.history == old(r.history)
  {
    for n := 0 to |source.owners|
      invariant r.Valid() && r.clock <= now && r.history == old(r.history)
      invariant forall i | 0 <= i < n :: !IsManaged(source.owners[i])
    {
      var o := source.owners[n];
      if o.controller == Some(true) && !o.kind.OtherKind? {
        r.Mark(o.uid, migration, now);
        return o.uid;
      }
    }
    uid := "";
  }

  /** Once a controller is marked, every pod it manages that is not an adoption pod is denied for as
      long as the mark holds, whatever else is marked, cleared or looked up in between; and when the
      mark has run out it denies nothing any more. */
  lemma {:induction false} ReplacementsAreDenied(
    history: seq<Op>, later: seq<Op>, uid: string, migration: string, at: int, o: Owner, now: int)
    requires uid != "" && migration != "" && o.uid == uid && IsManaged(o)
    requires forall op | op in later :: op.Asked? || op.uid != uid
    ensures Blocks(history + [Marked(uid, migration, at)] + later, o, now) <==> now <= at + Ttl
    ensures LastMark(history + [Marked(uid, migration, at)] + later, uid) == Some(Mark(migration, at))
  {
    var marked := history + [Marked(uid, migration, at)];
    if later == [] {
      LastMarkSnoc(history, Marked(uid, migration, at), uid);
      assert marked + later == marked;
    } else {
      var init := later[..|later| - 1];
      assert forall op | op in init :: op in later;
      ReplacementsAreDenied(history, init, uid, migration, at, o, now);
      assert marked + later == (marked + init) + [later[|later| - 1]];
      LastMarkSnoc(marked + init, later[|later| - 1], uid);
    }
  }

  // ---------------------------------------------------------------- the same, mark by mark

  /** Mark `i` of the history is in force for a controller: it is the last that concerns it, and it was
      made no longer than five minutes ago. */
  ghost predicate InForce(history: seq<Op>, uid: string, i: nat, now: int)
  {
    && i < |history| && history[i].Marked? && history[i].uid == uid
    && (forall j | i < j < |history| :: history[j].Asked? || history[j].uid != uid)
    && now - history[i].at <= 5 * 60 * 1_000_000_000
  }

  lemma {:induction false} LastMarkAt(history: seq<Op>, uid: string) returns (i: nat)
    ensures LastMark(history, uid).Some? ==>
      && i < |history| && history[i] == Marked(uid, LastMark(history, uid).value.migration,
        LastMark(history, uid).value.at)
      && forall j | i < j < |history| :: history[j].Asked? || history[j].uid != uid
    ensures LastMark(history, uid).None? ==>
      forall k | 0 <= k < |history| && history[k].Marked? && history[k].uid == uid ::
        exists j | k < j < |history| :: history[j].Cleared? && history[j].uid == uid
  {
    i := 0;
    if history != [] {
      var n := |history| - 1;
      var init, op := history[..n], history[n];
      if op.Marked? && op.uid == uid {
        i := n;
      } else if op.Cleared? && op.uid == uid {
        assert history[n].Cleared? && history[n].uid == uid;
      } else {
        i := LastMarkAt(init, uid);
        if LastMark(history, uid).None? {
          forall k | 0 <= k < |history| && history[k].Marked? && history[k].uid == uid
            ensures exists j | k < j < |history| :: history[j].Cleared? && history[j].uid == uid
          {
            assert init[k] == history[k];
            var j :| k < j < n && init[j].Cleared? && init[j].uid == uid;
            assert history[j] == init[j];
          }
        }
      }
    }
  }

  /** A lookup answers a migration exactly if a mark of it is in force. */
  lemma AnswerExactly(history: seq<Op>, uid: string, now: int, migration: string)
    requires migration != ""
    ensures Answer(history, uid, now) == migration <==>
      uid != "" && exists i: nat :: InForce(history, uid, i, now) && history[i].migration == migration
  {
    var k := LastMarkAt(history, uid);
    if exists i: nat :: InForce(history, uid, i, now) && history[i].migration == migration {
      var i: nat :| InForce(history, uid, i, now) && history[i].migration == migration;
      InForceIsLast(history, uid, i, now);
    }
    if uid != "" && LastMark(history, uid).Some? && now <= LastMark(history, uid).value.at + Ttl {
      assert InForce(history, uid, k, now);
    }
  }

  lemma {:induction false} InForceIsLast(history: seq<Op>, uid: string, i: nat, now: int)
    requires InForce(history, uid, i, now)
    ensures LastMark(history, uid) == Some(Mark(history[i].migration, history[i].at))
  {
    var n := |history| - 1;
    if i < n {
      assert history[n].Asked? || history[n].uid != uid;
      InForceIsLast(history[..n], uid, i, now);
    }
  }

  /** Exactly which owners turn a pod away: a controller of one of the four kinds that replace pods,
      with a mark in force. */
  lemma BlocksExactly(history: seq<Op>, o: Owner, now: int)
    ensures Blocks(history, o, now) <==>
      && o.controller == Some(true) && o.kind in {ReplicaSet, StatefulSet, DaemonSet, Job} && o.uid != ""
      && exists i: nat :: InForce(history, o.uid, i, now) && history[i].migration != ""
  {
    if Answer(history, o.uid, now) != "" {
      AnswerExactly(history, o.uid, now, Answer(history, o.uid, now));
    }
    if exists i: nat :: InForce(history, o.uid, i, now) && history[i].migration != "" {
      var i: nat :| InForce(history, o.uid, i, now) && history[i].migration != "";
      AnswerExactly(history, o.uid, now, history[i].migration);
    }
  }

  lemma OwnLabels(name: string)
    ensures var own := BaseLabels(name);
      && own.Keys == {NameKey, ComponentKey, SourceKey}
      && own[NameKey] == "katamaran" && own[ComponentKey] == "adopted-vm" && own[SourceKey] == name
  {
    assert |NameKey| != |ComponentKey| && |NameKey| != |SourceKey| && |ComponentKey| != |SourceKey|;
  }

  /** The adoption pod, label by label: its own three, and every other label of the source pod; and
      the source pod's owners. */
  lemma AdoptionLabels(name: string, source: Option<Pod>, k: string)
    ensures var p := Adopting(name, source);
      && p.owners == (if source.Some? then source.value.owners else [])
      && NameKey in p.labels && p.labels[NameKey] == "katamaran"
      && ComponentKey in p.labels && p.labels[ComponentKey] == "adopted-vm"
      && SourceKey in p.labels && p.labels[SourceKey] == name
      && (k !in {NameKey, ComponentKey, SourceKey} ==>
            && (k in p.labels <==> source.Some? && k in source.value.labels)
            && (k in p.labels ==> p.labels[k] == source.value.labels[k]))
  {
    OwnLabels(name);
  }
}
