/** How the destination Job of a command-line-replay migration comes to exist: rendering,
    the late patch with the source pod's name, and the race of the staging goroutine with
    any number of `Resume` calls on one Job store with atomic create. */
module Staging {
  import opened Text
  import opened ExtraArgs

  // ---------------------------------------------------------------- template expansion

  /** Position of the first `}` of `s` from `i` on, if any. */
  function BraceFrom(s: string, i: nat): (r: Option<nat>)
    requires i <= |s|
    ensures r.Some? ==> i <= r.value < |s|
    decreases |s| - i
  {
    if i == |s| then None else if s[i] == '}' then Some(i) else BraceFrom(s, i + 1)
  }

  function Lookup(vars: map<string, string>, name: string): string
  {
    if name in vars then vars[name] else ""
  }

  /** Where the reference that starts at `i` is closed, if one starts there. */
  function ReferenceAt(s: string, i: nat): (r: Option<nat>)
    requires i < |s|
    ensures r.Some? ==> i + 2 <= r.value < |s|
  {
    if i + 1 < |s| && s[i] == '$' && s[i + 1] == '{' then BraceFrom(s, i + 2) else None
  }

  /** The text from position `i` on with every `${NAME}` replaced. */
  function ExpandFrom(s: string, i: nat, vars: map<string, string>): string
    requires i <= |s|
    decreases |s| - i
  {
    if i == |s| then []
    else match ReferenceAt(s, i)
      case Some(end) => Lookup(vars, s[i + 2..end]) + ExpandFrom(s, end + 1, vars)
      case None => [s[i]] + ExpandFrom(s, i + 1, vars)
  }

  function Expand(s: string, vars: map<string, string>): string
  {
    ExpandFrom(s, 0, vars)
  }

  /** The index loop of expandShellVars. */
  method ExpandShellVars(s: string, vars: map<string, string>) returns (out: string)
    ensures out == Expand(s, vars)
  {
    out := [];
    var i := 0;
    ghost var goal := ExpandFrom(s, 0, vars);
    while i < |s|
      invariant 0 <= i <= |s|
      invariant goal == out + ExpandFrom(s, i, vars)
    {
      var end := ReferenceAt(s, i);
      if end.Some? {
        var value := Lookup(vars, s[i + 2..end.value]);
        i := end.value + 1;
        Assoc(out, value, ExpandFrom(s, i, vars));
        out := out + value;
        continue;
      }
      Assoc(out, [s[i]], ExpandFrom(s, i + 1, vars));
      out := out + [s[i]];
      i := i + 1;
    }
  }

  datatype Piece = Plain(text: string) | Var(name: string)

  predicate WellFormed(p: Piece)
  {
    match p
    case Plain(text) => '$' !in text
    case Var(name) => '}' !in name
  }

  function PieceSource(p: Piece): string
  {
    match p
    case Plain(text) => text
    case Var(name) => ['$', '{'] + name + ['}']
  }

  function PieceFilled(p: Piece, vars: map<string, string>): string
  {
    match p
    case Plain(text) => text
    case Var(name) => Lookup(vars, name)
  }

  function Source(pieces: seq<Piece>): string
  {
    if pieces == [] then [] else PieceSource(pieces[0]) + Source(pieces[1..])
  }

  function Filled(pieces: seq<Piece>, vars: map<string, string>): string
  {
    if pieces == [] then [] else PieceFilled(pieces[0], vars) + Filled(pieces[1..], vars)
  }

  lemma OneCharacter(s: string, i: nat, vars: map<string, string>)
    requires i < |s| && s[i] != '$'
    ensures ExpandFrom(s, i, vars) == [s[i]] + ExpandFrom(s, i + 1, vars)
  {
  }

  lemma Chain(whole: string, head: string, mid: string, c: char, tail: string)
    requires whole == head + mid && mid == [c] + tail
    ensures whole == (head + [c]) + tail
  {
    Assoc(head, [c], tail);
  }

  lemma {:induction false} PlainAt(s: string, i: nat, n: nat, vars: map<string, string>)
    requires i + n <= |s| && forall k | i <= k < i + n :: s[k] != '$'
    ensures ExpandFrom(s, i, vars) == s[i..i + n] + ExpandFrom(s, i + n, vars)
    decreases n
  {
    if n > 0 {
      var j := i + n - 1;
      PlainAt(s, i, n - 1, vars);
      OneCharacter(s, j, vars);
      Chain(ExpandFrom(s, i, vars), s[i..j], ExpandFrom(s, j, vars), s[j], ExpandFrom(s, j + 1, vars));
      assert s[i..j + 1] == s[i..j] + [s[j]];
    }
  }

  lemma {:induction false} BraceIsAt(s: string, i: nat, j: nat)
    requires i <= j < |s| && s[j] == '}' && forall k | i <= k < j :: s[k] != '}'
    ensures BraceFrom(s, i) == Some(j)
    decreases j - i
  {
    if i < j {
      BraceIsAt(s, i + 1, j);
    }
  }

  lemma VarAt(s: string, i: nat, name: string, vars: map<string, string>)
    requires '}' !in name && i + |name| + 3 <= |s| && s[i..i + |name| + 3] == ['$', '{'] + name + ['}']
    ensures ExpandFrom(s, i, vars) == Lookup(vars, name) + ExpandFrom(s, i + |name| + 3, vars)
  {
    var part, end := s[i..i + |name| + 3], i + |name| + 2;
    assert s[i] == part[0] && s[i + 1] == part[1] && s[end] == part[|name| + 2];
    assert forall k | 0 <= k < |name| :: s[i + 2 + k] == part[2 + k] == name[k];
    assert s[i + 2..end] == name;
    BraceIsAt(s, i + 2, end);
  }

  lemma PieceAt(s: string, i: nat, p: Piece, vars: map<string, string>)
    requires WellFormed(p) && i + |PieceSource(p)| <= |s| && s[i..i + |PieceSource(p)|] == PieceSource(p)
    ensures ExpandFrom(s, i, vars) == PieceFilled(p, vars) + ExpandFrom(s, i + |PieceSource(p)|, vars)
  {
    match p
    case Plain(text) =>
      assert forall k | i <= k < i + |text| :: s[k] == text[k - i];
      PlainAt(s, i, |text|, vars);
    case Var(name) => VarAt(s, i, name, vars);
  }

  lemma SplitSuffix(s: string, i: nat, a: string, b: string)
    requires i <= |s| && s[i..] == a + b
    ensures i + |a| <= |s| && s[i..i + |a|] == a && s[i + |a|..] == b
  {
    assert s[i..i + |a|] == s[i..][..|a|] && s[i + |a|..] == s[i..][|a|..];
  }

  predicate AllWellFormed(pieces: seq<Piece>)
  {
    forall i | 0 <= i < |pieces| :: WellFormed(pieces[i])
  }

  /** The pieces stand one after the other in `s` from `i` to the end. */
  predicate StandsAt(s: string, i: nat, pieces: seq<Piece>)
    decreases pieces
  {
    if pieces == [] then i == |s| else
      var n := |PieceSource(pieces[0])|;
      WellFormed(pieces[0]) && i + n <= |s| && s[i..i + n] == PieceSource(pieces[0]) && StandsAt(s, i + n, pieces[1..])
  }

  lemma {:induction false} SourceStands(s: string, i: nat, pieces: seq<Piece>)
    requires i <= |s| && s[i..] == Source(pieces) && AllWellFormed(pieces)
    ensures StandsAt(s, i, pieces)
    decreases pieces
  {
    if pieces == [] {
      assert |s[i..]| == 0;
    } else {
      SplitSuffix(s, i, PieceSource(pieces[0]), Source(pieces[1..]));
      SourceStands(s, i + |PieceSource(pieces[0])|, pieces[1..]);
    }
  }

  lemma {:induction false} PiecesFrom(s: string, i: nat, pieces: seq<Piece>, vars: map<string, string>)
    requires i <= |s| && StandsAt(s, i, pieces)
    ensures ExpandFrom(s, i, vars) == Filled(pieces, vars)
    decreases pieces
  {
    if pieces != [] {
      PiecesFrom(s, i + |PieceSource(pieces[0])|, pieces[1..], vars);
      OnePieceMore(s, i, pieces, vars);
    }
  }

  lemma OnePieceMore(s: string, i: nat, pieces: seq<Piece>, vars: map<string, string>)
    requires pieces != [] && WellFormed(pieces[0])
    requires var n := |PieceSource(pieces[0])|;
      i + n <= |s| && s[i..i + n] == PieceSource(pieces[0]) && ExpandFrom(s, i + n, vars) == Filled(pieces[1..], vars)
    ensures ExpandFrom(s, i, vars) == Filled(pieces, vars)
  {
    PieceAt(s, i, pieces[0], vars);
  }

  /** A template is filled piece by piece in one pass, whatever the values contain: a value
      that itself looks like `${...}` is never expanded again. */
  lemma ExpandFillsPieces(pieces: seq<Piece>, vars: map<string, string>)
    requires AllWellFormed(pieces)
    ensures Expand(Source(pieces), vars) == Filled(pieces, vars)
  {
    assert Source(pieces)[0..] == Source(pieces);
    SourceStands(Source(pieces), 0, pieces);
    PiecesFrom(Source(pieces), 0, pieces, vars);
  }

  // ---------------------------------------------------------------- rendering

  datatype Container = Container(name: string, command: seq<string>)

  /** The parts of a Job that rendering and patching touch; `rest` is everything else. */
  datatype Manifest = Manifest(
    nodeName: string,
    nodeSelector: map<string, string>,
    tolerations: seq<string>,
    excludedHosts: Option<seq<string>>,
    containers: seq<Container>,
    rest: string)

  /** The template and the YAML decoder, of which nothing is assumed. */
  datatype Renderer = Renderer(template: string, decode: string -> Option<Manifest>)

  const DefaultDestQMP := "/run/vc/vm/katamaran-dest/qmp.sock"

  function DestVarsOf(node: string, image: string, qmp: string, id: string, extra: string): map<string, string>
  {
    map["NODE_NAME" := node,
        "IMAGE" := image,
        "QMP_SOCKET" := if qmp != "" then qmp else DefaultDestQMP,
        "EXTRA_ARGS" := extra,
        "KATAMARAN_MIGRATION_ID" := id,
        "JOB_SUFFIX" := id]
  }

  function DestVars(req: Request, id: string, extra: string): map<string, string>
  {
    DestVarsOf(req.destNode, req.image, req.destQMP, id, extra)
  }

  function RenderDestJob(r: Renderer, req: Request, id: string, extra: string): (job: Option<Manifest>)
  {
    match r.decode(Expand(r.template, DestVars(req, id, extra)))
    case None => None
    case Some(j) =>
      if req.destNode != "" then Some(j)
      else Some(j.(nodeName := "", nodeSelector := req.destNodeSelector, tolerations := req.destTolerations,
                   excludedHosts := Some([req.sourceNode])))
  }

  predicate LabelChar(c: char) { 'a' <= c <= 'z' || '0' <= c <= '9' || c == '-' }

  /** `^[a-z0-9]([-a-z0-9]*[a-z0-9])?$`, at most 253 characters. */
  predicate Dns1123(s: string)
  {
    && 0 < |s| <= 253 && s[0] != '-' && s[|s| - 1] != '-'
    && forall c | c in s :: LabelChar(c)
  }

  function ReplayFlag(ns: string, pod: string): string
  {
    " " + ReplayFlagName + " " + ns + "/" + pod
  }

  const ReplayFlagName := "--replay-cmdline-from-pod"

  /** Index of the first container called katamaran. */
  function Target(cs: seq<Container>): (r: Option<nat>)
    ensures r.Some? ==> r.value < |cs| && cs[r.value].name == "katamaran" && forall j | 0 <= j < r.value ::
      cs[j].name != "katamaran"
    ensures r.None? ==> forall c | c in cs :: c.name != "katamaran"
  {
    if cs == [] then None
    else if cs[0].name == "katamaran" then Some(0)
    else match Target(cs[1..])
      case None => None
      case Some(i) => Some(i + 1)
  }

  function Inject(job: Manifest, ns: string, pod: string): (r: Option<Manifest>)
  {
    if job.containers == [] || !Dns1123(ns) || !Dns1123(pod) then None
    else match Target(job.containers)
      case None => None
      case Some(i) =>
        var c := job.containers[i];
        if c.command == [] then None
        else
          var last := |c.command| - 1;
          var patched := c.(command := c.command[last := c.command[last] + ReplayFlag(ns, pod)]);
          Some(job.(containers := job.containers[i := patched]))
  }

  /** injectReplayFromPod: a loop over a deep copy's containers that patches the first
      katamaran container and returns. */
  method InjectReplayFromPod(job: Manifest, ns: string, pod: string) returns (r: Option<Manifest>)
    ensures r == Inject(job, ns, pod)
  {
    if job.containers == [] || !Dns1123(ns) || !Dns1123(pod) {
      return None;
    }
    var cs := job.containers;
    for i := 0 to |cs|
      invariant cs == job.containers
      invariant forall j | 0 <= j < i :: cs[j].name != "katamaran"
    {
      if cs[i].name != "katamaran" {
        continue;
      }
      assert Target(job.containers) == Some(i);
      if cs[i].command == [] {
        return None;
      }
      var last := |cs[i].command| - 1;
      cs := cs[i := cs[i].(command := cs[i].command[last := cs[i].command[last] + ReplayFlag(ns, pod)])];
      return Some(job.(containers := cs));
    }
    r := None;
  }

  lemma LabelsAreWords(ns: string, pod: string)
    requires Dns1123(ns) && Dns1123(pod)
    ensures Word(ns + "/" + pod)
  {
    assert forall c | LabelChar(c) || c == '/' :: !IsSpace(c);
  }

  lemma FlagNameIsWord()
    ensures Word(ReplayFlagName)
  {
  }

  lemma AppendPair(text: string, flag: string, ref: string)
    requires Word(flag) && Word(ref)
    ensures Fields(text + (" " + (flag + (" " + ref)))) == Fields(text) + [flag, ref]
  {
    FieldsAppend(text, " " + (flag + (" " + ref)));
    FieldsAfterSpace(flag + (" " + ref));
    FieldsOfWord(flag, " " + ref);
    FieldsAfterSpace(ref);
    FieldsOfWord(ref, []);
    assert ref + [] == ref;
  }

  /** The words of the patched destination command: whatever stood before, then the request's
      own arguments, then the replay flag with the pod reference as one word. */
  lemma PatchedCommandWords(before: string, req: Request, isIP: string -> bool, ns: string, pod: string)
    requires Validate(req, isIP).None? && Dns1123(ns) && Dns1123(pod)
    ensures Fields(before + (" " + BuildExtraArgs(req)) + ReplayFlag(ns, pod))
            == Fields(before) + Argv(FlagsOf(req)) + [ReplayFlagName, ns + "/" + pod]
  {
    AcceptedRequestRoundTrips(req, isIP);
    LabelsAreWords(ns, pod);
    FlagNameIsWord();
    CommandWords(before, BuildExtraArgs(req), ReplayFlagName, ns, pod);
  }

  /** The destination Job itself: if rendering gave its first katamaran container a command whose last
      part is some text and the arguments, as the template does, the patched Job's last part splits
      into that text's words, the request's arguments, and the flag with the pod as one word; and
      nothing else of the Job has changed. */
  lemma PatchedJobWords(
    r: Renderer, req: Request, isIP: string -> bool, id: string,
    j: Manifest, i: nat, before: string, ns: string, pod: string)
    requires Validate(req, isIP).None? && Dns1123(ns) && Dns1123(pod)
    requires RenderDestJob(r, req, id, BuildExtraArgs(req)) == Some(j) && Target(j.containers) == Some(i)
    requires var command := j.containers[i].command;
      command != [] && command[|command| - 1] == before + (" " + BuildExtraArgs(req))
    ensures Inject(j, ns, pod).Some?
    ensures var patched := Inject(j, ns, pod).value;
      var n := |j.containers[i].command| - 1;
      && patched == j.(containers := patched.containers) && |patched.containers| == |j.containers|
      && (forall k | 0 <= k < |j.containers| && k != i :: patched.containers[k] == j.containers[k])
      && patched.containers[i].name == j.containers[i].name && |patched.containers[i].command| == n + 1
      && patched.containers[i].command[..n] == j.containers[i].command[..n]
      && Fields(patched.containers[i].command[n])
         == Fields(before) + Argv(FlagsOf(req)) + [ReplayFlagName, ns + "/" + pod]
  {
    PatchedCommandWords(before, req, isIP, ns, pod);
    InjectedParts(j, i, ns, pod);
  }

  lemma InjectedParts(j: Manifest, i: nat, ns: string, pod: string)
    requires Dns1123(ns) && Dns1123(pod) && Target(j.containers) == Some(i) && j.containers[i].command != []
    ensures Inject(j, ns, pod).Some?
    ensures var patched := Inject(j, ns, pod).value;
      var n := |j.containers[i].command| - 1;
      && patched == j.(containers := patched.containers) && |patched.containers| == |j.containers|
      && (forall k | 0 <= k < |j.containers| && k != i :: patched.containers[k] == j.containers[k])
      && patched.containers[i].name == j.containers[i].name && |patched.containers[i].command| == n + 1
      && patched.containers[i].command[..n] == j.containers[i].command[..n]
      && patched.containers[i].command[n] == j.containers[i].command[n] + ReplayFlag(ns, pod)
  {
  }

  lemma CommandWords(before: string, args: string, flag: string, ns: string, pod: string)
    requires Word(flag) && Word(ns + "/" + pod)
    ensures Fields(before + (" " + args) + (" " + flag + " " + ns + "/" + pod))
            == Fields(before) + Fields(args) + [flag, ns + "/" + pod]
  {
    var ref := ns + "/" + pod;
    FieldsAppend(before, " " + args);
    FieldsAfterSpace(args);
    AppendPair(before + (" " + args), flag, ref);
    Regroup(" ", flag, ns, "/", pod);
    Assoc(Fields(before), Fields(args), [flag, ref]);
  }

  lemma Regroup(sp: string, flag: string, ns: string, slash: string, pod: string)
    ensures sp + flag + sp + ns + slash + pod == sp + (flag + (sp + (ns + slash + pod)))
  {
    var x, ref := sp + flag + sp, ns + slash + pod;
    Assoc(x, ns, slash);
    Assoc(x, ns + slash, pod);
    Assoc(sp + flag, sp, ref);
    Assoc(sp, flag, sp + ref);
  }

  // ---------------------------------------------------------------- staged and resumed Jobs

  /** What dispatch adds to the bare spec before Apply: the source node always; with a chosen
      destination its IP, otherwise the source pod's scheduling constraints. */
  datatype Lookups = Lookups(sourceNode: string, destIP: string, nodeSelector: map<string, string>,
    tolerations: seq<string>)

  function Fill(spec: Request, l: Lookups): (req: Request)
  {
    var req := spec.(sourceNode := l.sourceNode);
    if spec.destNode == "" then
      req.(destNodeSelector := l.nodeSelector + spec.destNodeSelector, destTolerations := l.tolerations)
    else req.(destIP := l.destIP)
  }

  /** The Job Apply's goroutine submits, and the Job Resume submits from the bare spec. */
  function StagedJob(r: Renderer, spec: Request, l: Lookups, id: string, ns: string, pod: string): Option<Manifest>
  {
    var req := Fill(spec, l);
    match RenderDestJob(r, req, id, BuildExtraArgs(req))
    case None => None
    case Some(j) => Inject(j, ns, pod)
  }

  function ResumedJob(r: Renderer, spec: Request, id: string, ns: string, pod: string): Option<Manifest>
  {
    match RenderDestJob(r, spec, id, BuildExtraArgs(spec))
    case None => None
    case Some(j) => Inject(j, ns, pod)
  }

  lemma FillKeepsArgs(spec: Request, l: Lookups)
    ensures BuildExtraArgs(Fill(spec, l)) == BuildExtraArgs(spec)
  {
    FillChangesOnly(spec, l);
    SameFlags(Fill(spec, l), spec);
  }

  lemma FillChangesOnly(spec: Request, l: Lookups)
    ensures var a := Fill(spec, l);
      a == spec.(sourceNode := a.sourceNode, destIP := a.destIP, destNodeSelector := a.destNodeSelector,
        destTolerations := a.destTolerations)
  {
  }

  lemma SameFlags(a: Request, b: Request)
    requires a == b.(sourceNode := a.sourceNode, destIP := a.destIP, destNodeSelector := a.destNodeSelector,
      destTolerations := a.destTolerations)
    ensures FlagsOf(a) == FlagsOf(b)
  {
    assert NetworkFlags(a) == NetworkFlags(b);
    assert TimingFlags(a) == TimingFlags(b);
    assert LogFlags(a) == LogFlags(b);
  }

  lemma FillKeepsVars(spec: Request, l: Lookups, id: string, extra: string)
    ensures DestVars(Fill(spec, l), id, extra) == DestVars(spec, id, extra)
  {
    var req := Fill(spec, l);
    assert req.destNode == spec.destNode && req.image == spec.image && req.destQMP == spec.destQMP;
  }

  lemma InjectKeepsHosts(job: Manifest, ns: string, pod: string)
    ensures Inject(job, ns, pod).Some? ==> Inject(job, ns, pod).value.excludedHosts == job.excludedHosts
  {
  }

  lemma InjectTellsApart(a: Manifest, b: Manifest, ns: string, pod: string)
    requires a.containers == b.containers && a.excludedHosts != b.excludedHosts
    ensures Inject(a, ns, pod).Some? <==> Inject(b, ns, pod).Some?
    ensures Inject(a, ns, pod) == Inject(b, ns, pod) <==> Inject(a, ns, pod).None?
  {
    InjectKeepsHosts(a, ns, pod);
    InjectKeepsHosts(b, ns, pod);
  }

  lemma RenderedAlike(r: Renderer, spec: Request, l: Lookups, id: string, extra: string)
    requires spec.sourceNode == "" && l.sourceNode != ""
    ensures var a, b := RenderDestJob(r, Fill(spec, l), id, extra), RenderDestJob(r, spec, id, extra);
      && (a.Some? <==> b.Some?)
      && (spec.destNode != "" ==> a == b)
      && (spec.destNode == "" && a.Some? ==>
        a.value.containers == b.value.containers && a.value.excludedHosts != b.value.excludedHosts)
  {
    FillKeepsVars(spec, l, id, extra);
    var a, b := RenderDestJob(r, Fill(spec, l), id, extra), RenderDestJob(r, spec, id, extra);
    if spec.destNode == "" && a.Some? {
      assert a.value.excludedHosts.value[0] == l.sourceNode && b.value.excludedHosts.value[0] == "";
    }
  }

  /** A spec never carries a source node, and dispatch never goes on without one. Resume then
      rebuilds the Job that Apply would have staged exactly when a destination node is named;
      with an automatic destination the resumed Job forgets which host to avoid. */
  lemma ResumeRebuildsExactly(r: Renderer, spec: Request, l: Lookups, id: string, ns: string, pod: string)
    requires spec.sourceNode == "" && l.sourceNode != ""
    ensures StagedJob(r, spec, l, id, ns, pod).Some? <==> ResumedJob(r, spec, id, ns, pod).Some?
    ensures StagedJob(r, spec, l, id, ns, pod) == ResumedJob(r, spec, id, ns, pod)
            <==> spec.destNode != "" || ResumedJob(r, spec, id, ns, pod).None?
  {
    var req, extra := Fill(spec, l), BuildExtraArgs(spec);
    FillKeepsArgs(spec, l);
    RenderedAlike(r, spec, l, id, extra);
    var a, b := RenderDestJob(r, req, id, extra), RenderDestJob(r, spec, id, extra);
    if spec.destNode == "" && a.Some? {
      InjectTellsApart(a.value, b.value, ns, pod);
    }
  }

  // ---------------------------------------------------------------- who creates it

  /** A creator on its way: the staging goroutine or one Resume call. Resume first looks for
      the destination Job and then for the source Job; staging goes straight to the pod. */
  datatype Creator =
    | FindingDest
    | FindingSource
    | FindingPod(staging: bool)
    | Submitting(staging: bool, job: Manifest)
    | Returned(created: bool, failed: bool)

  datatype Store = Store(
    dest: Option<Manifest>,       // the destination Job of this migration id, if it exists
    byStaging: bool,              // whether the staging goroutine created it
    source: bool,
    creators: seq<Creator>,
    creates: nat,                 // successful creates of the destination Job
    deletes: nat,                 // deletes that removed it
    lost: nat)                    // creates that took effect but whose answer was an error

  datatype Answer = Ok | Error
  datatype Event =
    | Begins(staging: bool)
    | Advances(i: nat, answer: Answer, takesEffect: bool, pod: string)
    | DestDeleted
    | SourceDeleted

  function Moved(s: Store, i: nat, c: Creator): Store
    requires i < |s.creators|
  {
    s.(creators := s.creators[i := c])
  }

  /** What the two kinds of creators render for a source pod: Apply's filled-in request, and the
      bare spec that Resume is given. */
  datatype Renderers = Renderers(staged: string -> Option<Manifest>, resumed: string -> Option<Manifest>)

  function RenderedBy(r: Renderers, staging: bool, pod: string): Option<Manifest>
  {
    if staging then r.staged(pod) else r.resumed(pod)
  }

  /** One API call of creator `i`. `takesEffect` is a create that the server performed although the
      caller sees an error. */
  function Advance(render: Renderers, s: Store, i: nat, e: Event): Store
    requires i < |s.creators| && e.Advances?
  {
    match s.creators[i]
    case FindingDest =>
      if e.answer.Error? then Moved(s, i, Returned(false, true))
      else if s.dest.Some? then Moved(s, i, Returned(false, false))
      else Moved(s, i, FindingSource)
    case FindingSource =>
      if e.answer.Error? || !s.source then Moved(s, i, Returned(false, true)) else Moved(s, i, FindingPod(false))
    case FindingPod(staging) =>
      (match RenderedBy(render, staging, e.pod)
       case Some(j) => if e.answer.Ok? then Moved(s, i, Submitting(staging, j)) else Moved(s, i, Returned(false, true))
       case None => Moved(s, i, Returned(false, true)))
    case Submitting(staging, j) =>
      if e.answer.Ok? then
        if s.dest.Some? then Moved(s, i, Returned(false, staging))
        else Moved(s, i, Returned(true, false)).(dest := Some(j), byStaging := staging, creates := s.creates + 1)
      else if e.takesEffect && s.dest.None? then
        Moved(s, i, Returned(false, true)).(dest := Some(j), byStaging := staging, creates := s.creates + 1,
          lost := s.lost + 1)
      else Moved(s, i, Returned(false, true))
    case Returned(_, _) => s
  }

  function Happens(render: Renderers, s: Store, e: Event): Store
  {
    match e
    case Begins(staging) => s.(creators := s.creators + [if staging then FindingPod(true) else FindingDest])
    case Advances(i, _, _, _) => if i < |s.creators| then Advance(render, s, i, e) else s
    case DestDeleted => if s.dest.Some? then s.(dest := None, deletes := s.deletes + 1) else s
    case SourceDeleted => s.(source := false)
  }

  function Trace(render: Renderers, events: seq<Event>): Store
  {
    if events == [] then Store(None, false, true, [], 0, 0, 0)
    else Happens(render, Trace(render, events[..|events| - 1]), events[|events| - 1])
  }

  function Winners(cs: seq<Creator>): nat
  {
    if cs == [] then 0
    else Winners(cs[..|cs| - 1]) + (if cs[|cs| - 1] == Returned(true, false) then 1 else 0)
  }

  lemma {:induction false} WinnersUpdate(cs: seq<Creator>, i: nat, c: Creator)
    requires i < |cs| && cs[i] != Returned(true, false)
    ensures Winners(cs[i := c]) == Winners(cs) + (if c == Returned(true, false) then 1 else 0)
  {
    var n := |cs| - 1;
    if i == n {
      assert cs[i := c][..n] == cs[..n];
    } else {
      assert cs[i := c][..n] == cs[..n][i := c];
      WinnersUpdate(cs[..n], i, c);
    }
  }

  /** The create is conserved: it is present or was deleted again, and each one is owned by
      exactly one creator that was told so, or was lost. What is stored is what was rendered. */
  ghost predicate Accounted(render: Renderers, s: Store)
  {
    && s.creates == s.deletes + (if s.dest.Some? then 1 else 0)
    && Winners(s.creators) + s.lost == s.creates
    && (s.dest.Some? ==> Rendered(render, s.byStaging, s.dest.value))
    && CreatorsOk(render, s.creators)
  }

  ghost predicate CreatorsOk(render: Renderers, cs: seq<Creator>)
  {
    && (forall c | c in cs && c.Submitting? :: Rendered(render, c.staging, c.job))
    && (forall c | c in cs && c.Returned? :: !(c.created && c.failed))
  }

  ghost predicate Rendered(render: Renderers, staging: bool, job: Manifest)
  {
    exists pod :: Some(job) == RenderedBy(render, staging, pod)
  }

  lemma MovedKeepsCreators(render: Renderers, s: Store, i: nat, c: Creator)
    requires CreatorsOk(render, s.creators) && i < |s.creators|
    requires c.Submitting? ==> Rendered(render, c.staging, c.job)
    requires c.Returned? ==> !(c.created && c.failed)
    ensures CreatorsOk(render, s.creators[i := c])
  {
    assert forall x | x in s.creators[i := c] :: x in s.creators || x == c;
  }

  /** A step that is not a submission only moves its creator, and makes no winner. */
  lemma QuietAdvance(render: Renderers, s: Store, i: nat, e: Event)
    requires i < |s.creators| && !s.creators[i].Returned? && !s.creators[i].Submitting? && e.Advances?
    ensures var v := Advance(render, s, i, e);
      && v == Moved(s, i, v.creators[i]) && v.creators[i] != Returned(true, false)
      && (v.creators[i].Submitting? ==> Rendered(render, v.creators[i].staging, v.creators[i].job))
      && (v.creators[i].Returned? ==> !(v.creators[i].created && v.creators[i].failed))
  {
    var c := Advance(render, s, i, e).creators[i];
    if c.Submitting? {
      assert Some(c.job) == RenderedBy(render, c.staging, e.pod);
    }
  }

  lemma SubmitKeepsAccounts(render: Renderers, s: Store, i: nat, e: Event)
    requires Accounted(render, s) && i < |s.creators| && s.creators[i].Submitting? && e.Advances?
    ensures Accounted(render, Advance(render, s, i, e))
  {
    var c := Advance(render, s, i, e).creators[i];
    assert s.creators[i] in s.creators;
    WinnersUpdate(s.creators, i, c);
    MovedKeepsCreators(render, s, i, c);
  }

  lemma AdvanceKeepsAccounts(render: Renderers, s: Store, i: nat, e: Event)
    requires Accounted(render, s) && i < |s.creators| && e.Advances?
    ensures Accounted(render, Advance(render, s, i, e))
  {
    if s.creators[i].Submitting? {
      SubmitKeepsAccounts(render, s, i, e);
    } else if !s.creators[i].Returned? {
      QuietAdvance(render, s, i, e);
      var c := Advance(render, s, i, e).creators[i];
      WinnersUpdate(s.creators, i, c);
      MovedKeepsCreators(render, s, i, c);
    }
  }

  lemma {:induction false} TraceIsAccounted(render: Renderers, events: seq<Event>)
    ensures Accounted(render, Trace(render, events))
  {
    if events != [] {
      var before := events[..|events| - 1];
      var s, e := Trace(render, before), events[|events| - 1];
      TraceIsAccounted(render, before);
      match e {
        case Begins(staging) =>
          var c := if staging then FindingPod(true) else FindingDest;
          assert (s.creators + [c])[..|s.creators|] == s.creators;
          assert forall x | x in s.creators + [c] :: x in s.creators || x == c;
        case Advances(i, _, _, _) =>
          if i < |s.creators| { AdvanceKeepsAccounts(render, s, i, e); }
        case DestDeleted =>
        case SourceDeleted =>
      }
    }
  }

  /** Over every interleaving of staging, Resume calls and deletes: without a delete the
      destination Job is created at most once and at most one caller is told so; in general
      the number of creates exceeds the number of deletes by at most one. */
  lemma CreatedAtMostOnce(render: Renderers, events: seq<Event>)
    ensures var s := Trace(render, events);
            && s.creates <= s.deletes + 1
            && Winners(s.creators) <= s.creates
            && (s.deletes == 0 ==> s.creates <= 1 && Winners(s.creators) <= 1)
            && (s.deletes == 0 && Winners(s.creators) == 1 ==> s.dest.Some?)
  {
    TraceIsAccounted(render, events);
  }

  /** The two renderings of one migration. */
  function RenderersOf(r: Renderer, spec: Request, l: Lookups, id: string, ns: string): Renderers
  {
    Renderers(pod => StagedJob(r, spec, l, id, ns, pod), pod => ResumedJob(r, spec, id, ns, pod))
  }

  /** In every race, the stored Job is the one Apply would have staged for some source pod exactly if
      a destination node is named or the staging goroutine created it. */
  lemma StoredJobIsStagedExactly(r: Renderer, spec: Request, l: Lookups, id: string, ns: string, events: seq<Event>)
    requires spec.sourceNode == "" && l.sourceNode != ""
    requires Trace(RenderersOf(r, spec, l, id, ns), events).dest.Some?
    ensures var s := Trace(RenderersOf(r, spec, l, id, ns), events);
            (exists pod :: s.dest == StagedJob(r, spec, l, id, ns, pod)) <==> spec.destNode != "" || s.byStaging
  {
    var render := RenderersOf(r, spec, l, id, ns);
    var s := Trace(render, events);
    TraceIsAccounted(render, events);
    var pod :| Some(s.dest.value) == RenderedBy(render, s.byStaging, pod);
    if s.byStaging {
      assert s.dest == StagedJob(r, spec, l, id, ns, pod);
    } else {
      assert s.dest == ResumedJob(r, spec, id, ns, pod);
      if spec.destNode != "" {
        ResumeRebuildsExactly(r, spec, l, id, ns, pod);
        assert s.dest == StagedJob(r, spec, l, id, ns, pod);
      } else {
        forall p ensures s.dest != StagedJob(r, spec, l, id, ns, p) {
          HostsTellApart(r, spec, l, id, ns, p, pod);
        }
      }
    }
  }

  /** With an automatic destination no resumed Job is a staged one, whatever the pods. */
  lemma HostsTellApart(r: Renderer, spec: Request, l: Lookups, id: string, ns: string, p: string, pod: string)
    requires spec.sourceNode == "" && l.sourceNode != "" && spec.destNode == ""
    requires ResumedJob(r, spec, id, ns, pod).Some?
    ensures StagedJob(r, spec, l, id, ns, p) != ResumedJob(r, spec, id, ns, pod)
  {
    var req, extra := Fill(spec, l), BuildExtraArgs(spec);
    FillKeepsArgs(spec, l);
    RenderedAlike(r, spec, l, id, extra);
    var a, b := RenderDestJob(r, req, id, extra), RenderDestJob(r, spec, id, extra);
    InjectKeepsHosts(a.value, ns, p);
    InjectKeepsHosts(b.value, ns, pod);
  }

  /** `created` is returned exactly by the call whose own create put the Job there. */
  lemma CreatedMeansCreated(render: Renderers, s: Store, i: nat, e: Event)
    requires i < |s.creators| && !s.creators[i].Returned? && e.Advances?
    ensures var s' := Advance(render, s, i, e);
            s'.creators[i].Returned? && s'.creators[i].created
            <==> s.creators[i].Submitting? && e.answer.Ok? && s.dest.None? && s'.dest == Some(s.creators[i].job)
  {
  }

  // ---------------------------------------------------------------- what fills the template

  lemma NodeFills(node: string, image: string, qmp: string, id: string, extra: string)
    ensures Lookup(DestVarsOf(node, image, qmp, id, extra), "NODE_NAME") == node
  {
  }

  lemma ImageFills(node: string, image: string, qmp: string, id: string, extra: string)
    ensures Lookup(DestVarsOf(node, image, qmp, id, extra), "IMAGE") == image
  {
  }

  lemma SocketFills(node: string, image: string, qmp: string, id: string, extra: string)
    ensures Lookup(DestVarsOf(node, image, qmp, id, extra), "QMP_SOCKET")
            == if qmp == "" then "/run/vc/vm/katamaran-dest/qmp.sock" else qmp
  {
  }

  lemma ArgsFill(node: string, image: string, qmp: string, id: string, extra: string)
    ensures Lookup(DestVarsOf(node, image, qmp, id, extra), "EXTRA_ARGS") == extra
  {
  }

  lemma IdFills(node: string, image: string, qmp: string, id: string, extra: string)
    ensures Lookup(DestVarsOf(node, image, qmp, id, extra), "KATAMARAN_MIGRATION_ID") == id
    ensures Lookup(DestVarsOf(node, image, qmp, id, extra), "JOB_SUFFIX") == id
  {
  }

  lemma OneReference(name: string, vars: map<string, string>)
    requires '}' !in name
    ensures Expand(['$', '{'] + name + ['}'], vars) == Lookup(vars, name)
  {
    var pieces, whole := [Var(name)], ['$', '{'] + name + ['}'];
    ExpandFillsPieces(pieces, vars);
    assert pieces[1..] == [] && pieces[0] == Var(name);
    assert Source(pieces) == whole + [] == whole;
    assert Filled(pieces, vars) == Lookup(vars, name) + [] == Lookup(vars, name);
  }

  lemma NamesAreClosed()
    ensures '}' !in "NODE_NAME" && '}' !in "IMAGE" && '}' !in "QMP_SOCKET" && '}' !in "EXTRA_ARGS"
    ensures '}' !in "KATAMARAN_MIGRATION_ID" && '}' !in "JOB_SUFFIX"
  {
  }

  /** What a template that is one reference comes out as, for each variable of the destination Job: the
      destination node, the image, the destination socket or its default, the arguments, and twice
      the migration id. */
  lemma DestFields(req: Request, id: string, extra: string)
    ensures var vars := DestVars(req, id, extra);
      && Expand(['$', '{'] + "NODE_NAME" + ['}'], vars) == req.destNode
      && Expand(['$', '{'] + "IMAGE" + ['}'], vars) == req.image
      && Expand(['$', '{'] + "QMP_SOCKET" + ['}'], vars)
         == (if req.destQMP == "" then "/run/vc/vm/katamaran-dest/qmp.sock" else req.destQMP)
      && Expand(['$', '{'] + "EXTRA_ARGS" + ['}'], vars) == extra
      && Expand(['$', '{'] + "KATAMARAN_MIGRATION_ID" + ['}'], vars) == id
      && Expand(['$', '{'] + "JOB_SUFFIX" + ['}'], vars) == id
  {
    var vars := DestVars(req, id, extra);
    NamesAreClosed();
    OneReference("NODE_NAME", vars);
    OneReference("IMAGE", vars);
    OneReference("QMP_SOCKET", vars);
    OneReference("EXTRA_ARGS", vars);
    OneReference("KATAMARAN_MIGRATION_ID", vars);
    OneReference("JOB_SUFFIX", vars);
    NodeFills(req.destNode, req.image, req.destQMP, id, extra);
    ImageFills(req.destNode, req.image, req.destQMP, id, extra);
    SocketFills(req.destNode, req.image, req.destQMP, id, extra);
    ArgsFill(req.destNode, req.image, req.destQMP, id, extra);
    IdFills(req.destNode, req.image, req.destQMP, id, extra);
  }

  /** Where the destination Job may run. With a named node the decoded Job is left as it is; otherwise
      it names no node, has the request's constraints, keeps off the source node, and is the decoded
      Job in everything else. */
  lemma DestScheduling(r: Renderer, req: Request, id: string, extra: string, decoded: Manifest)
    requires r.decode(Expand(r.template, DestVars(req, id, extra))) == Some(decoded)
    ensures var job := RenderDestJob(r, req, id, extra);
      && job.Some? && job.value.containers == decoded.containers && job.value.rest == decoded.rest
      && (req.destNode != "" ==> job.value == decoded)
      && (req.destNode == "" ==>
            && job.value.nodeName == "" && job.value.excludedHosts == Some([req.sourceNode])
            && job.value.nodeSelector == req.destNodeSelector && job.value.tolerations == req.destTolerations)
  {
  }

  // ---------------------------------------------------------------- filling in a request

  /** The source pod's selector merged under the spec's own, label by label in any order. */
  method MergeSelector(own: map<string, string>, source: map<string, string>) returns (merged: map<string, string>)
    ensures forall k :: k in merged <==> k in own || k in source
    ensures forall k | k in merged :: merged[k] == if k in own then own[k] else source[k]
    ensures merged == source + own
  {
    merged := own;
    var rest := source.Keys;
    while rest != {}
      invariant rest <= source.Keys
      invariant forall k :: k in merged <==> k in own || (k in source && k !in rest)
      invariant forall k | k in merged :: merged[k] == if k in own then own[k] else source[k]
    {
      var k :| k in rest;
      rest := rest - {k};
      if k !in merged { merged := merged[k := source[k]]; }
    }
  }

  /** What dispatch fills in: the source node always; for a named destination its address and nothing
      else; for an automatic one the source pod's tolerations, and its selector where the spec does
      not set the label itself. */
  lemma FillMeaning(spec: Request, l: Lookups)
    ensures var req := Fill(spec, l);
      && req.sourceNode == l.sourceNode
      && (spec.destNode != "" ==>
            && req.destIP == l.destIP && req.destNodeSelector == spec.destNodeSelector
            && req.destTolerations == spec.destTolerations)
      && (spec.destNode == "" ==>
            && req.destIP == spec.destIP && req.destTolerations == l.tolerations
            && (forall k | k in spec.destNodeSelector ::
                  k in req.destNodeSelector && req.destNodeSelector[k] == spec.destNodeSelector[k])
            && (forall k | k in req.destNodeSelector && k !in spec.destNodeSelector ::
                  k in l.nodeSelector && req.destNodeSelector[k] == l.nodeSelector[k])
            && (forall k | k in l.nodeSelector :: k in req.destNodeSelector))
  {
  }

  // ---------------------------------------------------------------- names, refusals, returns

  predicate Alnum(c: char)
  {
    97 <= c as int <= 122 || 48 <= c as int <= 57
  }

  /** The pattern `[a-z0-9]([-a-z0-9]*[a-z0-9])?`, read as a pattern. */
  ghost predicate MatchesLabel(s: string)
  {
    exists a: char :: Alnum(a) && (s == [a] || exists m: string, z: char :: Alnum(z) && Inner(m) && s == [a] + m + [z])
  }

  predicate Inner(m: string)
  {
    forall i | 0 <= i < |m| :: m[i] == '-' || Alnum(m[i])
  }

  lemma LabelMatches(s: string)
    requires Dns1123(s)
    ensures MatchesLabel(s)
  {
    var a, z := s[0], s[|s| - 1];
    assert a in s && z in s && Alnum(a) && Alnum(z);
    if |s| == 1 {
      assert s == [a];
    } else {
      var m := s[1..|s| - 1];
      forall i | 0 <= i < |m| ensures m[i] == '-' || Alnum(m[i]) {
        assert m[i] in s;
      }
      assert Inner(m) && s == [a] + m + [z];
    }
  }

  lemma MatchIsLabel(s: string)
    requires MatchesLabel(s) && |s| <= 253
    ensures Dns1123(s)
  {
    var a: char :| Alnum(a) && (s == [a] || exists m: string, z: char :: Alnum(z) && Inner(m) && s == [a] + m + [z]);
    if s != [a] {
      var m: string, z: char :| Alnum(z) && Inner(m) && s == [a] + m + [z];
      forall c | c in s ensures LabelChar(c) {
        assert c == a || c == z || c in m;
      }
    }
  }

  /** The names a patch accepts are those the pattern matches, up to 253 characters long. */
  lemma LabelExactly(s: string)
    ensures Dns1123(s) <==> |s| <= 253 && MatchesLabel(s)
  {
    if Dns1123(s) { LabelMatches(s); }
    if |s| <= 253 && MatchesLabel(s) { MatchIsLabel(s); }
  }

  predicate FirstKatamaran(cs: seq<Container>, i: nat)
  {
    i < |cs| && cs[i].name == "katamaran" && forall j | 0 <= j < i :: cs[j].name != "katamaran"
  }

  /** When the patch is refused. */
  lemma InjectRefusesExactly(job: Manifest, ns: string, pod: string)
    ensures Inject(job, ns, pod).None? <==>
      || !Dns1123(ns) || !Dns1123(pod)
      || (forall i | 0 <= i < |job.containers| :: job.containers[i].name != "katamaran")
      || (exists i: nat :: FirstKatamaran(job.containers, i) && job.containers[i].command == [])
  {
    var t := Target(job.containers);
    if t.None? {
      assert forall i | 0 <= i < |job.containers| :: job.containers[i] in job.containers;
    } else {
      assert FirstKatamaran(job.containers, t.value);
      assert forall i: nat | FirstKatamaran(job.containers, i) :: i == t.value;
    }
  }

  /** The staging goroutine starts by looking for the source pod; a Resume call starts by looking for the
      destination Job; neither disturbs the others. */
  lemma CreatorsBegin(render: Renderers, s: Store, staging: bool)
    ensures var v := Happens(render, s, Begins(staging));
      && |v.creators| == |s.creators| + 1 && v.creators[..|s.creators|] == s.creators
      && v.creators[|s.creators|] == (if staging then FindingPod(true) else FindingDest)
      && v.dest == s.dest && v.creates == s.creates
  {
  }

  /** What one call of a creator makes it return, if anything. A Resume that finds the Job there, or
      loses the race for it, reports neither a create nor a failure; the staging goroutine that loses
      it reports a failure. */
  lemma ReturnsExactly(render: Renderers, s: Store, i: nat, e: Event)
    requires i < |s.creators| && !s.creators[i].Returned? && e.Advances?
    ensures var was, now := s.creators[i], Advance(render, s, i, e).creators[i];
      && (now == Returned(false, false) <==>
            && e.answer.Ok? && s.dest.Some?
            && (was.FindingDest? || (was.Submitting? && !was.staging)))
      && (now == Returned(false, true) <==>
            || e.answer.Error?
            || (was.FindingSource? && !s.source)
            || (was.FindingPod? && RenderedBy(render, was.staging, e.pod).None?)
            || (was.Submitting? && was.staging && s.dest.Some?))
      && (now == Returned(true, false) <==> was.Submitting? && e.answer.Ok? && s.dest.None?)
      && (now == FindingSource <==> was.FindingDest? && e.answer.Ok? && s.dest.None?)
      && (now == FindingPod(false) <==> was.FindingSource? && e.answer.Ok? && s.source)
  {
  }
}
