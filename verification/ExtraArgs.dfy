/** The text channel from a migration request to the katamaran command line: `Validate`
    guards the request, `buildExtraArgs` flattens it into one blank-separated string, the
    shell splits that string, and the flag parser reads it back. */
module ExtraArgs {
  import opened Text

  datatype PodRef = PodRef(namespace_: string, name: string)

  datatype Request = Request(
    sourceNode: string,
    destNode: string,
    destNodeSelector: map<string, string>,
    destTolerations: seq<string>,
    sourcePod: Option<PodRef>,
    sourceQMP: string,
    vmIP: string,
    destPod: Option<PodRef>,
    destQMP: string,
    destIP: string,
    image: string,
    sharedStorage: bool,
    replayCmdline: bool,
    tunnelMode: string,
    downtimeMS: int,
    autoDowntime: bool,
    autoDowntimeFloorMS: int,
    cniConvergenceDelaySeconds: int,
    multifdChannels: int,
    podWaitTimeoutSeconds: int,
    sourceCleanup: string,
    adoptVM: bool,
    tapIface: string,
    tapNetns: string,
    logLevel: string,
    logFormat: string,
    kubectlContext: string)

  // ---------------------------------------------------------------- validation

  predicate SafeChar(c: char)
  {
    || 'a' <= c <= 'z' || 'A' <= c <= 'Z' || '0' <= c <= '9'
    || c in {'_', '.', '/', ':', '@', '=', '-'}
  }

  const MaxSafeArgValueLen: nat := 512

  datatype ArgFault = TooLong | Traversal | BadCharacter

  function FirstBadChar(value: string): (bad: bool)
    ensures bad <==> exists c :: c in value && !SafeChar(c)
  {
    value != [] && (!SafeChar(value[0]) || FirstBadChar(value[1..]))
  }

  function ValidateSafeArgValue(value: string): (fault: Option<ArgFault>)
    ensures fault.None? ==> forall c | c in value :: SafeChar(c)
  {
    if value == "" then None
    else if |value| > MaxSafeArgValueLen then Some(TooLong)
    else if Contains(value, "..") then Some(Traversal)
    else if FirstBadChar(value) then Some(BadCharacter)
    else None
  }

  predicate TwoDots(value: string)
  {
    exists i | 0 <= i < |value| - 1 :: value[i] == '.' && value[i + 1] == '.'
  }

  lemma TraversalIsTwoDots(value: string)
    ensures Contains(value, "..") <==> TwoDots(value)
  {
    if Contains(value, "..") {
      var i := ContainsHas(value, "..");
      assert value[i] == value[i..][0] == '.' && value[i + 1] == value[i..][1] == '.';
    }
    if TwoDots(value) {
      var i :| 0 <= i < |value| - 1 && value[i] == '.' && value[i + 1] == '.';
      assert value[i..][..2] == "..";
      ContainsAt(value, "..", i);
    }
  }

  /** Which fault is reported, character by character: too long before anything else, then two dots
      in a row, then a character outside the safe set; and none exactly if none of them is there. */
  lemma FaultMeaning(value: string)
    ensures var fault := ValidateSafeArgValue(value);
      && (fault == Some(TooLong) <==> |value| > MaxSafeArgValueLen)
      && (fault == Some(Traversal) <==> |value| <= MaxSafeArgValueLen && TwoDots(value))
      && (fault == Some(BadCharacter) <==>
            |value| <= MaxSafeArgValueLen && !TwoDots(value) && exists c | c in value :: !SafeChar(c))
      && (fault.None? <==>
            |value| <= MaxSafeArgValueLen && !TwoDots(value) && forall c | c in value :: SafeChar(c))
  {
    TraversalIsTwoDots(value);
  }

  datatype Field =
    | SourceNode | DestNode | SourceQMP | VMIP | DestQMP | DestIP | Image | TunnelMode | TapIface
    | TapNetns | LogLevel | LogFormat | KubectlContext
    | SourcePodNamespace | SourcePodName | DestPodNamespace | DestPodName

  /** The values that end up in a rendered Job, in the order they are checked. */
  function ArgValues(req: Request): (fields: seq<(Field, string)>)
  {
    [(SourceNode, req.sourceNode), (DestNode, req.destNode), (SourceQMP, req.sourceQMP),
     (VMIP, req.vmIP), (DestQMP, req.destQMP), (DestIP, req.destIP), (Image, req.image),
     (TunnelMode, req.tunnelMode), (TapIface, req.tapIface), (TapNetns, req.tapNetns),
     (LogLevel, req.logLevel), (LogFormat, req.logFormat), (KubectlContext, req.kubectlContext)]
    + (if req.sourcePod.None? then []
       else [(SourcePodNamespace, req.sourcePod.value.namespace_), (SourcePodName, req.sourcePod.value.name)])
    + (if req.destPod.None? then []
       else [(DestPodNamespace, req.destPod.value.namespace_), (DestPodName, req.destPod.value.name)])
  }

  /** The loop of validateRequestArgValues: the first field that is not safe. */
  method ValidateRequestArgValues(fields: seq<(Field, string)>) returns (bad: Option<Field>)
    ensures bad == FirstUnsafe(fields)
  {
    for i := 0 to |fields|
      invariant FirstUnsafe(fields) == FirstUnsafe(fields[i..])
    {
      if ValidateSafeArgValue(fields[i].1).Some? {
        return Some(fields[i].0);
      }
      assert fields[i..][1..] == fields[i + 1..];
    }
    bad := None;
  }

  function FirstUnsafe(fields: seq<(Field, string)>): (bad: Option<Field>)
    ensures bad.None? <==> forall f | f in fields :: ValidateSafeArgValue(f.1).None?
  {
    if fields == [] then None
    else if ValidateSafeArgValue(fields[0].1).Some? then Some(fields[0].0)
    else
      assert fields == [fields[0]] + fields[1..];
      FirstUnsafe(fields[1..])
  }

  function Lower(s: string): string
  {
    seq(|s|, i requires 0 <= i < |s| => if 'A' <= s[i] <= 'Z' then (s[i] as int + 32) as char else s[i])
  }

  datatype Rejection =
    | SourceNodeRequired | DestNodeRequired | NodesMustDiffer | DestIPRequired | ImageRequired
    | SourceRequired | SourcePodIncomplete | DestPodIncomplete | BadTunnelMode | BadDowntime
    | BadMultifdChannels | BadDowntimeFloor | BadConvergenceDelay | BadLogLevel | BadLogFormat
    | BadPodWaitTimeout | BadSourceCleanup | UnsafeValue(field: Field) | BadDestIP | BadVMIP

  predicate Incomplete(p: PodRef) { p.name == "" || p.namespace_ == "" }

  function ValidateParties(req: Request): (r: Option<Rejection>)
  {
    if req.sourceNode == "" then Some(SourceNodeRequired)
    else if req.destNode == "" && req.sourcePod.None? then Some(DestNodeRequired)
    else if req.destNode != "" && req.sourceNode == req.destNode then Some(NodesMustDiffer)
    else if req.destNode != "" && req.destIP == "" then Some(DestIPRequired)
    else if req.image == "" then Some(ImageRequired)
    else if req.sourcePod.None? && (req.sourceQMP == "" || req.vmIP == "") then Some(SourceRequired)
    else if req.sourcePod.Some? && Incomplete(req.sourcePod.value) then Some(SourcePodIncomplete)
    else if req.destPod.Some? && Incomplete(req.destPod.value) then Some(DestPodIncomplete)
    else None
  }

  function ValidateOptions(req: Request): (r: Option<Rejection>)
  {
    if Lower(req.tunnelMode) !in {"", "ipip", "gre", "none"} then Some(BadTunnelMode)
    else if !(0 <= req.downtimeMS <= 60000) then Some(BadDowntime)
    else if req.multifdChannels < 0 then Some(BadMultifdChannels)
    else if req.autoDowntimeFloorMS < 0 then Some(BadDowntimeFloor)
    else if req.cniConvergenceDelaySeconds < 0 then Some(BadConvergenceDelay)
    else if Lower(req.logLevel) !in {"", "debug", "info", "warn", "error"} then Some(BadLogLevel)
    else if Lower(req.logFormat) !in {"", "text", "json"} then Some(BadLogFormat)
    else if req.podWaitTimeoutSeconds < 0 then Some(BadPodWaitTimeout)
    else if req.sourceCleanup !in {"", "none", "delete", "orphan"} then Some(BadSourceCleanup)
    else None
  }

  /** Validate, in its order of checks; `isIP` stands for netip.ParseAddr succeeding. */
  function Validate(req: Request, isIP: string -> bool): (r: Option<Rejection>)
  {
    if ValidateParties(req).Some? then ValidateParties(req)
    else if ValidateOptions(req).Some? then ValidateOptions(req)
    else match FirstUnsafe(ArgValues(req))
      case Some(field) => Some(UnsafeValue(field))
      case None =>
        if req.destIP != "" && !isIP(req.destIP) then Some(BadDestIP)
        else if req.vmIP != "" && !isIP(req.vmIP) then Some(BadVMIP)
        else None
  }

  // ---------------------------------------------------------------- building the arguments

  datatype SwitchName = SharedStorage | AutoDowntime
  datatype SettingName =
    | PodName | PodNamespace | ToPodName | ToPodNamespace | Tap | TapNs | Tunnel | Downtime
    | DowntimeFloor | CniDelay | Multifd | Level | Format

  /** One flag as the CLI understands it: a switch, or a flag with its value. */
  datatype Flag = Switch(switch: SwitchName) | Setting(name: SettingName, value: string)

  function SwitchText(n: SwitchName): string
  {
    match n
    case SharedStorage => "--shared-storage"
    case AutoDowntime => "--auto-downtime"
  }

  function SettingText(n: SettingName): string
  {
    match n
    case PodName => "--pod-name"
    case PodNamespace => "--pod-namespace"
    case ToPodName => "--dest-pod-name"
    case ToPodNamespace => "--dest-pod-namespace"
    case Tap => "--tap"
    case TapNs => "--tap-netns"
    case Tunnel => "--tunnel-mode"
    case Downtime => "--downtime"
    case DowntimeFloor => "--auto-downtime-floor-ms"
    case CniDelay => "--cni-convergence-delay"
    case Multifd => "--multifd-channels"
    case Level => "--log-level"
    case Format => "--log-format"
  }

  function When(b: bool, flags: seq<Flag>): seq<Flag>
  {
    if b then flags else []
  }

  function PodFlags(name: SettingName, ns: SettingName, pod: Option<PodRef>): seq<Flag>
  {
    if pod.None? then [] else [Setting(name, pod.value.name), Setting(ns, pod.value.namespace_)]
  }

  function NetworkFlags(req: Request): seq<Flag>
  {
    When(req.tapIface != "", [Setting(Tap, req.tapIface)])
    + When(req.tapNetns != "", [Setting(TapNs, req.tapNetns)])
    + When(req.tunnelMode != "", [Setting(Tunnel, req.tunnelMode)])
  }

  function TimingFlags(req: Request): seq<Flag>
  {
    When(req.downtimeMS > 0, [Setting(Downtime, IntText(req.downtimeMS))])
    + When(req.autoDowntime, [Switch(AutoDowntime)])
    + When(req.autoDowntime && req.autoDowntimeFloorMS > 0, [Setting(DowntimeFloor, IntText(req.autoDowntimeFloorMS))])
    + When(req.cniConvergenceDelaySeconds > 0, [Setting(CniDelay, IntText(req.cniConvergenceDelaySeconds) + "s")])
    + [Setting(Multifd, IntText(req.multifdChannels))]
  }

  function LogFlags(req: Request): seq<Flag>
  {
    When(req.logLevel != "", [Setting(Level, req.logLevel)])
    + When(req.logFormat != "", [Setting(Format, req.logFormat)])
  }

  /** The flags buildExtraArgs emits, in its order. */
  function FlagsOf(req: Request): (flags: seq<Flag>)
  {
    When(req.sharedStorage, [Switch(SharedStorage)])
    + PodFlags(PodName, PodNamespace, req.sourcePod)
    + PodFlags(ToPodName, ToPodNamespace, req.destPod)
    + NetworkFlags(req) + TimingFlags(req) + LogFlags(req)
  }

  function Argv(flags: seq<Flag>): (args: seq<string>)
  {
    if flags == [] then []
    else (match flags[0]
          case Switch(n) => [SwitchText(n)]
          case Setting(n, value) => [SettingText(n), value]) + Argv(flags[1..])
  }

  function BuildExtraArgs(req: Request): (text: string)
  {
    Join(Argv(FlagsOf(req)), " ")
  }

  // ---------------------------------------------------------------- reading them back

  function SwitchOf(arg: string): Option<SwitchName>
  {
    if arg == "--shared-storage" then Some(SharedStorage)
    else if arg == "--auto-downtime" then Some(AutoDowntime)
    else None
  }

  function SettingOf(arg: string): Option<SettingName>
  {
    if arg == "--pod-name" then Some(PodName)
    else if arg == "--pod-namespace" then Some(PodNamespace)
    else if arg == "--dest-pod-name" then Some(ToPodName)
    else if arg == "--dest-pod-namespace" then Some(ToPodNamespace)
    else if arg == "--tap" then Some(Tap)
    else if arg == "--tap-netns" then Some(TapNs)
    else if arg == "--tunnel-mode" then Some(Tunnel)
    else if arg == "--downtime" then Some(Downtime)
    else if arg == "--auto-downtime-floor-ms" then Some(DowntimeFloor)
    else if arg == "--cni-convergence-delay" then Some(CniDelay)
    else if arg == "--multifd-channels" then Some(Multifd)
    else if arg == "--log-level" then Some(Level)
    else if arg == "--log-format" then Some(Format)
    else None
  }

  lemma SwitchNames(n: SwitchName)
    ensures SwitchOf(SwitchText(n)) == Some(n)
    ensures Word(SwitchText(n))
  {
  }

  lemma SettingNames(n: SettingName)
    ensures SwitchOf(SettingText(n)).None? && SettingOf(SettingText(n)) == Some(n)
  {
  }

  lemma SettingNamesAreWords(n: SettingName)
    ensures Word(SettingText(n))
  {
    match n
    case DowntimeFloor => FloorNameIsWord();
    case CniDelay => DelayNameIsWord();
    case PodName => PodNamesAreWords(n);
    case PodNamespace => PodNamesAreWords(n);
    case ToPodName => PodNamesAreWords(n);
    case ToPodNamespace => PodNamesAreWords(n);
    case _ => ShortNamesAreWords(n);
  }

  lemma FloorNameIsWord()
    ensures Word("--auto-downtime-floor-ms")
  {
  }

  lemma DelayNameIsWord()
    ensures Word("--cni-convergence-delay")
  {
  }

  lemma PodNamesAreWords(n: SettingName)
    requires n.PodName? || n.PodNamespace? || n.ToPodName? || n.ToPodNamespace?
    ensures Word(SettingText(n))
  {
  }

  lemma ShortNamesAreWords(n: SettingName)
    requires n.Tap? || n.TapNs? || n.Tunnel? || n.Downtime? || n.Multifd? || n.Level? || n.Format?
    ensures Word(SettingText(n))
  {
  }

  /** How the CLI's flag set reads an argument list: a switch stands alone, any other known
      flag takes the next argument as its value, even one that looks like a flag. */
  function ParseFlags(args: seq<string>): (r: Option<seq<Flag>>)
    decreases |args|
  {
    if args == [] then Some([])
    else match SwitchOf(args[0])
      case Some(n) =>
        (match ParseFlags(args[1..])
         case None => None
         case Some(rest) => Some([Switch(n)] + rest))
      case None =>
        match SettingOf(args[0])
        case None => None
        case Some(n) =>
          if |args| < 2 then None
          else match ParseFlags(args[2..])
            case None => None
            case Some(rest) => Some([Setting(n, args[1])] + rest)
  }

  lemma {:induction false} ParseOfArgv(flags: seq<Flag>)
    ensures ParseFlags(Argv(flags)) == Some(flags)
  {
    if flags != [] {
      ParseOfArgv(flags[1..]);
      assert flags == [flags[0]] + flags[1..];
      var args, rest := Argv(flags), Argv(flags[1..]);
      match flags[0] {
        case Switch(n) =>
          SwitchNames(n);
          assert args[1..] == rest;
        case Setting(n, value) =>
          SettingNames(n);
          assert args[2..] == rest;
      }
    }
  }

  lemma SafeIsSpaceFree(value: string)
    requires ValidateSafeArgValue(value).None?
    ensures SpaceFree(value)
  {
    assert forall c | SafeChar(c) :: !IsSpace(c);
  }

  /** The value of a flag is a single word. */
  predicate WordFlag(f: Flag)
  {
    f.Setting? ==> Word(f.value)
  }

  lemma DelayIsWord(n: int)
    ensures Word(IntText(n) + "s")
  {
    IntTextIsWord(n);
  }

  /** What acceptance means for the text channel: every value is safe, pods are complete. */
  predicate Channelable(req: Request)
  {
    && FirstUnsafe(ArgValues(req)).None?
    && (req.sourcePod.Some? ==> !Incomplete(req.sourcePod.value))
    && (req.destPod.Some? ==> !Incomplete(req.destPod.value))
  }

  lemma AcceptedIsChannelable(req: Request, isIP: string -> bool)
    requires Validate(req, isIP).None?
    ensures Channelable(req)
  {
    PartiesAreComplete(req);
    assert FirstUnsafe(ArgValues(req)).None?;
  }

  lemma PartiesAreComplete(req: Request)
    requires ValidateParties(req).None?
    ensures req.sourcePod.Some? ==> !Incomplete(req.sourcePod.value)
    ensures req.destPod.Some? ==> !Incomplete(req.destPod.value)
  {
  }

  lemma FlagsAreWords(req: Request)
    requires Channelable(req)
    ensures forall f | f in FlagsOf(req) :: WordFlag(f)
  {
    PodFlagsAreWords(req);
    TextsAreSpaceFree(req);
    NetworkFlagsAreWords(req);
    LogFlagsAreWords(req);
    TimingFlagsAreWords(req);
  }

  lemma ValuesAt(req: Request)
    ensures var vs := ArgValues(req);
      && |vs| > 12 && vs[7].1 == req.tunnelMode && vs[8].1 == req.tapIface && vs[9].1 == req.tapNetns
      && vs[10].1 == req.logLevel && vs[11].1 == req.logFormat
  {
  }

  lemma SafeAt(vs: seq<(Field, string)>, i: nat)
    requires FirstUnsafe(vs).None? && i < |vs|
    ensures SpaceFree(vs[i].1)
  {
    assert vs[i] in vs;
    SafeIsSpaceFree(vs[i].1);
  }

  lemma TextsAreSpaceFree(req: Request)
    requires Channelable(req)
    ensures SpaceFree(req.tapIface) && SpaceFree(req.tapNetns) && SpaceFree(req.tunnelMode)
    ensures SpaceFree(req.logLevel) && SpaceFree(req.logFormat)
  {
    var vs := ArgValues(req);
    ValuesAt(req);
    SafeAt(vs, 7);
    SafeAt(vs, 8);
    SafeAt(vs, 9);
    SafeAt(vs, 10);
    SafeAt(vs, 11);
  }

  lemma NetworkFlagsAreWords(req: Request)
    requires SpaceFree(req.tapIface) && SpaceFree(req.tapNetns) && SpaceFree(req.tunnelMode)
    ensures forall f | f in NetworkFlags(req) :: WordFlag(f)
  {
  }

  lemma LogFlagsAreWords(req: Request)
    requires SpaceFree(req.logLevel) && SpaceFree(req.logFormat)
    ensures forall f | f in LogFlags(req) :: WordFlag(f)
  {
  }

  lemma TimingFlagsAreWords(req: Request)
    ensures forall f | f in TimingFlags(req) :: WordFlag(f)
  {
    IntTextIsWord(req.downtimeMS);
    IntTextIsWord(req.autoDowntimeFloorMS);
    IntTextIsWord(req.multifdChannels);
    DelayIsWord(req.cniConvergenceDelaySeconds);
  }

  lemma CompletePodIsWords(name: SettingName, ns: SettingName, pod: PodRef)
    requires !Incomplete(pod) && SpaceFree(pod.name) && SpaceFree(pod.namespace_)
    ensures forall f | f in PodFlags(name, ns, Some(pod)) :: WordFlag(f)
  {
  }

  lemma PodFlagsAreWords(req: Request)
    requires Channelable(req)
    ensures forall f | f in PodFlags(PodName, PodNamespace, req.sourcePod) :: WordFlag(f)
    ensures forall f | f in PodFlags(ToPodName, ToPodNamespace, req.destPod) :: WordFlag(f)
  {
    var vs := ArgValues(req);
    PodValuesAt(req);
    if req.sourcePod.Some? {
      SafeAt(vs, 13);
      SafeAt(vs, 14);
      CompletePodIsWords(PodName, PodNamespace, req.sourcePod.value);
    }
    if req.destPod.Some? {
      SafeAt(vs, |vs| - 2);
      SafeAt(vs, |vs| - 1);
      CompletePodIsWords(ToPodName, ToPodNamespace, req.destPod.value);
    }
  }

  lemma PodValuesAt(req: Request)
    ensures var vs := ArgValues(req);
      && (req.sourcePod.Some? ==>
        |vs| > 14 && vs[13].1 == req.sourcePod.value.namespace_ && vs[14].1 == req.sourcePod.value.name)
      && (req.destPod.Some? ==>
        |vs| > 14 && vs[|vs| - 2].1 == req.destPod.value.namespace_ && vs[|vs| - 1].1 == req.destPod.value.name)
  {
  }

  lemma {:induction false} ArgvWords(flags: seq<Flag>)
    requires forall f | f in flags :: WordFlag(f)
    ensures forall a | a in Argv(flags) :: Word(a)
  {
    if flags != [] {
      ArgvWords(flags[1..]);
      assert WordFlag(flags[0]);
      match flags[0] {
        case Switch(n) => SwitchNames(n);
        case Setting(n, _) => SettingNamesAreWords(n);
      }
    }
  }

  /** For every request Validate accepts, splitting the joined string on white space gives
      back the argument list, and the flag parser recovers every flag with its value. */
  lemma AcceptedRequestRoundTrips(req: Request, isIP: string -> bool)
    requires Validate(req, isIP).None?
    ensures Fields(BuildExtraArgs(req)) == Argv(FlagsOf(req))
    ensures ParseFlags(Fields(BuildExtraArgs(req))) == Some(FlagsOf(req))
  {
    AcceptedIsChannelable(req, isIP);
    FlagsAreWords(req);
    ArgvWords(FlagsOf(req));
    FieldsOfJoinWords(Argv(FlagsOf(req)));
    ParseOfArgv(FlagsOf(req));
  }

  /** The value each setting must carry for a request, field by field. */
  function Wanted(req: Request, n: SettingName): Option<string>
  {
    match n
    case PodName => if req.sourcePod.Some? then Some(req.sourcePod.value.name) else None
    case PodNamespace => if req.sourcePod.Some? then Some(req.sourcePod.value.namespace_) else None
    case ToPodName => if req.destPod.Some? then Some(req.destPod.value.name) else None
    case ToPodNamespace => if req.destPod.Some? then Some(req.destPod.value.namespace_) else None
    case Tap => NonEmpty(req.tapIface)
    case TapNs => NonEmpty(req.tapNetns)
    case Tunnel => NonEmpty(req.tunnelMode)
    case Downtime => Positive(req.downtimeMS)
    case DowntimeFloor => if req.autoDowntime then Positive(req.autoDowntimeFloorMS) else None
    case CniDelay => if req.cniConvergenceDelaySeconds > 0 then Some(IntText(req.cniConvergenceDelaySeconds) + "s")
      else None
    case Multifd => Some(IntText(req.multifdChannels))
    case Level => NonEmpty(req.logLevel)
    case Format => NonEmpty(req.logFormat)
  }

  function NonEmpty(s: string): Option<string> { if s == "" then None else Some(s) }

  function Positive(n: int): Option<string> { if n > 0 then Some(IntText(n)) else None }

  lemma InFlags(req: Request, x: Flag)
    ensures x in FlagsOf(req) <==>
            || (req.sharedStorage && x == Switch(SharedStorage))
            || x in PodFlags(PodName, PodNamespace, req.sourcePod)
            || x in PodFlags(ToPodName, ToPodNamespace, req.destPod)
            || x in NetworkFlags(req) || x in TimingFlags(req) || x in LogFlags(req)
  {
  }

  lemma InTimingFlags(req: Request, n: SettingName, v: string)
    ensures Setting(n, v) in TimingFlags(req) <==>
      n in {Downtime, DowntimeFloor, CniDelay, Multifd} && Wanted(req, n) == Some(v)
  {
  }

  lemma InNetworkFlags(req: Request, n: SettingName, v: string)
    ensures Setting(n, v) in NetworkFlags(req) <==> n in {Tap, TapNs, Tunnel} && Wanted(req, n) == Some(v)
  {
  }

  lemma InLogFlags(req: Request, n: SettingName, v: string)
    ensures Setting(n, v) in LogFlags(req) <==> n in {Level, Format} && Wanted(req, n) == Some(v)
  {
  }

  lemma InPodFlags(req: Request, n: SettingName, v: string)
    ensures Setting(n, v) in PodFlags(PodName, PodNamespace, req.sourcePod) <==>
      n in {PodName, PodNamespace} && Wanted(req, n) == Some(v)
    ensures Setting(n, v) in PodFlags(ToPodName, ToPodNamespace, req.destPod) <==>
      n in {ToPodName, ToPodNamespace} && Wanted(req, n) == Some(v)
  {
  }

  /** The recovered flags determine the request: a setting is there exactly when the request
      wants it, with that value and no other, and so are the two switches. */
  lemma FlagsDetermineRequest(req: Request, n: SettingName, v: string)
    ensures Setting(n, v) in FlagsOf(req) <==> Wanted(req, n) == Some(v)
  {
    InFlags(req, Setting(n, v));
    InPodFlags(req, n, v);
    InNetworkFlags(req, n, v);
    InTimingFlags(req, n, v);
    InLogFlags(req, n, v);
  }

  lemma SwitchesDetermineRequest(req: Request)
    ensures Switch(SharedStorage) in FlagsOf(req) <==> req.sharedStorage
    ensures Switch(AutoDowntime) in FlagsOf(req) <==> req.autoDowntime
  {
    InFlags(req, Switch(SharedStorage));
    InFlags(req, Switch(AutoDowntime));
    SwitchesInTiming(req);
    NoSwitchInNetwork(req);
    NoSwitchInLog(req);
  }

  lemma SwitchesInTiming(req: Request)
    ensures Switch(AutoDowntime) in TimingFlags(req) <==> req.autoDowntime
    ensures Switch(SharedStorage) !in TimingFlags(req)
  {
  }

  lemma NoSwitchInNetwork(req: Request)
    ensures forall f | f in NetworkFlags(req) :: f.Setting?
  {
  }

  lemma NoSwitchInLog(req: Request)
    ensures forall f | f in LogFlags(req) :: f.Setting?
  {
  }

  // ---------------------------------------------------------------- what is accepted, field by field

  /** A value that may be passed on: short, without two dots in a row, of safe characters only. */
  predicate Safe(value: string)
  {
    |value| <= 512 && !TwoDots(value) && forall c | c in value :: SafeChar(c)
  }

  predicate PodOk(pod: Option<PodRef>)
  {
    pod.Some? ==> pod.value.name != "" && pod.value.namespace_ != ""
  }

  /** Who takes part. */
  predicate PartiesOk(req: Request)
  {
    && req.sourceNode != "" && req.image != ""
    && (if req.destNode == "" then req.sourcePod.Some? else req.destNode != req.sourceNode && req.destIP != "")
    && (req.sourcePod.None? ==> req.sourceQMP != "" && req.vmIP != "")
    && PodOk(req.sourcePod) && PodOk(req.destPod)
  }

  predicate OptionsOk(req: Request)
  {
    && Lower(req.tunnelMode) in ["", "ipip", "gre", "none"]
    && 0 <= req.downtimeMS <= 60000 && req.multifdChannels >= 0 && req.autoDowntimeFloorMS >= 0
    && req.cniConvergenceDelaySeconds >= 0 && req.podWaitTimeoutSeconds >= 0
    && Lower(req.logLevel) in ["", "debug", "info", "warn", "error"]
    && Lower(req.logFormat) in ["", "text", "json"]
    && req.sourceCleanup in ["", "none", "delete", "orphan"]
  }

  predicate PodSafe(pod: Option<PodRef>)
  {
    pod.Some? ==> Safe(pod.value.name) && Safe(pod.value.namespace_)
  }

  predicate ValuesOk(req: Request)
  {
    && Safe(req.sourceNode) && Safe(req.destNode) && Safe(req.sourceQMP) && Safe(req.vmIP) && Safe(req.destQMP)
    && Safe(req.destIP) && Safe(req.image) && Safe(req.tunnelMode) && Safe(req.tapIface) && Safe(req.tapNetns)
    && Safe(req.logLevel) && Safe(req.logFormat) && Safe(req.kubectlContext)
    && PodSafe(req.sourcePod) && PodSafe(req.destPod)
  }

  lemma PartiesExactly(req: Request)
    ensures ValidateParties(req).None? <==> PartiesOk(req)
  {
  }

  lemma OptionsExactly(req: Request)
    ensures ValidateOptions(req).None? <==> OptionsOk(req)
  {
  }

  predicate AllPass(fields: seq<(Field, string)>)
  {
    forall f | f in fields :: ValidateSafeArgValue(f.1).None?
  }

  lemma AllPassCat(a: seq<(Field, string)>, b: seq<(Field, string)>)
    ensures AllPass(a + b) <==> AllPass(a) && AllPass(b)
  {
    assert forall f | f in a :: f in a + b;
    assert forall f | f in b :: f in a + b;
  }

  lemma AllPassOne(field: Field, value: string)
    ensures AllPass([(field, value)]) <==> Safe(value)
  {
    FaultMeaning(value);
    assert (field, value) in [(field, value)];
  }

  lemma AllPassTwo(f: Field, v: string, g: Field, w: string)
    ensures AllPass([(f, v), (g, w)]) <==> Safe(v) && Safe(w)
  {
    AllPassOne(f, v);
    AllPassOne(g, w);
    AllPassCat([(f, v)], [(g, w)]);
    assert [(f, v)] + [(g, w)] == [(f, v), (g, w)];
  }

  function Thirteen(req: Request): seq<(Field, string)>
  {
    [(SourceNode, req.sourceNode), (DestNode, req.destNode)] + ([(SourceQMP, req.sourceQMP), (VMIP, req.vmIP)]
    + ([(DestQMP, req.destQMP), (DestIP, req.destIP)] + ([(Image, req.image), (TunnelMode, req.tunnelMode)]
    + ([(TapIface, req.tapIface), (TapNetns, req.tapNetns)] + ([(LogLevel, req.logLevel), (LogFormat, req.logFormat)]
    + [(KubectlContext, req.kubectlContext)])))))
  }

  lemma ThirteenPass(req: Request)
    ensures AllPass(Thirteen(req)) <==>
      && Safe(req.sourceNode) && Safe(req.destNode) && Safe(req.sourceQMP) && Safe(req.vmIP) && Safe(req.destQMP)
      && Safe(req.destIP) && Safe(req.image) && Safe(req.tunnelMode) && Safe(req.tapIface) && Safe(req.tapNetns)
      && Safe(req.logLevel) && Safe(req.logFormat) && Safe(req.kubectlContext)
  {
    var a6 := [(KubectlContext, req.kubectlContext)];
    AllPassOne(KubectlContext, req.kubectlContext);
    var a5 := [(LogLevel, req.logLevel), (LogFormat, req.logFormat)];
    AllPassTwo(LogLevel, req.logLevel, LogFormat, req.logFormat);
    AllPassCat(a5, a6);
    var a4 := [(TapIface, req.tapIface), (TapNetns, req.tapNetns)];
    AllPassTwo(TapIface, req.tapIface, TapNetns, req.tapNetns);
    AllPassCat(a4, a5 + a6);
    var a3 := [(Image, req.image), (TunnelMode, req.tunnelMode)];
    AllPassTwo(Image, req.image, TunnelMode, req.tunnelMode);
    AllPassCat(a3, a4 + (a5 + a6));
    var a2 := [(DestQMP, req.destQMP), (DestIP, req.destIP)];
    AllPassTwo(DestQMP, req.destQMP, DestIP, req.destIP);
    AllPassCat(a2, a3 + (a4 + (a5 + a6)));
    var a1 := [(SourceQMP, req.sourceQMP), (VMIP, req.vmIP)];
    AllPassTwo(SourceQMP, req.sourceQMP, VMIP, req.vmIP);
    AllPassCat(a1, a2 + (a3 + (a4 + (a5 + a6))));
    AllPassTwo(SourceNode, req.sourceNode, DestNode, req.destNode);
    AllPassCat([(SourceNode, req.sourceNode), (DestNode, req.destNode)], a1 + (a2 + (a3 + (a4 + (a5 + a6)))));
  }

  function PodFields(ns: Field, name: Field, pod: Option<PodRef>): seq<(Field, string)>
  {
    if pod.None? then [] else [(ns, pod.value.namespace_), (name, pod.value.name)]
  }

  lemma PodPasses(ns: Field, name: Field, pod: Option<PodRef>)
    ensures AllPass(PodFields(ns, name, pod)) <==> PodSafe(pod)
  {
    if pod.Some? { AllPassTwo(ns, pod.value.namespace_, name, pod.value.name); }
  }

  lemma FieldsAre(req: Request)
    ensures ArgValues(req) == Thirteen(req) + PodFields(SourcePodNamespace, SourcePodName, req.sourcePod)
                                + PodFields(DestPodNamespace, DestPodName, req.destPod)
  {
  }

  lemma ValuesExactly(req: Request)
    ensures FirstUnsafe(ArgValues(req)).None? <==> ValuesOk(req)
  {
    var a, b := Thirteen(req), PodFields(SourcePodNamespace, SourcePodName, req.sourcePod);
    var c := PodFields(DestPodNamespace, DestPodName, req.destPod);
    FieldsAre(req);
    ThirteenPass(req);
    PodPasses(SourcePodNamespace, SourcePodName, req.sourcePod);
    PodPasses(DestPodNamespace, DestPodName, req.destPod);
    AllPassCat(a, b);
    AllPassCat(a + b, c);
  }

  /** A request is accepted exactly if its parties, its options and every value it passes on are in
      order, and its addresses, where given, are addresses. */
  lemma AcceptedExactly(req: Request, isIP: string -> bool)
    ensures Validate(req, isIP).None? <==>
      && PartiesOk(req) && OptionsOk(req) && ValuesOk(req)
      && (req.destIP != "" ==> isIP(req.destIP)) && (req.vmIP != "" ==> isIP(req.vmIP))
  {
    PartiesExactly(req);
    OptionsExactly(req);
    ValuesExactly(req);
  }

  // ---------------------------------------------------------------- the order of the flags

  /** The place of a flag among all flags. */
  function Rank(f: Flag): nat
  {
    match f
    case Switch(SharedStorage) => 0
    case Switch(AutoDowntime) => 9
    case Setting(n, _) =>
      match n
      case PodName => 1
      case PodNamespace => 2
      case ToPodName => 3
      case ToPodNamespace => 4
      case Tap => 5
      case TapNs => 6
      case Tunnel => 7
      case Downtime => 8
      case DowntimeFloor => 10
      case CniDelay => 11
      case Multifd => 12
      case Level => 13
      case Format => 14
  }

  /** The flags come in strictly growing places from `lo` up to `hi`. */
  ghost predicate Ranked(fs: seq<Flag>, lo: nat, hi: nat)
  {
    && (forall i | 0 <= i < |fs| :: lo <= Rank(fs[i]) < hi)
    && (forall i, j | 0 <= i < j < |fs| :: Rank(fs[i]) < Rank(fs[j]))
  }

  lemma RankedCat(a: seq<Flag>, b: seq<Flag>, lo: nat, mid: nat, hi: nat)
    requires lo <= mid <= hi && Ranked(a, lo, mid) && Ranked(b, mid, hi)
    ensures Ranked(a + b, lo, hi)
  {
  }

  lemma OneRanked(wanted: bool, f: Flag, n: nat)
    requires Rank(f) == n
    ensures Ranked(When(wanted, [f]), n, n + 1)
  {
  }

  lemma PodRanked(name: SettingName, ns: SettingName, pod: Option<PodRef>, n: nat)
    requires forall v :: Rank(Setting(name, v)) == n && Rank(Setting(ns, v)) == n + 1
    ensures Ranked(PodFlags(name, ns, pod), n, n + 2)
  {
  }

  lemma ThreeRanked(a: seq<Flag>, b: seq<Flag>, c: seq<Flag>, p: nat, q: nat, r: nat, t: nat)
    requires p <= q <= r <= t && Ranked(a, p, q) && Ranked(b, q, r) && Ranked(c, r, t)
    ensures Ranked(a + b + c, p, t)
  {
    RankedCat(a, b, p, q, r);
    RankedCat(a + b, c, p, r, t);
  }

  lemma NetworkRanked(req: Request)
    ensures Ranked(NetworkFlags(req), 5, 8)
  {
    OneRanked(req.tapIface != "", Setting(Tap, req.tapIface), 5);
    OneRanked(req.tapNetns != "", Setting(TapNs, req.tapNetns), 6);
    OneRanked(req.tunnelMode != "", Setting(Tunnel, req.tunnelMode), 7);
    ThreeRanked(
      When(req.tapIface != "", [Setting(Tap, req.tapIface)]), When(req.tapNetns != "", [Setting(TapNs, req.tapNetns)]),
      When(req.tunnelMode != "", [Setting(Tunnel, req.tunnelMode)]), 5, 6, 7, 8);
  }

  lemma FiveRanked(a: seq<Flag>, b: seq<Flag>, c: seq<Flag>, d: seq<Flag>, e: seq<Flag>)
    requires Ranked(a, 8, 9) && Ranked(b, 9, 10) && Ranked(c, 10, 11) && Ranked(d, 11, 12) && Ranked(e, 12, 13)
    ensures Ranked(a + b + c + d + e, 8, 13)
  {
    ThreeRanked(a, b, c, 8, 9, 10, 11);
    ThreeRanked(a + b + c, d, e, 8, 11, 12, 13);
  }

  lemma TimingTextsRanked(
    down: bool, downText: string, auto: bool, floored: bool, floor: string, delayed: bool, delay: string,
      channels: string)
    ensures Ranked(
      When(down, [Setting(Downtime, downText)]) + When(auto, [Switch(AutoDowntime)])
      + When(floored, [Setting(DowntimeFloor, floor)]) + When(delayed, [Setting(CniDelay, delay)])
      + [Setting(Multifd, channels)], 8, 13)
  {
    OneRanked(down, Setting(Downtime, downText), 8);
    OneRanked(auto, Switch(AutoDowntime), 9);
    OneRanked(floored, Setting(DowntimeFloor, floor), 10);
    OneRanked(delayed, Setting(CniDelay, delay), 11);
    FiveRanked(When(down, [Setting(Downtime, downText)]), When(auto, [Switch(AutoDowntime)]),
               When(floored, [Setting(DowntimeFloor, floor)]), When(delayed, [Setting(CniDelay, delay)]),
               [Setting(Multifd, channels)]);
  }

  lemma TimingRanked(req: Request)
    ensures Ranked(TimingFlags(req), 8, 13)
  {
    TimingTextsRanked(
      req.downtimeMS > 0, IntText(req.downtimeMS), req.autoDowntime,
      req.autoDowntime && req.autoDowntimeFloorMS > 0, IntText(req.autoDowntimeFloorMS),
      req.cniConvergenceDelaySeconds > 0, IntText(req.cniConvergenceDelaySeconds) + "s", IntText(req.multifdChannels));
  }

  lemma LogRanked(req: Request)
    ensures Ranked(LogFlags(req), 13, 15)
  {
    OneRanked(req.logLevel != "", Setting(Level, req.logLevel), 13);
    OneRanked(req.logFormat != "", Setting(Format, req.logFormat), 14);
    RankedCat(When(req.logLevel != "", [Setting(Level, req.logLevel)]),
              When(req.logFormat != "", [Setting(Format, req.logFormat)]), 13, 14, 15);
  }

  lemma SixRanked(a: seq<Flag>, b: seq<Flag>, c: seq<Flag>, d: seq<Flag>, e: seq<Flag>, f: seq<Flag>)
    requires Ranked(a, 0, 1) && Ranked(b, 1, 3) && Ranked(c, 3, 5) && Ranked(d, 5, 8) && Ranked(e, 8, 13)
      && Ranked(f, 13, 15)
    ensures Ranked(a + b + c + d + e + f, 0, 15)
  {
    ThreeRanked(a, b, c, 0, 1, 3, 5);
    ThreeRanked(a + b + c, d, e, 0, 5, 8, 13);
    RankedCat(a + b + c + d + e, f, 0, 13, 15);
  }

  /** No flag is given twice, and they come in one fixed order. */
  lemma FlagsInOrder(req: Request)
    ensures Ranked(FlagsOf(req), 0, 15)
  {
    OneRanked(req.sharedStorage, Switch(SharedStorage), 0);
    PodRanked(PodName, PodNamespace, req.sourcePod, 1);
    PodRanked(ToPodName, ToPodNamespace, req.destPod, 3);
    NetworkRanked(req);
    TimingRanked(req);
    LogRanked(req);
    SixRanked(When(req.sharedStorage, [Switch(SharedStorage)]), PodFlags(PodName, PodNamespace, req.sourcePod),
              PodFlags(ToPodName, ToPodNamespace, req.destPod), NetworkFlags(req), TimingFlags(req), LogFlags(req));
  }
}
