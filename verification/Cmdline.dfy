/** Command-line replay: the source QEMU's arguments are captured, shipped as text, read back on
    the destination and rewritten so that QEMU can start there with `-incoming defer`. */
module Cmdline {
  import opened Text

  // ---------------------------------------------------------------- file-descriptor keys

  function Key(part: string): string
  {
    if part == [] || part[0] == '=' then [] else [part[0]] + Key(part[1..])
  }

  predicate FdKey(k: string)
  {
    k == "fd" || k == "fds" || k == "vhostfd" || k == "vhostfds"
  }

  /** The part names a descriptor inherited from the old parent process. */
  predicate Inherited(part: string) { FdKey(Key(part)) }

  function Keep(parts: seq<string>): (kept: seq<string>)
    ensures forall p | p in kept :: p in parts && !Inherited(p)
    ensures |kept| <= |parts|
  {
    if parts == [] then []
    else
      var last := parts[|parts| - 1];
      Keep(parts[..|parts| - 1]) + (if Inherited(last) then [] else [last])
  }

  /** The early return of stripFDKeys is taken unless one of these texts occurs. */
  predicate MentionsFd(v: string)
  {
    Contains(v, "fd=") || Contains(v, "fds=")
  }

  function StripFD(v: string): string
  {
    if MentionsFd(v) then Join(Keep(Split(v, ',')), ",") else v
  }

  /** `out := parts[:0]`: the filter writes into the array it reads from. */
  method CompactInPlace(parts: array<string>) returns (n: nat)
    modifies parts
    ensures n <= parts.Length
    ensures parts[..n] == Keep(old(parts[..]))
  {
    ghost var all := parts[..];
    n := 0;
    for i := 0 to parts.Length
      invariant n <= i
      invariant parts[..n] == Keep(all[..i])
      invariant forall k | i <= k < parts.Length :: parts[k] == all[k]
    {
      var p := parts[i];
      KeepSnoc(all, i);
      if FdKey(Key(p)) {
        continue;
      }
      parts[n] := p;
      n := n + 1;
      assert parts[..n] == parts[..n - 1] + [p];
    }
    assert all[..parts.Length] == all;
  }

  lemma KeepSnoc(all: seq<string>, i: nat)
    requires i < |all|
    ensures Keep(all[..i + 1]) == Keep(all[..i]) + (if Inherited(all[i]) then [] else [all[i]])
  {
    assert all[..i + 1][..i] == all[..i];
  }

  method StripFDKeys(v: string) returns (r: string)
    ensures r == StripFD(v)
  {
    if !Contains(v, "fd=") && !Contains(v, "fds=") {
      return v;
    }
    var split := Split(v, ',');
    var parts := new string[|split|](i requires 0 <= i < |split| => split[i]);
    assert parts[..] == split;
    var n := CompactInPlace(parts);
    r := Join(parts[..n], ",");
  }

  lemma {:induction false} KeepAll(parts: seq<string>)
    requires forall p | p in parts :: !Inherited(p)
    ensures Keep(parts) == parts
  {
    if parts != [] {
      var n := |parts| - 1;
      var init, last := parts[..n], parts[n];
      assert last in parts && forall p | p in init :: p in parts;
      KeepAll(init);
      assert parts == init + [last];
    }
  }

  lemma JoinKeepSplits(parts: seq<string>)
    requires forall p | p in parts :: ',' !in p
    ensures Keep(parts) != [] ==> Split(Join(Keep(parts), ","), ',') == Keep(parts)
  {
    if Keep(parts) != [] {
      SplitOfJoin(Keep(parts), ',');
    }
  }

  lemma KeepOfNothing()
    ensures Keep([""]) == [""]
  {
    assert [""][..0] == [];
    assert !Inherited("");
  }

  lemma UnchangedMeansKept(v: string)
    requires v == Join(Keep(Split(v, ',')), ",")
    ensures Keep(Split(v, ',')) == Split(v, ',')
  {
    var parts := Split(v, ',');
    if Keep(parts) == [] {
      KeepOfNothing();
    } else {
      JoinKeepSplits(parts);
    }
  }

  /** The result is the value with its inherited parts filtered out exactly when the early
      return is not taken or there is nothing to filter: a bare `fd` part survives when no
      `fd=` occurs anywhere, and goes when one does. */
  lemma StripIsFilterExactly(v: string)
    ensures StripFD(v) == Join(Keep(Split(v, ',')), ",")
            <==> MentionsFd(v) || forall p | p in Split(v, ',') :: !Inherited(p)
  {
    var parts := Split(v, ',');
    if !MentionsFd(v) {
      if StripFD(v) == Join(Keep(parts), ",") {
        UnchangedMeansKept(v);
      }
      if forall p | p in parts :: !Inherited(p) {
        KeepAll(parts);
        JoinOfSplit(v, ',');
      }
    }
  }

  /** Once an `fd=` was seen, no inherited part is left. */
  lemma StrippedHasNoFd(v: string)
    requires MentionsFd(v)
    ensures NoFd(StripFD(v))
  {
    var kept := Keep(Split(v, ','));
    if kept == [] {
      assert Split([], ',') == [[]];
      assert !Inherited([]);
    } else {
      JoinKeepSplits(Split(v, ','));
    }
  }

  // ---------------------------------------------------------------- rewriting the arguments

  /** What moves from the source sandbox to the destination sandbox; empty texts switch the
      corresponding substitution off. */
  datatype Moves = Moves(srcDir: string, dstDir: string, srcID: string, dstID: string, srcNvdimm: string,
    dstNvdimm: string)

  function Substitute(a: string, from: string, to: string): string
  {
    if from != "" && to != "" && Contains(a, from) then ReplaceAll(a, from, to) else a
  }

  /** The test in front of each replacement only saves work. */
  lemma SubstituteReplaces(a: string, from: string, to: string)
    requires from != "" && to != ""
    ensures Substitute(a, from, to) == ReplaceAll(a, from, to)
  {
    if !Contains(a, from) { ReplaceAllAbsent(a, from, to); }
  }

  /** Two texts removed wherever they match, left to right. */
  function DropMarks(a: string, x: string, y: string): string
    requires x != [] && y != []
    decreases |a|
  {
    if a == [] then []
    else if x <= a then DropMarks(a[|x|..], x, y)
    else if y <= a then DropMarks(a[|y|..], x, y)
    else [a[0]] + DropMarks(a[1..], x, y)
  }

  const ReadonlyText := "readonly="
  const ReadonlyOn := ",readonly=on"
  const ReadonlyTrue := ",readonly=true"

  /** `,readonly=(?:on|true)` removed wherever it matches. */
  function DropReadonly(a: string): string
  {
    DropMarks(a, ReadonlyOn, ReadonlyTrue)
  }

  const SandboxText := "sandbox-"

  function Relocate(a: string, m: Moves): string
  {
    var a1 := Substitute(a, m.srcDir, m.dstDir);
    var a2 := if m.srcID != "" && m.dstID != "" then Substitute(a1, SandboxText + m.srcID, SandboxText + m.dstID)
      else a1;
    var a3 := Substitute(a2, m.srcNvdimm, m.dstNvdimm);
    if Contains(a3, ReadonlyText) then DropReadonly(a3) else a3
  }

  const IfnameText := "ifname="
  const ScriptText := "script="
  const NameDefault := ",ifname=tap0_kata"
  const ScriptDefault := ",script=no,downscript=no"

  predicate IsTap(v: string) { "tap," <= v || v == "tap" }

  function NetdevValue(v: string): string
  {
    var next := StripFD(v);
    if !IsTap(next) then next
    else
      var named := if Contains(next, IfnameText) then next else next + NameDefault;
      if Contains(named, ScriptText) then named else named + ScriptDefault
  }

  datatype Word = Daemonize | Incoming | Qmp | Netdev | Device | Other

  function Classify(a: string): Word
  {
    if a == "-daemonize" then Daemonize
    else if a == "-incoming" then Incoming
    else if a == "-qmp" then Qmp
    else if a == "-netdev" then Netdev
    else if a == "-device" then Device
    else Other
  }

  predicate Inherits(value: string) { Contains(value, "fd=") }

  // Phase one: cut the arguments into units. Phase two: render each unit on its own.

  datatype Unit =
    | Dropped(words: seq<string>)
    | Bare(flag: string)
    | NetdevPair(flag: string, value: string)
    | DevicePair(flag: string, value: string)
    | Free(word: string)

  function FirstUnit(args: seq<string>): (u: Unit)
    requires args != []
    ensures 1 <= |Original(u)| <= |args| && Original(u) == args[..|Original(u)|]
  {
    var a := args[0];
    var pair := |args| >= 2;
    match Classify(a)
    case Daemonize => Dropped(args[..1])
    case Incoming => Dropped(if pair then args[..2] else args[..1])
    case Qmp => if pair && Inherits(args[1]) then Dropped(args[..2]) else Bare(a)
    case Netdev => if pair then NetdevPair(a, args[1]) else Dropped(args[..1])
    case Device => if pair then DevicePair(a, args[1]) else Dropped(args[..1])
    case Other => Free(a)
  }

  function Original(u: Unit): seq<string>
  {
    match u
    case Dropped(words) => words
    case Bare(flag) => [flag]
    case NetdevPair(flag, value) => [flag, value]
    case DevicePair(flag, value) => [flag, value]
    case Free(word) => [word]
  }

  function Rendered(u: Unit, m: Moves): seq<string>
  {
    match u
    case Dropped(_) => []
    case Bare(flag) => [flag]
    case NetdevPair(flag, value) => [flag, NetdevValue(value)]
    case DevicePair(flag, value) => [flag, StripFD(value)]
    case Free(word) => [Relocate(word, m)]
  }

  function Units(args: seq<string>): (us: seq<Unit>)
    decreases |args|
  {
    if args == [] then []
    else
      var u := FirstUnit(args);
      [u] + Units(args[|Original(u)|..])
  }

  function OriginalAll(us: seq<Unit>): seq<string>
  {
    if us == [] then [] else Original(us[0]) + OriginalAll(us[1..])
  }

  function RenderedAll(us: seq<Unit>, m: Moves): seq<string>
  {
    if us == [] then [] else Rendered(us[0], m) + RenderedAll(us[1..], m)
  }

  /** Cutting loses nothing and keeps the order. */
  lemma {:induction false} UnitsCoverArguments(args: seq<string>)
    ensures OriginalAll(Units(args)) == args
    decreases |args|
  {
    if args != [] {
      var u := FirstUnit(args);
      var n := |Original(u)|;
      UnitsCoverArguments(args[n..]);
      CoverOneMore(args, n, u, Units(args[n..]));
    }
  }

  lemma CoverOneMore(args: seq<string>, n: nat, u: Unit, us: seq<Unit>)
    requires n <= |args| && Original(u) == args[..n] && OriginalAll(us) == args[n..]
    ensures OriginalAll([u] + us) == args
  {
    assert ([u] + us)[1..] == us;
    assert args == args[..n] + args[n..];
  }

  lemma RenderFirst(args: seq<string>, m: Moves)
    requires args != []
    ensures var u := FirstUnit(args);
            RenderedAll(Units(args), m) == Rendered(u, m) + RenderedAll(Units(args[|Original(u)|..]), m)
  {
    var u := FirstUnit(args);
    assert ([u] + Units(args[|Original(u)|..]))[1..] == Units(args[|Original(u)|..]);
  }

  /** The loop's progress: everything rendered so far plus what the rest will render. */
  ghost predicate OnTrack(goal: seq<string>, out: seq<string>, rest: seq<string>, m: Moves)
  {
    goal == out + RenderedAll(Units(rest), m)
  }

  lemma Advance(goal: seq<string>, out: seq<string>, rest: seq<string>, m: Moves)
    requires OnTrack(goal, out, rest, m) && rest != []
    ensures var u := FirstUnit(rest);
            OnTrack(goal, out + Rendered(u, m), rest[|Original(u)|..], m)
  {
    var u := FirstUnit(rest);
    RenderFirst(rest, m);
    Assoc(out, Rendered(u, m), RenderedAll(Units(rest[|Original(u)|..]), m));
  }

  /** The unread arguments at index `i`, given the skip flag. */
  function Rest(args: seq<string>, i: nat, skip: bool): seq<string>
  {
    var k := if skip then i + 1 else i;
    if k >= |args| then [] else args[k..]
  }

  lemma RestIs(args: seq<string>, i: nat)
    requires i <= |args|
    ensures Rest(args, i, false) == args[i..]
    ensures i < |args| ==> Rest(args, i, true) == Rest(args, i + 1, false)
    ensures i == |args| ==> Rest(args, i, true) == [] && Rest(args, i, false) == []
  {
  }

  /** What one turn of the loop appends, and whether it skips the next argument. */
  function Turn(args: seq<string>, i: nat, m: Moves): (seq<string>, bool)
    requires i < |args|
  {
    var a := args[i];
    var more := i + 1 < |args|;
    match Classify(a)
    case Daemonize => ([], false)
    case Incoming => ([], true)
    case Qmp => if more && Inherits(args[i + 1]) then ([], true) else ([a], false)
    case Netdev => (if more then [a, NetdevValue(args[i + 1])] else [], true)
    case Device => (if more then [a, StripFD(args[i + 1])] else [], true)
    case Other => ([Relocate(a, m)], false)
  }

  lemma TurnIsUnit(args: seq<string>, i: nat, m: Moves)
    requires i < |args|
    ensures var u := FirstUnit(args[i..]);
            && Turn(args, i, m).0 == Rendered(u, m)
            && Rest(args, i + 1, Turn(args, i, m).1) == args[i..][|Original(u)|..]
  {
    var rest := args[i..];
    assert rest[0] == args[i] && (|rest| >= 2 ==> rest[1] == args[i + 1]);
    assert rest[1..] == args[i + 1..];
    if |rest| >= 2 { assert rest[2..] == args[i + 2..]; }
  }

  /** One turn of transformCmdline's loop at an argument that is not skipped. */
  method RewriteOne(args: seq<string>, i: nat, m: Moves, before: seq<string>) returns (out: seq<string>, skipNext: bool)
    requires i < |args|
    ensures out == before + Turn(args, i, m).0 && skipNext == Turn(args, i, m).1
    ensures forall goal | OnTrack(goal, before, args[i..], m) :: OnTrack(goal, out, Rest(args, i + 1, skipNext), m)
  {
    var a := args[i];
    out, skipNext := before, false;
    match Classify(a) {
      case Daemonize =>
      case Incoming =>
        skipNext := true;
      case Qmp =>
        if i + 1 < |args| && Inherits(args[i + 1]) {
          skipNext := true;
        } else {
          out := out + [a];
        }
      case Netdev =>
        if i + 1 < |args| {
          out := out + [a, NetdevValue(args[i + 1])];
        }
        skipNext := true;
      case Device =>
        if i + 1 < |args| {
          var next := StripFDKeys(args[i + 1]);
          out := out + [a, next];
        }
        skipNext := true;
      case Other =>
        out := out + [Relocate(a, m)];
    }
    TurnKeepsTrack(args, i, m, before);
  }

  lemma TurnKeepsTrack(args: seq<string>, i: nat, m: Moves, before: seq<string>)
    requires i < |args|
    ensures forall goal | OnTrack(goal, before, args[i..], m) ::
              OnTrack(goal, before + Turn(args, i, m).0, Rest(args, i + 1, Turn(args, i, m).1), m)
  {
    TurnIsUnit(args, i, m);
    forall goal | OnTrack(goal, before, args[i..], m)
      ensures OnTrack(goal, before + Turn(args, i, m).0, Rest(args, i + 1, Turn(args, i, m).1), m)
    {
      Advance(goal, before, args[i..], m);
    }
  }

  lemma Finished(goal: seq<string>, out: seq<string>, m: Moves)
    requires OnTrack(goal, out, [], m)
    ensures goal == out
  {
  }

  /** transformCmdline: one pass with a skip flag. It equals the two-phase rendering of the
      units, followed by `-incoming defer`, and fails exactly on an empty command line. */
  method TransformCmdline(args: seq<string>, m: Moves) returns (ok: bool, binary: string, out: seq<string>)
    ensures ok <==> args != []
    ensures ok ==> binary == args[0] && out == RenderedAll(Units(args[1..]), m) + ["-incoming", "defer"]
  {
    if args == [] {
      return false, "", [];
    }
    binary, out := args[0], [];
    var skipNext := false;
    ghost var goal := RenderedAll(Units(args[1..]), m);
    RestIs(args, 1);
    for i := 1 to |args|
      invariant OnTrack(goal, out, Rest(args, i, skipNext), m)
    {
      RestIs(args, i);
      if skipNext {
        skipNext := false;
        continue;
      }
      out, skipNext := RewriteOne(args, i, m, out);
    }
    RestIs(args, |args|);
    Finished(goal, out, m);
    ok := true;
    out := out + ["-incoming", "defer"];
  }

  // ---------------------------------------------------------------- what the rewrite leaves

  /** A part of the value sets this key. */
  ghost predicate HasKey(v: string, key: string)
  {
    exists p | p in Split(v, ',') :: Key(p) == key
  }

  lemma KeysAppend(v: string, part: string, key: string)
    requires ',' !in part
    ensures HasKey(v + [','] + part, key) <==> HasKey(v, key) || Key(part) == key
  {
    SplitCat(v, part, ',');
    SplitOfWhole(part, ',');
    assert part in Split(v + [','] + part, ',');
    assert forall p | p in Split(v, ',') :: p in Split(v + [','] + part, ',');
  }

  lemma SettingKeys(v: string, k: string, value: string, key: string)
    requires '=' !in k && ',' !in k && ',' !in value
    ensures HasKey(v + [','] + (k + "=" + value), key) <==> HasKey(v, key) || k == key
  {
    KeyOf(k, value);
    KeysAppend(v, k + "=" + value, key);
  }

  lemma NameDefaultParts(v: string)
    ensures v + NameDefault == v + [','] + ("ifname" + "=" + "tap0_kata")
  {
  }

  /** The default adds an interface name and no script. */
  lemma NameDefaultKeys(v: string)
    ensures HasKey(v + NameDefault, "ifname")
    ensures HasKey(v + NameDefault, "script") <==> HasKey(v, "script")
  {
    NameDefaultParts(v);
    SettingKeys(v, "ifname", "tap0_kata", "ifname");
    SettingKeys(v, "ifname", "tap0_kata", "script");
  }

  lemma NameDefaultText(v: string)
    ensures Contains(v + NameDefault, ScriptText) <==> Contains(v, ScriptText)
  {
    LetterOfScript();
    AppendText(v, NameDefault, ScriptText, 's');
  }

  lemma LetterOfScript()
    ensures 's' in ScriptText && 's' !in NameDefault && NameDefault[0] !in ScriptText
  {
  }

  /** A text does not come to occur by appending one that lacks one of its characters and starts
      with a character it lacks. */
  lemma AppendText(v: string, more: string, sub: string, c: char)
    requires more != [] && more[0] !in sub && c in sub && c !in more
    ensures Contains(v + more, sub) <==> Contains(v, sub)
  {
    ContainsApart(v, more, sub);
    if Contains(more, sub) {
      ContainsChar(more, sub, c);
      assert false;
    }
  }

  /** The other default adds a script and no interface name. */
  lemma ScriptDefaultKeys(v: string)
    ensures HasKey(v + ScriptDefault, "script")
    ensures HasKey(v + ScriptDefault, "ifname") <==> HasKey(v, "ifname")
  {
    var one := v + [','] + ("script" + "=" + "no");
    ScriptDefaultParts(v);
    SettingKeys(v, "script", "no", "script");
    SettingKeys(v, "script", "no", "ifname");
    SettingKeys(one, "downscript", "no", "script");
    SettingKeys(one, "downscript", "no", "ifname");
  }

  lemma ScriptDefaultParts(v: string)
    ensures v + ScriptDefault == v + [','] + ("script" + "=" + "no") + [','] + ("downscript" + "=" + "no")
  {
  }

  /** A netdev value keeps its stripped value as a prefix, and a value that is not a tap gets
      nothing. A tap value ends up with an interface name exactly if it had one or the text
      `ifname=` did not occur in it, and with a script exactly if it had one or the text `script=`
      did not occur in it. */
  lemma NetdevDefaults(v: string)
    ensures var next, value := StripFD(v), NetdevValue(v);
      && next <= value
      && (!IsTap(next) ==> value == next)
      && (IsTap(next) ==>
            && (HasKey(value, "ifname") <==> HasKey(next, "ifname") || !Contains(next, IfnameText))
            && (HasKey(value, "script") <==> HasKey(next, "script") || !Contains(next, ScriptText)))
  {
    var next := StripFD(v);
    if IsTap(next) {
      var named := if Contains(next, IfnameText) then next else next + NameDefault;
      NameDefaultKeys(next);
      NameDefaultText(next);
      ScriptDefaultKeys(named);
      assert NetdevValue(v) == if Contains(named, ScriptText) then named else named + ScriptDefault;
    }
  }

  /** A tap value with an interface name and a downscript, and no script. */
  function DownscriptOnly(name: string, script: string): string
  {
    "tap" + [','] + ("ifname" + "=" + name) + [','] + ("downscript" + "=" + script)
  }

  /** `downscript=` contains `script=`, so no such value gets a script; the only ones left out are
      those in which `fd=` or `fds=` occurs, which are stripped first. */
  lemma DownscriptPassesForScript(name: string, script: string)
    requires ',' !in name && ',' !in script && !MentionsFd(DownscriptOnly(name, script))
    ensures var v := DownscriptOnly(name, script); IsTap(StripFD(v)) && NetdevValue(v) == v && !HasKey(v, "script")
  {
    var v := DownscriptOnly(name, script);
    DownscriptGuards(name, script);
    DownscriptHasNoScript(name, script);
    assert "tap," <= v;
  }

  lemma DownscriptHasNoScript(name: string, script: string)
    requires ',' !in name && ',' !in script
    ensures !HasKey(DownscriptOnly(name, script), "script")
  {
    var named := "tap" + [','] + ("ifname" + "=" + name);
    TapIsItsKey();
    SettingKeys("tap", "ifname", name, "script");
    SettingKeys(named, "downscript", script, "script");
  }

  lemma TapIsItsKey()
    ensures !HasKey("tap", "script")
  {
    SplitOfWhole("tap", ',');
  }

  lemma DownscriptGuards(name: string, script: string)
    ensures Contains(DownscriptOnly(name, script), IfnameText) && Contains(DownscriptOnly(name, script), ScriptText)
  {
    var v, n := DownscriptOnly(name, script), |name|;
    assert v[4..11] == IfnameText && v[4..][..7] == v[4..11];
    ContainsAt(v, IfnameText, 4);
    assert v[n + 16..n + 23] == ScriptText && v[n + 16..][..7] == v[n + 16..n + 23];
    ContainsAt(v, ScriptText, n + 16);
  }

  lemma {:induction false} SplitCat(a: string, b: string, sep: char)
    ensures Split(a + [sep] + b, sep) == Split(a, sep) + Split(b, sep)
  {
    if a == [] {
      assert a + [sep] + b == [sep] + b;
      assert ([sep] + b)[1..] == b;
    } else {
      assert (a + [sep] + b)[1..] == a[1..] + [sep] + b;
      SplitCat(a[1..], b, sep);
    }
  }

  /** A netdev value that mentioned a descriptor has no inherited part left, defaults included. */
  lemma NetdevHasNoFd(v: string)
    requires MentionsFd(v)
    ensures NoFd(NetdevValue(v))
  {
    StrippedHasNoFd(v);
    var next := StripFD(v);
    if IsTap(next) {
      NameHasNoFd(next);
      ScriptHasNoFd(if Contains(next, IfnameText) then next else next + NameDefault);
    }
  }

  predicate NoFd(v: string)
  {
    forall p | p in Split(v, ',') :: !Inherited(p)
  }

  lemma SettingHasNoFd(v: string, k: string, value: string)
    requires NoFd(v) && '=' !in k && ',' !in k && ',' !in value && !FdKey(k)
    ensures NoFd(v + [','] + (k + "=" + value))
  {
    PlainSetting(k, value);
    NoFdAppend(v, k + "=" + value);
  }

  lemma NameHasNoFd(v: string)
    requires NoFd(v)
    ensures NoFd(v + NameDefault)
  {
    NameDefaultParts(v);
    SettingHasNoFd(v, "ifname", "tap0_kata");
  }

  lemma ScriptHasNoFd(v: string)
    requires NoFd(v)
    ensures NoFd(v + ScriptDefault)
  {
    ScriptDefaultParts(v);
    SettingHasNoFd(v, "script", "no");
    SettingHasNoFd(v + [','] + ("script" + "=" + "no"), "downscript", "no");
  }

  lemma {:induction false} KeyOf(k: string, value: string)
    requires '=' !in k
    ensures Key(k + "=" + value) == k
  {
    if k != [] {
      assert (k + "=" + value)[1..] == k[1..] + "=" + value;
      KeyOf(k[1..], value);
    }
  }

  lemma PlainSetting(k: string, value: string)
    requires '=' !in k && ',' !in k && ',' !in value && !FdKey(k)
    ensures Plain(k + "=" + value)
  {
    KeyOf(k, value);
  }

  /** A single part that is not inherited. */
  predicate Plain(part: string) { ',' !in part && !Inherited(part) }

  lemma NoFdAppend(v: string, part: string)
    requires NoFd(v) && Plain(part)
    ensures NoFd(v + [','] + part)
  {
    SplitCat(v, part, ',');
    SplitOfWhole(part, ',');
  }

  // ---------------------------------------------------------------- capture and read back

  const NUL := '\0'

  function NonEmpty(parts: seq<string>): (r: seq<string>)
    ensures forall p | p in r :: p in parts && p != ""
    ensures forall p | p in parts && p != "" :: p in r
  {
    if parts == [] then []
    else (if parts[0] == "" then [] else [parts[0]]) + NonEmpty(parts[1..])
  }

  function Delimiter(data: string): char
  {
    if NUL in data then NUL else '\n'
  }

  function ParseCmdline(data: string): (args: seq<string>)
  {
    NonEmpty(Split(data, Delimiter(data)))
  }

  /** The filter loop of parseCmdlineBytes. */
  method ParseCmdlineBytes(data: string) returns (out: seq<string>)
    ensures out == ParseCmdline(data)
  {
    var parts := Split(data, Delimiter(data));
    out := [];
    for i := 0 to |parts|
      invariant out + NonEmpty(parts[i..]) == NonEmpty(parts)
    {
      var p := parts[i];
      ghost var here, rest := out, NonEmpty(parts[i + 1..]);
      assert parts[i..][1..] == parts[i + 1..];
      if p == "" {
        continue;
      }
      out := out + [p];
      assert out + rest == here + ([p] + rest);
    }
  }

  /** captureSourceCmdline: the file body, or nothing when the command line is empty. */
  function Capture(raw: string): Option<string>
  {
    var args := ParseCmdline(raw);
    if args == [] then None else Some(Join(args, "\n") + "\n")
  }

  lemma {:induction false} JoinEndsLine(args: seq<string>)
    requires args != []
    ensures Join(args, "\n") + "\n" == Join(args + [""], "\n")
  {
    if |args| == 1 {
      assert (args + [""])[1..] == [""];
      assert args[0] + "\n" + "" == args[0] + "\n";
    } else {
      JoinEndsLine(args[1..]);
      assert (args + [""])[1..] == args[1..] + [""];
      assert (args + [""])[0] == args[0];
      Assoc(args[0] + "\n", Join(args[1..], "\n"), "\n");
    }
  }

  lemma {:induction false} NonEmptyOf(args: seq<string>)
    requires "" !in args
    ensures NonEmpty(args + [""]) == args
  {
    if args == [] {
      assert [""][1..] == [];
    } else {
      assert (args + [""])[1..] == args[1..] + [""];
      NonEmptyOf(args[1..]);
      assert args == [args[0]] + args[1..];
    }
  }

  lemma {:induction false} CharsOfJoin(args: seq<string>, c: char)
    requires c != '\n' && forall a | a in args :: c !in a
    ensures c !in Join(args, "\n")
  {
    if |args| > 1 { CharsOfJoin(args[1..], c); }
  }

  lemma {:induction false} CharInSomePart(s: string, c: char, sep: char)
    requires c in s && c != sep
    ensures exists p :: p in Split(s, sep) && c in p
  {
    var rest := Split(s[1..], sep);
    if s[0] == c {
      assert ([c] + rest[0]) in Split(s, sep);
    } else {
      CharInSomePart(s[1..], c, sep);
      var p :| p in rest && c in p;
      if s[0] == sep {
        assert p in [[]] + rest;
      } else if p == rest[0] {
        assert ([s[0]] + rest[0]) in Split(s, sep);
      } else {
        assert p in rest[1..];
      }
    }
  }

  lemma PartsLackNul(raw: string)
    ensures forall a | a in ParseCmdline(raw) :: NUL !in a
  {
    if NUL !in raw {
      JoinOfSplit(raw, '\n');
      forall a | a in Split(raw, '\n') ensures NUL !in a {
        PartIsInside(raw, '\n', a);
      }
    }
  }

  lemma {:induction false} PartIsInside(s: string, sep: char, p: string)
    requires p in Split(s, sep)
    ensures forall c | c in p :: c in s
  {
    if s != [] {
      var rest := Split(s[1..], sep);
      if s[0] == sep {
        if p != [] { PartIsInside(s[1..], sep, p); }
      } else if p == [s[0]] + rest[0] {
        PartIsInside(s[1..], sep, rest[0]);
      } else {
        assert p in rest[1..];
        PartIsInside(s[1..], sep, p);
      }
    }
  }

  /** Reading back what was captured gives the parsed arguments exactly when the raw command
      line does not hold both a NUL and a newline. */
  lemma CaptureRoundTripsExactly(raw: string)
    requires Capture(raw).Some?
    ensures ParseCmdline(Capture(raw).value) == ParseCmdline(raw) <==> !(NUL in raw && '\n' in raw)
  {
    var args, body := ParseCmdline(raw), Capture(raw).value;
    JoinEndsLine(args);
    PartsLackNul(raw);
    CharsOfJoin(args, NUL);
    assert NUL !in body && Delimiter(body) == '\n';
    if NUL in raw && '\n' in raw {
      CharInSomePart(raw, '\n', NUL);
      var p :| p in Split(raw, NUL) && '\n' in p;
      assert p in args;
      assert p !in ParseCmdline(body);
    } else {
      ArgsAreLines(raw);
      SplitOfJoin(args + [""], '\n');
      NonEmptyOf(args);
    }
  }

  lemma ArgsAreLines(raw: string)
    requires !(NUL in raw && '\n' in raw)
    ensures forall a | a in ParseCmdline(raw) :: '\n' !in a
  {
    forall a | a in ParseCmdline(raw) ensures '\n' !in a {
      PartIsInside(raw, Delimiter(raw), a);
    }
  }
}
