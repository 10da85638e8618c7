/** What the command-line rewriting of `Cmdline` computes, said without it: how every argument list
    is rendered, flag by flag; how every free argument is relocated; which parts a device value
    loses and gains; and the kernel's format of a process's arguments. */
module CmdlineLaws {
  import opened Text
  import opened Cmdline

  // ---------------------------------------------------------------- replacing a text

  /** In `t` followed by `sub`, `sub` starts nowhere before the end of `t`. */
  ghost predicate FirstAtEnd(t: string, sub: string)
  {
    forall p | 0 <= p < |t| :: !(sub <= (t + sub)[p..])
  }

  /** The texts are what is left of a whole cut at the successive first places of `sub`. */
  ghost predicate CleanCut(ts: seq<string>, sub: string)
  {
    && ts != []
    && (forall i | 0 <= i < |ts| - 1 :: FirstAtEnd(ts[i], sub))
    && !Contains(ts[|ts| - 1], sub)
  }

  lemma SameStart(sub: string, t: string, rest: string)
    requires t != []
    ensures sub <= t + (sub + rest) <==> sub <= t + sub
  {
    assert (t + (sub + rest))[..|sub|] == (t + sub)[..|sub|];
  }

  lemma FirstAtEndTail(t: string, sub: string)
    requires t != [] && FirstAtEnd(t, sub)
    ensures FirstAtEnd(t[1..], sub) && !(sub <= t + sub)
  {
    assert (t + sub)[0..] == t + sub;
    forall p | 0 <= p < |t| - 1 ensures !(sub <= (t[1..] + sub)[p..]) {
      assert (t[1..] + sub)[p..] == (t + sub)[p + 1..];
    }
  }

  lemma {:induction false} ReplaceFirst(t: string, sub: string, rest: string, new_: string)
    requires sub != [] && FirstAtEnd(t, sub)
    ensures ReplaceAll(t + (sub + rest), sub, new_) == t + (new_ + ReplaceAll(rest, sub, new_))
  {
    var all := t + (sub + rest);
    if t == [] {
      assert all == sub + rest && all[|sub|..] == rest;
    } else {
      FirstAtEndTail(t, sub);
      SameStart(sub, t, rest);
      ReplaceFirst(t[1..], sub, rest, new_);
      assert all[1..] == t[1..] + (sub + rest) && all[0] == t[0];
      Assoc([t[0]], t[1..], new_ + ReplaceAll(rest, sub, new_));
      assert [t[0]] + t[1..] == t;
    }
  }

  /** A whole cut at a text comes out of its replacement joined by the new text. */
  lemma {:induction false} ReplaceJoins(ts: seq<string>, sub: string, new_: string)
    requires sub != [] && CleanCut(ts, sub)
    ensures ReplaceAll(Join(ts, sub), sub, new_) == Join(ts, new_)
  {
    if |ts| == 1 {
      ReplaceAllAbsent(ts[0], sub, new_);
    } else {
      assert FirstAtEnd(ts[0], sub);
      CutTail(ts, sub);
      ReplaceJoins(ts[1..], sub, new_);
      ReplaceFirst(ts[0], sub, Join(ts[1..], sub), new_);
      Assoc(ts[0], sub, Join(ts[1..], sub));
      Assoc(ts[0], new_, Join(ts[1..], new_));
    }
  }

  lemma CutTail(ts: seq<string>, sub: string)
    requires |ts| > 1 && CleanCut(ts, sub)
    ensures CleanCut(ts[1..], sub)
  {
    assert forall i | 0 <= i < |ts| - 1 :: ts[1..][i] == ts[i + 1];
  }

  /** Every text is cut cleanly in some way. */
  lemma {:induction false} CutOf(s: string, sub: string) returns (ts: seq<string>)
    requires sub != []
    ensures CleanCut(ts, sub) && Join(ts, sub) == s
    decreases |s|
  {
    if s == [] {
      ts := [[]];
    } else if sub <= s {
      var us := CutOf(s[|sub|..], sub);
      ts := [[]] + us;
      CutCons([], us, sub);
      assert s == sub + s[|sub|..];
      assert [] + sub == sub;
    } else {
      var us := CutOf(s[1..], sub);
      ts := [[s[0]] + us[0]] + us[1..];
      CutGrows(s, us, sub);
    }
  }

  lemma CutCons(t: string, us: seq<string>, sub: string)
    requires CleanCut(us, sub) && FirstAtEnd(t, sub)
    ensures CleanCut([t] + us, sub) && Join([t] + us, sub) == t + sub + Join(us, sub)
  {
    var ts := [t] + us;
    assert ts[1..] == us;
    assert forall i | 0 < i < |ts| :: ts[i] == us[i - 1];
  }

  lemma CutGrows(s: string, us: seq<string>, sub: string)
    requires s != [] && sub != [] && !(sub <= s) && CleanCut(us, sub) && Join(us, sub) == s[1..]
    ensures var ts := [[s[0]] + us[0]] + us[1..]; CleanCut(ts, sub) && Join(ts, sub) == s
  {
    var first := [s[0]] + us[0];
    if |us| == 1 {
      assert [first] + us[1..] == [first] && first == s;
      assert s[1..] == us[0];
    } else {
      CutTail(us, sub);
      var rest := Join(us[1..], sub);
      Assoc(us[0], sub, rest);
      assert s == first + (sub + rest);
      SameStart(sub, first, rest);
      FirstGrows(s[0], us[0], sub);
      CutCons(first, us[1..], sub);
      Assoc(first, sub, rest);
    }
  }

  lemma FirstGrows(c: char, t: string, sub: string)
    requires FirstAtEnd(t, sub) && !(sub <= [c] + t + sub)
    ensures FirstAtEnd([c] + t, sub)
  {
    var all := [c] + t + sub;
    forall p | 0 <= p < |t| + 1 ensures !(sub <= all[p..]) {
      if p == 0 {
        assert all[0..] == all;
      } else {
        assert all[p..] == (t + sub)[p - 1..];
      }
    }
  }

  /** Two ways of cutting that give the same wholes with two different separators are one. */
  lemma {:induction false} SameJoins(us: seq<string>, ts: seq<string>, x: char, y: char)
    requires us != [] && ts != [] && x != y
    requires Join(us, [x]) == Join(ts, [x]) && Join(us, [y]) == Join(ts, [y])
    ensures us == ts
  {
    JoinStarts(us, ts, x, y);
    JoinStarts(ts, us, x, y);
    if |us| > 1 && |ts| > 1 {
      JoinRest(us, ts, x);
      JoinRest(us, ts, y);
      SameJoins(us[1..], ts[1..], x, y);
    }
    assert us == [us[0]] + us[1..] && ts == [ts[0]] + ts[1..];
  }

  lemma JoinBegins(us: seq<string>, x: char)
    requires us != []
    ensures us[0] <= Join(us, [x])
    ensures |us| == 1 ==> Join(us, [x]) == us[0]
    ensures |us| > 1 ==> |Join(us, [x])| > |us[0]| && Join(us, [x])[|us[0]|] == x
  {
  }

  lemma NotShorter(u: string, t: string, a: string, b: string, x: char, y: char)
    requires x != y && u <= a && u <= b && t <= a && t <= b
    requires a == u || (|a| > |u| && |b| > |u| && a[|u|] == x && b[|u|] == y)
    ensures |u| >= |t|
  {
    if |u| < |t| {
      SameNext(u, t, a, b);
    }
  }

  lemma SameNext(u: string, t: string, a: string, b: string)
    requires u <= a && u <= b && t <= a && t <= b && |u| < |t|
    ensures a != u && |a| > |u| && |b| > |u| && a[|u|] == b[|u|]
  {
    assert a[|u|] == t[|u|] == b[|u|];
  }

  lemma JoinStarts(us: seq<string>, ts: seq<string>, x: char, y: char)
    requires us != [] && ts != [] && x != y
    requires Join(us, [x]) == Join(ts, [x]) && Join(us, [y]) == Join(ts, [y])
    ensures |us[0]| >= |ts[0]| && (|us[0]| == |ts[0]| ==> us[0] == ts[0])
    ensures |us| == 1 && |us[0]| == |ts[0]| ==> |ts| == 1
  {
    var a, b := Join(us, [x]), Join(us, [y]);
    JoinBegins(us, x);
    JoinBegins(us, y);
    JoinBegins(ts, x);
    JoinBegins(ts, y);
    NotShorter(us[0], ts[0], a, b, x, y);
  }

  lemma JoinRest(us: seq<string>, ts: seq<string>, x: char)
    requires |us| > 1 && |ts| > 1 && us[0] == ts[0] && Join(us, [x]) == Join(ts, [x])
    ensures Join(us[1..], [x]) == Join(ts[1..], [x])
  {
    var n := |us[0]| + 1;
    assert Join(us, [x])[n..] == Join(us[1..], [x]);
    assert Join(ts, [x])[n..] == Join(ts[1..], [x]);
  }

  lemma ReplacedByJoinIsCut(ts: seq<string>, sub: string, x: char, y: char)
    requires ts != [] && sub != [] && x != y
    requires ReplaceAll(Join(ts, sub), sub, [x]) == Join(ts, [x])
      && ReplaceAll(Join(ts, sub), sub, [y]) == Join(ts, [y])
    ensures CleanCut(ts, sub)
  {
    var us := CutOf(Join(ts, sub), sub);
    ReplaceJoins(us, sub, [x]);
    ReplaceJoins(us, sub, [y]);
    SameJoins(us, ts, x, y);
  }

  /** Whatever the new text, the replacement of the old one joins the texts by it. */
  ghost predicate JoinsAlways(ts: seq<string>, sub: string)
    requires sub != []
  {
    forall new_: string | new_ != [] :: ReplaceAll(Join(ts, sub), sub, new_) == Join(ts, new_)
  }

  /** Texts joined by one text come out of its replacement joined by the other, whatever the other is,
      exactly if they are a clean cut. */
  lemma ReplacedByJoinExactly(ts: seq<string>, sub: string)
    requires ts != [] && sub != []
    ensures CleanCut(ts, sub) <==> JoinsAlways(ts, sub)
  {
    if CleanCut(ts, sub) {
      forall new_: string | new_ != [] ensures ReplaceAll(Join(ts, sub), sub, new_) == Join(ts, new_) {
        ReplaceJoins(ts, sub, new_);
      }
    }
    if JoinsAlways(ts, sub) {
      JoinsBy(ts, sub, ['x']);
      JoinsBy(ts, sub, ['y']);
      ReplacedByJoinIsCut(ts, sub, 'x', 'y');
    }
  }

  lemma JoinsBy(ts: seq<string>, sub: string, new_: string)
    requires sub != [] && JoinsAlways(ts, sub) && new_ != []
    ensures ReplaceAll(Join(ts, sub), sub, new_) == Join(ts, new_)
  {
  }

  /** That the texts do not hold the replaced one is not enough: it may start in one of them. */
  lemma OverlapShifts(c: char, d: char)
    requires c != d
    ensures !Contains([c], [c, c]) && !Contains([], [c, c])
    ensures ReplaceAll(Join([[c], []], [c, c]), [c, c], [d]) == [d, c] && Join([[c], []], [d]) == [c, d]
  {
    var sub, s: string := [c, c], [c, c, c];
    assert [[c], []][1..] == [[]];
    assert Join([[c], []], sub) == s && Join([[c], []], [d]) == [c, d];
    assert sub <= s && s[2..] == [c];
    assert !(sub <= [c]) && [c][1..] == [];
    assert ReplaceAll([c], sub, [d]) == [c] + ReplaceAll([], sub, [d]);
    assert ReplaceAll(s, sub, [d]) == [d] + ReplaceAll(s[2..], sub, [d]);
  }

  // ---------------------------------------------------------------- relocating an argument

  const Off := Moves("", "", "", "", "", "")

  /** A free argument, cut at the source directory, goes on as the same texts joined by the
      destination directory. */
  lemma DirMoves(ts: seq<string>, m: Moves)
    requires m.srcDir != "" && m.dstDir != "" && CleanCut(ts, m.srcDir)
    ensures Relocate(Join(ts, m.srcDir), m) == Relocate(Join(ts, m.dstDir), m.(srcDir := ""))
  {
    SubstituteReplaces(Join(ts, m.srcDir), m.srcDir, m.dstDir);
    ReplaceJoins(ts, m.srcDir, m.dstDir);
  }

  /** With no directory to move, cut at the source sandbox's name, joined by the destination's. */
  lemma SandboxMoves(ts: seq<string>, m: Moves)
    requires (m.srcDir == "" || m.dstDir == "") && m.srcID != "" && m.dstID != ""
    requires CleanCut(ts, "sandbox-" + m.srcID)
    ensures Relocate(Join(ts, "sandbox-" + m.srcID), m) == Relocate(Join(ts, "sandbox-" + m.dstID), m.(srcID := ""))
  {
    var from, to := "sandbox-" + m.srcID, "sandbox-" + m.dstID;
    SubstituteReplaces(Join(ts, from), from, to);
    ReplaceJoins(ts, from, to);
  }

  /** With neither to move, cut at the source image's path, joined by the destination's. */
  lemma NvdimmMoves(ts: seq<string>, m: Moves)
    requires (m.srcDir == "" || m.dstDir == "") && (m.srcID == "" || m.dstID == "")
    requires m.srcNvdimm != "" && m.dstNvdimm != "" && CleanCut(ts, m.srcNvdimm)
    ensures Relocate(Join(ts, m.srcNvdimm), m) == Relocate(Join(ts, m.dstNvdimm), m.(srcNvdimm := ""))
  {
    SubstituteReplaces(Join(ts, m.srcNvdimm), m.srcNvdimm, m.dstNvdimm);
    ReplaceJoins(ts, m.srcNvdimm, m.dstNvdimm);
  }

  /** Nothing to move: one half of each pair is missing. */
  predicate AtRest(m: Moves)
  {
    (m.srcDir == "" || m.dstDir == "") && (m.srcID == "" || m.dstID == "") && (m.srcNvdimm == "" || m.dstNvdimm == "")
  }

  /** Texts with marks between them. */
  function Woven(ts: seq<string>, marks: seq<string>): string
    requires |ts| == |marks| + 1
  {
    if marks == [] then ts[0] else ts[0] + (marks[0] + Woven(ts[1..], marks[1..]))
  }

  function Concat(ts: seq<string>): string
  {
    if ts == [] then [] else ts[0] + Concat(ts[1..])
  }

  /** Marks that start with a character found nowhere else in them. */
  predicate Marks(x: string, y: string, c: char)
  {
    && x != [] && y != [] && x[0] == c && y[0] == c && c !in x[1..] && c !in y[1..]
    && !(x <= y) && !(y <= x)
  }

  ghost predicate MarkFree(t: string, x: string, y: string)
  {
    !Contains(t, x) && !Contains(t, y)
  }

  lemma MarkHits(x: string, c: char, t: string, rest: string)
    requires x <= t + rest && |x| > |t| >= 1 && rest != [] && rest[0] == c
    ensures c in x[1..]
  {
    assert x[|t|] == (t + rest)[|t|] == c;
    assert x[1..][|t| - 1] == c;
  }

  lemma MarkStays(x: string, c: char, t: string, rest: string)
    requires x != [] && x[0] == c && c !in x[1..] && t != [] && (rest == [] || rest[0] == c)
    ensures x <= t + rest <==> x <= t
  {
    if x <= t + rest && |x| > |t| {
      MarkHits(x, c, t, rest);
      assert false;
    }
    if |x| <= |t| {
      assert (t + rest)[..|x|] == t[..|x|];
    }
  }

  lemma {:induction false} DropText(t: string, x: string, y: string, c: char, rest: string)
    requires Marks(x, y, c) && MarkFree(t, x, y) && (rest == [] || rest[0] == c)
    ensures DropMarks(t + rest, x, y) == t + DropMarks(rest, x, y)
  {
    if t == [] {
      assert t + rest == rest;
    } else {
      MarkStays(x, c, t, rest);
      MarkStays(y, c, t, rest);
      DropText(t[1..], x, y, c, rest);
      assert (t + rest)[1..] == t[1..] + rest;
      assert [t[0]] + (t[1..] + DropMarks(rest, x, y)) == t + DropMarks(rest, x, y);
    }
  }

  lemma PrefixOfCat(x: string, y: string, rest: string)
    requires x <= y + rest
    ensures x <= y || y <= x
  {
    if |x| <= |y| {
      assert x == (y + rest)[..|x|] == y[..|x|];
    } else {
      assert y == (y + rest)[..|y|] == x[..|y|];
    }
  }

  lemma DropMark(mark: string, x: string, y: string, c: char, rest: string)
    requires Marks(x, y, c) && (mark == x || mark == y)
    ensures DropMarks(mark + rest, x, y) == DropMarks(rest, x, y)
  {
    var all := mark + rest;
    assert all[..|mark|] == mark && all[|mark|..] == rest;
    if mark == y && x <= all {
      PrefixOfCat(x, y, rest);
      assert false;
    }
  }

  lemma {:induction false} DropWoven(ts: seq<string>, marks: seq<string>, x: string, y: string, c: char)
    requires |ts| == |marks| + 1 && Marks(x, y, c)
    requires (forall i | 0 <= i < |ts| :: MarkFree(ts[i], x, y))
      && (forall i | 0 <= i < |marks| :: marks[i] == x || marks[i] == y)
    ensures DropMarks(Woven(ts, marks), x, y) == Concat(ts)
  {
    if marks == [] {
      DropText(ts[0], x, y, c, []);
      assert ts[0] + [] == ts[0] && ts[1..] == [];
    } else {
      var rest := Woven(ts[1..], marks[1..]);
      DropWoven(ts[1..], marks[1..], x, y, c);
      DropText(ts[0], x, y, c, marks[0] + rest);
      DropMark(marks[0], x, y, c, rest);
    }
  }

  /** Every text is woven of mark-free texts and marks in some way. */
  lemma {:induction false} WeaveOf(s: string, x: string, y: string, c: char)
      returns (ts: seq<string>, marks: seq<string>)
    requires Marks(x, y, c)
    ensures |ts| == |marks| + 1 && Woven(ts, marks) == s
    ensures (forall i | 0 <= i < |ts| :: MarkFree(ts[i], x, y))
      && (forall i | 0 <= i < |marks| :: marks[i] == x || marks[i] == y)
    decreases |s|
  {
    if s == [] {
      ts, marks := [[]], [];
    } else if x <= s || y <= s {
      var mark := if x <= s then x else y;
      var us, ks := WeaveOf(s[|mark|..], x, y, c);
      ts, marks := [[]] + us, [mark] + ks;
      assert ts[1..] == us && marks[1..] == ks;
      assert s == mark + s[|mark|..];
      assert [] + (mark + Woven(us, ks)) == mark + Woven(us, ks);
    } else {
      var us, ks := WeaveOf(s[1..], x, y, c);
      ts, marks := [[s[0]] + us[0]] + us[1..], ks;
      WeaveGrows(s, us, ks, x, y, c);
    }
  }

  lemma WeaveGrows(s: string, us: seq<string>, ks: seq<string>, x: string, y: string, c: char)
    requires s != [] && Marks(x, y, c) && !(x <= s) && !(y <= s) && |us| == |ks| + 1 && Woven(us, ks) == s[1..]
    requires MarkFree(us[0], x, y)
    ensures var ts := [[s[0]] + us[0]] + us[1..]; Woven(ts, ks) == s && MarkFree(ts[0], x, y)
  {
    var first := [s[0]] + us[0];
    var rest := if ks == [] then [] else ks[0] + Woven(us[1..], ks[1..]);
    WovenIs(us, ks, us[0], us[1..], rest);
    WovenIs([first] + us[1..], ks, first, us[1..], rest);
    Assoc([s[0]], us[0], rest);
    assert s == [s[0]] + s[1..];
    FreeGrows(first, rest, x);
    FreeGrows(first, rest, y);
  }

  lemma WovenIs(ts: seq<string>, ks: seq<string>, t: string, us: seq<string>, rest: string)
    requires ts == [t] + us && |ts| == |ks| + 1 && rest == if ks == [] then [] else ks[0] + Woven(us, ks[1..])
    ensures Woven(ts, ks) == t + rest
  {
    assert ts[1..] == us;
    assert t + [] == t;
  }

  lemma PrefixExtends(x: string, first: string, rest: string)
    requires x <= first
    ensures x <= first + rest
  {
    assert (first + rest)[..|x|] == first[..|x|];
  }

  lemma FreeGrows(first: string, rest: string, x: string)
    requires first != [] && !(x <= first + rest) && !Contains(first[1..], x)
    ensures !Contains(first, x)
  {
    if x <= first {
      PrefixExtends(x, first, rest);
      assert false;
    }
  }

  lemma ReadonlyMarks()
    ensures Marks(ReadonlyOn, ReadonlyTrue, ',')
  {
    assert ReadonlyOn[10] == 'o' && ReadonlyTrue[10] == 't';
  }

  lemma ReadonlyInside()
    ensures ReadonlyText <= ReadonlyOn[1..] && ReadonlyText <= ReadonlyTrue[1..]
  {
  }

  lemma WovenHolds(ts: seq<string>, marks: seq<string>, sub: string)
    requires |ts| == |marks| + 1 && marks != [] && Contains(marks[0], sub)
    ensures Contains(Woven(ts, marks), sub)
  {
    var rest := Woven(ts[1..], marks[1..]);
    ContainsCat(marks[0], rest, sub);
    ContainsCat(ts[0], marks[0] + rest, sub);
  }

  /** With nothing to move, texts without them that are joined by `,readonly=on` and `,readonly=true`
      come out concatenated. */
  lemma ReadonlyGoes(ts: seq<string>, marks: seq<string>, m: Moves)
    requires AtRest(m) && |ts| == |marks| + 1
    requires forall i | 0 <= i < |ts| :: MarkFree(ts[i], ",readonly=on", ",readonly=true")
    requires forall i | 0 <= i < |marks| :: marks[i] == ",readonly=on" || marks[i] == ",readonly=true"
    ensures Relocate(Woven(ts, marks), m) == Concat(ts)
  {
    ReadonlyMarks();
    DropWoven(ts, marks, ReadonlyOn, ReadonlyTrue, ',');
    if marks != [] {
      ReadonlyInside();
      ContainsAt(marks[0], ReadonlyText, 1);
      WovenHolds(ts, marks, ReadonlyText);
    } else {
      assert Concat(ts) == ts[0] + Concat(ts[1..]) && Concat(ts[1..]) == [];
    }
  }

  // ---------------------------------------------------------------- rendering an argument list

  function Rewritten(args: seq<string>, m: Moves): seq<string>
  {
    RenderedAll(Units(args), m)
  }

  lemma RewrittenFirst(args: seq<string>, m: Moves, u: Unit, n: nat)
    requires args != [] && u == FirstUnit(args) && n == |Original(u)|
    ensures n <= |args| && Rewritten(args, m) == Rendered(u, m) + Rewritten(args[n..], m)
  {
    RenderFirst(args, m);
  }

  lemma OneWord(f: string, rest: seq<string>)
    ensures ([f] + rest)[1..] == rest && [f] + rest != [] && ([f] + rest)[0] == f
  {
  }

  lemma TwoWords(f: string, v: string, rest: seq<string>)
    ensures var all := [f, v] + rest; all[2..] == rest && |all| >= 2 && all[0] == f && all[1] == v && all[..2] == [f, v]
  {
  }

  lemma FlagClasses()
    ensures Classify("-daemonize") == Daemonize && Classify("-incoming") == Incoming && Classify("-qmp") == Qmp
    ensures Classify("-netdev") == Netdev && Classify("-device") == Device
  {
  }

  lemma Dropped(f: string, rest: seq<string>, m: Moves)
    requires Classify(f) == Daemonize
    ensures Rewritten([f] + rest, m) == Rewritten(rest, m)
  {
    OneWord(f, rest);
    RewrittenFirst([f] + rest, m, FirstUnit([f] + rest), 1);
  }

  lemma DroppedWithValue(f: string, v: string, rest: seq<string>, m: Moves)
    requires Classify(f) == Incoming || (Classify(f) == Qmp && Inherits(v))
    ensures Rewritten([f, v] + rest, m) == Rewritten(rest, m)
  {
    TwoWords(f, v, rest);
    RewrittenFirst([f, v] + rest, m, FirstUnit([f, v] + rest), 2);
  }

  lemma QmpKept(f: string, v: string, rest: seq<string>, m: Moves)
    requires Classify(f) == Qmp && !Inherits(v)
    ensures Rewritten([f, v] + rest, m) == [f] + Rewritten([v] + rest, m)
  {
    TwoWords(f, v, rest);
    assert ([f, v] + rest)[1..] == [v] + rest;
    RewrittenFirst([f, v] + rest, m, FirstUnit([f, v] + rest), 1);
  }

  lemma ValueRewritten(f: string, v: string, rest: seq<string>, m: Moves)
    requires Classify(f) == Netdev || Classify(f) == Device
    ensures Rewritten([f, v] + rest, m)
            == [f, if Classify(f) == Netdev then NetdevValue(v) else StripFD(v)] + Rewritten(rest, m)
  {
    TwoWords(f, v, rest);
    RewrittenFirst([f, v] + rest, m, FirstUnit([f, v] + rest), 2);
  }

  lemma WordRelocated(w: string, rest: seq<string>, m: Moves)
    requires Classify(w) == Other
    ensures Rewritten([w] + rest, m) == [Relocate(w, m)] + Rewritten(rest, m)
  {
    OneWord(w, rest);
    RewrittenFirst([w] + rest, m, FirstUnit([w] + rest), 1);
  }

  lemma LoneFlag(f: string, m: Moves)
    requires Classify(f) != Other
    ensures Rewritten([f], m) == if Classify(f) == Qmp then [f] else []
  {
    RewrittenFirst([f], m, FirstUnit([f]), 1);
    assert [f][1..] == [];
  }

  /** How every argument list is rewritten, by what it starts with. Together these say what the whole
      rewriting is. */
  lemma RewritingLaws(v: string, w: string, rest: seq<string>, m: Moves)
    ensures Rewritten([], m) == []
    ensures Rewritten(["-daemonize"] + rest, m) == Rewritten(rest, m)
    ensures Rewritten(["-incoming", v] + rest, m) == Rewritten(rest, m)
    ensures Contains(v, "fd=") ==> Rewritten(["-qmp", v] + rest, m) == Rewritten(rest, m)
    ensures !Contains(v, "fd=") ==> Rewritten(["-qmp", v] + rest, m) == ["-qmp"] + Rewritten([v] + rest, m)
    ensures Rewritten(["-netdev", v] + rest, m) == ["-netdev", NetdevValue(v)] + Rewritten(rest, m)
    ensures Rewritten(["-device", v] + rest, m) == ["-device", StripFD(v)] + Rewritten(rest, m)
    ensures w != "-daemonize" && w != "-incoming" && w != "-qmp" && w != "-netdev" && w != "-device" ==>
      Rewritten([w] + rest, m) == [Relocate(w, m)] + Rewritten(rest, m)
  {
    FlagClasses();
    Dropped("-daemonize", rest, m);
    DroppedWithValue("-incoming", v, rest, m);
    if Contains(v, "fd=") { DroppedWithValue("-qmp", v, rest, m); } else { QmpKept("-qmp", v, rest, m); }
    ValueRewritten("-netdev", v, rest, m);
    ValueRewritten("-device", v, rest, m);
    if Classify(w) == Other { WordRelocated(w, rest, m); }
  }

  /** A flag that lacks its value at the very end is left out, except that `-qmp` stays. */
  lemma LastFlagLaws(m: Moves)
    ensures Rewritten(["-incoming"], m) == [] && Rewritten(["-netdev"], m) == [] && Rewritten(["-device"], m) == []
    ensures Rewritten(["-qmp"], m) == ["-qmp"]
  {
    FlagClasses();
    LoneFlag("-incoming", m);
    LoneFlag("-netdev", m);
    LoneFlag("-device", m);
    LoneFlag("-qmp", m);
  }

  /** A command line of free arguments only is rewritten argument by argument. */
  lemma {:induction false} FreeArgumentsMove(args: seq<string>, m: Moves)
    requires forall i | 0 <= i < |args| :: Classify(args[i]) == Other
    ensures |Rewritten(args, m)| == |args| && forall i | 0 <= i < |args| ::
      Rewritten(args, m)[i] == Relocate(args[i], m)
  {
    if args != [] {
      FreeArgumentsMove(args[1..], m);
      WordRelocated(args[0], args[1..], m);
      assert args == [args[0]] + args[1..];
    }
  }

  // ---------------------------------------------------------------- device values

  /** The settings a value loses. */
  lemma InheritedSettings(k: string, value: string)
    requires '=' !in k
    ensures Inherited(k + "=" + value) <==> k == "fd" || k == "fds" || k == "vhostfd" || k == "vhostfds"
  {
    KeyOf(k, value);
  }

  function Kept(p: string): seq<string>
  {
    if Inherited(p) then [] else [p]
  }

  lemma KeepOneMore(a: seq<string>, p: string)
    ensures Keep(a + [p]) == Keep(a) + Kept(p)
  {
    assert (a + [p])[..|a|] == a && (a + [p])[|a|] == p;
  }

  /** Keeping works part by part, so it keeps the order and every part that is not inherited. */
  lemma {:induction false} KeepCat(a: seq<string>, b: seq<string>)
    ensures Keep(a + b) == Keep(a) + Keep(b)
  {
    if b == [] {
      assert a + b == a;
    } else {
      var init, p := b[..|b| - 1], b[|b| - 1];
      KeepCat(a, init);
      assert init + [p] == b;
      Assoc(a, init, [p]);
      KeepJoins(a, init, p, b, a + b);
    }
  }

  lemma KeepJoins(a: seq<string>, init: seq<string>, p: string, b: seq<string>, all: seq<string>)
    requires Keep(a + init) == Keep(a) + Keep(init) && b == init + [p] && all == (a + init) + [p]
    ensures Keep(all) == Keep(a) + Keep(b)
  {
    KeepOneMore(a + init, p);
    KeepOneMore(init, p);
    Assoc(Keep(a), Keep(init), Kept(p));
  }

  /** The parts a tap value gains, in order. */
  lemma NetdevGains(v: string)
    ensures var next := StripFD(v);
      IsTap(next) ==>
        Split(NetdevValue(v), ',') ==
          Split(next, ',') + (if Contains(next, IfnameText) then [] else ["ifname" + "=" + "tap0_kata"])
          + (if Contains(next, ScriptText) then [] else ["script" + "=" + "no", "downscript" + "=" + "no"])
  {
    var next := StripFD(v);
    var named := if Contains(next, IfnameText) then next else next + NameDefault;
    NameDefaultText(next);
    NameParts(next);
    ScriptParts(named);
  }

  lemma NameParts(v: string)
    ensures Split(v + NameDefault, ',') == Split(v, ',') + ["ifname" + "=" + "tap0_kata"]
  {
    NameDefaultParts(v);
    OnePart(v, "ifname", "tap0_kata");
  }

  lemma ScriptParts(v: string)
    ensures Split(v + ScriptDefault, ',') == Split(v, ',') + ["script" + "=" + "no", "downscript" + "=" + "no"]
  {
    ScriptDefaultParts(v);
    OnePart(v, "script", "no");
    OnePart(v + [','] + ("script" + "=" + "no"), "downscript", "no");
  }

  lemma OnePart(v: string, k: string, value: string)
    requires ',' !in k && ',' !in value
    ensures Split(v + [','] + (k + "=" + value), ',') == Split(v, ',') + [k + "=" + value]
  {
    SplitCat(v, k + "=" + value, ',');
    SplitOfWhole(k + "=" + value, ',');
  }

  // ---------------------------------------------------------------- the kernel's format

  /** Arguments as the kernel shows them: each followed by a NUL. */
  lemma KernelFormatIsRead(args: seq<string>)
    requires args != [] && forall a | a in args :: a != "" && NUL !in a
    ensures ParseCmdline(Join(args, [NUL]) + [NUL]) == args
  {
    var data := Join(args, [NUL]) + [NUL];
    SplitOfJoin(args, NUL);
    assert data == Join(args, [NUL]) + [NUL] + [];
    SplitCat(Join(args, [NUL]), [], NUL);
    assert Split([], NUL) == [""];
    NonEmptyOf(args);
  }

  /** Arguments as the captured file holds them: one in each line. */
  lemma LineFormatIsRead(args: seq<string>)
    requires args != [] && forall a | a in args :: a != "" && NUL !in a && '\n' !in a
    ensures ParseCmdline(Join(args, ['\n']) + ['\n']) == args
  {
    var data := Join(args, ['\n']) + ['\n'];
    CharsOfJoin(args, NUL);
    SplitOfJoin(args, '\n');
    assert data == Join(args, ['\n']) + ['\n'] + [];
    SplitCat(Join(args, ['\n']), [], '\n');
    assert Split([], '\n') == [""];
    NonEmptyOf(args);
  }
}
