/** The marker lines the source binary prints on stdout and the orchestrator scrapes from the
    pod log: printing on one side, recognising and parsing on the other. */
module Markers {
  import opened Text

  const ResultWord := "KATAMARAN_RESULT"
  const LimitWord := "KATAMARAN_DOWNTIME_LIMIT"
  const ProgressWord := "KATAMARAN_PROGRESS"

  const StatusKey := "status"
  const TransferredKey := "ram_transferred"
  const TotalKey := "ram_total"
  const RemainingKey := "ram_remaining"
  const DowntimeKey := "downtime_ms"
  const TotalTimeKey := "total_time_ms"
  const AppliedKey := "applied_ms"
  const RttKey := "rtt_ms"
  const AutoKey := "auto"

  /** A marker text is its word and one blank. */
  function MarkerText(w: string): string { w + " " }

  // ---------------------------------------------------------------- printing

  datatype Field = Field(key: string, value: string)

  function FieldText(f: Field): string { f.key + "=" + f.value }

  function FieldTexts(fs: seq<Field>): (ts: seq<string>)
    ensures |ts| == |fs|
    ensures forall i | 0 <= i < |fs| :: ts[i] == FieldText(fs[i])
  {
    seq(|fs|, i requires 0 <= i < |fs| => FieldText(fs[i]))
  }

  function Print(w: string, fs: seq<Field>): string
  {
    MarkerText(w) + Join(FieldTexts(fs), " ")
  }

  function BoolText(b: bool): string { if b then "true" else "false" }

  function ProgressFields(status: string, transferred: int, total: int, remaining: int): seq<Field>
  {
    [Field(StatusKey, status), Field(TransferredKey, IntText(transferred)),
     Field(TotalKey, IntText(total)), Field(RemainingKey, IntText(remaining))]
  }

  function ResultFields(downtime: int, totalTime: int, transferred: int, total: int): seq<Field>
  {
    [Field(DowntimeKey, IntText(downtime)), Field(TotalTimeKey, IntText(totalTime)),
     Field(TransferredKey, IntText(transferred)), Field(TotalKey, IntText(total))]
  }

  function LimitFields(applied: int, rtt: int, auto: bool): seq<Field>
  {
    [Field(AppliedKey, IntText(applied)), Field(RttKey, IntText(rtt)), Field(AutoKey, BoolText(auto))]
  }

  // ---------------------------------------------------------------- parsing

  /** One word of parseProgressFields; no `=` or a leading one is skipped. */
  function ParseField(kv: string): (r: Option<Field>)
  {
    match Index(kv, "=")
    case None => None
    case Some(eq) => if eq == 0 then None else Some(Field(kv[..eq], kv[eq + 1..]))
  }

  function Collect(words: seq<string>): map<string, string>
  {
    if words == [] then map[]
    else
      var m := Collect(words[..|words| - 1]);
      match ParseField(words[|words| - 1])
      case None => m
      case Some(f) => m[f.key := f.value]
  }

  method ParseProgressFields(s: string) returns (out: map<string, string>)
    ensures out == Collect(Fields(s))
  {
    var words := Fields(s);
    out := map[];
    for i := 0 to |words|
      invariant out == Collect(words[..i])
    {
      assert words[..i + 1][..i] == words[..i];
      var f := ParseField(words[i]);
      if f.None? {
        continue;
      }
      out := out[f.value.key := f.value.value];
    }
    assert words[..|words|] == words;
  }

  function Get(m: map<string, string>, k: string): string
  {
    if k in m then m[k] else ""
  }

  /** parseInt64 ignores the error of strconv.ParseInt. */
  function Number(m: map<string, string>, k: string): int
  {
    ParseInt(Get(m, k)).value
  }

  datatype Reading =
    | Result(downtime: int, transferred: int, total: int)
    | Limit(applied: int, rtt: int, auto: bool)
    | Progress(status: string, transferred: int, total: int)
    | Nothing

  function After(line: string, w: string, i: nat): map<string, string>
  {
    var n := i + |MarkerText(w)|;
    Collect(Fields(if n <= |line| then line[n..] else ""))
  }

  /** How tailProgress reads one log line it has not seen before: the result marker is looked
      for first, then the downtime limit, then progress. */
  function Interpret(line: string): (r: Reading)
  {
    var result, limit, progress := Index(line, MarkerText(ResultWord)), Index(line, MarkerText(LimitWord)),
      Index(line, MarkerText(ProgressWord));
    if result.Some? then
      var m := After(line, ResultWord, result.value);
      Result(Number(m, DowntimeKey), Number(m, TransferredKey), Number(m, TotalKey))
    else if limit.Some? then
      var m := After(line, LimitWord, limit.value);
      Limit(Number(m, AppliedKey), Number(m, RttKey), Get(m, AutoKey) == "true")
    else if progress.Some? then
      var m := After(line, ProgressWord, progress.value);
      Progress(Get(m, StatusKey), Number(m, TransferredKey), Number(m, TotalKey))
    else Nothing
  }

  // ---------------------------------------------------------------- fields survive

  predicate GoodField(f: Field)
  {
    Word(f.key) && '=' !in f.key && SpaceFree(f.value)
  }

  lemma {:induction false} EqualsAt(k: string, v: string)
    requires '=' !in k
    ensures Index(k + "=" + v, "=") == Some(|k|)
  {
    var s := k + "=" + v;
    if k == [] {
      assert "=" <= s;
    } else {
      assert s[0] == k[0] && !("=" <= s);
      assert s[1..] == k[1..] + "=" + v;
      EqualsAt(k[1..], v);
    }
  }

  lemma ParseOfFieldText(f: Field)
    requires GoodField(f)
    ensures ParseField(FieldText(f)) == Some(f) && Word(FieldText(f))
  {
    EqualsAt(f.key, f.value);
    var t := FieldText(f);
    assert t[..|f.key|] == f.key && t[|f.key| + 1..] == f.value;
  }

  function AsMap(fs: seq<Field>): map<string, string>
  {
    if fs == [] then map[] else AsMap(fs[..|fs| - 1])[fs[|fs| - 1].key := fs[|fs| - 1].value]
  }

  lemma {:induction false} CollectOfTexts(fs: seq<Field>)
    requires forall f | f in fs :: GoodField(f)
    ensures Collect(FieldTexts(fs)) == AsMap(fs)
  {
    if fs != [] {
      var n := |fs| - 1;
      CollectOfTexts(fs[..n]);
      assert FieldTexts(fs)[..n] == FieldTexts(fs[..n]);
      ParseOfFieldText(fs[n]);
    }
  }

  /** Printed fields, split on white space and parsed, come back as they were. */
  lemma FieldsSurvive(fs: seq<Field>)
    requires forall f | f in fs :: GoodField(f)
    ensures Collect(Fields(Join(FieldTexts(fs), " "))) == AsMap(fs)
  {
    forall t | t in FieldTexts(fs) ensures Word(t) {
      var i :| 0 <= i < |fs| && t == FieldText(fs[i]);
      ParseOfFieldText(fs[i]);
    }
    FieldsOfJoinWords(FieldTexts(fs));
    CollectOfTexts(fs);
  }

  // ---------------------------------------------------------------- where a marker can occur

  predicate EndsWith(s: string, w: string)
  {
    |w| <= |s| && s[|s| - |w|..] == w
  }

  /** Character `k` of a text in which `mark` occurs at `p`. */
  lemma CharOf(text: string, mark: string, p: nat, k: nat)
    requires p <= |text| && mark <= text[p..] && p <= k < p + |mark|
    ensures k < |text| && text[k] == mark[k - p]
  {
    assert text[p..][k - p] == mark[k - p];
  }

  lemma NotBlank(s: string, k: nat)
    requires SpaceFree(s) && k < |s|
    ensures s[k] != ' '
  {
    assert s[k] in s;
  }

  /** A marker that starts inside the first word ends with it. */
  lemma MarkerEndsWord(first: string, rest: string, w: string, p: nat)
    requires Word(w) && SpaceFree(first) && p <= |first| && MarkerText(w) <= (first + " " + rest)[p..]
    ensures EndsWith(first, w)
  {
    var text, mark := first + " " + rest, MarkerText(w);
    var q := |first| - p;
    CharOf(text, mark, p, p + |w|);
    if q < |w| {
      CharOf(text, mark, p, |first|);
      NotBlank(w, q);
      assert false;
    } else if q > |w| {
      NotBlank(first, p + |w|);
      assert false;
    }
    assert first[p..] == (first + " " + rest)[p..][..|w|];
    assert mark[..|w|] == w;
  }

  lemma MarkerInPair(first: string, rest: string, w: string)
    requires Word(w) && SpaceFree(first)
    ensures Contains(first + " " + rest, MarkerText(w)) <==> EndsWith(first, w) || Contains(rest, MarkerText(w))
  {
    var text, mark := first + " " + rest, MarkerText(w);
    if Contains(text, mark) {
      var p := ContainsHas(text, mark);
      if p > |first| {
        assert text[p..] == rest[p - |first| - 1..];
        ContainsAt(rest, mark, p - |first| - 1);
      } else {
        MarkerEndsWord(first, rest, w, p);
      }
    }
    if EndsWith(first, w) {
      var p := |first| - |w|;
      assert text[p..] == w + " " + rest;
      ContainsAt(text, mark, p);
    }
    if Contains(rest, mark) {
      ContainsCat(first + " ", rest, mark);
    }
  }

  lemma NoMarkerInWord(text: string, w: string)
    requires SpaceFree(text)
    ensures !Contains(text, MarkerText(w))
  {
    if Contains(text, MarkerText(w)) {
      var p := ContainsHas(text, MarkerText(w));
      CharOf(text, MarkerText(w), p, p + |w|);
      NotBlank(text, p + |w|);
      assert false;
    }
  }

  /** In words separated by single blanks, a marker text occurs exactly where a word that is
      followed by another one ends with the marker's word. */
  lemma {:induction false} MarkerInWords(words: seq<string>, w: string)
    requires Word(w) && words != [] && forall x | x in words :: SpaceFree(x)
    ensures Contains(Join(words, " "), MarkerText(w)) <==> exists i :: 0 <= i < |words| - 1 && EndsWith(words[i], w)
  {
    if |words| == 1 {
      NoMarkerInWord(words[0], w);
    } else {
      var rest := words[1..];
      MarkerInWords(rest, w);
      MarkerInPair(words[0], Join(rest, " "), w);
      assert forall i | 0 <= i < |rest| :: rest[i] == words[i + 1];
      if i :| 0 <= i < |words| - 1 && EndsWith(words[i], w) {
        if i > 0 { assert EndsWith(rest[i - 1], w); }
      }
      if j :| 0 <= j < |rest| - 1 && EndsWith(rest[j], w) {
        assert EndsWith(words[j + 1], w);
      }
    }
  }

  /** A text whose first character occurs only at the start of the marker cannot complete a
      marker begun in the prefix, so the prefix and the text can be searched separately. */
  lemma SearchApart(prefix: string, body: string, mark: string)
    requires body != [] && mark != [] && forall j | 1 <= j < |mark| :: mark[j] != body[0]
    ensures Contains(prefix + body, mark) <==> Contains(prefix, mark) || Contains(body, mark)
  {
    ContainsCat(prefix, body, mark);
    var text := prefix + body;
    if Contains(text, mark) {
      var p := ContainsHas(text, mark);
      if p >= |prefix| {
        assert text[p..] == body[p - |prefix|..];
        ContainsAt(body, mark, p - |prefix|);
      } else if p + |mark| <= |prefix| {
        assert prefix[p..][..|mark|] == text[p..][..|mark|];
        ContainsAt(prefix, mark, p);
      } else {
        CharOf(text, mark, p, |prefix|);
        assert false;
      }
    }
  }

  lemma {:induction false} IndexAfter(prefix: string, body: string, mark: string)
    requires mark <= body && mark != [] && !Contains(prefix, mark)
    requires forall j | 1 <= j < |mark| :: mark[j] != mark[0]
    ensures Index(prefix + body, mark) == Some(|prefix|)
  {
    var text := prefix + body;
    if prefix == [] {
      assert text == body;
    } else {
      assert text[1..] == prefix[1..] + body;
      IndexAfter(prefix[1..], body, mark);
      NotAtStart(prefix, body, mark);
    }
  }

  lemma NotAtStart(prefix: string, body: string, mark: string)
    requires prefix != [] && mark <= body && mark != [] && !(mark <= prefix)
    requires forall j | 1 <= j < |mark| :: mark[j] != mark[0]
    ensures !(mark <= prefix + body)
  {
    var text := prefix + body;
    if mark <= text {
      if |mark| <= |prefix| {
        assert false;
      } else {
        assert text[0..] == text;
        CharOf(text, mark, 0, |prefix|);
        assert false;
      }
    }
  }

  // ---------------------------------------------------------------- the three marker words

  /** A word that starts with a K and has no other. */
  predicate MarkerWord(w: string)
  {
    Word(w) && w[0] == 'K' && forall j | 1 <= j < |w| :: w[j] != 'K'
  }

  lemma ResultIsMarkerWord()
    ensures MarkerWord(ResultWord)
  {
  }

  lemma LimitIsMarkerWord()
    ensures MarkerWord(LimitWord)
  {
  }

  lemma ProgressIsMarkerWord()
    ensures MarkerWord(ProgressWord)
  {
  }

  lemma MarkersDiffer()
    ensures !EndsWith(ProgressWord, ResultWord) && !EndsWith(ProgressWord, LimitWord)
      && !EndsWith(LimitWord, ResultWord)
  {
    assert ProgressWord[|ProgressWord| - 1] == 'S' && ResultWord[|ResultWord| - 1] == 'T'
      && LimitWord[|LimitWord| - 1] == 'T';
    assert LimitWord[|LimitWord| - 2] == 'I' && ResultWord[|ResultWord| - 2] == 'L';
  }

  predicate KFree(s: string) { 'K' !in s }

  lemma StartOfEnd(s: string, w: string)
    requires w != [] && EndsWith(s, w)
    ensures w[0] in s
  {
    assert s[|s| - |w|] == w[0];
  }

  lemma KFreeEnds(s: string, w: string)
    requires MarkerWord(w) && KFree(s)
    ensures !EndsWith(s, w)
  {
    if EndsWith(s, w) {
      StartOfEnd(s, w);
      assert false;
    }
  }

  lemma NumbersAreKFree(n: int)
    ensures KFree(IntText(n)) && SpaceFree(IntText(n))
  {
    IntTextIsWord(n);
    var digits := NatText(if n < 0 then -n else n);
    assert forall c | c in IntText(n) :: c == '-' || c in digits;
  }

  /** The words of a printed marker line. */
  function LineWords(w: string, fs: seq<Field>): seq<string>
  {
    [w] + FieldTexts(fs)
  }

  lemma PrintIsJoin(w: string, fs: seq<Field>)
    requires fs != []
    ensures Print(w, fs) == Join(LineWords(w, fs), " ")
  {
    assert LineWords(w, fs)[1..] == FieldTexts(fs);
  }

  /** A marker can hide in a printed line only in the marker word or at the end of a field that
      is not the last. */
  lemma MarkerInLine(w: string, fs: seq<Field>, other: string)
    requires Word(w) && Word(other) && fs != [] && forall f | f in fs :: GoodField(f)
    ensures Contains(Print(w, fs), MarkerText(other)) <==>
            EndsWith(w, other) || exists i :: 0 <= i < |fs| - 1 && EndsWith(FieldText(fs[i]), other)
  {
    var words := LineWords(w, fs);
    PrintIsJoin(w, fs);
    forall x | x in words ensures SpaceFree(x) {
      if x != w {
        var i :| 0 <= i < |fs| && x == FieldText(fs[i]);
        ParseOfFieldText(fs[i]);
      }
    }
    MarkerInWords(words, other);
    assert forall i | 0 <= i < |fs| :: words[i + 1] == FieldText(fs[i]);
    if i :| 0 <= i < |words| - 1 && EndsWith(words[i], other) {
      assert i > 0 ==> EndsWith(FieldText(fs[i - 1]), other);
    }
    if EndsWith(w, other) { assert EndsWith(words[0], other); }
    if i :| 0 <= i < |fs| - 1 && EndsWith(FieldText(fs[i]), other) { assert EndsWith(words[i + 1], other); }
  }

  lemma MarkerStartsOnce(w: string)
    requires MarkerWord(w)
    ensures var mark := MarkerText(w); mark != [] && forall j | 1 <= j < |mark| :: mark[j] != mark[0]
  {
  }

  /** A line's own marker is found behind a prefix that does not hold it. */
  lemma OwnMarkerFound(prefix: string, w: string, fs: seq<Field>)
    requires MarkerWord(w) && !Contains(prefix, MarkerText(w))
    ensures Index(prefix + Print(w, fs), MarkerText(w)) == Some(|prefix|)
  {
    MarkerStartsOnce(w);
    OwnMarkerAfter(prefix, MarkerText(w), Join(FieldTexts(fs), " "));
  }

  lemma OwnMarkerAfter(prefix: string, mark: string, rest: string)
    requires mark != [] && !Contains(prefix, mark) && forall j | 1 <= j < |mark| :: mark[j] != mark[0]
    ensures Index(prefix + (mark + rest), mark) == Some(|prefix|)
  {
    IndexAfter(prefix, mark + rest, mark);
  }

  /** The fields read behind it are the fields printed. */
  lemma OwnFieldsRead(prefix: string, w: string, fs: seq<Field>)
    requires forall f | f in fs :: GoodField(f)
    ensures After(prefix + Print(w, fs), w, |prefix|) == AsMap(fs)
  {
    TextAfter(prefix, MarkerText(w), Join(FieldTexts(fs), " "));
    FieldsSurvive(fs);
  }

  lemma TextAfter(prefix: string, mark: string, rest: string)
    ensures (prefix + (mark + rest))[|prefix| + |mark|..] == rest
  {
  }

  /** Another marker is found in prefix plus line exactly if one of the two holds it. */
  lemma OtherMarkerAbsent(prefix: string, w: string, fs: seq<Field>, other: string)
    requires MarkerWord(w) && MarkerWord(other)
    ensures Index(prefix + Print(w, fs), MarkerText(other)).Some?
            <==> Contains(prefix, MarkerText(other)) || Contains(Print(w, fs), MarkerText(other))
  {
    SearchApart(prefix, Print(w, fs), MarkerText(other));
  }

  predicate Int64(n: int) { MinInt64 <= n <= MaxInt64 }

  // ---------------------------------------------------------------- the field keys

  predicate KeyOk(k: string, n: nat)
  {
    Word(k) && '=' !in k && KFree(k) && |k| == n
  }

  lemma StatusKeyOk() ensures KeyOk(StatusKey, 6) { }
  lemma TransferredKeyOk() ensures KeyOk(TransferredKey, 15) { }
  lemma TotalKeyOk() ensures KeyOk(TotalKey, 9) { }
  lemma RemainingKeyOk() ensures KeyOk(RemainingKey, 13) { }
  lemma DowntimeKeyOk() ensures KeyOk(DowntimeKey, 11) { }
  lemma TotalTimeKeyOk() ensures KeyOk(TotalTimeKey, 13) { }
  lemma AppliedKeyOk() ensures KeyOk(AppliedKey, 10) { }
  lemma RttKeyOk() ensures KeyOk(RttKey, 6) { }
  lemma AutoKeyOk() ensures KeyOk(AutoKey, 4) { }

  lemma GoodNumber(k: string, len: nat, n: int)
    requires KeyOk(k, len)
    ensures GoodField(Field(k, IntText(n))) && KFree(FieldText(Field(k, IntText(n))))
  {
    NumbersAreKFree(n);
  }

  /** Fields whose keys have different lengths are all found. */
  lemma {:induction false} AllFound(fs: seq<Field>)
    requires forall i, j | 0 <= i < j < |fs| :: |fs[i].key| != |fs[j].key|
    ensures forall i | 0 <= i < |fs| :: fs[i].key in AsMap(fs) && AsMap(fs)[fs[i].key] == fs[i].value
  {
    if fs != [] {
      var init := fs[..|fs| - 1];
      AllFound(init);
      forall i | 0 <= i < |init| ensures fs[i].key in AsMap(fs) && AsMap(fs)[fs[i].key] == fs[i].value {
        assert init[i] == fs[i] && |fs[i].key| != |fs[|fs| - 1].key|;
      }
    }
  }

  // ---------------------------------------------------------------- result lines

  lemma ResultFieldsAreGood(fs: seq<Field>, d: int, tt: int, x: int, t: int)
    requires fs == ResultFields(d, tt, x, t)
    ensures forall f | f in fs :: GoodField(f)
    ensures Get(AsMap(fs), DowntimeKey) == IntText(d)
    ensures Get(AsMap(fs), TransferredKey) == IntText(x)
    ensures Get(AsMap(fs), TotalKey) == IntText(t)
  {
    DowntimeKeyOk();
    TotalTimeKeyOk();
    TransferredKeyOk();
    TotalKeyOk();
    GoodNumber(DowntimeKey, 11, d);
    GoodNumber(TotalTimeKey, 13, tt);
    GoodNumber(TransferredKey, 15, x);
    GoodNumber(TotalKey, 9, t);
    AllFound(fs);
    assert fs[0] in fs && fs[2] in fs && fs[3] in fs;
  }

  /** For every int64 measurement and any prefix without the result marker, the result line is
      read back exactly. */
  lemma ResultRoundTrips(prefix: string, d: int, tt: int, x: int, t: int)
    requires Int64(d) && Int64(tt) && Int64(x) && Int64(t)
    requires !Contains(prefix, MarkerText(ResultWord))
    ensures Interpret(prefix + Print(ResultWord, ResultFields(d, tt, x, t))) == Result(d, x, t)
  {
    var fs := ResultFields(d, tt, x, t);
    ResultIsMarkerWord();
    ResultFieldsAreGood(fs, d, tt, x, t);
    OwnMarkerFound(prefix, ResultWord, fs);
    OwnFieldsRead(prefix, ResultWord, fs);
    IntRoundTrip(d);
    IntRoundTrip(x);
    IntRoundTrip(t);
  }

  // ---------------------------------------------------------------- downtime-limit lines

  lemma AutoField(auto: bool)
    ensures GoodField(Field(AutoKey, BoolText(auto))) && (BoolText(auto) == "true" <==> auto)
  {
    AutoKeyOk();
  }

  lemma LimitFieldsAreGood(fs: seq<Field>, applied: int, rtt: int, auto: bool)
    requires fs == LimitFields(applied, rtt, auto)
    ensures forall f | f in fs :: GoodField(f)
    ensures KFree(FieldText(fs[0])) && KFree(FieldText(fs[1]))
    ensures Get(AsMap(fs), AppliedKey) == IntText(applied)
    ensures Get(AsMap(fs), RttKey) == IntText(rtt)
    ensures Get(AsMap(fs), AutoKey) == BoolText(auto)
  {
    AppliedKeyOk();
    RttKeyOk();
    AutoKeyOk();
    AutoField(auto);
    GoodNumber(AppliedKey, 10, applied);
    GoodNumber(RttKey, 6, rtt);
    AllFound(fs);
    assert fs[0] in fs && fs[1] in fs && fs[2] in fs;
  }

  lemma LimitLineHasNoResult(fs: seq<Field>)
    requires |fs| == 3 && (forall f | f in fs :: GoodField(f)) && KFree(FieldText(fs[0])) && KFree(FieldText(fs[1]))
    ensures !Contains(Print(LimitWord, fs), MarkerText(ResultWord))
  {
    ResultIsMarkerWord();
    LimitIsMarkerWord();
    MarkersDiffer();
    MarkerInLine(LimitWord, fs, ResultWord);
    KFreeEnds(FieldText(fs[0]), ResultWord);
    KFreeEnds(FieldText(fs[1]), ResultWord);
  }

  /** The downtime-limit line is read back exactly, behind any prefix without the result and
      downtime-limit markers. */
  lemma LimitRoundTrips(prefix: string, applied: int, rtt: int, auto: bool)
    requires Int64(applied) && Int64(rtt)
    requires !Contains(prefix, MarkerText(ResultWord)) && !Contains(prefix, MarkerText(LimitWord))
    ensures Interpret(prefix + Print(LimitWord, LimitFields(applied, rtt, auto))) == Limit(applied, rtt, auto)
  {
    var fs := LimitFields(applied, rtt, auto);
    ResultIsMarkerWord();
    LimitIsMarkerWord();
    LimitFieldsAreGood(fs, applied, rtt, auto);
    LimitLineHasNoResult(fs);
    OtherMarkerAbsent(prefix, LimitWord, fs, ResultWord);
    OwnMarkerFound(prefix, LimitWord, fs);
    OwnFieldsRead(prefix, LimitWord, fs);
    IntRoundTrip(applied);
    IntRoundTrip(rtt);
    AutoField(auto);
  }

  // ---------------------------------------------------------------- progress lines

  lemma ProgressFieldsAreGood(fs: seq<Field>, status: string, x: int, t: int, r: int)
    requires SpaceFree(status) && fs == ProgressFields(status, x, t, r)
    ensures forall f | f in fs :: GoodField(f)
    ensures KFree(FieldText(fs[1])) && KFree(FieldText(fs[2]))
    ensures Get(AsMap(fs), StatusKey) == status
    ensures Get(AsMap(fs), TransferredKey) == IntText(x)
    ensures Get(AsMap(fs), TotalKey) == IntText(t)
  {
    StatusKeyOk();
    TransferredKeyOk();
    TotalKeyOk();
    RemainingKeyOk();
    GoodNumber(TransferredKey, 15, x);
    GoodNumber(TotalKey, 9, t);
    GoodNumber(RemainingKey, 13, r);
    AllFound(fs);
    assert fs[0] in fs && fs[1] in fs && fs[2] in fs;
  }

  /** `status=` followed by a text ends with a marker word exactly if the text does. */
  lemma StatusEnds(status: string, w: string)
    requires MarkerWord(w)
    ensures EndsWith(FieldText(Field(StatusKey, status)), w) <==> EndsWith(status, w)
  {
    StatusKeyOk();
    var head := StatusKey + "=";
    var text := head + status;
    assert KFree(head);
    if EndsWith(text, w) && |w| > |status| {
      EndStartsInHead(head, status, w);
      assert false;
    }
    if |w| <= |status| {
      assert text[|text| - |w|..] == status[|status| - |w|..];
    }
  }

  lemma EndStartsInHead(head: string, tail: string, w: string)
    requires w != [] && EndsWith(head + tail, w) && |w| > |tail|
    ensures w[0] in head
  {
    assert w[0] == (head + tail)[|head + tail| - |w|] == head[|head + tail| - |w|];
  }

  lemma ProgressLineHides(fs: seq<Field>, status: string, other: string)
    requires |fs| == 4 && (forall f | f in fs :: GoodField(f)) && KFree(FieldText(fs[1])) && KFree(FieldText(fs[2]))
    requires fs[0] == Field(StatusKey, status) && MarkerWord(other) && !EndsWith(ProgressWord, other)
    ensures Contains(Print(ProgressWord, fs), MarkerText(other)) <==> EndsWith(status, other)
  {
    ProgressIsMarkerWord();
    MarkerInLine(ProgressWord, fs, other);
    KFreeEnds(FieldText(fs[1]), other);
    KFreeEnds(FieldText(fs[2]), other);
    StatusEnds(status, other);
  }

  /** A progress line behind a marker-free prefix is read back exactly, unless the status text
      itself ends with one of the two marker words that are looked for first. */
  lemma ProgressRoundTripsExactly(prefix: string, status: string, x: int, t: int, r: int)
    requires SpaceFree(status) && Int64(x) && Int64(t) && Int64(r)
    requires !Contains(prefix, MarkerText(ResultWord)) && !Contains(prefix, MarkerText(LimitWord))
    requires !Contains(prefix, MarkerText(ProgressWord))
    ensures Interpret(prefix + Print(ProgressWord, ProgressFields(status, x, t, r))) == Progress(status, x, t)
            <==> !EndsWith(status, ResultWord) && !EndsWith(status, LimitWord)
  {
    var fs := ProgressFields(status, x, t, r);
    ResultIsMarkerWord();
    LimitIsMarkerWord();
    ProgressIsMarkerWord();
    MarkersDiffer();
    ProgressFieldsAreGood(fs, status, x, t, r);
    ProgressLineHides(fs, status, ResultWord);
    ProgressLineHides(fs, status, LimitWord);
    OtherMarkerAbsent(prefix, ProgressWord, fs, ResultWord);
    OtherMarkerAbsent(prefix, ProgressWord, fs, LimitWord);
    OwnMarkerFound(prefix, ProgressWord, fs);
    OwnFieldsRead(prefix, ProgressWord, fs);
    IntRoundTrip(x);
    IntRoundTrip(t);
  }

  // ---------------------------------------------------------------- what is read, word by word

  /** A word is a field exactly if it is a key, not empty and without `=`, then `=`, then the value. */
  lemma FieldExactly(kv: string, f: Field)
    ensures ParseField(kv) == Some(f) <==> f.key != "" && '=' !in f.key && kv == f.key + "=" + f.value
  {
    if f.key != "" && '=' !in f.key && kv == f.key + "=" + f.value {
      EqualsAt(f.key, f.value);
      assert kv[..|f.key|] == f.key && kv[|f.key| + 1..] == f.value;
    }
    if ParseField(kv) == Some(f) {
      FirstEquals(kv);
      var eq := Index(kv, "=").value;
      assert kv == kv[..eq] + kv[eq..eq + 1] + kv[eq + 1..];
    }
  }

  lemma {:induction false} FirstEquals(kv: string)
    requires Index(kv, "=").Some?
    ensures var i := Index(kv, "=").value; i < |kv| && kv[i] == '=' && '=' !in kv[..i]
  {
    if !("=" <= kv) {
      FirstEquals(kv[1..]);
      var i := Index(kv[1..], "=").value;
      assert kv[..i + 1] == [kv[0]] + kv[1..][..i];
      assert kv[0] != '=';
    }
  }

  ghost predicate LastFor(words: seq<string>, key: string, i: nat, value: string)
  {
    && i < |words| && ParseField(words[i]) == Some(Field(key, value))
    && forall j | i < j < |words| :: ParseField(words[j]).Some? ==> ParseField(words[j]).value.key != key
  }

  /** A key is collected exactly if some word sets it, and the last such word gives its value. */
  lemma {:induction false} CollectedExactly(words: seq<string>, key: string, value: string)
    ensures key in Collect(words) && Collect(words)[key] == value <==> exists i: nat :: LastFor(words, key, i, value)
  {
    if words != [] {
      var n := |words| - 1;
      var init, last := words[..n], ParseField(words[n]);
      CollectedExactly(init, key, value);
      if last.Some? && last.value.key == key {
        if last.value.value == value { assert LastFor(words, key, n, value); }
        forall i: nat | LastFor(words, key, i, value) ensures i == n { }
      } else {
        forall i: nat ensures LastFor(words, key, i, value) <==> LastFor(init, key, i, value) {
          assert forall j | 0 <= j < n :: init[j] == words[j];
        }
      }
    }
  }

  /** A line is passed over exactly if it holds none of the three markers. */
  lemma NothingExactly(line: string)
    ensures Interpret(line) == Nothing <==>
      && !Contains(line, MarkerText(ResultWord)) && !Contains(line, MarkerText(LimitWord))
      && !Contains(line, MarkerText(ProgressWord))
  {
  }
}
