/** The string operations the Go code leans on (`strings.Split`, `Join`, `Fields`,
    `Index`, `Contains`, `ReplaceAll`, `strconv.Itoa`, `strconv.ParseInt`), with the
    round trips that the command-line and marker channels are built from. */
module Text {

  datatype Option<+T> = None | Some(value: T)

  // ---------------------------------------------------------------- split and join

  /** `strings.Split` for a one-character separator: never empty, no part holds the separator. */
  function Split(s: string, sep: char): (parts: seq<string>)
    ensures |parts| >= 1
    ensures forall p | p in parts :: sep !in p
  {
    if s == [] then [[]]
    else
      var rest := Split(s[1..], sep);
      if s[0] == sep then [[]] + rest
      else [[s[0]] + rest[0]] + rest[1..]
  }

  function Join(parts: seq<string>, sep: string): (s: string)
  {
    if |parts| == 0 then []
    else if |parts| == 1 then parts[0]
    else parts[0] + sep + Join(parts[1..], sep)
  }

  lemma {:induction false} JoinOfSplit(s: string, sep: char)
    ensures Join(Split(s, sep), [sep]) == s
  {
    if s != [] {
      var rest := Split(s[1..], sep);
      JoinOfSplit(s[1..], sep);
      if s[0] == sep {
        assert ([[]] + rest)[1..] == rest;
        assert s == [sep] + s[1..];
      } else {
        var parts := [[s[0]] + rest[0]] + rest[1..];
        assert parts[1..] == rest[1..];
        assert s == [s[0]] + s[1..];
        if |rest| > 1 {
          assert Join(parts, [sep]) == [s[0]] + (rest[0] + [sep] + Join(rest[1..], [sep]));
        }
      }
    }
  }

  lemma {:induction false} SplitAtSep(a: string, b: string, sep: char)
    requires sep !in a
    ensures Split(a + [sep] + b, sep) == [a] + Split(b, sep)
  {
    var s := a + [sep] + b;
    if a == [] {
      assert s[1..] == b;
    } else {
      assert s[1..] == a[1..] + [sep] + b;
      SplitAtSep(a[1..], b, sep);
      assert a == [a[0]] + a[1..];
    }
  }

  lemma {:induction false} SplitOfWhole(a: string, sep: char)
    requires sep !in a
    ensures Split(a, sep) == [a]
  {
    if a != [] {
      SplitOfWhole(a[1..], sep);
      assert a == [a[0]] + a[1..];
    }
  }

  lemma {:induction false} SplitOfJoin(parts: seq<string>, sep: char)
    requires parts != []
    requires forall p | p in parts :: sep !in p
    ensures Split(Join(parts, [sep]), sep) == parts
  {
    if |parts| == 1 {
      SplitOfWhole(parts[0], sep);
    } else {
      SplitOfJoin(parts[1..], sep);
      SplitAtSep(parts[0], Join(parts[1..], [sep]), sep);
      assert parts == [parts[0]] + parts[1..];
    }
  }

  // ---------------------------------------------------------------- substrings

  predicate Contains(s: string, sub: string)
  {
    sub <= s || (s != [] && Contains(s[1..], sub))
  }

  /** `strings.Index`: the first place where `sub` starts. */
  function Index(s: string, sub: string): (r: Option<nat>)
    ensures r.Some? <==> Contains(s, sub)
    ensures r.Some? ==> r.value <= |s| && sub <= s[r.value..]
  {
    if sub <= s then Some(0)
    else if s == [] then None
    else match Index(s[1..], sub)
      case None => None
      case Some(i) => assert s[1..][i..] == s[i + 1..]; Some(i + 1)
  }

  lemma {:induction false} ContainsAt(s: string, sub: string, i: nat)
    requires i <= |s| && sub <= s[i..]
    ensures Contains(s, sub)
  {
    if i > 0 {
      assert s[1..][i - 1..] == s[i..];
      ContainsAt(s[1..], sub, i - 1);
    }
  }

  lemma {:induction false} ContainsHas(s: string, sub: string) returns (i: nat)
    requires Contains(s, sub)
    ensures i <= |s| && sub <= s[i..]
  {
    if sub <= s {
      i := 0;
    } else {
      var j := ContainsHas(s[1..], sub);
      assert s[1..][j..] == s[j + 1..];
      i := j + 1;
    }
  }

  lemma {:induction false} ContainsCat(a: string, b: string, sub: string)
    ensures Contains(a, sub) || Contains(b, sub) ==> Contains(a + b, sub)
  {
    if Contains(a, sub) {
      var i := ContainsHas(a, sub);
      assert (a + b)[i..] == a[i..] + b;
      ContainsAt(a + b, sub, i);
    } else if Contains(b, sub) {
      var i := ContainsHas(b, sub);
      assert (a + b)[|a| + i..] == b[i..];
      ContainsAt(a + b, sub, |a| + i);
    }
  }

  lemma SpanHits(a: string, b: string, sub: string, i: nat)
    requires i < |a| < i + |sub| && b != [] && sub <= (a + b)[i..]
    ensures b[0] in sub
  {
    assert sub[|a| - i] == (a + b)[i..][|a| - i] == b[0];
  }

  /** A text that occurs in neither part does not occur across them if it lacks the character the
      second one starts with. */
  lemma ContainsApart(a: string, b: string, sub: string)
    requires sub != [] && b != [] && b[0] !in sub
    ensures Contains(a + b, sub) <==> Contains(a, sub) || Contains(b, sub)
  {
    ContainsCat(a, b, sub);
    if Contains(a + b, sub) {
      var i := ContainsHas(a + b, sub);
      if i + |sub| <= |a| {
        assert a[i..i + |sub|] == (a + b)[i..][..|sub|];
        ContainsAt(a, sub, i);
      } else if i >= |a| {
        assert (a + b)[i..] == b[i - |a|..];
        ContainsAt(b, sub, i - |a|);
      } else {
        SpanHits(a, b, sub, i);
      }
    }
  }

  /** A text that contains another has all its characters. */
  lemma ContainsChar(s: string, sub: string, c: char)
    requires Contains(s, sub) && c in sub
    ensures c in s
  {
    var i := ContainsHas(s, sub);
    var k :| 0 <= k < |sub| && sub[k] == c;
    assert s[i + k] == s[i..][k] == c;
  }

  /** `strings.ReplaceAll` for a non-empty `old`: leftmost matches, no overlaps. */
  function ReplaceAll(s: string, old_: string, new_: string): (r: string)
    requires old_ != []
  {
    if s == [] then []
    else if old_ <= s then new_ + ReplaceAll(s[|old_|..], old_, new_)
    else [s[0]] + ReplaceAll(s[1..], old_, new_)
  }

  /** The guard `if strings.Contains` in front of each replacement only saves work. */
  lemma {:induction false} ReplaceAllAbsent(s: string, old_: string, new_: string)
    requires old_ != [] && !Contains(s, old_)
    ensures ReplaceAll(s, old_, new_) == s
  {
    if s != [] {
      ReplaceAllAbsent(s[1..], old_, new_);
      assert s == [s[0]] + s[1..];
    }
  }

  // ---------------------------------------------------------------- words

  /** `unicode.IsSpace`. */
  predicate IsSpace(c: char)
  {
    || '\t' <= c <= '\r' || c == ' ' || c == '\U{85}' || c == '\U{A0}'
    || c == '\U{1680}' || '\U{2000}' <= c <= '\U{200A}' || '\U{2028}' <= c <= '\U{2029}'
    || c == '\U{202F}' || c == '\U{205F}' || c == '\U{3000}'
  }

  predicate SpaceFree(s: string)
  {
    forall c | c in s :: !IsSpace(c)
  }

  predicate Word(s: string)
  {
    s != [] && SpaceFree(s)
  }

  function WordLen(s: string): (n: nat)
    ensures n <= |s|
    ensures SpaceFree(s[..n])
    ensures n < |s| ==> IsSpace(s[n])
  {
    if s == [] || IsSpace(s[0]) then 0
    else
      var n := WordLen(s[1..]);
      assert s[..n + 1] == [s[0]] + s[1..][..n];
      n + 1
  }

  /** `strings.Fields`: the maximal runs without white space. */
  function Fields(s: string): (words: seq<string>)
    ensures forall w | w in words :: Word(w)
    decreases |s|
  {
    if s == [] then []
    else if IsSpace(s[0]) then Fields(s[1..])
    else
      var n := WordLen(s);
      [s[..n]] + Fields(s[n..])
  }

  lemma {:induction false} WordLenOf(w: string, rest: string)
    requires SpaceFree(w)
    requires rest == [] || IsSpace(rest[0])
    ensures WordLen(w + rest) == |w|
  {
    if w != [] {
      assert (w + rest)[1..] == w[1..] + rest;
      WordLenOf(w[1..], rest);
    }
  }

  lemma {:induction false} FieldsOfWord(w: string, rest: string)
    requires Word(w)
    requires rest == [] || IsSpace(rest[0])
    ensures Fields(w + rest) == [w] + Fields(rest)
  {
    WordLenOf(w, rest);
    assert (w + rest)[..|w|] == w && (w + rest)[|w|..] == rest;
    assert !IsSpace((w + rest)[0]);
  }

  lemma FieldsAfterSpace(rest: string)
    ensures Fields(" " + rest) == Fields(rest)
  {
    assert (" " + rest)[1..] == rest;
  }

  /** Words joined with blanks are exactly what a white-space split gives back. */
  lemma {:induction false} FieldsOfJoinWords(args: seq<string>)
    requires forall a | a in args :: Word(a)
    ensures Fields(Join(args, " ")) == args
  {
    if |args| == 1 {
      FieldsOfWord(args[0], []);
      assert args[0] + [] == args[0];
    } else if |args| > 1 {
      var tail := Join(args[1..], " ");
      FieldsOfJoinWords(args[1..]);
      FieldsAfterSpace(tail);
      FieldsOfWord(args[0], " " + tail);
      assert args[0] + " " + tail == args[0] + (" " + tail);
      assert args == [args[0]] + args[1..];
    }
  }

  /** Appending one more word to a text made of anything appends it to the word list. */
  lemma {:induction false} FieldsAppend(s: string, rest: string)
    requires rest == [] || IsSpace(rest[0])
    ensures Fields(s + rest) == Fields(s) + Fields(rest)
    decreases |s|
  {
    if s == [] {
      assert s + rest == rest;
    } else if IsSpace(s[0]) {
      assert (s + rest)[1..] == s[1..] + rest;
      FieldsAppend(s[1..], rest);
    } else {
      var n := WordLen(s);
      FieldsAppend(s[n..], rest);
      FieldsAppendWord(s[..n], s[n..], rest);
      assert s == s[..n] + s[n..];
    }
  }

  lemma FieldsAppendWord(w: string, t: string, rest: string)
    requires Word(w) && (t == [] || IsSpace(t[0])) && (rest == [] || IsSpace(rest[0]))
    requires Fields(t + rest) == Fields(t) + Fields(rest)
    ensures Fields(w + t + rest) == Fields(w + t) + Fields(rest)
  {
    Assoc(w, t, rest);
    FieldsOfWord(w, t + rest);
    FieldsOfWord(w, t);
    Assoc([w], Fields(t), Fields(rest));
  }

  lemma Assoc<T>(x: seq<T>, y: seq<T>, z: seq<T>)
    ensures x + (y + z) == (x + y) + z
  {
  }

  // ---------------------------------------------------------------- decimal integers

  const MaxInt64: int := 0x7FFF_FFFF_FFFF_FFFF
  const MinInt64: int := -0x8000_0000_0000_0000
  const MaxUint64: int := 0xFFFF_FFFF_FFFF_FFFF

  predicate IsDigit(c: char) { '0' <= c <= '9' }

  function DigitChar(d: nat): (c: char)
    requires d < 10
    ensures IsDigit(c) && DigitValue(c) == d
  {
    ('0' as int + d) as char
  }

  function DigitValue(c: char): (d: nat)
    requires IsDigit(c)
    ensures d < 10
  {
    c as int - '0' as int
  }

  predicate AllDigits(s: string)
  {
    forall c | c in s :: IsDigit(c)
  }

  function NatText(n: nat): (s: string)
    ensures s != [] && AllDigits(s)
  {
    if n < 10 then [DigitChar(n)] else NatText(n / 10) + [DigitChar(n % 10)]
  }

  /** `strconv.Itoa` and `%d`. */
  function IntText(n: int): (s: string)
    ensures s != []
  {
    if n < 0 then "-" + NatText(-n) else NatText(n)
  }

  datatype Scan = Number(value: nat) | Syntax | Range

  /** The digit loop of `strconv.ParseUint`: a bad character is seen before an overflow. */
  function ScanUint(s: string, acc: nat): (r: Scan)
    requires acc <= MaxUint64
    ensures r.Number? ==> r.value <= MaxUint64
  {
    if s == [] then Number(acc)
    else if !IsDigit(s[0]) then Syntax
    else if acc * 10 + DigitValue(s[0]) > MaxUint64 then Range
    else ScanUint(s[1..], acc * 10 + DigitValue(s[0]))
  }

  datatype Parsed = Parsed(value: int, ok: bool)

  /** `strconv.ParseInt(s, 10, 64)`: the value next to whether the error is nil. A range
      error still carries the clamped value. */
  function ParseInt(s: string): (r: Parsed)
    ensures MinInt64 <= r.value <= MaxInt64
  {
    var neg := s != [] && s[0] == '-';
    var digits := if s != [] && s[0] in {'-', '+'} then s[1..] else s;
    var scan := if digits == [] then Syntax else ScanUint(digits, 0);
    match scan
    case Syntax => Parsed(0, false)
    case Range => Parsed(if neg then MinInt64 else MaxInt64, false)
    case Number(un) =>
      if !neg && un > MaxInt64 then Parsed(MaxInt64, false)
      else if neg && un > -MinInt64 then Parsed(MinInt64, false)
      else Parsed(if neg then 0 - un else un, true)
  }

  lemma {:induction false} ScanSnoc(s: string, d: char, acc: nat)
    requires acc <= MaxUint64 && IsDigit(d)
    requires ScanUint(s, acc).Number?
    requires ScanUint(s, acc).value * 10 + DigitValue(d) <= MaxUint64
    ensures ScanUint(s + [d], acc) == Number(ScanUint(s, acc).value * 10 + DigitValue(d))
  {
    if s == [] {
      assert ([d])[1..] == [];
      assert s + [d] == [d];
    } else {
      assert (s + [d])[1..] == s[1..] + [d];
      ScanSnoc(s[1..], d, acc * 10 + DigitValue(s[0]));
    }
  }

  lemma {:induction false} ScanOfText(n: nat)
    requires n <= MaxUint64
    ensures ScanUint(NatText(n), 0) == Number(n)
  {
    if n < 10 {
      var s := [DigitChar(n)];
      assert s[1..] == [];
      assert ScanUint(s, 0) == ScanUint(s[1..], n);
    } else {
      ScanOfText(n / 10);
      ScanSnoc(NatText(n / 10), DigitChar(n % 10), 0);
    }
  }

  /** Every int64 survives `%d` followed by `ParseInt`. */
  lemma IntRoundTrip(n: int)
    requires MinInt64 <= n <= MaxInt64
    ensures ParseInt(IntText(n)) == Parsed(n, true)
  {
    if n < 0 {
      ScanOfText(-n);
      assert IntText(n)[1..] == NatText(-n);
    } else {
      ScanOfText(n);
      assert NatText(n)[0] in NatText(n);
    }
  }

  lemma IntTextIsWord(n: int)
    ensures Word(IntText(n))
  {
    var digits := NatText(if n < 0 then -n else n);
    forall c | c in IntText(n)
      ensures !IsSpace(c)
    {
      assert c == '-' || c in digits;
    }
  }

  // ---------------------------------------------------------------- integers out of range

  function Decimal(s: string, acc: nat): nat
    requires AllDigits(s)
  {
    if s == [] then acc else Decimal(s[1..], acc * 10 + DigitValue(s[0]))
  }

  lemma {:induction false} DecimalGrows(s: string, acc: nat)
    requires AllDigits(s)
    ensures Decimal(s, acc) >= acc
  {
    if s != [] { DecimalGrows(s[1..], acc * 10 + DigitValue(s[0])); }
  }

  lemma {:induction false} ScanDigits(s: string, acc: nat)
    requires AllDigits(s) && acc <= MaxUint64
    ensures ScanUint(s, acc) == if Decimal(s, acc) <= MaxUint64 then Number(Decimal(s, acc)) else Range
  {
    if s != [] {
      var next := acc * 10 + DigitValue(s[0]);
      if next <= MaxUint64 { ScanDigits(s[1..], next); } else { DecimalGrows(s[1..], next); }
    }
  }

  /** Any number in decimal digits is read as itself if it fits, and as the nearest that does if not. */
  lemma DigitsAreRead(digits: string, negative: bool)
    requires digits != [] && AllDigits(digits)
    ensures var n := if negative then -(Decimal(digits, 0) as int) else Decimal(digits, 0);
      var r := ParseInt(if negative then ['-'] + digits else digits);
      && (r.ok <==> MinInt64 <= n <= MaxInt64)
      && r.value == if n > MaxInt64 then MaxInt64 else if n < MinInt64 then MinInt64 else n
  {
    ScanDigits(digits, 0);
    if negative {
      assert (['-'] + digits)[1..] == digits;
    } else {
      assert digits[0] in digits;
    }
  }
}
