/** The line layer of the QMP client: `readLine` reassembles newline-terminated messages from
    whatever `bufio.Reader.ReadSlice` hands out, across full buffers, timeouts and retries. */
module QmpLines {

  newtype byte = x: int | 0 <= x < 256

  const NL: byte := 10
  const MaxLineSize: nat := 4 * 1024 * 1024

  /** How ReadSlice ended: with the delimiter, with a full buffer, or with any other error. */
  datatype ReadEnd = Delimiter | BufferFull | Broken
  datatype Read = Read(data: seq<byte>, end: ReadEnd)

  predicate LineShaped(l: seq<byte>)
  {
    l != [] && l[|l| - 1] == NL && NL !in l[..|l| - 1]
  }

  /** What ReadSlice promises about one result. */
  predicate Honest(r: Read)
  {
    if r.end.Delimiter? then LineShaped(r.data) else NL !in r.data
  }

  datatype LineResult = Line(line: seq<byte>) | TooLong | ReadFailed

  /** One readLine call: its result, the carry left behind, the reads left over, the bytes it
      took from the stream and the bytes it threw away. */
  datatype Call = Call(result: LineResult, buf: seq<byte>, rest: seq<Read>, eaten: seq<byte>, dropped: seq<byte>)

  /** No read left means that the deadline fires with nothing delivered. */
  function ReadLineCall(buf: seq<byte>, input: seq<Read>): (c: Call)
    decreases |input|
  {
    if input == [] then Call(ReadFailed, buf, [], [], [])
    else
      var r, rest := input[0], input[1..];
      var acc := buf + r.data;
      if r.data != [] && |acc| > MaxLineSize then Call(TooLong, [], rest, r.data, acc)
      else match r.end
        case Delimiter => Call(Line(acc), [], rest, r.data, [])
        case Broken => Call(ReadFailed, acc, rest, r.data, [])
        case BufferFull =>
          var c := ReadLineCall(acc, rest);
          c.(eaten := r.data + c.eaten)
  }

  class LineReader {
    var buf: seq<byte>        // partial line data left by an earlier call
    var input: seq<Read>      // what ReadSlice will return from now on

    constructor (input: seq<Read>)
      ensures this.buf == [] && this.input == input
    {
      this.buf := [];
      this.input := input;
    }

    method ReadSlice() returns (r: Read)
      modifies this`input
      ensures old(input) == [] ==> r == Read([], Broken) && input == []
      ensures old(input) != [] ==> r == old(input)[0] && input == old(input)[1..]
    {
      if input == [] {
        return Read([], Broken);
      }
      r := input[0];
      input := input[1..];
    }

    method ReadLine() returns (res: LineResult)
      requires forall r | r in input :: Honest(r)
      modifies this
      ensures var c := ReadLineCall(old(buf), old(input)); res == c.result && buf == c.buf && input == c.rest
      ensures forall r | r in input :: Honest(r)
    {
      while true
        invariant forall r | r in input :: Honest(r)
        invariant var c, now := ReadLineCall(old(buf), old(input)), ReadLineCall(buf, input);
                  c.result == now.result && c.buf == now.buf && c.rest == now.rest
        decreases |input|
      {
        ghost var before := input;
        var r := ReadSlice();
        if |r.data| > 0 {
          if |buf| + |r.data| > MaxLineSize {
            buf := [];
            return TooLong;
          }
          if |buf| == 0 && r.end.Delimiter? {
            assert buf + r.data == r.data;
            return Line(r.data);
          }
          buf := buf + r.data;
        } else {
          assert buf + r.data == buf;
        }
        if r.end.Delimiter? {
          res := Line(buf);
          buf := [];
          return;
        }
        if r.end.BufferFull? {
          continue;
        }
        return ReadFailed;
      }
    }
  }

  // ---------------------------------------------------------------- the stream as lines

  function FirstNL(s: seq<byte>): (n: nat)
    requires NL in s
    ensures n < |s| && s[n] == NL && forall i | 0 <= i < n :: s[i] != NL
  {
    if s[0] == NL then 0 else FirstNL(s[1..]) + 1
  }

  /** The complete lines of a byte stream, newlines included, and what follows the last one. */
  function Lines(s: seq<byte>): (lines: seq<seq<byte>>)
    decreases |s|
  {
    if NL !in s then []
    else
      var n := FirstNL(s) + 1;
      [s[..n]] + Lines(s[n..])
  }

  function Tail(s: seq<byte>): (t: seq<byte>)
    decreases |s|
  {
    if NL !in s then s else Tail(s[FirstNL(s) + 1..])
  }

  lemma {:induction false} LinesAreLines(s: seq<byte>)
    ensures forall l | l in Lines(s) :: LineShaped(l)
    ensures NL !in Tail(s)
    decreases |s|
  {
    if NL in s {
      var n := FirstNL(s) + 1;
      LinesAreLines(s[n..]);
      LinesUnfold(s, n);
      assert s[..n][..n - 1] == s[..n - 1];
    }
  }

  function Concat(parts: seq<seq<byte>>): seq<byte>
  {
    if parts == [] then [] else parts[0] + Concat(parts[1..])
  }

  lemma FirstNLAt(a: seq<byte>, b: seq<byte>)
    requires NL in a
    ensures NL in a + b && FirstNL(a + b) == FirstNL(a)
  {
    assert (a + b)[FirstNL(a)] == NL;
    assert forall i | 0 <= i < |a| :: (a + b)[i] == a[i];
  }

  lemma LinesUnfold(s: seq<byte>, n: nat)
    requires NL in s && n == FirstNL(s) + 1
    ensures Lines(s) == [s[..n]] + Lines(s[n..]) && Tail(s) == Tail(s[n..])
  {
  }

  lemma Regroup(x: seq<seq<byte>>, y: seq<seq<byte>>, z: seq<seq<byte>>)
    ensures x + (y + z) == x + y + z
  {
  }

  /** Reading on: the unfinished tail is what the next bytes extend. */
  lemma {:induction false} LinesExtend(a: seq<byte>, b: seq<byte>)
    ensures Lines(a + b) == Lines(a) + Lines(Tail(a) + b)
    ensures Tail(a + b) == Tail(Tail(a) + b)
    decreases |a|
  {
    if NL in a {
      var n := FirstNL(a) + 1;
      LinesExtend(a[n..], b);
      LinesExtendStep(a, b, n);
    }
  }

  lemma UnfoldCat(a: seq<byte>, b: seq<byte>, n: nat)
    requires NL in a && n == FirstNL(a) + 1
    ensures Lines(a + b) == [a[..n]] + Lines(a[n..] + b) && Tail(a + b) == Tail(a[n..] + b)
  {
    FirstNLAt(a, b);
    assert (a + b)[..n] == a[..n];
    assert (a + b)[n..] == a[n..] + b;
    LinesUnfold(a + b, n);
  }

  lemma LinesExtendStep(a: seq<byte>, b: seq<byte>, n: nat)
    requires NL in a && n == FirstNL(a) + 1
    requires Lines(a[n..] + b) == Lines(a[n..]) + Lines(Tail(a[n..]) + b)
    requires Tail(a[n..] + b) == Tail(Tail(a[n..]) + b)
    ensures Lines(a + b) == Lines(a) + Lines(Tail(a) + b)
    ensures Tail(a + b) == Tail(Tail(a) + b)
  {
    LinesUnfold(a, n);
    UnfoldCat(a, b, n);
    Regroup([a[..n]], Lines(a[n..]), Lines(Tail(a[n..]) + b));
  }

  lemma LinesOfLine(l: seq<byte>)
    requires LineShaped(l)
    ensures Lines(l) == [l] && Tail(l) == []
  {
    var n := |l| - 1;
    assert l[n] == NL;
    assert forall i | 0 <= i < n :: l[i] in l[..n];
    assert FirstNL(l) == n;
    assert l[n + 1..] == [] && l[..n + 1] == l;
  }

  lemma AppendLine(buf: seq<byte>, l: seq<byte>)
    requires NL !in buf && LineShaped(l)
    ensures LineShaped(buf + l)
  {
    var acc := buf + l;
    assert acc[..|acc| - 1] == buf + l[..|l| - 1];
  }

  /** What one call may do with the carry and the bytes it takes. */
  ghost predicate Accounts(buf: seq<byte>, c: Call)
  {
    && NL !in c.buf && |c.buf| <= MaxLineSize
    && match c.result
       case Line(l) => buf + c.eaten == l && LineShaped(l) && |l| <= MaxLineSize && c.buf == [] && c.dropped == []
       case ReadFailed => buf + c.eaten == c.buf && c.dropped == []
       case TooLong =>
         && buf + c.eaten == c.dropped && |c.dropped| > MaxLineSize && c.buf == []
         && (LineShaped(c.dropped) || NL !in c.dropped)
  }

  /** One call starting from a newline-free carry: what it returns, drops or keeps is exactly
      the carry followed by what it took, and a returned line has its only newline at the end. */
  lemma {:induction false} CallAccounts(buf: seq<byte>, input: seq<Read>)
    requires NL !in buf && |buf| <= MaxLineSize && forall r | r in input :: Honest(r)
    ensures Accounts(buf, ReadLineCall(buf, input))
    ensures forall r | r in ReadLineCall(buf, input).rest :: Honest(r)
    decreases |input|
  {
    if input == [] {
      assert buf + [] == buf;
    } else {
      var r, rest := input[0], input[1..];
      var acc := buf + r.data;
      assert Honest(r) && forall x | x in rest :: x in input;
      if r.end.Delimiter? {
        AppendLine(buf, r.data);
      } else {
        assert NL !in acc;
      }
      if r.end.BufferFull? && !(r.data != [] && |acc| > MaxLineSize) {
        CallAccounts(acc, rest);
        var c := ReadLineCall(acc, rest);
        assert buf + (r.data + c.eaten) == acc + c.eaten;
      }
    }
  }

  // ---------------------------------------------------------------- any number of calls

  datatype Session = Session(returned: seq<seq<byte>>, overflowed: bool, buf: seq<byte>, rest: seq<Read>,
    eaten: seq<byte>)

  /** `n` calls in a row, whatever each of them returns. */
  function Calls(input: seq<Read>, n: nat): (s: Session)
  {
    if n == 0 then Session([], false, [], input, [])
    else
      var s := Calls(input, n - 1);
      var c := ReadLineCall(s.buf, s.rest);
      Session(
        if c.result.Line? then s.returned + [c.result.line] else s.returned,
        s.overflowed || c.result.TooLong?, c.buf, c.rest, s.eaten + c.eaten)
  }

  ghost predicate OverLong(s: seq<byte>)
  {
    |Tail(s)| > MaxLineSize || exists l :: l in Lines(s) && |l| > MaxLineSize
  }

  ghost predicate Exact(s: Session)
  {
    s.returned == Lines(s.eaten) && s.buf == Tail(s.eaten) && !OverLong(s.eaten)
  }

  lemma NextCall(s: Session, c: Call)
    requires Exact(s) && Accounts(s.buf, c)
    ensures var eaten := s.eaten + c.eaten;
            match c.result
            case Line(l) => Lines(eaten) == s.returned + [l] && Tail(eaten) == [] && !OverLong(eaten)
            case ReadFailed => Lines(eaten) == s.returned && Tail(eaten) == c.buf && !OverLong(eaten)
            case TooLong => OverLong(eaten)
  {
    var eaten := s.eaten + c.eaten;
    LinesExtend(s.eaten, c.eaten);
    match c.result
    case Line(l) => LinesOfLine(l);
    case ReadFailed => assert Lines(c.buf) == [] && Tail(c.buf) == c.buf;
    case TooLong =>
      if LineShaped(c.dropped) {
        LinesOfLine(c.dropped);
        assert c.dropped in Lines(eaten);
      } else {
        assert Tail(eaten) == c.dropped;
      }
  }

  /** For every way the bytes arrive and any number of calls: as long as no call has overflowed,
      the lines returned are exactly the lines of the bytes consumed, the carry is exactly the
      unfinished tail, and none of them is too long; and the first call that overflows does so
      because the bytes consumed by then hold a line that is too long. */
  lemma {:induction false} CallsReassembleLines(input: seq<Read>, n: nat)
    requires forall r | r in input :: Honest(r)
    ensures var s := Calls(input, n);
            && NL !in s.buf && |s.buf| <= 4_194_304 && (forall r | r in s.rest :: Honest(r))
            && (!s.overflowed ==> Exact(s))
            && (s.overflowed && n > 0 && !Calls(input, n - 1).overflowed ==> OverLong(s.eaten))
  {
    if n > 0 {
      CallsReassembleLines(input, n - 1);
      var s := Calls(input, n - 1);
      var c := ReadLineCall(s.buf, s.rest);
      CallAccounts(s.buf, s.rest);
      if !s.overflowed {
        NextCall(s, c);
      }
    }
  }

  /** The lines and the tail of a stream make up the stream, so nothing is lost or repeated. */
  lemma {:induction false} LinesCover(s: seq<byte>)
    ensures Concat(Lines(s)) + Tail(s) == s
    decreases |s|
  {
    if NL !in s {
      NoLines(s);
    } else {
      var n := FirstNL(s) + 1;
      LinesCover(s[n..]);
      LinesUnfold(s, n);
      CoverOneMore(s, n, Lines(s[n..]), Tail(s[n..]), Lines(s));
    }
  }

  lemma NoLines(s: seq<byte>)
    requires NL !in s
    ensures Concat(Lines(s)) + Tail(s) == s
  {
  }

  lemma CoverOneMore(s: seq<byte>, n: nat, lines: seq<seq<byte>>, tail: seq<byte>, all: seq<seq<byte>>)
    requires n <= |s| && Concat(lines) + tail == s[n..] && all == [s[..n]] + lines
    ensures Concat(all) + tail == s
  {
    assert all[1..] == lines;
    assert s == s[..n] + s[n..];
  }

  // ---------------------------------------------------------------- after an overflow

  /** After a call that overflowed, the next line returned is the rest of the over-long line if the
      overflow came before that line's end, and a line of its own if it came with it. */
  lemma RestOfOverlongLine(buf: seq<byte>, input: seq<Read>)
    requires NL !in buf && |buf| <= MaxLineSize && forall r | r in input :: Honest(r)
    requires ReadLineCall(buf, input).result.TooLong?
    requires var c := ReadLineCall(buf, input); ReadLineCall(c.buf, c.rest).result.Line?
    ensures var c := ReadLineCall(buf, input);
            var l := ReadLineCall(c.buf, c.rest).result.line;
            && |c.dropped| > 4_194_304 && LineShaped(l)
            && (NL !in c.dropped ==> LineShaped(c.dropped + l))
            && (NL in c.dropped ==> LineShaped(c.dropped))
  {
    CallAccounts(buf, input);
    var c := ReadLineCall(buf, input);
    CallAccounts(c.buf, c.rest);
    if NL !in c.dropped {
      AppendLine(c.dropped, ReadLineCall(c.buf, c.rest).result.line);
    }
  }

  /** The bytes consumed by `n` calls without those that overflows threw away. */
  function Kept(input: seq<Read>, n: nat): seq<byte>
  {
    if n == 0 then [] else
      var s := Calls(input, n - 1);
      var c := ReadLineCall(s.buf, s.rest);
      if c.result.TooLong? then Concat(s.returned) else Kept(input, n - 1) + c.eaten
  }

  lemma ConcatSnoc(parts: seq<seq<byte>>, l: seq<byte>)
    ensures Concat(parts + [l]) == Concat(parts) + l
  {
    if parts == [] {
      assert parts + [l] == [l] && [l][1..] == [];
    } else {
      assert (parts + [l])[1..] == parts[1..] + [l];
      ConcatSnoc(parts[1..], l);
    }
  }

  lemma {:induction false} LinesOfConcat(lines: seq<seq<byte>>)
    requires forall i | 0 <= i < |lines| :: LineShaped(lines[i])
    ensures Lines(Concat(lines)) == lines && Tail(Concat(lines)) == []
  {
    if lines != [] {
      var init, l := lines[..|lines| - 1], lines[|lines| - 1];
      assert lines == init + [l];
      LinesOfConcat(init);
      ConcatSnoc(init, l);
      LinesExtend(Concat(init), l);
      assert Tail(Concat(init)) + l == l;
      LinesOfLine(l);
    }
  }

  ghost predicate KeepsLines(s: Session, kept: seq<byte>)
  {
    s.returned == Lines(kept) && s.buf == Tail(kept)
  }

  lemma KeptLine(s: Session, kept: seq<byte>, eaten: seq<byte>, l: seq<byte>)
    requires KeepsLines(s, kept) && s.buf + eaten == l && LineShaped(l)
    ensures Lines(kept + eaten) == s.returned + [l] && Tail(kept + eaten) == []
  {
    LinesExtend(kept, eaten);
    LinesOfLine(l);
  }

  lemma KeptTail(s: Session, kept: seq<byte>, eaten: seq<byte>, buf: seq<byte>)
    requires KeepsLines(s, kept) && s.buf + eaten == buf && NL !in buf
    ensures Lines(kept + eaten) == s.returned && Tail(kept + eaten) == buf
  {
    LinesExtend(kept, eaten);
    assert Lines(buf) == [] && Tail(buf) == buf;
  }

  lemma KeptAfterDrop(s: Session, kept: seq<byte>)
    requires KeepsLines(s, kept)
    ensures Lines(Concat(s.returned)) == s.returned && Tail(Concat(s.returned)) == []
  {
    LinesAreLines(kept);
    LinesOfConcat(s.returned);
  }

  /** Between calls the carry is part of one line, and within the bound. */
  lemma {:induction false} CarryIsSound(input: seq<Read>, n: nat)
    requires forall r | r in input :: Honest(r)
    ensures var s := Calls(input, n); NL !in s.buf && |s.buf| <= MaxLineSize && forall r | r in s.rest :: Honest(r)
  {
    if n > 0 {
      CarryIsSound(input, n - 1);
      CallAccounts(Calls(input, n - 1).buf, Calls(input, n - 1).rest);
    }
  }

  /** For every way the bytes arrive and any number of calls, overflows or not: the lines returned
      are exactly the lines, and the carry the tail, of the bytes that no overflow threw away. */
  lemma {:induction false} OverflowsOnlyDrop(input: seq<Read>, n: nat)
    requires forall r | r in input :: Honest(r)
    ensures KeepsLines(Calls(input, n), Kept(input, n))
  {
    if n > 0 {
      OverflowsOnlyDrop(input, n - 1);
      CarryIsSound(input, n - 1);
      var s, kept := Calls(input, n - 1), Kept(input, n - 1);
      CallAccounts(s.buf, s.rest);
      var c := ReadLineCall(s.buf, s.rest);
      match c.result
      case Line(l) => KeptLine(s, kept, c.eaten, l);
      case ReadFailed => KeptTail(s, kept, c.eaten, c.buf);
      case TooLong => KeptAfterDrop(s, kept);
    }
  }
}
