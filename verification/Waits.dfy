/** The source's two waits after RAM migration has been started: for the guest to pause, and for
    the migration to end. */
module Waits {
  import opened Text

  datatype Status = Completed | Failed | Cancelled | InFlight(name: string)

  /** The numbers of one migration-status answer that the waits look at. */
  datatype Info = Info(status: Status, remaining: int)

  datatype Ending = Good | Bad

  /** Which statuses end a migration, and how. */
  function Terminal(s: Status): Option<Ending>
  {
    match s
    case Completed => Some(Good)
    case Failed => Some(Bad)
    case Cancelled => Some(Bad)
    case InFlight(_) => None
  }

  // ---------------------------------------------------------------- waiting for the pause

  datatype Context = Alive | Aborted | PastDeadline

  /** What the reader meets: the STOP event, any other message, or a line that does not parse. */
  datatype Line = Stop | OtherLine | BadLine

  /** Why reading the socket stops. */
  datatype ReadError = SocketTimeout | EndOfStream | OtherError

  /** The answer to the status query that follows a silent interval. */
  datatype Query = Unanswered | Malformed | Answered(info: Info)

  /** One turn. The context is looked at when the turn starts and again when reading has failed.
      A STOP event may be parked from before; lines may sit in the reader's buffer; others arrive
      on the socket until it fails. */
  datatype StopTurn = StopTurn(
    before: Context, after: Context, parked: bool, open: bool, settable: bool,
    buffered: seq<Line>, arriving: seq<Line>, error: ReadError, reply: Query)

  /** A context that is done stays done, and for the same reason. */
  predicate Steady(t: StopTurn)
  {
    t.before != Alive ==> t.after == t.before
  }

  /** What an error returned by the event wait wraps. */
  datatype Cause = NotConnected | NoDeadlineSet | Unparsable | Interrupted(ctx: Context) | ReadFailed(error: ReadError)

  /** Past the deadline a read deadline in the past is set, so only buffered lines are delivered. */
  function Delivered(t: StopTurn): seq<Line>
  {
    t.buffered + if t.before == PastDeadline then [] else t.arriving
  }

  /** The first line that ends the read loop, if one does. */
  function FirstEnd(lines: seq<Line>): (r: Option<Line>)
    ensures r.None? <==> forall i | 0 <= i < |lines| :: lines[i] == OtherLine
    ensures r.Some? ==> r.value != OtherLine && r.value in lines
  {
    if lines == [] then None
    else if lines[0] != OtherLine then Some(lines[0])
    else FirstEnd(lines[1..])
  }

  /** The error of one event wait; none if the event was found. */
  function WaitError(t: StopTurn): Option<Cause>
  {
    if t.parked then None
    else if !t.open then Some(NotConnected)
    else if !t.settable then Some(NoDeadlineSet)
    else match FirstEnd(Delivered(t))
      case Some(Stop) => None
      case Some(_) => Some(Unparsable)
      case None =>
        if t.after != Alive then Some(Interrupted(t.after))
        else Some(ReadFailed(t.error))
  }

  /** Whether an error counts as a network timeout: a timed-out read does, and so does an exceeded
      context deadline, which carries the same interface; a cancelled context does not. */
  predicate IsTimeout(c: Cause)
  {
    c == ReadFailed(SocketTimeout) || c == Interrupted(PastDeadline)
  }

  /** Past the deadline the write of a command fails at once. */
  function QueryOf(t: StopTurn): Query
  {
    if t.after == PastDeadline then Unanswered else t.reply
  }

  function StopEnding(t: StopTurn): Option<Ending>
  {
    match WaitError(t)
    case None => Some(Good)
    case Some(c) =>
      if !IsTimeout(c) then Some(Bad)
      else if QueryOf(t).Answered? then Terminal(QueryOf(t).info.status)
      else None
  }

  /** The turn was decided by a status that says the migration is over. */
  predicate ToldOver(t: StopTurn)
  {
    WaitError(t).Some? && IsTimeout(WaitError(t).value) && QueryOf(t).Answered?
      && Terminal(QueryOf(t).info.status).Some?
  }

  /** The wait ends at the first turn that decides, and not before. */
  method WaitForStop(turns: seq<StopTurn>) returns (out: Option<Ending>, over: bool)
    ensures out == StopResult(turns) && over == StopOver(turns)
  {
    var n := 0;
    assert turns[0..] == turns;
    while n < |turns|
      invariant n <= |turns|
      invariant StopResult(turns[n..]) == StopResult(turns) && StopOver(turns[n..]) == StopOver(turns)
    {
      var t := turns[n];
      n := n + 1;
      var err := WaitError(t);
      if err.None? { return Some(Good), false; }
      if !IsTimeout(err.value) { return Some(Bad), false; }
      var query := QueryOf(t);
      if query.Answered? {
        match query.info.status
        case Completed => return Some(Good), true;
        case Failed => return Some(Bad), true;
        case Cancelled => return Some(Bad), true;
        case InFlight(_) =>
      }
    }
    out, over := None, false;
  }

  function StopResult(turns: seq<StopTurn>): Option<Ending>
  {
    if turns == [] then None
    else if StopEnding(turns[0]).Some? then StopEnding(turns[0])
    else StopResult(turns[1..])
  }

  /** The wait was ended by a status that says the migration is over. */
  predicate StopOver(turns: seq<StopTurn>)
  {
    turns != [] && if StopEnding(turns[0]).Some? then ToldOver(turns[0]) else StopOver(turns[1..])
  }

  /** A wait has the ending of its first deciding turn, and none exactly if no turn decides. */
  lemma {:induction false} StopResultIsFirst(turns: seq<StopTurn>) returns (k: nat)
    ensures StopResult(turns).None? <==> forall i | 0 <= i < |turns| :: StopEnding(turns[i]).None?
    ensures StopResult(turns).Some? ==>
      k < |turns| && StopEnding(turns[k]) == StopResult(turns) && forall i | 0 <= i < k :: StopEnding(turns[i]).None?
  {
    k := 0;
    if turns != [] && StopEnding(turns[0]).None? {
      var j := StopResultIsFirst(turns[1..]);
      k := j + 1;
      assert forall i | 0 < i < |turns| :: turns[i] == turns[1..][i - 1];
    }
  }

  /** A pause that is reported was observed: the STOP event was parked or delivered, or a query
      said that the migration had completed. */
  lemma GoodStopWasObserved(turns: seq<StopTurn>) returns (k: nat)
    requires StopResult(turns) == Some(Good)
    ensures k < |turns| && forall i | 0 <= i < k :: StopEnding(turns[i]).None?
    ensures turns[k].parked || Stop in Delivered(turns[k])
      || (turns[k].reply.Answered? && turns[k].reply.info.status == Completed)
  {
    k := StopResultIsFirst(turns);
  }

  /** Nothing that could end the wait is at hand: no STOP event is parked, nothing but other
      messages is delivered, and the connection works. */
  predicate Idle(t: StopTurn)
  {
    !t.parked && t.open && t.settable && forall i | 0 <= i < |Delivered(t)| :: Delivered(t)[i] == OtherLine
  }

  /** A turn leaves the wait open exactly if nothing is at hand, the read timed out or the deadline
      passed, and no query says that the migration is over. */
  lemma OpenExactly(t: StopTurn)
    ensures StopEnding(t).None? <==>
      && Idle(t)
      && (t.after == PastDeadline || (t.after == Alive && t.error == SocketTimeout))
      && (t.after == PastDeadline || !t.reply.Answered? || t.reply.info.status.InFlight?)
  {
  }

  /** Line `i` is a STOP event, with nothing but other messages before it. */
  predicate StopAt(lines: seq<Line>, i: nat)
  {
    i < |lines| && lines[i] == Stop && forall j | 0 <= j < i :: lines[j] == OtherLine
  }

  lemma {:induction false} FirstEndIsStop(lines: seq<Line>)
    ensures FirstEnd(lines) == Some(Stop) <==> exists i: nat :: StopAt(lines, i)
  {
    if lines != [] {
      FirstEndIsStop(lines[1..]);
      if lines[0] == Stop {
        assert StopAt(lines, 0);
      } else if lines[0] == OtherLine {
        forall i: nat ensures StopAt(lines[1..], i) <==> StopAt(lines, i + 1) {
          assert forall j | 0 <= j < |lines| - 1 :: lines[1..][j] == lines[j + 1];
          if StopAt(lines[1..], i) { assert forall j | 0 < j < i + 1 :: lines[j] == lines[1..][j - 1]; }
        }
        if exists i: nat :: StopAt(lines, i) {
          var i: nat :| StopAt(lines, i);
          assert StopAt(lines[1..], i - 1);
        }
        if exists i: nat :: StopAt(lines[1..], i) {
          var i: nat :| StopAt(lines[1..], i);
          assert StopAt(lines, i + 1);
        }
      }
    }
  }

  /** A turn sees the pause exactly if a STOP event is parked, or the connection works and delivers one
      with no bad line before it, or the read timed out with nothing at hand before the deadline and a
      query reports completion. With `OpenExactly` this says what every turn comes to. */
  lemma PauseExactly(t: StopTurn)
    ensures StopEnding(t) == Some(Good) <==>
      || t.parked
      || (t.open && t.settable && exists i: nat :: StopAt(Delivered(t), i))
      || (&& Idle(t) && t.after == Alive && t.error == SocketTimeout
          && t.reply.Answered? && t.reply.info.status == Completed)
  {
    FirstEndIsStop(Delivered(t));
  }

  /** A turn that starts past the deadline leaves the wait open exactly if nothing is at hand:
      the deadline itself never ends it. */
  lemma DeadlineTurn(t: StopTurn)
    requires Steady(t) && t.before == PastDeadline
    ensures StopEnding(t).None? <==> Idle(t)
  {
    OpenExactly(t);
  }

  /** A turn that starts cancelled always ends the wait. */
  lemma CancelledTurn(t: StopTurn)
    requires Steady(t) && t.before == Aborted
    ensures StopEnding(t).Some? && (Idle(t) ==> StopEnding(t) == Some(Bad))
  {
    OpenExactly(t);
  }

  /** The migration's own deadline does not end this wait: whatever happened before, any number of
      further turns past the deadline with nothing at hand leaves the result as it was. */
  lemma {:induction false} DeadlineEndsNothing(turns: seq<StopTurn>, expired: seq<StopTurn>)
    requires forall i | 0 <= i < |expired| ::
      Steady(expired[i]) && expired[i].before == PastDeadline && Idle(expired[i])
    ensures StopResult(turns + expired) == StopResult(turns)
  {
    if turns == [] {
      assert turns + expired == expired;
      forall i | 0 <= i < |expired| ensures StopEnding(expired[i]).None? {
        DeadlineTurn(expired[i]);
      }
      var _ := StopResultIsFirst(expired);
    } else {
      assert (turns + expired)[1..] == turns[1..] + expired;
      DeadlineEndsNothing(turns[1..], expired);
    }
  }

  /** Cancelling the context does end it, at the latest with the turn that starts after. */
  lemma CancelEnds(turns: seq<StopTurn>, k: nat)
    requires k < |turns| && Steady(turns[k]) && turns[k].before == Aborted
    ensures StopResult(turns).Some?
  {
    CancelledTurn(turns[k]);
    var _ := StopResultIsFirst(turns);
  }

  // ---------------------------------------------------------------- waiting for the end

  /** Nanoseconds of unanswered queries after which the handover counts as done. */
  const StallGrace := 30_000_000_000

  /** One turn: the deadline was met (at any of the three places it is looked at), the query
      failed, its answer was malformed, or it was answered. A failed query reads the clock twice,
      once to note when the silence began (only kept at its start) and once to measure it. */
  datatype Turn = Expired | Unreachable(noted: int, measured: int) | Garbled | Status(info: Info)

  /** The first turn of the unbroken silence that turn `k` belongs to. */
  function SilenceStart(turns: seq<Turn>, k: nat): (s: nat)
    requires k < |turns| && turns[k].Unreachable?
    ensures s <= k && (forall j | s <= j <= k :: turns[j].Unreachable?)
    ensures s == 0 || !turns[s - 1].Unreachable?
  {
    if k > 0 && turns[k - 1].Unreachable? then SilenceStart(turns, k - 1) else k
  }

  /** What turn `k` decides, told from the turns alone. */
  function EndingAt(turns: seq<Turn>, k: nat): Option<Ending>
    requires k < |turns|
  {
    match turns[k]
    case Expired => Some(Bad)
    case Garbled => Some(Bad)
    case Status(info) => Terminal(info.status)
    case Unreachable(_, measured) =>
      if measured - turns[SilenceStart(turns, k)].noted > StallGrace then Some(Good) else None
  }

  predicate Quiet(turns: seq<Turn>, n: nat)
    requires n <= |turns|
  {
    forall k | 0 <= k < n :: EndingAt(turns, k).None?
  }

  /** The ending of the first turn from `k` on that decides. */
  function FirstEnding(turns: seq<Turn>, k: nat): Option<Ending>
    requires k <= |turns|
    decreases |turns| - k
  {
    if k == |turns| then None
    else if EndingAt(turns, k).Some? then EndingAt(turns, k)
    else FirstEnding(turns, k + 1)
  }

  /** How the wait for the end comes out. */
  function EndResult(turns: seq<Turn>): Option<Ending>
  {
    FirstEnding(turns, 0)
  }

  /** The first turn from `k` on that decides is an answer, so that a status says how it ended. */
  predicate ToldFrom(turns: seq<Turn>, k: nat)
    requires k <= |turns|
    decreases |turns| - k
  {
    k < |turns| && if EndingAt(turns, k).Some? then turns[k].Status? else ToldFrom(turns, k + 1)
  }

  /** The wait for the end was decided by a status that says the migration is over. */
  predicate EndTold(turns: seq<Turn>)
  {
    ToldFrom(turns, 0)
  }

  lemma {:induction false} EndsAt(turns: seq<Turn>, n: nat, k: nat)
    requires n <= |turns| && k <= n && Quiet(turns, n) && (n < |turns| ==> EndingAt(turns, n).Some?)
    ensures FirstEnding(turns, k) == if n < |turns| then EndingAt(turns, n) else None
    ensures ToldFrom(turns, k) <==> n < |turns| && turns[n].Status?
    decreases n - k
  {
    if k < n {
      EndsAt(turns, n, k + 1);
    }
  }

  /** The whole wait. The answer is that of the first turn that decides; a silence is measured from
      its own first turn, however the queries before it went. The progress lines printed on the
      way are exactly those `Printed` selects. */
  method WaitForMigrationComplete(turns: seq<Turn>) returns (out: Option<Ending>, told: bool, n: nat, lines: seq<Info>)
    ensures n <= |turns|
    ensures if out.Some? then n > 0 && Quiet(turns, n - 1) && EndingAt(turns, n - 1) == out
            else n == |turns| && Quiet(turns, n)
    ensures out == EndResult(turns) && told == EndTold(turns)
    ensures lines == Printed(turns[..n]).lines
  {
    n, lines := 0, [];
    var firstStall: Option<int> := None;
    var last: Option<Info> := None;
    while n < |turns|
      invariant n <= |turns| && Quiet(turns, n)
      invariant firstStall.Some? <==> n > 0 && turns[n - 1].Unreachable?
      invariant firstStall.Some? ==> firstStall.value == turns[SilenceStart(turns, n - 1)].noted
      invariant Printed(turns[..n]) == Screen(lines, last)
    {
      var t := turns[n];
      assert turns[..n + 1][..n] == turns[..n];
      n := n + 1;
      match t
      case Expired => EndsAt(turns, n - 1, 0); return Some(Bad), false, n, lines;
      case Garbled => EndsAt(turns, n - 1, 0); return Some(Bad), false, n, lines;
      case Unreachable(noted, measured) =>
        if firstStall.None? { firstStall := Some(noted); }
        if measured - firstStall.value > StallGrace { EndsAt(turns, n - 1, 0); return Some(Good), false, n, lines; }
      case Status(info) =>
        firstStall := None;
        if Worth(last, info) {
          lines, last := lines + [info], Some(info);
        }
        if !info.status.InFlight? { EndsAt(turns, n - 1, 0); }
        match info.status
        case Completed => return Some(Good), true, n, lines;
        case Failed => return Some(Bad), true, n, lines;
        case Cancelled => return Some(Bad), true, n, lines;
        case InFlight(_) =>
    }
    EndsAt(turns, n, 0);
    out, told := None, false;
  }

  /** A success is a reported completion, or a silence longer than the grace with no answer of any
      kind in it. */
  lemma GoodMeansDoneOrSilent(turns: seq<Turn>, k: nat)
    requires k < |turns| && EndingAt(turns, k) == Some(Good)
    ensures || (turns[k].Status? && turns[k].info.status == Completed)
            || (exists s: nat | s <= k :: (forall j | s <= j <= k :: turns[j].Unreachable?)
                                          && turns[k].measured - turns[s].noted > StallGrace)
  {
    if turns[k].Unreachable? {
      var s := SilenceStart(turns, k);
      assert (forall j | s <= j <= k :: turns[j].Unreachable?) && turns[k].measured - turns[s].noted > StallGrace;
    }
  }

  /** A good end that no status told of is a silence: nothing was heard of the migration for longer
      than the grace, up to the turn that decided. */
  lemma UntoldGoodIsSilence(turns: seq<Turn>, n: nat)
    requires n < |turns| && Quiet(turns, n) && EndingAt(turns, n) == Some(Good)
    ensures EndTold(turns) <==> turns[n].Status? && turns[n].info.status == Completed
    ensures !EndTold(turns) ==>
      exists s: nat | s <= n :: (forall j | s <= j <= n :: turns[j].Unreachable?)
                                && turns[n].measured - turns[s].noted > StallGrace
  {
    EndsAt(turns, n, 0);
    GoodMeansDoneOrSilent(turns, n);
  }

  /** With a clock that does not run backwards the converse holds: any unbroken silence longer
      than the grace ends the wait, no matter where in it one starts to measure. */
  lemma LongSilenceIsGood(turns: seq<Turn>, s: nat, k: nat)
    requires s <= k < |turns| && (forall j | s <= j <= k :: turns[j].Unreachable?)
    requires forall i, j | 0 <= i < j < |turns| && turns[i].Unreachable? && turns[j].Unreachable? ::
      turns[i].noted <= turns[j].noted
    requires turns[k].measured - turns[s].noted > StallGrace
    ensures EndingAt(turns, k) == Some(Good)
  {
    var first := SilenceStart(turns, k);
    if first > s {
      assert false;
    }
  }

  // ---------------------------------------------------------------- progress lines

  /** What has been printed, and the status and remaining bytes last printed. */
  datatype Screen = Screen(lines: seq<Info>, last: Option<Info>)

  /** A status is worth a line if its name changed or the remaining bytes have halved. Before the
      first line the last status is the empty one and nothing can have halved. */
  predicate Worth(last: Option<Info>, info: Info)
  {
    match last
    case None => info.status != InFlight("")
    case Some(l) => info.status != l.status || (l.remaining > 0 && info.remaining <= l.remaining / 2)
  }

  function Printed(turns: seq<Turn>): Screen
  {
    if turns == [] then Screen([], None) else
      var s, t := Printed(turns[..|turns| - 1]), turns[|turns| - 1];
      if t.Status? && Worth(s.last, t.info) then Screen(s.lines + [t.info], Some(t.info)) else s
  }

  function Pow2(n: nat): nat
  {
    if n == 0 then 1 else 2 * Pow2(n - 1)
  }

  ghost predicate Consecutive(lines: seq<Info>)
  {
    forall i | 0 <= i < |lines| - 1 :: Worth(Some(lines[i]), lines[i + 1])
  }

  lemma {:induction false} PrintedIsConsecutive(turns: seq<Turn>)
    ensures Consecutive(Printed(turns).lines)
    ensures var s := Printed(turns); s.last == if s.lines == [] then None else Some(s.lines[|s.lines| - 1])
  {
    if turns != [] {
      PrintedIsConsecutive(turns[..|turns| - 1]);
    }
  }

  /** Lines with one status have remaining bytes that at least halve each time, so there are only
      logarithmically many of them: `n` further lines mean at most 1/2^n of the bytes. */
  lemma {:induction false} SameStatusHalves(turns: seq<Turn>, i: nat, n: nat)
    requires i + n < |Printed(turns).lines|
    requires forall j | i <= j <= i + n :: Printed(turns).lines[j].status == Printed(turns).lines[i].status
    requires Printed(turns).lines[i + n].remaining >= 0
    ensures Pow2(n) * Printed(turns).lines[i + n].remaining <= Printed(turns).lines[i].remaining
    decreases n
  {
    PrintedIsConsecutive(turns);
    var lines := Printed(turns).lines;
    if n > 0 {
      var last, prev := lines[i + n].remaining, lines[i + n - 1].remaining;
      assert Worth(Some(lines[i + n - 1]), lines[i + n]);
      SameStatusHalves(turns, i, n - 1);
      Doubled(Pow2(n - 1), last, prev);
    }
  }

  lemma Doubled(p: nat, last: int, prev: int)
    requires 2 * last <= prev
    ensures 2 * p * last <= p * prev
  {
    assert p * (2 * last) <= p * prev;
  }

  // ---------------------------------------------------------------- each turn and each line, told apart

  /** What each turn of the wait for the end decides: it is good exactly if completion is reported or
      the silence it belongs to, measured from that silence's first turn, is longer than 30 seconds;
      it is bad exactly if the deadline was met, the answer was malformed, or failure or cancellation
      is reported. */
  lemma EndingExactly(turns: seq<Turn>, k: nat)
    requires k < |turns|
    ensures EndingAt(turns, k) == Some(Good) <==>
      || (turns[k].Status? && turns[k].info.status == Completed)
      || (exists s: nat :: s <= k && SilentFrom(turns, s, k) && turns[k].measured - turns[s].noted > 30 * 1_000_000_000)
    ensures EndingAt(turns, k) == Some(Bad) <==>
      turns[k].Expired? || turns[k].Garbled? || (turns[k].Status? && turns[k].info.status in {Failed, Cancelled})
  {
    if turns[k].Unreachable? {
      assert SilentFrom(turns, SilenceStart(turns, k), k);
      forall s: nat | s <= k && SilentFrom(turns, s, k) ensures s == SilenceStart(turns, k) {
        SilenceIsOne(turns, s, SilenceStart(turns, k), k);
      }
    }
  }

  /** Every turn from `s` to `k` went unanswered, and the one before `s` did not. */
  predicate SilentFrom(turns: seq<Turn>, s: nat, k: nat)
    requires s <= k < |turns|
  {
    (forall j | s <= j <= k :: turns[j].Unreachable?) && (s == 0 || !turns[s - 1].Unreachable?)
  }

  lemma SilenceIsOne(turns: seq<Turn>, s: nat, r: nat, k: nat)
    requires s <= k < |turns| && r <= k && SilentFrom(turns, s, k) && SilentFrom(turns, r, k)
    ensures s == r
  {
    if s < r { SilentMeets(turns, s, r, k); }
    if r < s { SilentMeets(turns, r, s, k); }
  }

  lemma SilentMeets(turns: seq<Turn>, s: nat, r: nat, k: nat)
    requires s < r <= k < |turns| && SilentFrom(turns, s, k)
    ensures turns[r - 1].Unreachable?
  {
  }

  /** A status is worth a line exactly if it differs from that of the line before, or at most half of
      the bytes of the line before remain; the first line is printed for the first status that is not
      empty. Turns without a status print nothing. */
  lemma LinePrintedExactly(turns: seq<Turn>, t: Turn)
    ensures var lines := Printed(turns).lines;
      var more := Printed(turns + [t]).lines;
      var prints :=
        t.Status? && if lines == [] then t.info.status != InFlight("") else
          var last := lines[|lines| - 1];
          t.info.status != last.status || (last.remaining > 0 && 2 * t.info.remaining <= last.remaining);
      more == if prints then lines + [t.info] else lines
  {
    PrintedIsConsecutive(turns);
    assert (turns + [t])[..|turns|] == turns;
  }
}
