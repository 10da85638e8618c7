/** The dashboard's trimmed buffers with cursors. Migration log lines and ping samples are kept
    the same way: the newest `cap` entries of the current epoch, next to a sequence number that
    also steps when a new migration or load generator starts a new epoch. A browser that polls
    with the last number it was given must see every entry, or be told to start over. */
module Dashboard {
  import opened Text

  const MaxLogLines: nat := 1000
  const MaxPingLines: nat := 500
  const MaxLogLineSize: nat := 8 * 1024

  datatype Buffer<T> = Buffer(lines: seq<T>, next: int)
  datatype Response<T> = Response(lines: seq<T>, next: int, reset: bool)

  function Suffix<T>(s: seq<T>, n: nat): (r: seq<T>)
    ensures |r| == if |s| <= n then |s| else n
  {
    if |s| <= n then s else s[|s| - n..]
  }

  function Appended<T>(b: Buffer<T>, cap: nat, x: T): Buffer<T>
  {
    Buffer(Suffix(b.lines + [x], cap), b.next + 1)
  }

  function Restarted<T>(b: Buffer<T>): Buffer<T>
  {
    Buffer([], b.next + 1)
  }

  /** The cursor arithmetic of handleStatus; no cursor asks for the full snapshot. */
  function Respond<T>(b: Buffer<T>, after: Option<int>): (r: Response<T>)
  {
    var start := b.next - |b.lines|;
    if after.None? then Response(b.lines, b.next, false)
    else if after.value < start || after.value > b.next then Response(b.lines, b.next, true)
    else Response(b.lines[after.value - start..], b.next, false)
  }

  /** migrationOutput/migrationLogSeq and pingLog/pingSeq. */
  class CursorBuffer<T> {
    const cap: nat
    var lines: seq<T>
    var next: int

    ghost function View(): Buffer<T>
      reads this
    {
      Buffer(lines, next)
    }

    constructor (cap: nat)
      ensures this.cap == cap && View() == Buffer([], 0)
    {
      this.cap := cap;
      lines, next := [], 0;
    }

    /** appendLog and addPing. */
    method Append(x: T)
      modifies this
      ensures View() == Appended(old(View()), cap, x)
    {
      next := next + 1;
      lines := lines + [x];
      if |lines| > cap {
        lines := lines[|lines| - cap..];
      }
    }

    /** The reset in handleMigrate and tryStartLoadgen. */
    method StartEpoch()
      modifies this
      ensures View() == Restarted(old(View()))
    {
      lines := [];
      next := next + 1;
    }

    method Status(after: Option<int>) returns (r: Response<T>)
      ensures r == Respond(View(), after)
    {
      var start := next - |lines|;
      var src := lines;
      var reset := false;
      if after.Some? {
        if after.value < start || after.value > next {
          reset := true;
        } else if after.value > start {
          src := src[after.value - start..];
        }
      }
      r := Response(src, next, reset);
    }
  }

  newtype byte = x: int | 0 <= x < 256

  /** " ... [truncated]" */
  const TruncationNote: seq<byte> := [32, 46, 46, 46, 32, 91, 116, 114, 117, 110, 99, 97, 116, 101, 100, 93]

  function Clip(msg: seq<byte>): (r: seq<byte>)
    ensures |msg| <= 8192 ==> r == msg
    ensures |msg| > 8192 ==> |r| == 8192 + 16 && msg[..8192] <= r
  {
    if |msg| > MaxLogLineSize then msg[..MaxLogLineSize] + TruncationNote else msg
  }

  method AppendLog(log: CursorBuffer<seq<byte>>, msg: seq<byte>)
    modifies log
    ensures log.View() == Appended(old(log.View()), log.cap, Clip(msg))
  {
    log.Append(Clip(msg));
  }

  /** parseStatusCursor: only a non-negative int64 counts as a cursor. */
  function ParseStatusCursor(raw: string): (r: Option<int>)
    ensures r.Some? ==> 0 <= r.value <= MaxInt64
  {
    if raw == "" then None
    else
      var p := ParseInt(raw);
      if !p.ok || p.value < 0 then None else Some(p.value)
  }

  lemma CursorSurvivesText(n: int)
    requires 0 <= n <= MaxInt64
    ensures ParseStatusCursor(IntText(n)) == Some(n)
  {
    IntRoundTrip(n);
  }

  // ---------------------------------------------------------------- server and browser together

  /** What the page holds: entries and the last `next` it was given (0: never any). */
  datatype Browser<T> = Browser(held: seq<T>, cursor: int)

  /** The polling code of the page: a cursor is sent once one is known; a reset or a first
      snapshot replaces, anything else appends; the ping view keeps the newest `keep`. */
  function Polled<T>(b: Browser<T>, keep: Option<nat>, server: Buffer<T>): (Browser<T>, bool)
  {
    var r := Respond(server, if b.cursor > 0 then Some(b.cursor) else None);
    var held := if r.reset || b.cursor == 0 then r.lines else b.held + r.lines;
    (Browser(if keep.Some? then Suffix(held, keep.value) else held, r.next), r.reset)
  }

  /** The full history beside the real state: all entries of the current epoch, where its
      numbering starts, and in which epoch the browser last polled. */
  datatype World<T> = World(
    server: Buffer<T>,
    browser: Browser<T>,
    epoch: seq<T>,
    base: int,
    epochNo: nat,
    seenEpoch: nat)

  datatype Op<T> = Append(x: T) | StartEpoch | Poll

  function Init<T>(): World<T>
  {
    World(Buffer([], 0), Browser([], 0), [], 0, 0, 0)
  }

  function Step<T>(w: World<T>, cap: nat, keep: Option<nat>, op: Op<T>): World<T>
  {
    match op
    case Append(x) => w.(server := Appended(w.server, cap, x), epoch := w.epoch + [x])
    case StartEpoch => w.(server := Restarted(w.server), epoch := [], base := w.server.next + 1,
      epochNo := w.epochNo + 1)
    case Poll => w.(browser := Polled(w.browser, keep, w.server).0, seenEpoch := w.epochNo)
  }

  function Run<T>(cap: nat, keep: Option<nat>, ops: seq<Op<T>>): World<T>
  {
    if ops == [] then Init()
    else Step(Run(cap, keep, ops[..|ops| - 1]), cap, keep, ops[|ops| - 1])
  }

  ghost predicate IsSuffix<T>(s: seq<T>, of: seq<T>)
  {
    |s| <= |of| && s == of[|of| - |s|..]
  }

  /** How much of the epoch the browser had seen at its last poll, if it polled in it. */
  function SeenUpTo<T>(w: World<T>): int
  {
    w.browser.cursor - w.base
  }

  ghost predicate Inv<T>(w: World<T>, cap: nat)
  {
    && w.base >= 0 && w.server.next == w.base + |w.epoch|
    && w.server.lines == Suffix(w.epoch, cap)
    && 0 <= w.browser.cursor <= w.server.next && w.seenEpoch <= w.epochNo
    && (w.browser.cursor == 0 ==> w.browser.held == [])
    && (w.seenEpoch < w.epochNo ==> w.browser.cursor < w.base)
    && (w.seenEpoch == w.epochNo ==> 0 <= SeenUpTo(w) && IsSuffix(w.browser.held, w.epoch[..SeenUpTo(w)])
                                     && |w.browser.held| >= Least(cap, SeenUpTo(w)))
  }

  function Least(a: int, b: int): int { if a < b then a else b }

  /** What a poll must do, in terms of the history alone. */
  ghost predicate FaithfulPoll<T>(w: World<T>, keep: Option<nat>, cap: nat)
  {
    var (b, reset) := Polled(w.browser, keep, w.server);
    var current := w.browser.cursor > 0 && w.seenEpoch == w.epochNo;
    && b.cursor == w.server.next
    && IsSuffix(b.held, w.epoch)
    && IsSuffix(w.server.lines, b.held)
    && (reset <==> w.browser.cursor > 0 && (w.seenEpoch != w.epochNo || |w.epoch| - SeenUpTo(w) > cap))
    && (current && !reset ==>
          && 0 <= SeenUpTo(w) <= |w.epoch|
          && var all := w.browser.held + w.epoch[SeenUpTo(w)..];
          b.held == if keep.Some? then Suffix(all, keep.value) else all)
    && (!current || reset ==> b.held == w.server.lines)
  }

  lemma SuffixIsSuffix<T>(s: seq<T>, n: nat)
    ensures IsSuffix(Suffix(s, n), s)
  {
  }

  lemma SuffixTrans<T>(a: seq<T>, b: seq<T>, c: seq<T>)
    requires IsSuffix(a, b) && IsSuffix(b, c)
    ensures IsSuffix(a, c)
  {
  }

  /** Two suffixes of one sequence: the shorter is a suffix of the longer. */
  lemma SuffixOfSuffix<T>(a: seq<T>, b: seq<T>, c: seq<T>)
    requires IsSuffix(a, c) && IsSuffix(b, c) && |a| <= |b|
    ensures IsSuffix(a, b)
  {
  }

  lemma HeldExtends<T>(held: seq<T>, epoch: seq<T>, n: nat)
    requires n <= |epoch| && IsSuffix(held, epoch[..n])
    ensures IsSuffix(held + epoch[n..], epoch)
  {
    var all := held + epoch[n..];
    assert epoch[n - |held|..] == epoch[..n][n - |held|..] + epoch[n..];
  }

  lemma DeltaIsNew<T>(epoch: seq<T>, cap: nat, n: nat)
    requires n <= |epoch| && |epoch| - n <= cap
    ensures |Suffix(epoch, cap)| >= |epoch| - n
    ensures Suffix(epoch, cap)[|Suffix(epoch, cap)| - (|epoch| - n)..] == epoch[n..]
  {
  }

  lemma PollIsFaithful<T>(w: World<T>, keep: Option<nat>, cap: nat)
    requires Inv(w, cap) && (keep.Some? ==> keep.value >= cap)
    ensures FaithfulPoll(w, keep, cap)
  {
    var r := Respond(w.server, if w.browser.cursor > 0 then Some(w.browser.cursor) else None);
    var lines := w.server.lines;
    SuffixIsSuffix(w.epoch, cap);
    var held := if r.reset || w.browser.cursor == 0 then r.lines else w.browser.held + r.lines;
    if !r.reset && w.browser.cursor > 0 {
      var n := SeenUpTo(w);
      DeltaIsNew(w.epoch, cap, n);
      assert r.lines == w.epoch[n..];
      HeldExtends(w.browser.held, w.epoch, n);
      SuffixOfSuffix(lines, held, w.epoch);
    }
    var b := Polled(w.browser, keep, w.server).0;
    assert IsSuffix(lines, held) && IsSuffix(held, w.epoch);
    if keep.Some? {
      SuffixIsSuffix(held, keep.value);
      SuffixTrans(b.held, held, w.epoch);
      SuffixOfSuffix(lines, b.held, w.epoch);
    }
  }

  lemma AppendKeepsInv<T>(w: World<T>, cap: nat, keep: Option<nat>, x: T)
    requires Inv(w, cap)
    ensures Inv(Step(w, cap, keep, Append(x)), cap)
  {
  }

  lemma PollKeepsInv<T>(w: World<T>, cap: nat, keep: Option<nat>)
    requires Inv(w, cap) && (keep.Some? ==> keep.value >= cap)
    ensures Inv(Step(w, cap, keep, Poll), cap)
  {
    PollIsFaithful(w, keep, cap);
    CaughtUpKeepsInv(w, cap, Polled(w.browser, keep, w.server).0);
  }

  lemma CaughtUpKeepsInv<T>(w: World<T>, cap: nat, b: Browser<T>)
    requires Inv(w, cap) && b.cursor == w.server.next
    requires IsSuffix(b.held, w.epoch) && IsSuffix(w.server.lines, b.held)
    ensures Inv(w.(browser := b, seenEpoch := w.epochNo), cap)
  {
    assert w.epoch[..|w.epoch|] == w.epoch;
  }

  lemma StepKeepsInv<T>(w: World<T>, cap: nat, keep: Option<nat>, op: Op<T>)
    requires Inv(w, cap) && (keep.Some? ==> keep.value >= cap)
    ensures Inv(Step(w, cap, keep, op), cap)
  {
    match op
    case Append(x) => AppendKeepsInv(w, cap, keep, x);
    case StartEpoch =>
    case Poll => PollKeepsInv(w, cap, keep);
  }

  lemma {:induction false} EveryRunKeepsInv<T>(cap: nat, keep: Option<nat>, ops: seq<Op<T>>)
    requires keep.Some? ==> keep.value >= cap
    ensures Inv(Run(cap, keep, ops), cap)
  {
    if ops != [] {
      EveryRunKeepsInv(cap, keep, ops[..|ops| - 1]);
      StepKeepsInv(Run(cap, keep, ops[..|ops| - 1]), cap, keep, ops[|ops| - 1]);
    }
  }

  /** After any history of entries, epochs and polls, the next poll is faithful: the page holds
      a contiguous end of the current epoch with the server's buffer as its suffix; without a
      reset it gained exactly the entries since its last poll; and a reset comes exactly when
      the epoch changed or more entries than the buffer holds went by. */
  lemma EveryPollIsFaithful<T>(cap: nat, keep: Option<nat>, ops: seq<Op<T>>)
    requires keep.Some? ==> keep.value >= cap
    ensures FaithfulPoll(Run(cap, keep, ops), keep, cap)
  {
    EveryRunKeepsInv(cap, keep, ops);
    PollIsFaithful(Run(cap, keep, ops), keep, cap);
  }

  /** The log view keeps everything, the ping view as many samples as the server does. */
  lemma LogsAndPingsAreFaithful<T>(ops: seq<Op<T>>)
    ensures FaithfulPoll(Run(1000, None, ops), None, 1000) && MaxLogLines == 1000
    ensures FaithfulPoll(Run(500, Some(500), ops), Some(500), 500) && MaxPingLines == 500
  {
    EveryPollIsFaithful(MaxLogLines, None, ops);
    EveryPollIsFaithful(MaxPingLines, Some(500), ops);
  }

  // ---------------------------------------------------------------- a page that outlives the server

  /** A page last polled another server, which numbered its entries from zero too. Its cursor lies
      inside the range of the new server's entries without being their start. */
  predicate Misled<T>(b: Browser<T>, server: Buffer<T>)
  {
    server.next - |server.lines| < b.cursor <= server.next && b.cursor > 0
  }

  /** The first poll after a restart, for every page and every history of the new server: the page is
      given all the entries the server holds exactly if it is not misled. A misled page is not told
      to start over, and exactly the entries up to its old cursor are skipped; its new cursor is the
      server's, so no later poll brings them. */
  lemma AfterRestartExactly<T>(cap: nat, keep: Option<nat>, b: Browser<T>, ops: seq<Op<T>>)
    requires (keep.Some? ==> keep.value >= cap) && b.cursor >= 0
    ensures var w := Run(cap, keep, ops);
            var r := Respond(w.server, if b.cursor > 0 then Some(b.cursor) else None);
            && (r.lines == w.server.lines <==> !Misled(b, w.server))
            && (Misled(b, w.server) ==>
                  && !r.reset && 0 <= b.cursor - w.base <= |w.epoch| && r.lines == w.epoch[b.cursor - w.base..]
                  && |w.server.lines| - |r.lines| == b.cursor - (w.server.next - |w.server.lines|))
            && Polled(b, keep, w.server).0.cursor == w.server.next
  {
    EveryRunKeepsInv(cap, keep, ops);
    var w := Run(cap, keep, ops);
    var start := w.server.next - |w.server.lines|;
    if start <= b.cursor <= w.server.next {
      SuffixEnds(w.epoch, cap, b.cursor - start);
    }
  }

  lemma SuffixEnds<T>(epoch: seq<T>, cap: nat, n: nat)
    requires n <= |Suffix(epoch, cap)|
    ensures Suffix(epoch, cap)[n..] == epoch[|epoch| - |Suffix(epoch, cap)| + n..]
  {
  }

  function Appends<T>(xs: seq<T>): seq<Op<T>>
  {
    seq(|xs|, i requires 0 <= i < |xs| => Append(xs[i]))
  }

  lemma {:induction false} AppendsRun<T>(cap: nat, keep: Option<nat>, xs: seq<T>)
    ensures var w := Run(cap, keep, Appends(xs)); w.server.next == |xs| && w.epoch == xs && w.base == 0
  {
    if xs != [] {
      var init := xs[..|xs| - 1];
      AppendsRun(cap, keep, init);
      assert Appends(xs)[..|xs| - 1] == Appends(init);
    }
  }

  /** A page that had seen as many entries as one server wrote misses as many of the next server's,
      and is not told, as soon as that one has written no fewer. */
  lemma RestartSkips<T>(cap: nat, keep: Option<nat>, xs: seq<T>, held: seq<T>, ys: seq<T>)
    requires (keep.Some? ==> keep.value >= cap) && 0 < |xs| <= |ys| <= cap
    ensures var old_ := Run(cap, keep, Appends(xs)).server;
            var b := Browser(held, old_.next);
            var r := Respond(Run(cap, keep, Appends(ys)).server, Some(b.cursor));
            !r.reset && r.lines == ys[|xs|..]
  {
    AppendsRun(cap, keep, xs);
    AppendsRun(cap, keep, ys);
    AfterRestartExactly(cap, keep, Browser(held, |xs|), Appends(ys));
    EveryRunKeepsInv(cap, keep, Appends(ys));
  }
}
