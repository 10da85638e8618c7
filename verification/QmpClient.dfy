/** The message layer of the QMP client: `Execute` and `WaitForEvent` share one socket on which
    command answers and asynchronous events are interleaved, and park events they are not
    waiting for in a bounded queue. */
module QmpClient {
  import opened Text

  const MaxBufferedEvents: nat := 1000

  datatype Body = Event(name: string) | Return | Failure | Unparsable

  /** One complete line from QEMU. `at` is its place on the wire and `owner` the number of the
      command it answers; the client sees neither. */
  datatype Message = Message(at: nat, owner: Option<nat>, body: Body)

  /** `inbox` is what has arrived and is not read yet; when it runs out the deadline fires.
      `read`, `matched` and `dropped` record what became of the messages, and `full` the queue
      that each dropped event was dropped from. */
  datatype State = State(
    events: seq<Message>,
    inbox: seq<Message>,
    read: seq<Message>,
    matched: seq<Message>,
    dropped: seq<Message>,
    full: seq<seq<Message>>)

  function Park(s: State, m: Message): State
  {
    if |s.events| >= MaxBufferedEvents
    then s.(events := s.events[1..] + [m], dropped := s.dropped + [s.events[0]], full := s.full + [s.events])
    else s.(events := s.events + [m])
  }

  function TakeOne(s: State): State
    requires s.inbox != []
  {
    s.(inbox := s.inbox[1..], read := s.read + [s.inbox[0]])
  }

  /** The read loop of Execute: the answer it returns, or none if it ended early. */
  function ExecLoop(s: State): (State, Option<Message>)
    decreases |s.inbox|
  {
    if s.inbox == [] then (s, None)
    else
      var m, s1 := s.inbox[0], TakeOne(s);
      match m.body
      case Unparsable => (s1, None)
      case Event(_) => ExecLoop(Park(s1, m))
      case _ => (s1, Some(m))
  }

  /** `resp.Event == eventName`; a command answer has an empty event name. */
  predicate Matches(m: Message, name: string)
  {
    match m.body
    case Event(n) => n == name
    case Unparsable => false
    case _ => name == ""
  }

  function WaitLoop(s: State, name: string): (State, bool)
    decreases |s.inbox|
  {
    if s.inbox == [] then (s, false)
    else
      var m, s1 := s.inbox[0], TakeOne(s);
      if m.body.Unparsable? then (s1, false)
      else if Matches(m, name) then (if m.body.Event? then s1.(matched := s1.matched + [m]) else s1, true)
      else if m.body.Event? then WaitLoop(Park(s1, m), name)
      else WaitLoop(s1, name)
  }

  /** Index of the oldest parked event with this name. */
  function Oldest(events: seq<Message>, name: string): (r: Option<nat>)
    ensures r.Some? ==> r.value < |events| && Matches(events[r.value], name) && forall j | 0 <= j < r.value ::
      !Matches(events[j], name)
    ensures r.None? ==> forall e | e in events :: !Matches(e, name)
  {
    if events == [] then None
    else if Matches(events[0], name) then Some(0)
    else match Oldest(events[1..], name)
      case None => None
      case Some(i) => Some(i + 1)
  }

  function Without(events: seq<Message>, i: nat): seq<Message>
    requires i < |events|
  {
    events[..i] + events[i + 1..]
  }

  function Wait(s: State, name: string): (State, bool)
  {
    match Oldest(s.events, name)
    case Some(i) => (s.(events := Without(s.events, i), matched := s.matched + [s.events[i]]), true)
    case None => WaitLoop(s, name)
  }

  class Client {
    var events: seq<Message>
    var inbox: seq<Message>
    ghost var read: seq<Message>
    ghost var matched: seq<Message>
    ghost var dropped: seq<Message>
    ghost var full: seq<seq<Message>>

    ghost function View(): State
      reads this
    {
      State(events, inbox, read, matched, dropped, full)
    }

    constructor (inbox: seq<Message>)
      ensures View() == State([], inbox, [], [], [], [])
    {
      this.inbox := inbox;
      events, read, matched, dropped, full := [], [], [], [], [];
    }

    method BufferEvent(m: Message)
      modifies this`events, this`dropped, this`full
      ensures View() == Park(old(View()), m)
    {
      if |events| >= MaxBufferedEvents {
        dropped, full := dropped + [events[0]], full + [events];
        events := events[1..];
      }
      events := events + [m];
    }

    method NextMessage() returns (m: Message)
      requires inbox != []
      modifies this`inbox, this`read
      ensures m == old(inbox)[0] && View() == TakeOne(old(View()))
    {
      m := inbox[0];
      read := read + [m];
      inbox := inbox[1..];
    }

    method Execute() returns (answer: Option<Message>)
      modifies this
      ensures (View(), answer) == ExecLoop(old(View()))
    {
      while inbox != []
        invariant ExecLoop(View()) == ExecLoop(old(View()))
        decreases |inbox|
      {
        var m := NextMessage();
        if m.body.Unparsable? {
          return None;
        }
        if m.body.Event? {
          BufferEvent(m);
          continue;
        }
        return Some(m);
      }
      answer := None;
    }

    method WaitForEvent(name: string) returns (found: bool)
      modifies this
      ensures (View(), found) == Wait(old(View()), name)
    {
      for i := 0 to |events|
        invariant View() == old(View())
        invariant forall j | 0 <= j < i :: !Matches(events[j], name)
      {
        if Matches(events[i], name) {
          assert Oldest(events, name) == Some(i);
          matched := matched + [events[i]];
          events := events[..i] + events[i + 1..];
          return true;
        }
      }
      assert Oldest(events, name).None?;
      while inbox != []
        invariant WaitLoop(View(), name) == WaitLoop(old(View()), name)
        decreases |inbox|
      {
        var m := NextMessage();
        if m.body.Unparsable? {
          return false;
        }
        if Matches(m, name) {
          if m.body.Event? {
            matched := matched + [m];
          }
          return true;
        }
        if m.body.Event? {
          BufferEvent(m);
        }
      }
      found := false;
    }
  }

  // ---------------------------------------------------------------- what a call finds, told from the wire

  /** The message satisfies a wait for `name`: the event of that name, or, for the empty name, a
      command's answer, which names no event. */
  predicate Satisfies(m: Message, name: string)
  {
    m.body == Event(name) || (name == "" && (m.body == Return || m.body == Failure))
  }

  /** Message `k` is the first that ends a wait for `name`: it satisfies the wait or does not parse. */
  ghost predicate EndsWaitAt(ms: seq<Message>, name: string, k: nat)
  {
    && k < |ms| && (Satisfies(ms[k], name) || ms[k].body == Unparsable)
    && forall j | 0 <= j < k :: !Satisfies(ms[j], name) && ms[j].body != Unparsable
  }

  /** `s'` is `s` after its first `n` unread messages were read. */
  ghost predicate HasRead(s: State, s': State, n: nat)
  {
    n <= |s.inbox| && s'.read == s.read + s.inbox[..n] && s'.inbox == s.inbox[n..]
  }

  lemma ReadOneMore(s: State, s1: State, s': State, n: nat)
    requires s.inbox != [] && s1.inbox == s.inbox[1..] && s1.read == s.read + [s.inbox[0]] && HasRead(s1, s', n)
    ensures HasRead(s, s', n + 1)
  {
    assert s.inbox[..n + 1] == [s.inbox[0]] + s1.inbox[..n];
    Assoc(s.read, [s.inbox[0]], s1.inbox[..n]);
  }

  /** Reading for an event ends with the first message that ends the wait. It has found the event
      exactly if that message satisfies the wait, and then an event, and nothing else, is matched. */
  lemma {:induction false} WaitReadsExactly(s: State, name: string) returns (k: nat)
    ensures var (s', found) := WaitLoop(s, name);
      && (EndsWaitAt(s.inbox, name, k) || (k == |s.inbox| && forall i: nat :: !EndsWaitAt(s.inbox, name, i)))
      && HasRead(s, s', if k < |s.inbox| then k + 1 else k)
      && (found <==> k < |s.inbox| && Satisfies(s.inbox[k], name))
      && s'.matched == s.matched + (if found && s.inbox[k].body.Event? then [s.inbox[k]] else [])
    decreases |s.inbox|
  {
    k := 0;
    if s.inbox != [] {
      var m, s1 := s.inbox[0], TakeOne(s);
      if !m.body.Unparsable? && !Matches(m, name) {
        var s2 := if m.body.Event? then Park(s1, m) else s1;
        var n := WaitReadsExactly(s2, name);
        k := n + 1;
        ReadOneMore(s, s2, WaitLoop(s2, name).0, if n < |s2.inbox| then n + 1 else n);
        EndsLater(s.inbox, name, n);
      } else {
        assert EndsWaitAt(s.inbox, name, 0);
      }
    }
  }

  lemma EndsLater(ms: seq<Message>, name: string, n: nat)
    requires ms != [] && !Satisfies(ms[0], name) && ms[0].body != Unparsable
    ensures EndsWaitAt(ms[1..], name, n) <==> EndsWaitAt(ms, name, n + 1)
    ensures (forall i: nat :: !EndsWaitAt(ms[1..], name, i)) ==> forall i: nat :: !EndsWaitAt(ms, name, i)
  {
    forall i: nat ensures EndsWaitAt(ms[1..], name, i) <==> EndsWaitAt(ms, name, i + 1) {
      assert forall j | 0 <= j < |ms| - 1 :: ms[1..][j] == ms[j + 1];
      if EndsWaitAt(ms[1..], name, i) {
        assert forall j | 0 < j < i + 1 :: ms[j] == ms[1..][j - 1];
      }
    }
    if forall i: nat :: !EndsWaitAt(ms[1..], name, i) {
      forall i: nat ensures !EndsWaitAt(ms, name, i) {
        if i > 0 { assert !EndsWaitAt(ms[1..], name, i - 1); }
      }
    }
  }

  /** What a wait for an event answers, told from the queue and the wire. With one of that name
      parked it is found without reading. Otherwise it is found exactly if the wire brings one and
      no line before it fails to parse; then everything up to the first one is read, and that one is
      matched. If it is not found nothing is matched, and what is read ends with the first line that
      does not parse, or is everything. */
  lemma WaitFindsExactly(s: State, name: string) returns (k: nat)
    requires name != ""
    ensures var (s', found) := Wait(s, name);
      var parked := exists e | e in s.events :: e.body == Event(name);
      && (parked ==> found && HasRead(s, s', 0))
      && (!parked ==>
            && (found <==> exists i: nat :: i < |s.inbox| && s.inbox[i].body == Event(name)
                             && forall j | 0 <= j < i :: s.inbox[j].body != Unparsable)
            && (found ==>
                  && k < |s.inbox| && s.inbox[k].body == Event(name)
                  && (forall j | 0 <= j < k :: s.inbox[j].body != Event(name) && s.inbox[j].body != Unparsable)
                  && HasRead(s, s', k + 1) && s'.matched == s.matched + [s.inbox[k]])
            && (!found ==>
                  && s'.matched == s.matched
                  && (k < |s.inbox| ==>
                        && s.inbox[k].body == Unparsable && HasRead(s, s', k + 1)
                        && forall j | 0 <= j < k :: s.inbox[j].body != Unparsable)
                  && (k >= |s.inbox| ==>
                        HasRead(s, s', |s.inbox|) && forall j | 0 <= j < |s.inbox| :: s.inbox[j].body != Unparsable)))
  {
    k := 0;
    if exists e | e in s.events :: e.body == Event(name) {
      ParkedIsFound(s, name);
    } else {
      assert Oldest(s.events, name).None? by { NoneParked(s, name); }
      k := WaitReadsExactly(s, name);
      FirstEnd(s.inbox, name, k);
    }
  }

  lemma ParkedIsFound(s: State, name: string)
    requires exists e | e in s.events :: e.body == Event(name)
    ensures Oldest(s.events, name).Some? && Wait(s, name).1 && HasRead(s, Wait(s, name).0, 0)
  {
    var e :| e in s.events && e.body == Event(name);
    assert Matches(e, name);
    assert s.read + s.inbox[..0] == s.read;
  }

  lemma NoneParked(s: State, name: string)
    requires name != "" && forall e | e in s.events :: e.body != Event(name)
    ensures Oldest(s.events, name).None?
  {
  }

  /** The first end of a wait is its first event of that name, unless a bad line comes before. */
  lemma FirstEnd(ms: seq<Message>, name: string, k: nat)
    requires name != ""
    requires EndsWaitAt(ms, name, k) || (k == |ms| && forall i: nat :: !EndsWaitAt(ms, name, i))
    ensures (exists i: nat :: i < |ms| && ms[i].body == Event(name) && forall j | 0 <= j < i ::
      ms[j].body != Unparsable)
            <==> k < |ms| && ms[k].body == Event(name)
    ensures forall j | 0 <= j < k :: ms[j].body != Event(name) && ms[j].body != Unparsable
  {
    if k == |ms| { NoEnd(ms, name, k); }
  }

  lemma {:induction false} NoEnd(ms: seq<Message>, name: string, n: nat)
    requires n <= |ms| && forall i: nat :: !EndsWaitAt(ms, name, i)
    ensures forall j | 0 <= j < n :: !Satisfies(ms[j], name) && ms[j].body != Unparsable
  {
    if n > 0 {
      NoEnd(ms, name, n - 1);
      assert !EndsWaitAt(ms, name, n - 1);
    }
  }

  /** Message `k` is the first that is no event. */
  ghost predicate EndsExecuteAt(ms: seq<Message>, k: nat)
  {
    k < |ms| && !ms[k].body.Event? && forall j | 0 <= j < k :: ms[j].body.Event?
  }

  /** What a command returns, told from the wire: it reads up to the first message that is no event,
      or everything; it has an answer exactly if that message parses, and it is that message. */
  lemma {:induction false} ExecuteFindsExactly(s: State) returns (k: nat)
    ensures var (s', answer) := ExecLoop(s);
      && (EndsExecuteAt(s.inbox, k) || (k == |s.inbox| && forall m | m in s.inbox :: m.body.Event?))
      && HasRead(s, s', if k < |s.inbox| then k + 1 else k)
      && answer == (if k < |s.inbox| && s.inbox[k].body != Unparsable then Some(s.inbox[k]) else None)
      && s'.matched == s.matched
    decreases |s.inbox|
  {
    k := 0;
    if s.inbox != [] && s.inbox[0].body.Event? {
      var s2 := Park(TakeOne(s), s.inbox[0]);
      var n := ExecuteFindsExactly(s2);
      k := n + 1;
      ReadOneMore(s, s2, ExecLoop(s2).0, if n < |s2.inbox| then n + 1 else n);
      assert forall j | 0 < j < |s.inbox| :: s.inbox[j] == s2.inbox[j - 1];
      assert s.inbox == [s.inbox[0]] + s2.inbox;
    }
  }

  // ---------------------------------------------------------------- where every event is

  function EventsIn(ms: seq<Message>): multiset<Message>
  {
    if ms == [] then multiset{}
    else
      var m := ms[|ms| - 1];
      EventsIn(ms[..|ms| - 1]) + (if m.body.Event? then multiset{m} else multiset{})
  }

  ghost predicate Ordered(ms: seq<Message>)
  {
    forall i, j | 0 <= i < j < |ms| :: ms[i].at < ms[j].at
  }

  ghost predicate OlderThan(a: seq<Message>, b: seq<Message>)
  {
    forall x, y | x in a && y in b :: x.at < y.at
  }

  ghost predicate Before(ms: seq<Message>, n: nat)
  {
    forall x | x in ms :: x.at < n
  }

  /** The unread messages carry on the numbering of those already read. */
  ghost predicate Numbered(s: State)
  {
    forall i | 0 <= i < |s.inbox| :: s.inbox[i].at == |s.read| + i
  }

  /** Each dropped event was the oldest of a queue of exactly the bound, in wire order. */
  ghost predicate DroppedFromFull(s: State, n: nat)
  {
    |s.full| == |s.dropped| &&
    forall i | 0 <= i < |s.full| ::
      |s.full[i]| == MaxBufferedEvents && s.full[i][0] == s.dropped[i] && Ordered(s.full[i]) && Before(s.full[i], n)
  }

  /** The queue is in wire order and bounded, what was dropped is older than everything still
      parked, all of it was read before place `n`, and only a full queue was dropped from. */
  ghost predicate Queued(s: State, n: nat)
  {
    && |s.events| <= MaxBufferedEvents && Ordered(s.events)
    && OlderThan(s.dropped, s.events) && Before(s.events, n) && Before(s.dropped, n)
    && DroppedFromFull(s, n)
  }

  function Fates(s: State): multiset<Message>
  {
    multiset(s.matched) + multiset(s.dropped) + multiset(s.events)
  }

  /** Every event read so far is matched, dropped or parked, exactly once. */
  ghost predicate Partitioned(s: State)
  {
    Numbered(s) && Queued(s, |s.read|) && EventsIn(s.read) == Fates(s)
  }

  /** The same in the middle of a loop turn, with message `m` just read and not yet placed. */
  ghost predicate Pending(s: State, m: Message)
  {
    && Numbered(s) && s.read != [] && m.at == |s.read| - 1 && Queued(s, |s.read| - 1)
    && EventsIn(s.read) == Fates(s) + (if m.body.Event? then multiset{m} else multiset{})
  }

  lemma EventsSnoc(ms: seq<Message>, m: Message)
    ensures EventsIn(ms + [m]) == EventsIn(ms) + (if m.body.Event? then multiset{m} else multiset{})
  {
    assert (ms + [m])[..|ms|] == ms;
  }

  lemma TakeIsPending(s: State)
    requires Partitioned(s) && s.inbox != []
    ensures Pending(TakeOne(s), s.inbox[0])
  {
    EventsSnoc(s.read, s.inbox[0]);
  }

  lemma DropOldest(s: State) returns (s': State)
    requires |s.events| > 0 && Ordered(s.events) && OlderThan(s.dropped, s.events)
    ensures s' == s.(events := s.events[1..], dropped := s.dropped + [s.events[0]])
    ensures Fates(s') == Fates(s)
    ensures Ordered(s'.events) && OlderThan(s'.dropped, s'.events)
    ensures forall x | x in s'.events :: x in s.events
    ensures forall x | x in s'.dropped :: x in s.dropped || x in s.events
  {
    s' := s.(events := s.events[1..], dropped := s.dropped + [s.events[0]]);
    assert s.events == [s.events[0]] + s'.events;
    assert multiset(s.events) == multiset{s.events[0]} + multiset(s'.events);
  }

  lemma ParkBehind(s: State, m: Message, n: nat)
    requires Ordered(s.events) && OlderThan(s.dropped, s.events) && Before(s.events, n) && Before(s.dropped, n)
      && n <= m.at
    ensures var s' := s.(events := s.events + [m]);
            Ordered(s'.events) && OlderThan(s'.dropped, s'.events) && Fates(s') == Fates(s) + multiset{m}
  {
  }

  /** Parking drops exactly if the queue is at its bound, and then the oldest. */
  lemma ParkDropsExactly(s: State, m: Message)
    requires |s.events| <= 1000
    ensures var s' := Park(s, m);
      && (s'.dropped != s.dropped <==> |s.events| == 1000)
      && (s'.dropped != s.dropped ==> s'.dropped == s.dropped + [s.events[0]] && s'.full == s.full + [s.events])
      && s'.dropped + s'.events == s.dropped + s.events + [m]
  {
    if |s.events| == MaxBufferedEvents {
      assert s.events == [s.events[0]] + s.events[1..];
    }
  }

  lemma SnapshotKeeps(s: State, n: nat)
    requires DroppedFromFull(s, n) && |s.events| == MaxBufferedEvents && Ordered(s.events) && Before(s.events, n)
    ensures DroppedFromFull(s.(dropped := s.dropped + [s.events[0]], full := s.full + [s.events]), n + 1)
  {
  }

  /** What `Queued` says besides the record of drops. */
  ghost predicate InOrder(s: State, n: nat)
  {
    && |s.events| <= MaxBufferedEvents && Ordered(s.events)
    && OlderThan(s.dropped, s.events) && Before(s.events, n) && Before(s.dropped, n)
  }

  lemma ParkKeepsOrder(s: State, m: Message)
    requires Pending(s, m) && m.body.Event?
    ensures InOrder(Park(s, m), |s.read|) && Fates(Park(s, m)) == Fates(s) + multiset{m}
  {
    var n := |s.read| - 1;
    if |s.events| >= MaxBufferedEvents {
      var s1 := DropOldest(s);
      ParkBehind(s1, m, n);
      assert Park(s, m).events == s1.events + [m] && Park(s, m).dropped == s1.dropped;
    } else {
      ParkBehind(s, m, n);
    }
  }

  lemma ParkKeeps(s: State, m: Message)
    requires Pending(s, m) && m.body.Event?
    ensures Partitioned(Park(s, m))
  {
    ParkKeepsOrder(s, m);
    if |s.events| >= MaxBufferedEvents {
      SnapshotKeeps(s, |s.read| - 1);
    }
  }

  lemma MatchKeeps(s: State, m: Message)
    requires Pending(s, m) && m.body.Event?
    ensures Partitioned(s.(matched := s.matched + [m]))
  {
  }

  lemma SkipKeeps(s: State, m: Message)
    requires Pending(s, m) && !m.body.Event?
    ensures Partitioned(s)
  {
  }

  lemma {:induction false} ExecuteKeepsPartition(s: State)
    requires Partitioned(s)
    ensures Partitioned(ExecLoop(s).0)
    decreases |s.inbox|
  {
    if s.inbox != [] {
      var m, s1 := s.inbox[0], TakeOne(s);
      TakeIsPending(s);
      if m.body.Event? {
        ParkKeeps(s1, m);
        ExecuteKeepsPartition(Park(s1, m));
      } else {
        SkipKeeps(s1, m);
      }
    }
  }

  lemma {:induction false} WaitLoopKeepsPartition(s: State, name: string)
    requires Partitioned(s)
    ensures Partitioned(WaitLoop(s, name).0)
    decreases |s.inbox|
  {
    if s.inbox != [] {
      var m, s1 := s.inbox[0], TakeOne(s);
      TakeIsPending(s);
      if !m.body.Event? {
        SkipKeeps(s1, m);
        if !m.body.Unparsable? && !Matches(m, name) { WaitLoopKeepsPartition(s1, name); }
      } else if Matches(m, name) {
        MatchKeeps(s1, m);
      } else {
        ParkKeeps(s1, m);
        WaitLoopKeepsPartition(Park(s1, m), name);
      }
    }
  }

  lemma WithoutParts(events: seq<Message>, i: nat)
    requires i < |events|
    ensures multiset(events) == multiset(Without(events, i)) + multiset{events[i]}
  {
    assert events == events[..i] + [events[i]] + events[i + 1..];
  }

  lemma WithoutKeepsOrder(events: seq<Message>, i: nat)
    requires i < |events|
    ensures forall x | x in Without(events, i) :: x in events
    ensures Ordered(events) ==> Ordered(Without(events, i))
  {
  }

  lemma TakingKeepsPartition(s: State, i: nat)
    requires Partitioned(s) && i < |s.events|
    ensures Partitioned(s.(events := Without(s.events, i), matched := s.matched + [s.events[i]]))
  {
    WithoutParts(s.events, i);
    WithoutKeepsOrder(s.events, i);
  }

  lemma WaitKeepsPartition(s: State, name: string)
    requires Partitioned(s)
    ensures Partitioned(Wait(s, name).0)
  {
    match Oldest(s.events, name) {
      case Some(i) => TakingKeepsPartition(s, i);
      case None => WaitLoopKeepsPartition(s, name);
    }
  }

  // ---------------------------------------------------------------- whole sessions

  /** A call together with what QEMU puts on the wire before its deadline. An Execute whose write is
      reported as failed reads nothing; its command may have reached QEMU all the same. */
  datatype Call =
    | Execute(arrivals: seq<Message>)
    | Unwritten(reached: bool, arrivals: seq<Message>)
    | WaitFor(name: string, arrivals: seq<Message>)

  /** `sent` commands reached QEMU, `taken` answers were read, `early` of the commands were given up
      without one. */
  datatype Session = Session(state: State, sent: nat, answered: nat, taken: nat, early: nat)

  const Start := Session(State([], [], [], [], [], []), 0, 0, 0, 0)

  function Answers(ms: seq<Message>): (n: nat)
  {
    if ms == [] then 0 else Answers(ms[..|ms| - 1]) + (if ms[|ms| - 1].owner.Some? then 1 else 0)
  }

  function Deliver(s: Session, call: Call): State
  {
    s.state.(inbox := s.state.inbox + call.arrivals)
  }

  function Do(s: Session, call: Call): (Session, Option<Message>)
  {
    var st, answered := Deliver(s, call), s.answered + Answers(call.arrivals);
    match call
    case Execute(_) =>
      var (st', answer) := ExecLoop(st);
      (Session(st', s.sent + 1, answered, Answers(st'.read), s.early + (if answer.None? then 1 else 0)), answer)
    case Unwritten(reached, _) =>
      (Session(st, SentAfter(s, call), answered, s.taken, s.early + (if reached then 1 else 0)), None)
    case WaitFor(name, _) =>
      var (st', _) := Wait(st, name);
      (Session(st', s.sent, answered, Answers(st'.read), s.early), None)
  }

  predicate IsAnswer(m: Message) { m.body.Return? || m.body.Failure? }

  /** QEMU answers commands one by one, in order, and never before they were written; events
      answer none. Messages are numbered in the order they arrive. */
  ghost predicate Fifo(ms: seq<Message>, at: nat, first: nat, sent: nat)
  {
    && (forall i | 0 <= i < |ms| :: ms[i].at == at + i)
    && (forall i | 0 <= i < |ms| && ms[i].owner.Some? :: ms[i].owner.value == first + Answers(ms[..i]))
    && (forall i | 0 <= i < |ms| && ms[i].body.Event? :: ms[i].owner.None?)
    && (forall i | 0 <= i < |ms| && IsAnswer(ms[i]) :: ms[i].owner.Some?)
    && first + Answers(ms) <= sent
  }

  ghost predicate Legal(s: Session, call: Call)
  {
    Fifo(call.arrivals, |s.state.read| + |s.state.inbox|, s.answered, SentAfter(s, call))
  }

  ghost predicate Healthy(s: Session)
  {
    && Partitioned(s.state)
    && Fifo(s.state.read + s.state.inbox, 0, 0, s.sent)
    && s.answered == Answers(s.state.read + s.state.inbox)
    && s.taken == Answers(s.state.read)
    && s.sent <= s.taken + s.early
  }

  lemma {:induction false} AnswersCat(a: seq<Message>, b: seq<Message>)
    ensures Answers(a + b) == Answers(a) + Answers(b)
  {
    if b == [] {
      assert a + b == a;
    } else {
      var n := |b| - 1;
      assert (a + b)[..|a| + n] == a + b[..n];
      AnswersCat(a, b[..n]);
    }
  }

  lemma AnswersBefore(a: seq<Message>, b: seq<Message>, i: nat)
    requires i < |a + b|
    ensures Answers((a + b)[..i]) == if i < |a| then Answers(a[..i]) else Answers(a) + Answers(b[..i - |a|])
  {
    if i < |a| {
      assert (a + b)[..i] == a[..i];
    } else {
      assert (a + b)[..i] == a + b[..i - |a|];
      AnswersCat(a, b[..i - |a|]);
    }
  }

  lemma FifoCat(a: seq<Message>, b: seq<Message>, sent: nat, sent': nat)
    requires Fifo(a, 0, 0, sent) && sent <= sent'
    requires Fifo(b, |a|, Answers(a), sent')
    ensures Fifo(a + b, 0, 0, sent')
  {
    AnswersCat(a, b);
    var ab := a + b;
    forall i | 0 <= i < |ab| && ab[i].owner.Some?
      ensures ab[i].owner.value == Answers(ab[..i])
    {
      AnswersBefore(a, b, i);
      assert i < |a| ==> ab[i] == a[i];
      assert i >= |a| ==> ab[i] == b[i - |a|];
    }
  }

  function SentAfter(s: Session, call: Call): nat
  {
    s.sent + (if call.Execute? || (call.Unwritten? && call.reached) then 1 else 0)
  }

  lemma DeliverKeepsPartition(s: State, arrivals: seq<Message>)
    requires Partitioned(s)
    requires forall i | 0 <= i < |arrivals| :: arrivals[i].at == |s.read| + |s.inbox| + i
    ensures Partitioned(s.(inbox := s.inbox + arrivals))
  {
  }

  lemma DeliverKeeps(s: Session, call: Call)
    requires Healthy(s) && Legal(s, call)
    ensures Partitioned(Deliver(s, call))
    ensures Fifo(Deliver(s, call).read + Deliver(s, call).inbox, 0, 0, SentAfter(s, call))
    ensures Answers(Deliver(s, call).read + Deliver(s, call).inbox) == s.answered + Answers(call.arrivals)
  {
    DeliverKeepsPartition(s.state, call.arrivals);
    var all := s.state.read + s.state.inbox;
    assert Deliver(s, call).read + Deliver(s, call).inbox == all + call.arrivals;
    FifoCat(all, call.arrivals, s.sent, SentAfter(s, call));
    AnswersCat(all, call.arrivals);
  }

  /** What Execute reads: a run of events, and then its answer if it gets one. */
  lemma {:induction false} ExecReads(s: State) returns (run: seq<Message>)
    ensures var (s', answer) := ExecLoop(s);
            && s'.read + s'.inbox == s.read + s.inbox
            && s.read <= s'.read
            && (answer.Some? ==> s'.read == s.read + run + [answer.value] && (forall m | m in run :: m.body.Event?))
    decreases |s.inbox|
  {
    run := [];
    if s.inbox != [] {
      var m, s1 := s.inbox[0], TakeOne(s);
      assert s1.read + s1.inbox == s.read + s.inbox;
      if m.body.Event? {
        var rest := ExecReads(Park(s1, m));
        run := [m] + rest;
        assert s1.read + rest == s.read + run;
      } else {
        assert s.read + run == s.read;
      }
    }
  }

  lemma {:induction false} WaitReadsAll(s: State, name: string)
    ensures var s' := WaitLoop(s, name).0; s'.read + s'.inbox == s.read + s.inbox && s.read <= s'.read
    decreases |s.inbox|
  {
    if s.inbox != [] {
      var m, s1 := s.inbox[0], TakeOne(s);
      assert s1.read + s1.inbox == s.read + s.inbox;
      if !m.body.Unparsable? && !Matches(m, name) {
        WaitReadsAll(if m.body.Event? then Park(s1, m) else s1, name);
      }
    }
  }

  lemma {:induction false} NoAnswersAmongEvents(ms: seq<Message>)
    requires forall m | m in ms :: m.owner.None?
    ensures Answers(ms) == 0
  {
    if ms != [] { NoAnswersAmongEvents(ms[..|ms| - 1]); }
  }

  /** In an orderly stream, the first answer after a run of events answers the next command due. */
  lemma NextDue(all: seq<Message>, sent: nat, before: seq<Message>, run: seq<Message>, m: Message)
    requires Fifo(all, 0, 0, sent) && before + run + [m] <= all
    requires IsAnswer(m) && forall x | x in run :: x.body.Event?
    ensures m.owner == Some(Answers(before)) && Answers(before + run + [m]) == Answers(before) + 1
  {
    var n := |before| + |run|;
    assert all[n] == m && all[..n] == before + run;
    forall x | x in run ensures x.owner.None? {
      var i :| 0 <= i < |run| && run[i] == x;
      assert all[|before| + i] == x;
    }
    NoAnswersAmongEvents(run);
    AnswersCat(before, run);
    assert (before + run + [m])[..n] == before + run;
  }

  /** An Execute that gets an answer reads exactly one answer, and it is the next one due. */
  lemma AnswerIsNextDue(st: State, sent: nat)
    requires Fifo(st.read + st.inbox, 0, 0, sent)
    requires ExecLoop(st).1.Some?
    ensures ExecLoop(st).1.value.owner == Some(Answers(st.read))
    ensures Answers(ExecLoop(st).0.read) == Answers(st.read) + 1
  {
    var st', answer := ExecLoop(st).0, ExecLoop(st).1.value;
    var run := ExecReads(st);
    AnswerIsAnswer(st);
    assert st'.read <= st'.read + st'.inbox;
    NextDue(st.read + st.inbox, sent, st.read, run, answer);
  }

  lemma {:induction false} AnswerIsAnswer(s: State)
    requires ExecLoop(s).1.Some?
    ensures IsAnswer(ExecLoop(s).1.value)
    decreases |s.inbox|
  {
    if s.inbox[0].body.Event? {
      AnswerIsAnswer(Park(TakeOne(s), s.inbox[0]));
    }
  }

  lemma ExecuteKeepsHealthy(s: Session, arrivals: seq<Message>)
    requires Healthy(s) && Legal(s, Execute(arrivals))
    ensures Healthy(Do(s, Execute(arrivals)).0)
  {
    var call := Execute(arrivals);
    DeliverKeeps(s, call);
    var st := Deliver(s, call);
    ExecuteKeepsPartition(st);
    var _ := ExecReads(st);
    if ExecLoop(st).1.Some? {
      AnswerIsNextDue(st, s.sent + 1);
    } else {
      AnswersGrow(st.read, ExecLoop(st).0.read);
    }
  }

  lemma WaitKeepsHealthy(s: Session, name: string, arrivals: seq<Message>)
    requires Healthy(s) && Legal(s, WaitFor(name, arrivals))
    ensures Healthy(Do(s, WaitFor(name, arrivals)).0)
  {
    var call := WaitFor(name, arrivals);
    DeliverKeeps(s, call);
    var st := Deliver(s, call);
    WaitKeepsPartition(st, name);
    WaitReadsAll(st, name);
    AnswersGrow(st.read, Wait(st, name).0.read);
  }

  lemma UnwrittenKeepsHealthy(s: Session, reached: bool, arrivals: seq<Message>)
    requires Healthy(s) && Legal(s, Unwritten(reached, arrivals))
    ensures Healthy(Do(s, Unwritten(reached, arrivals)).0)
  {
    DeliverKeeps(s, Unwritten(reached, arrivals));
  }

  lemma AnswersGrow(a: seq<Message>, b: seq<Message>)
    requires a <= b
    ensures Answers(a) <= Answers(b)
  {
    assert b == a + b[|a|..];
    AnswersCat(a, b[|a|..]);
  }

  function Play(calls: seq<Call>): Session
  {
    if calls == [] then Start else Do(Play(calls[..|calls| - 1]), calls[|calls| - 1]).0
  }

  ghost predicate AllLegal(calls: seq<Call>)
  {
    forall i | 0 <= i < |calls| :: Legal(Play(calls[..i]), calls[i])
  }

  lemma DoKeepsHealthy(s: Session, call: Call)
    requires Healthy(s) && Legal(s, call)
    ensures Healthy(Do(s, call).0)
  {
    match call
    case Execute(arrivals) => ExecuteKeepsHealthy(s, arrivals);
    case Unwritten(reached, arrivals) => UnwrittenKeepsHealthy(s, reached, arrivals);
    case WaitFor(name, arrivals) => WaitKeepsHealthy(s, name, arrivals);
  }

  lemma LegalPrefix(calls: seq<Call>, k: nat)
    requires AllLegal(calls) && k <= |calls|
    ensures AllLegal(calls[..k])
  {
    assert forall i | 0 <= i < k :: calls[..k][..i] == calls[..i];
  }

  lemma {:induction false} EverySessionIsHealthy(calls: seq<Call>)
    requires AllLegal(calls)
    ensures Healthy(Play(calls))
  {
    if calls != [] {
      var n := |calls| - 1;
      LegalPrefix(calls, n);
      EverySessionIsHealthy(calls[..n]);
      DoKeepsHealthy(Play(calls[..n]), calls[n]);
    }
  }

  /** In every session, an event that has been read and was neither matched nor dropped satisfies
      a wait for its name at once: nothing is read, the oldest parked one of that name is matched,
      and the others keep their order. */
  lemma UnmatchedEventSatisfiesWait(calls: seq<Call>, e: Message, name: string)
    requires AllLegal(calls)
    requires var s := Play(calls).state; e in s.read && e.body == Event(name) && e !in s.matched && e !in s.dropped
    ensures var s := Play(calls).state;
            var (s', found) := Wait(s, name);
            && found && s'.inbox == s.inbox && s'.read == s.read && s'.dropped == s.dropped
            && exists i: nat ::
                 && i < |s.events| && s'.events == Without(s.events, i) && s'.matched == s.matched + [s.events[i]]
                 && s.events[i].body == Event(name) && s.events[i].at <= e.at
  {
    EverySessionIsHealthy(calls);
    UndroppedSatisfiesWait(Play(calls).state, e, name);
  }

  lemma UndroppedSatisfiesWait(s: State, e: Message, name: string)
    requires Partitioned(s) && e in s.read && e.body == Event(name) && e !in s.matched && e !in s.dropped
    ensures var (s', found) := Wait(s, name);
            && found && s'.inbox == s.inbox && s'.read == s.read && s'.dropped == s.dropped
            && exists i: nat ::
                 && i < |s.events| && s'.events == Without(s.events, i) && s'.matched == s.matched + [s.events[i]]
                 && s.events[i].body == Event(name) && s.events[i].at <= e.at
  {
    ReadEventIsCounted(s.read, e);
    assert e in Fates(s) && e in s.events && Matches(e, name);
    var i := Oldest(s.events, name).value;
    OldestIsNoYounger(s, e, name, i);
    assert Wait(s, name).0.events == Without(s.events, i);
  }

  lemma OldestIsNoYounger(s: State, e: Message, name: string, i: nat)
    requires Partitioned(s) && e in s.events && e.body == Event(name) && Oldest(s.events, name) == Some(i)
    ensures s.events[i].body == Event(name) && s.events[i].at <= e.at
  {
    ParkedAreEvents(s, i);
    var j :| 0 <= j < |s.events| && s.events[j] == e;
    assert Matches(s.events[j], name);
    assert i <= j;
  }

  lemma {:induction false} ReadEventIsCounted(ms: seq<Message>, e: Message)
    requires e in ms && e.body.Event?
    ensures e in EventsIn(ms)
  {
    if e != ms[|ms| - 1] {
      ReadEventIsCounted(ms[..|ms| - 1], e);
    }
  }

  lemma {:induction false} CountedIsEvent(ms: seq<Message>, e: Message)
    requires e in EventsIn(ms)
    ensures e.body.Event?
  {
    if e in EventsIn(ms[..|ms| - 1]) {
      CountedIsEvent(ms[..|ms| - 1], e);
    }
  }

  lemma ParkedAreEvents(s: State, i: nat)
    requires Partitioned(s) && i < |s.events|
    ensures s.events[i].body.Event?
  {
    assert s.events[i] in Fates(s);
    CountedIsEvent(s.read, s.events[i]);
  }

  /** An Execute returns its own command's answer exactly when every answer due before it has
      been read; in particular always, as long as no Execute ended early. */
  lemma ExecuteGetsItsOwnAnswer(calls: seq<Call>, arrivals: seq<Message>)
    requires AllLegal(calls) && Legal(Play(calls), Execute(arrivals))
    requires Do(Play(calls), Execute(arrivals)).1.Some?
    ensures var s := Play(calls);
            var answer := Do(s, Execute(arrivals)).1.value;
            && (answer.owner == Some(s.sent) <==> s.taken == s.sent)
            && (s.early == 0 ==> answer.owner == Some(s.sent))
  {
    var s := Play(calls);
    EverySessionIsHealthy(calls);
    DeliverKeeps(s, Execute(arrivals));
    AnswerIsNextDue(Deliver(s, Execute(arrivals)), s.sent + 1);
    var all := s.state.read + s.state.inbox;
    AnswersCat(s.state.read, s.state.inbox);
  }

  /** How many commands have no reply read: the next reply read answers the oldest of them. */
  function Lag(s: Session): int
  {
    s.sent - s.taken
  }

  /** An Execute reads at most one reply, so the lag stays or grows by one. */
  lemma {:induction false} ExecReadsOneReply(st: State)
    requires forall m | m in st.inbox && m.body.Event? :: m.owner.None?
    ensures Answers(ExecLoop(st).0.read) <= Answers(st.read) + 1
    decreases |st.inbox|
  {
    if st.inbox != [] {
      var m, s1 := st.inbox[0], TakeOne(st);
      assert s1.read[..|st.read|] == st.read;
      if m.body.Event? {
        assert forall x | x in s1.inbox :: x in st.inbox;
        ExecReadsOneReply(Park(s1, m));
      }
    }
  }

  lemma LagStaysOrGrows(s: Session, call: Call)
    requires Healthy(s) && Legal(s, call) && !call.WaitFor?
    ensures Lag(s) <= Lag(Do(s, call).0) <= Lag(s) + 1
  {
    if call.Execute? {
      DeliverKeeps(s, call);
      var st := Deliver(s, call);
      InboxOfFifo(st, SentAfter(s, call));
      ExecReadsOneReply(st);
      var _ := ExecReads(st);
      AnswersGrow(st.read, ExecLoop(st).0.read);
    }
  }

  lemma InboxOfFifo(st: State, sent: nat)
    requires Fifo(st.read + st.inbox, 0, 0, sent)
    ensures forall m | m in st.inbox && m.body.Event? :: m.owner.None?
  {
    var all := st.read + st.inbox;
    forall m | m in st.inbox && m.body.Event? ensures m.owner.None? {
      var i :| 0 <= i < |st.inbox| && st.inbox[i] == m;
      assert all[|st.read| + i] == m;
    }
  }

  /** Calls `j` up to `k` are commands only, as in the wait for a migration's end. */
  predicate CommandsOnly(calls: seq<Call>, j: nat, k: nat)
    requires k <= |calls|
  {
    forall i | j <= i < k :: !calls[i].WaitFor?
  }

  /** The lag before call `k`. */
  function LagAt(calls: seq<Call>, k: nat): int
    requires k <= |calls|
  {
    Lag(Play(calls[..k]))
  }

  lemma OneCommandLags(calls: seq<Call>, k: nat)
    requires AllLegal(calls) && k < |calls| && !calls[k].WaitFor?
    ensures LagAt(calls, k) <= LagAt(calls, k + 1)
  {
    LegalPrefix(calls, k);
    EverySessionIsHealthy(calls[..k]);
    LagStaysOrGrows(Play(calls[..k]), calls[k]);
    assert calls[..k + 1][..k] == calls[..k];
  }

  lemma {:induction false} StaysExactly(xs: seq<int>, j: nat, k: nat)
    requires j <= k < |xs| && forall i | j <= i < k :: xs[i] <= xs[i + 1]
    ensures xs[j] <= xs[k]
    ensures xs[j] == xs[k] <==> forall i | j <= i < k :: xs[i] == xs[i + 1]
  {
    if j < k {
      StaysExactly(xs, j, k - 1);
    }
  }

  /** The lag before each call, and at the end. */
  function Lags(calls: seq<Call>): (xs: seq<int>)
    ensures |xs| == |calls| + 1 && forall i | 0 <= i <= |calls| :: xs[i] == LagAt(calls, i)
  {
    seq(|calls| + 1, i requires 0 <= i <= |calls| => LagAt(calls, i))
  }

  /** Over a stretch of commands the lag never shrinks, and stays exactly if each had a reply read. */
  lemma LagOverCommands(calls: seq<Call>, xs: seq<int>, j: nat, k: nat)
    requires AllLegal(calls) && j <= k <= |calls| && CommandsOnly(calls, j, k) && xs == Lags(calls)
    ensures xs[j] <= xs[k]
    ensures xs[j] == xs[k] <==> forall i | j <= i < k :: xs[i] == xs[i + 1]
  {
    forall i | j <= i < k ensures xs[i] <= xs[i + 1] {
      OneCommandLags(calls, i);
    }
    StaysExactly(xs, j, k);
  }

  /** When a query's answer cannot be an old one: in a stretch of commands, an answered command has
      its own answer exactly if none was outstanding when the stretch began and every command of the
      stretch before it had a reply read, so that the lag stayed. A query that went unanswered makes
      all later answers of the same wait stale. */
  lemma FreshAnswerExactly(calls: seq<Call>, j: nat, arrivals: seq<Message>)
    requires AllLegal(calls) && j <= |calls| && CommandsOnly(calls, j, |calls|)
    requires Legal(Play(calls), Execute(arrivals)) && Do(Play(calls), Execute(arrivals)).1.Some?
    ensures Do(Play(calls), Execute(arrivals)).1.value.owner == Some(Play(calls).sent)
            <==> var lag := Lags(calls); lag[j] == 0 && forall i | j <= i < |calls| :: lag[i] == lag[i + 1]
  {
    var lag := Lags(calls);
    LagOverCommands(calls, lag, j, |calls|);
    OwnAnswerWithoutLag(calls, arrivals, lag);
    LagsAreNatural(calls, lag, j);
  }

  lemma OwnAnswerWithoutLag(calls: seq<Call>, arrivals: seq<Message>, lag: seq<int>)
    requires AllLegal(calls) && lag == Lags(calls)
    requires Legal(Play(calls), Execute(arrivals)) && Do(Play(calls), Execute(arrivals)).1.Some?
    ensures Do(Play(calls), Execute(arrivals)).1.value.owner == Some(Play(calls).sent) <==> lag[|calls|] == 0
  {
    ExecuteGetsItsOwnAnswer(calls, arrivals);
    assert calls[..|calls|] == calls;
  }

  lemma LagsAreNatural(calls: seq<Call>, lag: seq<int>, j: nat)
    requires AllLegal(calls) && j <= |calls| && lag == Lags(calls)
    ensures lag[j] >= 0
  {
    LegalPrefix(calls, j);
    EverySessionIsHealthy(calls[..j]);
    LagIsNatural(Play(calls[..j]));
  }

  lemma LagIsNatural(s: Session)
    requires Healthy(s)
    ensures Lag(s) >= 0
  {
    AnswersCat(s.state.read, s.state.inbox);
  }

  /** From any session with nothing outstanding: if an Execute times out with no answer and the
      answer arrives during the next one, that next Execute returns the stale answer. */
  lemma StaleAnswerAfterEarlyEnd(s: Session, late: Message)
    requires Healthy(s) && s.state.inbox == [] && s.taken == s.sent
    requires late == Message(|s.state.read|, Some(s.sent), Return)
    ensures var s1 := Do(s, Execute([])).0;
            && s1.early == s.early + 1 && Legal(s, Execute([])) && Legal(s1, Execute([late]))
            && Do(s1, Execute([late])).1 == Some(late) && late.owner != Some(s1.sent)
  {
    var s1 := Do(s, Execute([])).0;
    var st := Deliver(s, Execute([]));
    assert st.inbox == [] && st == s.state;
    assert s.state.read + s.state.inbox == s.state.read;
    assert s1.state == s.state;
    var st1 := Deliver(s1, Execute([late]));
    assert st1.inbox == [late] && [late][..0] == [];
    assert Answers([late]) == 1;
    assert ExecLoop(st1) == (TakeOne(st1), Some(late));
  }
}
