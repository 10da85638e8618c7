/** The source's wait for its drive mirrors: polling the block jobs until every mirror has
    reported ready, in whatever order the job table is walked. */
module StorageSync {
  /** One entry of a block-job listing; `ended` stands for the states "concluded" and "null". */
  datatype Entry = Entry(device: string, ready: bool, ended: bool)

  /** What the loop remembers about one mirror. */
  datatype JobState = JobState(seen: bool, ready: bool)

  /** One turn of the loop: the deadline was met (at any of the three places it is looked at),
      the query failed, its answer was malformed, or jobs were listed. `late` holds the mirrors
      for which the clock, if read, was past the time by which a job must have appeared. */
  datatype Poll = Expired | QueryFailed | BadAnswer | Listed(entries: seq<Entry>, late: set<string>)

  datatype Reason = Disappeared | NeverAppeared | Ended

  datatype Outcome =
    | Synced
    | TimedOut
    | QueryError
    | AnswerError
    | JobFailed(id: string, reason: Reason)
    | Waiting(state: map<string, JobState>)

  // ---------------------------------------------------------------- one listing

  /** Whether a device is listed, and the last entry that names it. */
  predicate Lists(entries: seq<Entry>, id: string)
  {
    exists i | 0 <= i < |entries| :: entries[i].device == id
  }

  /** Entry `i` is the last that names the device. */
  predicate IsLastEntry(entries: seq<Entry>, id: string, i: int)
  {
    0 <= i < |entries| && entries[i].device == id && forall j | i < j < |entries| :: entries[j].device != id
  }

  function LastEntry(entries: seq<Entry>, id: string): (e: Entry)
    requires Lists(entries, id)
    ensures e in entries && e.device == id
  {
    var n := |entries| - 1;
    if entries[n].device == id then entries[n] else
      assert exists i | 0 <= i < n :: entries[..n][i].device == id by {
        var i :| 0 <= i < |entries| && entries[i].device == id;
        assert entries[..n][i].device == id;
      }
      LastEntry(entries[..n], id)
  }

  /** That entry is the last one listed for the device. */
  lemma {:induction false} LastEntryIsLast(entries: seq<Entry>, id: string) returns (i: nat)
    requires Lists(entries, id)
    ensures IsLastEntry(entries, id, i) && entries[i] == LastEntry(entries, id)
  {
    var n := |entries| - 1;
    i := n;
    if entries[n].device != id {
      var k :| 0 <= k < |entries| && entries[k].device == id;
      assert entries[..n][k].device == id;
      i := LastEntryIsLast(entries[..n], id);
    }
  }

  predicate ReadyIn(entries: seq<Entry>, id: string)
  {
    Lists(entries, id) && LastEntry(entries, id).ready
  }

  predicate EndedIn(entries: seq<Entry>, id: string)
  {
    Lists(entries, id) && !LastEntry(entries, id).ready && LastEntry(entries, id).ended
  }

  ghost predicate Indexed(entries: seq<Entry>, m: map<string, Entry>)
  {
    forall id :: (id in m <==> Lists(entries, id)) && (id in m ==> m[id] == LastEntry(entries, id))
  }

  lemma IndexedSnoc(entries: seq<Entry>, e: Entry, m: map<string, Entry>)
    requires Indexed(entries, m)
    ensures Indexed(entries + [e], m[e.device := e])
  {
    var all := entries + [e];
    assert all[..|all| - 1] == entries;
    forall id ensures (id in m[e.device := e] <==> Lists(all, id)) &&
                      (id in m[e.device := e] ==> m[e.device := e][id] == LastEntry(all, id)) {
      if id == e.device {
        assert all[|entries|].device == id;
      } else if Lists(entries, id) {
        var i :| 0 <= i < |entries| && entries[i].device == id;
        assert all[i].device == id;
      }
    }
  }

  method IndexJobs(entries: seq<Entry>) returns (m: map<string, Entry>)
    ensures Indexed(entries, m)
  {
    m := map[];
    for i := 0 to |entries|
      invariant Indexed(entries[..i], m)
    {
      IndexedSnoc(entries[..i], entries[i], m);
      assert entries[..i] + [entries[i]] == entries[..i + 1];
      m := m[entries[i].device := entries[i]];
    }
    assert entries[..|entries|] == entries;
  }

  // ---------------------------------------------------------------- one turn

  /** Why a mirror that is not ready yet breaks the wait in this listing, if it does. */
  predicate Breaks(s: JobState, p: Poll, id: string, reason: Reason)
    requires p.Listed?
  {
    !s.ready &&
    match reason
    case Disappeared => !Lists(p.entries, id) && s.seen
    case NeverAppeared => !Lists(p.entries, id) && !s.seen && id in p.late
    case Ended => EndedIn(p.entries, id)
  }

  function Advance(s: JobState, p: Poll, id: string): JobState
    requires p.Listed?
  {
    if s.ready || !Lists(p.entries, id) then s else JobState(true, LastEntry(p.entries, id).ready)
  }

  /** What a turn may answer, with no order among the mirrors. */
  predicate TurnAnswers(state: map<string, JobState>, p: Poll, out: Outcome)
  {
    match p
    case Expired => out == TimedOut
    case QueryFailed => out == QueryError
    case BadAnswer => out == AnswerError
    case Listed(_, _) =>
      match out
      case JobFailed(id, reason) => id in state && Breaks(state[id], p, id, reason)
      case Synced =>
        forall id | id in state :: !BreaksIn(state[id], p, id) && Advance(state[id], p, id).ready
      case Waiting(next) =>
        && next.Keys == state.Keys
        && (forall id | id in state :: !BreaksIn(state[id], p, id) && next[id] == Advance(state[id], p, id))
        && exists id | id in next :: !next[id].ready
      case _ => false
  }

  predicate BreaksIn(s: JobState, p: Poll, id: string)
    requires p.Listed?
  {
    Breaks(s, p, id, Disappeared) || Breaks(s, p, id, NeverAppeared) || Breaks(s, p, id, Ended)
  }

  /** One walk over the job table. The table is a hash map, so each mirror is picked freely. */
  method Turn(state: map<string, JobState>, p: Poll) returns (out: Outcome)
    ensures TurnAnswers(state, p, out)
  {
    if p.Expired? { return TimedOut; }
    if p.QueryFailed? { return QueryError; }
    if p.BadAnswer? { return AnswerError; }
    var jobs := IndexJobs(p.entries);
    var allReady, next, rest := true, state, state.Keys;
    while rest != {}
      invariant rest <= state.Keys == next.Keys
      invariant forall id | id in rest :: next[id] == state[id]
      invariant forall id | id in state.Keys - rest ::
                  !BreaksIn(state[id], p, id) && next[id] == Advance(state[id], p, id)
      invariant allReady <==> forall id | id in state.Keys - rest :: next[id].ready
    {
      var id :| id in rest;
      ghost var was := rest;
      rest := rest - {id};
      assert state.Keys - rest == (state.Keys - was) + {id};
      var js := next[id];
      if !js.ready {
        if id !in jobs {
          if js.seen { return JobFailed(id, Disappeared); }
          if id in p.late { return JobFailed(id, NeverAppeared); }
          allReady := false;
        } else {
          next := next[id := JobState(true, jobs[id].ready)];
          if !jobs[id].ready {
            allReady := false;
            if jobs[id].ended { return JobFailed(id, Ended); }
          }
        }
      }
    }
    assert state.Keys - rest == state.Keys;
    out := if allReady then Synced else Waiting(next);
  }

  // ---------------------------------------------------------------- whole waits, from the listings alone

  predicate WasListed(polls: seq<Poll>, k: nat, id: string)
    requires k <= |polls|
  {
    exists j | 0 <= j < k :: polls[j].Listed? && Lists(polls[j].entries, id)
  }

  predicate WasReady(polls: seq<Poll>, k: nat, id: string)
    requires k <= |polls|
  {
    exists j | 0 <= j < k :: polls[j].Listed? && ReadyIn(polls[j].entries, id)
  }

  /** Poll `k` breaks the wait for mirror `id`: not ready before it, and now gone after having been
      listed, still missing when late, or ended without having become ready. */
  predicate BrokenAt(polls: seq<Poll>, k: nat, id: string, reason: Reason)
    requires k < |polls| && polls[k].Listed?
  {
    !WasReady(polls, k, id) &&
    match reason
    case Disappeared => !Lists(polls[k].entries, id) && WasListed(polls, k, id)
    case NeverAppeared => !Lists(polls[k].entries, id) && !WasListed(polls, k, id) && id in polls[k].late
    case Ended =>
      Lists(polls[k].entries, id) && !LastEntry(polls[k].entries, id).ready && LastEntry(polls[k].entries, id).ended
  }

  ghost predicate Unbroken(ids: set<string>, polls: seq<Poll>, k: nat)
    requires k < |polls| && polls[k].Listed?
  {
    forall id, reason | id in ids :: !BrokenAt(polls, k, id, reason)
  }

  ghost predicate AllReady(ids: set<string>, polls: seq<Poll>, k: nat)
    requires k <= |polls|
  {
    forall id | id in ids :: WasReady(polls, k, id)
  }

  /** Poll `k` leaves the wait undecided. */
  ghost predicate StillWaiting(ids: set<string>, polls: seq<Poll>, k: nat)
    requires k < |polls|
  {
    polls[k].Listed? && Unbroken(ids, polls, k) && !AllReady(ids, polls, k + 1)
  }

  /** What poll `k` may decide. */
  ghost predicate DecidedAs(ids: set<string>, polls: seq<Poll>, k: nat, out: Outcome)
    requires k < |polls|
  {
    match polls[k]
    case Expired => out == TimedOut
    case QueryFailed => out == QueryError
    case BadAnswer => out == AnswerError
    case Listed(_, _) =>
      || (out.JobFailed? && out.id in ids && BrokenAt(polls, k, out.id, out.reason))
      || (out.Synced? && Unbroken(ids, polls, k) && AllReady(ids, polls, k + 1))
  }

  /** The table the loop holds before poll `k`, told from the listings alone. */
  ghost predicate Remembers(ids: set<string>, polls: seq<Poll>, k: nat, state: map<string, JobState>)
    requires k <= |polls|
  {
    state.Keys == ids &&
    forall id | id in ids :: Known(polls, k, id, state[id])
  }

  predicate Known(polls: seq<Poll>, k: nat, id: string, s: JobState)
    requires k <= |polls|
  {
    s.ready == WasReady(polls, k, id) && (!s.ready ==> s.seen == WasListed(polls, k, id))
  }

  lemma WasReadyStep(polls: seq<Poll>, k: nat, id: string)
    requires k < |polls| && polls[k].Listed?
    ensures WasReady(polls, k + 1, id) <==> WasReady(polls, k, id) || ReadyIn(polls[k].entries, id)
    ensures WasListed(polls, k + 1, id) <==> WasListed(polls, k, id) || Lists(polls[k].entries, id)
  {
  }

  lemma BreaksMatches(polls: seq<Poll>, k: nat, id: string, s: JobState, reason: Reason)
    requires k < |polls| && polls[k].Listed? && Known(polls, k, id, s)
    ensures Breaks(s, polls[k], id, reason) <==> BrokenAt(polls, k, id, reason)
  {
  }

  lemma AdvanceMatches(polls: seq<Poll>, k: nat, id: string, s: JobState)
    requires k < |polls| && polls[k].Listed? && Known(polls, k, id, s)
    ensures Known(polls, k + 1, id, Advance(s, polls[k], id))
  {
    WasReadyStep(polls, k, id);
  }

  lemma EachMatches(ids: set<string>, polls: seq<Poll>, k: nat, state: map<string, JobState>)
    requires k < |polls| && polls[k].Listed? && Remembers(ids, polls, k, state)
    ensures forall id, reason | id in ids :: Breaks(state[id], polls[k], id, reason) <==> BrokenAt(polls, k, id, reason)
    ensures forall id | id in ids :: Known(polls, k + 1, id, Advance(state[id], polls[k], id))
  {
    forall id, reason | id in ids
      ensures Breaks(state[id], polls[k], id, reason) <==> BrokenAt(polls, k, id, reason)
    {
      BreaksMatches(polls, k, id, state[id], reason);
    }
    forall id | id in ids ensures Known(polls, k + 1, id, Advance(state[id], polls[k], id)) {
      AdvanceMatches(polls, k, id, state[id]);
    }
  }

  /** No mirror breaks in the walk exactly if none is broken according to the listings. */
  lemma UnbrokenMatches(ids: set<string>, polls: seq<Poll>, k: nat, state: map<string, JobState>)
    requires k < |polls| && polls[k].Listed? && Remembers(ids, polls, k, state)
    requires forall id | id in ids :: !BreaksIn(state[id], polls[k], id)
    ensures Unbroken(ids, polls, k)
  {
    EachMatches(ids, polls, k, state);
    forall id, reason | id in ids ensures !BrokenAt(polls, k, id, reason) {
      assert !BreaksIn(state[id], polls[k], id);
      match reason case Disappeared => case NeverAppeared => case Ended =>
    }
  }

  lemma TurnMatches(ids: set<string>, polls: seq<Poll>, k: nat, state: map<string, JobState>, out: Outcome)
    requires k < |polls| && Remembers(ids, polls, k, state) && TurnAnswers(state, polls[k], out)
    ensures if out.Waiting? then StillWaiting(ids, polls, k) && Remembers(ids, polls, k + 1, out.state)
            else DecidedAs(ids, polls, k, out)
  {
    if polls[k].Listed? {
      EachMatches(ids, polls, k, state);
      if !out.JobFailed? {
        UnbrokenMatches(ids, polls, k, state);
      }
    }
  }

  /** The whole wait, told from the listings alone: the answer is the one the first deciding poll
      allows, and a wait that is still open has decided nothing so far. */
  method WaitForStorageSync(ids: set<string>, polls: seq<Poll>) returns (out: Outcome, n: nat)
    ensures n <= |polls|
    ensures out.Waiting? ==> n == |polls| && forall k | 0 <= k < n :: StillWaiting(ids, polls, k)
    ensures !out.Waiting? ==> n > 0 && DecidedAs(ids, polls, n - 1, out)
                              && forall k | 0 <= k < n - 1 :: StillWaiting(ids, polls, k)
  {
    var state := map id | id in ids :: JobState(false, false);
    n := 0;
    while n < |polls|
      invariant n <= |polls|
      invariant Remembers(ids, polls, n, state)
      invariant forall k | 0 <= k < n :: StillWaiting(ids, polls, k)
    {
      out := Turn(state, polls[n]);
      TurnMatches(ids, polls, n, state, out);
      n := n + 1;
      if !out.Waiting? { return; }
      state := out.state;
    }
    out := Waiting(state);
  }

  /** What a success promises: every mirror reported ready, at a poll up to which it was never
      missing once listed, and never ended. */
  lemma SyncedMeansMirrored(ids: set<string>, polls: seq<Poll>, n: nat, id: string) returns (k: nat)
    requires 0 < n <= |polls| && DecidedAs(ids, polls, n - 1, Synced) && id in ids
    requires forall j | 0 <= j < n - 1 :: StillWaiting(ids, polls, j)
    ensures k < n && polls[k].Listed? && ReadyIn(polls[k].entries, id)
    ensures forall i, j | 0 <= i < j <= k && polls[i].Listed? && Lists(polls[i].entries, id) ::
              polls[j].Listed? && Lists(polls[j].entries, id) && !EndedIn(polls[j].entries, id)
  {
    k := FirstReady(polls, n, id);
    forall i, j | 0 <= i < j <= k && polls[i].Listed? && Lists(polls[i].entries, id)
      ensures polls[j].Listed? && Lists(polls[j].entries, id) && !EndedIn(polls[j].entries, id)
    {
      assert polls[j].Listed? && Unbroken(ids, polls, j) by {
        if j < n - 1 { assert StillWaiting(ids, polls, j); }
      }
      assert !BrokenAt(polls, j, id, Disappeared) && !BrokenAt(polls, j, id, Ended);
    }
  }

  lemma {:induction false} FirstReady(polls: seq<Poll>, n: nat, id: string) returns (k: nat)
    requires n <= |polls| && WasReady(polls, n, id)
    ensures k < n && polls[k].Listed? && ReadyIn(polls[k].entries, id) && !WasReady(polls, k, id)
  {
    if WasReady(polls, n - 1, id) {
      k := FirstReady(polls, n - 1, id);
    } else {
      k := n - 1;
    }
  }

  /** Neither the answer of one walk nor the state it carries on depends on the order, except that
      a failure names one of the mirrors that are broken. */
  lemma TurnIsOrderFree(state: map<string, JobState>, p: Poll, a: Outcome, b: Outcome)
    requires TurnAnswers(state, p, a) && TurnAnswers(state, p, b)
    ensures a == b || (a.JobFailed? && b.JobFailed?)
  {
    if a.Waiting? && b.Waiting? {
      assert a.state == b.state;
    }
  }

  /** The answer does not depend on the order the table is walked in, except that it names one of
      the mirrors that are broken. */
  lemma AnswerIsOrderFree(ids: set<string>, polls: seq<Poll>, n: nat, a: Outcome, b: Outcome)
    requires n < |polls| && DecidedAs(ids, polls, n, a) && DecidedAs(ids, polls, n, b)
    ensures a == b || (a.JobFailed? && b.JobFailed?)
  {
  }

  /** A poll decides exactly if it does not leave the wait open. */
  lemma DecidesOrWaits(ids: set<string>, polls: seq<Poll>, k: nat)
    requires k < |polls|
    ensures StillWaiting(ids, polls, k) <==> !exists out :: DecidedAs(ids, polls, k, out)
  {
    if !StillWaiting(ids, polls, k) {
      if !polls[k].Listed? {
        assert DecidedAs(ids, polls, k, if polls[k].Expired? then TimedOut
          else if polls[k].QueryFailed? then QueryError else AnswerError);
      } else if !Unbroken(ids, polls, k) {
        var id, reason :| id in ids && BrokenAt(polls, k, id, reason);
        assert DecidedAs(ids, polls, k, JobFailed(id, reason));
      } else {
        assert DecidedAs(ids, polls, k, Synced);
      }
    }
  }
}
