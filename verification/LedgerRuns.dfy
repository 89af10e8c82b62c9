/** What the ledger says after every sequence of polls, whatever pruning and the cap removed. */
module LedgerRuns {
  import opened Options
  import opened Strings
  import opened JobStates
  import opened JobLedger
  import opened FiniteSets

  /** A recorded life of one ledger: it starts empty and each poll takes it one step on. */
  ghost predicate Trace(states: seq<Jobs>, polls: seq<Poll>) {
    && |states| == |polls| + 1 && states[0] == map[]
    && forall i | 0 <= i < |polls| :: Observes(states[i], polls[i], states[i + 1])
  }

  predicate TrimmedIds(poll: Poll) {
    forall row <- poll.rows :: Strip(row.rawId) == row.rawId
  }

  // ---------------------------------------------------------------- replay

  /** The state the last row of a poll gives a job. */
  function LastState(rows: seq<Sighting>, id: string): Option<string> {
    if rows == [] then None
    else if Strip(rows[|rows| - 1].rawId) == id then Some(StateOr(rows[|rows| - 1].state))
    else LastState(rows[..|rows| - 1], id)
  }

  /** The promise in its simplest form: the last row wins, and absence from a poll that infers
      disappearance makes a job unknown unless it had ended. */
  function ReplayPoll(known: Option<string>, poll: Poll, id: string): Option<string> {
    var told := LastState(poll.rows, id);
    if told.Some? then told
    else if known.Some? && poll.infer && !IsTerminal(known.value) then Some(UNKNOWN)
    else known
  }

  function Replay(polls: seq<Poll>, id: string): Option<string> {
    if polls == [] then None
    else ReplayPoll(Replay(polls[..|polls| - 1], id), polls[|polls| - 1], id)
  }

  lemma SightedSaysState(prior: Option<Entry>, id: string, row: Sighting, now: int)
    ensures Sighted(prior, id, row, now).state == StateOr(row.state)
  {
  }

  lemma FoldRowTells(jobs: Jobs, row: Sighting, now: int, id: string)
    requires id != ""
    ensures Strip(row.rawId) == id ==>
              id in FoldRow(jobs, row, now) && FoldRow(jobs, row, now)[id].state == StateOr(row.state)
    ensures Strip(row.rawId) != id ==> Lookup(FoldRow(jobs, row, now), id) == Lookup(jobs, id)
  {
    SightedSaysState(Lookup(jobs, id), id, row, now);
  }

  lemma {:induction false} FoldRowsReplays(jobs: Jobs, rows: seq<Sighting>, now: int, id: string)
    requires id != ""
    ensures var seen := FoldRows(jobs, rows, now);
            var told := LastState(rows, id);
            && (id in seen <==> id in jobs || told.Some?)
            && (told.Some? ==> seen[id].state == told.value)
            && (told.None? ==> Lookup(seen, id) == Lookup(jobs, id))
  {
    if rows != [] {
      var front, row := rows[..|rows| - 1], rows[|rows| - 1];
      FoldRowsReplays(jobs, front, now, id);
      FoldRowTells(FoldRows(jobs, front, now), row, now, id);
    }
  }

  lemma {:induction false} ToldIffListed(rows: seq<Sighting>, id: string)
    requires forall row <- rows :: Strip(row.rawId) == row.rawId
    ensures LastState(rows, id).Some? <==> id in RawIds(rows)
  {
    if rows != [] {
      var front := rows[..|rows| - 1];
      ToldIffListed(front, id);
      assert rows == front + [rows[|rows| - 1]];
      if LastState(rows, id).Some? && Strip(rows[|rows| - 1].rawId) == id {
        assert rows[|rows| - 1] in rows;
      }
    }
  }

  lemma {:induction false} FoldRowsHasNoEmptyKey(jobs: Jobs, rows: seq<Sighting>, now: int)
    requires "" !in jobs
    ensures "" !in FoldRows(jobs, rows, now)
  {
    if rows != [] {
      FoldRowsHasNoEmptyKey(jobs, rows[..|rows| - 1], now);
    }
  }

  lemma FoldedReplays(jobs: Jobs, poll: Poll, id: string)
    requires id != "" && TrimmedIds(poll)
    ensures var known := if id in jobs then Some(jobs[id].state) else None;
            id in Folded(jobs, poll) ==> Some(Folded(jobs, poll)[id].state) == ReplayPoll(known, poll, id)
    ensures id in Folded(jobs, poll) <==> id in jobs || LastState(poll.rows, id).Some?
  {
    FoldRowsReplays(jobs, poll.rows, poll.now, id);
    ToldIffListed(poll.rows, id);
  }

  lemma StepReplays(jobs: Jobs, poll: Poll, jobs': Jobs, id: string)
    requires "" !in jobs && TrimmedIds(poll) && Observes(jobs, poll, jobs') && id in jobs'
    ensures var known := if id in jobs then Some(jobs[id].state) else None;
            Some(jobs'[id].state) == ReplayPoll(known, poll, id)
    ensures id !in jobs ==> LastState(poll.rows, id).Some?
    ensures "" !in jobs'
  {
    FoldRowsHasNoEmptyKey(jobs, poll.rows, poll.now);
    assert jobs'[id] == Folded(jobs, poll)[id];
    FoldedReplays(jobs, poll, id);
  }

  /** For every life of the ledger with trimmed ids: the state of every job still held, pruned and
      seen again or not, is the replay of all its sightings. */
  lemma {:induction false} LedgerReplaysSightings(states: seq<Jobs>, polls: seq<Poll>, id: string)
    requires Trace(states, polls) && forall poll <- polls :: TrimmedIds(poll)
    ensures "" !in states[|polls|]
    ensures id in states[|polls|] ==> Replay(polls, id) == Some(states[|polls|][id].state)
  {
    if polls != [] {
      var n := |polls| - 1;
      LedgerReplaysSightings(states[..n + 1], polls[..n], id);
      assert Observes(states[n], polls[n], states[n + 1]) && polls[n] in polls;
      if "" in states[n + 1] {
        StepReplays(states[n], polls[n], states[n + 1], "");
      }
      if id in states[n + 1] {
        StepReplays(states[n], polls[n], states[n + 1], id);
      }
    }
  }

  predicate Mentions(poll: Poll, id: string) {
    LastState(poll.rows, id).Some?
  }

  function LastTrue(flags: seq<bool>): (r: Option<nat>)
    ensures r.Some? ==> r.value < |flags| && flags[r.value]
    ensures forall i | 0 <= i < |flags| && flags[i] :: r.Some? && i <= r.value
  {
    if flags == [] then None
    else if flags[|flags| - 1] then Some(|flags| - 1)
    else LastTrue(flags[..|flags| - 1])
  }

  /** The last poll that mentioned a job. */
  function LastSighting(polls: seq<Poll>, id: string): (r: Option<nat>)
    ensures r.Some? ==> r.value < |polls| && Mentions(polls[r.value], id)
  {
    LastTrue(seq(|polls|, i requires 0 <= i < |polls| => Mentions(polls[i], id)))
  }

  lemma LastSightingExtends(front: seq<Poll>, poll: Poll, id: string)
    ensures LastSighting(front + [poll], id)
            == if Mentions(poll, id) then Some(|front|) else LastSighting(front, id)
  {
    var polls := front + [poll];
    var flags := seq(|polls|, i requires 0 <= i < |polls| => Mentions(polls[i], id));
    assert flags[..|front|] == seq(|front|, i requires 0 <= i < |front| => Mentions(front[i], id));
  }

  predicate InfersAfter(polls: seq<Poll>, k: nat) {
    exists i | k < i < |polls| :: polls[i].infer
  }

  /** The state after the last sighting, made unknown if the job had not ended and a later poll
      inferred its disappearance. */
  function ClosedForm(polls: seq<Poll>, id: string): Option<string> {
    var k := LastSighting(polls, id);
    if k.None? then None else
      var told := LastState(polls[k.value].rows, id).value;
      if !IsTerminal(told) && InfersAfter(polls, k.value) then Some(UNKNOWN) else Some(told)
  }

  lemma InfersAfterExtends(front: seq<Poll>, poll: Poll, k: nat)
    requires k < |front|
    ensures InfersAfter(front + [poll], k) <==> InfersAfter(front, k) || poll.infer
  {
    var polls := front + [poll];
    if InfersAfter(front, k) {
      var i :| k < i < |front| && front[i].infer;
      assert polls[i].infer;
    }
    if poll.infer { assert polls[|front|].infer; }
    if InfersAfter(polls, k) {
      var i :| k < i < |polls| && polls[i].infer;
      assert i < |front| ==> front[i].infer;
    }
  }

  lemma ClosedFormFollowsPoll(front: seq<Poll>, poll: Poll, id: string)
    ensures ClosedForm(front + [poll], id) == ReplayPoll(ClosedForm(front, id), poll, id)
  {
    var polls := front + [poll];
    LastSightingExtends(front, poll, id);
    UnknownIsNotTerminal();
    var k := LastSighting(front, id);
    if Mentions(poll, id) {
      assert polls[|front|] == poll && !InfersAfter(polls, |front|);
    } else if k.Some? {
      assert polls[k.value] == front[k.value];
      InfersAfterExtends(front, poll, k.value);
    }
  }

  /** The replay, poll by poll, comes to the closed form. */
  lemma {:induction false} ReplayInClosedForm(polls: seq<Poll>, id: string)
    ensures Replay(polls, id) == ClosedForm(polls, id)
  {
    if polls == [] {
      assert LastSighting(polls, id).None?;
    } else {
      var n := |polls| - 1;
      var front, poll := polls[..n], polls[n];
      assert polls == front + [poll];
      calc {
        Replay(polls, id);
        ReplayPoll(Replay(front, id), poll, id);
        { ReplayInClosedForm(front, id); }
        ReplayPoll(ClosedForm(front, id), poll, id);
        { ClosedFormFollowsPoll(front, poll, id); }
        ClosedForm(polls, id);
      }
    }
  }

  /** A held job counts as ended if and only if the last row that mentioned it said so: absence never
      ends a job, and an ended one stays ended until a live row says otherwise. */
  lemma EndedIffLastRowSaysSo(states: seq<Jobs>, polls: seq<Poll>, id: string)
    requires Trace(states, polls) && forall poll <- polls :: TrimmedIds(poll)
    requires id in states[|polls|]
    ensures LastSighting(polls, id).Some?
    ensures IsTerminal(states[|polls|][id].state)
            <==> IsTerminal(LastState(polls[LastSighting(polls, id).value].rows, id).value)
  {
    LedgerReplaysSightings(states, polls, id);
    ReplayInClosedForm(polls, id);
    UnknownIsNotTerminal();
  }

  /** Untrimmed ids break the promise exactly like this: in an inferring poll a sighted, live job keeps
      the state it was just given if and only if its id also arrived without white space around it. */
  lemma UntrimmedSightingSurvivesIff(jobs: Jobs, poll: Poll, id: string)
    requires poll.infer && id != "" && LastState(poll.rows, id).Some?
    requires !IsTerminal(LastState(poll.rows, id).value) && LastState(poll.rows, id).value != UNKNOWN
    ensures id in Folded(jobs, poll)
    ensures Folded(jobs, poll)[id].state == LastState(poll.rows, id).value <==> id in RawIds(poll.rows)
  {
    FoldRowsReplays(jobs, poll.rows, poll.now, id);
  }

  /** Such an input: a running job whose id arrives with a space before it is missing in its own poll. */
  lemma PaddedIdIsMarkedMissing()
    ensures var poll := Poll([Sighting(" 7", "RUNNING", None, None)], true, 0, 0);
            "7" in Folded(map[], poll) && Folded(map[], poll)["7"].state == UNKNOWN
  {
    var row := Sighting(" 7", "RUNNING", None, None);
    var poll := Poll([row], true, 0, 0);
    assert FirstNonSpace(" 7", 0) == 1 && LastNonSpace("7", 1) == 1;
    assert Strip(" 7") == "7";
    assert [row][..0] == [] && LastState([row], "7") == Some("RUNNING");
    RunningIsLive();
    UntrimmedSightingSurvivesIff(map[], poll, "7");
    assert RawIds([row]) == {" 7"};
    FoldRowsReplays(map[], [row], 0, "7");
  }

  // ---------------------------------------------------------------- history and completion time

  /** The history ends in the current state without stuttering, and an ended job has an end time. */
  ghost predicate EntryOk(e: Entry) {
    && e.history != [] && e.history[|e.history| - 1] == e.state
    && (forall i | 0 <= i < |e.history| - 1 :: e.history[i] != e.history[i + 1])
    && (IsTerminal(e.state) ==> e.completedAt.Some?)
  }

  lemma SightedOk(prior: Option<Entry>, id: string, row: Sighting, now: int)
    requires prior.Some? ==> EntryOk(prior.value)
    ensures EntryOk(Sighted(prior, id, row, now))
  {
  }

  lemma MissingOk(e: Entry)
    requires EntryOk(e) && e.state != UNKNOWN
    ensures EntryOk(Missing(e))
  {
    UnknownIsNotTerminal();
  }

  ghost predicate AllOk(jobs: Jobs) {
    forall id <- jobs :: EntryOk(jobs[id])
  }

  lemma FoldRowOk(jobs: Jobs, row: Sighting, now: int)
    requires AllOk(jobs)
    ensures AllOk(FoldRow(jobs, row, now))
  {
    var id := Strip(row.rawId);
    SightedOk(Lookup(jobs, id), id, row, now);
  }

  lemma {:induction false} FoldRowsOk(jobs: Jobs, rows: seq<Sighting>, now: int)
    requires AllOk(jobs)
    ensures AllOk(FoldRows(jobs, rows, now))
  {
    if rows != [] {
      var front, row := rows[..|rows| - 1], rows[|rows| - 1];
      FoldRowsOk(jobs, front, now);
      FoldRowOk(FoldRows(jobs, front, now), row, now);
    }
  }

  lemma StepKeepsEntriesOk(jobs: Jobs, poll: Poll, jobs': Jobs)
    requires Observes(jobs, poll, jobs') && AllOk(jobs)
    ensures AllOk(jobs')
  {
    FoldRowsOk(jobs, poll.rows, poll.now);
    var seen := FoldRows(jobs, poll.rows, poll.now);
    forall id <- jobs' ensures EntryOk(jobs'[id]) {
      assert jobs'[id] == Folded(jobs, poll)[id];
      if poll.infer && Disappears(seen[id], id, RawIds(poll.rows)) {
        MissingOk(seen[id]);
      }
    }
  }

  /** Over every life of the ledger, every held entry is in order. */
  lemma {:induction false} EntriesStayOk(states: seq<Jobs>, polls: seq<Poll>)
    requires Trace(states, polls)
    ensures AllOk(states[|polls|])
  {
    if polls != [] {
      var n := |polls| - 1;
      EntriesStayOk(states[..n + 1], polls[..n]);
      StepKeepsEntriesOk(states[n], polls[n], states[n + 1]);
    }
  }

  /** Every row a poll has for the job says it ended. */
  predicate OnlyEndedRows(rows: seq<Sighting>, id: string) {
    forall row <- rows :: Strip(row.rawId) == id ==> IsTerminal(StateOr(row.state))
  }

  lemma {:induction false} EndedRowsKeepEndTime(jobs: Jobs, rows: seq<Sighting>, now: int, id: string)
    requires id != "" && id in jobs && IsTerminal(jobs[id].state) && jobs[id].completedAt.Some?
    requires OnlyEndedRows(rows, id)
    ensures var seen := FoldRows(jobs, rows, now);
            id in seen && IsTerminal(seen[id].state) && seen[id].completedAt == jobs[id].completedAt
  {
    if rows != [] {
      assert rows[|rows| - 1] in rows;
      EndedRowsKeepEndTime(jobs, rows[..|rows| - 1], now, id);
    }
  }

  /** Once a job has ended its end time never moves, through any polls in which it is held and every
      row about it says it ended, absences included. */
  lemma {:induction false} EndTimeNeverMoves(states: seq<Jobs>, polls: seq<Poll>, from: nat, id: string)
    requires Trace(states, polls) && from <= |polls| && id != ""
    requires forall i | from <= i <= |polls| :: id in states[i]
    requires IsTerminal(states[from][id].state)
    requires forall i | from <= i < |polls| :: OnlyEndedRows(polls[i].rows, id)
    ensures IsTerminal(states[|polls|][id].state)
    ensures states[|polls|][id].completedAt == states[from][id].completedAt && states[from][id].completedAt.Some?
  {
    EntriesStayOk(states[..from + 1], polls[..from]);
    assert EntryOk(states[..from + 1][from][id]);
    if from < |polls| {
      var n := |polls| - 1;
      EndTimeNeverMoves(states[..n + 1], polls[..n], from, id);
      assert Observes(states[n], polls[n], states[n + 1]);
      assert id in states[n + 1];
      EndedRowsKeepEndTime(states[n], polls[n].rows, polls[n].now, id);
    }
  }

  // ---------------------------------------------------------------- the cap

  /** Whenever nothing is old enough to prune and the cap is not exceeded, a poll loses no job at all. */
  lemma SmallLedgerLosesNothing(jobs: Jobs, poll: Poll, jobs': Jobs)
    requires Observes(jobs, poll, jobs') && |Folded(jobs, poll)| <= MAX_ENTRIES
    requires forall id <- Folded(jobs, poll) :: Folded(jobs, poll)[id].lastSeen >= poll.horizon
    ensures jobs' == Folded(jobs, poll)
  {
    var folded := Folded(jobs, poll);
    assert Pruned(folded, poll.horizon) == folded;
    if jobs' != folded {
      assert jobs'.Keys <= folded.Keys;
      SubsetOfEqualSize(jobs'.Keys, folded.Keys);
    }
  }

  /** Whatever is pruned or evicted had ended. */
  lemma OnlyEndedJobsGo(jobs: Jobs, poll: Poll, jobs': Jobs, id: string)
    requires Observes(jobs, poll, jobs') && id in Folded(jobs, poll) && id !in jobs'
    ensures IsTerminal(Folded(jobs, poll)[id].state)
  {
    assert id in Pruned(Folded(jobs, poll), poll.horizon) ==> id !in jobs';
  }

  predicate SaidToLive(polls: seq<Poll>, id: string) {
    Replay(polls, id).Some? && !IsTerminal(Replay(polls, id).value)
  }

  /** After each poll from a position on, the sightings so far say that the job lives. */
  predicate LivesFrom(polls: seq<Poll>, from: nat, id: string) {
    from >= |polls| || (SaidToLive(polls, id) && LivesFrom(polls[..|polls| - 1], from, id))
  }

  lemma LiveJobIsKept(jobs: Jobs, poll: Poll, jobs': Jobs, known: Option<string>, id: string)
    requires Observes(jobs, poll, jobs') && TrimmedIds(poll) && id != "" && id in jobs && known == Some(jobs[id].state)
    requires ReplayPoll(known, poll, id).Some? && !IsTerminal(ReplayPoll(known, poll, id).value)
    ensures id in jobs'
  {
    FoldedReplays(jobs, poll, id);
    if id !in jobs' {
      OnlyEndedJobsGo(jobs, poll, jobs', id);
    }
  }

  /** A job that is held stays held, through any crowd and any number of years, as long as its sightings
      do not say that it ended. */
  lemma {:induction false} LiveJobsAreNeverLost(states: seq<Jobs>, polls: seq<Poll>, from: nat, id: string)
    requires Trace(states, polls) && forall poll <- polls :: TrimmedIds(poll)
    requires from <= |polls| && id in states[from] && LivesFrom(polls, from, id)
    ensures id in states[|polls|]
  {
    if from < |polls| {
      var n := |polls| - 1;
      LiveJobsAreNeverLost(states[..n + 1], polls[..n], from, id);
      LedgerReplaysSightings(states[..n + 1], polls[..n], id);
      assert Observes(states[n], polls[n], states[n + 1]) && polls[n] in polls;
      LiveJobIsKept(states[n], polls[n], states[n + 1], Replay(polls[..n], id), id);
    }
  }
}
