/** What the ledger says about times, and what age removes. */
module LedgerTimes {
  import opened Options
  import opened Strings
  import opened JobStates
  import opened JobLedger
  import opened LedgerRuns

  predicate Names(row: Sighting, id: string) {
    Strip(row.rawId) == id
  }

  /** The first start time that some rows give a job. */
  function FirstStart(rows: seq<Sighting>, id: string): Option<int> {
    if rows == [] then None else
      var n := |rows| - 1;
      var told := FirstStart(rows[..n], id);
      if told.None? && Names(rows[n], id) then rows[n].startedAt else told
  }

  function StartOf(jobs: Jobs, id: string): Option<int> {
    if id in jobs then jobs[id].startedAt else None
  }

  /** The end time an entry still has when a row about it arrives: a row that says the job is alive again takes
      the end time of an ended one away. */
  function StandingEnd(jobs: Jobs, id: string, live: bool): Option<int> {
    if id !in jobs || (live && IsTerminal(jobs[id].state)) then None else jobs[id].completedAt
  }

  /** Everything one row says about the job it names, and nothing about any other. An end time comes from the
      entry, else from the row, else it is now if the row says that the job has ended. */
  lemma RowTells(jobs: Jobs, row: Sighting, now: int, id: string)
    requires id != "" && Names(row, id)
    ensures var seen := FoldRow(jobs, row, now);
            && id in seen && seen.Keys == jobs.Keys + {id} && (forall x <- jobs | x != id :: seen[x] == jobs[x])
            && var e := seen[id];
            var ended := IsTerminal(e.state);
            var standing := StandingEnd(jobs, id, !ended);
            && e.jobId == id && e.state == (if row.state == "" then "UNKNOWN" else row.state)
            && e.lastSeen == now && e.firstSeen == (if id in jobs then jobs[id].firstSeen else now)
            && e.startedAt == (if StartOf(jobs, id).Some? then StartOf(jobs, id) else row.startedAt)
            && (standing.Some? ==> e.completedAt == standing)
            && (standing.None? && row.completedAt.Some? ==> e.completedAt == row.completedAt)
            && (standing.None? && row.completedAt.None? ==> e.completedAt == if ended then Some(now) else None)
            && e.lastKnown.None?
            && e.history == if id !in jobs then [e.state]
                            else if jobs[id].state == e.state then jobs[id].history
                            else jobs[id].history + [e.state]
  {
  }

  /** What a job that vanished keeps and loses: its last state is noted, its end time goes, its times stay. */
  lemma VanishingTells(jobs: Jobs, known: set<string>, id: string)
    requires id in jobs
    ensures var before, after := jobs[id], InferMissing(jobs, known)[id];
            if id in known || IsTerminal(before.state) || before.state == "UNKNOWN" then after == before
            else after == Entry(before.jobId, "UNKNOWN", before.firstSeen, before.lastSeen, before.startedAt, None,
                                Some(before.state), before.history + ["UNKNOWN"])
  {
  }

  /** An entry after a poll, as far as its times and its history go. */
  ghost predicate TimesFollow(jobs: Jobs, poll: Poll, e: Entry, id: string) {
    && (id !in jobs ==> Mentions(poll, id))
    && e.lastSeen == (if Mentions(poll, id) then poll.now else jobs[id].lastSeen)
    && e.firstSeen == (if id in jobs then jobs[id].firstSeen else poll.now)
    && e.startedAt == (if StartOf(jobs, id).Some? then StartOf(jobs, id) else FirstStart(poll.rows, id))
    && (id in jobs ==> jobs[id].history <= e.history)
  }

  /** The same for some rows of a poll. */
  ghost predicate RowsFollow(jobs: Jobs, rows: seq<Sighting>, now: int, seen: Jobs, id: string) {
    && (id in seen <==> id in jobs || LastState(rows, id).Some?)
    && (id in seen ==> TimesFollow(jobs, Poll(rows, false, now, 0), seen[id], id))
    && (LastState(rows, id).None? ==> FirstStart(rows, id).None?)
  }

  lemma OneMoreRowFollows(jobs: Jobs, front: seq<Sighting>, row: Sighting, now: int, seen: Jobs, id: string)
    requires id != "" && RowsFollow(jobs, front, now, seen, id)
    ensures RowsFollow(jobs, front + [row], now, FoldRow(seen, row, now), id)
  {
    var rows := front + [row];
    assert rows[..|rows| - 1] == front && rows[|rows| - 1] == row;
    if Names(row, id) {
      RowTells(seen, row, now, id);
    } else {
      FoldRowTells(seen, row, now, id);
    }
  }

  lemma {:induction false} RowsTime(jobs: Jobs, rows: seq<Sighting>, now: int, id: string)
    requires id != ""
    ensures RowsFollow(jobs, rows, now, FoldRows(jobs, rows, now), id)
  {
    if rows != [] {
      var n := |rows| - 1;
      RowsTime(jobs, rows[..n], now, id);
      OneMoreRowFollows(jobs, rows[..n], rows[n], now, FoldRows(jobs, rows[..n], now), id);
      assert rows == rows[..n] + [rows[n]];
    }
  }

  lemma StepTimes(jobs: Jobs, poll: Poll, jobs': Jobs, id: string)
    requires Observes(jobs, poll, jobs') && id != "" && id in jobs'
    ensures TimesFollow(jobs, poll, jobs'[id], id)
  {
    RowsTime(jobs, poll.rows, poll.now, id);
    assert jobs'[id] == Folded(jobs, poll)[id];
    var seen := FoldRows(jobs, poll.rows, poll.now);
    if poll.infer {
      VanishingTells(seen, RawIds(poll.rows), id);
    }
  }

  /** Over every life of the ledger, a held job was last seen by the last poll that mentioned it. */
  lemma {:induction false} LastSeenIsLastSighting(states: seq<Jobs>, polls: seq<Poll>, id: string)
    requires Trace(states, polls) && id != "" && id in states[|polls|]
    ensures LastSighting(polls, id).Some?
    ensures states[|polls|][id].lastSeen == polls[LastSighting(polls, id).value].now
  {
    if polls != [] {
      var n := |polls| - 1;
      assert Observes(states[n], polls[n], states[n + 1]);
      StepTimes(states[n], polls[n], states[n + 1], id);
      assert polls == polls[..n] + [polls[n]];
      LastSightingExtends(polls[..n], polls[n], id);
      if !Mentions(polls[n], id) {
        LastSeenIsLastSighting(states[..n + 1], polls[..n], id);
      }
    }
  }

  /** As long as a job is held, it keeps the time it was first seen at and, once told, its start time, and its
      history only grows at its end. */
  lemma {:induction false} FirstTimesStay(states: seq<Jobs>, polls: seq<Poll>, from: nat, id: string)
    requires Trace(states, polls) && from <= |polls| && id != ""
    requires forall i | from <= i <= |polls| :: id in states[i]
    ensures states[|polls|][id].firstSeen == states[from][id].firstSeen
    ensures states[from][id].startedAt.Some? ==> states[|polls|][id].startedAt == states[from][id].startedAt
    ensures states[from][id].history <= states[|polls|][id].history
  {
    if from < |polls| {
      var n := |polls| - 1;
      FirstTimesStay(states[..n + 1], polls[..n], from, id);
      assert Observes(states[n], polls[n], states[n + 1]);
      assert id in states[n] && id in states[n + 1];
      StepTimes(states[n], polls[n], states[n + 1], id);
    }
  }

  /** A job that a poll brings in was first seen by that poll, and starts when the poll's first row with a start
      time for it says. */
  lemma EntersWithPoll(states: seq<Jobs>, polls: seq<Poll>, i: nat, id: string)
    requires Trace(states, polls) && i < |polls| && id != "" && id !in states[i] && id in states[i + 1]
    ensures states[i + 1][id].firstSeen == states[i + 1][id].lastSeen == polls[i].now
    ensures states[i + 1][id].startedAt == FirstStart(polls[i].rows, id)
  {
    assert Observes(states[i], polls[i], states[i + 1]);
    StepTimes(states[i], polls[i], states[i + 1], id);
  }

  // ---------------------------------------------------------------- what age removes

  /** Exactly the ended jobs last seen before the horizon are pruned: whatever else goes had ended too, and
      went to make room under the cap, before every ended job that was kept and seen later. */
  lemma AgeOrCapRemoves(jobs: Jobs, poll: Poll, jobs': Jobs, id: string)
    requires Observes(jobs, poll, jobs') && id in Folded(jobs, poll)
    ensures var e := Folded(jobs, poll)[id];
            && (IsTerminal(e.state) && e.lastSeen < poll.horizon ==> id !in jobs')
            && (id !in jobs' ==> IsTerminal(e.state))
            && (id !in jobs' && e.lastSeen >= poll.horizon ==>
                  && |jobs'| >= 200
                  && forall kept <- jobs' | IsTerminal(jobs'[kept].state) :: e.lastSeen <= jobs'[kept].lastSeen)
  {
    var pruned := Pruned(Folded(jobs, poll), poll.horizon);
    assert id in pruned <==> !(IsTerminal(Folded(jobs, poll)[id].state)
                               && Folded(jobs, poll)[id].lastSeen < poll.horizon);
    if id in pruned && id !in jobs' {
      assert jobs' != pruned;
    }
  }

  /** After a poll at most two hundred jobs are held, unless more than that have not ended and nothing else is. */
  lemma CapHolds(jobs: Jobs, poll: Poll, jobs': Jobs)
    requires Observes(jobs, poll, jobs')
    ensures |jobs'| <= 200 || forall id <- jobs' :: !IsTerminal(jobs'[id].state)
  {
  }

  /** A poll whose horizon is not in its future never prunes a job that it names, whatever it says about it. */
  lemma NamedIsNeverPruned(jobs: Jobs, poll: Poll, jobs': Jobs, id: string)
    requires Observes(jobs, poll, jobs') && poll.horizon <= poll.now && id != "" && Mentions(poll, id)
    ensures id in jobs' || |jobs'| >= 200
    ensures id in jobs' ==> jobs'[id].lastSeen == poll.now
  {
    RowsTime(jobs, poll.rows, poll.now, id);
    var seen := FoldRows(jobs, poll.rows, poll.now);
    if poll.infer {
      VanishingTells(seen, RawIds(poll.rows), id);
    }
    AgeOrCapRemoves(jobs, poll, jobs', id);
  }

  /** Over every life: an ended job that is still held was mentioned by a poll no older than the horizon of the
      latest one. */
  lemma EndedIsRecent(states: seq<Jobs>, polls: seq<Poll>, id: string)
    requires Trace(states, polls) && polls != [] && id != "" && id in states[|polls|]
    requires IsTerminal(states[|polls|][id].state)
    ensures LastSighting(polls, id).Some?
    ensures polls[LastSighting(polls, id).value].now >= polls[|polls| - 1].horizon
  {
    var n := |polls| - 1;
    LastSeenIsLastSighting(states, polls, id);
    assert Observes(states[n], polls[n], states[n + 1]);
    assert states[n + 1][id] == Folded(states[n], polls[n])[id];
    AgeOrCapRemoves(states[n], polls[n], states[n + 1], id);
  }
}
