/** The local job ledger of one server: sightings folded into durable job entries. */
module JobLedger {
  import opened Options
  import opened Strings
  import opened JobStates

  const MAX_ENTRIES := 200

  /** One scheduler row. A missing state arrives as the empty text. */
  datatype Sighting = Sighting(rawId: string, state: string, startedAt: Option<int>, completedAt: Option<int>)

  datatype Entry = Entry(
    jobId: string,
    state: string,
    firstSeen: int,
    lastSeen: int,
    startedAt: Option<int>,
    completedAt: Option<int>,
    lastKnown: Option<string>,
    history: seq<string>)

  type Jobs = map<string, Entry>

  /** One observe() call: its rows, its clock, and the age limit it prunes by. */
  datatype Poll = Poll(rows: seq<Sighting>, infer: bool, now: int, horizon: int)

  // ---------------------------------------------------------------- folding

  function Sighted(prior: Option<Entry>, id: string, row: Sighting, now: int): Entry {
    var state := StateOr(row.state);
    match prior
    case None =>
      Entry(id, state, now, now, row.startedAt,
            if row.completedAt.Some? then row.completedAt else if IsTerminal(state) then Some(now) else None,
            None, [state])
    case Some(e) =>
      var kept := if IsTerminal(e.state) && !IsTerminal(state) then None else e.completedAt;
      var told := if kept.None? then row.completedAt else kept;
      Entry(id, state, e.firstSeen, now,
            if e.startedAt.Some? then e.startedAt else row.startedAt,
            if told.None? && IsTerminal(state) then Some(now) else told,
            None,
            if e.state != state then e.history + [state] else e.history)
  }

  function Lookup(jobs: Jobs, id: string): Option<Entry> {
    if id in jobs then Some(jobs[id]) else None
  }

  function FoldRow(jobs: Jobs, row: Sighting, now: int): Jobs {
    var id := Strip(row.rawId);
    if id == "" then jobs else jobs[id := Sighted(Lookup(jobs, id), id, row, now)]
  }

  function FoldRows(jobs: Jobs, rows: seq<Sighting>, now: int): Jobs {
    if rows == [] then jobs
    else FoldRow(FoldRows(jobs, rows[..|rows| - 1], now), rows[|rows| - 1], now)
  }

  /** The identifiers of a poll as received, which is what absence is judged by. */
  function RawIds(rows: seq<Sighting>): set<string> {
    set row <- rows :: row.rawId
  }

  predicate Disappears(e: Entry, id: string, known: set<string>) {
    id !in known && !IsTerminal(e.state) && e.state != UNKNOWN
  }

  function Missing(e: Entry): Entry {
    e.(lastKnown := Some(e.state), state := UNKNOWN, completedAt := None, history := e.history + [UNKNOWN])
  }

  function InferMissing(jobs: Jobs, known: set<string>): Jobs {
    map id <- jobs :: if Disappears(jobs[id], id, known) then Missing(jobs[id]) else jobs[id]
  }

  function Folded(jobs: Jobs, poll: Poll): Jobs {
    var seen := FoldRows(jobs, poll.rows, poll.now);
    if poll.infer then InferMissing(seen, RawIds(poll.rows)) else seen
  }

  function Pruned(jobs: Jobs, horizon: int): Jobs {
    map id <- jobs | !(IsTerminal(jobs[id].state) && jobs[id].lastSeen < horizon) :: jobs[id]
  }

  // ---------------------------------------------------------------- eviction

  ghost predicate KeysMatch(jobs: Jobs) {
    forall id <- jobs :: jobs[id].jobId == id
  }

  /** What the cap may do to a ledger: it takes only terminal entries, never a newer one before an
      older one, stops at the cap, and stops early only when nothing terminal is left. */
  ghost predicate Capped(before: Jobs, after: Jobs) {
    && after.Keys <= before.Keys
    && (forall id <- after :: after[id] == before[id])
    && (forall gone <- before | gone !in after :: IsTerminal(before[gone].state))
    && (forall gone <- before, kept <- after | gone !in after && IsTerminal(after[kept].state) ::
          before[gone].lastSeen <= after[kept].lastSeen)
    && (|after| <= MAX_ENTRIES || forall id <- after :: !IsTerminal(after[id].state))
    && (after == before || |after| >= MAX_ENTRIES)
  }

  /** A poll takes one ledger to another; ties among the oldest entries are broken freely. */
  ghost predicate Observes(jobs: Jobs, poll: Poll, jobs': Jobs) {
    Capped(Pruned(Folded(jobs, poll), poll.horizon), jobs')
  }

  lemma {:induction false} FoldRowsKeepsKeysMatch(jobs: Jobs, rows: seq<Sighting>, now: int)
    requires KeysMatch(jobs)
    ensures KeysMatch(FoldRows(jobs, rows, now))
  {
    if rows != [] {
      FoldRowsKeepsKeysMatch(jobs, rows[..|rows| - 1], now);
    }
  }

  lemma ObservesKeepsKeysMatch(jobs: Jobs, poll: Poll, jobs': Jobs)
    requires KeysMatch(jobs) && Observes(jobs, poll, jobs')
    ensures KeysMatch(jobs')
  {
    FoldRowsKeepsKeysMatch(jobs, poll.rows, poll.now);
    var folded := Folded(jobs, poll);
    assert forall id <- jobs' :: jobs'[id] == folded[id];
  }

  class Ledger {
    var jobs: Jobs

    constructor ()
      ensures jobs == map[]
    {
      jobs := map[];
    }

    method UpdateEntry(prior: Option<Entry>, id: string, row: Sighting, now: int) returns (entry: Entry)
      ensures entry == Sighted(prior, id, row, now)
    {
      var state := if row.state == "" then UNKNOWN else row.state;
      entry := if prior.Some? then prior.value else Entry(id, state, now, now, None, None, None, []);
      if prior.Some? && IsTerminal(prior.value.state) && !IsTerminal(state) {
        entry := entry.(completedAt := None);
      }
      entry := entry.(jobId := id, state := state, lastSeen := now, lastKnown := None);
      if row.startedAt.Some? && entry.startedAt.None? {
        entry := entry.(startedAt := row.startedAt);
      }
      if row.completedAt.Some? && entry.completedAt.None? {
        entry := entry.(completedAt := row.completedAt);
      }
      if prior.None? || prior.value.state != state {
        entry := entry.(history := entry.history + [state]);
      }
      if IsTerminal(state) && entry.completedAt.None? {
        entry := entry.(completedAt := Some(now));
      }
    }

    method SeeRow(row: Sighting, now: int)
      modifies this
      ensures jobs == FoldRow(old(jobs), row, now)
    {
      var id := Strip(row.rawId);
      if id == "" { return; }
      var entry := UpdateEntry(if id in jobs then Some(jobs[id]) else None, id, row, now);
      jobs := jobs[id := entry];
    }

    method MarkMissing(rows: seq<Sighting>)
      modifies this
      ensures jobs == InferMissing(old(jobs), RawIds(rows))
    {
      var known := RawIds(rows);
      var todo := jobs.Keys;
      while todo != {}
        invariant todo <= jobs.Keys == old(jobs).Keys
        invariant forall id <- jobs ::
                    jobs[id] == if id in todo then old(jobs)[id] else InferMissing(old(jobs), known)[id]
      {
        var id :| id in todo;
        todo := todo - {id};
        var e := jobs[id];
        if id in known || IsTerminal(e.state) { continue; }
        if e.state == UNKNOWN { continue; }
        jobs := jobs[id := e.(lastKnown := Some(e.state), state := UNKNOWN, completedAt := None,
                              history := e.history + [UNKNOWN])];
      }
    }

    method PruneOld(horizon: int)
      modifies this
      ensures jobs == Pruned(old(jobs), horizon)
    {
      var todo := jobs.Keys;
      while todo != {}
        invariant todo <= jobs.Keys <= old(jobs).Keys
        invariant forall id <- jobs :: jobs[id] == old(jobs)[id]
        invariant forall id <- old(jobs).Keys - todo :: id in jobs <==> id in Pruned(old(jobs), horizon)
      {
        var id :| id in todo;
        todo := todo - {id};
        if IsTerminal(jobs[id].state) && jobs[id].lastSeen < horizon {
          jobs := jobs - {id};
        }
      }
      assert jobs == Pruned(old(jobs), horizon);
    }

    /** The terminal entry seen longest ago, if there is one. */
    method OldestTerminal() returns (oldest: Option<Entry>)
      requires KeysMatch(jobs)
      ensures oldest.None? <==> forall id <- jobs :: !IsTerminal(jobs[id].state)
      ensures oldest.Some? ==>
                && oldest.value.jobId in jobs && jobs[oldest.value.jobId] == oldest.value
                && IsTerminal(oldest.value.state)
                && forall id <- jobs | IsTerminal(jobs[id].state) :: oldest.value.lastSeen <= jobs[id].lastSeen
    {
      oldest := None;
      var todo := jobs.Keys;
      while todo != {}
        invariant todo <= jobs.Keys
        invariant oldest.Some? ==> oldest.value.jobId in jobs && jobs[oldest.value.jobId] == oldest.value
                                   && IsTerminal(oldest.value.state)
        invariant forall id <- jobs.Keys - todo | IsTerminal(jobs[id].state) ::
                    oldest.Some? && oldest.value.lastSeen <= jobs[id].lastSeen
      {
        var id :| id in todo;
        todo := todo - {id};
        var e := jobs[id];
        if IsTerminal(e.state) && (oldest.None? || e.lastSeen < oldest.value.lastSeen) {
          oldest := Some(e);
        }
      }
    }

    /** The cap loop. It ends because every key is its entry's own id, so each turn removes an entry. */
    method EvictOldest()
      requires KeysMatch(jobs)
      modifies this
      ensures Capped(old(jobs), jobs)
    {
      while |jobs| > MAX_ENTRIES
        invariant KeysMatch(jobs)
        invariant jobs.Keys <= old(jobs).Keys && forall id <- jobs :: jobs[id] == old(jobs)[id]
        invariant forall gone <- old(jobs) | gone !in jobs :: IsTerminal(old(jobs)[gone].state)
        invariant forall gone <- old(jobs), kept <- jobs | gone !in jobs && IsTerminal(jobs[kept].state) ::
                    old(jobs)[gone].lastSeen <= jobs[kept].lastSeen
        invariant jobs == old(jobs) || |jobs| >= MAX_ENTRIES
        decreases |jobs|
      {
        var oldest := OldestTerminal();
        if oldest.None? { break; }
        ghost var before := jobs;
        jobs := jobs - {oldest.value.jobId};
        RemovingOneShrinks(before, oldest.value.jobId);
      }
    }

    method SeeRows(rows: seq<Sighting>, now: int)
      modifies this
      ensures jobs == FoldRows(old(jobs), rows, now)
    {
      var i := 0;
      while i < |rows|
        invariant 0 <= i <= |rows|
        invariant jobs == FoldRows(old(jobs), rows[..i], now)
      {
        assert rows[..i + 1][..i] == rows[..i];
        SeeRow(rows[i], now);
        i := i + 1;
      }
      assert rows[..|rows|] == rows;
    }

    method Observe(poll: Poll)
      requires KeysMatch(jobs)
      modifies this
      ensures Observes(old(jobs), poll, jobs)
      ensures KeysMatch(jobs)
    {
      FoldRowsKeepsKeysMatch(jobs, poll.rows, poll.now);
      SeeRows(poll.rows, poll.now);
      if poll.infer {
        MarkMissing(poll.rows);
      }
      PruneOld(poll.horizon);
      EvictOldest();
      ObservesKeepsKeysMatch(old(jobs), poll, jobs);
    }
  }

  lemma RemovingOneShrinks(jobs: Jobs, id: string)
    requires id in jobs
    ensures |jobs - {id}| == |jobs| - 1
  {
    assert (jobs - {id}).Keys == jobs.Keys - {id};
    assert |jobs.Keys - {id}| == |jobs.Keys| - 1;
  }
}
