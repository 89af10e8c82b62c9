/** The ledger and the fleet center fold the same polls; where they agree, and where they cannot. */
module Agreement {
  import opened Options
  import opened Strings
  import opened JobStates
  import Ledger = JobLedger
  import Center = RemoteCenter
  import R = LedgerRuns
  import opened FiniteSets

  /** One successful poll as both stores receive it, accounting rows before live ones. */
  datatype Poll = Poll(rows: seq<Center.Sighting>, now: int)

  function AsLedgerRow(row: Center.Sighting): Ledger.Sighting {
    Ledger.Sighting(row.key, row.state, None, None)
  }

  function AsLedgerRows(rows: seq<Center.Sighting>): seq<Ledger.Sighting> {
    seq(|rows|, i requires 0 <= i < |rows| => AsLedgerRow(rows[i]))
  }

  function AsLedgerPoll(poll: Poll, horizon: int): Ledger.Poll {
    Ledger.Poll(AsLedgerRows(poll.rows), true, poll.now, horizon)
  }

  function LedgerPoll(jobs: Ledger.Jobs, poll: Poll): Ledger.Jobs {
    Ledger.Folded(jobs, AsLedgerPoll(poll, 0))
  }

  function CenterPoll(records: map<string, Center.Record>, poll: Poll): map<string, Center.Record> {
    Center.AfterPoll(records, Center.Observed(poll.rows), poll.now)
  }

  /** Ids arrive trimmed and short enough for both stores. */
  predicate CleanRow(row: Center.Sighting) {
    Strip(row.key) == row.key && |row.key| <= 100 && PlainCase(StateOr(row.state))
  }

  predicate CleanPoll(poll: Poll) {
    forall row <- poll.rows :: CleanRow(row)
  }

  /** The two stores hold the same jobs in the same states, none of them in an odd case. */
  ghost predicate Agree(jobs: Ledger.Jobs, records: map<string, Center.Record>) {
    && jobs.Keys == records.Keys && "" !in jobs
    && forall id <- jobs :: jobs[id].state == records[id].state && PlainCase(jobs[id].state)
  }

  /** The ledger after some rows, in terms of what the center observed in them. */
  ghost predicate Told(jobs: Ledger.Jobs, seen: Ledger.Jobs, observed: map<string, Center.Sighting>) {
    && seen.Keys == jobs.Keys + observed.Keys && "" !in seen
    && (forall id <- observed :: seen[id].state == StateOr(observed[id].state) && PlainCase(seen[id].state))
    && (forall id <- jobs | id !in observed :: seen[id] == jobs[id])
  }

  lemma {:induction false} RowsAgree(jobs: Ledger.Jobs, rows: seq<Center.Sighting>, now: int)
    requires "" !in jobs && forall row <- rows :: CleanRow(row)
    ensures Told(jobs, Ledger.FoldRows(jobs, AsLedgerRows(rows), now), Center.Observed(rows))
  {
    if rows != [] {
      var front, row := rows[..|rows| - 1], rows[|rows| - 1];
      RowsAgree(jobs, front, now);
      var lrows := AsLedgerRows(rows);
      assert lrows[..|lrows| - 1] == AsLedgerRows(front);
      assert lrows[|lrows| - 1] == AsLedgerRow(row);
      assert CleanRow(row);
      RowIsTold(jobs, Ledger.FoldRows(jobs, AsLedgerRows(front), now), Center.Observed(front), row, now);
    }
  }

  lemma RowIsTold(jobs: Ledger.Jobs, seen: Ledger.Jobs, observed: map<string, Center.Sighting>,
                  row: Center.Sighting, now: int)
    requires Told(jobs, seen, observed) && CleanRow(row)
    ensures Told(jobs, Ledger.FoldRow(seen, AsLedgerRow(row), now),
                 if Center.Usable(row.key) then observed[row.key := row] else observed)
  {
    LastRowAgrees(seen, row, now);
  }

  lemma LastRowAgrees(seen: Ledger.Jobs, row: Center.Sighting, now: int)
    requires CleanRow(row)
    ensures var after := Ledger.FoldRow(seen, AsLedgerRow(row), now);
            if row.key == "" then after == seen
            else after.Keys == seen.Keys + {row.key} && after[row.key].state == StateOr(row.state)
                 && forall id <- seen | id != row.key :: after[id] == seen[id]
  {
  }

  lemma {:induction false} KnownIffObserved(rows: seq<Center.Sighting>, id: string)
    requires id != "" && forall row <- rows :: CleanRow(row)
    ensures id in Ledger.RawIds(AsLedgerRows(rows)) <==> id in Center.Observed(rows)
  {
    var lrows := AsLedgerRows(rows);
    if rows != [] {
      var front, row := rows[..|rows| - 1], rows[|rows| - 1];
      KnownIffObserved(front, id);
      var lfront := AsLedgerRows(front);
      assert lrows == lfront + [AsLedgerRow(row)];
      assert CleanRow(row);
      assert Ledger.RawIds(lrows) == Ledger.RawIds(lfront) + {row.key} by {
        assert forall r <- lrows :: r in lfront || r == AsLedgerRow(row);
        assert lrows[|lrows| - 1] in lrows;
      }
    }
  }

  /** What one poll makes of one job, seen or absent, in either store. */
  lemma JobAgrees(jobs: Ledger.Jobs, records: map<string, Center.Record>, poll: Poll, id: string)
    requires Agree(jobs, records) && CleanPoll(poll)
    requires id in jobs || id in Center.Observed(poll.rows)
    ensures var folded := LedgerPoll(jobs, poll);
            var merged := CenterPoll(records, poll);
            id in folded && id in merged && folded[id].state == merged[id].state && PlainCase(folded[id].state)
  {
    RowsAgree(jobs, poll.rows, poll.now);
    KnownIffObserved(poll.rows, id);
    var seen, observed := Ledger.FoldRows(jobs, AsLedgerRows(poll.rows), poll.now), Center.Observed(poll.rows);
    var known := Ledger.RawIds(AsLedgerRows(poll.rows));
    assert LedgerPoll(jobs, poll) == Ledger.InferMissing(seen, known);
    if id in observed {
      SeenAgrees(seen, records, observed, known, poll.now, id);
    } else {
      AbsentAgrees(seen, records, observed, known, poll.now, id);
    }
  }

  lemma SeenAgrees(seen: Ledger.Jobs, records: map<string, Center.Record>, observed: map<string, Center.Sighting>,
                   known: set<string>, now: int, id: string)
    requires id in observed && id in known && id in seen
    requires seen[id].state == StateOr(observed[id].state) && PlainCase(seen[id].state)
    ensures Ledger.InferMissing(seen, known)[id].state == seen[id].state
    ensures Center.AfterPoll(records, observed, now)[id].state == seen[id].state
  {
  }

  lemma AbsentAgrees(seen: Ledger.Jobs, records: map<string, Center.Record>, observed: map<string, Center.Sighting>,
                     known: set<string>, now: int, id: string)
    requires id !in observed && id !in known && id in seen && id in records
    requires seen[id].state == records[id].state && PlainCase(seen[id].state)
    ensures Ledger.InferMissing(seen, known)[id].state == Center.AfterPoll(records, observed, now)[id].state
    ensures PlainCase(Ledger.InferMissing(seen, known)[id].state)
  {
    AbsenceAgreesIffPlainCase(seen[id], records[id], id, known);
    UpperFixes(UNKNOWN);
  }

  lemma PollKeepsAgreement(jobs: Ledger.Jobs, records: map<string, Center.Record>, poll: Poll)
    requires Agree(jobs, records) && CleanPoll(poll)
    ensures Agree(LedgerPoll(jobs, poll), CenterPoll(records, poll))
  {
    RowsAgree(jobs, poll.rows, poll.now);
    forall id | id in jobs || id in Center.Observed(poll.rows)
      ensures LedgerPoll(jobs, poll)[id].state == CenterPoll(records, poll)[id].state
      ensures PlainCase(LedgerPoll(jobs, poll)[id].state)
    {
      JobAgrees(jobs, records, poll, id);
    }
  }

  /** The poll was small and recent enough for neither store to prune. */
  ghost predicate NothingPruned(jobs: Ledger.Jobs, records: map<string, Center.Record>, poll: Poll, horizon: int) {
    && |LedgerPoll(jobs, poll)| <= Ledger.MAX_ENTRIES
    && (forall id <- LedgerPoll(jobs, poll) :: LedgerPoll(jobs, poll)[id].lastSeen >= horizon)
    && |CenterPoll(records, poll)| <= Center.RETAINED
  }

  /** Both stores live through the same polls, without pruning and without receipts. */
  ghost predicate SamePolls(ledgers: seq<Ledger.Jobs>, centers: seq<seq<Center.Record>>, polls: seq<Poll>,
                            horizons: seq<int>) {
    && |ledgers| == |centers| == |polls| + 1 && |horizons| == |polls| && ledgers[0] == map[] && centers[0] == []
    && forall i | 0 <= i < |polls| ::
         && Ledger.Observes(ledgers[i], AsLedgerPoll(polls[i], horizons[i]), ledgers[i + 1])
         && Center.Retains(CenterPoll(Center.ById(centers[i]), polls[i]), centers[i + 1])
         && NothingPruned(ledgers[i], Center.ById(centers[i]), polls[i], horizons[i])
  }

  lemma HorizonIsIrrelevant(jobs: Ledger.Jobs, poll: Poll, horizon: int)
    ensures Ledger.Folded(jobs, AsLedgerPoll(poll, horizon)) == LedgerPoll(jobs, poll)
  {
  }

  /** A center that never exceeded its limit keeps every record of the poll. */
  lemma SmallCenterLosesNothing(records: map<string, Center.Record>, jobs: seq<Center.Record>)
    requires Center.Retains(records, jobs) && Center.KeysMatch(records) && |records| <= Center.RETAINED
    ensures Center.ById(jobs) == records
  {
    Center.ByIdOfUnique(jobs);
    forall id <- records ensures records[id] in jobs {
      SmallCenterKeeps(records, jobs, id);
    }
    assert Center.ById(jobs).Keys == records.Keys;
  }

  lemma SmallCenterKeeps(records: map<string, Center.Record>, jobs: seq<Center.Record>, id: string)
    requires Center.Retains(records, jobs) && Center.KeysMatch(records) && |records| <= Center.RETAINED && id in records
    ensures records[id] in jobs
  {
    if records[id] !in jobs {
      DistinctAreAsMany(IdsOf(jobs));
      SubsetIsSmaller((set kept <- IdsOf(jobs)), records.Keys - {id});
      assert false;
    }
  }

  function IdsOf(jobs: seq<Center.Record>): seq<string> {
    seq(|jobs|, i requires 0 <= i < |jobs| => jobs[i].jobId)
  }

  lemma {:induction false} DistinctAreAsMany(ids: seq<string>)
    requires forall i, j | 0 <= i < j < |ids| :: ids[i] != ids[j]
    ensures |(set id <- ids)| == |ids|
  {
    if ids != [] {
      var front, last := ids[..|ids| - 1], ids[|ids| - 1];
      DistinctAreAsMany(front);
      assert ids == front + [last];
      assert (set id <- ids) == (set id <- front) + {last};
    }
  }

  /** The agreement theorem: after every such life both stores map the same ids to the same states. */
  lemma {:induction false} StoresAgree(ledgers: seq<Ledger.Jobs>, centers: seq<seq<Center.Record>>, polls: seq<Poll>,
                                       horizons: seq<int>)
    requires SamePolls(ledgers, centers, polls, horizons) && forall poll <- polls :: CleanPoll(poll)
    ensures Center.Valid(centers[|polls|])
    ensures Agree(ledgers[|polls|], Center.ById(centers[|polls|]))
  {
    if polls != [] {
      var n := |polls| - 1;
      StoresAgree(ledgers[..n + 1], centers[..n + 1], polls[..n], horizons[..n]);
      var records := Center.ById(centers[n]);
      Center.ByIdOfUnique(centers[n]);
      assert polls[n] in polls;
      PollKeepsAgreement(ledgers[n], records, polls[n]);
      HorizonIsIrrelevant(ledgers[n], polls[n], horizons[n]);
      R.SmallLedgerLosesNothing(ledgers[n], AsLedgerPoll(polls[n], horizons[n]), ledgers[n + 1]);
      Center.AfterPollKeepsAssociationsOk(records, Center.Observed(polls[n].rows), polls[n].now);
      SmallCenterLosesNothing(CenterPoll(records, polls[n]), centers[n + 1]);
      Center.RetainsKeepsValid(CenterPoll(records, polls[n]), centers[n + 1]);
    }
  }

  /** The case condition is needed, exactly: for a job both stores hold in one state, the next poll
      without it leaves them in agreement if and only if both terminal tests agree on that state. */
  lemma AbsenceAgreesIffPlainCase(e: Ledger.Entry, r: Center.Record, id: string, known: set<string>)
    requires e.state == r.state && id !in known
    ensures (if Ledger.Disappears(e, id, known) then Ledger.Missing(e) else e).state == Center.Absent(r).state
            <==> PlainCase(e.state)
  {
    UpperFixes(UNKNOWN);
    if e.state in TERMINAL_STATES {
      TerminalNamesAreTerminal(e.state);
    }
  }

  /** Such an input: a job reported as "completed". The next poll without it leaves the ledger's entry ended
      and the center's unknown. */
  lemma LowerCaseDisagrees(e: Ledger.Entry, r: Center.Record, id: string)
    requires e.state == r.state == "completed"
    ensures (if Ledger.Disappears(e, id, {}) then Ledger.Missing(e) else e).state == "completed"
    ensures Center.Absent(r).state == UNKNOWN
  {
    LowerCaseEnds();
  }
}
