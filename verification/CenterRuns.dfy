/** What the fleet center keeps over every sequence of receipts, polls and bindings. */
module CenterRuns {
  import opened Options
  import opened JobStates
  import opened RemoteCenter
  import opened FiniteSets

  datatype Event =
    | Submitted(receipt: Receipt)
    | FailedPoll
    | Poll(recent: seq<Sighting>, active: seq<Sighting>, checked: int)
    | Bind(id: string, project: string, directory: string)  // the locked part, on whatever was saved meanwhile

  /** One step of the record; receipts are those the pending store lists at that moment. */
  ghost predicate Moves(jobs: seq<Record>, receipts: seq<Receipt>, e: Event, jobs': seq<Record>) {
    match e
    case Submitted(receipt) => jobs' == AddReceipt(AddReceipts(jobs, receipts), receipt)
    case FailedPoll => jobs' == AddReceipts(jobs, receipts)
    case Poll(recent, active, checked) =>
      Retains(AfterPoll(ById(AddReceipts(jobs, receipts)), Observed(recent + active), checked), jobs')
    case Bind(id, project, directory) => jobs' == BindSpec(jobs, receipts, id, project, directory).0
  }

  ghost predicate Trace(states: seq<seq<Record>>, receipts: seq<seq<Receipt>>, events: seq<Event>) {
    && |states| == |events| + 1 && |receipts| == |events| && states[0] == []
    && forall i | 0 <= i < |events| :: Moves(states[i], receipts[i], events[i], states[i + 1])
  }

  lemma StepKeepsValid(jobs: seq<Record>, receipts: seq<Receipt>, e: Event, jobs': seq<Record>)
    requires Valid(jobs) && Moves(jobs, receipts, e, jobs')
    ensures Valid(jobs')
  {
    ReceiptsKeepValid(jobs, receipts);
    var rows := AddReceipts(jobs, receipts);
    if e.Poll? {
      ByIdOfUnique(rows);
      AfterPollKeepsAssociationsOk(ById(rows), Observed(e.recent + e.active), e.checked);
      RetainsKeepsValid(AfterPoll(ById(rows), Observed(e.recent + e.active), e.checked), jobs');
    }
  }

  /** Every reachable record has unique ids, and every binding names its row's directory. */
  lemma {:induction false} ReachableIsValid(states: seq<seq<Record>>, receipts: seq<seq<Receipt>>, events: seq<Event>)
    requires Trace(states, receipts, events)
    ensures Valid(states[|events|])
  {
    if events != [] {
      var n := |events| - 1;
      ReachableIsValid(states[..n + 1], receipts[..n], events[..n]);
      StepKeepsValid(states[n], receipts[n], events[n], states[n + 1]);
    }
  }

  // ---------------------------------------------------------------- bindings

  /** The project a job is bound to. */
  function BoundTo(jobs: seq<Record>, id: string): Option<string> {
    if Has(jobs, id) && jobs[IndexOf(jobs, id)].association.Some? then
      Some(jobs[IndexOf(jobs, id)].association.value.project)
    else None
  }

  lemma BoundRecord(jobs: seq<Record>, k: nat)
    requires UniqueIds(jobs) && k < |jobs| && jobs[k].association.Some?
    ensures BoundTo(jobs, jobs[k].jobId) == Some(jobs[k].association.value.project)
  {
    UniqueIndex(jobs, jobs[k].jobId, k);
  }

  /** The poll reports another directory or another start time for the job. */
  predicate Unsettles(jobs: seq<Record>, e: Event, id: string) {
    e.Poll? && Has(jobs, id)
    && id in Observed(e.recent + e.active) && Changed(jobs[IndexOf(jobs, id)], Observed(e.recent + e.active)[id])
  }

  lemma PollKeepsBindingIff(jobs: seq<Record>, receipts: seq<Receipt>, e: Event, jobs': seq<Record>, id: string)
    requires Valid(jobs) && Moves(jobs, receipts, e, jobs') && e.Poll? && BoundTo(jobs, id).Some?
    ensures BoundTo(jobs', id) == BoundTo(jobs, id) <==> !Unsettles(jobs, e, id)
  {
    var rows := AddReceipts(jobs, receipts);
    ReceiptsKeepValid(jobs, receipts);
    ByIdOfUnique(rows);
    var k := IndexOf(jobs, id);
    assert rows[k] == jobs[k];
    var observed := Observed(e.recent + e.active);
    var records := AfterPoll(ById(rows), observed, e.checked);
    AfterPollKeepsAssociationsOk(ById(rows), observed, e.checked);
    assert records[id].association == if Unsettles(jobs, e, id) then None else jobs[k].association;
    if !Unsettles(jobs, e, id) {
      assert records[id] in jobs';
      var j :| 0 <= j < |jobs'| && jobs'[j] == records[id];
      BoundRecord(jobs', j);
    }
  }

  /** For every step: a binding survives if and only if the step is not a poll that reports another
      directory or start time. Failed polls, retention, receipts and other projects never touch it. */
  lemma StepKeepsBindingIff(jobs: seq<Record>, receipts: seq<Receipt>, e: Event, jobs': seq<Record>, id: string)
    requires Valid(jobs) && Moves(jobs, receipts, e, jobs') && BoundTo(jobs, id).Some?
    ensures BoundTo(jobs', id) == BoundTo(jobs, id) <==> !Unsettles(jobs, e, id)
  {
    StepKeepsValid(jobs, receipts, e, jobs');
    if e.Poll? {
      PollKeepsBindingIff(jobs, receipts, e, jobs', id);
    } else {
      ReceiptsKeepValid(jobs, receipts);
      var k := IndexOf(jobs, id);
      var rows := AddReceipts(jobs, receipts);
      assert rows[k] == jobs[k];
      UniqueIndex(rows, id, k);
      BoundRecord(jobs', k);
    }
  }

  /** Over every trace: a binding lasts as long as no poll reports another directory or start time. */
  lemma {:induction false} BindingLasts(states: seq<seq<Record>>, receipts: seq<seq<Receipt>>, events: seq<Event>,
                                        from: nat, id: string)
    requires Trace(states, receipts, events) && from <= |events| && BoundTo(states[from], id).Some?
    requires forall i | from <= i < |events| :: !Unsettles(states[i], events[i], id)
    ensures BoundTo(states[|events|], id) == BoundTo(states[from], id)
  {
    if from < |events| {
      var n := |events| - 1;
      BindingLasts(states[..n + 1], receipts[..n], events[..n], from, id);
      ReachableIsValid(states[..n + 1], receipts[..n], events[..n]);
      StepKeepsBindingIff(states[n], receipts[n], events[n], states[n + 1], id);
    }
  }

  /** The row reports no other start time than the one on record. */
  predicate SameStart(r: Record, row: Sighting) {
    row.startedAt.None? || row.startedAt.value == "" || r.startedAt == "" || row.startedAt.value == r.startedAt
  }

  /** A successful bind stores the directory without its trailing slashes, so the next poll of a
      scheduler that steadily reports the same text breaks the binding at once, if and only if that
      text ends in a slash and is not the root itself. */
  lemma SteadyDirectoryKeepsBindingIff(jobs: seq<Record>, id: string, project: string, checked: int, row: Sighting)
    requires Valid(jobs) && Has(jobs, id)
    requires row.key == id && Usable(id) && row.directory != "" && SameStart(jobs[IndexOf(jobs, id)], row)
    requires jobs[IndexOf(jobs, id)].directory == row.directory
    requires AssociateSpec(jobs, false, [], id, project, row.directory, true, jobs, []).1 == Ok
    ensures var bound := AssociateSpec(jobs, false, [], id, project, row.directory, true, jobs, []).0;
            && Valid(bound) && Has(bound, id) && BoundTo(bound, id) == Some(project)
            && (Unsettles(bound, Poll([], [row], checked), id) <==> Canonical(row.directory) != row.directory)
  {
    var bound := AssociateSpec(jobs, false, [], id, project, row.directory, true, jobs, []).0;
    var bind := Bind(id, project, Canonical(row.directory));
    assert Moves(jobs, [], bind, bound);
    StepKeepsValid(jobs, [], bind, bound);
    var k := IndexOf(jobs, id);
    UniqueIndex(bound, id, k);
    ObservedSingle(row);
    assert [] + [row] == [row];
  }

  lemma ObservedSingle(row: Sighting)
    requires Usable(row.key)
    ensures Observed([row]) == map[row.key := row]
  {
    assert [row][..0] == [];
  }

  // ---------------------------------------------------------------- what the record gets wrong

  /** The note of the state a job was last known in. */
  function NoteOf(jobs: seq<Record>, id: string): string {
    if Has(jobs, id) then jobs[IndexOf(jobs, id)].lastKnown else ""
  }

  lemma PollKeepsNote(jobs: seq<Record>, receipts: seq<Receipt>, e: Event, jobs': seq<Record>, id: string)
    requires Valid(jobs) && Moves(jobs, receipts, e, jobs') && e.Poll?
    requires NoteOf(jobs, id) != "" && Has(jobs', id)
    ensures NoteOf(jobs', id) == NoteOf(jobs, id)
  {
    var rows := AddReceipts(jobs, receipts);
    ReceiptsKeepValid(jobs, receipts);
    ByIdOfUnique(rows);
    var k := IndexOf(jobs, id);
    assert rows[k] == jobs[k];
    var records := AfterPoll(ById(rows), Observed(e.recent + e.active), e.checked);
    assert records[id].lastKnown == jobs[k].lastKnown;
    var j := IndexOf(jobs', id);
    assert jobs'[j] == records[jobs'[j].jobId];
  }

  lemma StepKeepsNote(jobs: seq<Record>, receipts: seq<Receipt>, e: Event, jobs': seq<Record>, id: string)
    requires Valid(jobs) && Moves(jobs, receipts, e, jobs')
    requires NoteOf(jobs, id) != "" && Has(jobs', id)
    ensures NoteOf(jobs', id) == NoteOf(jobs, id)
  {
    StepKeepsValid(jobs, receipts, e, jobs');
    if e.Poll? {
      PollKeepsNote(jobs, receipts, e, jobs', id);
    } else {
      ReceiptsKeepValid(jobs, receipts);
      var k := IndexOf(jobs, id);
      assert AddReceipts(jobs, receipts)[k] == jobs[k];
      UniqueIndex(AddReceipts(jobs, receipts), id, k);
      UniqueIndex(jobs', id, k);
    }
  }

  /** Over every trace the first note stays for good, however often the job returns and vanishes again:
      as long as the record is held, the name is of the state before the first disappearance. */
  lemma {:induction false} FirstNoteLasts(states: seq<seq<Record>>, receipts: seq<seq<Receipt>>, events: seq<Event>,
                                          from: nat, id: string)
    requires Trace(states, receipts, events) && from <= |events| && NoteOf(states[from], id) != ""
    requires forall i | from <= i <= |events| :: Has(states[i], id)
    ensures NoteOf(states[|events|], id) == NoteOf(states[from], id)
  {
    if from < |events| {
      var n := |events| - 1;
      FirstNoteLasts(states[..n + 1], receipts[..n], events[..n], from, id);
      ReachableIsValid(states[..n + 1], receipts[..n], events[..n]);
      assert Moves(states[n], receipts[n], events[n], states[n + 1]) && Has(states[n + 1], id);
      StepKeepsNote(states[n], receipts[n], events[n], states[n + 1], id);
    }
  }

  /** In any trace, when a poll misses a live job that stays on record, the note names the state it was in
      if and only if no other state had been noted before. */
  lemma DisappearanceIsNamedIff(states: seq<seq<Record>>, receipts: seq<seq<Receipt>>, events: seq<Event>,
                                i: nat, id: string)
    requires Trace(states, receipts, events) && i < |events| && events[i].Poll?
    requires id !in Observed(events[i].recent + events[i].active)
    requires Has(states[i], id) && states[i][IndexOf(states[i], id)].state !in TERMINAL_STATES
    requires Has(states[i + 1], id)
    ensures var state := states[i][IndexOf(states[i], id)].state;
            NoteOf(states[i + 1], id) == state <==> NoteOf(states[i], id) == "" || NoteOf(states[i], id) == state
  {
    var jobs, e := states[i], events[i];
    TraceIsValidAt(states, receipts, events, i);
    assert Moves(states[i], receipts[i], events[i], states[i + 1]);
    var rows := AddReceipts(jobs, receipts[i]);
    ReceiptsKeepValid(jobs, receipts[i]);
    ByIdOfUnique(rows);
    var k := IndexOf(jobs, id);
    assert rows[k] == jobs[k];
    var j := IndexOf(states[i + 1], id);
    assert states[i + 1][j] == Absent(jobs[k]);
  }

  lemma TraceIsValidAt(states: seq<seq<Record>>, receipts: seq<seq<Receipt>>, events: seq<Event>, i: nat)
    requires Trace(states, receipts, events) && i <= |events|
    ensures Valid(states[i])
  {
    ReachableIsValid(states[..i + 1], receipts[..i], events[..i]);
  }

  // ---------------------------------------------------------------- receipts and retention

  predicate Lists(receipts: seq<Receipt>, id: string) {
    exists i | 0 <= i < |receipts| :: receipts[i].jobId == id
  }

  /** The row that a load shows for a receipt's job that the record lacks. */
  ghost predicate Revived(rows: seq<Record>, receipts: seq<Receipt>, id: string) {
    Has(rows, id) && exists r <- receipts :: r.jobId == id && rows[IndexOf(rows, id)] == SubmittedRow(r)
  }

  lemma {:induction false} LoadRevives(jobs: seq<Record>, receipts: seq<Receipt>, id: string)
    requires Valid(jobs) && !Has(jobs, id)
    ensures Lists(receipts, id) ==> Revived(AddReceipts(jobs, receipts), receipts, id)
    ensures !Lists(receipts, id) ==> !Has(AddReceipts(jobs, receipts), id)
  {
    if receipts != [] {
      var n := |receipts| - 1;
      var before, rows := AddReceipts(jobs, receipts[..n]), AddReceipts(jobs, receipts);
      LoadRevives(jobs, receipts[..n], id);
      ReceiptsKeepValid(jobs, receipts[..n]);
      ReceiptsKeepValid(jobs, receipts);
      assert receipts[n] in receipts;
      if Lists(receipts[..n], id) {
        var k := IndexOf(before, id);
        assert rows[k] == before[k];
        UniqueIndex(rows, id, k);
      } else if receipts[n].jobId == id {
        assert rows[|before|] == SubmittedRow(receipts[n]);
        UniqueIndex(rows, id, |before|);
      }
    }
  }

  /** In any trace, a load shows a job's row as saved if the record has one; else it shows one if and only
      if a receipt is listed for the job, and then it is unknown again, however the job had ended. */
  lemma ReceiptRevivesIffForgotten(states: seq<seq<Record>>, receipts: seq<seq<Receipt>>, events: seq<Event>,
                                   i: nat, listed: seq<Receipt>, id: string)
    requires Trace(states, receipts, events) && i <= |events|
    ensures var rows := AddReceipts(states[i], listed);
            && (Has(rows, id) <==> Has(states[i], id) || Lists(listed, id))
            && (Has(states[i], id) ==> rows[IndexOf(rows, id)] == states[i][IndexOf(states[i], id)])
            && (!Has(states[i], id) && Lists(listed, id) ==>
                  rows[IndexOf(rows, id)].state == UNKNOWN && rows[IndexOf(rows, id)].association.None?)
  {
    var jobs, rows := states[i], AddReceipts(states[i], listed);
    TraceIsValidAt(states, receipts, events, i);
    ReceiptsKeepValid(jobs, listed);
    if Has(jobs, id) {
      var k := IndexOf(jobs, id);
      assert rows[k] == jobs[k];
      UniqueIndex(rows, id, k);
    } else {
      LoadRevives(jobs, listed, id);
    }
  }

  /** Five hundred newer records crowd an unbound one out. */
  lemma NewerCrowdOut(records: map<string, Record>, jobs: seq<Record>, id: string, newer: set<string>)
    requires Retains(records, jobs) && KeysMatch(records) && id in records && records[id].association.None?
    requires newer <= records.Keys && |newer| >= RETAINED
    requires forall n <- newer :: records[n].lastSeen > records[id].lastSeen
    ensures !Has(jobs, id)
  {
    if Has(jobs, id) {
      var k := IndexOf(jobs, id);
      assert jobs[k] == records[id] && k < RETAINED;
      forall n <- newer ensures n in IdsBefore(jobs, k) {
        assert records[n] in jobs;
        var j :| 0 <= j < |jobs| && jobs[j] == records[n];
        assert j < k;
      }
      assert newer <= IdsBefore(jobs, k);
      IdsBeforeAreFew(jobs, k);
      SubsetIsSmaller(newer, IdsBefore(jobs, k));
      assert false;
    }
  }

  function IdsBefore(jobs: seq<Record>, k: nat): set<string>
    requires k <= |jobs|
  {
    set i | 0 <= i < k :: jobs[i].jobId
  }

  lemma {:induction false} IdsBeforeAreFew(jobs: seq<Record>, k: nat)
    requires k <= |jobs|
    ensures |IdsBefore(jobs, k)| <= k
  {
    if k == 0 {
      assert IdsBefore(jobs, k) == {};
    } else {
      IdsBeforeAreFew(jobs, k - 1);
      assert IdsBefore(jobs, k) == IdsBefore(jobs, k - 1) + {jobs[k - 1].jobId};
    }
  }

  /** A poll full of other jobs, later than every receipt of this one. */
  ghost predicate Crowded(e: Event, receipts: seq<Receipt>, id: string) {
    && e.Poll? && id !in Observed(e.recent + e.active) && |Observed(e.recent + e.active)| >= RETAINED
    && forall r <- receipts :: r.jobId == id ==> r.submittedAt < e.checked
  }

  /** The job has no record yet, or an unbound one from before. */
  predicate OldOrGone(jobs: seq<Record>, id: string, checked: int) {
    Has(jobs, id) ==> var r := jobs[IndexOf(jobs, id)]; r.association.None? && r.lastSeen < checked
  }

  lemma LoadIsOldOrGone(jobs: seq<Record>, receipts: seq<Receipt>, id: string, checked: int)
    requires Valid(jobs) && OldOrGone(jobs, id, checked)
    requires forall r <- receipts :: r.jobId == id ==> r.submittedAt < checked
    ensures OldOrGone(AddReceipts(jobs, receipts), id, checked)
  {
    var rows := AddReceipts(jobs, receipts);
    ReceiptsKeepValid(jobs, receipts);
    if Has(jobs, id) {
      var k := IndexOf(jobs, id);
      assert rows[k] == jobs[k];
      UniqueIndex(rows, id, k);
    } else {
      LoadRevives(jobs, receipts, id);
    }
  }

  lemma CrowdedRecords(rows: seq<Record>, observed: map<string, Sighting>, checked: int, id: string)
    requires Valid(rows) && OldOrGone(rows, id, checked) && id !in observed
    ensures var records := AfterPoll(ById(rows), observed, checked);
            && KeysMatch(records) && observed.Keys <= records.Keys
            && (forall n <- observed :: records[n].lastSeen == checked)
            && (id in records ==> records[id].association.None? && records[id].lastSeen < checked)
  {
    ByIdOfUnique(rows);
    AfterPollKeepsAssociationsOk(ById(rows), observed, checked);
    if Has(rows, id) {
      var k := IndexOf(rows, id);
      assert ById(rows)[id] == rows[k];
    }
  }

  lemma CrowdedPollForgets(jobs: seq<Record>, receipts: seq<Receipt>, e: Event, jobs': seq<Record>, id: string)
    requires Valid(jobs) && Moves(jobs, receipts, e, jobs') && Crowded(e, receipts, id)
    requires OldOrGone(jobs, id, e.checked)
    ensures !Has(jobs', id)
  {
    var rows := AddReceipts(jobs, receipts);
    var observed := Observed(e.recent + e.active);
    ReceiptsKeepValid(jobs, receipts);
    LoadIsOldOrGone(jobs, receipts, id, e.checked);
    CrowdedRecords(rows, observed, e.checked, id);
    var records := AfterPoll(ById(rows), observed, e.checked);
    if id in records {
      assert |observed.Keys| == |observed|;
      NewerCrowdOut(records, jobs', id, observed.Keys);
    }
  }

  /** Every poll from a position on is full of other jobs, and the first finds nothing newer of this one. */
  ghost predicate CrowdedFrom(states: seq<seq<Record>>, receipts: seq<seq<Receipt>>, events: seq<Event>, from: nat,
                              id: string)
    requires Trace(states, receipts, events)
  {
    && from < |events|
    && (forall i | from <= i < |events| :: Crowded(events[i], receipts[i], id))
    && OldOrGone(states[from], id, events[from].checked)
  }

  lemma {:induction false} StaysForgotten(
      states: seq<seq<Record>>, receipts: seq<seq<Receipt>>, events: seq<Event>, from: nat, id: string)
    requires Trace(states, receipts, events) && CrowdedFrom(states, receipts, events, from, id)
    ensures !Has(states[|events|], id)
  {
    var n := |events| - 1;
    TraceIsValidAt(states, receipts, events, n);
    if from < n {
      StaysForgotten(states[..n + 1], receipts[..n], events[..n], from, id);
    }
    assert Moves(states[n], receipts[n], events[n], states[n + 1]) && Crowded(events[n], receipts[n], id);
    CrowdedPollForgets(states[n], receipts[n], events[n], states[n + 1], id);
  }

  /** Retention and receipts at odds, over any trace of polls full of other jobs: an unbound job, ended or
      not, is forgotten by each poll and shown again, as unknown, by each load in between. */
  lemma ForgottenAndRevivedForever(
      states: seq<seq<Record>>, receipts: seq<seq<Receipt>>, events: seq<Event>, from: nat,
      listed: seq<Receipt>, id: string)
    requires Trace(states, receipts, events) && CrowdedFrom(states, receipts, events, from, id) && Lists(listed, id)
    ensures !Has(states[|events|], id)
    ensures Revived(AddReceipts(states[|events|], listed), listed, id)
  {
    StaysForgotten(states, receipts, events, from, id);
    TraceIsValidAt(states, receipts, events, |events|);
    LoadRevives(states[|events|], listed, id);
  }
}
