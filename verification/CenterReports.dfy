/** What a job's record says, from the rows and receipts. */
module CenterReports {
  import opened Options
  import opened Checks
  import opened JobStates
  import opened RemoteCenter
  import opened CenterRuns

  // ---------------------------------------------------------------- polls

  predicate Reports(row: Sighting, id: string) {
    row.key == id && 0 < |id| <= 100
  }

  /** The k-th row is the last one about the job. */
  predicate LastReport(rows: seq<Sighting>, id: string, k: nat) {
    k < |rows| && Reports(rows[k], id) && forall i | k < i < |rows| :: !Reports(rows[i], id)
  }

  lemma {:induction false} ObservedIsLastReport(rows: seq<Sighting>, id: string) returns (k: nat)
    ensures id in Observed(rows) ==> LastReport(rows, id, k) && Observed(rows)[id] == rows[k]
    ensures id !in Observed(rows) ==> forall i | 0 <= i < |rows| :: !Reports(rows[i], id)
  {
    k := 0;
    if rows != [] {
      var n := |rows| - 1;
      k := ObservedIsLastReport(rows[..n], id);
      assert forall i | 0 <= i < n :: rows[i] == rows[..n][i];
      if Reports(rows[n], id) {
        k := n;
      }
    }
  }

  /** The row is about the job as it is on record: no other directory, no other start time. */
  predicate SameJob(before: Record, row: Sighting) {
    && (row.directory == "" || row.directory == before.directory)
    && (row.directory == "" ==> row.workdir == "" || row.workdir == before.directory)
    && (row.startedAt.Some? && row.startedAt.value != "" && before.startedAt != "" ==>
          row.startedAt.value == before.startedAt)
  }

  /** A record after a poll whose last row about the job is this one. */
  ghost predicate Reported(before: Option<Record>, row: Sighting, checked: int, r: Record) {
    && r.state == (if row.state == "" then "UNKNOWN" else row.state)
    && (row.directory != "" ==> r.directory == row.directory)
    && (row.directory == "" && row.workdir != "" ==> r.directory == row.workdir)
    && (row.directory == "" && row.workdir == "" ==>
          r.directory == if before.Some? then before.value.directory else "")
    && (row.startedAt.Some? ==> r.startedAt == row.startedAt.value)
    && (row.startedAt.None? ==> r.startedAt == if before.Some? then before.value.startedAt else "")
    && r.firstSeen == (if before.Some? then before.value.firstSeen else checked) && r.lastSeen == checked
    && r.lastKnown == (if before.Some? then before.value.lastKnown else "")
    && r.observed && !r.stale
    && r.association == if before.Some? && SameJob(before.value, row) then before.value.association else None
  }

  /** A record after a poll without a row about the job. */
  ghost predicate Unreported(before: Record, r: Record) {
    && r.directory == before.directory && r.association == before.association && r.startedAt == before.startedAt
    && r.firstSeen == before.firstSeen && r.lastSeen == before.lastSeen && !r.observed
    && if before.state in TERMINAL_STATES then
         r.state == before.state && r.lastKnown == before.lastKnown && r.stale == before.stale
       else
         && r.state == "UNKNOWN" && r.stale
         && r.lastKnown == if before.lastKnown == "" then before.state else before.lastKnown
  }

  function Found(rows: seq<Record>, id: string): Option<Record> {
    if Has(rows, id) then Some(rows[IndexOf(rows, id)]) else None
  }

  lemma FoundInMap(rows: seq<Record>, id: string)
    requires UniqueIds(rows)
    ensures Lookup(ById(rows), id) == Found(rows, id)
  {
    ByIdOfUnique(rows);
    if Has(rows, id) {
      assert rows[IndexOf(rows, id)].jobId == id;
    }
  }

  /** After an answered poll, every record kept says exactly what the last row about it and its earlier record
      say; without a row it is the earlier record, marked. */
  lemma PollReports(jobs: seq<Record>, receipts: seq<Receipt>, e: Event, jobs': seq<Record>, id: string)
    requires Valid(jobs) && Moves(jobs, receipts, e, jobs') && e.Poll? && Has(jobs', id)
    ensures var rows, before := e.recent + e.active, Found(AddReceipts(jobs, receipts), id);
            var r := jobs'[IndexOf(jobs', id)];
            if exists i | 0 <= i < |rows| :: Reports(rows[i], id) then
              exists k: nat :: LastReport(rows, id, k) && Reported(before, rows[k], e.checked, r)
            else before.Some? && Unreported(before.value, r)
  {
    var loaded, rows := AddReceipts(jobs, receipts), e.recent + e.active;
    ReceiptsKeepValid(jobs, receipts);
    FoundInMap(loaded, id);
    var k := ObservedIsLastReport(rows, id);
    var r := jobs'[IndexOf(jobs', id)];
    ByIdOfUnique(loaded);
    assert r == AfterPoll(ById(loaded), Observed(rows), e.checked)[id];
    if id in Observed(rows) {
      assert Reports(rows[k], id);
      MergedReports(Found(loaded, id), id, rows[k], e.checked);
    }
  }

  lemma MergedReports(before: Option<Record>, id: string, row: Sighting, checked: int)
    ensures Reported(before, row, checked, Merged(before, id, row, checked))
  {
  }

  /** What a poll drops: only an unbound record, and only for five hundred that were seen no earlier. What it keeps
      beyond those is bound, and the newest come first. */
  lemma PollDrops(jobs: seq<Record>, receipts: seq<Receipt>, e: Event, jobs': seq<Record>, id: string)
    requires Valid(jobs) && Moves(jobs, receipts, e, jobs') && e.Poll? && !Has(jobs', id)
    ensures var rows, before := e.recent + e.active, Found(AddReceipts(jobs, receipts), id);
            var reported := exists i | 0 <= i < |rows| :: Reports(rows[i], id);
            reported || before.Some? ==>
              && |jobs'| >= 500
              && (forall i | 0 <= i < 500 ::
                    jobs'[i].lastSeen >= if reported then e.checked else before.value.lastSeen)
              && (!reported ==> before.value.association.None?)
    ensures forall i | 500 <= i < |jobs'| :: jobs'[i].association.Some?
    ensures forall i, j | 0 <= i < j < |jobs'| :: jobs'[i].lastSeen >= jobs'[j].lastSeen
  {
    var loaded, rows := AddReceipts(jobs, receipts), e.recent + e.active;
    ReceiptsKeepValid(jobs, receipts);
    FoundInMap(loaded, id);
    var k := ObservedIsLastReport(rows, id);
    ByIdOfUnique(loaded);
    var records := AfterPoll(ById(loaded), Observed(rows), e.checked);
    AfterPollKeepsAssociationsOk(ById(loaded), Observed(rows), e.checked);
    if id in records {
      forall j | 0 <= j < |jobs'| ensures jobs'[j] != records[id] {
        assert jobs'[j].jobId != id;
      }
    }
    if id in Observed(rows) {
      assert Reports(rows[k], id);
    }
  }

  // ---------------------------------------------------------------- receipts

  predicate FirstListed(receipts: seq<Receipt>, id: string, k: nat) {
    k < |receipts| && receipts[k].jobId == id && forall i | 0 <= i < k :: receipts[i].jobId != id
  }

  lemma FoundStays(rows: seq<Record>, r: Record, id: string)
    requires UniqueIds(rows + [r])
    ensures Has(rows, id) ==> Found(rows + [r], id) == Found(rows, id)
    ensures r.jobId == id ==> Found(rows + [r], id) == Some(r)
  {
    if Has(rows, id) {
      assert (rows + [r])[IndexOf(rows, id)] == rows[IndexOf(rows, id)];
      UniqueIndex(rows + [r], id, IndexOf(rows, id));
    }
    if r.jobId == id {
      UniqueIndex(rows + [r], id, |rows|);
    }
  }

  lemma {:induction false} FirstReceiptCounts(jobs: seq<Record>, receipts: seq<Receipt>, id: string) returns (k: nat)
    requires Valid(jobs) && !Has(jobs, id) && Lists(receipts, id)
    ensures FirstListed(receipts, id, k)
    ensures Found(AddReceipts(jobs, receipts), id) == Some(SubmittedRow(receipts[k]))
  {
    var n := |receipts| - 1;
    var before, row := AddReceipts(jobs, receipts[..n]), SubmittedRow(receipts[n]);
    ReceiptsKeepValid(jobs, receipts);
    LoadRevives(jobs, receipts[..n], id);
    assert forall i | 0 <= i < n :: receipts[i] == receipts[..n][i];
    if !Has(before, receipts[n].jobId) {
      FoundStays(before, row, id);
    }
    if Lists(receipts[..n], id) {
      k := FirstReceiptCounts(jobs, receipts[..n], id);
    } else {
      k := n;
    }
  }

  /** A load shows a job that the record lacks as its first receipt tells it: not seen by any scheduler yet. */
  lemma ReceiptReports(jobs: seq<Record>, receipts: seq<Receipt>, id: string)
    requires Valid(jobs) && !Has(jobs, id) && Lists(receipts, id)
    ensures exists k: nat :: FirstListed(receipts, id, k)
              && Found(AddReceipts(jobs, receipts), id)
                 == Some(Record(id, "UNKNOWN", receipts[k].directory, None, "", receipts[k].submittedAt,
                                receipts[k].submittedAt, "SUBMITTED", false, true))
  {
    var k := FirstReceiptCounts(jobs, receipts, id);
  }

  // ---------------------------------------------------------------- bindings

  /** What is left of a path without the slashes it ends in. */
  predicate Stripped(path: string, t: string) {
    t <= path && (t != "" ==> t[|t| - 1] != '/') && forall i | |t| <= i < |path| :: path[i] == '/'
  }

  lemma {:induction false} TrimIsStripped(path: string)
    ensures Stripped(path, TrimSlashes(path))
    ensures forall t | Stripped(path, t) :: t == TrimSlashes(path)
  {
    if path != "" && path[|path| - 1] == '/' {
      var front := path[..|path| - 1];
      TrimIsStripped(front);
      forall t | Stripped(path, t) ensures Stripped(front, t) {
        assert t != path;
      }
    } else {
      assert forall t | Stripped(path, t) :: |t| == |path|;
    }
  }

  /** Two texts for one directory. */
  ghost predicate SamePlace(a: string, b: string) {
    exists t :: Stripped(a, t) && Stripped(b, t)
  }

  lemma SamePlaceIff(a: string, b: string)
    ensures SamePlace(a, b) <==> TrimSlashes(a) == TrimSlashes(b)
  {
    TrimIsStripped(a);
    TrimIsStripped(b);
  }

  /** What a binding asks before it takes the lock, in its order. */
  ghost function DirectoryChecks(
      rows: seq<Record>, stale: bool, id: string, current: string, usable: bool): seq<Check<Reply>>
  {
    var recorded := if Has(rows, id) then rows[IndexOf(rows, id)].directory else "";
    [Check(Has(rows, id), UnknownJob),
     Check(!stale, StaleServer),
     Check(current != "" && recorded != "" ==> SamePlace(current, recorded), DirectoryMismatch),
     Check(current != "" || recorded != "", NoDirectory),
     Check(usable, DirectoryUnavailable)]
  }

  function Refusal(reply: Reply): Option<Reply> {
    if reply == Ok then None else Some(reply)
  }

  /** The directory to bind is the scheduler's if it gives one, else the recorded one, without the slashes it
      ends in; only the root keeps its own. */
  lemma DirectoryAnswers(jobs: seq<Record>, stale: bool, receipts: seq<Receipt>, id: string, current: string,
                         usable: bool)
    ensures var (directory, reply) := CheckSpec(jobs, stale, receipts, id, current, usable);
            var rows := AddReceipts(jobs, receipts);
            && AnswersTo(DirectoryChecks(rows, stale, id, current, usable), Refusal(reply))
            && (directory.Some? <==> reply == Ok)
            && (reply == Ok ==>
                  var told := if current != "" then current else rows[IndexOf(rows, id)].directory;
                  && Has(rows, id) && told != ""
                  && if directory.value == "/" then Stripped(told, "")
                     else directory.value != "" && Stripped(told, directory.value))
  {
    var rows := AddReceipts(jobs, receipts);
    var c := DirectoryChecks(rows, stale, id, current, usable);
    var k := FirstFailing(c);
    assert c == [c[0], c[1], c[2], c[3], c[4]];
    if Has(rows, id) {
      var recorded := rows[IndexOf(rows, id)].directory;
      SamePlaceIff(current, recorded);
      TrimIsStripped(if current != "" then current else recorded);
    }
  }

  /** A binding is refused if and only if the job is gone, or bound to another project; then nothing changes.
      Else the job's record names the project and the directory, and nothing else differs. */
  lemma BindAnswers(jobs: seq<Record>, receipts: seq<Receipt>, id: string, project: string, directory: string)
    ensures var (jobs', reply) := BindSpec(jobs, receipts, id, project, directory);
            var before := Found(AddReceipts(jobs, receipts), id);
            && (reply == JobVanished <==> before.None?)
            && (reply == OtherProject <==> before.Some? && before.value.association.Some?
                                           && before.value.association.value.project != project)
            && (reply == Ok || reply == JobVanished || reply == OtherProject) && (reply != Ok ==> jobs' == jobs)
            && (reply == Ok ==>
                  && |jobs'| == |AddReceipts(jobs, receipts)|
                  && forall i | 0 <= i < |jobs'| ::
                       var r := AddReceipts(jobs, receipts)[i];
                       jobs'[i] == if i != IndexOf(AddReceipts(jobs, receipts), id) then r
                                   else Record(id, r.state, directory, Some(Association(project, directory)),
                                               r.startedAt, r.firstSeen, r.lastSeen, r.lastKnown, r.observed, r.stale))
  {
  }

  /** associate() binds what other processes saved meanwhile, not what it checked: it succeeds if and only if the
      directory passed its checks and the record as it is under the lock accepts the binding. */
  lemma AssociateAnswers(jobs: seq<Record>, stale: bool, receipts: seq<Receipt>, id: string, project: string,
                         current: string, usable: bool, meanwhile: seq<Record>, later: seq<Receipt>)
    ensures var (jobs', reply) := AssociateSpec(jobs, stale, receipts, id, project, current, usable, meanwhile, later);
            var (directory, refusal) := CheckSpec(jobs, stale, receipts, id, current, usable);
            var before := Found(AddReceipts(meanwhile, later), id);
            && (reply == Ok <==>
                  && refusal == Ok && before.Some?
                  && (before.value.association.Some? ==> before.value.association.value.project == project))
            && (refusal != Ok ==> reply == refusal && jobs' == jobs)
            && (refusal == Ok && reply != Ok ==> jobs' == meanwhile)
            && (reply == Ok ==> directory.Some?
                                && jobs' == BindSpec(meanwhile, later, id, project, directory.value).0)
  {
    var directory := CheckSpec(jobs, stale, receipts, id, current, usable).0;
    if directory.Some? {
      BindAnswers(meanwhile, later, id, project, directory.value);
    }
  }

  // ---------------------------------------------------------------- times over traces

  lemma OtherStepsReport(jobs: seq<Record>, receipts: seq<Receipt>, e: Event, jobs': seq<Record>, id: string)
    requires Valid(jobs) && Moves(jobs, receipts, e, jobs') && !e.Poll? && Has(jobs, id)
    ensures Has(jobs', id)
    ensures var before, after := jobs[IndexOf(jobs, id)], jobs'[IndexOf(jobs', id)];
            after == before || (e.Bind? && e.id == id && after == before.(directory := after.directory,
                                                                          association := after.association))
  {
    StepKeepsValid(jobs, receipts, e, jobs');
    ReceiptsKeepValid(jobs, receipts);
    var k := IndexOf(jobs, id);
    var rows := AddReceipts(jobs, receipts);
    assert rows[k] == jobs[k];
    UniqueIndex(rows, id, k);
    UniqueIndex(jobs', id, k);
  }

  predicate SeenIn(e: Event, id: string) {
    e.Poll? && exists i | 0 <= i < |e.recent + e.active| :: Reports((e.recent + e.active)[i], id)
  }

  /** When the last of some events saw the job, or the earlier time if none did. */
  function LastSeenAfter(start: int, events: seq<Event>, id: string): int {
    if events == [] then start else
      var n := |events| - 1;
      if SeenIn(events[n], id) then events[n].checked else LastSeenAfter(start, events[..n], id)
  }

  lemma StepKeepsTimes(jobs: seq<Record>, receipts: seq<Receipt>, e: Event, jobs': seq<Record>, id: string)
    requires Valid(jobs) && Moves(jobs, receipts, e, jobs') && Has(jobs, id) && Has(jobs', id)
    ensures var before, after := jobs[IndexOf(jobs, id)], jobs'[IndexOf(jobs', id)];
            && after.firstSeen == before.firstSeen
            && after.lastSeen == if SeenIn(e, id) then e.checked else before.lastSeen
  {
    if e.Poll? {
      PollReports(jobs, receipts, e, jobs', id);
      ReceiptsKeepValid(jobs, receipts);
      var k := IndexOf(jobs, id);
      assert AddReceipts(jobs, receipts)[k] == jobs[k];
      UniqueIndex(AddReceipts(jobs, receipts), id, k);
    } else {
      OtherStepsReport(jobs, receipts, e, jobs', id);
    }
  }

  /** Over every trace, as long as the record is held: it keeps the time of its first sight, and was last seen by
      the last poll that had a row about it, whatever was bound, submitted or missed in between. */
  lemma {:induction false} TimesOverTrace(states: seq<seq<Record>>, receipts: seq<seq<Receipt>>, events: seq<Event>,
                                          from: nat, id: string)
    requires Trace(states, receipts, events) && from <= |events|
    requires forall i | from <= i <= |events| :: Has(states[i], id)
    ensures Has(states[from], id) && Has(states[|events|], id)
    ensures var first, last := states[from][IndexOf(states[from], id)], states[|events|][IndexOf(states[|events|], id)];
            && last.firstSeen == first.firstSeen
            && last.lastSeen == LastSeenAfter(first.lastSeen, events[from..], id)
  {
    if from < |events| {
      var n := |events| - 1;
      TimesOverTrace(states[..n + 1], receipts[..n], events[..n], from, id);
      TraceIsValidAt(states, receipts, events, n);
      assert Has(states[n], id) && Has(states[n + 1], id);
      assert Moves(states[n], receipts[n], events[n], states[n + 1]);
      StepKeepsTimes(states[n], receipts[n], events[n], states[n + 1], id);
      assert events[from..][..n - from] == events[..n][from..];
    }
  }
}
