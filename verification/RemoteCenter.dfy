/** The fleet center's record of one server: scheduler rows merged into bindable job records. */
module RemoteCenter {
  import opened Options
  import opened JobStates

  const RETAINED := 500

  datatype Association = Association(project: string, directory: string)

  /** One scheduler row. Absent texts are empty; startedAt is None when the row lacks the field. */
  datatype Sighting = Sighting(
    key: string, state: string, directory: string, workdir: string, startedAt: Option<string>)

  datatype Record = Record(
    jobId: string,
    state: string,
    directory: string,
    association: Option<Association>,
    startedAt: string,
    firstSeen: int,
    lastSeen: int,
    lastKnown: string,
    observed: bool,
    stale: bool)

  /** An accepted submission, kept independently of the scheduler's own history. */
  datatype Receipt = Receipt(jobId: string, directory: string, submittedAt: int)

  datatype Reply = Ok | QueryFailed | IdentityChanged | UnknownJob | StaleServer | DirectoryMismatch
                 | NoDirectory | DirectoryUnavailable | OtherProject | JobVanished

  /** The answers of the scheduler to one refresh. */
  datatype Answer =
    | NoAnswer
    | Reconfigured
    | Answered(recent: seq<Sighting>, active: seq<Sighting>)

  // ---------------------------------------------------------------- records

  predicate Has(jobs: seq<Record>, id: string) {
    exists i | 0 <= i < |jobs| :: jobs[i].jobId == id
  }

  ghost predicate UniqueIds(jobs: seq<Record>) {
    forall i, j | 0 <= i < j < |jobs| :: jobs[i].jobId != jobs[j].jobId
  }

  predicate AssociationOk(r: Record) {
    r.association.Some? ==> r.association.value.directory == r.directory
  }

  ghost predicate Valid(jobs: seq<Record>) {
    UniqueIds(jobs) && forall i | 0 <= i < |jobs| :: AssociationOk(jobs[i])
  }

  function SubmittedRow(receipt: Receipt): Record {
    Record(receipt.jobId, UNKNOWN, receipt.directory, None, "", receipt.submittedAt, receipt.submittedAt,
           "SUBMITTED", false, true)
  }

  function AddReceipt(jobs: seq<Record>, receipt: Receipt): seq<Record> {
    if Has(jobs, receipt.jobId) then jobs else jobs + [SubmittedRow(receipt)]
  }

  /** What _load returns: the saved rows and a row for every receipt they lack. */
  function AddReceipts(jobs: seq<Record>, receipts: seq<Receipt>): seq<Record> {
    if receipts == [] then jobs
    else AddReceipt(AddReceipts(jobs, receipts[..|receipts| - 1]), receipts[|receipts| - 1])
  }

  function ById(jobs: seq<Record>): map<string, Record> {
    if jobs == [] then map[] else ById(jobs[..|jobs| - 1])[jobs[|jobs| - 1].jobId := jobs[|jobs| - 1]]
  }

  // ---------------------------------------------------------------- one poll

  predicate Usable(key: string) {
    key != "" && |key| <= 100
  }

  /** The last row of a usable id counts, and live rows come after accounting rows. */
  function Observed(rows: seq<Sighting>): map<string, Sighting> {
    if rows == [] then map[] else
      var row := rows[|rows| - 1];
      var front := Observed(rows[..|rows| - 1]);
      if Usable(row.key) then front[row.key := row] else front
  }

  function DirectoryOf(row: Sighting): string {
    if row.directory != "" then row.directory else row.workdir
  }

  /** The only changes that break an association. */
  predicate Changed(old': Record, row: Sighting) {
    || (DirectoryOf(row) != "" && DirectoryOf(row) != old'.directory)
    || (row.startedAt.Some? && row.startedAt.value != "" && old'.startedAt != ""
        && row.startedAt.value != old'.startedAt)
  }

  function Merged(prior: Option<Record>, key: string, row: Sighting, checked: int): Record {
    var directory := DirectoryOf(row);
    match prior
    case None =>
      Record(key, StateOr(row.state), directory, None, if row.startedAt.Some? then row.startedAt.value else "",
             checked, checked, "", true, false)
    case Some(r) =>
      Record(key, StateOr(row.state), if directory != "" then directory else r.directory,
             if Changed(r, row) then None else r.association,
             if row.startedAt.Some? then row.startedAt.value else r.startedAt,
             r.firstSeen, checked, r.lastKnown, true, false)
  }

  function Absent(r: Record): Record {
    if r.state in TERMINAL_STATES then r.(observed := false)
    else r.(observed := false, stale := true, state := UNKNOWN,
            lastKnown := if r.lastKnown != "" then r.lastKnown else r.state)
  }

  function Lookup(records: map<string, Record>, id: string): Option<Record> {
    if id in records then Some(records[id]) else None
  }

  function AfterPoll(prior: map<string, Record>, observed: map<string, Sighting>, checked: int): map<string, Record> {
    map id <- prior.Keys + observed.Keys ::
      if id in observed then Merged(Lookup(prior, id), id, observed[id], checked) else Absent(prior[id])
  }

  ghost predicate KeysMatch(records: map<string, Record>) {
    forall id <- records :: records[id].jobId == id
  }

  ghost predicate NewestFirst(rows: seq<Record>) {
    forall i, j | 0 <= i < j < |rows| :: rows[i].lastSeen >= rows[j].lastSeen
  }

  /** Retention keeps the newest first, keeps only bound records beyond the five hundredth, and drops only
      unbound ones no newer than those five hundred. */
  ghost predicate Retains(records: map<string, Record>, jobs: seq<Record>) {
    && UniqueIds(jobs) && NewestFirst(jobs)
    && (forall i | 0 <= i < |jobs| :: jobs[i].jobId in records && jobs[i] == records[jobs[i].jobId])
    && (forall i | RETAINED <= i < |jobs| :: jobs[i].association.Some?)
    && (forall id <- records | records[id] !in jobs ::
          && records[id].association.None?
          && |jobs| >= RETAINED
          && forall i | 0 <= i < RETAINED :: jobs[i].lastSeen >= records[id].lastSeen)
  }

  /** The first rows up to the limit, and every associated row after them. */
  function Kept(rows: seq<Record>, n: nat): seq<Record>
    requires n <= |rows|
  {
    if n == 0 then []
    else Kept(rows, n - 1) + if n - 1 < RETAINED || rows[n - 1].association.Some? then [rows[n - 1]] else []
  }

  lemma {:induction false} KeptFromRows(rows: seq<Record>, n: nat)
    requires n <= |rows|
    ensures n <= RETAINED ==> Kept(rows, n) == rows[..n]
    ensures n >= RETAINED ==> rows[..RETAINED] <= Kept(rows, n)
    ensures forall r <- Kept(rows, n) :: r in rows[..n]
    ensures forall j | 0 <= j < n :: rows[j] in Kept(rows, n) || (j >= RETAINED && rows[j].association.None?)
  {
    if n > 0 {
      KeptFromRows(rows, n - 1);
      assert rows[..n] == rows[..n - 1] + [rows[n - 1]];
    }
  }

  lemma {:induction false} KeptStaysUnique(rows: seq<Record>, n: nat)
    requires n <= |rows| && UniqueIds(rows)
    ensures UniqueIds(Kept(rows, n))
  {
    if n > 0 {
      KeptStaysUnique(rows, n - 1);
      KeptFromRows(rows, n - 1);
      var front := Kept(rows, n - 1);
      forall i | 0 <= i < |front| ensures front[i].jobId != rows[n - 1].jobId {
        assert front[i] in rows[..n - 1];
      }
    }
  }

  lemma {:induction false} KeptStaysSorted(rows: seq<Record>, n: nat)
    requires n <= |rows| && NewestFirst(rows)
    ensures NewestFirst(Kept(rows, n))
  {
    if n > 0 {
      KeptStaysSorted(rows, n - 1);
      KeptFromRows(rows, n - 1);
      var front := Kept(rows, n - 1);
      forall i | 0 <= i < |front| ensures front[i].lastSeen >= rows[n - 1].lastSeen {
        assert front[i] in rows[..n - 1];
      }
      OlderAtEnd(front, rows[n - 1]);
    }
  }

  lemma OlderAtEnd(front: seq<Record>, last: Record)
    requires NewestFirst(front) && forall i | 0 <= i < |front| :: front[i].lastSeen >= last.lastSeen
    ensures NewestFirst(front + [last]) && NewestFirst(front + [])
  {
    assert front + [] == front;
  }

  lemma {:induction false} KeptBeyondLimitIsBound(rows: seq<Record>, n: nat)
    requires n <= |rows|
    ensures forall i | RETAINED <= i < |Kept(rows, n)| :: Kept(rows, n)[i].association.Some?
  {
    if n > 0 {
      KeptBeyondLimitIsBound(rows, n - 1);
      KeptFromRows(rows, n - 1);
    }
  }

  lemma DroppedIsUnboundAndOld(rows: seq<Record>, j: nat)
    requires NewestFirst(rows) && j < |rows| && rows[j] !in Kept(rows, |rows|)
    ensures rows[j].association.None? && |Kept(rows, |rows|)| >= RETAINED
    ensures forall k | 0 <= k < RETAINED :: Kept(rows, |rows|)[k].lastSeen >= rows[j].lastSeen
  {
    KeptFromRows(rows, |rows|);
    assert forall k | 0 <= k < RETAINED :: Kept(rows, |rows|)[k] == rows[..RETAINED][k];
  }

  lemma KeptIsRetained(records: map<string, Record>, rows: seq<Record>)
    requires UniqueIds(rows)
    requires forall i | 0 <= i < |rows| :: rows[i].jobId in records && rows[i] == records[rows[i].jobId]
    requires forall id <- records :: records[id] in rows
    requires NewestFirst(rows)
    ensures Retains(records, Kept(rows, |rows|))
  {
    var kept := Kept(rows, |rows|);
    KeptFromRows(rows, |rows|);
    KeptStaysUnique(rows, |rows|);
    KeptStaysSorted(rows, |rows|);
    KeptBeyondLimitIsBound(rows, |rows|);
    forall i | 0 <= i < |kept| ensures kept[i].jobId in records && kept[i] == records[kept[i].jobId] {
      assert kept[i] in rows[..|rows|];
    }
    forall id <- records | records[id] !in kept
      ensures records[id].association.None? && |kept| >= RETAINED
      ensures forall k | 0 <= k < RETAINED :: kept[k].lastSeen >= records[id].lastSeen
    {
      var j :| 0 <= j < |rows| && rows[j] == records[id];
      DroppedIsUnboundAndOld(rows, j);
    }
  }

  // ---------------------------------------------------------------- directories

  /** rstrip("/"), or the root. */
  function TrimSlashes(path: string): string {
    if path != "" && path[|path| - 1] == '/' then TrimSlashes(path[..|path| - 1]) else path
  }

  function Canonical(path: string): string {
    if TrimSlashes(path) == "" then "/" else TrimSlashes(path)
  }

  lemma {:induction false} ByIdOfUnique(jobs: seq<Record>)
    requires UniqueIds(jobs)
    ensures KeysMatch(ById(jobs))
    ensures forall i | 0 <= i < |jobs| :: jobs[i].jobId in ById(jobs) && ById(jobs)[jobs[i].jobId] == jobs[i]
    ensures forall id <- ById(jobs) :: ById(jobs)[id] in jobs
  {
    if jobs != [] {
      ByIdOfUnique(jobs[..|jobs| - 1]);
    }
  }

  lemma {:induction false} ReceiptsKeepValid(jobs: seq<Record>, receipts: seq<Receipt>)
    requires Valid(jobs)
    ensures Valid(AddReceipts(jobs, receipts)) && jobs <= AddReceipts(jobs, receipts)
  {
    if receipts != [] {
      ReceiptsKeepValid(jobs, receipts[..|receipts| - 1]);
    }
  }

  lemma AfterPollKeepsAssociationsOk(prior: map<string, Record>, observed: map<string, Sighting>, checked: int)
    requires KeysMatch(prior) && forall id <- prior :: AssociationOk(prior[id])
    ensures KeysMatch(AfterPoll(prior, observed, checked))
    ensures forall id <- AfterPoll(prior, observed, checked) :: AssociationOk(AfterPoll(prior, observed, checked)[id])
  {
  }

  lemma RetainsKeepsValid(records: map<string, Record>, jobs: seq<Record>)
    requires Retains(records, jobs) && forall id <- records :: AssociationOk(records[id])
    ensures Valid(jobs)
  {
  }

  class Center {
    var jobs: seq<Record>
    var stale: bool

    constructor ()
      ensures jobs == [] && !stale
    {
      jobs, stale := [], false;
    }

    method Load(receipts: seq<Receipt>) returns (rows: seq<Record>)
      ensures rows == AddReceipts(jobs, receipts)
    {
      rows := jobs;
      var i := 0;
      while i < |receipts|
        invariant 0 <= i <= |receipts|
        invariant rows == AddReceipts(jobs, receipts[..i])
      {
        assert receipts[..i + 1][..i] == receipts[..i];
        if !(exists k | 0 <= k < |rows| :: rows[k].jobId == receipts[i].jobId) {
          rows := rows + [SubmittedRow(receipts[i])];
        }
        i := i + 1;
      }
      assert receipts[..|receipts|] == receipts;
    }

    method RecordSubmission(receipts: seq<Receipt>, receipt: Receipt, sameIdentity: bool) returns (reply: Reply)
      requires Valid(jobs)
      modifies this
      ensures Valid(jobs) && stale == old(stale)
      ensures reply == (if sameIdentity then Ok else IdentityChanged)
      ensures jobs == if sameIdentity then AddReceipt(AddReceipts(old(jobs), receipts), receipt) else old(jobs)
    {
      if !sameIdentity { return IdentityChanged; }
      var rows := Load(receipts);
      ReceiptsKeepValid(jobs, receipts);
      if !(exists i | 0 <= i < |rows| :: rows[i].jobId == receipt.jobId) {
        rows := rows + [SubmittedRow(receipt)];
      }
      jobs := rows;
      return Ok;
    }

    method CollectRows(rows: seq<Sighting>) returns (observed: map<string, Sighting>)
      ensures observed == Observed(rows)
    {
      observed := map[];
      var i := 0;
      while i < |rows|
        invariant 0 <= i <= |rows|
        invariant observed == Observed(rows[..i])
      {
        assert rows[..i + 1][..i] == rows[..i];
        var key := rows[i].key;
        if key != "" && |key| <= 100 {
          observed := observed[key := rows[i]];
        }
        i := i + 1;
      }
      assert rows[..|rows|] == rows;
    }

    method MergeRow(known: Option<Record>, key: string, row: Sighting, checked: int) returns (entry: Record)
      ensures entry == Merged(known, key, row, checked)
    {
      var directory := if row.directory != "" then row.directory else row.workdir;
      entry := if known.Some? then known.value
               else Record(key, "", directory, None, "", checked, checked, "", true, false);
      entry := entry.(jobId := key, state := StateOr(row.state), lastSeen := checked, observed := true, stale := false);
      if directory != "" {
        entry := entry.(directory := directory);
      }
      if row.startedAt.Some? {
        entry := entry.(startedAt := row.startedAt.value);
      }
      if known.Some?
         && ((directory != "" && directory != known.value.directory)
             || (row.startedAt.Some? && row.startedAt.value != "" && known.value.startedAt != ""
                 && row.startedAt.value != known.value.startedAt)) {
        entry := entry.(association := None);
      }
    }

    method MergeRows(before: map<string, Record>, observed: map<string, Sighting>, checked: int)
      returns (prior: map<string, Record>)
      ensures prior.Keys == before.Keys + observed.Keys
      ensures forall id <- prior ::
                prior[id] == if id in observed then Merged(Lookup(before, id), id, observed[id], checked)
                             else before[id]
    {
      prior := before;
      var todo := observed.Keys;
      while todo != {}
        invariant todo <= observed.Keys
        invariant prior.Keys == before.Keys + (observed.Keys - todo)
        invariant forall id <- prior ::
                    prior[id] == if id in observed && id !in todo
                                 then Merged(Lookup(before, id), id, observed[id], checked)
                                 else before[id]
      {
        var key :| key in todo;
        todo := todo - {key};
        var entry := MergeRow(Lookup(prior, key), key, observed[key], checked);
        prior := prior[key := entry];
      }
    }

    method MarkAbsent(records: map<string, Record>, observed: map<string, Sighting>)
      returns (prior: map<string, Record>)
      ensures prior.Keys == records.Keys
      ensures forall id <- prior :: prior[id] == if id in observed then records[id] else Absent(records[id])
    {
      prior := records;
      var todo := records.Keys;
      while todo != {}
        invariant todo <= prior.Keys == records.Keys
        invariant forall id <- prior ::
                    prior[id] == if id in observed || id in todo then records[id] else Absent(records[id])
      {
        var key :| key in todo;
        todo := todo - {key};
        if key !in observed {
          var row := prior[key].(observed := false);
          if row.state !in TERMINAL_STATES {
            row := row.(lastKnown := if row.lastKnown != "" then row.lastKnown else row.state,
                        state := UNKNOWN, stale := true);
          }
          prior := prior[key := row];
        }
      }
    }

    /** The record seen last among those named. */
    method NewestOf(records: map<string, Record>, ids: set<string>) returns (newest: string)
      requires ids != {} && ids <= records.Keys
      ensures newest in ids
      ensures forall id <- ids :: records[newest].lastSeen >= records[id].lastSeen
    {
      newest :| newest in ids;
      var todo := ids - {newest};
      while todo != {}
        invariant todo <= ids && newest in ids
        invariant forall id <- ids - todo :: records[newest].lastSeen >= records[id].lastSeen
      {
        var id :| id in todo;
        todo := todo - {id};
        if records[id].lastSeen > records[newest].lastSeen {
          newest := id;
        }
      }
    }

    /** All records, the ones seen last first. */
    method SortByLastSeen(records: map<string, Record>) returns (rows: seq<Record>)
      requires KeysMatch(records)
      ensures UniqueIds(rows)
      ensures forall i | 0 <= i < |rows| :: rows[i].jobId in records && rows[i] == records[rows[i].jobId]
      ensures forall id <- records :: records[id] in rows
      ensures NewestFirst(rows)
    {
      rows := [];
      var todo := records.Keys;
      while todo != {}
        invariant todo <= records.Keys
        invariant UniqueIds(rows)
        invariant forall i | 0 <= i < |rows| ::
                    rows[i].jobId in records && rows[i] == records[rows[i].jobId] && rows[i].jobId !in todo
        invariant forall id <- records.Keys - todo :: records[id] in rows
        invariant NewestFirst(rows)
        invariant forall i, id | 0 <= i < |rows| && id in todo :: rows[i].lastSeen >= records[id].lastSeen
      {
        var id := NewestOf(records, todo);
        todo := todo - {id};
        rows := rows + [records[id]];
      }
    }

    method Retain(records: map<string, Record>) returns (retained: seq<Record>)
      requires KeysMatch(records)
      ensures Retains(records, retained)
    {
      var rows := SortByLastSeen(records);
      retained := [];
      var i := 0;
      while i < |rows|
        invariant 0 <= i <= |rows|
        invariant retained == Kept(rows, i)
      {
        if i < RETAINED || rows[i].association.Some? {
          retained := retained + [rows[i]];
        }
        i := i + 1;
      }
      KeptIsRetained(records, rows);
    }

    method Refresh(receipts: seq<Receipt>, answer: Answer, checked: int) returns (reply: Reply)
      requires Valid(jobs)
      modifies this
      ensures Valid(jobs)
      ensures answer.NoAnswer? ==> reply == QueryFailed && stale && jobs == AddReceipts(old(jobs), receipts)
      ensures answer.Reconfigured? ==> reply == IdentityChanged && jobs == old(jobs) && stale == old(stale)
      ensures answer.Answered? ==>
                && reply == Ok && !stale
                && var before := ById(AddReceipts(old(jobs), receipts));
                   Retains(AfterPoll(before, Observed(answer.recent + answer.active), checked), jobs)
    {
      var rows := Load(receipts);
      ReceiptsKeepValid(jobs, receipts);
      match answer
      case NoAnswer =>
        jobs, stale := rows, true;
        return QueryFailed;
      case Reconfigured =>
        return IdentityChanged;
      case Answered(recent, active) =>
        jobs := FoldPoll(rows, recent + active, checked);
        stale := false;
        return Ok;
    }

    method FoldPoll(rows: seq<Record>, rawJobs: seq<Sighting>, checked: int) returns (kept: seq<Record>)
      requires Valid(rows)
      ensures Valid(kept)
      ensures Retains(AfterPoll(ById(rows), Observed(rawJobs), checked), kept)
    {
      ByIdOfUnique(rows);
      var observed := CollectRows(rawJobs);
      var merged := MergeRows(ById(rows), observed, checked);
      var marked := MarkAbsent(merged, observed);
      assert marked == AfterPoll(ById(rows), observed, checked);
      AfterPollKeepsAssociationsOk(ById(rows), observed, checked);
      kept := Retain(marked);
      RetainsKeepsValid(marked, kept);
    }

    method Find(rows: seq<Record>, id: string) returns (found: Option<nat>)
      ensures found.Some? ==> found.value < |rows| && rows[found.value].jobId == id
      ensures found.None? <==> !Has(rows, id)
    {
      var i := 0;
      while i < |rows|
        invariant 0 <= i <= |rows|
        invariant forall k | 0 <= k < i :: rows[k].jobId != id
      {
        if rows[i].jobId == id { return Some(i); }
        i := i + 1;
      }
      return None;
    }

    /** The checks of associate() before it takes the lock: current is the scheduler's answer for the job's
        working directory, usable says that the directory exists there. */
    method CheckDirectory(receipts: seq<Receipt>, id: string, current: string, usable: bool)
      returns (directory: Option<string>, reply: Reply)
      requires Valid(jobs)
      ensures (directory, reply) == CheckSpec(jobs, stale, receipts, id, current, usable)
    {
      var rows := Load(receipts);
      ReceiptsKeepValid(jobs, receipts);
      var found := Find(rows, id);
      if found.None? { return None, UnknownJob; }
      var k := found.value;
      UniqueIndex(rows, id, k);
      if stale { return None, StaleServer; }
      var recorded := rows[k].directory;
      if current != "" && recorded != "" && TrimSlashes(current) != TrimSlashes(recorded) {
        return None, DirectoryMismatch;
      }
      var path := if current != "" then current else recorded;
      if path == "" { return None, NoDirectory; }
      if !usable { return None, DirectoryUnavailable; }
      return Some(Canonical(path)), Ok;
    }

    /** The locked part of associate(), on the record as it is by then. */
    method BindUnderLock(receipts: seq<Receipt>, id: string, project: string, directory: string) returns (reply: Reply)
      requires Valid(jobs)
      modifies this`jobs
      ensures Valid(jobs)
      ensures (jobs, reply) == BindSpec(old(jobs), receipts, id, project, directory)
    {
      var rows := Load(receipts);
      ReceiptsKeepValid(jobs, receipts);
      var found := Find(rows, id);
      if found.None? { return JobVanished; }
      var k := found.value;
      UniqueIndex(rows, id, k);
      var previous := rows[k].association;
      if previous.Some? && previous.value.project != project { return OtherProject; }
      jobs := rows[k := rows[k].(directory := directory, association := Some(Association(project, directory)))];
      return Ok;
    }

    /** What follows the refresh inside associate(); meanwhile is the record that other processes have saved
        by the time the lock is taken, and later the receipts listed then. */
    method Associate(receipts: seq<Receipt>, id: string, project: string, current: string, usable: bool,
                     meanwhile: seq<Record>, later: seq<Receipt>)
      returns (reply: Reply)
      requires Valid(jobs) && Valid(meanwhile)
      modifies this`jobs
      ensures Valid(jobs)
      ensures (jobs, reply) == AssociateSpec(old(jobs), stale, receipts, id, project, current, usable, meanwhile, later)
    {
      var directory, refusal := CheckDirectory(receipts, id, current, usable);
      if directory.None? { return refusal; }
      jobs := meanwhile;
      reply := BindUnderLock(later, id, project, directory.value);
    }
  }

  function IndexOf(jobs: seq<Record>, id: string): (k: nat)
    requires Has(jobs, id)
    ensures k < |jobs| && jobs[k].jobId == id
  {
    if jobs[0].jobId == id then 0 else
      assert Has(jobs[1..], id) by {
        var i :| 0 <= i < |jobs| && jobs[i].jobId == id;
        assert jobs[1..][i - 1].jobId == id;
      }
      1 + IndexOf(jobs[1..], id)
  }

  lemma UniqueIndex(jobs: seq<Record>, id: string, k: nat)
    requires UniqueIds(jobs) && k < |jobs| && jobs[k].jobId == id
    ensures Has(jobs, id) && IndexOf(jobs, id) == k
  {
  }

  function CheckSpec(jobs: seq<Record>, stale: bool, receipts: seq<Receipt>, id: string, current: string, usable: bool):
      (Option<string>, Reply)
  {
    var rows := AddReceipts(jobs, receipts);
    if !Has(rows, id) then (None, UnknownJob)
    else if stale then (None, StaleServer)
    else
      var recorded := rows[IndexOf(rows, id)].directory;
      var directory := if current != "" then current else recorded;
      if current != "" && recorded != "" && TrimSlashes(current) != TrimSlashes(recorded) then (None, DirectoryMismatch)
      else if directory == "" then (None, NoDirectory)
      else if !usable then (None, DirectoryUnavailable)
      else (Some(Canonical(directory)), Ok)
  }

  function BindSpec(jobs: seq<Record>, receipts: seq<Receipt>, id: string, project: string, directory: string):
      (seq<Record>, Reply)
  {
    var rows := AddReceipts(jobs, receipts);
    if !Has(rows, id) then (jobs, JobVanished)
    else
      var k := IndexOf(rows, id);
      if rows[k].association.Some? && rows[k].association.value.project != project then (jobs, OtherProject)
      else (rows[k := rows[k].(directory := directory, association := Some(Association(project, directory)))], Ok)
  }

  function AssociateSpec(jobs: seq<Record>, stale: bool, receipts: seq<Receipt>, id: string, project: string,
                         current: string, usable: bool, meanwhile: seq<Record>, later: seq<Receipt>):
      (seq<Record>, Reply)
  {
    var (directory, refusal) := CheckSpec(jobs, stale, receipts, id, current, usable);
    if directory.None? then (jobs, refusal) else BindSpec(meanwhile, later, id, project, directory.value)
  }
}
