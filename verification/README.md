# Verified model of RSCI's durable local state

RSCI keeps its state in local JSON files that have to stay right over long runs, crashes and repeated
observations of a remote cluster. This project models the parts that carry that burden and proves what they
keep. Each stateful component is a Dafny class with the program's fields. Its methods are proved equal to a
specification function (or relation) of the old state, and the lemmas are about all runs of those
specifications. The modules come in groups: `X` holds the data and the operations, `XRuns` what runs of them keep,
and a third says in the caller's terms, without the code's own steps, what each operation answers, writes and leaves.

- `RemotePaths`, `Workspaces`, `WorkspaceRuns`, `WorkspaceAnswers`: the workspace gateway. Workspaces are opened,
  probed, closed, recovered and cleaned up while users write, uploads finish and mounts die at any moment. A write
  made where nothing is mounted lands in the bare mount directory on the gateway's host.
- `Conversation`, `ConversationRuns`, `ConversationRows`, `ConversationSummary`: the append-only chat log split over
  archived and live rows, with compaction, plan anchors, turns and branches.
- `Locks`, `TurnProtocol`: the file lock as a machine of threads and processes that may die at any step, and the
  turn ownership protocol that runs on it.
- `JobStates`, `JobLedger`, `LedgerRuns`, `LedgerTimes`, `RemoteCenter`, `CenterRuns`, `CenterReports`, `Agreement`:
  the two stores that fold scheduler sightings into job states, and the proof that they agree.
- `Trash`, `TrashRuns`, `TrashAnswers`: remove, restore and purge on the remote file tree, shell command by shell
  command.
- `StampedRows`, `Metrics`, `MetricsRuns`, `MetricsMeaning`, `Usage`, `UsageMeaning`: minute buckets and the GPU
  occupation integral.
- `AgentLoop`, `AgentRuns`, `AgentPrompts`: the agent's tool loop.
- `TerminalHubs`: the table of the most recently used session hubs.
- `Skills`, `SkillAnswers`: the skill file printer and parser, and the store that uses them.
- `Options`, `Checks`, `Strings`, `FiniteSets`: the optional value, calls that refuse at the first failing check, the
  Python string operations and the facts about set sizes that several modules need.

The outside world enters as parameters: what the server answers, whether a mount is there, what the host did
between two polls, which fragments a provider streams, at which look a stop flag is found set. Nothing is assumed
about these answers unless a lemma says so. Clocks are integers (the metrics use reals where the program divides
floats), file saves are atomic updates, and random identifiers are fresh.

## Where the code falls short of its documentation

The model follows the code. Where a promise turned out false, a lemma gives the exact condition under which the
code meets it, or a run in which it fails.

- `recover(retry)` does not repeat the lease check that `open` makes. Leases stay exclusive over a run if and only if
  every remounting retry would have passed it (`ExclusiveRunIffGuarded`). Files stay exclusive if and only if no
  retry mounts onto a path that another mounted writable workspace overlaps (`FilesProtectedIffUnshared`); a run
  that does is `UnguardedRetryMountsTwice`, and `UnsharedButUnguarded` shows that the two conditions differ.
- Cleanup deletes a workspace's whole directory: its write cache, and the mount directory with whatever was saved there
  while nothing was mounted. It deletes an unsynced write if and only if it goes ahead while something is left in one
  of the two, over every run (`RunDropsNothingIff`). A close leaves a cache non-empty exactly when something was
  written after its last read of the queue and not uploaded before the unmount (`CloseLeavesExactly`); a file saved
  under the path of a closed or vanished mount is never uploaded at all. Witnesses are `LateWriteIsLost` and
  `LocalSaveIsLost`; runs without such writes lose nothing (`QuietRunLosesNothing`).
- A `sync_unknown` workspace whose mount is gone is a dead end for everything but `close`, and keeps blocking
  overlapping opens, over every run without that close (`VanishedUnknownIsDeadEnd`).
- `fork` copies a running row without its turn: a run ends coherent if and only if it never forked while the saved
  turn was running (`RunCoherentIff`), and the copied row runs forever (`StrayStaysForever`). The user interface
  takes the execution lock around a fork, so there the input is an orphaned turn: its owner died or left and no
  snapshot has settled it yet.
- The ledger strips ids when it stores rows but not when it infers absence: a padded id is marked missing by the
  very poll that saw it (`UntrimmedSightingSurvivesIff`, `PaddedIdIsMarkedMissing`).
- The ledger upper-cases states before its terminal test and the center does not: absence treats a state alike in
  both if and only if the two tests agree on it (`AbsenceAgreesIffPlainCase`, `LowerCaseDisagrees`).
- The center's `last_known_state` keeps the first state noted: on a later disappearance it is right if and only if
  that state comes again (`DisappearanceIsNamedIff`, `FirstNoteLasts`).
- A submission receipt revives, as UNKNOWN, exactly the jobs that the record lacks (`ReceiptRevivesIffForgotten`).
  Under polls with five hundred newer jobs, an ended job is forgotten by each poll and shown as UNKNOWN by each load
  in between (`ForgottenAndRevivedForever`).
- `associate` stores the directory without trailing slashes, so a scheduler that steadily reports the same path
  with a slash breaks the binding at the next poll (`SteadyDirectoryKeepsBindingIff`).
- A remove cut off between its move and its metadata strands the payload: it is kept but no restore reaches it
  (`CutRemoveStrandsPayload`). A remove can be restored if and only if its last command ran
  (`RemovedIsRestorableIff`).
- A skill name may hold three dashes in a row, and a skill body a carriage return: both are stored, and reading them
  gives something else, a lost description or a translated line break (`FencedNameIsLost`, `ReturnInBodyIsLost`).
  The exact condition for reading back what was written is `WriteThenReadIff`.

One more fact is worth knowing, though nothing promises otherwise: where the lock call blocks without a limit, as on
POSIX systems, taking the plain exclusive lock again while owning it blocks the owner until its process dies
(`ExclusiveSelfDeadlockIffOwner`, `SelfDeadlockIsForever`). On Windows the call gives up after ten tries.

## Model

| member | source | states |
|---|---|---|
| RemotePaths.OverlapIffSharedFile | gateway/huwei-workspace-gateway/huwei_workspace_gateway.py:121-126 | two paths overlap if and only if some file lies inside both |
| Workspaces.WorkspaceGateway.LeaseConflict | gateway/huwei-workspace-gateway/huwei_workspace_gateway.py:460-473 | finds no conflict exactly when no other lease-holding writable entry of the server overlaps, and otherwise names one that does |
| Workspaces.WorkspaceGateway.OpenWorkspace | gateway/huwei-workspace-gateway/huwei_workspace_gateway.py:527-602 | each refusal in its order, and the entry, cache and mount left by success or a failed mount |
| Workspaces.WorkspaceGateway.StatusOf | gateway/huwei-workspace-gateway/huwei_workspace_gateway.py:604-664 | the status a probe leads to; an unreadable queue is never taken for an empty one |
| Workspaces.WorkspaceGateway.Close | gateway/huwei-workspace-gateway/huwei_workspace_gateway.py:669-725 | the polling loop against a host that acts between rounds, the unmount and each refusal |
| Workspaces.WorkspaceGateway.Recover | gateway/huwei-workspace-gateway/huwei_workspace_gateway.py:727-786 | list, keep, discard and retry, with the whole new state of each |
| Workspaces.WorkspaceGateway.Cleanup | gateway/huwei-workspace-gateway/huwei_workspace_gateway.py:788-816 | forgets exactly the closed or abandoned entries that are not mounted, with their caches and bare mount directories |
| WorkspaceRuns.RunKeepsSound | gateway/huwei-workspace-gateway/huwei_workspace_gateway.py:527-816 | over every run: a mounted workspace holds a lease, read-only caches are empty, and each write is in exactly one place: on the server, in one workspace's cache or bare mount directory, discarded or dropped |
| WorkspaceRuns.LeasesProtectFiles | gateway/huwei-workspace-gateway/huwei_workspace_gateway.py:460-473 | exclusive leases mean that no remote file lies inside two mounted writable workspaces |
| WorkspaceRuns.StepKeepsExclusiveIffGuarded | gateway/huwei-workspace-gateway/huwei_workspace_gateway.py:760-786 | from an exclusive state, leases stay exclusive if and only if the step is not a remounting retry that open()'s check would refuse |
| WorkspaceRuns.ExclusiveRunIffGuarded | gateway/huwei-workspace-gateway/huwei_workspace_gateway.py:527-786 | over every run, leases are exclusive throughout if and only if every remounting retry is guarded |
| WorkspaceRuns.GuardedRunProtectsFiles | gateway/huwei-workspace-gateway/huwei_workspace_gateway.py:527-816 | a sufficient condition: in every run whose remounting retries pass the lease check, no remote file is ever inside two mounted writable workspaces |
| WorkspaceRuns.StepProtectsFilesIff | gateway/huwei-workspace-gateway/huwei_workspace_gateway.py:760-786 | from a state in which files are protected, they stay so if and only if the step is no retry onto a path that another mounted writable workspace of the server overlaps |
| WorkspaceRuns.FilesProtectedIffUnshared | gateway/huwei-workspace-gateway/huwei_workspace_gateway.py:527-816 | over every run, no remote file is ever inside two mounted writable workspaces if and only if no retry mounts onto such a path |
| WorkspaceRuns.UnsharedButUnguarded | gateway/huwei-workspace-gateway/huwei_workspace_gateway.py:760-786 | a retry that the lease check would refuse and that shares no file: the other lease has lost its mount |
| WorkspaceRuns.RetryFromSyncPendingIsGuarded | gateway/huwei-workspace-gateway/huwei_workspace_gateway.py:727-786 | a retry from sync_pending needs no recheck, since that status kept its lease |
| WorkspaceRuns.UnguardedRetryMountsTwice | gateway/huwei-workspace-gateway/huwei_workspace_gateway.py:760-786 | a run of five steps from a new gateway whose retry mounts a file writable twice |
| WorkspaceRuns.QuietCloseLeavesCacheEmpty | gateway/huwei-workspace-gateway/huwei_workspace_gateway.py:685-725 | a close that succeeds without late writes leaves an empty cache, and exposes nothing if all saves go to mounted workspaces |
| WorkspaceRuns.StepDropsNothingIff | gateway/huwei-workspace-gateway/huwei_workspace_gateway.py:788-816 | a step deletes an unsynced write if and only if it is a confirmed cleanup and a cache or bare mount directory that it removes is not empty |
| WorkspaceRuns.RunDropsNothingIff | gateway/huwei-workspace-gateway/huwei_workspace_gateway.py:669-816 | over every run, no unsynced write is deleted if and only if each confirmed cleanup finds the caches and bare mount directories it removes empty |
| WorkspaceRuns.CloseLeavesExactly | gateway/huwei-workspace-gateway/huwei_workspace_gateway.py:685-725 | a successful close of a writable workspace leaves unsynced exactly the writes made after its last read, on a mount still there, and not uploaded any more |
| WorkspaceRuns.QuietRunLosesNothing | gateway/huwei-workspace-gateway/huwei_workspace_gateway.py:669-816 | a sufficient condition: over every run without late writes and without saves to an unmounted workspace, cleanup deletes no unsynced write; all are on the server, cached or discarded |
| WorkspaceRuns.OnlyConfirmedDiscardDiscards | gateway/huwei-workspace-gateway/huwei_workspace_gateway.py:741-758 | writes are discarded only by a discard repeating the exact id of an unmounted recoverable workspace, and only that cache |
| WorkspaceRuns.LateWriteIsLost | gateway/huwei-workspace-gateway/huwei_workspace_gateway.py:685-725 | a witness: a write between the empty read and the unmount is deleted by the next cleanup |
| WorkspaceRuns.LocalSaveIsLost | gateway/huwei-workspace-gateway/huwei_workspace_gateway.py:804-816 | a witness: a file saved under a closed workspace's mount path is deleted by the next cleanup |
| WorkspaceRuns.CloseTouchesOne | gateway/huwei-workspace-gateway/huwei_workspace_gateway.py:669-725 | a close restates at most its own entry and mounts nothing |
| WorkspaceRuns.VanishedUnknownOnlyLeavesByClose | gateway/huwei-workspace-gateway/huwei_workspace_gateway.py:604-646 | sync_unknown with a vanished mount stays, lease included, under every step but its own close |
| WorkspaceRuns.VanishedUnknownIsDeadEnd | gateway/huwei-workspace-gateway/huwei_workspace_gateway.py:460-473 | over every run without that close the entry stays as it is, and a writable one refuses every overlapping writable open on its server |
| WorkspaceAnswers.OpenAnswers | gateway/huwei-workspace-gateway/huwei_workspace_gateway.py:527-602 | open() goes through if and only if nine checks pass, and else names the first that does not; the lease check passes if and only if no file would be shared with an entry that may still write |
| WorkspaceAnswers.OpenLeaves | gateway/huwei-workspace-gateway/huwei_workspace_gateway.py:527-602 | the new entry is for the server, path and mode asked for and has nothing unsynced; every refusal but a failed mount leaves no trace |
| WorkspaceAnswers.StatusAnswers | gateway/huwei-workspace-gateway/huwei_workspace_gateway.py:604-664 | a mounted writable workspace is reported unknown if and only if a read failed, pending if and only if both answered and something is cached, open if and only if both answered and nothing is; what a read-only and an unmounted one get |
| WorkspaceAnswers.ReportedOpenIsSynced | gateway/huwei-workspace-gateway/huwei_workspace_gateway.py:604-664 | after every run, a workspace that a probe reports open is mounted and has nothing left to upload, and a mounted read-only one is always open |
| WorkspaceAnswers.CloseAnswers | gateway/huwei-workspace-gateway/huwei_workspace_gateway.py:669-725 | a close succeeds if and only if it reaches the unmount, a command reports success and the mount is gone; it reaches it if and only if some read answered with an empty queue after reads that all answered; the status left by each outcome |
| WorkspaceAnswers.RecoverAnswers | gateway/huwei-workspace-gateway/huwei_workspace_gateway.py:727-786 | each action answers by its checks in order, and what discard, retry and a failed retry leave |
| WorkspaceAnswers.CleanupAnswers | gateway/huwei-workspace-gateway/huwei_workspace_gateway.py:788-816 | only the exact confirmation deletes, and then exactly the closed and abandoned workspaces that are not mounted go |
| Conversation.ConversationStore.BuildSummary | src/rsci/agents/memory.py:284-298 | the summary of the archived rows, its beginning cut with a notice beyond 6000 characters |
| Conversation.ConversationStore.Archive | src/rsci/agents/memory.py:280-303 | moves all but the last rows to the archive, and counts and summarizes them |
| Conversation.ConversationStore.Append | src/rsci/agents/memory.py:141-155 | appends one row to the session, and to no other |
| Conversation.ConversationStore.PatchLastAssistant | src/rsci/agents/memory.py:158-173 | rewrites a trailing reply or adds one |
| Conversation.ConversationStore.Compact | src/rsci/agents/memory.py:266-277 | archives all but 2 to 20 rows and reports how many |
| Conversation.ConversationStore.BeginTurn | src/rsci/agents/memory.py:306-333 | refuses a known request; else interrupts an orphan, adds both rows and makes the turn current |
| Conversation.ConversationStore.UpdateTurn | src/rsci/agents/memory.py:336-353 | changes only the current turn and the last reply of its request |
| Conversation.ConversationStore.Snapshot | src/rsci/agents/memory.py:355-368 | interrupts a running turn exactly when nobody owns the execution lock |
| Conversation.ConversationStore.BindWorkflowPlan | src/rsci/agents/memory.py:192-203 | anchors a valid new plan once; a known plan keeps its anchor |
| Conversation.ConversationStore.CardAnchor | src/rsci/agents/memory.py:206-218 | the anchor: the last row, or the running turn's reply |
| Conversation.ConversationStore.Fork | src/rsci/agents/memory.py:244-263 | the branch: all rows, summary, count and anchors, but no turn |
| ConversationRuns.LogAfterIsLog | src/rsci/agents/memory.py:141-353 | what each operation does to archived ++ live rows, wherever compaction puts the border |
| ConversationRuns.RunGrowsLog | src/rsci/agents/memory.py:141-353 | over every run the log only grows at its end, with roles and request ids unchanged |
| ConversationRuns.AnchorNamesItsRowForever | src/rsci/agents/memory.py:191-218 | a plan's message index names the same row, by role and request, after every run |
| ConversationRuns.RunKeepsSizes | src/rsci/agents/memory.py:280-303 | over every run: compacted count = archived rows, at most 60 live rows, summary at most 6010 characters |
| ConversationRuns.StepCoherentIff | src/rsci/agents/memory.py:244-353 | a step from a coherent session leaves one, except for a fork during a turn, which never does |
| ConversationRuns.RunCoherentIff | src/rsci/agents/memory.py:141-353 | over every run, the session is coherent at the end if and only if the run never forked during a turn |
| ConversationRuns.CoherentMeans | src/rsci/agents/memory.py:306-353 | coherence read out: each request has one user and one reply row, at most one row runs, and it is the current turn's |
| ConversationRuns.StrayStaysForever | src/rsci/agents/memory.py:306-368 | a running row that no turn owns, as such a fork leaves it, is running after every later run |
| ConversationRuns.BindDuringTurnAnchorsReply | src/rsci/agents/memory.py:206-218 | a plan bound during a turn names that turn's reply after every later run |
| ConversationRows.StepRewrites | src/rsci/agents/memory.py:141-368 | for every operation and every row of the log: its content, error and status afterwards, and which operations touch it at all |
| ConversationRows.SavedAnswerHolds | src/rsci/agents/memory.py:336-353 | an accepted update with an answer is what the reply row holds over every later run, until the next update with an answer or patch of that row |
| ConversationRows.StepAdds | src/rsci/agents/memory.py:141-353 | the rows each operation adds, and when a begin or an update is turned away |
| ConversationRows.StepWindow | src/rsci/agents/memory.py:266-303 | how many of the last rows stay in the active window after each operation |
| ConversationRows.BindAnswers | src/rsci/agents/memory.py:192-218 | a plan is bound if and only if its id is sixteen lower-case hexadecimal digits; once, and to the running turn's last reply or else the last row |
| ConversationRows.BranchCopies | src/rsci/agents/memory.py:244-263 | a branch is its source in everything but the turn |
| ConversationSummary.LinesTellRows | src/rsci/agents/memory.py:289-292 | each row moved gives one line, in order: its role, and its words one space apart up to 500 characters |
| ConversationSummary.WordsTell | src/rsci/agents/memory.py:291-291 | those words are the stretches between white space, all of them and in order |
| ConversationSummary.RunSummarizes | src/rsci/agents/memory.py:280-303 | over every run, however it spreads its archiving: the summary is exactly the newest 6000 characters of all that the archiving says, with a notice if there is more |
| ConversationSummary.CleanTextIsAllLines | src/rsci/agents/memory.py:280-303 | if no line ends in a space, that text is one line per archived row, however many archivings it took |
| Locks.StepKeepsConsistent | src/rsci/core/locking.py:24-129 | every step, process deaths included, keeps owner, thread lock depth and recorded paths in accord with the stacked contexts |
| Locks.MutualExclusion | src/rsci/core/locking.py:24-129 | over every run at most one thread is inside a critical section |
| Locks.RecordedOwns | src/rsci/core/locking.py:25-37 | a thread with the path on record owns the OS lock |
| Locks.TryThenExitRestores | src/rsci/core/locking.py:88-129 | trying the lock and leaving restores the state exactly |
| Locks.NestedNeverReleases | src/rsci/core/locking.py:25-37 | entering and leaving a nested context releases nothing |
| Locks.ExclusiveSelfDeadlockIffOwner | src/rsci/core/locking.py:51-84 | entering the plain lock deadlocks the thread on itself if and only if it already owns it |
| Locks.SelfDeadlockIsForever | src/rsci/core/locking.py:51-84 | only the death of its process ends such a deadlock |
| Locks.CrashFreesLock | src/rsci/core/locking.py:51-84 | when the owner's process dies the OS lock is free |
| Locks.FileLock.EnterBlocking | src/rsci/core/locking.py:25-53 | entering: nested at once, or up to the wait for the OS lock |
| Locks.FileLock.GrantOsLock | src/rsci/core/locking.py:54-74 | a waiting thread is granted the OS lock |
| Locks.FileLock.TryEnter | src/rsci/core/locking.py:88-120 | tries both locks once; says whether it owns them |
| Locks.FileLock.Leave | src/rsci/core/locking.py:75-129 | leaving a context gives back exactly what it took |
| TurnProtocol.RunKeepsSafe | src/rsci/agents/memory.py:305-368 | every step of owners, readers, deaths and bystanders keeps the protocol's invariant |
| TurnProtocol.ReachableIsSafe | src/rsci/agents/memory.py:305-368 | over every run from a new session: who began the current turn, and has neither left nor died since, is inside the lock; a reader past the lock means that nobody is |
| TurnProtocol.NobodyInterruptsLiveTurn | src/rsci/agents/memory.py:305-368 | no snapshot or begin_turn of anybody else ever interrupts a live owner's running turn |
| TurnProtocol.SnapshotEndsOrphanedTurn | src/rsci/agents/memory.py:355-368 | once the lock is free, the next snapshot leaves nothing running, its row interrupted, whatever others do between its three steps |
| TurnProtocol.OwnersEndSettlesTurn | src/rsci/agents/memory.py:305-368 | from a live turn: once its owner's process died or the owner left, the next snapshot of another process interrupts it |
| TurnProtocol.BeginEndsOrphanedTurn | src/rsci/agents/memory.py:306-333 | the same for the next begin_turn, which leaves only its own turn running |
| TurnProtocol.SettledStaysSettled | src/rsci/agents/memory.py:306-368 | a row that is not running, an interrupted one among them, is never set running by any later step |
| JobStates.EndedStatesAre | src/rsci/core/jobhistory.py:27-28 | the ten states that end a job |
| JobLedger.Ledger.UpdateEntry | src/rsci/core/jobhistory.py:137-176 | one row folded into an entry, new or known |
| JobLedger.Ledger.MarkMissing | src/rsci/core/jobhistory.py:178-189 | absence turns exactly the live, known states to UNKNOWN |
| JobLedger.Ledger.PruneOld | src/rsci/core/jobhistory.py:190-200 | drops exactly the ended entries last seen before the horizon |
| JobLedger.Ledger.OldestTerminal | src/rsci/core/jobhistory.py:201-206 | an ended entry seen no later than any other, or none if none ended |
| JobLedger.Ledger.EvictOldest | src/rsci/core/jobhistory.py:201-208 | terminates with at most 200 entries or nothing ended left; evicts only ended entries, none newer than an ended one kept |
| JobLedger.Ledger.Observe | src/rsci/core/jobhistory.py:121-212 | the whole call: fold, infer, prune, cap |
| LedgerRuns.LedgerReplaysSightings | src/rsci/core/jobhistory.py:121-189 | over every sequence of calls with trimmed ids, a held job's state is the replay of its sightings |
| LedgerRuns.ReplayInClosedForm | src/rsci/core/jobhistory.py:121-189 | that replay without recursion over calls: the last call that mentioned the job decides, unless it was live and a later call inferred absence |
| LedgerRuns.EndedIffLastRowSaysSo | src/rsci/core/jobhistory.py:121-189 | a held job counts as ended if and only if the last row about it said so: absence never ends a job |
| LedgerRuns.UntrimmedSightingSurvivesIff | src/rsci/core/jobhistory.py:178-189 | a live sighting survives its own inferring call if and only if the id also came without padding |
| LedgerRuns.PaddedIdIsMarkedMissing | src/rsci/core/jobhistory.py:178-189 | a witness: a running job with a space before its id is UNKNOWN after the poll that reported it |
| LedgerRuns.EntriesStayOk | src/rsci/core/jobhistory.py:137-189 | over every life: history ends in the current state and never stutters, and ended jobs have an end time |
| LedgerRuns.EndTimeNeverMoves | src/rsci/core/jobhistory.py:137-189 | through consecutive ended sightings and absences the end time stays |
| LedgerRuns.SmallLedgerLosesNothing | src/rsci/core/jobhistory.py:190-208 | below the cap, and with nothing too old, a call loses no job |
| LedgerRuns.LiveJobsAreNeverLost | src/rsci/core/jobhistory.py:121-208 | over every life, a held job stays held, whatever is pruned and evicted, as long as its sightings do not say that it ended |
| LedgerTimes.RowTells | src/rsci/core/jobhistory.py:132-177 | one row, field by field: state, first and last seen, start, end, note and history of the job it names, and no other job |
| LedgerTimes.VanishingTells | src/rsci/core/jobhistory.py:178-189 | a job marked missing keeps its times, loses its end time and has its state noted |
| LedgerTimes.LastSeenIsLastSighting | src/rsci/core/jobhistory.py:121-189 | over every life, padded ids included: a held job was last seen at the clock of the last call that mentioned it |
| LedgerTimes.FirstTimesStay | src/rsci/core/jobhistory.py:121-189 | while a job is held its first sight and its start time never move, and its history only grows at its end |
| LedgerTimes.EntersWithPoll | src/rsci/core/jobhistory.py:132-171 | a job that a call brings in was first seen then, and starts when the first row with a start time says |
| LedgerTimes.AgeOrCapRemoves | src/rsci/core/jobhistory.py:190-208 | ended jobs last seen before the horizon go; whatever else goes had ended and went to make room, before every ended job kept that was seen later |
| LedgerTimes.NamedIsNeverPruned | src/rsci/core/jobhistory.py:190-200 | a call whose horizon is not in its future never prunes a job that it names |
| LedgerTimes.EndedIsRecent | src/rsci/core/jobhistory.py:190-200 | over every life, an ended job still held was mentioned no earlier than the latest horizon |
| LedgerTimes.CapHolds | src/rsci/core/jobhistory.py:201-208 | after every call at most 200 jobs are held, or none of those held has ended |
| RemoteCenter.Center.Load | src/rsci/hpc/center.py:74-99 | the saved rows and one row for every receipt they lack |
| RemoteCenter.Center.RecordSubmission | src/rsci/hpc/center.py:113-125 | adds a receipt's job unless it is known; a changed identity changes nothing |
| RemoteCenter.Center.MergeRow | src/rsci/hpc/center.py:164-174 | one sighting over a record; the binding goes if and only if directory or start time changed |
| RemoteCenter.Center.MarkAbsent | src/rsci/hpc/center.py:175-181 | unseen records: live states become UNKNOWN, ended ones stay |
| RemoteCenter.Center.Retain | src/rsci/hpc/center.py:182-184 | newest first: every bound record, unbound ones only among the first 500, and none dropped that is newer than those |
| RemoteCenter.Center.Refresh | src/rsci/hpc/center.py:127-188 | failed poll, changed identity and answered poll, each with its new record |
| RemoteCenter.Center.CheckDirectory | src/rsci/hpc/center.py:212-235 | before the lock: the directory to bind, or the refusal |
| RemoteCenter.Center.BindUnderLock | src/rsci/hpc/center.py:249-258 | under the lock, on the record as it is by then: binds, or refuses another project and changes nothing |
| RemoteCenter.Center.Associate | src/rsci/hpc/center.py:237-263 | the two in turn, with whatever other processes saved in between |
| CenterRuns.ReachableIsValid | src/rsci/hpc/center.py:113-187 | every reachable record has unique ids, and each binding's directory is its row's |
| CenterRuns.StepKeepsBindingIff | src/rsci/hpc/center.py:163-184 | a binding survives a step if and only if the step is no poll reporting another directory or start time |
| CenterRuns.BindingLasts | src/rsci/hpc/center.py:113-263 | over every trace without such a report the binding lasts |
| CenterRuns.SteadyDirectoryKeepsBindingIff | src/rsci/hpc/center.py:220-258 | a fresh binding survives a poll with the same text if and only if the text has no trailing slash to strip, also when the start time is repeated |
| CenterRuns.DisappearanceIsNamedIff | src/rsci/hpc/center.py:175-181 | in any trace, when a live job vanishes the note names its state if and only if no other was noted before |
| CenterRuns.FirstNoteLasts | src/rsci/hpc/center.py:163-181 | over every trace the first note stays as long as the record is held |
| CenterRuns.ReceiptRevivesIffForgotten | src/rsci/hpc/center.py:85-96 | in any trace, a load shows a saved row as it is, and a missing job if and only if a receipt is listed, then UNKNOWN and unbound |
| CenterRuns.ForgottenAndRevivedForever | src/rsci/hpc/center.py:127-187 | over any trace of polls with 500 other jobs: an unbound job older than the first is gone after each poll and back, as UNKNOWN, in each load |
| CenterReports.PollReports | src/rsci/hpc/center.py:152-181 | after an answered poll each record kept says what the last row about the job and its earlier record say: state, directory, start time, times, note, marks and binding; without a row it is the earlier record, marked |
| CenterReports.PollDrops | src/rsci/hpc/center.py:182-184 | a poll drops only unbound records, and only for 500 that were seen no earlier; beyond those everything kept is bound |
| CenterReports.ReceiptReports | src/rsci/hpc/center.py:85-111 | a load shows a job that the record lacks as its first receipt tells it |
| CenterReports.DirectoryAnswers | src/rsci/hpc/center.py:212-235 | the checks in order, and the directory to bind: the scheduler's or else the recorded one, without the slashes it ends in |
| CenterReports.BindAnswers | src/rsci/hpc/center.py:249-258 | a binding is refused if and only if the job is gone or bound elsewhere; else one record changes, in directory and binding only |
| CenterReports.AssociateAnswers | src/rsci/hpc/center.py:237-263 | it succeeds if and only if the directory passed and the record as saved meanwhile accepts the binding, which is made on that record |
| CenterReports.TimesOverTrace | src/rsci/hpc/center.py:113-263 | over every trace, while a record is held: its first sight stays, and it was last seen by the last poll with a row about it |
| Agreement.PollKeepsAgreement | src/rsci/hpc/center.py:152-181 | one clean poll takes agreeing stores to agreeing stores |
| Agreement.StoresAgree | src/rsci/core/jobhistory.py:132-189 | fed the same clean polls without pruning or receipts, ledger and center always map the same ids to the same states |
| Agreement.AbsenceAgreesIffPlainCase | src/rsci/hpc/center.py:175-181 | absence leaves the stores agreeing if and only if both terminal tests agree on the state |
| Agreement.LowerCaseDisagrees | src/rsci/hpc/center.py:175-181 | a witness: a job reported as lower-case completed stays ended in the ledger and turns UNKNOWN in the center |
| Trash.Gateway.Remove | artifacts/cl9-verification-20261029-211140/gateway-before-submission-diagnostics.py:1281-1310 | the refusals, and the tree after each prefix of the three shell commands |
| Trash.Gateway.TrashList | artifacts/cl9-verification-20261029-211140/gateway-before-submission-diagnostics.py:1313-1335 | lists exactly the entries whose metadata still names them |
| Trash.Gateway.Restore | artifacts/cl9-verification-20261029-211140/gateway-before-submission-diagnostics.py:1338-1377 | the refusals, and the tree after each prefix of the two shell commands |
| Trash.Gateway.Purge | artifacts/cl9-verification-20261029-211140/gateway-before-submission-diagnostics.py:1380-1396 | removes one entry, and only if its id is given twice |
| TrashRuns.RunConserves | artifacts/cl9-verification-20261029-211140/gateway-before-submission-diagnostics.py:1281-1396 | over every run, cut-offs included: what is stored at the end and what purges destroyed is what was stored at the start and what was created |
| TrashRuns.RestoreConserves | artifacts/cl9-verification-20261029-211140/gateway-before-submission-diagnostics.py:1356-1377 | a restore loses no file and overwrites none |
| TrashRuns.PurgeTakesPayload | artifacts/cl9-verification-20261029-211140/gateway-before-submission-diagnostics.py:1380-1396 | a purge destroys exactly the payload, which is nothing once restored |
| TrashRuns.RemoveThenRestoreIsIdentity | artifacts/cl9-verification-20261029-211140/gateway-before-submission-diagnostics.py:1281-1377 | remove then restore succeeds and is the identity outside the trash |
| TrashRuns.RestoreGivesBackWhatWasRemoved | artifacts/cl9-verification-20261029-211140/gateway-before-submission-diagnostics.py:1281-1377 | with any unrelated run in between, a restore puts back exactly the tree removed and touches nothing else |
| TrashRuns.RestoreSucceedsIff | artifacts/cl9-verification-20261029-211140/gateway-before-submission-diagnostics.py:1313-1377 | after every run without a half-done restore of this entry, a restore succeeds exactly if the entry is listed, its path is free and its parent directory is there |
| TrashRuns.RestoreSucceedsAtMostOnce | artifacts/cl9-verification-20261029-211140/gateway-before-submission-diagnostics.py:1338-1377 | after a successful restore no later one of that entry succeeds, in any run |
| TrashRuns.UnrestorableForever | artifacts/cl9-verification-20261029-211140/gateway-before-submission-diagnostics.py:1338-1377 | an entry gone, restored or without metadata can never be restored |
| TrashRuns.RemovedIsRestorableIff | artifacts/cl9-verification-20261029-211140/gateway-before-submission-diagnostics.py:1281-1377 | a remove cut off anywhere can be restored if and only if all three of its commands ran |
| TrashRuns.CutRemoveStrandsPayload | artifacts/cl9-verification-20261029-211140/gateway-before-submission-diagnostics.py:1297-1306 | a remove cut off before its metadata keeps the files where no restore reaches them |
| TrashAnswers.RemoveAnswers | artifacts/cl9-verification-20261029-211140/gateway-before-submission-diagnostics.py:1281-1310 | the checks in order, and what the commands that ran leave in the entry and the tree |
| TrashAnswers.RestoreAnswers | artifacts/cl9-verification-20261029-211140/gateway-before-submission-diagnostics.py:1338-1377 | the checks in order, and that only the move changes anything |
| TrashAnswers.PurgeAnswers | artifacts/cl9-verification-20261029-211140/gateway-before-submission-diagnostics.py:1380-1396 | the checks in order; only the entry named twice goes |
| Metrics.MetricsStore.Widen | src/rsci/core/metricsstore.py:113-144 | one sample widens the spans of its channels, GPU rows without an index skipped |
| Metrics.MetricsStore.AppendSample | src/rsci/core/metricsstore.py:95-110 | folds a sample into the first bucket of its minute, or a new one, and ages rows out |
| Metrics.MetricsStore.MergeHistTsv | src/rsci/core/metricsstore.py:147-189 | adds the lines of unknown minutes, sorts, ages out, and counts lines added and duplicate |
| MetricsRuns.MinuteSpansItsSamples | src/rsci/core/metricsstore.py:95-144 | over every run in which a minute does not age out, each channel of its bucket is the exact extent of the values it held, of the file that opened it, if one did, and of all live values |
| MetricsRuns.ArrivalOrderDoesNotMatter | src/rsci/core/metricsstore.py:95-144 | two runs that say the same values about a minute leave the same readings, in whatever order they came |
| MetricsRuns.MergeFillsGaps | src/rsci/core/metricsstore.py:147-189 | a merge leaves known minutes untouched and fills an unknown one with what its lines say last |
| MetricsRuns.MergeAgain | src/rsci/core/metricsstore.py:147-189 | merging a text twice at a fixed clock is merging it once; later, it only ages rows out |
| MetricsRuns.RunKeepsUnique | src/rsci/core/metricsstore.py:95-189 | minute stamps stay unique over all appends and merges |
| MetricsMeaning.MinuteTells | src/rsci/core/metricsstore.py:100-101 | a time belongs to the whole minute that began last |
| MetricsMeaning.FirstSampleReads | src/rsci/core/metricsstore.py:113-144 | a first sample is both bounds of what it says, GPU memory in megabytes |
| MetricsMeaning.SampleTells | src/rsci/core/metricsstore.py:89-110 | a sample widens its own minute, ages out minutes older than ninety days and touches no other |
| MetricsMeaning.MergeTells | src/rsci/core/metricsstore.py:89-189 | a merge without an unknown minute changes nothing; else it fills the unknown ones and ages out the old |
| MetricsMeaning.CountsAreExact | src/rsci/core/metricsstore.py:147-189 | the counts returned are those of the well-formed lines in unknown and in known minutes |
| Usage.UsageStore.UsageSummary | src/rsci/core/metricsstore.py:279-304 | each billed user's total over the user's GPU streams, each sorted and integrated on its own |
| Usage.KeysNameStreamsOnce | src/rsci/core/metricsstore.py:289-292 | every stream is counted, and none twice |
| Usage.SecondsWithinWindow | src/rsci/core/metricsstore.py:294-304 | the counted time never exceeds last minus first |
| Usage.OneMoreSnapshot | src/rsci/core/metricsstore.py:294-304 | one more snapshot never lowers the counted time, and leaves it as it was if and only if its time was enclosed by two others at most 120 s apart, or is further than that from all |
| Usage.GbHoursBound | src/rsci/core/metricsstore.py:301-304 | GB-hours are at most the largest memory times the counted time |
| Usage.OnTheLineAddsNothing | src/rsci/core/metricsstore.py:301-304 | inside a counted gap a snapshot leaves the GB-hours alone if and only if it lies on the line between its neighbours |
| UsageMeaning.StreamHoldsExactly | src/rsci/core/metricsstore.py:283-291 | a user's GPU stream holds exactly the snapshots in the window, not excluded, of that user and GPU, each as often as the file |
| UsageMeaning.BilledUsersAre | src/rsci/core/metricsstore.py:283-295 | a user is in the summary if and only if such a snapshot exists |
| UsageMeaning.SelectionsKeepOrder | src/rsci/core/metricsstore.py:286-291 | both selections go through the file in its order |
| UsageMeaning.DaysTell | src/rsci/core/metricsstore.py:282-282 | the window: 30 days for none, otherwise between 1 and 90 |
| UsageMeaning.TwoSnapshotsCount | src/rsci/core/metricsstore.py:297-304 | two neighbouring snapshots count for the time between them if it is at most two minutes |
| UsageMeaning.ConstantMemory | src/rsci/core/metricsstore.py:301-306 | a constant amount of memory is worth its gigabytes times the counted hours |
| UsageMeaning.TotalsAddUp | src/rsci/core/metricsstore.py:293-306 | a user's total is the sum over the user's GPUs, of time and GB-hours alike |
| UsageMeaning.FileOrderDoesNotMatter | src/rsci/core/metricsstore.py:286-307 | the order of the file makes no difference to a stream whose snapshots of one second agree |
| AgentLoop.AgentRuntime.FilteredHistory | src/rsci/agents/runtime.py:89-97 | keeps user and assistant rows, in order |
| AgentLoop.AgentRuntime.ProviderChat | src/rsci/agents/runtime.py:153-183 | the prompt given, the looks at the stop flag, and the text released, only for a turn without calls and as far as the stream callback takes it |
| AgentLoop.AgentRuntime.CallTools | src/rsci/agents/runtime.py:213-258 | the calls of a turn in order, up to a stop or a call that needs the user |
| AgentLoop.AgentRuntime.Run | src/rsci/agents/runtime.py:186-274 | the loop, with all it showed the provider, the registry, the stream and the host |
| AgentRuns.EveryPromptIsPaired | src/rsci/agents/runtime.py:186-258 | in every run each prompt starts with the system message, and each group of calls is followed by exactly its replies, same ids, same order |
| AgentRuns.PromptsReplayTurns | src/rsci/agents/runtime.py:153-258 | the k-th prompt is the opening and the first k turns in full; the submission context extends only its head |
| AgentRuns.CallsStayWithinLimit | src/rsci/agents/runtime.py:127-210 | never more provider calls than the limit, which ends a run only when used up |
| AgentRuns.NothingAfterHandOff | src/rsci/agents/runtime.py:213-258 | calls are dispatched once each in the model's order; one that needs the user is the last and ends the run |
| AgentRuns.StreamShowsOnlyTheAnswer | src/rsci/agents/runtime.py:153-183 | the stream sees only fragments of a turn without calls: a prefix if the callback itself raises, else all of them |
| AgentRuns.StopEndsTheRun | src/rsci/agents/runtime.py:195-216 | after the stop flag is set, nothing is asked or dispatched |
| AgentRuns.ResultMatchesWork | src/rsci/agents/runtime.py:225-274 | the result's trace is, row by row, the calls dispatched; one closing event carries the same result |
| AgentRuns.FirstOtherReplyDecides | src/rsci/agents/runtime.py:186-274 | left alone, a run ends at, and as told by, the first reply that is not calls needing nobody |
| AgentPrompts.PromptTells | src/rsci/agents/runtime.py:153-258 | every prompt of every run, message by message: system text and this turn's context, history, goal, and each earlier turn with its calls in full and, per call, the first 20000 characters of what the tool gave |
| AgentPrompts.HistoryRowTells | src/rsci/agents/runtime.py:89-97 | what one row of the history gives |
| AgentPrompts.HistoryConcat | src/rsci/agents/runtime.py:89-97 | a history gives what its parts give, in order |
| AgentPrompts.EndingTells | src/rsci/agents/runtime.py:246-274 | a hand-off answers in the words of its call or says that it waits; a run that answers was not found stopped at any look |
| AgentPrompts.EventsTellTheRun | src/rsci/agents/runtime.py:186-274 | in every run the host is told each turn as it begins and each dispatched call at its start and its end, in the order of the trace |
| AgentPrompts.LimitTells | src/rsci/agents/runtime.py:126-129 | only a positive limit counts |
| TerminalHubs.HubTable.HubFor | src/rsci/core/terminals.py:42-55 | the session's hub and the new table; a hub not in the table is new and empty |
| TerminalHubs.TerminalHub.Set | src/rsci/core/terminals.py:30-33 | remembers an absolute path for one key; anything else changes nothing |
| TerminalHubs.TableHoldsMostRecent | src/rsci/core/terminals.py:39-55 | after every history the table holds exactly the 64 most recently used sessions in order of last use |
| TerminalHubs.SameHubIffFewOthers | src/rsci/core/terminals.py:42-55 | a session gets its earlier hub back if and only if fewer than 64 others asked in between |
| Skills.ParseSkillMd | src/rsci/agents/skills.py:36-48 | the metadata between the first two fences, and the body |
| Skills.ParsedValuesAreClean | src/rsci/agents/skills.py:36-48 | whatever the text, each value parsed is trimmed, on one line and without a fence |
| Skills.ParseUndoesRender | src/rsci/agents/skills.py:36-53 | parsing undoes printing if and only if name and description are trimmed lines without a fence and the body is not blank |
| Skills.RenderAgainIsTheSame | src/rsci/agents/skills.py:36-53 | printing what was read from a printed file gives the same file |
| Skills.SkillStore.Write | src/rsci/agents/skills.py:113-132 | the refusals in order, and the one file written |
| Skills.SkillStore.Read | src/rsci/agents/skills.py:99-111 | an own skill before a built-in one, its line breaks translated and then parsed |
| Skills.WriteThenReadIff | src/rsci/agents/skills.py:99-131 | reading gives back what was just written if and only if the name has no fence, the kept description is a trimmed line without one, and the body is not blank and holds no carriage return between its ends |
| Skills.FencedNameIsLost | src/rsci/agents/skills.py:99-126 | a witness: a stored skill named a---b is not read back |
| Skills.ReturnInBodyIsLost | src/rsci/agents/skills.py:99-131 | a witness: a stored body with a carriage return is not read back |
| SkillAnswers.WriteAnswers | src/rsci/agents/skills.py:113-132 | the checks in order, and what is kept of the description |
| SkillAnswers.ReadAnswers | src/rsci/agents/skills.py:99-111 | when a read is refused, and that an own skill hides a built-in one |
| SkillAnswers.LinesTell | src/rsci/agents/skills.py:43-43 | the metadata's lines: a text without a break is one, and one with a break is the line before it and the lines after it |
| SkillAnswers.LastLineSets | src/rsci/agents/skills.py:36-48 | a metadata key, in lower case, has what the last line that sets it says |

## Left out

- SSH, rclone, FUSE, HTTP and subprocess calls: only their answers appear, as parameters.
- `WorkspaceGateway`: the gateway dying between starting a mount and saving its state, and a mount that appears after the 45 s wait, are not modelled; the trailing `status()` of `open` and `recover` is a separate step; `doctor`, ports, log files and the generated editor workspace are not part of this model.
- `WorkspaceGateway`: leases compare server names, so two names registered for one host are not protected from each other; the upload queue is taken to list every unsynced write, files still open in the mount included; a directory removal that fails half way through a cleanup or discard is not modelled.
- Workspaces.WorkspaceGateway.LeaseConflict: which of several conflicting leases is reported follows dictionary order in the program and is left open here.
- `ConversationStore`: times, titles, projects, turn stage, tool list and provider, markdown export, and `clear`/`delete` are not modelled; neither is atomic file replacement.
- `locking.py`: the sentinel file's own input and output is not modelled; a blocking lock call waits without limit, as on POSIX systems, while the Windows call raises an error after ten tries.
- `JobLedger`: display fields (name, partition, elapsed, workdir, source, `_view`) and the repairs `remember_workdirs`, `remember_timing` and `bind_directory` are not modelled; the timing repair acts only on entries with `assumed_end`, which no operation creates any more.
- JobLedger.Ledger.OldestTerminal: ties among the oldest entries are broken by dictionary order in the program and freely here.
- JobStates: `upper()` is modelled on ASCII letters, as scheduler states are.
- `RemoteCenter`: receipts that fail validation and so stop `_load` early, the read-only marker of array ids, warnings, `overview` and evidence collection are not modelled.
- RemoteCenter.Center.Associate: the reads that precede the lock (job, staleness, directory) are one step here, while other processes may save between them in the program.
- Trash: the trash area is a compartment of its own, so copying or moving into it by other operations is not modelled; paths are resolved paths, symbolic links and unreadable metadata are not modelled, and identifiers are fresh.
- `MetricsStore`: splitting and number parsing of collector lines, infinities and NaN, rounding for display, the heat map and `merge_usage_tsv` are not modelled.
- `AgentRuntime`: a run whose provider never answers again is cut at the last prompt (`Waiting`), so a run is any finite prefix of the program's; the single-turn `chat`, audit records, the payload sizes of events and exceptions from the event callback are not modelled.
- AgentLoop.AgentRuntime.Run: the registry is the sequence of outcomes it gives, so which tools a mode allows is not modelled.
- `TerminalHub`: `strip_marker` is not modelled.
- `Skills`: `lower()` on metadata keys is modelled on ASCII letters; listing, deleting, scripts and file times are not modelled.
- The approval engine, the plan store, provider adapters and the tool registry are not part of this model.
