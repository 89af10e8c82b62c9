/** What each call to the gateway answers and leaves behind. */
module WorkspaceAnswers {
  import opened Checks
  import opened Options
  import opened RemotePaths
  import opened Workspaces
  import opened WorkspaceRuns

  function Refusal(reply: Reply): Option<ErrorCode> {
    if reply.Ok? then None else Some(reply.code)
  }

  /** Nothing but one entry's status differs. */
  ghost predicate OnlyRestates(w: World, w': World, wid: Wid, status: Status) {
    && wid in w.workspaces
    && w' == w.(workspaces := w.workspaces[wid := w.workspaces[wid].(status := status)])
  }

  // ---------------------------------------------------------------- open

  /** No entry of this server that is writable and may still write shares a file with the path. */
  ghost predicate SharesNoFile(w: World, server: string, path: Path) {
    forall wid <- w.workspaces, file: Path
      | && w.workspaces[wid].server == server && w.workspaces[wid].mode == ReadWrite
        && w.workspaces[wid].status in {Open, Recovering, SyncPending, SyncUnknown} ::
      !(Inside(file, path) && Inside(file, w.workspaces[wid].path))
  }

  lemma LeaseFreeIffSharesNoFile(w: World, server: string, path: Path)
    requires "" !in w.workspaces
    ensures LeaseFree(w.workspaces, server, path, "") <==> SharesNoFile(w, server, path)
  {
    forall wid <- w.workspaces
      ensures Overlap(path, w.workspaces[wid].path)
              <==> exists file: Path :: Inside(file, path) && Inside(file, w.workspaces[wid].path)
    {
      OverlapIffSharedFile(path, w.workspaces[wid].path);
    }
  }

  /** What open() checks, in its order. */
  ghost function OpenChecks(w: World, server: string, path: Path, mode: string, env: OpenEnv): seq<Check<ErrorCode>> {
    [Check(mode == "full" || mode == "read-only", InvalidMode),
     Check(env.pathOk, PathRejected),
     Check(env.readable, ReadDenied),
     Check(mode == "full" ==> env.writable, WriteDenied),
     Check(env.capable, Unsupported),
     Check(env.keyReady, KeyNotReady),
     Check(mode == "full" ==> SharesNoFile(w, server, path), WriteLeaseConflict),
     Check(mode == "full" ==> env.spaceOk, SpaceBlocked),
     Check(env.mountOk, MountFailed)]
  }

  /** open() answers by its checks. */
  lemma OpenAnswers(w: World, wid: Wid, server: string, path: Path, mode: string, env: OpenEnv)
    requires "" !in w.workspaces
    ensures AnswersTo(OpenChecks(w, server, path, mode, env), Refusal(OpenSpec(w, wid, server, path, mode, env).1))
  {
    LeaseFreeIffSharesNoFile(w, server, path);
    var c := OpenChecks(w, server, path, mode, env);
    var k := FirstFailing(c);
    assert c == [c[0], c[1], c[2], c[3], c[4], c[5], c[6], c[7], c[8]];
  }

  /** The new entry is for what was asked, writable if and only if "full" was, and starts with nothing unsynced;
      every refusal but a failed mount leaves no trace. */
  lemma OpenLeaves(w: World, wid: Wid, server: string, path: Path, mode: string, env: OpenEnv)
    ensures var (w', reply) := OpenSpec(w, wid, server, path, mode, env);
            if reply.Err? && reply.code != MountFailed then w' == w
            else
              && wid in w'.workspaces && w'.workspaces == w.workspaces[wid := w'.workspaces[wid]]
              && w'.workspaces[wid].server == server && w'.workspaces[wid].path == path
              && (w'.workspaces[wid].mode == ReadWrite <==> mode == "full")
              && w'.workspaces[wid].status == (if reply.Ok? then Open else NeedsRecovery)
              && w'.mounted == (if reply.Ok? then w.mounted + {wid} else w.mounted)
              && HeldOf(w', wid) == {} && (forall v <- w.workspaces | v != wid :: HeldOf(w', v) == HeldOf(w, v))
              && Settled(w') == Settled(w)
  {
  }

  // ---------------------------------------------------------------- status

  /** What a probe makes of an entry. Of a mounted writable one: unknown if and only if one of its two reads
      failed, pending if both answered and something is cached, open if both answered and nothing is. A read-only
      one is never unknown. Without its mount an entry that counted on one needs recovery, any other stays. */
  lemma StatusAnswers(w: World, wid: Wid, probe: Probe)
    requires wid in w.workspaces
    ensures var (w', reply) := StatusSpec(w, wid, probe);
            var before, s := w.workspaces[wid].status, w'.workspaces[wid].status;
            var cached := CacheOf(w, wid) != {};
            && reply == Ok && OnlyRestates(w, w', wid, s)
            && (wid in w.mounted && w.workspaces[wid].mode == ReadWrite ==>
                  && (s == SyncUnknown <==> !probe.statsUp || !probe.queueUp)
                  && (s == SyncPending <==> probe.statsUp && probe.queueUp && cached)
                  && (s == Open <==> probe.statsUp && probe.queueUp && !cached))
            && (wid in w.mounted && w.workspaces[wid].mode == ReadOnly ==>
                  && (s == SyncPending <==> probe.queueUp && cached)
                  && (s == Open <==> !probe.queueUp || !cached))
            && (wid !in w.mounted ==>
                  s == if before == Open || before == Recovering || before == SyncPending then NeedsRecovery
                       else before)
  {
  }

  /** After any run: a workspace that a probe reports open is mounted and has nothing left to upload, one
      reported unknown is writable or was unknown when its mount went, and a read-only one whose mount is there is
      always open. */
  lemma ReportedOpenIsSynced(w: World, steps: seq<Step>, wid: Wid, probe: Probe)
    requires Sound(w) && EnabledRun(w, steps) && wid in After(w, steps).workspaces
    ensures var w1 := After(w, steps);
            var s := StatusSpec(w1, wid, probe).0.workspaces[wid].status;
            && (s == Open ==> wid in w1.mounted && CacheOf(w1, wid) == {})
            && (s == SyncUnknown ==>
                  w1.workspaces[wid].mode == ReadWrite || w1.workspaces[wid].status == SyncUnknown)
            && (wid in w1.mounted && w1.workspaces[wid].mode == ReadOnly ==> s == Open)
  {
    RunKeepsSound(w, steps);
    StatusAnswers(After(w, steps), wid, probe);
  }

  // ---------------------------------------------------------------- close

  /** The world after some rounds of close()'s loop. */
  function AfterRounds(w: World, rounds: seq<Round>): World
    decreases |rounds|
  {
    if rounds == [] then w else AfterRounds(HappenAll(w, rounds[0].events), rounds[1..])
  }

  /** What the k-th read of the queue finds. */
  function ReadAt(w: World, wid: Wid, rounds: seq<Round>, k: nat): set<Write>
    requires k < |rounds|
  {
    CacheOf(AfterRounds(w, rounds[..k + 1]), wid)
  }

  lemma {:induction false} ReadAfterFirst(w: World, wid: Wid, rounds: seq<Round>)
    requires rounds != []
    ensures AfterRounds(w, rounds[..1]) == HappenAll(w, rounds[0].events)
    ensures forall k | 0 <= k < |rounds| - 1 ::
              ReadAt(w, wid, rounds, k + 1) == ReadAt(HappenAll(w, rounds[0].events), wid, rounds[1..], k)
  {
    assert rounds[..1][1..] == [] && rounds[..1][0] == rounds[0];
    forall k | 0 <= k < |rounds| - 1
      ensures ReadAt(w, wid, rounds, k + 1) == ReadAt(HappenAll(w, rounds[0].events), wid, rounds[1..], k)
    {
      assert rounds[..k + 2][1..] == rounds[1..][..k + 1] && rounds[..k + 2][0] == rounds[0];
    }
  }

  /** The loop stops at a read that fails or finds the queue empty, or at the deadline, the last round. */
  ghost predicate StopsAt(w: World, wid: Wid, rounds: seq<Round>, k: nat, d: Drain) {
    && k < |rounds| && d.after == AfterRounds(w, rounds[..k + 1])
    && (forall i | 0 <= i < k :: rounds[i].rcUp && ReadAt(w, wid, rounds, i) != {})
    && (d.Unreadable? <==> !rounds[k].rcUp)
    && (d.Drained? <==> rounds[k].rcUp && ReadAt(w, wid, rounds, k) == {})
    && (d.Pending? ==> k == |rounds| - 1)
  }

  lemma {:induction false} LoopStops(w: World, wid: Wid, rounds: seq<Round>) returns (k: nat)
    requires rounds != []
    ensures StopsAt(w, wid, rounds, k, DrainQueue(w, wid, rounds))
    decreases |rounds|
  {
    var w1 := HappenAll(w, rounds[0].events);
    ReadAfterFirst(w, wid, rounds);
    if rounds[0].rcUp && CacheOf(w1, wid) != {} && |rounds| > 1 {
      var j := LoopStops(w1, wid, rounds[1..]);
      k := j + 1;
      LoopStopsLater(w, wid, rounds, j);
    } else {
      k := 0;
      assert ReadAt(w, wid, rounds, 0) == CacheOf(w1, wid);
    }
  }

  lemma LoopStopsLater(w: World, wid: Wid, rounds: seq<Round>, j: nat)
    requires |rounds| > 1 && rounds[0].rcUp && CacheOf(HappenAll(w, rounds[0].events), wid) != {}
    requires StopsAt(HappenAll(w, rounds[0].events), wid, rounds[1..], j,
                     DrainQueue(HappenAll(w, rounds[0].events), wid, rounds[1..]))
    ensures StopsAt(w, wid, rounds, j + 1, DrainQueue(w, wid, rounds))
  {
    ReadAfterFirst(w, wid, rounds);
    assert ReadAt(w, wid, rounds, 0) == CacheOf(HappenAll(w, rounds[0].events), wid);
    assert rounds[..j + 2][1..] == rounds[1..][..j + 1] && rounds[..j + 2][0] == rounds[0];
    forall i | 0 <= i < j + 1 ensures rounds[i].rcUp && ReadAt(w, wid, rounds, i) != {} {
      if i > 0 {
        assert rounds[i] == rounds[1..][i - 1];
        assert ReadAt(w, wid, rounds, i - 1 + 1) == ReadAt(HappenAll(w, rounds[0].events), wid, rounds[1..], i - 1);
      }
    }
    assert ReadAt(w, wid, rounds, j + 1) == ReadAt(HappenAll(w, rounds[0].events), wid, rounds[1..], j);
  }

  /** A close whose workspace is known and mounted gets as far as the unmount if and only if the workspace is
      read-only, or some read of the queue answered with nothing after reads that all answered with something. */
  ghost predicate FindsEmpty(w: World, wid: Wid, plan: ClosePlan, k: nat) {
    && k < |plan.rounds| && plan.rounds[k].rcUp && ReadAt(w, wid, plan.rounds, k) == {}
    && forall i | 0 <= i < k :: plan.rounds[i].rcUp && ReadAt(w, wid, plan.rounds, i) != {}
  }

  /** The world in which the unmount commands run. */
  ghost predicate Unmounts(w: World, wid: Wid, plan: ClosePlan, w1: World) {
    && wid in w.workspaces && wid in w.mounted
    && if w.workspaces[wid].mode == ReadOnly then w1 == HappenAll(w, plan.late)
       else exists k: nat :: FindsEmpty(w, wid, plan, k)
                             && w1 == HappenAll(AfterRounds(w, plan.rounds[..k + 1]), plan.late)
  }

  /** close() succeeds if and only if it gets as far as the unmount, a command reports success and the mount is
      gone. Only then is the entry closed; an unmount that failed or a queue that never emptied leaves it
      sync_pending, an unreadable queue leaves it as it was. */
  lemma CloseAnswers(w: World, wid: Wid, plan: ClosePlan)
    requires plan.rounds != []
    ensures var (w', reply) := CloseSpec(w, wid, plan);
            && (reply == Err(WorkspaceNotFound) <==> wid !in w.workspaces)
            && (reply == Err(RecoveryRequired) <==> wid in w.workspaces && wid !in w.mounted)
            && (reply.Ok? <==> plan.unmountOk
                               && exists w1 :: Unmounts(w, wid, plan, w1) && (plan.gone || wid !in w1.mounted))
            && (reply == Err(UnmountFailed) ==> exists w1 :: Unmounts(w, wid, plan, w1))
            && (wid in w.workspaces ==>
                  && wid in w'.workspaces
                  && w'.workspaces[wid].status ==
                     if reply.Ok? then Closed
                     else if reply == Err(UnmountFailed) || reply == Err(StillSyncing) then SyncPending
                     else if reply == Err(RecoveryRequired) && w.workspaces[wid].status !in {Closed, Abandoned}
                     then NeedsRecovery
                     else w.workspaces[wid].status)
  {
    if wid in w.workspaces && wid in w.mounted {
      if w.workspaces[wid].mode == ReadOnly {
        UnmountAnswers(w, w, wid, plan);
        assert Unmounts(w, wid, plan, HappenAll(w, plan.late));
      } else {
        WriterCloseAnswers(w, wid, plan);
      }
    }
  }

  lemma UnmountAnswers(w: World, before: World, wid: Wid, plan: ClosePlan)
    requires wid in before.workspaces && before.workspaces == w.workspaces
    ensures var (w', reply) := UnmountSpec(before, wid, plan);
            var w1 := HappenAll(before, plan.late);
            && (reply.Ok? <==> plan.unmountOk && (plan.gone || wid !in w1.mounted))
            && (reply.Err? ==> reply == Err(UnmountFailed))
            && wid in w'.workspaces && w'.workspaces[wid].status == if reply.Ok? then Closed else SyncPending
  {
    HappenAllFrame(before, plan.late);
  }

  lemma WriterCloseAnswers(w: World, wid: Wid, plan: ClosePlan)
    requires plan.rounds != [] && wid in w.workspaces && wid in w.mounted && w.workspaces[wid].mode == ReadWrite
    ensures var (w', reply) := CloseSpec(w, wid, plan);
            && (reply.Ok? <==> plan.unmountOk
                               && exists w1 :: Unmounts(w, wid, plan, w1) && (plan.gone || wid !in w1.mounted))
            && (reply == Err(UnmountFailed) ==> exists w1 :: Unmounts(w, wid, plan, w1))
            && reply != Err(WorkspaceNotFound) && reply != Err(RecoveryRequired)
            && wid in w'.workspaces
            && w'.workspaces[wid].status == (if reply.Ok? then Closed
                                             else if reply == Err(SyncStatusUnavailable) then w.workspaces[wid].status
                                             else SyncPending)
            && (reply.Ok? || reply.code in {UnmountFailed, StillSyncing, SyncStatusUnavailable})
  {
    var d := DrainQueue(w, wid, plan.rounds);
    var k := LoopStops(w, wid, plan.rounds);
    DrainFrame(w, wid, plan.rounds);
    forall j: nat | FindsEmpty(w, wid, plan, j) ensures j == k && d.Drained? {
      OneStop(w, wid, plan, j, k, d);
    }
    if d.Drained? {
      UnmountAnswers(w, d.after, wid, plan);
      assert FindsEmpty(w, wid, plan, k);
      assert Unmounts(w, wid, plan, HappenAll(d.after, plan.late));
    }
  }

  lemma OneStop(w: World, wid: Wid, plan: ClosePlan, j: nat, k: nat, d: Drain)
    requires FindsEmpty(w, wid, plan, j) && StopsAt(w, wid, plan.rounds, k, d)
    ensures j == k && d.Drained?
  {
    assert ReadAt(w, wid, plan.rounds, j) == {};
  }

  // ---------------------------------------------------------------- recover and cleanup

  /** What recover() checks, in its order, for each of its actions. */
  function RecoverChecks(w: World, wid: Wid, action: string, confirm: Wid, env: RetryEnv): seq<Check<ErrorCode>> {
    var recoverable := wid in w.workspaces && w.workspaces[wid].status in {NeedsRecovery, SyncPending};
    if action != "list" && action != "retry" && action != "keep" && action != "discard" then
      [Check(false, InvalidAction)]
    else if wid == "" || action == "list" then []
    else if action == "keep" then [Check(recoverable, NotRecoverable)]
    else if action == "discard" then
      [Check(recoverable, NotRecoverable), Check(confirm == wid, ConfirmMismatch),
       Check(wid !in w.mounted, StillMounted)]
    else
      [Check(recoverable, NotRecoverable), Check(env.keyReady, KeyNotReady), Check(env.pathOk, PathRejected),
       Check(wid !in w.mounted, StillMounted), Check(env.mountOk, RecoveryMountFailed)]
  }

  /** recover() answers by its checks. A discard abandons the entry and empties its cache, a retry mounts it
      again or finds that it needs recovery; nothing else changes anything. */
  lemma RecoverAnswers(w: World, wid: Wid, action: string, confirm: Wid, env: RetryEnv)
    ensures var (w', reply) := RecoverSpec(w, wid, action, confirm, env);
            && AnswersTo(RecoverChecks(w, wid, action, confirm, env), Refusal(reply))
            && if reply.Ok? && wid != "" && action == "discard" then
                 && OnlyRestates(w, w'.(cache := w.cache, discarded := w.discarded), wid, Abandoned)
                 && w'.cache == w.cache[wid := {}] && w'.discarded == w.discarded + CacheOf(w, wid)
               else if reply.Ok? && wid != "" && action == "retry" then
                 OnlyRestates(w, w'.(mounted := w.mounted), wid, Recovering) && w'.mounted == w.mounted + {wid}
               else if reply == Err(RecoveryMountFailed) then OnlyRestates(w, w', wid, NeedsRecovery)
               else w' == w
  {
    var c := RecoverChecks(w, wid, action, confirm, env);
    var k := FirstFailing(c);
    if |c| == 5 {
      assert c == [c[0], c[1], c[2], c[3], c[4]];
    } else if |c| == 3 {
      assert c == [c[0], c[1], c[2]];
    }
  }

  /** A cleanup that was asked to delete does so only with the exact confirmation, and then forgets exactly the
      closed and the abandoned workspaces that are not mounted; what is left keeps its entry and its writes. */
  lemma CleanupAnswers(w: World, apply: bool, confirm: string)
    ensures var (w', reply) := CleanupSpec(w, apply, confirm);
            && (reply == if apply && confirm != "CLEANUP-CLOSED-WORKSPACES" then Err(ConfirmRequired) else Ok)
            && (reply.Err? || !apply ==> w' == w)
            && (reply.Ok? && apply ==>
                  && (forall wid :: wid in w'.workspaces <==>
                        wid in w.workspaces && !(w.workspaces[wid].status in {Closed, Abandoned} && wid !in w.mounted))
                  && (forall wid <- w'.workspaces ::
                        w'.workspaces[wid] == w.workspaces[wid] && HeldOf(w', wid) == HeldOf(w, wid))
                  && w'.mounted == w.mounted && w'.remote == w.remote)
  {
  }
}
