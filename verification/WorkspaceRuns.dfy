/** What every run of the workspace gateway keeps, whatever the host does in between. */
module WorkspaceRuns {
  import opened RemotePaths
  import opened Workspaces

  datatype Step =
    | DoOpen(wid: Wid, server: string, path: Path, mode: string, openEnv: OpenEnv)
    | DoStatus(wid: Wid, probe: Probe)
    | DoClose(wid: Wid, plan: ClosePlan)
    | DoRecover(wid: Wid, action: string, confirm: Wid, retryEnv: RetryEnv)
    | DoCleanup(apply: bool, confirmation: string)
    | Host(event: Event)

  /** The writes among some events. */
  function WriteIds(events: seq<Event>): set<Write> {
    set e <- events | e.UserWrite? :: e.data
  }

  /** Every write is a new one. */
  predicate Fresh(written: set<Write>, events: seq<Event>)
    decreases |events|
  {
    events == [] ||
    if events[0].UserWrite? then
      events[0].data !in written && Fresh(written + {events[0].data}, events[1..])
    else Fresh(written, events[1..])
  }

  predicate FreshPlan(written: set<Write>, rounds: seq<Round>, late: seq<Event>)
    decreases |rounds|
  {
    if rounds == [] then Fresh(written, late)
    else Fresh(written, rounds[0].events) && FreshPlan(written + WriteIds(rounds[0].events), rounds[1..], late)
  }

  /** Workspace identifiers come from uuid4, so an open never reuses one; a write has an identifier of its
      own; a close polls at least once. */
  predicate Enabled(w: World, step: Step) {
    match step
    case DoOpen(wid, _, _, _, _) => wid !in w.workspaces && wid != ""
    case DoClose(_, plan) => plan.rounds != [] && FreshPlan(w.written, plan.rounds, plan.late)
    case Host(event) => Fresh(w.written, [event])
    case _ => true
  }

  function Next(w: World, step: Step): World
    requires Enabled(w, step)
  {
    match step
    case DoOpen(wid, server, path, mode, env) => OpenSpec(w, wid, server, path, mode, env).0
    case DoStatus(wid, probe) => StatusSpec(w, wid, probe).0
    case DoClose(wid, plan) => CloseSpec(w, wid, plan).0
    case DoRecover(wid, action, confirm, env) => RecoverSpec(w, wid, action, confirm, env).0
    case DoCleanup(apply, confirmation) => CleanupSpec(w, apply, confirmation).0
    case Host(event) => Happen(w, event)
  }

  predicate EnabledRun(w: World, steps: seq<Step>)
    decreases |steps|
  {
    steps == [] || (Enabled(w, steps[0]) && EnabledRun(Next(w, steps[0]), steps[1..]))
  }

  function After(w: World, steps: seq<Step>): World
    requires EnabledRun(w, steps)
    decreases |steps|
  {
    if steps == [] then w else After(Next(w, steps[0]), steps[1..])
  }

  /** Every write that is under some workspace's directory and not on the server. */
  function Unsynced(w: World): set<Write> {
    set wid, x | wid in w.workspaces && x in HeldOf(w, wid) :: x
  }

  function Settled(w: World): set<Write> {
    w.remote + w.discarded + w.dropped
  }

  ghost predicate Apart(w: World) {
    && w.remote !! w.discarded !! w.dropped
    && (forall u <- w.workspaces :: CacheOf(w, u) !! LocalOf(w, u) && HeldOf(w, u) !! Settled(w))
    && (forall u <- w.workspaces, v <- w.workspaces | u != v :: HeldOf(w, u) !! HeldOf(w, v))
  }

  /** Every write ever made is in exactly one place: on the server, in one workspace's cache or bare mount
      directory, discarded on request, or dropped by cleanup. */
  ghost predicate InOnePlace(w: World) {
    w.written == Settled(w) + Unsynced(w) && Apart(w)
  }

  /** Mounted workspaces are known and hold their leases. */
  ghost predicate LeasesHeld(w: World) {
    && "" !in w.workspaces
    && w.mounted <= w.workspaces.Keys
    && forall wid <- w.mounted :: HoldsLease(w.workspaces[wid].status)
  }

  /** What is left without anybody to upload it is accounted for as exposed. */
  ghost predicate CachesKept(w: World) {
    && w.cache.Keys == w.local.Keys == w.workspaces.Keys
    && (forall wid <- w.workspaces :: w.workspaces[wid].mode == ReadOnly ==> w.cache[wid] == {})
    && (forall wid <- w.workspaces :: w.workspaces[wid].status == Closed ==> w.cache[wid] <= w.exposed)
    && (forall wid <- w.workspaces :: w.workspaces[wid].status == Abandoned ==> w.cache[wid] == {})
    && (forall wid <- w.workspaces :: w.local[wid] <= w.exposed)
    && w.dropped <= w.exposed
  }

  ghost predicate Sound(w: World) {
    LeasesHeld(w) && CachesKept(w) && InOnePlace(w)
  }

  // ---------------------------------------------------------------- every write stays in one place

  /** Nothing is held elsewhere than before but under one workspace. */
  ghost predicate HoldsElsewhere(w: World, w': World, wid: Wid) {
    && w'.workspaces.Keys == w.workspaces.Keys && wid in w.workspaces
    && forall v <- w.workspaces | v != wid :: CacheOf(w', v) == CacheOf(w, v) && LocalOf(w', v) == LocalOf(w, v)
  }

  lemma UnsyncedUpdate(w: World, w': World, wid: Wid)
    requires Apart(w) && HoldsElsewhere(w, w', wid)
    ensures Unsynced(w') == (Unsynced(w) - HeldOf(w, wid)) + HeldOf(w', wid)
  {
    forall x ensures x in Unsynced(w') <==> x in (Unsynced(w) - HeldOf(w, wid)) + HeldOf(w', wid) {
      if x in Unsynced(w') {
        var v :| v in w'.workspaces && x in HeldOf(w', v);
        assert v != wid ==> x in HeldOf(w, v);
      }
      if x in Unsynced(w) - HeldOf(w, wid) {
        var v :| v in w.workspaces && x in HeldOf(w, v);
        assert x in HeldOf(w', v);
      }
    }
  }

  lemma NewIsNowhere(w: World, x: Write)
    requires InOnePlace(w) && x !in w.written
    ensures x !in Settled(w) && forall v <- w.workspaces :: x !in HeldOf(w, v)
  {
    forall v <- w.workspaces ensures x !in HeldOf(w, v) {
      assert x in HeldOf(w, v) ==> x in Unsynced(w);
    }
  }

  lemma NewWriteStaysInOnePlace(w: World, w': World, wid: Wid, x: Write)
    requires InOnePlace(w) && HoldsElsewhere(w, w', wid) && x !in w.written
    requires || (CacheOf(w', wid) == CacheOf(w, wid) + {x} && LocalOf(w', wid) == LocalOf(w, wid))
             || (CacheOf(w', wid) == CacheOf(w, wid) && LocalOf(w', wid) == LocalOf(w, wid) + {x})
    requires w'.remote == w.remote && w'.discarded == w.discarded && w'.dropped == w.dropped
    requires w'.written == w.written + {x}
    ensures InOnePlace(w')
  {
    NewIsNowhere(w, x);
    UnsyncedUpdate(w, w', wid);
    assert HeldOf(w', wid) == HeldOf(w, wid) + {x};
    assert HeldOf(w, wid) <= Unsynced(w);
  }

  /** Cached writes that move to the server, or are discarded. */
  lemma SettledStaysInOnePlace(w: World, w': World, wid: Wid, moved: set<Write>)
    requires InOnePlace(w) && HoldsElsewhere(w, w', wid) && moved <= CacheOf(w, wid)
    requires CacheOf(w', wid) == CacheOf(w, wid) - moved && LocalOf(w', wid) == LocalOf(w, wid)
    requires || (w'.remote == w.remote + moved && w'.discarded == w.discarded)
             || (w'.remote == w.remote && w'.discarded == w.discarded + moved)
    requires w'.dropped == w.dropped && w'.written == w.written
    ensures InOnePlace(w')
  {
    UnsyncedUpdate(w, w', wid);
    assert HeldOf(w', wid) == HeldOf(w, wid) - moved && HeldOf(w, wid) <= Unsynced(w);
    assert Settled(w') == Settled(w) + moved;
    assert forall v <- w.workspaces | v != wid :: HeldOf(w', v) == HeldOf(w, v);
  }

  /** A step that moves no write. */
  ghost predicate MovesNothing(w: World, w': World) {
    && w'.remote == w.remote && w'.discarded == w.discarded && w'.dropped == w.dropped && w'.written == w.written
    && w.workspaces.Keys <= w'.workspaces.Keys
    && forall v <- w'.workspaces ::
         && CacheOf(w', v) == (if v in w.workspaces then CacheOf(w, v) else {})
         && LocalOf(w', v) == (if v in w.workspaces then LocalOf(w, v) else {})
  }

  lemma MovingNothingStaysInOnePlace(w: World, w': World)
    requires InOnePlace(w) && MovesNothing(w, w')
    ensures InOnePlace(w')
  {
    forall x ensures x in Unsynced(w') <==> x in Unsynced(w) {
      if x in Unsynced(w) {
        var v :| v in w.workspaces && x in HeldOf(w, v);
        assert x in HeldOf(w', v);
      }
      if x in Unsynced(w') {
        var v :| v in w'.workspaces && x in HeldOf(w', v);
        assert v in w.workspaces && x in HeldOf(w, v);
      }
    }
    assert Settled(w') == Settled(w);
    MovingNothingKeepsApart(w, w');
  }

  lemma MovingNothingKeepsApart(w: World, w': World)
    requires Apart(w) && MovesNothing(w, w')
    ensures Apart(w')
  {
    assert forall v <- w'.workspaces :: HeldOf(w', v) == if v in w.workspaces then HeldOf(w, v) else {};
  }

  lemma ForgetStaysInOnePlace(w: World, doomed: set<Wid>)
    requires InOnePlace(w) && doomed <= w.workspaces.Keys
    ensures InOnePlace(Forget(w, doomed))
  {
    var w' := Forget(w, doomed);
    assert forall v <- w'.workspaces :: v in w.workspaces && HeldOf(w', v) == HeldOf(w, v);
    forall x ensures x in Settled(w') + Unsynced(w') <==> x in Settled(w) + Unsynced(w) {
      if x in Unsynced(w) {
        var v :| v in w.workspaces && x in HeldOf(w, v);
        assert v in doomed ==> x in w'.dropped;
        assert v !in doomed ==> x in HeldOf(w', v);
      }
      if x in w'.dropped && x !in w.dropped {
        var v :| v in doomed && x in HeldOf(w, v);
        assert x in Unsynced(w);
      }
      if x in Unsynced(w') {
        var v :| v in w'.workspaces && x in HeldOf(w', v);
        assert x in HeldOf(w, v);
      }
    }
    ForgetKeepsApart(w, doomed);
  }

  lemma ForgetKeepsApart(w: World, doomed: set<Wid>)
    requires Apart(w) && doomed <= w.workspaces.Keys
    ensures Apart(Forget(w, doomed))
  {
    var w' := Forget(w, doomed);
    forall u, x | u in w'.workspaces && x in HeldOf(w, u) ensures x !in w'.dropped {
      assert forall v <- doomed :: HeldOf(w, u) !! HeldOf(w, v);
    }
    assert forall u <- w'.workspaces :: CacheOf(w', u) == CacheOf(w, u) && LocalOf(w', u) == LocalOf(w, u);
    forall x | x in w'.dropped ensures x !in w.remote && x !in w.discarded {
      if x !in w.dropped {
        var v :| v in doomed && x in HeldOf(w, v);
        assert HeldOf(w, v) !! Settled(w);
      }
    }
  }

  // ---------------------------------------------------------------- every step keeps Sound

  lemma HappenFrame(w: World, e: Event)
    ensures Happen(w, e).workspaces == w.workspaces && Happen(w, e).mounted <= w.mounted
    ensures Happen(w, e).written <= w.written + WriteIds([e])
    ensures Happen(w, e).discarded == w.discarded && Happen(w, e).dropped == w.dropped
  {
    if e.UserWrite? {
      assert [e][0] in [e];
    }
  }

  lemma HappenKeepsCaches(w: World, e: Event)
    requires LeasesHeld(w) && CachesKept(w)
    ensures LeasesHeld(Happen(w, e)) && CachesKept(Happen(w, e))
  {
    HappenFrame(w, e);
    match e
    case MountLost(_) =>
    case UserWrite(wid, x) => UserWriteKeepsCaches(w, wid, x);
    case Uploaded(wid, x) => UploadKeepsCaches(w, wid, x);
  }

  lemma UserWriteKeepsCaches(w: World, wid: Wid, x: Write)
    requires LeasesHeld(w) && CachesKept(w)
    ensures CachesKept(Happen(w, UserWrite(wid, x)))
  {
  }

  lemma UploadKeepsCaches(w: World, wid: Wid, x: Write)
    requires CachesKept(w)
    ensures CachesKept(Happen(w, Uploaded(wid, x)))
  {
  }

  lemma HappenKeepsPlaces(w: World, e: Event)
    requires LeasesHeld(w) && InOnePlace(w) && Fresh(w.written, [e])
    ensures InOnePlace(Happen(w, e))
  {
    if Happen(w, e) != w {
      match e
      case MountLost(_) => MovingNothingStaysInOnePlace(w, Happen(w, e));
      case UserWrite(wid, x) => UserWriteKeepsPlaces(w, wid, x);
      case Uploaded(wid, x) => UploadKeepsPlaces(w, wid, x);
    }
  }

  lemma UserWriteKeepsPlaces(w: World, wid: Wid, x: Write)
    requires InOnePlace(w) && wid in w.workspaces && x !in w.written && Happen(w, UserWrite(wid, x)) != w
    ensures InOnePlace(Happen(w, UserWrite(wid, x)))
  {
    NewWriteStaysInOnePlace(w, Happen(w, UserWrite(wid, x)), wid, x);
  }

  lemma UploadKeepsPlaces(w: World, wid: Wid, x: Write)
    requires InOnePlace(w) && wid in w.workspaces && Happen(w, Uploaded(wid, x)) != w
    ensures InOnePlace(Happen(w, Uploaded(wid, x)))
  {
    SettledStaysInOnePlace(w, Happen(w, Uploaded(wid, x)), wid, {x});
  }

  lemma {:induction false} HappenAllFrame(w: World, events: seq<Event>)
    ensures HappenAll(w, events).workspaces == w.workspaces && HappenAll(w, events).mounted <= w.mounted
    ensures HappenAll(w, events).written <= w.written + WriteIds(events)
    ensures HappenAll(w, events).discarded == w.discarded && HappenAll(w, events).dropped == w.dropped
    decreases |events|
  {
    if events != [] {
      HappenFrame(w, events[0]);
      HappenAllFrame(Happen(w, events[0]), events[1..]);
      assert events == [events[0]] + events[1..];
      assert WriteIds(events) == WriteIds([events[0]]) + WriteIds(events[1..]);
    }
  }

  lemma {:induction false} FreshFewer(fewer: set<Write>, written: set<Write>, events: seq<Event>)
    requires fewer <= written && Fresh(written, events)
    ensures Fresh(fewer, events)
    decreases |events|
  {
    if events != [] {
      if events[0].UserWrite? {
        FreshFewer(fewer + {events[0].data}, written + {events[0].data}, events[1..]);
      } else {
        FreshFewer(fewer, written, events[1..]);
      }
    }
  }

  lemma {:induction false} FreshPlanFewer(fewer: set<Write>, written: set<Write>, rounds: seq<Round>, late: seq<Event>)
    requires fewer <= written && FreshPlan(written, rounds, late)
    ensures FreshPlan(fewer, rounds, late) && Fresh(fewer, late)
    decreases |rounds|
  {
    if rounds == [] {
      FreshFewer(fewer, written, late);
    } else {
      var ids := WriteIds(rounds[0].events);
      FreshFewer(fewer, written, rounds[0].events);
      FreshPlanFewer(fewer + ids, written + ids, rounds[1..], late);
      FreshFewer(fewer, fewer + ids, late);
    }
  }

  lemma {:induction false} HappenAllKeepsSound(w: World, events: seq<Event>)
    requires Sound(w) && Fresh(w.written, events)
    ensures Sound(HappenAll(w, events))
    decreases |events|
  {
    if events != [] {
      var e := events[0];
      assert [e][1..] == [];
      HappenKeepsCaches(w, e);
      HappenKeepsPlaces(w, e);
      var w1 := Happen(w, e);
      HappenFrame(w, e);
      if e.UserWrite? {
        FreshFewer(w1.written, w.written + {e.data}, events[1..]);
      } else {
        FreshFewer(w1.written, w.written, events[1..]);
      }
      HappenAllKeepsSound(w1, events[1..]);
    }
  }

  lemma {:induction false} DrainFrame(w: World, wid: Wid, rounds: seq<Round>)
    requires rounds != []
    ensures var w' := DrainQueue(w, wid, rounds).after;
            && w'.workspaces == w.workspaces && w'.mounted <= w.mounted
            && w'.discarded == w.discarded && w'.dropped == w.dropped
    decreases |rounds|
  {
    HappenAllFrame(w, rounds[0].events);
    if |rounds| > 1 {
      DrainFrame(HappenAll(w, rounds[0].events), wid, rounds[1..]);
    }
  }

  lemma {:induction false} DrainKeepsSound(w: World, wid: Wid, rounds: seq<Round>, late: seq<Event>)
    requires Sound(w) && rounds != [] && FreshPlan(w.written, rounds, late)
    ensures Sound(DrainQueue(w, wid, rounds).after)
    ensures Fresh(DrainQueue(w, wid, rounds).after.written, late)
    decreases |rounds|
  {
    var w1 := HappenAll(w, rounds[0].events);
    FirstRoundKeepsSound(w, rounds, late);
    if |rounds| > 1 {
      DrainKeepsSound(w1, wid, rounds[1..], late);
    }
  }

  lemma FirstRoundKeepsSound(w: World, rounds: seq<Round>, late: seq<Event>)
    requires Sound(w) && rounds != [] && FreshPlan(w.written, rounds, late)
    ensures var w1 := HappenAll(w, rounds[0].events);
            Sound(w1) && FreshPlan(w1.written, rounds[1..], late) && Fresh(w1.written, late)
  {
    var w1 := HappenAll(w, rounds[0].events);
    HappenAllKeepsSound(w, rounds[0].events);
    HappenAllFrame(w, rounds[0].events);
    FreshPlanFewer(w1.written, w.written + WriteIds(rounds[0].events), rounds[1..], late);
  }

  lemma StatusWriteKeepsSound(w: World, wid: Wid, status: Status)
    requires Sound(w) && wid in w.workspaces
    requires wid in w.mounted ==> HoldsLease(status)
    requires status == Closed || status == Abandoned ==> w.workspaces[wid].status == status
    ensures Sound(WithStatus(w, wid, status))
  {
    StatusWriteKeepsCaches(w, wid, status);
    StatusWriteMovesNothing(w, wid, status);
    MovingNothingStaysInOnePlace(w, WithStatus(w, wid, status));
  }

  lemma StatusWriteMovesNothing(w: World, wid: Wid, status: Status)
    requires wid in w.workspaces
    ensures MovesNothing(w, WithStatus(w, wid, status))
  {
  }

  lemma StatusWriteKeepsCaches(w: World, wid: Wid, status: Status)
    requires LeasesHeld(w) && CachesKept(w) && wid in w.workspaces
    requires wid in w.mounted ==> HoldsLease(status)
    requires status == Closed || status == Abandoned ==> w.workspaces[wid].status == status
    ensures LeasesHeld(WithStatus(w, wid, status)) && CachesKept(WithStatus(w, wid, status))
  {
  }

  lemma UnmountKeepsSound(w: World, wid: Wid, plan: ClosePlan)
    requires Sound(w) && wid in w.workspaces && Fresh(w.written, plan.late)
    ensures Sound(UnmountSpec(w, wid, plan).0)
  {
    HappenAllKeepsSound(w, plan.late);
    HappenAllFrame(w, plan.late);
    var w1 := HappenAll(w, plan.late);
    LosingMountKeepsSound(w1, wid);
    var w2 := if plan.gone then w1.(mounted := w1.mounted - {wid}) else w1;
    StatusWriteKeepsSound(w2, wid, SyncPending);
    if wid !in w2.mounted {
      ClosingKeepsSound(w2, wid);
    }
  }

  lemma LosingMountKeepsSound(w: World, wid: Wid)
    requires Sound(w)
    ensures Sound(w.(mounted := w.mounted - {wid}))
  {
    MovingNothingStaysInOnePlace(w, w.(mounted := w.mounted - {wid}));
  }

  lemma ClosingKeepsSound(w: World, wid: Wid)
    requires Sound(w) && wid in w.workspaces && wid !in w.mounted
    ensures Sound(WithStatus(w, wid, Closed).(exposed := w.exposed + CacheOf(w, wid)))
  {
    ClosingKeepsCaches(w, wid);
    MovingNothingStaysInOnePlace(w, WithStatus(w, wid, Closed).(exposed := w.exposed + CacheOf(w, wid)));
  }

  lemma ClosingKeepsCaches(w: World, wid: Wid)
    requires LeasesHeld(w) && CachesKept(w) && wid in w.workspaces && wid !in w.mounted
    ensures var w' := WithStatus(w, wid, Closed).(exposed := w.exposed + CacheOf(w, wid));
            LeasesHeld(w') && CachesKept(w')
  {
  }

  lemma ForgetKeepsCaches(w: World)
    requires LeasesHeld(w) && CachesKept(w)
    ensures LeasesHeld(Forget(w, Removable(w))) && CachesKept(Forget(w, Removable(w)))
  {
  }

  lemma RecoverKeepsCaches(w: World, wid: Wid, action: string, confirm: Wid, env: RetryEnv)
    requires LeasesHeld(w) && CachesKept(w)
    ensures LeasesHeld(RecoverSpec(w, wid, action, confirm, env).0)
    ensures CachesKept(RecoverSpec(w, wid, action, confirm, env).0)
  {
    var w' := RecoverSpec(w, wid, action, confirm, env).0;
    if w' != w {
      RecoverRestates(w, wid, action, confirm, env);
      if w'.workspaces == Restated(w, wid, Abandoned) {
        DiscardKeepsCaches(w, wid);
      } else if w'.workspaces == Restated(w, wid, NeedsRecovery) {
        StatusWriteKeepsCaches(w, wid, NeedsRecovery);
      } else {
        RemountKeepsCaches(w, wid);
      }
    }
  }

  lemma DiscardKeepsCaches(w: World, wid: Wid)
    requires LeasesHeld(w) && CachesKept(w) && wid in w.workspaces && wid !in w.mounted
    ensures var w' := WithStatus(w, wid, Abandoned).(cache := w.cache[wid := {}],
                                                     discarded := w.discarded + CacheOf(w, wid));
            LeasesHeld(w') && CachesKept(w')
  {
  }

  lemma RemountKeepsCaches(w: World, wid: Wid)
    requires LeasesHeld(w) && CachesKept(w) && wid in w.workspaces
    ensures var w' := WithStatus(w, wid, Recovering).(mounted := w.mounted + {wid});
            LeasesHeld(w') && CachesKept(w')
  {
  }

  lemma RecoverKeepsPlaces(w: World, wid: Wid, action: string, confirm: Wid, env: RetryEnv)
    requires InOnePlace(w)
    ensures InOnePlace(RecoverSpec(w, wid, action, confirm, env).0)
  {
    var w' := RecoverSpec(w, wid, action, confirm, env).0;
    if w' != w {
      if action == "discard" {
        SettledStaysInOnePlace(w, w', wid, CacheOf(w, wid));
      } else {
        MovingNothingStaysInOnePlace(w, w');
      }
    }
  }

  lemma OpenKeepsCaches(w: World, wid: Wid, server: string, path: Path, mode: string, env: OpenEnv)
    requires LeasesHeld(w) && CachesKept(w) && wid !in w.workspaces && wid != ""
    ensures LeasesHeld(OpenSpec(w, wid, server, path, mode, env).0)
    ensures CachesKept(OpenSpec(w, wid, server, path, mode, env).0)
  {
    var w' := OpenSpec(w, wid, server, path, mode, env).0;
    if w' != w {
      NewEntryKeepsCaches(w, w', wid);
    }
  }

  lemma NewEntryKeepsCaches(w: World, w': World, wid: Wid)
    requires CachesKept(w) && wid in w'.workspaces && w'.workspaces == w.workspaces[wid := w'.workspaces[wid]]
    requires w'.cache == w.cache[wid := {}] && w'.local == w.local[wid := {}]
    requires w'.exposed == w.exposed && w'.dropped == w.dropped
    ensures CachesKept(w')
  {
  }

  lemma OpenKeepsPlaces(w: World, wid: Wid, server: string, path: Path, mode: string, env: OpenEnv)
    requires InOnePlace(w) && wid !in w.workspaces
    ensures InOnePlace(OpenSpec(w, wid, server, path, mode, env).0)
  {
    var w' := OpenSpec(w, wid, server, path, mode, env).0;
    if w' != w {
      MovingNothingStaysInOnePlace(w, w');
    }
  }

  lemma StepKeepsSound(w: World, step: Step)
    requires Sound(w) && Enabled(w, step)
    ensures Sound(Next(w, step))
  {
    match step
    case DoOpen(wid, server, path, mode, env) =>
      OpenKeepsCaches(w, wid, server, path, mode, env);
      OpenKeepsPlaces(w, wid, server, path, mode, env);
    case DoStatus(wid, probe) =>
      if wid in w.workspaces {
        StatusWriteKeepsSound(w, wid, Probed(w.workspaces[wid], wid in w.mounted, probe, CacheOf(w, wid)));
      }
    case DoClose(wid, plan) => CloseKeepsSound(w, wid, plan);
    case DoRecover(wid, action, confirm, env) =>
      RecoverKeepsCaches(w, wid, action, confirm, env);
      RecoverKeepsPlaces(w, wid, action, confirm, env);
    case DoCleanup(_, _) =>
      ForgetKeepsCaches(w);
      ForgetStaysInOnePlace(w, Removable(w));
    case Host(event) =>
      HappenKeepsCaches(w, event);
      HappenKeepsPlaces(w, event);
  }

  lemma CloseKeepsSound(w: World, wid: Wid, plan: ClosePlan)
    requires Sound(w) && Enabled(w, DoClose(wid, plan))
    ensures Sound(CloseSpec(w, wid, plan).0)
  {
    if wid !in w.workspaces {
      assert CloseSpec(w, wid, plan).0 == w;
    } else if wid !in w.mounted {
      StatusWriteKeepsSound(w, wid, NeedsRecovery);
    } else if w.workspaces[wid].mode == ReadOnly {
      FreshPlanFewer(w.written, w.written, plan.rounds, plan.late);
      UnmountKeepsSound(w, wid, plan);
    } else {
      WriterCloseKeepsSound(w, wid, plan);
    }
  }

  lemma WriterCloseKeepsSound(w: World, wid: Wid, plan: ClosePlan)
    requires Sound(w) && Enabled(w, DoClose(wid, plan))
    requires wid in w.workspaces && wid in w.mounted && w.workspaces[wid].mode == ReadWrite
    ensures Sound(CloseSpec(w, wid, plan).0)
  {
    DrainKeepsSound(w, wid, plan.rounds, plan.late);
    DrainFrame(w, wid, plan.rounds);
    DrainedKeepsSound(DrainQueue(w, wid, plan.rounds), wid, plan);
  }

  /** What follows the polling loop, by the way it was left. */
  lemma DrainedKeepsSound(d: Drain, wid: Wid, plan: ClosePlan)
    requires Sound(d.after) && wid in d.after.workspaces && Fresh(d.after.written, plan.late)
    ensures d.Drained? ==> Sound(UnmountSpec(d.after, wid, plan).0)
    ensures d.Pending? ==> Sound(WithStatus(d.after, wid, SyncPending))
  {
    if d.Drained? {
      UnmountKeepsSound(d.after, wid, plan);
    } else if d.Pending? {
      StatusWriteKeepsSound(d.after, wid, SyncPending);
    }
  }

  lemma {:induction false} RunKeepsSound(w: World, steps: seq<Step>)
    requires Sound(w) && EnabledRun(w, steps)
    ensures Sound(After(w, steps))
    decreases |steps|
  {
    if steps != [] {
      StepKeepsSound(w, steps[0]);
      RunKeepsSound(Next(w, steps[0]), steps[1..]);
    }
  }

  // ---------------------------------------------------------------- every step keeps leases held

  lemma UnmountKeepsLeases(w: World, wid: Wid, plan: ClosePlan)
    requires LeasesHeld(w) && wid in w.workspaces
    ensures LeasesHeld(UnmountSpec(w, wid, plan).0)
  {
    HappenAllFrame(w, plan.late);
  }

  lemma CloseKeepsLeases(w: World, wid: Wid, plan: ClosePlan)
    requires LeasesHeld(w) && plan.rounds != []
    ensures LeasesHeld(CloseSpec(w, wid, plan).0)
  {
    if wid in w.mounted {
      if w.workspaces[wid].mode == ReadOnly {
        UnmountKeepsLeases(w, wid, plan);
      } else {
        DrainFrame(w, wid, plan.rounds);
        UnmountKeepsLeases(DrainQueue(w, wid, plan.rounds).after, wid, plan);
      }
    }
  }

  lemma StepKeepsLeases(w: World, step: Step)
    requires LeasesHeld(w) && Enabled(w, step)
    ensures LeasesHeld(Next(w, step))
  {
    match step
    case DoClose(wid, plan) => CloseKeepsLeases(w, wid, plan);
    case Host(event) => HappenFrame(w, event);
    case _ =>
  }

  // ---------------------------------------------------------------- exclusion

  /** No two lease-holding writable workspaces on one server overlap. */
  ghost predicate LeaseExclusive(w: World) {
    forall a <- w.workspaces, b <- w.workspaces | a != b && w.workspaces[a].mode == ReadWrite
      && HoldsLease(w.workspaces[a].status) ::
        !Blocks(w.workspaces[b], w.workspaces[a].server, w.workspaces[a].path)
  }

  /** No remote file lies inside two mounted writable workspaces of its server. */
  ghost predicate FileExclusive(w: World) {
    forall a <- w.mounted, b <- w.mounted, file: Path
      | a != b && a in w.workspaces && b in w.workspaces
        && w.workspaces[a].mode == ReadWrite && w.workspaces[b].mode == ReadWrite
        && w.workspaces[a].server == w.workspaces[b].server ::
        !(Inside(file, w.workspaces[a].path) && Inside(file, w.workspaces[b].path))
  }

  lemma LeasesProtectFiles(w: World)
    requires LeasesHeld(w) && LeaseExclusive(w)
    ensures FileExclusive(w)
  {
    forall a <- w.mounted, b <- w.mounted, file: Path
      | a != b && w.workspaces[a].mode == ReadWrite && w.workspaces[b].mode == ReadWrite
        && w.workspaces[a].server == w.workspaces[b].server
        && Inside(file, w.workspaces[a].path) && Inside(file, w.workspaces[b].path)
      ensures false
    {
      OverlapIffSharedFile(w.workspaces[a].path, w.workspaces[b].path);
    }
  }

  /** A retry that really mounts a writable workspace again. */
  predicate Remounts(w: World, step: Step) {
    step.DoRecover? && step.action == "retry" && step.wid in w.workspaces
    && w.workspaces[step.wid].mode == ReadWrite
    && RecoverSpec(w, step.wid, step.action, step.confirm, step.retryEnv).1.Ok? && step.wid != ""
  }

  /** The lease check that open() makes and recover(retry) does not. */
  predicate Guarded(w: World, step: Step) {
    Remounts(w, step) ==>
      LeaseFree(w.workspaces, w.workspaces[step.wid].server, w.workspaces[step.wid].path, step.wid)
  }

  predicate GuardedRun(w: World, steps: seq<Step>)
    requires EnabledRun(w, steps)
    decreases |steps|
  {
    steps == [] || (Guarded(w, steps[0]) && GuardedRun(Next(w, steps[0]), steps[1..]))
  }

  ghost predicate LeaseExclusiveThroughout(w: World, steps: seq<Step>)
    requires EnabledRun(w, steps)
    decreases |steps|
  {
    LeaseExclusive(w) && (steps != [] ==> LeaseExclusiveThroughout(Next(w, steps[0]), steps[1..]))
  }

  ghost predicate FileExclusiveThroughout(w: World, steps: seq<Step>)
    requires EnabledRun(w, steps)
    decreases |steps|
  {
    FileExclusive(w) && (steps != [] ==> FileExclusiveThroughout(Next(w, steps[0]), steps[1..]))
  }

  /** Entries keep their server, path and mode, and none gains a lease it did not hold. */
  ghost predicate GainsNoLease(w: World, w': World) {
    forall wid <- w'.workspaces ::
      && wid in w.workspaces
      && w'.workspaces[wid].server == w.workspaces[wid].server
      && w'.workspaces[wid].path == w.workspaces[wid].path
      && w'.workspaces[wid].mode == w.workspaces[wid].mode
      && (HoldsLease(w'.workspaces[wid].status) ==> HoldsLease(w.workspaces[wid].status))
  }

  lemma GainingNoLeaseKeepsExclusive(w: World, w': World)
    requires LeaseExclusive(w) && GainsNoLease(w, w')
    ensures LeaseExclusive(w')
  {
  }

  function Restated(w: World, wid: Wid, status: Status): map<Wid, Workspace>
    requires wid in w.workspaces
  {
    w.workspaces[wid := w.workspaces[wid].(status := status)]
  }

  /** What a close can do to the entries: at most restate its own, keeping a lease only if it was mounted. */
  ghost predicate TouchesOne(w: World, w': World, wid: Wid) {
    && w'.mounted <= w.mounted
    && (w'.workspaces == w.workspaces
        || (wid in w.workspaces
            && (w'.workspaces == Restated(w, wid, NeedsRecovery) || w'.workspaces == Restated(w, wid, Closed)
                || (wid in w.mounted && w'.workspaces == Restated(w, wid, SyncPending)))))
  }

  lemma UnmountTouchesOne(w: World, w1: World, wid: Wid, plan: ClosePlan)
    requires wid in w.workspaces && wid in w.mounted
    requires w1.workspaces == w.workspaces && w1.mounted <= w.mounted
    ensures TouchesOne(w, UnmountSpec(w1, wid, plan).0, wid)
  {
    HappenAllFrame(w1, plan.late);
  }

  /** A close touches no entry but its own and mounts nothing. */
  lemma CloseTouchesOne(w: World, wid: Wid, plan: ClosePlan)
    requires LeasesHeld(w) && plan.rounds != []
    ensures TouchesOne(w, CloseSpec(w, wid, plan).0, wid)
  {
    if wid in w.mounted {
      if w.workspaces[wid].mode == ReadOnly {
        UnmountTouchesOne(w, w, wid, plan);
      } else {
        DrainFrame(w, wid, plan.rounds);
        UnmountTouchesOne(w, DrainQueue(w, wid, plan.rounds).after, wid, plan);
      }
    }
  }

  lemma CloseGainsNoLease(w: World, wid: Wid, plan: ClosePlan)
    requires LeasesHeld(w) && plan.rounds != []
    ensures GainsNoLease(w, CloseSpec(w, wid, plan).0)
  {
    CloseTouchesOne(w, wid, plan);
  }

  /** For every step from an exclusive state: exclusion survives if and only if the step is guarded. */
  lemma StepKeepsExclusiveIffGuarded(w: World, step: Step)
    requires LeasesHeld(w) && LeaseExclusive(w) && Enabled(w, step)
    ensures LeaseExclusive(Next(w, step)) <==> Guarded(w, step)
  {
    var w' := Next(w, step);
    match step
    case DoOpen(wid, server, path, mode, env) => OpenKeepsExclusive(w, wid, server, path, mode, env);
    case DoStatus(wid, probe) =>
      StatusGainsNoLease(w, wid, probe);
      GainingNoLeaseKeepsExclusive(w, w');
    case DoClose(wid, plan) =>
      CloseGainsNoLease(w, wid, plan);
      GainingNoLeaseKeepsExclusive(w, w');
    case DoRecover(wid, action, confirm, env) =>
      if Remounts(w, step) {
        RemountExclusiveIff(w, wid, confirm, env);
      } else {
        OtherRecoverKeepsExclusive(w, wid, action, confirm, env);
      }
    case DoCleanup(apply, confirmation) =>
      CleanupGainsNoLease(w, apply, confirmation);
      GainingNoLeaseKeepsExclusive(w, w');
    case Host(event) =>
      HappenFrame(w, event);
      GainingNoLeaseKeepsExclusive(w, w');
  }

  lemma CleanupGainsNoLease(w: World, apply: bool, confirmation: string)
    ensures GainsNoLease(w, CleanupSpec(w, apply, confirmation).0)
  {
  }

  lemma StatusGainsNoLease(w: World, wid: Wid, probe: Probe)
    requires LeasesHeld(w)
    ensures GainsNoLease(w, StatusSpec(w, wid, probe).0)
  {
  }

  lemma OtherRecoverKeepsExclusive(w: World, wid: Wid, action: string, confirm: Wid, env: RetryEnv)
    requires LeasesHeld(w) && LeaseExclusive(w) && !Remounts(w, DoRecover(wid, action, confirm, env))
    ensures LeaseExclusive(RecoverSpec(w, wid, action, confirm, env).0)
  {
    var w' := RecoverSpec(w, wid, action, confirm, env).0;
    if w' != w {
      RecoverRestates(w, wid, action, confirm, env);
      if w.workspaces[wid].mode == ReadOnly {
        RestatingReaderKeepsExclusive(w, w', wid);
      } else if w'.workspaces == Restated(w, wid, Abandoned) {
        GivingUpLeaseKeepsExclusive(w, w', wid, Abandoned);
      } else {
        GivingUpLeaseKeepsExclusive(w, w', wid, NeedsRecovery);
      }
    }
  }

  lemma GivingUpLeaseKeepsExclusive(w: World, w': World, wid: Wid, status: Status)
    requires LeaseExclusive(w) && wid in w.workspaces && !HoldsLease(status)
    requires w'.workspaces == Restated(w, wid, status)
    ensures LeaseExclusive(w')
  {
    assert GainsNoLease(w, w');
    GainingNoLeaseKeepsExclusive(w, w');
  }

  lemma RecoverRestates(w: World, wid: Wid, action: string, confirm: Wid, env: RetryEnv)
    requires RecoverSpec(w, wid, action, confirm, env).0 != w
    ensures wid in w.workspaces
    ensures var w' := RecoverSpec(w, wid, action, confirm, env).0;
            || w'.workspaces == Restated(w, wid, Abandoned)
            || w'.workspaces == Restated(w, wid, NeedsRecovery)
            || (w'.workspaces == Restated(w, wid, Recovering) && action == "retry" && wid != ""
                && RecoverSpec(w, wid, action, confirm, env).1.Ok?)
  {
  }

  lemma RestatingReaderKeepsExclusive(w: World, w': World, wid: Wid)
    requires LeaseExclusive(w) && wid in w.workspaces && w.workspaces[wid].mode == ReadOnly
    requires w'.workspaces.Keys == w.workspaces.Keys && w'.workspaces[wid].mode == ReadOnly
    requires forall v <- w.workspaces | v != wid :: w'.workspaces[v] == w.workspaces[v]
    ensures LeaseExclusive(w')
  {
  }

  lemma OverlapSymmetric(a: Path, b: Path)
    ensures Overlap(a, b) == Overlap(b, a)
  {
  }

  lemma OpenKeepsExclusive(w: World, wid: Wid, server: string, path: Path, mode: string, env: OpenEnv)
    requires LeasesHeld(w) && LeaseExclusive(w) && wid !in w.workspaces
    ensures LeaseExclusive(OpenSpec(w, wid, server, path, mode, env).0)
  {
    var w' := OpenSpec(w, wid, server, path, mode, env).0;
    if w'.workspaces != w.workspaces {
      NewEntryKeepsExclusive(w, w', wid);
    }
  }

  lemma NewEntryKeepsExclusive(w: World, w': World, wid: Wid)
    requires LeaseExclusive(w) && wid !in w.workspaces && "" !in w.workspaces && wid in w'.workspaces
    requires w'.workspaces == w.workspaces[wid := w'.workspaces[wid]]
    requires var item := w'.workspaces[wid];
             item.mode == ReadWrite && HoldsLease(item.status) ==> LeaseFree(w.workspaces, item.server, item.path, "")
    ensures LeaseExclusive(w')
  {
    forall a <- w.workspaces {
      OverlapSymmetric(w.workspaces[a].path, w'.workspaces[wid].path);
    }
  }

  lemma RemountExclusiveIff(w: World, wid: Wid, confirm: Wid, env: RetryEnv)
    requires LeaseExclusive(w) && Remounts(w, DoRecover(wid, "retry", confirm, env))
    ensures LeaseExclusive(RecoverSpec(w, wid, "retry", confirm, env).0)
            <==> LeaseFree(w.workspaces, w.workspaces[wid].server, w.workspaces[wid].path, wid)
  {
    var w' := RecoverSpec(w, wid, "retry", confirm, env).0;
    forall a <- w.workspaces {
      OverlapSymmetric(w.workspaces[a].path, w.workspaces[wid].path);
    }
    if LeaseExclusive(w') {
      assert HoldsLease(w'.workspaces[wid].status);
      forall b <- w.workspaces | b != wid
        ensures !Blocks(w.workspaces[b], w.workspaces[wid].server, w.workspaces[wid].path)
      {
        assert w'.workspaces[b] == w.workspaces[b];
      }
    }
  }

  /** Over every run: leases stay exclusive throughout if and only if every remounting retry passes
      the check that open() makes. */
  lemma {:induction false} ExclusiveRunIffGuarded(w: World, steps: seq<Step>)
    requires LeasesHeld(w) && LeaseExclusive(w) && EnabledRun(w, steps)
    ensures LeaseExclusiveThroughout(w, steps) <==> GuardedRun(w, steps)
    decreases |steps|
  {
    if steps != [] {
      StepKeepsLeases(w, steps[0]);
      StepKeepsExclusiveIffGuarded(w, steps[0]);
      if Guarded(w, steps[0]) {
        ExclusiveRunIffGuarded(Next(w, steps[0]), steps[1..]);
      }
    }
  }

  // ---------------------------------------------------------------- exactly when files are protected

  /** No other mounted writable workspace of the server overlaps the path. */
  predicate MountFree(w: World, server: string, path: Path, self: Wid) {
    forall v <- w.mounted :: v == self || v !in w.workspaces || w.workspaces[v].mode != ReadWrite
                             || w.workspaces[v].server != server || !Overlap(path, w.workspaces[v].path)
  }

  /** The check on mounts that would be enough for a retry. */
  predicate Unshared(w: World, step: Step) {
    Remounts(w, step) ==> MountFree(w, w.workspaces[step.wid].server, w.workspaces[step.wid].path, step.wid)
  }

  predicate UnsharedRun(w: World, steps: seq<Step>)
    requires EnabledRun(w, steps)
    decreases |steps|
  {
    steps == [] || (Unshared(w, steps[0]) && UnsharedRun(Next(w, steps[0]), steps[1..]))
  }

  /** No two mounted writable workspaces of one server overlap: the same as protecting every file. */
  ghost predicate MountExclusive(w: World) {
    forall a <- w.mounted | a in w.workspaces && w.workspaces[a].mode == ReadWrite ::
      MountFree(w, w.workspaces[a].server, w.workspaces[a].path, a)
  }

  lemma MountsProtectFiles(w: World)
    ensures FileExclusive(w) <==> MountExclusive(w)
  {
    if FileExclusive(w) {
      forall a <- w.mounted, b <- w.mounted
        | a != b && a in w.workspaces && b in w.workspaces
          && w.workspaces[a].mode == ReadWrite && w.workspaces[b].mode == ReadWrite
          && w.workspaces[a].server == w.workspaces[b].server
        ensures !Overlap(w.workspaces[a].path, w.workspaces[b].path)
      {
        OverlapIffSharedFile(w.workspaces[a].path, w.workspaces[b].path);
      }
    } else {
      var a, b, file: Path :| a in w.mounted && b in w.mounted && a != b && a in w.workspaces && b in w.workspaces
        && w.workspaces[a].mode == ReadWrite && w.workspaces[b].mode == ReadWrite
        && w.workspaces[a].server == w.workspaces[b].server
        && Inside(file, w.workspaces[a].path) && Inside(file, w.workspaces[b].path);
      OverlapIffSharedFile(w.workspaces[a].path, w.workspaces[b].path);
    }
  }

  /** Nothing is newly mounted, and entries keep their server, path and mode. */
  ghost predicate MountsNothing(w: World, w': World) {
    && w'.mounted <= w.mounted
    && forall wid <- w'.mounted | wid in w'.workspaces ::
         && wid in w.workspaces
         && w'.workspaces[wid].server == w.workspaces[wid].server
         && w'.workspaces[wid].path == w.workspaces[wid].path
         && w'.workspaces[wid].mode == w.workspaces[wid].mode
  }

  lemma MountingNothingKeepsExclusive(w: World, w': World)
    requires MountExclusive(w) && MountsNothing(w, w')
    ensures MountExclusive(w')
  {
  }

  /** The same mounts, and a writable one more. */
  ghost predicate AddsMount(w: World, w': World, wid: Wid) {
    && wid !in w.mounted && w'.mounted == w.mounted + {wid}
    && wid in w'.workspaces && w'.workspaces[wid].mode == ReadWrite
    && forall v <- w.mounted ::
         (v in w'.workspaces <==> v in w.workspaces) && (v in w.workspaces ==> w'.workspaces[v] == w.workspaces[v])
  }

  lemma AddedMountSharesIff(w: World, w': World, wid: Wid)
    requires MountExclusive(w) && AddsMount(w, w', wid)
    ensures MountExclusive(w') <==> MountFree(w, w'.workspaces[wid].server, w'.workspaces[wid].path, wid)
  {
    var server, path := w'.workspaces[wid].server, w'.workspaces[wid].path;
    assert MountFree(w', server, path, wid) == MountFree(w, server, path, wid);
    if MountFree(w, server, path, wid) {
      forall a <- w'.mounted | a in w'.workspaces && w'.workspaces[a].mode == ReadWrite
        ensures MountFree(w', w'.workspaces[a].server, w'.workspaces[a].path, a)
      {
        if a != wid {
          OverlapSymmetric(w.workspaces[a].path, path);
          assert MountFree(w, w.workspaces[a].server, w.workspaces[a].path, a);
        }
      }
    }
  }

  lemma OpenKeepsMountExclusive(w: World, wid: Wid, server: string, path: Path, mode: string, env: OpenEnv)
    requires LeasesHeld(w) && MountExclusive(w) && wid !in w.workspaces && wid != ""
    ensures MountExclusive(OpenSpec(w, wid, server, path, mode, env).0)
  {
    var w' := OpenSpec(w, wid, server, path, mode, env).0;
    if w'.mounted == w.mounted {
      MountingNothingKeepsExclusive(w, w');
    } else if ModeOf(mode) == ReadWrite {
      LeaseFreeIsMountFree(w, server, path, wid);
      AddedMountSharesIff(w, w', wid);
    }
  }

  lemma LeaseFreeIsMountFree(w: World, server: string, path: Path, wid: Wid)
    requires LeasesHeld(w) && LeaseFree(w.workspaces, server, path, "")
    ensures MountFree(w, server, path, wid)
  {
  }

  lemma RemountSharesIff(w: World, wid: Wid, confirm: Wid, env: RetryEnv)
    requires LeasesHeld(w) && MountExclusive(w) && Remounts(w, DoRecover(wid, "retry", confirm, env))
    ensures MountExclusive(RecoverSpec(w, wid, "retry", confirm, env).0)
            <==> MountFree(w, w.workspaces[wid].server, w.workspaces[wid].path, wid)
  {
    AddedMountSharesIff(w, RecoverSpec(w, wid, "retry", confirm, env).0, wid);
  }

  lemma OtherRecoverKeepsMountExclusive(w: World, wid: Wid, action: string, confirm: Wid, env: RetryEnv)
    requires LeasesHeld(w) && MountExclusive(w) && !Remounts(w, DoRecover(wid, action, confirm, env))
    ensures MountExclusive(RecoverSpec(w, wid, action, confirm, env).0)
  {
    var w' := RecoverSpec(w, wid, action, confirm, env).0;
    if w' != w && w'.mounted == w.mounted {
      MountingNothingKeepsExclusive(w, w');
    }
  }

  lemma CloseMountsNothing(w: World, wid: Wid, plan: ClosePlan)
    requires LeasesHeld(w) && plan.rounds != []
    ensures MountsNothing(w, CloseSpec(w, wid, plan).0)
  {
    CloseTouchesOne(w, wid, plan);
  }

  /** For every step from a state in which files are protected: they stay protected if and only if the
      step is not a retry onto a path that another mounted writable workspace overlaps. */
  lemma StepProtectsFilesIff(w: World, step: Step)
    requires LeasesHeld(w) && FileExclusive(w) && Enabled(w, step)
    ensures FileExclusive(Next(w, step)) <==> Unshared(w, step)
  {
    var w' := Next(w, step);
    MountsProtectFiles(w);
    MountsProtectFiles(w');
    match step
    case DoOpen(wid, server, path, mode, env) => OpenKeepsMountExclusive(w, wid, server, path, mode, env);
    case DoClose(wid, plan) =>
      CloseMountsNothing(w, wid, plan);
      MountingNothingKeepsExclusive(w, w');
    case DoRecover(wid, action, confirm, env) =>
      if Remounts(w, step) {
        RemountSharesIff(w, wid, confirm, env);
      } else {
        OtherRecoverKeepsMountExclusive(w, wid, action, confirm, env);
      }
    case DoStatus(wid, probe) =>
      StatusMountsNothing(w, wid, probe);
      MountingNothingKeepsExclusive(w, w');
    case DoCleanup(_, _) => MountingNothingKeepsExclusive(w, w');
    case Host(event) =>
      HappenFrame(w, event);
      MountingNothingKeepsExclusive(w, w');
  }

  lemma StatusMountsNothing(w: World, wid: Wid, probe: Probe)
    ensures MountsNothing(w, StatusSpec(w, wid, probe).0)
  {
  }

  /** Over every run: no file is ever inside two mounted writable workspaces if and only if no retry
      mounts onto a path that another mounted writable workspace overlaps. */
  lemma {:induction false} FilesProtectedIffUnshared(w: World, steps: seq<Step>)
    requires LeasesHeld(w) && FileExclusive(w) && EnabledRun(w, steps)
    ensures FileExclusiveThroughout(w, steps) <==> UnsharedRun(w, steps)
    decreases |steps|
  {
    if steps != [] {
      StepKeepsLeases(w, steps[0]);
      StepProtectsFilesIff(w, steps[0]);
      if Unshared(w, steps[0]) {
        FilesProtectedIffUnshared(Next(w, steps[0]), steps[1..]);
      }
    }
  }

  /** The lease check is more than enough for the files. */
  lemma GuardedIsUnshared(w: World, step: Step)
    requires LeasesHeld(w) && Guarded(w, step)
    ensures Unshared(w, step)
  {
  }

  lemma {:induction false} GuardedRunIsUnshared(w: World, steps: seq<Step>)
    requires LeasesHeld(w) && EnabledRun(w, steps) && GuardedRun(w, steps)
    ensures UnsharedRun(w, steps)
    decreases |steps|
  {
    if steps != [] {
      GuardedIsUnshared(w, steps[0]);
      StepKeepsLeases(w, steps[0]);
      GuardedRunIsUnshared(Next(w, steps[0]), steps[1..]);
    }
  }

  /** In a run whose remounting retries pass the lease check, no file is ever inside two mounted writable
      workspaces. */
  lemma GuardedRunProtectsFiles(w: World, steps: seq<Step>)
    requires LeasesHeld(w) && LeaseExclusive(w) && EnabledRun(w, steps) && GuardedRun(w, steps)
    ensures FileExclusiveThroughout(w, steps)
  {
    LeasesProtectFiles(w);
    GuardedRunIsUnshared(w, steps);
    FilesProtectedIffUnshared(w, steps);
  }

  /** It is not needed for them: a lease left by a vanished mount fails the check and shares no file. */
  lemma UnsharedButUnguarded(a: Wid, b: Wid, server: string, path: Path)
    requires a != b && a != "" && b != ""
    ensures var entries := map[a := Workspace(server, path, ReadWrite, NeedsRecovery),
                               b := Workspace(server, path, ReadWrite, SyncUnknown)];
            var w := World(entries, {}, map[a := {}, b := {}], map[a := {}, b := {}], {}, {}, {}, {}, {});
            var retry := DoRecover(a, "retry", "", RetryEnv(true, true, true));
            Sound(w) && FileExclusive(w) && Unshared(w, retry) && !Guarded(w, retry)
  {
    var entries := map[a := Workspace(server, path, ReadWrite, NeedsRecovery),
                       b := Workspace(server, path, ReadWrite, SyncUnknown)];
    var w := World(entries, {}, map[a := {}, b := {}], map[a := {}, b := {}], {}, {}, {}, {}, {});
    assert Unsynced(w) == {};
    assert Blocks(entries[b], server, path);
  }

  /** Retrying from sync_pending needs no recheck: that status has held its lease all along. */
  lemma RetryFromSyncPendingIsGuarded(w: World, wid: Wid, confirm: Wid, env: RetryEnv)
    requires LeaseExclusive(w)
    requires wid in w.workspaces && w.workspaces[wid].status == SyncPending
    ensures Guarded(w, DoRecover(wid, "retry", confirm, env))
  {
  }

  const NEW_GATEWAY := World(map[], {}, map[], map[], {}, {}, {}, {}, {})
  const ALL_WELL := OpenEnv(true, true, true, true, true, true, true)

  /** Open a workspace, lose its mount, notice, open an overlapping one, retry the first. */
  function HoleSteps(a: Wid, b: Wid, server: string, path: Path, file: Path): seq<Step> {
    [DoOpen(a, server, path, "full", ALL_WELL), Host(MountLost(a)), DoStatus(a, Probe(true, true))]
    + HoleEnd(a, b, server, path, file)
  }

  function HoleEnd(a: Wid, b: Wid, server: string, path: Path, file: Path): seq<Step> {
    [DoOpen(b, server, path + file, "full", ALL_WELL), DoRecover(a, "retry", "", RetryEnv(true, true, true))]
  }

  lemma RunFirst(w: World, step: Step, rest: seq<Step>)
    requires Enabled(w, step) && EnabledRun(Next(w, step), rest)
    ensures EnabledRun(w, [step] + rest) && After(w, [step] + rest) == After(Next(w, step), rest)
  {
    assert ([step] + rest)[1..] == rest;
  }

  lemma FullOpen(w: World, wid: Wid, server: string, path: Path)
    requires wid !in w.workspaces && LeaseFree(w.workspaces, server, path, "")
    ensures var w' := OpenSpec(w, wid, server, path, "full", ALL_WELL).0;
            && w'.workspaces == w.workspaces[wid := Workspace(server, path, ReadWrite, Open)]
            && w'.mounted == w.mounted + {wid}
  {
  }

  lemma SharedFile(w: World, a: Wid, b: Wid, path: Path, file: Path)
    requires a != b && a in w.workspaces && b in w.workspaces && {a, b} <= w.mounted
    requires w.workspaces[a].mode == w.workspaces[b].mode == ReadWrite
    requires w.workspaces[a].server == w.workspaces[b].server
    requires w.workspaces[a].path == path && w.workspaces[b].path == path + file
    ensures !FileExclusive(w)
  {
    InsideIsPrefix(path + file, path);
    InsideIsPrefix(path + file, path + file);
    assert Inside(path + file, w.workspaces[a].path) && Inside(path + file, w.workspaces[b].path);
  }

  lemma HoleEnds(w: World, a: Wid, b: Wid, server: string, path: Path, file: Path)
    requires a != b && a != "" && b != ""
    requires w.workspaces == map[a := Workspace(server, path, ReadWrite, NeedsRecovery)] && w.mounted == {}
    ensures EnabledRun(w, HoleEnd(a, b, server, path, file))
    ensures !FileExclusive(After(w, HoleEnd(a, b, server, path, file)))
  {
    var s1 := DoOpen(b, server, path + file, "full", ALL_WELL);
    var s2 := DoRecover(a, "retry", "", RetryEnv(true, true, true));
    var w1 := Next(w, s1);
    FullOpen(w, b, server, path + file);
    var w2 := Next(w1, s2);
    assert w2.mounted == {b} + {a} && w2.workspaces == Restated(w1, a, Recovering);
    SharedFile(w2, a, b, path, file);
    assert After(w2, []) == w2;
    RunFirst(w1, s2, []);
    RunFirst(w, s1, [s2] + []);
    assert [s1] + ([s2] + []) == HoleEnd(a, b, server, path, file);
  }

  lemma HoleStarts(a: Wid, b: Wid, server: string, path: Path, file: Path)
    requires a != b && a != "" && b != ""
    ensures EnabledRun(NEW_GATEWAY, HoleSteps(a, b, server, path, file))
    ensures !FileExclusive(After(NEW_GATEWAY, HoleSteps(a, b, server, path, file)))
  {
    var s1, s2, s3 := DoOpen(a, server, path, "full", ALL_WELL), Host(MountLost(a)), DoStatus(a, Probe(true, true));
    var end := HoleEnd(a, b, server, path, file);
    var w1 := Next(NEW_GATEWAY, s1);
    FullOpen(NEW_GATEWAY, a, server, path);
    var w2 := Next(w1, s2);
    var w3 := Next(w2, s3);
    assert w3.workspaces == map[a := Workspace(server, path, ReadWrite, NeedsRecovery)];
    HoleEnds(w3, a, b, server, path, file);
    RunFirst(w2, s3, end);
    RunFirst(w1, s2, [s3] + end);
    RunFirst(NEW_GATEWAY, s1, [s2] + ([s3] + end));
    assert [s1] + ([s2] + ([s3] + end)) == HoleSteps(a, b, server, path, file);
  }

  lemma NewGatewayIsSound()
    ensures Sound(NEW_GATEWAY) && LeaseExclusive(NEW_GATEWAY) && FileExclusive(NEW_GATEWAY)
  {
    assert Unsynced(NEW_GATEWAY) == {};
  }

  /** The unguarded retry is a real hole: this run mounts one file writable twice. */
  lemma UnguardedRetryMountsTwice(a: Wid, b: Wid, server: string, path: Path, file: Path)
    requires a != b && a != "" && b != ""
    ensures var steps := HoleSteps(a, b, server, path, file);
            && EnabledRun(NEW_GATEWAY, steps)
            && !FileExclusive(After(NEW_GATEWAY, steps))
            && !GuardedRun(NEW_GATEWAY, steps) && !UnsharedRun(NEW_GATEWAY, steps)
  {
    var steps := HoleSteps(a, b, server, path, file);
    NewGatewayIsSound();
    HoleStarts(a, b, server, path, file);
    SharedAtEndIsUnguarded(NEW_GATEWAY, steps);
    FilesProtectedIffUnshared(NEW_GATEWAY, steps);
    if FileExclusiveThroughout(NEW_GATEWAY, steps) {
      FileExclusiveAtEnd(NEW_GATEWAY, steps);
    }
  }

  lemma SharedAtEndIsUnguarded(w: World, steps: seq<Step>)
    requires LeasesHeld(w) && LeaseExclusive(w) && EnabledRun(w, steps) && !FileExclusive(After(w, steps))
    ensures !GuardedRun(w, steps)
  {
    if GuardedRun(w, steps) {
      GuardedRunProtectsFiles(w, steps);
      FileExclusiveAtEnd(w, steps);
      assert false;
    }
  }

  lemma {:induction false} FileExclusiveAtEnd(w: World, steps: seq<Step>)
    requires EnabledRun(w, steps) && FileExclusiveThroughout(w, steps)
    ensures FileExclusive(After(w, steps))
    decreases |steps|
  {
    if steps != [] {
      FileExclusiveAtEnd(Next(w, steps[0]), steps[1..]);
    }
  }

  // ---------------------------------------------------------------- no unsynced write is lost

  /** Every save goes to a workspace that is mounted at that moment. */
  predicate MountedSaves(w: World, events: seq<Event>)
    decreases |events|
  {
    events == [] ||
    ((events[0].UserWrite? && events[0].wid in w.workspaces ==> events[0].wid in w.mounted)
     && MountedSaves(Happen(w, events[0]), events[1..]))
  }

  predicate MountedRounds(w: World, rounds: seq<Round>)
    decreases |rounds|
  {
    rounds == [] ||
    (MountedSaves(w, rounds[0].events) && MountedRounds(HappenAll(w, rounds[0].events), rounds[1..]))
  }

  /** All saves go to mounted workspaces, and none to the workspace being closed between the last queue
      read and the unmount. */
  predicate Quiet(w: World, step: Step)
    requires Enabled(w, step)
  {
    match step
    case Host(event) => MountedSaves(w, [event])
    case DoClose(wid, plan) =>
      wid in w.mounted && wid in w.workspaces ==>
        && (forall e <- plan.late :: !(e.UserWrite? && e.wid == wid))
        && if w.workspaces[wid].mode == ReadOnly then MountedSaves(w, plan.late)
           else
             var d := DrainQueue(w, wid, plan.rounds);
             MountedRounds(w, plan.rounds) && (d.Drained? ==> MountedSaves(d.after, plan.late))
    case _ => true
  }

  predicate QuietRun(w: World, steps: seq<Step>)
    requires EnabledRun(w, steps)
    decreases |steps|
  {
    steps == [] || (Quiet(w, steps[0]) && QuietRun(Next(w, steps[0]), steps[1..]))
  }

  lemma {:induction false} QuietEventsKeepCacheEmpty(w: World, wid: Wid, events: seq<Event>)
    requires CacheOf(w, wid) == {}
    requires forall e <- events :: !(e.UserWrite? && e.wid == wid)
    ensures CacheOf(HappenAll(w, events), wid) == {}
    decreases |events|
  {
    if events != [] {
      QuietEventsKeepCacheEmpty(Happen(w, events[0]), wid, events[1..]);
    }
  }

  lemma {:induction false} DrainedMeansEmpty(w: World, wid: Wid, rounds: seq<Round>)
    requires rounds != []
    ensures DrainQueue(w, wid, rounds).Drained? ==> CacheOf(DrainQueue(w, wid, rounds).after, wid) == {}
    decreases |rounds|
  {
    if |rounds| > 1 {
      DrainedMeansEmpty(HappenAll(w, rounds[0].events), wid, rounds[1..]);
    }
  }

  lemma {:induction false} MountedSavesExposeNothing(w: World, events: seq<Event>)
    requires MountedSaves(w, events)
    ensures HappenAll(w, events).exposed == w.exposed
    decreases |events|
  {
    if events != [] {
      MountedSavesExposeNothing(Happen(w, events[0]), events[1..]);
    }
  }

  lemma {:induction false} MountedRoundsExposeNothing(w: World, wid: Wid, rounds: seq<Round>)
    requires rounds != [] && MountedRounds(w, rounds)
    ensures DrainQueue(w, wid, rounds).after.exposed == w.exposed
    decreases |rounds|
  {
    MountedSavesExposeNothing(w, rounds[0].events);
    if |rounds| > 1 {
      MountedRoundsExposeNothing(HappenAll(w, rounds[0].events), wid, rounds[1..]);
    }
  }

  lemma QuietUnmount(w: World, wid: Wid, plan: ClosePlan)
    requires wid in w.workspaces && CacheOf(w, wid) == {} && MountedSaves(w, plan.late)
    requires forall e <- plan.late :: !(e.UserWrite? && e.wid == wid)
    ensures UnmountSpec(w, wid, plan).0.exposed == w.exposed && CacheOf(UnmountSpec(w, wid, plan).0, wid) == {}
  {
    QuietEventsKeepCacheEmpty(w, wid, plan.late);
    MountedSavesExposeNothing(w, plan.late);
  }

  /** A successful close has read the queue empty, so a quiet one leaves nothing unsynced behind. */
  lemma QuietCloseLeavesCacheEmpty(w: World, wid: Wid, plan: ClosePlan)
    requires Sound(w) && Enabled(w, DoClose(wid, plan)) && Quiet(w, DoClose(wid, plan))
    ensures CloseSpec(w, wid, plan).0.exposed == w.exposed
    ensures CloseSpec(w, wid, plan).1.Ok? ==> CacheOf(CloseSpec(w, wid, plan).0, wid) == {}
  {
    if wid in w.workspaces && wid in w.mounted {
      if w.workspaces[wid].mode == ReadOnly {
        QuietUnmount(w, wid, plan);
      } else {
        MountedRoundsExposeNothing(w, wid, plan.rounds);
        DrainedMeansEmpty(w, wid, plan.rounds);
        DrainFrame(w, wid, plan.rounds);
        if DrainQueue(w, wid, plan.rounds).Drained? {
          QuietUnmount(DrainQueue(w, wid, plan.rounds).after, wid, plan);
        }
      }
    }
  }

  lemma QuietStepExposesNothing(w: World, step: Step)
    requires Sound(w) && Enabled(w, step) && Quiet(w, step)
    ensures Next(w, step).exposed == w.exposed
  {
    if step.DoClose? {
      QuietCloseLeavesCacheEmpty(w, step.wid, step.plan);
    } else if step.Host? {
      MountedSavesExposeNothing(w, [step.event]);
      assert HappenAll(w, [step.event]) == Happen(w, step.event);
    }
  }

  /** Over every quiet run, cleanup never deletes an unsynced write: each write is on the server, still
      cached, or went with a discard. */
  lemma {:induction false} QuietRunLosesNothing(w: World, steps: seq<Step>)
    requires Sound(w) && w.exposed == {} && EnabledRun(w, steps) && QuietRun(w, steps)
    ensures After(w, steps).dropped == {}
    ensures After(w, steps).written
            == After(w, steps).remote + Unsynced(After(w, steps)) + After(w, steps).discarded
    ensures forall wid <- After(w, steps).workspaces :: LocalOf(After(w, steps), wid) == {}
    decreases |steps|
  {
    if steps != [] {
      StepKeepsSound(w, steps[0]);
      QuietStepExposesNothing(w, steps[0]);
      QuietRunLosesNothing(Next(w, steps[0]), steps[1..]);
    }
  }

  // ---------------------------------------------------------------- exactly when a write is deleted

  /** A cleanup that goes ahead. */
  predicate Cleans(step: Step) {
    step.DoCleanup? && step.apply && step.confirmation == CLEANUP_CONFIRMATION
  }

  /** The step is no cleanup, or every cache and every bare mount directory it would delete is empty. */
  predicate Spares(w: World, step: Step) {
    Cleans(step) ==> forall wid <- Removable(w) :: HeldOf(w, wid) == {}
  }

  predicate SparingRun(w: World, steps: seq<Step>)
    requires EnabledRun(w, steps)
    decreases |steps|
  {
    steps == [] || (Spares(w, steps[0]) && SparingRun(Next(w, steps[0]), steps[1..]))
  }

  lemma CloseKeepsDropped(w: World, wid: Wid, plan: ClosePlan)
    requires plan.rounds != []
    ensures CloseSpec(w, wid, plan).0.dropped == w.dropped && CloseSpec(w, wid, plan).0.discarded == w.discarded
  {
    HappenAllFrame(w, plan.late);
    DrainFrame(w, wid, plan.rounds);
    HappenAllFrame(DrainQueue(w, wid, plan.rounds).after, plan.late);
  }

  lemma CleanupDropsHeld(w: World)
    requires Sound(w)
    ensures var w' := Forget(w, Removable(w));
            w'.dropped == w.dropped <==> forall wid <- Removable(w) :: HeldOf(w, wid) == {}
  {
    var w' := Forget(w, Removable(w));
    forall wid, x | wid in Removable(w) && x in HeldOf(w, wid) ensures x in w'.dropped && x !in w.dropped {
      assert HeldOf(w, wid) !! Settled(w);
    }
  }

  /** For every step: it deletes an unsynced write if and only if it is a cleanup that goes ahead while
      something is left in a cache or a bare mount directory that it removes. */
  lemma StepDropsNothingIff(w: World, step: Step)
    requires Sound(w) && Enabled(w, step)
    ensures Next(w, step).dropped == w.dropped <==> Spares(w, step)
    ensures w.dropped <= Next(w, step).dropped
  {
    if step.DoClose? {
      CloseKeepsDropped(w, step.wid, step.plan);
    } else if Cleans(step) {
      CleanupDropsHeld(w);
    }
  }

  lemma {:induction false} RunOnlyAddsDropped(w: World, steps: seq<Step>)
    requires Sound(w) && EnabledRun(w, steps)
    ensures w.dropped <= After(w, steps).dropped
    decreases |steps|
  {
    if steps != [] {
      StepDropsNothingIff(w, steps[0]);
      StepKeepsSound(w, steps[0]);
      RunOnlyAddsDropped(Next(w, steps[0]), steps[1..]);
    }
  }

  /** Over every run: no unsynced write is deleted if and only if each cleanup that goes ahead finds
      empty every cache and every bare mount directory it removes. */
  lemma {:induction false} RunDropsNothingIff(w: World, steps: seq<Step>)
    requires Sound(w) && EnabledRun(w, steps)
    ensures After(w, steps).dropped == w.dropped <==> SparingRun(w, steps)
    decreases |steps|
  {
    if steps != [] {
      StepDropsNothingIff(w, steps[0]);
      StepKeepsSound(w, steps[0]);
      if Spares(w, steps[0]) {
        RunDropsNothingIff(Next(w, steps[0]), steps[1..]);
      } else {
        RunOnlyAddsDropped(Next(w, steps[0]), steps[1..]);
      }
    }
  }

  /** What happens before the mount is lost, if it is. */
  function UntilLost(events: seq<Event>, wid: Wid): seq<Event> {
    if events == [] || events[0] == MountLost(wid) then [] else [events[0]] + UntilLost(events[1..], wid)
  }

  predicate NeverUploaded(live: seq<Event>, wid: Wid, x: Write) {
    Uploaded(wid, x) !in live
  }

  predicate LastWrittenAt(live: seq<Event>, i: nat, wid: Wid, x: Write) {
    i < |live| && live[i] == UserWrite(wid, x) && NeverUploaded(live[i + 1..], wid, x)
  }

  /** A write made there, or held from the start, that no later upload takes away. */
  predicate LeftOver(live: seq<Event>, wid: Wid, x: Write, held: bool) {
    (held && NeverUploaded(live, wid, x)) || exists i | 0 <= i < |live| :: LastWrittenAt(live, i, wid, x)
  }

  lemma LeftOverAfterFirst(e: Event, rest: seq<Event>, wid: Wid, x: Write, held: bool)
    ensures LeftOver([e] + rest, wid, x, held)
            <==> LeftOver(rest, wid, x, (held && e != Uploaded(wid, x)) || e == UserWrite(wid, x))
  {
    var live := [e] + rest;
    assert live[1..] == rest;
    if i :| 0 <= i < |live| && LastWrittenAt(live, i, wid, x) && i > 0 {
      assert live[i + 1..] == rest[i..];
      assert LastWrittenAt(rest, i - 1, wid, x);
    }
    if i :| 0 <= i < |rest| && LastWrittenAt(rest, i, wid, x) {
      assert live[i + 2..] == rest[i + 1..];
      assert LastWrittenAt(live, i + 1, wid, x);
    }
    if e == UserWrite(wid, x) && NeverUploaded(rest, wid, x) {
      assert LastWrittenAt(live, 0, wid, x);
    }
  }

  lemma {:induction false} UnmountedCacheStays(w: World, wid: Wid, events: seq<Event>)
    requires wid !in w.mounted
    ensures CacheOf(HappenAll(w, events), wid) == CacheOf(w, wid)
    decreases |events|
  {
    if events != [] {
      UnmountedCacheStays(Happen(w, events[0]), wid, events[1..]);
    }
  }

  /** What a mounted writable workspace holds after any events. */
  lemma {:induction false} CacheAfterEvents(w: World, wid: Wid, events: seq<Event>, x: Write)
    requires wid in w.mounted && wid in w.workspaces && w.workspaces[wid].mode == ReadWrite
    ensures x in CacheOf(HappenAll(w, events), wid)
            <==> LeftOver(UntilLost(events, wid), wid, x, x in CacheOf(w, wid))
    decreases |events|
  {
    if events != [] {
      var w1 := Happen(w, events[0]);
      if events[0] == MountLost(wid) {
        UnmountedCacheStays(w1, wid, events[1..]);
      } else {
        CacheAfterEvents(w1, wid, events[1..], x);
        LeftOverAfterFirst(events[0], UntilLost(events[1..], wid), wid, x, x in CacheOf(w, wid));
      }
    }
  }

  lemma UnmountKeepsCache(w: World, wid: Wid, plan: ClosePlan)
    requires wid in w.workspaces
    ensures CacheOf(UnmountSpec(w, wid, plan).0, wid) == CacheOf(HappenAll(w, plan.late), wid)
  {
  }

  /** Seen from a close of a writable workspace that succeeds: it leaves unsynced exactly the writes made
      after its last read of the queue, on a mount still there, that were not uploaded any more. */
  lemma CloseLeavesExactly(w: World, wid: Wid, plan: ClosePlan, x: Write)
    requires Sound(w) && plan.rounds != [] && CloseSpec(w, wid, plan).1.Ok?
    requires wid in w.workspaces && w.workspaces[wid].mode == ReadWrite
    ensures wid in w.mounted && DrainQueue(w, wid, plan.rounds).Drained?
    ensures x in CacheOf(CloseSpec(w, wid, plan).0, wid)
            <==> && wid in DrainQueue(w, wid, plan.rounds).after.mounted
                 && LeftOver(UntilLost(plan.late, wid), wid, x, false)
  {
    var drained := DrainQueue(w, wid, plan.rounds).after;
    DrainFrame(w, wid, plan.rounds);
    DrainedMeansEmpty(w, wid, plan.rounds);
    UnmountKeepsCache(drained, wid, plan);
    if wid in drained.mounted {
      CacheAfterEvents(drained, wid, plan.late, x);
    } else {
      UnmountedCacheStays(drained, wid, plan.late);
    }
  }

  /** A step discards an unsynced write only as a discard that repeats the exact identifier of an
      unmounted workspace, and then exactly that workspace's cache goes. */
  lemma OnlyConfirmedDiscardDiscards(w: World, step: Step)
    requires Sound(w) && Enabled(w, step) && Next(w, step).discarded != w.discarded
    ensures step.DoRecover? && step.action == "discard" && step.confirm == step.wid
    ensures step.wid in w.workspaces && step.wid !in w.mounted && Recoverable(w.workspaces[step.wid].status)
    ensures Next(w, step).discarded == w.discarded + w.cache[step.wid]
    ensures Next(w, step).cache == w.cache[step.wid := {}] && Next(w, step).local == w.local
  {
    if step.DoClose? {
      CloseKeepsDropped(w, step.wid, step.plan);
      assert false;
    } else if step.Host? {
      HappenFrame(w, step.event);
      assert false;
    } else if step.DoRecover? {
      RecoverDiscards(w, step.wid, step.action, step.confirm, step.retryEnv);
    }
  }

  lemma RecoverDiscards(w: World, wid: Wid, action: string, confirm: Wid, env: RetryEnv)
    requires w.cache.Keys == w.workspaces.Keys
    requires RecoverSpec(w, wid, action, confirm, env).0.discarded != w.discarded
    ensures action == "discard" && confirm == wid
    ensures wid in w.workspaces && wid !in w.mounted && Recoverable(w.workspaces[wid].status)
    ensures var w' := RecoverSpec(w, wid, action, confirm, env).0;
            && w'.discarded == w.discarded + w.cache[wid]
            && w'.cache == w.cache[wid := {}] && w'.local == w.local
  {
  }

  function OneWorkspace(wid: Wid, item: Workspace, mounted: set<Wid>): World {
    World(map[wid := item], mounted, map[wid := {}], map[wid := {}], {}, {}, {}, {}, {})
  }

  lemma OneWorkspaceIsSound(wid: Wid, item: Workspace, mounted: set<Wid>)
    requires wid != "" && mounted <= {wid} && (wid in mounted ==> HoldsLease(item.status))
    ensures Sound(OneWorkspace(wid, item, mounted))
  {
    assert Unsynced(OneWorkspace(wid, item, mounted)) == {};
  }

  lemma OneLateWriteIsFresh(wid: Wid, x: Write)
    ensures FreshPlan({}, [Round([], true)], [UserWrite(wid, x)])
  {
    var rounds, late := [Round([], true)], [UserWrite(wid, x)];
    assert late[1..] == [] && Fresh({}, late);
    assert rounds[1..] == [] && {} + WriteIds([]) == {} && FreshPlan({}, [], late);
  }

  /** A late write is lost: it lands between the empty read and the unmount, and the next cleanup deletes it. */
  lemma LateWriteIsLost(wid: Wid, server: string, path: Path, x: Write)
    requires wid != ""
    ensures var w := OneWorkspace(wid, Workspace(server, path, ReadWrite, Open), {wid});
            var plan := ClosePlan([Round([], true)], [UserWrite(wid, x)], true, true);
            && Sound(w) && Enabled(w, DoClose(wid, plan))
            && x in CleanupSpec(CloseSpec(w, wid, plan).0, true, CLEANUP_CONFIRMATION).0.dropped
            && x !in CleanupSpec(CloseSpec(w, wid, plan).0, true, CLEANUP_CONFIRMATION).0.remote
  {
    var w := OneWorkspace(wid, Workspace(server, path, ReadWrite, Open), {wid});
    OneWorkspaceIsSound(wid, Workspace(server, path, ReadWrite, Open), {wid});
    var plan := ClosePlan([Round([], true)], [UserWrite(wid, x)], true, true);
    OneLateWriteIsFresh(wid, x);
    assert HappenAll(w, []) == w;
    assert DrainQueue(w, wid, plan.rounds) == Drained(w);
    var w1 := Happen(w, UserWrite(wid, x));
    assert HappenAll(w, plan.late) == HappenAll(w1, []) == w1;
    var w2 := CloseSpec(w, wid, plan).0;
    assert w2.workspaces[wid].status == Closed && wid !in w2.mounted && CacheOf(w2, wid) == {x};
    assert wid in Removable(w2) && x in HeldOf(w2, wid);
  }

  /** So is a file saved under the mount path after the close, when nothing is mounted there. */
  lemma LocalSaveIsLost(wid: Wid, server: string, path: Path, x: Write)
    requires wid != ""
    ensures var w := OneWorkspace(wid, Workspace(server, path, ReadWrite, Closed), {});
            var save := Host(UserWrite(wid, x));
            && Sound(w) && Enabled(w, save) && !Quiet(w, save)
            && x in Forget(Next(w, save), Removable(Next(w, save))).dropped
            && x !in Forget(Next(w, save), Removable(Next(w, save))).remote
            && !Spares(Next(w, save), DoCleanup(true, CLEANUP_CONFIRMATION))
  {
    var w := OneWorkspace(wid, Workspace(server, path, ReadWrite, Closed), {});
    OneWorkspaceIsSound(wid, Workspace(server, path, ReadWrite, Closed), {});
    var w1 := Happen(w, UserWrite(wid, x));
    assert wid in Removable(w1) && x in HeldOf(w1, wid);
  }

  // ---------------------------------------------------------------- a dead end

  predicate Vanished(w: World, wid: Wid) {
    wid in w.workspaces && w.workspaces[wid].status == SyncUnknown && wid !in w.mounted
  }

  /** sync_unknown with a vanished mount: no step but a close of this workspace changes its entry. */
  lemma VanishedUnknownOnlyLeavesByClose(w: World, wid: Wid, step: Step)
    requires LeasesHeld(w) && Enabled(w, step) && Vanished(w, wid)
    ensures wid in Next(w, step).workspaces && wid !in Next(w, step).mounted
    ensures Next(w, step).workspaces[wid] == w.workspaces[wid] <==> !(step.DoClose? && step.wid == wid)
  {
    match step
    case DoClose(v, plan) => CloseTouchesOne(w, v, plan);
    case DoStatus(v, probe) => assert Probed(w.workspaces[wid], false, probe, CacheOf(w, wid)) == SyncUnknown;
    case DoOpen(_, _, _, _, _) =>
    case DoRecover(v, action, confirm, env) => RecoverSparesVanished(w, wid, v, action, confirm, env);
    case DoCleanup(_, _) => assert wid !in Removable(w);
    case Host(event) => HappenFrame(w, event);
  }

  lemma RecoverSparesVanished(w: World, wid: Wid, v: Wid, action: string, confirm: Wid, env: RetryEnv)
    requires Vanished(w, wid)
    ensures var w' := RecoverSpec(w, v, action, confirm, env).0;
            wid in w'.workspaces && w'.workspaces[wid] == w.workspaces[wid] && wid !in w'.mounted
  {
  }

  /** Over every run without that close the entry stays as it is, and a writable one refuses every
      overlapping writable open on its server. */
  lemma {:induction false} VanishedUnknownIsDeadEnd(w: World, wid: Wid, steps: seq<Step>)
    requires LeasesHeld(w) && EnabledRun(w, steps) && Vanished(w, wid)
    requires forall step <- steps :: !(step.DoClose? && step.wid == wid)
    ensures Vanished(After(w, steps), wid) && After(w, steps).workspaces[wid] == w.workspaces[wid]
    ensures w.workspaces[wid].mode == ReadWrite ==>
              forall path | Overlap(path, w.workspaces[wid].path) ::
                !LeaseFree(After(w, steps).workspaces, w.workspaces[wid].server, path, "")
    decreases |steps|
  {
    if steps != [] {
      assert steps[0] in steps && forall later <- steps[1..] :: later in steps;
      StepKeepsLeases(w, steps[0]);
      VanishedUnknownOnlyLeavesByClose(w, wid, steps[0]);
      VanishedUnknownIsDeadEnd(Next(w, steps[0]), wid, steps[1..]);
    } else if w.workspaces[wid].mode == ReadWrite {
      forall path | Overlap(path, w.workspaces[wid].path)
        ensures !LeaseFree(w.workspaces, w.workspaces[wid].server, path, "")
      {
        assert Blocks(w.workspaces[wid], w.workspaces[wid].server, path);
      }
    }
  }
}
