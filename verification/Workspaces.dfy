/** The workspace gateway: leases, mounts, write-back caches and the operations on them. */
module Workspaces {
  import opened Options
  import opened RemotePaths

  type Wid = string
  type Write = nat

  const CLEANUP_CONFIRMATION := "CLEANUP-CLOSED-WORKSPACES"

  datatype Mode = ReadWrite | ReadOnly

  datatype Status = Open | Recovering | SyncPending | SyncUnknown | NeedsRecovery | Closed | Abandoned

  datatype Workspace = Workspace(server: string, path: Path, mode: Mode, status: Status)

  datatype ErrorCode =
    | InvalidMode | PathRejected | ReadDenied | WriteDenied | Unsupported | KeyNotReady
    | WriteLeaseConflict | SpaceBlocked | MountFailed | WorkspaceNotFound | RecoveryRequired
    | SyncStatusUnavailable | StillSyncing | UnmountFailed | InvalidAction | NotRecoverable
    | ConfirmMismatch | StillMounted | RecoveryMountFailed | ConfirmRequired

  datatype Reply = Ok | Err(code: ErrorCode)

  /** The gateway's saved entries together with the host they describe. A write made where nothing is mounted
      lands in the bare mount directory, local to the host. The last four fields only observe: every write
      ever made, those discarded on request, those deleted by cleanup, and those that nothing will upload:
      still unsynced when a close succeeded, or local. */
  datatype World = World(
    workspaces: map<Wid, Workspace>,
    mounted: set<Wid>,
    cache: map<Wid, set<Write>>,
    local: map<Wid, set<Write>>,
    remote: set<Write>,
    written: set<Write>,
    discarded: set<Write>,
    dropped: set<Write>,
    exposed: set<Write>)

  /** What the host can do between two steps of the gateway. */
  datatype Event = UserWrite(wid: Wid, data: Write) | Uploaded(wid: Wid, data: Write) | MountLost(wid: Wid)

  /** Answers of the environment to the checks of open(). */
  datatype OpenEnv = OpenEnv(pathOk: bool, readable: bool, writable: bool, capable: bool,
                             keyReady: bool, spaceOk: bool, mountOk: bool)

  /** Which of the two remote-control reads of a status probe answered. */
  datatype Probe = Probe(statsUp: bool, queueUp: bool)

  /** One turn of close()'s polling loop: what the host did before it, and whether the queue could be read. */
  datatype Round = Round(events: seq<Event>, rcUp: bool)

  /** A whole close(): the rounds until the deadline, what happens between the last read and the
      unmount, whether an unmount command reported success and whether the mount really went away. */
  datatype ClosePlan = ClosePlan(rounds: seq<Round>, late: seq<Event>, unmountOk: bool, gone: bool)

  datatype RetryEnv = RetryEnv(keyReady: bool, pathOk: bool, mountOk: bool)

  predicate HoldsLease(status: Status) {
    status in {Open, Recovering, SyncPending, SyncUnknown}
  }

  predicate Recoverable(status: Status) {
    status in {NeedsRecovery, SyncPending}
  }

  predicate Finished(status: Status) {
    status in {Closed, Abandoned}
  }

  /** The entry that makes _lease_conflict refuse a candidate. */
  predicate Blocks(item: Workspace, server: string, path: Path) {
    item.server == server && item.mode == ReadWrite && HoldsLease(item.status) && Overlap(path, item.path)
  }

  predicate LeaseFree(workspaces: map<Wid, Workspace>, server: string, path: Path, self: Wid) {
    forall wid <- workspaces :: wid != self ==> !Blocks(workspaces[wid], server, path)
  }

  function CacheOf(w: World, wid: Wid): set<Write> {
    if wid in w.cache then w.cache[wid] else {}
  }

  function LocalOf(w: World, wid: Wid): set<Write> {
    if wid in w.local then w.local[wid] else {}
  }

  /** What is kept under a workspace's own directory. */
  function HeldOf(w: World, wid: Wid): set<Write> {
    CacheOf(w, wid) + LocalOf(w, wid)
  }

  function Happen(w: World, e: Event): World {
    match e
    case UserWrite(wid, x) =>
      if wid !in w.workspaces then w
      else if wid !in w.mounted then
        w.(local := w.local[wid := LocalOf(w, wid) + {x}], written := w.written + {x}, exposed := w.exposed + {x})
      else if w.workspaces[wid].mode == ReadWrite then
        w.(cache := w.cache[wid := CacheOf(w, wid) + {x}], written := w.written + {x})
      else w
    case Uploaded(wid, x) =>
      if wid in w.mounted && x in CacheOf(w, wid) then
        w.(cache := w.cache[wid := CacheOf(w, wid) - {x}], remote := w.remote + {x})
      else w
    case MountLost(wid) => w.(mounted := w.mounted - {wid})
  }

  function HappenAll(w: World, events: seq<Event>): World
    decreases |events|
  {
    if events == [] then w else HappenAll(Happen(w, events[0]), events[1..])
  }

  function WithStatus(w: World, wid: Wid, status: Status): World
    requires wid in w.workspaces
  {
    w.(workspaces := w.workspaces[wid := w.workspaces[wid].(status := status)])
  }

  function ModeOf(mode: string): Mode {
    if mode == "full" then ReadWrite else ReadOnly
  }

  function OpenSpec(w: World, wid: Wid, server: string, path: Path, mode: string, env: OpenEnv): (World, Reply) {
    var requested := ModeOf(mode);
    if mode !in {"full", "read-only"} then (w, Err(InvalidMode))
    else if !env.pathOk then (w, Err(PathRejected))
    else if !env.readable then (w, Err(ReadDenied))
    else if requested == ReadWrite && !env.writable then (w, Err(WriteDenied))
    else if !env.capable then (w, Err(Unsupported))
    else if !env.keyReady then (w, Err(KeyNotReady))
    else if requested == ReadWrite && !LeaseFree(w.workspaces, server, path, "") then (w, Err(WriteLeaseConflict))
    else if requested == ReadWrite && !env.spaceOk then (w, Err(SpaceBlocked))
    else if !env.mountOk then
      (w.(workspaces := w.workspaces[wid := Workspace(server, path, requested, NeedsRecovery)],
          cache := w.cache[wid := {}],
          local := w.local[wid := {}]), Err(MountFailed))
    else
      (w.(workspaces := w.workspaces[wid := Workspace(server, path, requested, Open)],
          cache := w.cache[wid := {}],
          local := w.local[wid := {}],
          mounted := w.mounted + {wid}), Ok)
  }

  /** The status a probe reports: an unreadable queue is never taken for an empty one. */
  function Probed(item: Workspace, mounted: bool, probe: Probe, cached: set<Write>): Status {
    if item.status in {Open, Recovering, SyncPending} && !mounted then NeedsRecovery
    else if mounted && item.mode == ReadWrite && !(probe.statsUp && probe.queueUp) then SyncUnknown
    else if mounted && probe.queueUp && cached != {} then SyncPending
    else if mounted then Open
    else item.status
  }

  function StatusSpec(w: World, wid: Wid, probe: Probe): (World, Reply) {
    if wid !in w.workspaces then (w, Err(WorkspaceNotFound))
    else (WithStatus(w, wid, Probed(w.workspaces[wid], wid in w.mounted, probe, CacheOf(w, wid))), Ok)
  }

  datatype Drain = Drained(after: World) | Unreadable(after: World) | Pending(after: World)

  /** close()'s polling loop; the last round is the one the deadline falls in. */
  function DrainQueue(w: World, wid: Wid, rounds: seq<Round>): Drain
    requires rounds != []
    decreases |rounds|
  {
    var w1 := HappenAll(w, rounds[0].events);
    if !rounds[0].rcUp then Unreadable(w1)
    else if CacheOf(w1, wid) == {} then Drained(w1)
    else if |rounds| == 1 then Pending(w1)
    else DrainQueue(w1, wid, rounds[1..])
  }

  function UnmountSpec(w: World, wid: Wid, plan: ClosePlan): (World, Reply)
    requires wid in w.workspaces
  {
    var w1 := HappenAll(w, plan.late);
    var w2 := if plan.gone then w1.(mounted := w1.mounted - {wid}) else w1;
    if wid !in w2.workspaces then (w2, Err(WorkspaceNotFound))
    else if !plan.unmountOk || wid in w2.mounted then (WithStatus(w2, wid, SyncPending), Err(UnmountFailed))
    else (WithStatus(w2, wid, Closed).(exposed := w2.exposed + CacheOf(w2, wid)), Ok)
  }

  function CloseSpec(w: World, wid: Wid, plan: ClosePlan): (World, Reply)
    requires plan.rounds != []
  {
    if wid !in w.workspaces then (w, Err(WorkspaceNotFound))
    else if wid !in w.mounted then
      (if Finished(w.workspaces[wid].status) then w else WithStatus(w, wid, NeedsRecovery), Err(RecoveryRequired))
    else if w.workspaces[wid].mode == ReadOnly then UnmountSpec(w, wid, plan)
    else
      var d := DrainQueue(w, wid, plan.rounds);
      DrainKeepsEntries(w, wid, plan.rounds);
      match d
      case Unreadable(w1) => (w1, Err(SyncStatusUnavailable))
      case Pending(w1) => (WithStatus(w1, wid, SyncPending), Err(StillSyncing))
      case Drained(w1) => UnmountSpec(w1, wid, plan)
  }

  function RecoverSpec(w: World, wid: Wid, action: string, confirm: Wid, env: RetryEnv): (World, Reply) {
    if action !in {"list", "retry", "keep", "discard"} then (w, Err(InvalidAction))
    else if wid == "" || action == "list" then (w, Ok)
    else if wid !in w.workspaces || !Recoverable(w.workspaces[wid].status) then (w, Err(NotRecoverable))
    else if action == "keep" then (w, Ok)
    else if action == "discard" then
      if confirm != wid then (w, Err(ConfirmMismatch))
      else if wid in w.mounted then (w, Err(StillMounted))
      else (WithStatus(w, wid, Abandoned).(cache := w.cache[wid := {}],
                                           discarded := w.discarded + CacheOf(w, wid)), Ok)
    else if !env.keyReady then (w, Err(KeyNotReady))
    else if !env.pathOk then (w, Err(PathRejected))
    else if wid in w.mounted then (w, Err(StillMounted))
    else if !env.mountOk then (WithStatus(w, wid, NeedsRecovery), Err(RecoveryMountFailed))
    else (WithStatus(w, wid, Recovering).(mounted := w.mounted + {wid}), Ok)
  }

  function Removable(w: World): set<Wid> {
    set wid <- w.workspaces | Finished(w.workspaces[wid].status) && wid !in w.mounted
  }

  function Forget(w: World, doomed: set<Wid>): World {
    w.(workspaces := w.workspaces - doomed,
       cache := w.cache - doomed,
       local := w.local - doomed,
       dropped := w.dropped + (set wid, x | wid in doomed && x in HeldOf(w, wid) :: x))
  }

  function CleanupSpec(w: World, apply: bool, confirm: string): (World, Reply) {
    if !apply then (w, Ok)
    else if confirm != CLEANUP_CONFIRMATION then (w, Err(ConfirmRequired))
    else (Forget(w, Removable(w)), Ok)
  }

  lemma {:induction false} HappenAllKeepsEntries(w: World, events: seq<Event>)
    ensures HappenAll(w, events).workspaces == w.workspaces
    decreases |events|
  {
    if events != [] {
      HappenAllKeepsEntries(Happen(w, events[0]), events[1..]);
    }
  }

  lemma {:induction false} DrainKeepsEntries(w: World, wid: Wid, rounds: seq<Round>)
    requires rounds != []
    ensures DrainQueue(w, wid, rounds).after.workspaces == w.workspaces
    decreases |rounds|
  {
    var w1 := HappenAll(w, rounds[0].events);
    HappenAllKeepsEntries(w, rounds[0].events);
    if |rounds| > 1 {
      DrainKeepsEntries(w1, wid, rounds[1..]);
    }
  }

  /** The gateway with its state file, on its host. */
  class WorkspaceGateway {
    var workspaces: map<Wid, Workspace>
    var mounted: set<Wid>
    var cache: map<Wid, set<Write>>
    var local: map<Wid, set<Write>>
    var remote: set<Write>
    ghost var written: set<Write>
    ghost var discarded: set<Write>
    ghost var dropped: set<Write>
    ghost var exposed: set<Write>

    ghost function State(): World
      reads this
    {
      World(workspaces, mounted, cache, local, remote, written, discarded, dropped, exposed)
    }

    constructor ()
      ensures State() == World(map[], {}, map[], map[], {}, {}, {}, {}, {})
    {
      workspaces, mounted, cache, local, remote := map[], {}, map[], map[], {};
      written, discarded, dropped, exposed := {}, {}, {}, {};
    }

    method LeaseConflict(server: string, path: Path, self: Wid) returns (conflict: Option<Wid>)
      ensures conflict.None? <==> LeaseFree(workspaces, server, path, self)
      ensures conflict.Some? ==>
                conflict.value != self && conflict.value in workspaces
                && Blocks(workspaces[conflict.value], server, path)
    {
      var todo := workspaces.Keys;
      while todo != {}
        invariant todo <= workspaces.Keys
        invariant forall wid <- workspaces.Keys - todo :: wid != self ==> !Blocks(workspaces[wid], server, path)
      {
        var wid :| wid in todo;
        todo := todo - {wid};
        var item := workspaces[wid];
        if wid == self || item.server != server { continue; }
        if item.mode != ReadWrite { continue; }
        if !HoldsLease(item.status) { continue; }
        if Overlap(path, item.path) {
          return Some(wid);
        }
      }
      return None;
    }

    method Environment(events: seq<Event>)
      modifies this
      ensures State() == HappenAll(old(State()), events)
    {
      var i := 0;
      while i < |events|
        invariant 0 <= i <= |events|
        invariant HappenAll(State(), events[i..]) == HappenAll(old(State()), events)
      {
        match events[i] {
          case UserWrite(wid, x) =>
            if wid in workspaces && wid !in mounted {
              local := local[wid := (if wid in local then local[wid] else {}) + {x}];
              written, exposed := written + {x}, exposed + {x};
            } else if wid in workspaces && workspaces[wid].mode == ReadWrite {
              cache := cache[wid := (if wid in cache then cache[wid] else {}) + {x}];
              written := written + {x};
            }
          case Uploaded(wid, x) =>
            if wid in mounted && wid in cache && x in cache[wid] {
              cache := cache[wid := cache[wid] - {x}];
              remote := remote + {x};
            }
          case MountLost(wid) =>
            mounted := mounted - {wid};
        }
        i := i + 1;
      }
    }

    method SetStatus(wid: Wid, status: Status)
      requires wid in workspaces
      modifies this`workspaces
      ensures State() == WithStatus(old(State()), wid, status)
    {
      workspaces := workspaces[wid := workspaces[wid].(status := status)];
    }

    /** The locked part of open(); its trailing status() call is a separate step. */
    method OpenWorkspace(wid: Wid, server: string, path: Path, mode: string, env: OpenEnv) returns (reply: Reply)
      requires wid !in workspaces
      modifies this
      ensures (State(), reply) == OpenSpec(old(State()), wid, server, path, mode, env)
    {
      if mode !in {"full", "read-only"} { return Err(InvalidMode); }
      if !env.pathOk { return Err(PathRejected); }
      var requested := if mode == "full" then ReadWrite else ReadOnly;
      if !env.readable { return Err(ReadDenied); }
      if requested == ReadWrite && !env.writable { return Err(WriteDenied); }
      if !env.capable { return Err(Unsupported); }
      if !env.keyReady { return Err(KeyNotReady); }
      if requested == ReadWrite {
        var conflict := LeaseConflict(server, path, "");
        if conflict.Some? { return Err(WriteLeaseConflict); }
        if !env.spaceOk { return Err(SpaceBlocked); }
      }
      cache, local := cache[wid := {}], local[wid := {}];
      if !env.mountOk {
        workspaces := workspaces[wid := Workspace(server, path, requested, NeedsRecovery)];
        return Err(MountFailed);
      }
      mounted := mounted + {wid};
      workspaces := workspaces[wid := Workspace(server, path, requested, Open)];
      return Ok;
    }

    method StatusOf(wid: Wid, probe: Probe) returns (reply: Reply)
      modifies this`workspaces
      ensures (State(), reply) == StatusSpec(old(State()), wid, probe)
    {
      if wid !in workspaces { return Err(WorkspaceNotFound); }
      var item := workspaces[wid];
      var isMounted := wid in mounted;
      var queue := if isMounted && probe.queueUp && wid in cache then cache[wid] else {};
      var status := item.status;
      if status in {Open, Recovering, SyncPending} && !isMounted {
        status := NeedsRecovery;
      } else if isMounted && item.mode == ReadWrite && (!probe.statsUp || !probe.queueUp) {
        status := SyncUnknown;
      } else if isMounted && queue != {} {
        status := SyncPending;
      } else if isMounted {
        status := Open;
      }
      SetStatus(wid, status);
      return Ok;
    }

    method Close(wid: Wid, plan: ClosePlan) returns (reply: Reply)
      requires plan.rounds != []
      modifies this
      ensures (State(), reply) == CloseSpec(old(State()), wid, plan)
    {
      if wid !in workspaces { return Err(WorkspaceNotFound); }
      if wid !in mounted {
        if !Finished(workspaces[wid].status) {
          SetStatus(wid, NeedsRecovery);
        }
        return Err(RecoveryRequired);
      }
      if workspaces[wid].mode == ReadWrite {
        DrainKeepsEntries(State(), wid, plan.rounds);
        var i := 0;
        while true
          invariant 0 <= i < |plan.rounds|
          invariant workspaces == old(workspaces)
          invariant DrainQueue(State(), wid, plan.rounds[i..]) == DrainQueue(old(State()), wid, plan.rounds)
          decreases |plan.rounds| - i
        {
          HappenAllKeepsEntries(State(), plan.rounds[i].events);
          Environment(plan.rounds[i].events);
          if !plan.rounds[i].rcUp { return Err(SyncStatusUnavailable); }
          if wid !in cache || cache[wid] == {} { break; }
          if i + 1 == |plan.rounds| {
            SetStatus(wid, SyncPending);
            return Err(StillSyncing);
          }
          i := i + 1;
        }
      }
      HappenAllKeepsEntries(State(), plan.late);
      Environment(plan.late);
      if plan.gone {
        mounted := mounted - {wid};
      }
      if !plan.unmountOk || wid in mounted {
        SetStatus(wid, SyncPending);
        return Err(UnmountFailed);
      }
      exposed := exposed + CacheOf(State(), wid);
      SetStatus(wid, Closed);
      return Ok;
    }

    method Recover(wid: Wid, action: string, confirm: Wid, env: RetryEnv) returns (reply: Reply)
      modifies this
      ensures (State(), reply) == RecoverSpec(old(State()), wid, action, confirm, env)
    {
      if action !in {"list", "retry", "keep", "discard"} { return Err(InvalidAction); }
      if wid == "" || action == "list" { return Ok; }
      if wid !in workspaces || !Recoverable(workspaces[wid].status) { return Err(NotRecoverable); }
      if action == "keep" { return Ok; }
      if action == "discard" {
        if confirm != wid { return Err(ConfirmMismatch); }
        if wid in mounted { return Err(StillMounted); }
        discarded := discarded + CacheOf(State(), wid);
        cache := cache[wid := {}];
        SetStatus(wid, Abandoned);
        return Ok;
      }
      if !env.keyReady { return Err(KeyNotReady); }
      if !env.pathOk { return Err(PathRejected); }
      if wid in mounted { return Err(StillMounted); }
      if !env.mountOk {
        SetStatus(wid, NeedsRecovery);
        return Err(RecoveryMountFailed);
      }
      mounted := mounted + {wid};
      SetStatus(wid, Recovering);
      return Ok;
    }

    method Cleanup(apply: bool, confirm: string) returns (reply: Reply)
      modifies this
      ensures (State(), reply) == CleanupSpec(old(State()), apply, confirm)
    {
      if !apply { return Ok; }
      if confirm != CLEANUP_CONFIRMATION { return Err(ConfirmRequired); }
      var candidates := set wid <- workspaces | Finished(workspaces[wid].status);
      var todo := candidates;
      ghost var gone: set<Wid> := {};
      ForgetNobody(State());
      while todo != {}
        invariant todo <= candidates
        invariant gone == Removable(old(State())) - todo
        invariant State() == Forget(old(State()), gone)
      {
        var wid :| wid in todo;
        todo := todo - {wid};
        if wid in mounted { continue; }
        ForgetOneMore(old(State()), gone, wid);
        assert Removable(old(State())) - todo == gone + {wid};
        gone := gone + {wid};
        dropped := dropped + HeldOf(State(), wid);
        cache, local := cache - {wid}, local - {wid};
        workspaces := workspaces - {wid};
      }
      assert gone == Removable(old(State()));
      return Ok;
    }
  }

  lemma ForgetOneMore(w: World, gone: set<Wid>, wid: Wid)
    requires wid !in gone
    ensures var w1 := Forget(w, gone);
            Forget(w, gone + {wid})
            == w1.(workspaces := w1.workspaces - {wid}, cache := w1.cache - {wid}, local := w1.local - {wid},
                   dropped := w1.dropped + HeldOf(w1, wid))
  {
    var w1, w2 := Forget(w, gone), Forget(w, gone + {wid});
    assert w2.workspaces == w1.workspaces - {wid} && w2.cache == w1.cache - {wid} && w2.local == w1.local - {wid};
    assert HeldOf(w1, wid) == HeldOf(w, wid);
    assert w2.dropped == w1.dropped + HeldOf(w, wid);
  }

  lemma ForgetNobody(w: World)
    ensures Forget(w, {}) == w
  {
    assert w.workspaces - {} == w.workspaces && w.cache - {} == w.cache && w.local - {} == w.local;
    assert Forget(w, {}).dropped == w.dropped;
  }
}
