/** Answering turns across threads, processes and crashes. */
module TurnProtocol {
  import opened Options
  import L = Locks
  import opened Conversation
  import R = ConversationRuns

  type Actor = L.Actor

  // The execution lock of a session together with the session it protects. A caller begins a turn only
  // after try_file_lock admitted it.

  /** admitted: turn callers that own the lock; reading: snapshots that own it, with the running
      request they loaded, if any; beginner: who began the current turn in its present tenure. */
  datatype System = System(
    lock: L.Lock,
    session: Session,
    admitted: set<Actor>,
    reading: map<Actor, Option<string>>,
    beginner: Option<(Actor, string)>)

  datatype Step =
    | EnterTurn(who: Actor)
    | Begin(who: Actor, requestId: string, question: string)
    | Progress(who: Actor, changes: Changes)  // the beginner's own update_turn
    | EnterSnapshot(who: Actor)
    | LoadSnapshot(who: Actor)
    | StoreSnapshot(who: Actor)
    | Leave(who: Actor)
    | Die(pid: nat)
    | Note(op: R.Op)  // what any thread may do at any time without the execution lock

  predicate Harmless(op: R.Op) {
    op.Append? || op.Patch? || op.Compact? || op.Bind? || (op.Update? && op.changes.status.None?)
  }

  predicate Enabled(s: System, step: Step) {
    match step
    case EnterTurn(who) => L.Enabled(s.lock, L.Try(who))
    case EnterSnapshot(who) => L.Enabled(s.lock, L.Try(who))
    case Begin(who, _, _) => who in s.admitted
    case Progress(who, changes) =>
      s.beginner.Some? && s.beginner.value.0 == who && changes.status != Some(Running)
    case LoadSnapshot(who) => who in s.reading && s.reading[who].None?
    case StoreSnapshot(who) => who in s.reading && s.reading[who].Some?
    case Leave(who) => L.Enabled(s.lock, L.Exit(who))
    case Die(_) => true
    case Note(op) => Harmless(op)
  }

  predicate Gets(lock: L.Lock, who: Actor) {
    lock.osOwner.None? && L.ThreadLockFree(lock, who)
  }

  function Next(s: System, step: Step): System
    requires Enabled(s, step)
  {
    match step
    case EnterTurn(who) =>
      s.(lock := L.Next(s.lock, L.Try(who)),
         admitted := if Gets(s.lock, who) then s.admitted + {who} else s.admitted)
    case EnterSnapshot(who) =>
      s.(lock := L.Next(s.lock, L.Try(who)),
         reading := if Gets(s.lock, who) then s.reading[who := None] else s.reading)
    case Begin(who, requestId, question) =>
      var (session, reply) := BeginTurnSpec(s.session, requestId, question);
      s.(session := session, beginner := if reply == Saved then Some((who, requestId)) else s.beginner)
    case Progress(_, changes) =>
      s.(session := UpdateTurnSpec(s.session, s.beginner.value.1, changes).0)
    case LoadSnapshot(who) =>
      if TurnRunning(s.session) then s.(reading := s.reading[who := Some(s.session.turn.value.requestId)]) else s
    case StoreSnapshot(who) =>
      s.(session := UpdateTurnSpec(s.session, s.reading[who].value,
                                   Changes(None, Some(Interrupted), INTERRUPTED_ON_READ)).0,
         reading := s.reading[who := None])
    case Leave(who) =>
      var fs := L.FramesOf(s.lock, who);
      var lock := L.Next(s.lock, L.Exit(who));
      if L.Owns(fs[|fs| - 1]) then
        s.(lock := lock, admitted := s.admitted - {who}, reading := s.reading - {who},
           beginner := if s.beginner.Some? && s.beginner.value.0 == who then None else s.beginner)
      else s.(lock := lock)
    case Die(pid) =>
      System(L.Next(s.lock, L.Crash(pid)), s.session,
             set who <- s.admitted | who.pid != pid,
             map who <- s.reading | who.pid != pid :: s.reading[who],
             if s.beginner.Some? && s.beginner.value.0.pid == pid then None else s.beginner)
    case Note(op) => s.(session := R.Apply(s.session, op))
  }

  predicate EnabledRun(s: System, steps: seq<Step>)
    decreases |steps|
  {
    steps == [] || (Enabled(s, steps[0]) && EnabledRun(Next(s, steps[0]), steps[1..]))
  }

  function After(s: System, steps: seq<Step>): System
    requires EnabledRun(s, steps)
    decreases |steps|
  {
    if steps == [] then s else After(Next(s, steps[0]), steps[1..])
  }

  ghost predicate Safe(s: System) {
    && L.Consistent(s.lock)
    && R.Coherent(s.session)
    && (forall who <- s.admitted :: s.lock.osOwner == Some(who) && who !in s.reading)
    && (forall who <- s.reading :: s.lock.osOwner == Some(who))
    && (s.beginner.Some? ==>
          && s.beginner.value.0 in s.admitted
          && s.session.turn.Some? && s.session.turn.value.requestId == s.beginner.value.1)
    && (forall who <- s.reading | s.reading[who].Some? ::
          s.session.turn == Some(Turn(s.reading[who].value, Running)))
  }

  lemma HarmlessKeepsTurn(s: Session, op: R.Op)
    requires R.Coherent(s) && Harmless(op)
    ensures R.Coherent(R.Apply(s, op))
    ensures R.Apply(s, op).turn == s.turn
  {
    R.StepCoherentIff(s, op);
    if !op.Update? {
      R.PlainStepFrame(s, op);
    }
  }

  lemma EnterKeepsSafe(s: System, step: Step)
    requires Safe(s) && Enabled(s, step) && (step.EnterTurn? || step.EnterSnapshot?)
    ensures Safe(Next(s, step))
  {
    L.StepKeepsConsistent(s.lock, L.Try(step.who));
  }

  lemma LeaveKeepsSafe(s: System, step: Step)
    requires Safe(s) && Enabled(s, step) && step.Leave?
    ensures Safe(Next(s, step))
  {
    L.StepKeepsConsistent(s.lock, L.Exit(step.who));
    var fs := L.FramesOf(s.lock, step.who);
    assert L.AccountedFor(s.lock, step.who);
    L.InsideMeansCounted(fs);
    assert L.Owns(fs[|fs| - 1]) ==> s.lock.osOwner == Some(step.who);
  }

  lemma DieKeepsSafe(s: System, step: Step)
    requires Safe(s) && step.Die?
    ensures Safe(Next(s, step))
  {
    L.StepKeepsConsistent(s.lock, L.Crash(step.pid));
  }

  lemma BeginKeepsSafe(s: System, step: Step)
    requires Safe(s) && Enabled(s, step) && step.Begin?
    ensures Safe(Next(s, step))
  {
    R.BeginKeepsCoherent(s.session, step.requestId, step.question);
    R.BeginLogIs(s.session, step.requestId, step.question);
  }

  lemma StepKeepsSafe(s: System, step: Step)
    requires Safe(s) && Enabled(s, step)
    ensures Safe(Next(s, step))
  {
    match step
    case EnterTurn(_) => EnterKeepsSafe(s, step);
    case EnterSnapshot(_) => EnterKeepsSafe(s, step);
    case Leave(_) => LeaveKeepsSafe(s, step);
    case Die(_) => DieKeepsSafe(s, step);
    case Begin(_, _, _) => BeginKeepsSafe(s, step);
    case Progress(_, changes) => R.UpdateKeepsCoherent(s.session, s.beginner.value.1, changes);
    case LoadSnapshot(_) =>
    case StoreSnapshot(who) =>
      R.UpdateKeepsCoherent(s.session, s.reading[who].value,
                            Changes(None, Some(Interrupted), INTERRUPTED_ON_READ));
    case Note(op) => HarmlessKeepsTurn(s.session, op);
  }

  lemma {:induction false} RunKeepsSafe(s: System, steps: seq<Step>)
    requires Safe(s) && EnabledRun(s, steps)
    ensures Safe(After(s, steps))
    decreases |steps|
  {
    if steps != [] {
      StepKeepsSafe(s, steps[0]);
      RunKeepsSafe(Next(s, steps[0]), steps[1..]);
    }
  }

  /** A new session under a free lock. */
  const START := System(L.FREE, EMPTY, {}, map[], None)

  lemma StartIsSafe()
    ensures Safe(START)
  {
    L.FreeIsConsistent();
    R.EmptyIsCoherent();
  }

  /** Whatever happened to a session: who began its current turn, and has neither left nor died since, owns
      the lock; so does every snapshot that is past the lock, and what it read is still the running turn. */
  lemma ReachableIsSafe(steps: seq<Step>)
    requires EnabledRun(START, steps)
    ensures var s := After(START, steps);
            && Safe(s)
            && (s.beginner.Some? ==>
                  s.lock.osOwner == Some(s.beginner.value.0) && L.InCriticalSection(s.lock, s.beginner.value.0))
            && (forall who <- s.reading :: s.lock.osOwner == Some(who) && s.beginner.None?)
  {
    StartIsSafe();
    RunKeepsSafe(START, steps);
    var s := After(START, steps);
    if s.beginner.Some? {
      var who := s.beginner.value.0;
      assert L.AccountedFor(s.lock, who);
      L.InsideMeansCounted(L.FramesOf(s.lock, who));
    }
  }

  // ---------------------------------------------------------------- nobody interrupts a live owner

  /** A step that is neither the actor's own nor the death of its process. */
  predicate Foreign(step: Step, who: Actor) {
    match step
    case Die(pid) => pid != who.pid
    case Note(_) => true
    case _ => step.who != who
  }

  ghost predicate Live(s: System, who: Actor, requestId: string) {
    s.beginner == Some((who, requestId)) && s.session.turn == Some(Turn(requestId, Running))
  }

  lemma ForeignStepKeepsLive(s: System, step: Step, who: Actor, requestId: string)
    requires Safe(s) && Enabled(s, step) && Live(s, who, requestId) && Foreign(step, who)
    ensures Live(Next(s, step), who, requestId)
  {
    if step.Note? {
      HarmlessKeepsTurn(s.session, step.op);
    }
    if step.Leave? {
      var fs := L.FramesOf(s.lock, step.who);
      assert L.AccountedFor(s.lock, step.who);
      L.InsideMeansCounted(fs);
    }
  }

  /** Whatever all other threads and processes do, dying included, a live owner's turn keeps running
      and so does its reply row. */
  lemma {:induction false} NobodyInterruptsLiveTurn(s: System, steps: seq<Step>, who: Actor, requestId: string)
    requires Safe(s) && EnabledRun(s, steps) && Live(s, who, requestId)
    requires forall step <- steps :: Foreign(step, who)
    ensures Live(After(s, steps), who, requestId)
    ensures var log := Log(After(s, steps).session);
            var k := LastReply(log, requestId);
            k.Some? && log[k.value].status == Some(Running)
    decreases |steps|
  {
    if steps != [] {
      assert steps[0] in steps && forall later <- steps[1..] :: later in steps;
      ForeignStepKeepsLive(s, steps[0], who, requestId);
      StepKeepsSafe(s, steps[0]);
      NobodyInterruptsLiveTurn(Next(s, steps[0]), steps[1..], who, requestId);
    }
  }

  // ---------------------------------------------------------------- a vanished owner's turn ends

  predicate NothingRuns(log: seq<Row>) {
    forall i | 0 <= i < |log| :: log[i].status != Some(Running)
  }

  /** The write of a snapshot is never refused, strikes no live owner and leaves no row running. */
  lemma StoreInterrupts(s: System, who: Actor)
    requires Safe(s) && Enabled(s, StoreSnapshot(who))
    ensures s.beginner.None?
    ensures UpdateTurnSpec(s.session, s.reading[who].value,
                           Changes(None, Some(Interrupted), INTERRUPTED_ON_READ)).1 == Saved
    ensures var s' := Next(s, StoreSnapshot(who));
            var k := LastReply(Log(s'.session), s.reading[who].value);
            && NothingRuns(Log(s'.session)) && s'.session.turn.value.status == Interrupted
            && k.Some? && Log(s'.session)[k.value].status == Some(Interrupted)
  {
    StepKeepsSafe(s, StoreSnapshot(who));
  }

  /** While a snapshot owns the lock nobody else can change the turn it is looking at. */
  lemma {:induction false} OthersKeepReader(s: System, steps: seq<Step>, who: Actor)
    requires Safe(s) && EnabledRun(s, steps) && who in s.reading
    requires forall step <- steps :: Foreign(step, who)
    ensures who in After(s, steps).reading && After(s, steps).reading[who] == s.reading[who]
    ensures After(s, steps).session.turn == s.session.turn
    decreases |steps|
  {
    if steps != [] {
      var step := steps[0];
      assert step in steps && forall later <- steps[1..] :: later in steps;
      StepKeepsSafe(s, step);
      if step.Note? {
        HarmlessKeepsTurn(s.session, step.op);
      }
      if step.Leave? {
        var fs := L.FramesOf(s.lock, step.who);
        assert L.AccountedFor(s.lock, step.who);
        L.InsideMeansCounted(fs);
      }
      OthersKeepReader(Next(s, step), steps[1..], who);
    }
  }

  /** A snapshot's three steps, with other actors' steps in between, can be taken. */
  ghost predicate SnapshotTaken(s: System, who: Actor, between: seq<Step>, later: seq<Step>) {
    && !L.Stalled(s.lock, who)
    && (forall step <- between + later :: Foreign(step, who))
    && EnabledRun(Next(s, EnterSnapshot(who)), between)
    && (Enabled(After(Next(s, EnterSnapshot(who)), between), LoadSnapshot(who)) ==>
          EnabledRun(Next(After(Next(s, EnterSnapshot(who)), between), LoadSnapshot(who)), later))
  }

  /** The snapshot finds the turn and leaves its reply row interrupted and nothing running. */
  ghost predicate SnapshotSettles(s: System, who: Actor, between: seq<Step>, later: seq<Step>, requestId: string)
    requires SnapshotTaken(s, who, between, later)
  {
    var s1 := After(Next(s, EnterSnapshot(who)), between);
    && Enabled(s1, LoadSnapshot(who))
    && var s2 := After(Next(s1, LoadSnapshot(who)), later);
    && Enabled(s2, StoreSnapshot(who))
    && var log := Log(Next(s2, StoreSnapshot(who)).session);
    && NothingRuns(log)
    && var k := LastReply(log, requestId);
    k.Some? && log[k.value].status == Some(Interrupted)
  }

  /** Once the lock is free, the next snapshot ends an orphaned turn, whatever anybody does between its
      three steps: its reply row is interrupted and nothing runs any more. */
  lemma SnapshotEndsOrphanedTurn(s: System, who: Actor, between: seq<Step>, later: seq<Step>, requestId: string)
    requires Safe(s) && s.session.turn == Some(Turn(requestId, Running)) && Gets(s.lock, who)
    requires SnapshotTaken(s, who, between, later)
    ensures SnapshotSettles(s, who, between, later, requestId)
  {
    assert forall step <- between :: step in between + later;
    assert forall step <- later :: step in between + later;
    StepKeepsSafe(s, EnterSnapshot(who));
    var s0 := Next(s, EnterSnapshot(who));
    OthersKeepReader(s0, between, who);
    RunKeepsSafe(s0, between);
    var s1 := After(s0, between);
    StepKeepsSafe(s1, LoadSnapshot(who));
    var loaded := Next(s1, LoadSnapshot(who));
    OthersKeepReader(loaded, later, who);
    RunKeepsSafe(loaded, later);
    StoreInterrupts(After(loaded, later), who);
  }

  /** The owner's process dies, or the owner leaves the section it owns the lock by. */
  predicate Ends(s: System, owner: Actor, step: Step) {
    step == Die(owner.pid)
    || (step == Leave(owner) && Enabled(s, step)
        && L.Owns(L.FramesOf(s.lock, owner)[|L.FramesOf(s.lock, owner)| - 1]))
  }

  lemma OwnersEndFreesLock(s: System, owner: Actor, step: Step, who: Actor)
    requires Safe(s) && s.lock.osOwner == Some(owner) && Ends(s, owner, step)
    requires who.pid != owner.pid && L.ThreadLockFree(s.lock, who) && !L.Stalled(s.lock, who)
    ensures Gets(Next(s, step).lock, who)
  {
    if step.Die? {
      L.CrashFreesLock(s.lock, owner, who);
    } else {
      L.OthersUntouched(s.lock, L.Exit(owner), who);
    }
  }

  /** From a live turn: once its owner died or left, the next snapshot of another process ends the turn. */
  lemma OwnersEndSettlesTurn(
      s: System, owner: Actor, end: Step, who: Actor, between: seq<Step>, later: seq<Step>, requestId: string)
    requires Safe(s) && Live(s, owner, requestId) && Ends(s, owner, end)
    requires who.pid != owner.pid && L.ThreadLockFree(s.lock, who) && !L.Stalled(s.lock, who)
    requires SnapshotTaken(Next(s, end), who, between, later)
    ensures SnapshotSettles(Next(s, end), who, between, later, requestId)
  {
    OwnersEndFreesLock(s, owner, end, who);
    StepKeepsSafe(s, end);
    SnapshotEndsOrphanedTurn(Next(s, end), who, between, later, requestId);
  }

  /** An accepted begin by the next owner ends an orphaned turn as well: the new reply is the only
      running row, and the old one is interrupted. */
  lemma BeginEndsOrphanedTurn(s: System, who: Actor, requestId: string, question: string, orphan: string)
    requires Safe(s) && s.session.turn == Some(Turn(orphan, Running))
    requires Enabled(s, Begin(who, requestId, question)) && !KnownRequest(Log(s.session), requestId)
    ensures var log, after := Log(s.session), Log(Next(s, Begin(who, requestId, question)).session);
            && |after| == |log| + 2 && after[|log| + 1].status == Some(Running)
            && Replies(after[|log| + 1], requestId)
            && (forall i | 0 <= i < |log| :: after[i].status != Some(Running))
            && var k := LastReply(log, orphan);
            k.Some? && after[k.value].status == Some(Interrupted)
  {
    R.BeginInterruptsAllElse(s.session, requestId, question);
    R.BeginLogIs(s.session, requestId, question);
    var log, after := Log(s.session), Log(Next(s, Begin(who, requestId, question)).session);
    assert after[|log| + 1] == after[|log|..][1];
    var k := LastReply(log, orphan).value;
    assert after[k] == InterruptRows(log, orphan)[k];
  }

  /** A reply that is not running is settled for good: no step ever sets it running again. */
  lemma StepKeepsSettled(s: System, step: Step, i: nat)
    requires Safe(s) && Enabled(s, step)
    requires i < |Log(s.session)| && Log(s.session)[i].status != Some(Running)
    ensures i < |Log(Next(s, step).session)| && Log(Next(s, step).session)[i].status != Some(Running)
  {
    match step
    case Begin(_, requestId, question) =>
      R.LogAfterIsLog(s.session, R.Begin(requestId, question));
      if !KnownRequest(Log(s.session), requestId) {
        R.BeginInterruptsAllElse(s.session, requestId, question);
      }
    case Progress(_, changes) => UpdateKeepsSettled(s.session, s.beginner.value.1, changes, i);
    case StoreSnapshot(who) =>
      UpdateKeepsSettled(s.session, s.reading[who].value, Changes(None, Some(Interrupted), INTERRUPTED_ON_READ), i);
    case Note(op) =>
      if op.Update? {
        UpdateKeepsSettled(s.session, op.turnId, op.changes, i);
      } else {
        R.PlainStepFrame(s.session, op);
      }
    case _ =>
  }

  lemma UpdateKeepsSettled(s: Session, turnId: string, changes: Changes, i: nat)
    requires R.Coherent(s) && changes.status != Some(Running)
    requires i < |Log(s)| && Log(s)[i].status != Some(Running)
    ensures i < |Log(UpdateTurnSpec(s, turnId, changes).0)|
    ensures Log(UpdateTurnSpec(s, turnId, changes).0)[i].status != Some(Running)
  {
    R.UpdateLogIs(s, turnId, changes);
  }

  lemma {:induction false} SettledStaysSettled(s: System, steps: seq<Step>, i: nat)
    requires Safe(s) && EnabledRun(s, steps)
    requires i < |Log(s.session)| && Log(s.session)[i].status != Some(Running)
    ensures i < |Log(After(s, steps).session)| && Log(After(s, steps).session)[i].status != Some(Running)
    decreases |steps|
  {
    if steps != [] {
      StepKeepsSafe(s, steps[0]);
      StepKeepsSettled(s, steps[0], i);
      SettledStaysSettled(Next(s, steps[0]), steps[1..], i);
    }
  }
}
