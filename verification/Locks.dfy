/** The lock file, as a machine of threads and processes that may die. */
module Locks {
  import opened Options

  // An OS lock shared by processes lies under a re-entrant lock shared by the threads of each process.
  // Every context manager is split into its atomic steps.

  datatype Actor = Actor(pid: nat, tid: nat)

  /** Where a thread stands inside one of the context managers. */
  datatype Frame =
    | Waiting(record: bool)  // has the thread lock, waits for the OS lock
    | Exclusive              // inside exclusive_file_lock
    | Outermost              // inside reentrant_file_lock, which acquired and recorded the path
    | Nested                 // inside reentrant_file_lock, which found the path recorded
    | Tried(owned: bool)     // inside try_file_lock, past the thread lock
    | Refused                // inside try_file_lock, turned away by another thread of the process

  /** threadLocks maps a process to the thread holding its re-entrant lock and the nesting depth. */
  datatype Lock = Lock(
    threadLocks: map<nat, (nat, nat)>,
    osOwner: Option<Actor>,
    frames: map<Actor, seq<Frame>>,
    recorded: set<Actor>)

  const FREE := Lock(map[], None, map[], {})

  datatype Step =
    | Enter(who: Actor, record: bool)  // exclusive_file_lock, or reentrant_file_lock when recording
    | Acquire(who: Actor)              // the OS grants the lock to a waiting thread
    | Try(who: Actor)                  // try_file_lock
    | Exit(who: Actor)                 // leaves the innermost context manager
    | Crash(pid: nat)                  // the process dies; the OS drops what it held

  predicate Owns(f: Frame) {
    f == Exclusive || f == Outermost || f == Tried(true)
  }

  predicate TakesLevel(f: Frame) {
    f != Nested && f != Refused
  }

  function FramesOf(l: Lock, who: Actor): seq<Frame> {
    if who in l.frames then l.frames[who] else []
  }

  function WithFrames(l: Lock, who: Actor, fs: seq<Frame>): Lock {
    l.(frames := if fs == [] then l.frames - {who} else l.frames[who := fs])
  }

  predicate ThreadLockFree(l: Lock, who: Actor) {
    who.pid in l.threadLocks ==> l.threadLocks[who.pid].0 == who.tid
  }

  function TakeThreadLock(l: Lock, who: Actor): Lock {
    var depth := if who.pid in l.threadLocks then l.threadLocks[who.pid].1 else 0;
    l.(threadLocks := l.threadLocks[who.pid := (who.tid, depth + 1)])
  }

  function DropThreadLock(l: Lock, who: Actor): Lock {
    if who.pid !in l.threadLocks then l
    else if l.threadLocks[who.pid].1 <= 1 then l.(threadLocks := l.threadLocks - {who.pid})
    else l.(threadLocks := l.threadLocks[who.pid := (l.threadLocks[who.pid].0, l.threadLocks[who.pid].1 - 1)])
  }

  predicate Stalled(l: Lock, who: Actor) {
    var fs := FramesOf(l, who);
    fs != [] && fs[|fs| - 1].Waiting?
  }

  predicate Enabled(l: Lock, step: Step) {
    match step
    case Enter(who, record) => !Stalled(l, who) && ((record && who in l.recorded) || ThreadLockFree(l, who))
    case Acquire(who) => Stalled(l, who) && l.osOwner.None?
    case Try(who) => !Stalled(l, who)
    case Exit(who) => FramesOf(l, who) != [] && !Stalled(l, who)
    case Crash(_) => true
  }

  function Next(l: Lock, step: Step): Lock
    requires Enabled(l, step)
  {
    match step
    case Enter(who, record) =>
      if record && who in l.recorded then WithFrames(l, who, FramesOf(l, who) + [Nested])
      else WithFrames(TakeThreadLock(l, who), who, FramesOf(l, who) + [Waiting(record)])
    case Acquire(who) =>
      var fs := FramesOf(l, who);
      var record := fs[|fs| - 1].record;
      var l1 := WithFrames(l, who, fs[..|fs| - 1] + [if record then Outermost else Exclusive]);
      l1.(osOwner := Some(who), recorded := if record then l.recorded + {who} else l.recorded)
    case Try(who) =>
      if !ThreadLockFree(l, who) then WithFrames(l, who, FramesOf(l, who) + [Refused])
      else
        var owned := l.osOwner.None?;
        var l1 := WithFrames(TakeThreadLock(l, who), who, FramesOf(l, who) + [Tried(owned)]);
        if owned then l1.(osOwner := Some(who)) else l1
    case Exit(who) =>
      var fs := FramesOf(l, who);
      var f := fs[|fs| - 1];
      var l1 := WithFrames(if TakesLevel(f) then DropThreadLock(l, who) else l, who, fs[..|fs| - 1]);
      l1.(osOwner := if Owns(f) then None else l.osOwner,
          recorded := if f == Outermost then l.recorded - {who} else l.recorded)
    case Crash(pid) =>
      Lock(l.threadLocks - {pid},
           if l.osOwner.Some? && l.osOwner.value.pid == pid then None else l.osOwner,
           map who <- l.frames | who.pid != pid :: l.frames[who],
           set who <- l.recorded | who.pid != pid)
  }

  // ---------------------------------------------------------------- the invariant

  function CountOwning(fs: seq<Frame>): nat {
    if fs == [] then 0 else CountOwning(fs[..|fs| - 1]) + if Owns(fs[|fs| - 1]) then 1 else 0
  }

  function CountLevels(fs: seq<Frame>): nat {
    if fs == [] then 0 else CountLevels(fs[..|fs| - 1]) + if TakesLevel(fs[|fs| - 1]) then 1 else 0
  }

  function CountOutermost(fs: seq<Frame>): nat {
    if fs == [] then 0 else CountOutermost(fs[..|fs| - 1]) + if fs[|fs| - 1] == Outermost then 1 else 0
  }

  function Depth(l: Lock, who: Actor): nat {
    if who.pid in l.threadLocks && l.threadLocks[who.pid].0 == who.tid then l.threadLocks[who.pid].1 else 0
  }

  ghost predicate AccountedFor(l: Lock, who: Actor) {
    && CountOwning(FramesOf(l, who)) == (if l.osOwner == Some(who) then 1 else 0)
    && CountLevels(FramesOf(l, who)) == Depth(l, who)
    && CountOutermost(FramesOf(l, who)) == (if who in l.recorded then 1 else 0)
    && (who in l.frames ==> l.frames[who] != [])
    && (forall i | 0 <= i < |FramesOf(l, who)| - 1 :: !FramesOf(l, who)[i].Waiting?)
  }

  ghost predicate Consistent(l: Lock) {
    && (forall pid <- l.threadLocks :: l.threadLocks[pid].1 > 0)
    && forall who :: AccountedFor(l, who)
  }

  lemma CountsAfterPush(fs: seq<Frame>, f: Frame)
    ensures CountOwning(fs + [f]) == CountOwning(fs) + if Owns(f) then 1 else 0
    ensures CountLevels(fs + [f]) == CountLevels(fs) + if TakesLevel(f) then 1 else 0
    ensures CountOutermost(fs + [f]) == CountOutermost(fs) + if f == Outermost then 1 else 0
  {
    assert (fs + [f])[..|fs|] == fs;
  }

  /** A step of one thread leaves every other thread's frames, depth and record alone. */
  lemma OthersUntouched(l: Lock, step: Step, other: Actor)
    requires Consistent(l) && Enabled(l, step) && !step.Crash? && step.who != other
    ensures FramesOf(Next(l, step), other) == FramesOf(l, other)
    ensures Depth(Next(l, step), other) == Depth(l, other)
    ensures other in Next(l, step).recorded <==> other in l.recorded
    ensures other in Next(l, step).frames <==> other in l.frames
    ensures Next(l, step).osOwner == Some(other) <==> l.osOwner == Some(other)
  {
    if step.Exit? {
      OwnFrameMeansOwner(l, step.who);
      LevelFrameMeansDepth(l, step.who);
    }
  }

  lemma LastFrameCounts(fs: seq<Frame>)
    requires fs != []
    ensures Owns(fs[|fs| - 1]) ==> CountOwning(fs) > 0
    ensures TakesLevel(fs[|fs| - 1]) ==> CountLevels(fs) > 0
  {
  }

  /** A thread about to leave an owning frame is the owner, and its lock levels are its own. */
  lemma OwnFrameMeansOwner(l: Lock, who: Actor)
    requires Consistent(l) && FramesOf(l, who) != []
    ensures Owns(FramesOf(l, who)[|FramesOf(l, who)| - 1]) ==> l.osOwner == Some(who)
  {
    assert AccountedFor(l, who);
    LastFrameCounts(FramesOf(l, who));
  }

  lemma LevelFrameMeansDepth(l: Lock, who: Actor)
    requires Consistent(l) && FramesOf(l, who) != []
    ensures TakesLevel(FramesOf(l, who)[|FramesOf(l, who)| - 1]) ==> Depth(l, who) > 0
  {
    assert AccountedFor(l, who);
    LastFrameCounts(FramesOf(l, who));
  }

  /** Pushing a frame keeps a thread accounted for when owner, depth and record change with it. */
  lemma PushedAccounted(l: Lock, l': Lock, who: Actor, f: Frame)
    requires AccountedFor(l, who) && !Stalled(l, who)
    requires FramesOf(l', who) == FramesOf(l, who) + [f] && who in l'.frames
    requires f != Outermost && (who in l'.recorded <==> who in l.recorded)
    requires Owns(f) ==> l'.osOwner == Some(who) && l.osOwner != Some(who)
    requires !Owns(f) ==> l'.osOwner == l.osOwner
    requires Depth(l', who) == Depth(l, who) + if TakesLevel(f) then 1 else 0
    ensures AccountedFor(l', who)
  {
    CountsAfterPush(FramesOf(l, who), f);
  }

  lemma EnterAccounted(l: Lock, step: Step)
    requires Consistent(l) && Enabled(l, step) && step.Enter?
    ensures AccountedFor(Next(l, step), step.who)
  {
    var who := step.who;
    assert AccountedFor(l, who);
    if step.record && who in l.recorded {
      PushedAccounted(l, Next(l, step), who, Nested);
    } else {
      PushedAccounted(l, Next(l, step), who, Waiting(step.record));
    }
  }

  lemma TryAccounted(l: Lock, step: Step)
    requires Consistent(l) && Enabled(l, step) && step.Try?
    ensures AccountedFor(Next(l, step), step.who)
  {
    var who := step.who;
    assert AccountedFor(l, who);
    if !ThreadLockFree(l, who) {
      PushedAccounted(l, Next(l, step), who, Refused);
    } else {
      PushedAccounted(l, Next(l, step), who, Tried(l.osOwner.None?));
    }
  }

  lemma PopAccounted(l: Lock, step: Step)
    requires Consistent(l) && Enabled(l, step) && step.Exit?
    ensures AccountedFor(Next(l, step), step.who)
  {
    var who := step.who;
    var fs := FramesOf(l, who);
    assert AccountedFor(l, who);
    var rest := fs[..|fs| - 1];
    assert fs == rest + [fs[|fs| - 1]];
    CountsAfterPush(rest, fs[|fs| - 1]);
    OutermostOwns(rest);
  }

  lemma GrantAccounted(l: Lock, step: Step)
    requires Consistent(l) && Enabled(l, step) && step.Acquire?
    ensures AccountedFor(Next(l, step), step.who)
  {
    var who := step.who;
    var fs := FramesOf(l, who);
    assert AccountedFor(l, who);
    var rest := fs[..|fs| - 1];
    assert fs == rest + [fs[|fs| - 1]];
    CountsAfterPush(rest, fs[|fs| - 1]);
    CountsAfterPush(rest, Outermost);
    CountsAfterPush(rest, Exclusive);
    WaitingIsUnrecorded(l, who);
  }

  lemma SelfAccounted(l: Lock, step: Step)
    requires Consistent(l) && Enabled(l, step) && !step.Crash?
    ensures AccountedFor(Next(l, step), step.who)
    ensures forall pid <- Next(l, step).threadLocks :: Next(l, step).threadLocks[pid].1 > 0
  {
    match step
    case Enter(_, _) => EnterAccounted(l, step);
    case Try(_) => TryAccounted(l, step);
    case Acquire(_) => GrantAccounted(l, step);
    case Exit(_) => PopAccounted(l, step);
  }

  lemma {:induction false} OutermostOwns(fs: seq<Frame>)
    ensures CountOutermost(fs) <= CountOwning(fs)
  {
    if fs != [] {
      OutermostOwns(fs[..|fs| - 1]);
    }
  }

  /** The thread-local record is sound: whoever has the path recorded owns the OS lock. */
  lemma RecordedOwns(l: Lock, who: Actor)
    requires Consistent(l) && who in l.recorded
    ensures l.osOwner == Some(who)
  {
    assert AccountedFor(l, who);
    OutermostOwns(FramesOf(l, who));
  }

  lemma WaitingIsUnrecorded(l: Lock, who: Actor)
    requires Consistent(l) && l.osOwner.None?
    ensures who !in l.recorded
  {
    if who in l.recorded {
      RecordedOwns(l, who);
    }
  }

  lemma StepKeepsConsistent(l: Lock, step: Step)
    requires Consistent(l) && Enabled(l, step)
    ensures Consistent(Next(l, step))
  {
    var l' := Next(l, step);
    if step.Crash? {
      forall who ensures AccountedFor(l', who) {
        assert AccountedFor(l, who);
      }
    } else {
      SelfAccounted(l, step);
      forall who ensures AccountedFor(l', who) {
        if who != step.who {
          assert AccountedFor(l, who);
          OthersUntouched(l, step, who);
        }
      }
    }
  }

  predicate EnabledRun(l: Lock, steps: seq<Step>)
    decreases |steps|
  {
    steps == [] || (Enabled(l, steps[0]) && EnabledRun(Next(l, steps[0]), steps[1..]))
  }

  function After(l: Lock, steps: seq<Step>): Lock
    requires EnabledRun(l, steps)
    decreases |steps|
  {
    if steps == [] then l else After(Next(l, steps[0]), steps[1..])
  }

  predicate InCriticalSection(l: Lock, who: Actor) {
    exists i | 0 <= i < |FramesOf(l, who)| :: Owns(FramesOf(l, who)[i])
  }

  lemma {:induction false} InsideMeansCounted(fs: seq<Frame>)
    ensures CountOwning(fs) > 0 <==> exists i | 0 <= i < |fs| :: Owns(fs[i])
  {
    if fs != [] {
      var rest := fs[..|fs| - 1];
      InsideMeansCounted(rest);
      if CountOwning(rest) > 0 {
        var i :| 0 <= i < |rest| && Owns(rest[i]);
        assert Owns(fs[i]);
      }
      if i :| 0 <= i < |fs| && Owns(fs[i]) && i != |fs| - 1 {
        assert Owns(rest[i]);
      }
    }
  }

  /** Mutual exclusion over every run of every thread of every process, crashes included. */
  lemma {:induction false} MutualExclusion(l: Lock, steps: seq<Step>, a: Actor, b: Actor)
    requires Consistent(l) && EnabledRun(l, steps)
    requires InCriticalSection(After(l, steps), a) && InCriticalSection(After(l, steps), b)
    ensures a == b && After(l, steps).osOwner == Some(a)
    decreases |steps|
  {
    if steps == [] {
      assert AccountedFor(l, a) && AccountedFor(l, b);
      InsideMeansCounted(FramesOf(l, a));
      InsideMeansCounted(FramesOf(l, b));
    } else {
      StepKeepsConsistent(l, steps[0]);
      MutualExclusion(Next(l, steps[0]), steps[1..], a, b);
    }
  }

  lemma FreeIsConsistent()
    ensures Consistent(FREE)
  {
  }

  lemma PushThenPop(fs: seq<Frame>, f: Frame)
    ensures fs + [f] != [] && (fs + [f])[|fs + [f]| - 1] == f && (fs + [f])[..|fs + [f]| - 1] == fs
  {
  }

  /** Pushing a frame and taking it away again restores a thread's frames. */
  lemma FramesRestored(l: Lock, who: Actor, f: Frame)
    requires who in l.frames ==> l.frames[who] != []
    ensures WithFrames(WithFrames(l, who, FramesOf(l, who) + [f]), who, FramesOf(l, who)) == l
  {
    var l2 := WithFrames(WithFrames(l, who, FramesOf(l, who) + [f]), who, FramesOf(l, who));
    assert l2.frames == l.frames;
  }

  /** Taking one level of the thread lock and dropping it restores the thread locks. */
  lemma ThreadLockRestored(l: Lock, who: Actor)
    requires ThreadLockFree(l, who) && (who.pid in l.threadLocks ==> l.threadLocks[who.pid].1 > 0)
    ensures DropThreadLock(TakeThreadLock(l, who), who) == l
  {
    assert DropThreadLock(TakeThreadLock(l, who), who).threadLocks == l.threadLocks;
  }

  lemma RefusedRestores(l: Lock, who: Actor)
    requires Enabled(l, Try(who)) && !ThreadLockFree(l, who)
    requires who in l.frames ==> l.frames[who] != []
    ensures Enabled(Next(l, Try(who)), Exit(who))
    ensures Next(Next(l, Try(who)), Exit(who)) == l
  {
    PushThenPop(FramesOf(l, who), Refused);
    FramesRestored(l, who, Refused);
  }

  lemma TriedRestores(l: Lock, who: Actor)
    requires Enabled(l, Try(who)) && ThreadLockFree(l, who)
    requires who in l.frames ==> l.frames[who] != []
    requires who.pid in l.threadLocks ==> l.threadLocks[who.pid].1 > 0
    ensures Enabled(Next(l, Try(who)), Exit(who))
    ensures Next(Next(l, Try(who)), Exit(who)) == l
  {
    var f := Tried(l.osOwner.None?);
    var l1 := Next(l, Try(who));
    assert l1.threadLocks == TakeThreadLock(l, who).threadLocks && l1.recorded == l.recorded;
    assert FramesOf(l1, who) == FramesOf(l, who) + [f];
    PushThenPop(FramesOf(l, who), f);
    var l2 := Next(l1, Exit(who));
    assert l2.threadLocks == l.threadLocks by {
      ThreadLockRestored(l, who);
    }
    assert l2.frames == l.frames by {
      FramesRestored(l, who, f);
    }
  }

  /** Entering without waiting and leaving again restores the lock exactly. */
  lemma TryThenExitRestores(l: Lock, who: Actor)
    requires Consistent(l) && Enabled(l, Try(who))
    ensures Enabled(Next(l, Try(who)), Exit(who))
    ensures Next(Next(l, Try(who)), Exit(who)) == l
  {
    assert AccountedFor(l, who);
    if ThreadLockFree(l, who) {
      TriedRestores(l, who);
    } else {
      RefusedRestores(l, who);
    }
  }

  /** A nested reentrant section neither waits nor releases: ownership ends only with the outermost one. */
  lemma NestedNeverReleases(l: Lock, who: Actor)
    requires Consistent(l) && who in l.recorded && Enabled(l, Enter(who, true))
    ensures !Stalled(Next(l, Enter(who, true)), who)
    ensures Next(l, Enter(who, true)).osOwner == Some(who)
    ensures Enabled(Next(l, Enter(who, true)), Exit(who))
    ensures Next(Next(l, Enter(who, true)), Exit(who)) == l
  {
    RecordedOwns(l, who);
    var fs := FramesOf(l, who);
    assert AccountedFor(l, who);
    assert (fs + [Nested])[..|fs|] == fs;
    assert Next(Next(l, Enter(who, true)), Exit(who)).frames == l.frames;
  }

  /** A thread that waits for the OS lock it owns itself. */
  ghost predicate SelfDeadlocked(l: Lock, who: Actor) {
    l.osOwner == Some(who) && Stalled(l, who)
  }

  /** exclusive_file_lock is not re-entrant: a thread that enters it deadlocks on itself if and only
      if it already owns the lock. */
  lemma ExclusiveSelfDeadlockIffOwner(l: Lock, who: Actor)
    requires Consistent(l) && Enabled(l, Enter(who, false))
    ensures SelfDeadlocked(Next(l, Enter(who, false)), who) <==> l.osOwner == Some(who)
  {
  }

  /** Such a deadlock lasts, and keeps everybody out, through every run in which its process lives. */
  lemma {:induction false} SelfDeadlockIsForever(l: Lock, steps: seq<Step>, who: Actor)
    requires Consistent(l) && SelfDeadlocked(l, who) && EnabledRun(l, steps)
    requires forall step <- steps :: step != Crash(who.pid)
    ensures SelfDeadlocked(After(l, steps), who)
    decreases |steps|
  {
    if steps != [] {
      var step := steps[0];
      assert step in steps && forall later <- steps[1..] :: later in steps;
      StepKeepsConsistent(l, step);
      if !step.Crash? && step.who != who {
        OthersUntouched(l, step, who);
      }
      SelfDeadlockIsForever(Next(l, step), steps[1..], who);
    }
  }

  /** When the owner's process dies the lock is free for any living process at once. */
  lemma CrashFreesLock(l: Lock, owner: Actor, who: Actor)
    requires Consistent(l) && l.osOwner == Some(owner) && who.pid != owner.pid
    requires !Stalled(l, who) && ThreadLockFree(l, who)
    ensures var l1 := Next(l, Crash(owner.pid));
            Enabled(l1, Try(who)) && Next(l1, Try(who)).osOwner == Some(who)
  {
    assert AccountedFor(l, who);
  }

  // ---------------------------------------------------------------- the lock file as an object

  class FileLock {
    var threadLocks: map<nat, (nat, nat)>
    var osOwner: Option<Actor>
    var frames: map<Actor, seq<Frame>>
    var recorded: set<Actor>

    ghost function State(): Lock
      reads this
    {
      Lock(threadLocks, osOwner, frames, recorded)
    }

    constructor ()
      ensures State() == FREE
    {
      threadLocks, osOwner, frames, recorded := map[], None, map[], {};
    }

    method SetFrames(who: Actor, fs: seq<Frame>)
      modifies this`frames
      ensures State() == WithFrames(old(State()), who, fs)
    {
      frames := if fs == [] then frames - {who} else frames[who := fs];
    }

    method PushFrame(who: Actor, f: Frame)
      modifies this`frames
      ensures State() == WithFrames(old(State()), who, FramesOf(old(State()), who) + [f])
    {
      SetFrames(who, (if who in frames then frames[who] else []) + [f]);
    }

    method LockThread(who: Actor)
      modifies this`threadLocks
      ensures State() == TakeThreadLock(old(State()), who)
    {
      var depth := 0;
      if who.pid in threadLocks {
        depth := threadLocks[who.pid].1;
      }
      threadLocks := threadLocks[who.pid := (who.tid, depth + 1)];
    }

    method UnlockThread(who: Actor)
      modifies this`threadLocks
      ensures State() == DropThreadLock(old(State()), who)
    {
      if who.pid in threadLocks {
        var (tid, depth) := threadLocks[who.pid];
        threadLocks := if depth <= 1 then threadLocks - {who.pid} else threadLocks[who.pid := (tid, depth - 1)];
      }
    }

    method EnterBlocking(who: Actor, record: bool)
      requires Enabled(State(), Enter(who, record))
      modifies this
      ensures State() == Next(old(State()), Enter(who, record))
    {
      if record && who in recorded {
        PushFrame(who, Nested);
      } else {
        LockThread(who);
        PushFrame(who, Waiting(record));
      }
    }

    method GrantOsLock(who: Actor)
      requires Enabled(State(), Acquire(who))
      modifies this
      ensures State() == Next(old(State()), Acquire(who))
    {
      var fs := frames[who];
      osOwner := Some(who);
      if fs[|fs| - 1].record {
        SetFrames(who, fs[..|fs| - 1] + [Outermost]);
        recorded := recorded + {who};
      } else {
        SetFrames(who, fs[..|fs| - 1] + [Exclusive]);
      }
    }

    method TryEnter(who: Actor) returns (owned: bool)
      requires Enabled(State(), Try(who))
      modifies this
      ensures State() == Next(old(State()), Try(who))
      ensures owned <==> old(osOwner) != Some(who) && osOwner == Some(who)
    {
      if who.pid in threadLocks && threadLocks[who.pid].0 != who.tid {
        PushFrame(who, Refused);
        return false;
      }
      LockThread(who);
      owned := osOwner.None?;
      if owned {
        osOwner := Some(who);
      }
      PushFrame(who, Tried(owned));
    }

    method Leave(who: Actor)
      requires Enabled(State(), Exit(who))
      modifies this
      ensures State() == Next(old(State()), Exit(who))
    {
      var fs := frames[who];
      var f := fs[|fs| - 1];
      if f == Outermost {
        recorded := recorded - {who};
      }
      if Owns(f) {
        osOwner := None;
      }
      if TakesLevel(f) {
        UnlockThread(who);
      }
      SetFrames(who, fs[..|fs| - 1]);
    }

    method ProcessDies(pid: nat)
      modifies this
      ensures State() == Next(old(State()), Crash(pid))
    {
      threadLocks := threadLocks - {pid};
      if osOwner.Some? && osOwner.value.pid == pid {
        osOwner := None;
      }
      frames := map who <- frames | who.pid != pid :: frames[who];
      recorded := set who <- recorded | who.pid != pid;
    }
  }
}
