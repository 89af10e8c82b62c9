/** What a conversation keeps over every sequence of store operations, forks included. */
module ConversationRuns {
  import opened Options
  import opened Conversation

  datatype Op =
    | Append(role: Role, content: string)
    | Patch(text: string)
    | Compact(keepLast: int)
    | Begin(requestId: string, question: string)
    | Update(turnId: string, changes: Changes)
    | Read(idle: bool)
    | Bind(plan: string)
    | Branch  // go on in a fork of the session

  function Apply(s: Session, op: Op): Session {
    match op
    case Append(role, content) => AppendSpec(s, role, content)
    case Patch(text) => PatchSpec(s, text)
    case Compact(keepLast) => CompactSpec(s, keepLast)
    case Begin(requestId, question) => BeginTurnSpec(s, requestId, question).0
    case Update(turnId, changes) => UpdateTurnSpec(s, turnId, changes).0
    case Read(idle) => SnapshotSpec(s, idle)
    case Bind(plan) => BindPlanSpec(s, plan).0
    case Branch => ForkSpec(s)
  }

  function ApplyAll(s: Session, ops: seq<Op>): Session
    decreases |ops|
  {
    if ops == [] then s else ApplyAll(Apply(s, ops[0]), ops[1..])
  }

  // ---------------------------------------------------------------- compaction never touches the log

  lemma BoundedKeepsLog(s: Session)
    ensures Log(Bounded(s)) == Log(s)
    ensures Bounded(s).turn == s.turn && Bounded(s).anchors == s.anchors && Bounded(s).plans == s.plans
  {
    if |s.messages| > MAX_MESSAGES {
      ArchiveKeepsLog(s, MAX_MESSAGES);
    }
  }

  lemma ArchiveKeepsLog(s: Session, keep: nat)
    requires keep > 0
    ensures Log(ArchiveSpec(s, keep)) == Log(s)
    ensures |ArchiveSpec(s, keep).messages| == if |s.messages| > keep then keep else |s.messages|
  {
    if |s.messages| > keep {
      var cut := |s.messages| - keep;
      assert s.messages == s.messages[..cut] + s.messages[cut..];
    }
  }

  /** The log after an operation, computed from the log alone. */
  function LogAfter(s: Session, op: Op): seq<Row> {
    var log := Log(s);
    match op
    case Append(role, content) => log + [Row(role, content, None, None, "")]
    case Patch(text) =>
      if s.messages != [] && log[|log| - 1].role == Assistant then
        log[|log| - 1 := log[|log| - 1].(content := text)]
      else log + [Row(Assistant, text, None, None, "")]
    case Compact(_) => log
    case Begin(requestId, question) =>
      if KnownRequest(log, requestId) then log
      else (if TurnRunning(s) then InterruptRows(log, s.turn.value.requestId) else log)
           + OpeningRows(requestId, question)
    case Update(turnId, changes) => UpdatedLog(s, turnId, changes)
    case Read(idle) =>
      if idle && TurnRunning(s) then
        UpdatedLog(s, s.turn.value.requestId, Changes(None, Some(Interrupted), INTERRUPTED_ON_READ))
      else log
    case Bind(_) => log
    case Branch => log
  }

  function UpdatedLog(s: Session, turnId: string, changes: Changes): seq<Row> {
    var log := Log(s);
    var k := LastReply(log, turnId);
    if s.turn.None? || s.turn.value.requestId != turnId || k.None? then log else
      var status := if changes.status.Some? then changes.status.value else s.turn.value.status;
      log[k.value := UpdatedRow(log[k.value], status, changes)]
  }

  lemma ReplaceRowInLog(s: Session, k: nat, row: Row)
    requires k < |Log(s)|
    ensures Log(ReplaceRow(s, k, row)) == Log(s)[k := row]
  {
  }

  lemma InterruptRowsSplits(a: seq<Row>, b: seq<Row>, requestId: string)
    ensures InterruptRows(a + b, requestId) == InterruptRows(a, requestId) + InterruptRows(b, requestId)
  {
  }

  lemma AppendLogIs(s: Session, role: Role, content: string)
    ensures Log(AppendSpec(s, role, content)) == Log(s) + [Row(role, content, None, None, "")]
    ensures AppendSpec(s, role, content).turn == s.turn
    ensures AppendSpec(s, role, content).anchors == s.anchors && AppendSpec(s, role, content).plans == s.plans
  {
    BoundedKeepsLog(s.(messages := s.messages + [Row(role, content, None, None, "")]));
  }

  lemma PatchLogIs(s: Session, text: string)
    ensures Log(PatchSpec(s, text)) == LogAfter(s, Patch(text))
    ensures PatchSpec(s, text).turn == s.turn
    ensures PatchSpec(s, text).anchors == s.anchors && PatchSpec(s, text).plans == s.plans
  {
    AppendLogIs(s, Assistant, text);
  }

  lemma CompactLogIs(s: Session, keepLast: int)
    ensures Log(CompactSpec(s, keepLast)) == Log(s)
    ensures CompactSpec(s, keepLast).turn == s.turn
    ensures CompactSpec(s, keepLast).anchors == s.anchors && CompactSpec(s, keepLast).plans == s.plans
  {
    ArchiveKeepsLog(s, KeepClamp(keepLast));
  }

  lemma BeginLogIs(s: Session, requestId: string, question: string)
    ensures Log(BeginTurnSpec(s, requestId, question).0) == LogAfter(s, Begin(requestId, question))
    ensures BeginTurnSpec(s, requestId, question).0.anchors == s.anchors
    ensures BeginTurnSpec(s, requestId, question).0.plans == s.plans
    ensures BeginTurnSpec(s, requestId, question).0.turn
            == if KnownRequest(Log(s), requestId) then s.turn else Some(Turn(requestId, Running))
  {
    var s1 := InterruptOrphan(s);
    if TurnRunning(s) {
      InterruptRowsSplits(s.archived, s.messages, s.turn.value.requestId);
    }
    var s2 := s1.(messages := s1.messages + OpeningRows(requestId, question));
    assert Log(s2) == Log(s1) + OpeningRows(requestId, question);
    BoundedKeepsLog(s2);
  }

  /** Where compaction puts the boundary between archive and active window never shows in the log. */
  lemma LogAfterIsLog(s: Session, op: Op)
    ensures Log(Apply(s, op)) == LogAfter(s, op)
  {
    match op
    case Append(role, content) => AppendLogIs(s, role, content);
    case Patch(text) => PatchLogIs(s, text);
    case Compact(keepLast) => CompactLogIs(s, keepLast);
    case Begin(requestId, question) => BeginLogIs(s, requestId, question);
    case Update(turnId, changes) => UpdateLogIs(s, turnId, changes);
    case Read(idle) =>
      if idle && TurnRunning(s) {
        UpdateLogIs(s, s.turn.value.requestId, Changes(None, Some(Interrupted), INTERRUPTED_ON_READ));
      }
    case Bind(_) =>
    case Branch =>
  }

  lemma UpdateLogIs(s: Session, turnId: string, changes: Changes)
    ensures Log(UpdateTurnSpec(s, turnId, changes).0) == UpdatedLog(s, turnId, changes)
  {
    if s.turn.Some? && s.turn.value.requestId == turnId {
      var status := if changes.status.Some? then changes.status.value else s.turn.value.status;
      var s1 := s.(turn := Some(Turn(turnId, status)));
      var k := LastReply(Log(s), turnId);
      if k.Some? {
        ReplaceRowInLog(s1, k.value, UpdatedRow(Log(s)[k.value], status, changes));
      }
    }
  }

  // ---------------------------------------------------------------- the log only grows

  /** Positions keep their role and request for ever; rows are added only at the end. */
  ghost predicate Grows(before: seq<Row>, after: seq<Row>) {
    && |before| <= |after|
    && forall i | 0 <= i < |before| ::
         before[i].role == after[i].role && before[i].requestId == after[i].requestId
  }

  lemma StepGrowsLog(s: Session, op: Op)
    ensures Grows(Log(s), Log(Apply(s, op)))
  {
    LogAfterIsLog(s, op);
  }

  /** Over every run the log only grows at its end, and every anchor stays put. */
  lemma {:induction false} RunGrowsLog(s: Session, ops: seq<Op>)
    requires forall plan <- s.anchors :: plan in s.plans
    ensures Grows(Log(s), Log(ApplyAll(s, ops)))
    ensures forall plan <- s.anchors ::
              plan in ApplyAll(s, ops).anchors && ApplyAll(s, ops).anchors[plan] == s.anchors[plan]
    decreases |ops|
  {
    if ops != [] {
      StepGrowsLog(s, ops[0]);
      StepKeepsAnchors(s, ops[0]);
      RunGrowsLog(Apply(s, ops[0]), ops[1..]);
    }
  }

  lemma StepKeepsAnchors(s: Session, op: Op)
    requires forall plan <- s.anchors :: plan in s.plans
    ensures forall plan <- s.anchors :: plan in Apply(s, op).anchors && Apply(s, op).anchors[plan] == s.anchors[plan]
    ensures forall plan <- Apply(s, op).anchors :: plan in Apply(s, op).plans
  {
    match op
    case Append(role, content) => AppendLogIs(s, role, content);
    case Patch(text) => PatchLogIs(s, text);
    case Compact(keepLast) => CompactLogIs(s, keepLast);
    case Begin(requestId, question) => BeginLogIs(s, requestId, question);
    case _ =>
  }

  /** An anchor written at any time names, ever after, the row it named when it was written. */
  lemma AnchorNamesItsRowForever(s: Session, plan: string, ops: seq<Op>)
    requires forall p <- s.anchors :: p in s.plans
    requires ValidPlanId(plan) && plan !in s.plans && Log(s) != []
    ensures var bound := Apply(s, Bind(plan));
            var later := ApplyAll(bound, ops);
            && bound.anchors[plan].AtRow?
            && plan in later.anchors && later.anchors[plan] == bound.anchors[plan]
            && var k := bound.anchors[plan].index;
            && k < |Log(s)| && k < |Log(later)|
            && Log(later)[k].role == Log(s)[k].role
            && Log(later)[k].requestId == Log(s)[k].requestId == bound.anchors[plan].requestId
  {
    var bound := Apply(s, Bind(plan));
    RunGrowsLog(bound, ops);
    assert Log(bound) == Log(s);
  }

  // ---------------------------------------------------------------- sizes

  ghost predicate SizesOk(s: Session) {
    s.compacted == |s.archived| && |s.messages| <= MAX_MESSAGES && |s.summary| <= SUMMARY_LIMIT + 10
  }

  lemma ArchiveKeepsSizes(s: Session, keep: nat)
    requires 0 < keep <= MAX_MESSAGES
    requires s.compacted == |s.archived| && |s.summary| <= SUMMARY_LIMIT + 10
    ensures SizesOk(ArchiveSpec(s, keep))
  {
    assert |TRUNCATION_NOTICE| == 10;
  }

  lemma StepKeepsSizes(s: Session, op: Op)
    requires SizesOk(s)
    ensures SizesOk(Apply(s, op))
  {
    match op
    case Append(role, content) =>
      ArchiveKeepsSizes(s.(messages := s.messages + [Row(role, content, None, None, "")]), MAX_MESSAGES);
    case Patch(text) =>
      ArchiveKeepsSizes(s.(messages := s.messages + [Row(Assistant, text, None, None, "")]), MAX_MESSAGES);
    case Compact(keepLast) => ArchiveKeepsSizes(s, KeepClamp(keepLast));
    case Begin(requestId, question) =>
      var s1 := InterruptOrphan(s);
      ArchiveKeepsSizes(s1.(messages := s1.messages + OpeningRows(requestId, question)), MAX_MESSAGES);
    case _ =>
  }

  /** Over every run: the counter matches the archive, the active window and the summary stay bounded. */
  lemma {:induction false} RunKeepsSizes(s: Session, ops: seq<Op>)
    requires SizesOk(s)
    ensures SizesOk(ApplyAll(s, ops))
    decreases |ops|
  {
    if ops != [] {
      StepKeepsSizes(s, ops[0]);
      RunKeepsSizes(Apply(s, ops[0]), ops[1..]);
    }
  }

  // ---------------------------------------------------------------- requests and turns

  /** Each request sits on one user row and, right after it, one assistant row. */
  ghost predicate PairedRequests(log: seq<Row>) {
    && (forall i | 0 <= i < |log| && log[i].requestId.Some? && log[i].role == User ::
          i + 1 < |log| && log[i + 1].role == Assistant && log[i + 1].requestId == log[i].requestId)
    && (forall i | 0 <= i < |log| && log[i].requestId.Some? && log[i].role == Assistant ::
          i > 0 && log[i - 1].role == User && log[i - 1].requestId == log[i].requestId)
  }

  ghost predicate UniqueRequests(log: seq<Row>) {
    forall i, j | 0 <= i < j < |log| && log[i].requestId.Some? && log[i].requestId == log[j].requestId ::
      log[i].role != log[j].role
  }

  /** A running row is the reply of the current, running turn. */
  ghost predicate RunningIsCurrent(s: Session) {
    forall i | 0 <= i < |Log(s)| && Log(s)[i].status == Some(Running) ::
      TurnRunning(s) && Replies(Log(s)[i], s.turn.value.requestId)
  }

  /** The current turn has a reply row, and that row shows the turn's status. */
  ghost predicate TurnHasRow(s: Session) {
    s.turn.Some? ==>
      var k := LastReply(Log(s), s.turn.value.requestId);
      k.Some? && Log(s)[k.value].status == Some(s.turn.value.status)
  }

  ghost predicate Coherent(s: Session) {
    PairedRequests(Log(s)) && UniqueRequests(Log(s)) && RunningIsCurrent(s) && TurnHasRow(s)
  }

  lemma EmptyIsCoherent()
    ensures Coherent(EMPTY)
  {
  }

  lemma GrowingKeepsRequests(before: seq<Row>, after: seq<Row>)
    requires PairedRequests(before) && UniqueRequests(before) && Grows(before, after)
    requires forall i | |before| <= i < |after| :: after[i].requestId.None?
    ensures PairedRequests(after) && UniqueRequests(after)
  {
  }

  lemma LastReplyFrame(before: seq<Row>, after: seq<Row>, requestId: string)
    requires Grows(before, after)
    requires forall i | |before| <= i < |after| :: !Replies(after[i], requestId)
    ensures LastReply(after, requestId) == LastReply(before, requestId)
  {
    var a, b := LastReply(before, requestId), LastReply(after, requestId);
    if b.Some? && b.value < |before| { assert Replies(before[b.value], requestId); }
    if a.Some? { assert Replies(after[a.value], requestId); }
  }

  lemma UpdateKeepsCoherent(s: Session, turnId: string, changes: Changes)
    requires Coherent(s)
    ensures Coherent(UpdateTurnSpec(s, turnId, changes).0)
  {
    var s' := UpdateTurnSpec(s, turnId, changes).0;
    UpdateLogIs(s, turnId, changes);
    var before, after := Log(s), Log(s');
    if s' != s {
      assert Grows(before, after);
      GrowingKeepsRequests(before, after);
      LastReplyFrame(before, after, turnId);
      UpdateKeepsRunning(s, turnId, changes);
    }
  }

  lemma UpdateKeepsRunning(s: Session, turnId: string, changes: Changes)
    requires Coherent(s)
    ensures RunningIsCurrent(UpdateTurnSpec(s, turnId, changes).0)
  {
    UpdateLogIs(s, turnId, changes);
  }

  lemma BeginKeepsCoherent(s: Session, requestId: string, question: string)
    requires Coherent(s)
    ensures Coherent(BeginTurnSpec(s, requestId, question).0)
  {
    var s' := BeginTurnSpec(s, requestId, question).0;
    BeginLogIs(s, requestId, question);
    if !KnownRequest(Log(s), requestId) {
      var log, after := Log(s), Log(s');
      BeginInterruptsAllElse(s, requestId, question);
      BeginKeepsRequests(log, after, requestId, question);
      OnlyNewReplyRuns(s', |log|, requestId, question);
    }
  }

  lemma OnlyNewReplyRuns(s: Session, n: nat, requestId: string, question: string)
    requires PairedRequests(Log(s)) && UniqueRequests(Log(s)) && s.turn == Some(Turn(requestId, Running))
    requires |Log(s)| == n + 2 && Log(s)[n..] == OpeningRows(requestId, question)
    requires forall i | 0 <= i < n :: Log(s)[i].status != Some(Running)
    ensures Coherent(s)
  {
    assert Log(s)[n] == OpeningRows(requestId, question)[0];
    assert Log(s)[n + 1] == OpeningRows(requestId, question)[1];
    assert Replies(Log(s)[n + 1], requestId);
  }

  /** After a begin, the only running row is the new reply. */
  lemma BeginInterruptsAllElse(s: Session, requestId: string, question: string)
    requires RunningIsCurrent(s) && !KnownRequest(Log(s), requestId)
    ensures var log, after := Log(s), Log(BeginTurnSpec(s, requestId, question).0);
            && Grows(log, after) && |after| == |log| + 2 && after[|log|..] == OpeningRows(requestId, question)
            && (forall i | 0 <= i < |log| :: after[i].status != Some(Running))
            && (forall i | 0 <= i < |log| :: log[i].requestId != Some(requestId))
  {
    BeginLogIs(s, requestId, question);
    var log, after := Log(s), Log(BeginTurnSpec(s, requestId, question).0);
    var marked := if TurnRunning(s) then InterruptRows(log, s.turn.value.requestId) else log;
    assert after == marked + OpeningRows(requestId, question);
    forall i | 0 <= i < |log| ensures after[i].status != Some(Running) {
      assert after[i] == marked[i];
    }
  }

  lemma BeginKeepsRequests(log: seq<Row>, after: seq<Row>, requestId: string, question: string)
    requires PairedRequests(log) && UniqueRequests(log) && Grows(log, after)
    requires |after| == |log| + 2 && after[|log|..] == OpeningRows(requestId, question)
    requires forall i | 0 <= i < |log| :: log[i].requestId != Some(requestId)
    ensures PairedRequests(after) && UniqueRequests(after)
  {
    assert after[|log|] == OpeningRows(requestId, question)[0];
    assert after[|log| + 1] == OpeningRows(requestId, question)[1];
  }

  /** Operations that leave the turn alone and add only rows without a request. */
  lemma PlainStepFrame(s: Session, op: Op)
    requires op.Append? || op.Patch? || op.Compact? || op.Bind?
    ensures Apply(s, op).turn == s.turn
    ensures Grows(Log(s), Log(Apply(s, op)))
    ensures forall i | 0 <= i < |Log(s)| :: Log(Apply(s, op))[i].status == Log(s)[i].status
    ensures forall i | |Log(s)| <= i < |Log(Apply(s, op))| ::
              Log(Apply(s, op))[i].requestId.None? && Log(Apply(s, op))[i].status.None?
  {
    match op
    case Append(role, content) => AppendLogIs(s, role, content);
    case Patch(text) => PatchLogIs(s, text);
    case Compact(keepLast) => CompactLogIs(s, keepLast);
    case Bind(plan) => assert Log(Apply(s, op)) == Log(s);
  }

  lemma PlainStepKeepsCoherent(s: Session, op: Op)
    requires Coherent(s) && (op.Append? || op.Patch? || op.Compact? || op.Bind?)
    ensures Coherent(Apply(s, op))
  {
    PlainStepFrame(s, op);
    PlainGrowthKeepsCoherent(s, Apply(s, op));
  }

  lemma PlainGrowthKeepsCoherent(s: Session, s': Session)
    requires Coherent(s) && s'.turn == s.turn && Grows(Log(s), Log(s'))
    requires forall i | 0 <= i < |Log(s)| :: Log(s')[i].status == Log(s)[i].status
    requires forall i | |Log(s)| <= i < |Log(s')| :: Log(s')[i].requestId.None? && Log(s')[i].status.None?
    ensures Coherent(s')
  {
    GrowingKeepsRequests(Log(s), Log(s'));
    if s.turn.Some? {
      LastReplyFrame(Log(s), Log(s'), s.turn.value.requestId);
    }
  }

  /** The fork rule is exact: a branch of a coherent session is coherent if and only if the source's
      turn was not running when it was forked. */
  lemma ForkCoherentIffNotRunning(s: Session)
    requires Coherent(s)
    ensures Coherent(ForkSpec(s)) <==> !TurnRunning(s)
  {
    if TurnRunning(s) {
      var k := LastReply(Log(s), s.turn.value.requestId).value;
      assert Log(ForkSpec(s))[k].status == Some(Running);
    }
  }

  /** For every operation from a coherent session: coherence survives if and only if the operation
      is not a fork taken mid-turn. */
  lemma StepCoherentIff(s: Session, op: Op)
    requires Coherent(s)
    ensures Coherent(Apply(s, op)) <==> !(op.Branch? && TurnRunning(s))
  {
    match op
    case Begin(requestId, question) => BeginKeepsCoherent(s, requestId, question);
    case Update(turnId, changes) => UpdateKeepsCoherent(s, turnId, changes);
    case Read(idle) =>
      if idle && TurnRunning(s) {
        UpdateKeepsCoherent(s, s.turn.value.requestId, Changes(None, Some(Interrupted), INTERRUPTED_ON_READ));
      }
    case Branch => ForkCoherentIffNotRunning(s);
    case _ => PlainStepKeepsCoherent(s, op);
  }

  predicate NeverForksMidTurn(s: Session, ops: seq<Op>)
    decreases |ops|
  {
    ops == [] || (!(ops[0].Branch? && TurnRunning(s)) && NeverForksMidTurn(Apply(s, ops[0]), ops[1..]))
  }

  /** Coherence in the words of the promise: one user row, one assistant row, at most one running row. */
  lemma CoherentMeans(s: Session, i: nat, j: nat)
    requires Coherent(s) && i < |Log(s)| && j < |Log(s)|
    ensures Log(s)[i].requestId.Some? && Log(s)[i].requestId == Log(s)[j].requestId ==>
              (i == j <==> Log(s)[i].role == Log(s)[j].role)
    ensures Log(s)[i].status == Log(s)[j].status == Some(Running) ==> i == j
    ensures Log(s)[i].status == Some(Running) ==>
              && s.turn == Some(Turn(s.turn.value.requestId, Running))
              && Log(s)[i].requestId == Some(s.turn.value.requestId)
    ensures Log(s)[i].requestId.Some? ==>
              exists k | 0 <= k < |Log(s)| ::
                Log(s)[k].requestId == Log(s)[i].requestId && Log(s)[k].role != Log(s)[i].role
  {
    var log := Log(s);
    if log[i].requestId.Some? {
      var k := if log[i].role == User then i + 1 else i - 1;
      assert log[k].requestId == log[i].requestId && log[k].role != log[i].role;
    }
  }

  /** A row that runs although it is not the current turn's. */
  ghost predicate Stray(s: Session, k: nat, requestId: string) {
    && k < |Log(s)| && Log(s)[k].status == Some(Running) && Replies(Log(s)[k], requestId)
    && (s.turn.Some? ==> s.turn.value.requestId != requestId)
  }

  lemma ForkMidTurnStrays(s: Session)
    requires Coherent(s) && TurnRunning(s)
    ensures Stray(ForkSpec(s), LastReply(Log(s), s.turn.value.requestId).value, s.turn.value.requestId)
  {
  }

  lemma StepKeepsStray(s: Session, op: Op, k: nat, requestId: string)
    requires Stray(s, k, requestId)
    ensures Stray(Apply(s, op), k, requestId)
  {
    LogAfterIsLog(s, op);
    assert Log(s)[k].requestId == Some(requestId);
  }

  /** What a mid-turn fork leaves behind can never be repaired: over every run of every operation the
      copied row stays running. */
  lemma {:induction false} StrayStaysForever(s: Session, ops: seq<Op>, k: nat, requestId: string)
    requires Stray(s, k, requestId)
    ensures Stray(ApplyAll(s, ops), k, requestId)
    decreases |ops|
  {
    if ops != [] {
      StepKeepsStray(s, ops[0], k, requestId);
      StrayStaysForever(Apply(s, ops[0]), ops[1..], k, requestId);
    }
  }

  lemma MidTurnForkNeverHeals(s: Session, ops: seq<Op>)
    requires Coherent(s) && TurnRunning(s)
    ensures !Coherent(ApplyAll(ForkSpec(s), ops))
  {
    var requestId := s.turn.value.requestId;
    var k := LastReply(Log(s), requestId).value;
    ForkMidTurnStrays(s);
    StrayStaysForever(ForkSpec(s), ops, k, requestId);
  }

  /** Over every run: requests end up paired and unique, with no running row but the current turn's, if
      and only if the run never forked mid-turn. */
  lemma {:induction false} RunCoherentIff(s: Session, ops: seq<Op>)
    requires Coherent(s)
    ensures Coherent(ApplyAll(s, ops)) <==> NeverForksMidTurn(s, ops)
    decreases |ops|
  {
    if ops != [] {
      if ops[0].Branch? && TurnRunning(s) {
        MidTurnForkNeverHeals(s, ops[1..]);
      } else {
        StepCoherentIff(s, ops[0]);
        RunCoherentIff(Apply(s, ops[0]), ops[1..]);
      }
    }
  }

  /** A plan bound while a reply is being produced names that reply, after every later run. */
  lemma BindDuringTurnAnchorsReply(s: Session, plan: string, ops: seq<Op>)
    requires Coherent(s) && TurnRunning(s) && ValidPlanId(plan) && plan !in s.plans
    requires forall p <- s.anchors :: p in s.plans
    ensures var later := ApplyAll(Apply(s, Bind(plan)), ops);
            && plan in later.anchors && later.anchors[plan].AtRow?
            && var k := later.anchors[plan].index;
            k < |Log(later)| && Replies(Log(later)[k], s.turn.value.requestId)
  {
    AnchorNamesItsRowForever(s, plan, ops);
  }
}
