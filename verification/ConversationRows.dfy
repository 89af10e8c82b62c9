/** What each operation makes of each row and of the window. */
module ConversationRows {
  import opened Options
  import opened Conversation
  import opened ConversationRuns

  // ---------------------------------------------------------------- row by row

  predicate IsLastReply(log: seq<Row>, requestId: string, k: nat) {
    && k < |log| && log[k].role == Assistant && log[k].requestId == Some(requestId)
    && forall i | k < i < |log| :: log[i].role != Assistant || log[i].requestId != Some(requestId)
  }

  lemma LastReplyIsIt(log: seq<Row>, requestId: string, k: nat)
    ensures LastReply(log, requestId) == Some(k) <==> IsLastReply(log, requestId, k)
  {
    if IsLastReply(log, requestId, k) {
      assert Replies(log[k], requestId);
    }
  }

  predicate Accepts(s: Session, requestId: string) {
    s.turn.Some? && s.turn.value.requestId == requestId
  }

  /** The operation saves this turn's row: an accepted update of it. */
  predicate Saves(s: Session, op: Op, i: nat) {
    op.Update? && Accepts(s, op.turnId) && IsLastReply(Log(s), op.turnId, i)
  }

  /** The operation gives the row a new content. */
  predicate Rewrites(s: Session, op: Op, i: nat) {
    || (Saves(s, op, i) && op.changes.answer.Some?)
    || (op.Patch? && s.messages != [] && i == |Log(s)| - 1 && Log(s)[i].role == Assistant)
  }

  function NewContent(op: Op): string
    requires op.Patch? || (op.Update? && op.changes.answer.Some?)
  {
    if op.Patch? then op.text else op.changes.answer.value
  }

  /** The row replies to a running turn that a new question finds orphaned. */
  predicate OrphanedBy(s: Session, op: Op, i: nat)
    requires i < |Log(s)|
  {
    && op.Begin? && TurnRunning(s) && (forall row <- Log(s) :: row.requestId != Some(op.requestId))
    && Log(s)[i].role == Assistant && Log(s)[i].requestId == Some(s.turn.value.requestId)
  }

  /** A reader that finds the execution lock idle settles the running turn's row. */
  predicate SettledBy(s: Session, op: Op, i: nat) {
    op.Read? && op.idle && TurnRunning(s) && IsLastReply(Log(s), s.turn.value.requestId, i)
  }

  lemma KnownMeans(rows: seq<Row>, requestId: string)
    ensures KnownRequest(rows, requestId) <==> exists row <- rows :: row.requestId == Some(requestId)
  {
    if row :| row in rows && row.requestId == Some(requestId) {
      var i :| 0 <= i < |rows| && rows[i] == row;
      assert rows[i].requestId == Some(requestId);
    }
  }

  /** For every operation and every row of the log: what the row says afterwards, and that nothing else of it
      changes. */
  lemma StepRewrites(s: Session, op: Op, i: nat)
    requires i < |Log(s)|
    ensures i < |Log(Apply(s, op))|
    ensures var before, after := Log(s)[i], Log(Apply(s, op))[i];
            && after.role == before.role && after.requestId == before.requestId
            && after.content == (if Rewrites(s, op, i) then NewContent(op) else before.content)
            && after.error == (if Saves(s, op, i) && op.changes.error != "" then op.changes.error
                               else if OrphanedBy(s, op, i) then INTERRUPTED_ON_BEGIN
                               else if SettledBy(s, op, i) then INTERRUPTED_ON_READ
                               else before.error)
            && after.status == if Saves(s, op, i) then
                                 if op.changes.status.Some? then op.changes.status else Some(s.turn.value.status)
                               else if OrphanedBy(s, op, i) || SettledBy(s, op, i) then Some(Interrupted)
                               else before.status
  {
    LogAfterIsLog(s, op);
    if op.Begin? {
      KnownMeans(Log(s), op.requestId);
    } else if op.Update? {
      LastReplyIsIt(Log(s), op.turnId, i);
    } else if op.Read? && TurnRunning(s) {
      LastReplyIsIt(Log(s), s.turn.value.requestId, i);
    }
  }

  predicate NeverRewrites(s: Session, ops: seq<Op>, k: nat)
    decreases |ops|
  {
    ops == [] || (!Rewrites(s, ops[0], k) && NeverRewrites(Apply(s, ops[0]), ops[1..], k))
  }

  lemma {:induction false} ContentHolds(s: Session, ops: seq<Op>, k: nat)
    requires k < |Log(s)| && NeverRewrites(s, ops, k)
    ensures k < |Log(ApplyAll(s, ops))| && Log(ApplyAll(s, ops))[k].content == Log(s)[k].content
    decreases |ops|
  {
    if ops != [] {
      StepRewrites(s, ops[0], k);
      ContentHolds(Apply(s, ops[0]), ops[1..], k);
    }
  }

  /** An accepted update with an answer is what the reply's row holds from then on, over every run, until the next
      update with an answer or patch of that very row. */
  lemma SavedAnswerHolds(s: Session, turnId: string, changes: Changes, k: nat, ops: seq<Op>)
    requires Accepts(s, turnId) && IsLastReply(Log(s), turnId, k) && changes.answer.Some?
    requires NeverRewrites(Apply(s, Update(turnId, changes)), ops, k)
    ensures UpdateTurnSpec(s, turnId, changes).1 == Saved
    ensures var later := ApplyAll(Apply(s, Update(turnId, changes)), ops);
            k < |Log(later)| && Log(later)[k].content == changes.answer.value && Log(later)[k].role == Assistant
            && Log(later)[k].requestId == Some(turnId)
  {
    var saved := Apply(s, Update(turnId, changes));
    StepRewrites(s, Update(turnId, changes), k);
    ContentHolds(saved, ops, k);
    RunGrowsLogOnly(saved, ops);
  }

  lemma {:induction false} RunGrowsLogOnly(s: Session, ops: seq<Op>)
    ensures Grows(Log(s), Log(ApplyAll(s, ops)))
    decreases |ops|
  {
    if ops != [] {
      StepGrowsLog(s, ops[0]);
      RunGrowsLogOnly(Apply(s, ops[0]), ops[1..]);
    }
  }

  /** The rows that an operation adds, and whether it is turned away. */
  lemma StepAdds(s: Session, op: Op)
    ensures |Log(Apply(s, op))| >= |Log(s)|
    ensures var added := Log(Apply(s, op))[|Log(s)|..];
            match op
            case Append(role, content) => added == [Row(role, content, None, None, "")]
            case Patch(text) =>
              added == if s.messages != [] && Log(s)[|Log(s)| - 1].role == Assistant then []
                       else [Row(Assistant, text, None, None, "")]
            case Begin(requestId, question) =>
              if exists row <- Log(s) :: row.requestId == Some(requestId) then
                Apply(s, op) == s && BeginTurnSpec(s, requestId, question).1 == DuplicateRequest
              else
                && BeginTurnSpec(s, requestId, question).1 == Saved
                && added == [Row(User, question, Some(requestId), None, ""),
                             Row(Assistant, "", Some(requestId), Some(Running), "")]
                && Apply(s, op).turn == Some(Turn(requestId, Running))
            case Update(turnId, changes) =>
              && added == [] && (UpdateTurnSpec(s, turnId, changes).1 == TurnChanged <==> !Accepts(s, turnId))
              && (!Accepts(s, turnId) ==> Apply(s, op) == s)
            case _ => added == []
  {
    LogAfterIsLog(s, op);
    if op.Begin? {
      KnownMeans(Log(s), op.requestId);
      BeginLogIs(s, op.requestId, op.question);
    }
  }

  function Least(a: nat, b: nat): nat {
    if a < b then a else b
  }

  /** How many of the log's last rows stay in the active window. */
  lemma StepWindow(s: Session, op: Op)
    ensures var n, n' := |s.messages|, |Apply(s, op).messages|;
            match op
            case Append(_, _) => n' == Least(60, n + 1)
            case Patch(_) =>
              n' == if s.messages != [] && Log(s)[|Log(s)| - 1].role == Assistant then n else Least(60, n + 1)
            case Compact(keep) => n' == Least(n, if keep < 2 then 2 else if keep > 20 then 20 else keep)
            case Begin(requestId, _) => n' == if KnownRequest(Log(s), requestId) then n else Least(60, n + 2)
            case _ => n' == n
    ensures Apply(s, op).messages == Log(Apply(s, op))[|Log(Apply(s, op))| - |Apply(s, op).messages|..]
  {
    match op
    case Append(role, content) =>
      ArchiveKeepsLog(s.(messages := s.messages + [Row(role, content, None, None, "")]), 60);
    case Patch(text) => ArchiveKeepsLog(s.(messages := s.messages + [Row(Assistant, text, None, None, "")]), 60);
    case Compact(keep) => ArchiveKeepsLog(s, KeepClamp(keep));
    case Begin(requestId, question) =>
      var s1 := InterruptOrphan(s);
      ArchiveKeepsLog(s1.(messages := s1.messages + OpeningRows(requestId, question)), 60);
    case _ =>
  }

  /** Binding answers by the plan's name: sixteen lower-case hexadecimal digits, or refused. A plan bound again
      keeps its anchor; a new one is anchored to the running turn's last reply, else to the last row. */
  lemma BindAnswers(s: Session, plan: string)
    ensures var (s', reply) := BindPlanSpec(s, plan);
            && (reply == InvalidPlan <==> |plan| != 16 || exists c <- plan :: c !in "0123456789abcdef")
            && (reply == InvalidPlan || reply == Saved)
            && (reply == InvalidPlan || plan in s.plans ==> s' == s)
            && (reply == Saved && plan !in s.plans ==>
                  && s'.plans == s.plans + [plan] && plan in s'.anchors
                  && s' == s.(plans := s'.plans, anchors := s.anchors[plan := s'.anchors[plan]])
                  && (Log(s) == [] ==> s'.anchors[plan] == NoRow)
                  && (Log(s) != [] ==>
                        && s'.anchors[plan].AtRow?
                        && var k := s'.anchors[plan].index;
                        && k < |Log(s)| && s'.anchors[plan].requestId == Log(s)[k].requestId
                        && if TurnRunning(s) && exists i: nat :: IsLastReply(Log(s), s.turn.value.requestId, i)
                           then IsLastReply(Log(s), s.turn.value.requestId, k)
                           else k == |Log(s)| - 1))
  {
    HexDigits();
    if TurnRunning(s) {
      forall i: nat ensures LastReply(Log(s), s.turn.value.requestId) == Some(i)
                            <==> IsLastReply(Log(s), s.turn.value.requestId, i) {
        LastReplyIsIt(Log(s), s.turn.value.requestId, i);
      }
    }
  }

  lemma HexDigits()
    ensures forall c: char :: c in "0123456789abcdef" <==> '0' <= c <= '9' || 'a' <= c <= 'f'
  {
    var digits := "0123456789abcdef";
    forall c: char | '0' <= c <= '9' || 'a' <= c <= 'f' ensures c in digits {
      assert digits[if c <= '9' then c as int - '0' as int else 10 + c as int - 'a' as int] == c;
    }
  }

  /** A branch is its source in everything but the turn, which it does not have. */
  lemma BranchCopies(s: Session)
    ensures ForkSpec(s) == Session(s.messages, s.archived, s.summary, s.compacted, None, s.plans, s.anchors)
  {
  }
}
