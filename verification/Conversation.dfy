/** The conversation store: an append-only log with compaction, anchors and turns. */
module Conversation {
  import opened Options
  import opened Strings

  const MAX_MESSAGES := 60
  const SUMMARY_LIMIT := 6000
  const TRUNCATION_NOTICE := "[更早摘要已截断]\n"
  const INTERRUPTED_ON_BEGIN := "此回答因应用中断而未完成；请核对已执行操作。"
  const INTERRUPTED_ON_READ := "应用已中断此回答。已保存的内容仍可查看，请核对已执行操作后继续。"

  datatype Role = User | Assistant

  datatype Progress = Running | Interrupted | Completed | Stopped | Failed | Other(name: string)

  datatype Row = Row(role: Role, content: string, requestId: Option<string>, status: Option<Progress>, error: string)

  datatype Turn = Turn(requestId: string, status: Progress)

  datatype Anchor = NoRow | AtRow(index: nat, requestId: Option<string>)

  datatype Session = Session(
    messages: seq<Row>,
    archived: seq<Row>,
    summary: string,
    compacted: nat,
    turn: Option<Turn>,
    plans: seq<string>,
    anchors: map<string, Anchor>)

  datatype Reply = Saved | NotFound | DuplicateRequest | TurnChanged | InvalidPlan

  const EMPTY := Session([], [], "", 0, None, [], map[])

  /** What update_turn may change besides the turn it must name. */
  datatype Changes = Changes(answer: Option<string>, status: Option<Progress>, error: string)

  function Log(s: Session): seq<Row> {
    s.archived + s.messages
  }

  predicate Replies(row: Row, requestId: string) {
    row.role == Assistant && row.requestId == Some(requestId)
  }

  predicate TurnRunning(s: Session) {
    s.turn.Some? && s.turn.value.status == Running
  }

  function LastReply(rows: seq<Row>, requestId: string): (r: Option<nat>)
    ensures r.Some? ==> r.value < |rows| && Replies(rows[r.value], requestId)
    ensures forall i | 0 <= i < |rows| && Replies(rows[i], requestId) :: r.Some? && i <= r.value
  {
    if rows == [] then None
    else if Replies(rows[|rows| - 1], requestId) then Some(|rows| - 1)
    else LastReply(rows[..|rows| - 1], requestId)
  }

  // ---------------------------------------------------------------- compaction

  function SummaryLine(row: Row): string {
    var text := Join(" ", Words(row.content));
    "- " + (if row.role == User then "用户" else "助手") + ": " + (if |text| > 500 then text[..500] else text)
  }

  function SummaryLines(rows: seq<Row>): seq<string> {
    seq(|rows|, i requires 0 <= i < |rows| => SummaryLine(rows[i]))
  }

  function Summarize(previous: string, moved: seq<Row>): string {
    var head := Strip(previous);
    Tail(Join("\n", if head == "" then SummaryLines(moved) else [head] + SummaryLines(moved)))
  }

  /** A long summary loses its beginning and says so. */
  function Tail(text: string): string {
    if |text| > SUMMARY_LIMIT then TRUNCATION_NOTICE + text[|text| - SUMMARY_LIMIT..] else text
  }

  function ArchiveSpec(s: Session, keep: nat): Session
    requires keep > 0
  {
    if |s.messages| <= keep then s else
      var cut := |s.messages| - keep;
      s.(summary := Summarize(s.summary, s.messages[..cut]),
         archived := s.archived + s.messages[..cut],
         messages := s.messages[cut..],
         compacted := s.compacted + cut)
  }

  function Bounded(s: Session): Session {
    if |s.messages| > MAX_MESSAGES then ArchiveSpec(s, MAX_MESSAGES) else s
  }

  function KeepClamp(keepLast: int): (keep: nat)
    ensures 2 <= keep <= 20
  {
    if keepLast < 2 then 2 else if keepLast > 20 then 20 else keepLast
  }

  // ---------------------------------------------------------------- the operations on one session

  function AppendSpec(s: Session, role: Role, content: string): Session {
    Bounded(s.(messages := s.messages + [Row(role, content, None, None, "")]))
  }

  function PatchSpec(s: Session, content: string): Session {
    var n := |s.messages|;
    if n > 0 && s.messages[n - 1].role == Assistant then
      s.(messages := s.messages[n - 1 := s.messages[n - 1].(content := content)])
    else AppendSpec(s, Assistant, content)
  }

  function CompactSpec(s: Session, keepLast: int): Session {
    ArchiveSpec(s, KeepClamp(keepLast))
  }

  predicate KnownRequest(rows: seq<Row>, requestId: string) {
    exists i | 0 <= i < |rows| :: rows[i].requestId == Some(requestId)
  }

  function InterruptedRow(row: Row, requestId: string): Row {
    if Replies(row, requestId) then row.(status := Some(Interrupted), error := INTERRUPTED_ON_BEGIN) else row
  }

  function InterruptRows(rows: seq<Row>, requestId: string): seq<Row> {
    seq(|rows|, i requires 0 <= i < |rows| => InterruptedRow(rows[i], requestId))
  }

  function InterruptOrphan(s: Session): Session {
    if TurnRunning(s) then
      s.(archived := InterruptRows(s.archived, s.turn.value.requestId),
         messages := InterruptRows(s.messages, s.turn.value.requestId))
    else s
  }

  function OpeningRows(requestId: string, content: string): seq<Row> {
    [Row(User, content, Some(requestId), None, ""), Row(Assistant, "", Some(requestId), Some(Running), "")]
  }

  function BeginTurnSpec(s: Session, requestId: string, content: string): (Session, Reply) {
    if KnownRequest(Log(s), requestId) then (s, DuplicateRequest) else
      var s1 := InterruptOrphan(s);
      var s2 := Bounded(s1.(messages := s1.messages + OpeningRows(requestId, content)));
      (s2.(turn := Some(Turn(requestId, Running))), Saved)
  }

  function UpdatedRow(row: Row, status: Progress, changes: Changes): Row {
    row.(content := if changes.answer.Some? then changes.answer.value else row.content,
         status := Some(status),
         error := if changes.error != "" then changes.error else row.error)
  }

  function ReplaceRow(s: Session, k: nat, row: Row): Session
    requires k < |Log(s)|
  {
    if k < |s.archived| then s.(archived := s.archived[k := row])
    else s.(messages := s.messages[k - |s.archived| := row])
  }

  function UpdateTurnSpec(s: Session, requestId: string, changes: Changes): (Session, Reply) {
    if s.turn.None? || s.turn.value.requestId != requestId then (s, TurnChanged) else
      var status := if changes.status.Some? then changes.status.value else s.turn.value.status;
      var s1 := s.(turn := Some(Turn(requestId, status)));
      var k := LastReply(Log(s), requestId);
      (if k.None? then s1 else ReplaceRow(s1, k.value, UpdatedRow(Log(s)[k.value], status, changes)), Saved)
  }

  /** snapshot(): only a reader that found the execution lock idle interrupts a running turn. */
  function SnapshotSpec(s: Session, idle: bool): Session {
    if idle && TurnRunning(s) then
      UpdateTurnSpec(s, s.turn.value.requestId, Changes(None, Some(Interrupted), INTERRUPTED_ON_READ)).0
    else s
  }

  function AnchorOf(s: Session): Anchor {
    var rows := Log(s);
    if rows == [] then NoRow else
      var reply := if TurnRunning(s) then LastReply(rows, s.turn.value.requestId) else None;
      var index := if reply.Some? then reply.value else |rows| - 1;
      AtRow(index, rows[index].requestId)
  }

  predicate ValidPlanId(plan: string) {
    |plan| == 16 && forall c <- plan :: '0' <= c <= '9' || 'a' <= c <= 'f'
  }

  function BindPlanSpec(s: Session, plan: string): (Session, Reply) {
    if !ValidPlanId(plan) then (s, InvalidPlan)
    else if plan in s.plans then (s, Saved)
    else (s.(plans := s.plans + [plan], anchors := s.anchors[plan := AnchorOf(s)]), Saved)
  }

  /** fork() copies rows, summary and plans, but never the turn. */
  function ForkSpec(s: Session): Session {
    s.(turn := None)
  }

  // ---------------------------------------------------------------- the store

  class ConversationStore {
    var sessions: map<string, Session>

    constructor ()
      ensures sessions == map[]
    {
      sessions := map[];
    }

    /** create_session(); identifiers are random, so never reused. */
    method CreateSession(id: string)
      requires id !in sessions
      modifies this
      ensures sessions == old(sessions)[id := EMPTY]
    {
      sessions := sessions[id := EMPTY];
    }

    /** One summary line per row that leaves the active window. */
    method CollectLines(moved: seq<Row>) returns (lines: seq<string>)
      ensures lines == SummaryLines(moved)
    {
      lines := [];
      var i := 0;
      while i < |moved|
        invariant 0 <= i == |lines| <= |moved|
        invariant forall k | 0 <= k < i :: lines[k] == SummaryLine(moved[k])
      {
        lines := lines + [SummaryLine(moved[i])];
        i := i + 1;
      }
    }

    method BuildSummary(previous: string, moved: seq<Row>) returns (summary: string)
      ensures summary == Summarize(previous, moved)
    {
      var head := Strip(previous);
      var lines := CollectLines(moved);
      if head != "" {
        lines := [head] + lines;
      }
      summary := Join("\n", lines);
      if |summary| > SUMMARY_LIMIT {
        summary := summary[|summary| - SUMMARY_LIMIT..];
        summary := TRUNCATION_NOTICE + summary;
      }
    }

    method Archive(payload: Session, keep: nat) returns (result: Session, count: nat)
      requires keep > 0
      ensures result == ArchiveSpec(payload, keep)
      ensures count == |result.archived| - |payload.archived|
    {
      var messages := payload.messages;
      var moved := if |messages| > keep then messages[..|messages| - keep] else [];
      if moved == [] { return payload, 0; }
      var summary := BuildSummary(payload.summary, moved);
      result := payload.(summary := summary,
                         archived := payload.archived + moved,
                         messages := messages[|messages| - keep..],
                         compacted := payload.compacted + |moved|);
      count := |moved|;
    }

    method Append(id: string, role: Role, content: string) returns (reply: Reply)
      modifies this
      ensures id !in old(sessions) ==> reply == NotFound && sessions == old(sessions)
      ensures id in old(sessions) ==>
                reply == Saved && sessions == old(sessions)[id := AppendSpec(old(sessions)[id], role, content)]
    {
      if id !in sessions { return NotFound; }
      var payload := sessions[id];
      payload := payload.(messages := payload.messages + [Row(role, content, None, None, "")]);
      if |payload.messages| > MAX_MESSAGES {
        var bounded, _ := Archive(payload, MAX_MESSAGES);
        payload := bounded;
      }
      sessions := sessions[id := payload];
      return Saved;
    }

    method PatchLastAssistant(id: string, content: string) returns (reply: Reply)
      modifies this
      ensures id !in old(sessions) ==> reply == NotFound && sessions == old(sessions)
      ensures id in old(sessions) ==>
                reply == Saved && sessions == old(sessions)[id := PatchSpec(old(sessions)[id], content)]
    {
      if id !in sessions { return NotFound; }
      var payload := sessions[id];
      var n := |payload.messages|;
      if n > 0 && payload.messages[n - 1].role == Assistant {
        payload := payload.(messages := payload.messages[n - 1 := payload.messages[n - 1].(content := content)]);
      } else {
        payload := payload.(messages := payload.messages + [Row(Assistant, content, None, None, "")]);
        if |payload.messages| > MAX_MESSAGES {
          var bounded, _ := Archive(payload, MAX_MESSAGES);
          payload := bounded;
        }
      }
      sessions := sessions[id := payload];
      return Saved;
    }

    method Compact(id: string, keepLast: int) returns (reply: Reply, compactedNow: nat)
      modifies this
      ensures id !in old(sessions) ==> reply == NotFound && sessions == old(sessions)
      ensures id in old(sessions) ==>
                && reply == Saved && sessions == old(sessions)[id := CompactSpec(old(sessions)[id], keepLast)]
                && compactedNow == |sessions[id].archived| - |old(sessions)[id].archived|
    {
      if id !in sessions { return NotFound, 0; }
      var keep := KeepClamp(keepLast);
      var payload, count := Archive(sessions[id], keep);
      sessions := sessions[id := payload];
      return Saved, count;
    }

    /** Marks every reply to an orphaned request, wherever compaction has moved it. */
    method MarkInterrupted(rows: seq<Row>, requestId: string) returns (result: seq<Row>)
      ensures result == InterruptRows(rows, requestId)
    {
      result := rows;
      var i := 0;
      while i < |rows|
        invariant 0 <= i <= |rows| == |result|
        invariant result[..i] == InterruptRows(rows, requestId)[..i] && result[i..] == rows[i..]
      {
        if rows[i].role == Assistant && rows[i].requestId == Some(requestId) {
          result := result[i := rows[i].(status := Some(Interrupted), error := INTERRUPTED_ON_BEGIN)];
        }
        assert result[i] == InterruptRows(rows, requestId)[i];
        i := i + 1;
      }
    }

    method BeginTurn(id: string, requestId: string, content: string) returns (reply: Reply)
      modifies this
      ensures id !in old(sessions) ==> reply == NotFound && sessions == old(sessions)
      ensures id in old(sessions) ==>
                var (after, outcome) := BeginTurnSpec(old(sessions)[id], requestId, content);
                reply == outcome && sessions == old(sessions)[id := after]
    {
      if id !in sessions { return NotFound; }
      var payload := sessions[id];
      var rows := payload.archived + payload.messages;
      if exists i | 0 <= i < |rows| :: rows[i].requestId == Some(requestId) {
        return DuplicateRequest;
      }
      if payload.turn.Some? && payload.turn.value.status == Running {
        var archived := MarkInterrupted(payload.archived, payload.turn.value.requestId);
        var messages := MarkInterrupted(payload.messages, payload.turn.value.requestId);
        payload := payload.(archived := archived, messages := messages);
      }
      payload := payload.(messages := payload.messages
                          + [Row(User, content, Some(requestId), None, ""),
                             Row(Assistant, "", Some(requestId), Some(Running), "")]);
      if |payload.messages| > MAX_MESSAGES {
        var bounded, _ := Archive(payload, MAX_MESSAGES);
        payload := bounded;
      }
      payload := payload.(turn := Some(Turn(requestId, Running)));
      sessions := sessions[id := payload];
      return Saved;
    }

    method UpdateTurn(id: string, requestId: string, changes: Changes) returns (reply: Reply)
      modifies this
      ensures id !in old(sessions) ==> reply == NotFound && sessions == old(sessions)
      ensures id in old(sessions) ==>
                var (after, outcome) := UpdateTurnSpec(old(sessions)[id], requestId, changes);
                reply == outcome && sessions == old(sessions)[id := after]
    {
      if id !in sessions { return NotFound; }
      var payload := sessions[id];
      if payload.turn.None? || payload.turn.value.requestId != requestId { return TurnChanged; }
      var turn := payload.turn.value;
      if changes.status.Some? {
        turn := turn.(status := changes.status.value);
      }
      payload := payload.(turn := Some(turn));
      var rows := payload.archived + payload.messages;
      var k := |rows|;
      while k > 0 && !(rows[k - 1].role == Assistant && rows[k - 1].requestId == Some(requestId))
        invariant 0 <= k <= |rows|
        invariant forall i | k <= i < |rows| :: !Replies(rows[i], requestId)
      {
        k := k - 1;
      }
      if k > 0 {
        var row := rows[k - 1];
        if changes.answer.Some? {
          row := row.(content := changes.answer.value);
        }
        row := row.(status := Some(turn.status));
        if changes.error != "" {
          row := row.(error := changes.error);
        }
        payload := ReplaceRow(payload, k - 1, row);
      }
      sessions := sessions[id := payload];
      return Saved;
    }

    /** snapshot() once it knows whether the execution lock was idle. */
    method Snapshot(id: string, idle: bool) returns (reply: Reply, active: bool)
      modifies this
      ensures id !in old(sessions) ==> reply == NotFound && sessions == old(sessions)
      ensures id in old(sessions) ==>
                reply == Saved && active == !idle
                && sessions == old(sessions)[id := SnapshotSpec(old(sessions)[id], idle)]
    {
      if id !in sessions { return NotFound, false; }
      var turn := sessions[id].turn;
      if idle && turn.Some? && turn.value.status == Running {
        reply := UpdateTurn(id, turn.value.requestId, Changes(None, Some(Interrupted), INTERRUPTED_ON_READ));
      }
      return Saved, !idle;
    }

    method BindWorkflowPlan(id: string, plan: string) returns (reply: Reply)
      modifies this
      ensures id !in old(sessions) ==>
                reply == (if ValidPlanId(plan) then NotFound else InvalidPlan) && sessions == old(sessions)
      ensures id in old(sessions) ==>
                var (after, outcome) := BindPlanSpec(old(sessions)[id], plan);
                reply == outcome && sessions == old(sessions)[id := after]
    {
      if !ValidPlanId(plan) { return InvalidPlan; }
      if id !in sessions { return NotFound; }
      var payload := sessions[id];
      if plan !in payload.plans {
        var anchor := CardAnchor(payload);
        payload := payload.(plans := payload.plans + [plan], anchors := payload.anchors[plan := anchor]);
        sessions := sessions[id := payload];
      }
      return Saved;
    }

    method CardAnchor(payload: Session) returns (anchor: Anchor)
      ensures anchor == AnchorOf(payload)
    {
      var rows := payload.archived + payload.messages;
      if rows == [] { return NoRow; }
      var index := |rows| - 1;
      if payload.turn.Some? && payload.turn.value.status == Running {
        var requestId := payload.turn.value.requestId;
        var i := |rows|;
        while i > 0 && !(rows[i - 1].role == Assistant && rows[i - 1].requestId == Some(requestId))
          invariant 0 <= i <= |rows|
          invariant forall j | i <= j < |rows| :: !Replies(rows[j], requestId)
        {
          i := i - 1;
        }
        if i > 0 {
          index := i - 1;
        }
      }
      return AtRow(index, rows[index].requestId);
    }

    method Fork(id: string, branch: string) returns (reply: Reply)
      requires branch !in sessions
      modifies this
      ensures id !in old(sessions) ==> reply == NotFound && sessions == old(sessions)
      ensures id in old(sessions) ==>
                reply == Saved && sessions == old(sessions)[branch := ForkSpec(old(sessions)[id])]
    {
      if id !in sessions { return NotFound; }
      var source := sessions[id];
      CreateSession(branch);
      sessions := sessions[branch := sessions[branch].(
        messages := source.messages, archived := source.archived, summary := source.summary,
        compacted := source.compacted, plans := source.plans, anchors := source.anchors)];
      return Saved;
    }
  }
}
