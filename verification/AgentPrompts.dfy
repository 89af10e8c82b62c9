/** What a run of the agent loop shows the outside. */
module AgentPrompts {
  import opened Options
  import opened AgentLoop
  import opened AgentRuns

  // ---------------------------------------------------------------- prompts

  /** Which messages one row of the history gives. */
  lemma HistoryRowTells(row: HistoryRow)
    ensures Filtered([row]) == if row.role == "user" then [User(row.content)]
                               else if row.role == "assistant" then [Assistant(row.content)]
                               else []
  {
    assert [row][..0] == [];
  }

  /** A history gives what its parts give, in order. */
  lemma {:induction false} HistoryConcat(a: seq<HistoryRow>, b: seq<HistoryRow>)
    ensures Filtered(a + b) == Filtered(a) + Filtered(b)
  {
    if b == [] {
      assert a + b == a;
    } else {
      var n := |b| - 1;
      assert (a + b)[..|a| + n] == a + b[..n];
      HistoryConcat(a, b[..n]);
    }
  }

  /** The text that a tool reply shows of an outcome: all of it, or its first 20000 characters. */
  predicate Carries(shown: string, content: string) {
    shown <= content && |shown| == if |content| <= 20000 then |content| else 20000
  }

  /** A turn as the provider sees it again: its calls in full, then one reply to each, in order, with what the tool
      gave. */
  ghost predicate IsTurn(messages: seq<Message>, reply: Reply) {
    && |messages| == 1 + |reply.calls|
    && messages[0].Calls? && messages[0].text == reply.text && |messages[0].requests| == |reply.calls|
    && forall i | 0 <= i < |reply.calls| ::
         && messages[0].requests[i] == reply.calls[i].request
         && messages[1 + i].ToolReply? && messages[1 + i].id == reply.calls[i].request.id
         && Carries(messages[1 + i].content, reply.calls[i].outcome.content)
  }

  ghost predicate ShowsTurn(messages: seq<Message>, at: nat, reply: Reply) {
    at + |reply.calls| < |messages| && IsTurn(messages[at..at + 1 + |reply.calls|], reply)
  }

  /** How many messages some turns take. */
  function Length(replies: seq<Reply>): nat {
    if replies == [] then 0 else Length(replies[..|replies| - 1]) + 1 + |replies[|replies| - 1].calls|
  }

  lemma ExchangeIsTurn(reply: Reply)
    ensures IsTurn(Exchange(reply), reply)
  {
  }

  lemma ShownBetween(before: seq<Message>, turn: seq<Message>, after: seq<Message>, reply: Reply)
    requires IsTurn(turn, reply)
    ensures ShowsTurn(before + turn + after, |before|, reply)
  {
    assert (before + turn + after)[|before|..|before| + |turn|] == turn;
  }

  lemma Regrouped(a: seq<Message>, b: seq<Message>, c: seq<Message>, d: seq<Message>)
    ensures a + (b + c + d) == a + b + c + d
  {
  }

  lemma {:induction false} TranscriptSplits(replies: seq<Reply>, t: nat) returns (rest: seq<Message>)
    requires t < |replies|
    ensures Transcript(replies) == Transcript(replies[..t]) + Exchange(replies[t]) + rest
  {
    var n := |replies| - 1;
    rest := [];
    if t < n {
      var r := TranscriptSplits(replies[..n], t);
      assert replies[..n][..t] == replies[..t];
      rest := r + Exchange(replies[n]);
    }
  }

  lemma {:induction false} TranscriptLength(replies: seq<Reply>)
    ensures |Transcript(replies)| == Length(replies)
  {
    if replies != [] {
      TranscriptLength(replies[..|replies| - 1]);
    }
  }

  lemma TurnIsShown(before: seq<Message>, turns: seq<Reply>, t: nat)
    requires t < |turns|
    ensures ShowsTurn(before + Transcript(turns), |before| + Length(turns[..t]), turns[t])
  {
    var rest := TranscriptSplits(turns, t);
    var earlier := Transcript(turns[..t]);
    TranscriptLength(turns[..t]);
    ExchangeIsTurn(turns[t]);
    Regrouped(before, earlier, Exchange(turns[t]), rest);
    ShownBetween(before + earlier, Exchange(turns[t]), rest, turns[t]);
  }

  /** A prompt taken apart. */
  ghost predicate ShowsRun(prompt: seq<Message>, head: string, history: seq<Message>, goal: string, turns: seq<Reply>) {
    var n := 2 + |history|;
    && |prompt| == n + Length(turns) && prompt[..n] == [System(head)] + history + [User(goal)]
    && forall t | 0 <= t < |turns| :: ShowsTurn(prompt, n + Length(turns[..t]), turns[t])
  }

  lemma PartsShow(head: string, history: seq<Message>, goal: string, turns: seq<Reply>)
    ensures ShowsRun([System(head)] + history + [User(goal)] + Transcript(turns), head, history, goal, turns)
  {
    var before := [System(head)] + history + [User(goal)];
    TranscriptLength(turns);
    forall t | 0 <= t < |turns|
      ensures ShowsTurn(before + Transcript(turns), 2 + |history| + Length(turns[..t]), turns[t])
    {
      TurnIsShown(before, turns, t);
    }
  }

  lemma ShownParts(system: string, history: seq<Message>, goal: string, rest: seq<Message>, context: string)
    ensures var messages := [System(system)] + history + [User(goal)] + rest;
            var head := if context == "" then system else system + "\n\n" + context;
            Headed(messages) && Shown(messages, context) == [System(head)] + history + [User(goal)] + rest
  {
    var messages := [System(system)] + history + [User(goal)] + rest;
    assert messages[1..] == history + [User(goal)] + rest;
  }

  /** The k-th prompt of any run, message by message: the system text, with the submission context of this turn if
      there is one; the history; the goal; and then each of the first k turns, its calls and their outcomes. */
  lemma PromptTells(env: Env, system: string, history: seq<HistoryRow>, goal: string, k: nat)
    requires Headed(Opening(system, history, goal)) && k < |Whole(env, Opening(system, history, goal)).0.prompts|
    ensures k <= |env.world.script|
    ensures var context := env.world.context(k);
            ShowsRun(Whole(env, Opening(system, history, goal)).0.prompts[k],
                     if context == "" then system else system + "\n\n" + context,
                     Filtered(history), goal, env.world.script[..k])
  {
    PromptsReplayTurns(env, Opening(system, history, goal), k);
    var context, turns := env.world.context(k), env.world.script[..k];
    ShownParts(system, Filtered(history), goal, Transcript(turns), context);
    PartsShow(if context == "" then system else system + "\n\n" + context, Filtered(history), goal, turns);
  }

  // ---------------------------------------------------------------- endings

  /** A run that is handed over answers in the words of the call that needs the user, or says that it waits. One
      that answers was never found stopped, at its last look either. One whose stream fails has shown exactly the
      fragments that the stream took. */
  lemma EndingTells(env: Env, opening: seq<Message>)
    requires Headed(opening)
    ensures var (s, e) := Whole(env, opening);
            && (e.Returned? && e.result.HandedOff? ==>
                  && s.dispatched != []
                  && var message := s.dispatched[|s.dispatched| - 1].outcome.message;
                  e.result.answer == if message == "" then "The workflow plan is waiting for human approval."
                                     else message)
            && (e.Returned? && e.result.Answered? && env.world.stopAt.Some? ==> s.looks <= env.world.stopAt.value)
            && (e == StreamFailed ==>
                  && 0 < |s.prompts| <= |env.world.script|
                  && var fragments, taken := env.world.script[|s.prompts| - 1].fragments,
                                             env.world.takes(|s.prompts| - 1);
                  taken.Some? && taken.value < |fragments| && s.streamed == fragments[..taken.value])
  {
    var q, done := WholeRunEnds(env, opening);
  }

  /** A limit asked for counts if it is positive; nothing else limits the turns. */
  lemma LimitTells(asked: Option<int>)
    ensures Limit(asked).Some? <==> asked.Some? && asked.value > 0
    ensures Limit(asked).Some? ==> Limit(asked).value == asked.value
  {
  }

  // ---------------------------------------------------------------- events

  function RanRows(events: seq<Event>): seq<Row> {
    if events == [] then [] else
      var last := events[|events| - 1];
      RanRows(events[..|events| - 1]) + if last.Ran? then [last.row] else []
  }

  function TurnsBegun(events: seq<Event>): seq<nat> {
    if events == [] then [] else
      var last := events[|events| - 1];
      TurnsBegun(events[..|events| - 1]) + if last.Thinking? then [last.turn] else []
  }

  /** A call's end is reported right after its start, and a start right before its end. */
  ghost predicate Announced(events: seq<Event>) {
    && (forall i | 0 <= i < |events| && events[i].Ran? ::
          i > 0 && events[i - 1] == Running(events[i].row.tool, events[i].row.turn))
    && (forall i | 0 <= i < |events| && events[i].Running? :: i + 1 < |events| && events[i + 1].Ran?)
  }

  /** What the host has been told is what was done so far. */
  ghost predicate Narrates(s: State) {
    && RanRows(s.events) == s.trace && Announced(s.events)
    && |s.prompts| == s.turn && TurnsBegun(s.events) == seq(s.turn, i => i + 1)
  }

  lemma OneMoreEvent(events: seq<Event>, e: Event)
    ensures RanRows(events + [e]) == RanRows(events) + if e.Ran? then [e.row] else []
    ensures TurnsBegun(events + [e]) == TurnsBegun(events) + if e.Thinking? then [e.turn] else []
  {
    assert (events + [e])[..|events|] == events;
  }

  lemma DispatchedNarrates(s: State, call: Call)
    requires Narrates(s)
    ensures Narrates(Dispatched(s, call))
  {
    var row := Row(s.turn, call.request.name, call.outcome.ok);
    var running := Running(call.request.name, s.turn);
    OneMoreEvent(s.events, running);
    OneMoreEvent(s.events + [running], Ran(row));
  }

  lemma ClosedNarrates(s: State, result: Result)
    requires Narrates(s)
    ensures Narrates(Closed(s, result).0)
  {
    OneMoreEvent(s.events, if result.LimitReached? then Error(result) else Final(result));
  }

  lemma {:induction false} CallsNarrate(w: World, s: State, reply: Reply, j: nat)
    requires j <= |reply.calls| && Narrates(s)
    ensures Narrates(CallsFrom(w, s, reply, j).0)
    decreases |reply.calls| - j
  {
    if j < |reply.calls| {
      if StopSeen(w, s.looks) {
        ClosedNarrates(s.(looks := s.looks + 1), Stopped(reply.text, s.turn, s.trace));
      } else {
        var s' := Dispatched(s, reply.calls[j]);
        DispatchedNarrates(s, reply.calls[j]);
        if reply.calls[j].outcome.needsUser {
          ClosedNarrates(s', HandedOff(HandOff(reply.calls[j]), s.turn, s'.trace));
        } else {
          CallsNarrate(w, s', reply, j + 1);
        }
      }
    }
  }

  lemma AskedNarrates(env: Env, s: State)
    requires Headed(s.messages) && Narrates(s)
    ensures Narrates(Asked(env, s))
  {
    OneMoreEvent(s.events, Thinking(s.turn + 1));
    assert seq(s.turn + 1, i => i + 1) == seq(s.turn, i => i + 1) + [s.turn + 1];
  }

  lemma HeardNarrates(env: Env, s: State, reply: Reply)
    requires s.turn > 0 && Narrates(s)
    ensures Narrates(Heard(env, s, reply).0)
  {
    var looks := Listen(env.world, s.looks, if env.streaming then |reply.fragments| else 0).0;
    var s1 := s.(looks := looks);
    var taken := Taken(env.world, s.turn - 1, reply.fragments);
    var s2 := if env.streaming then s1.(streamed := s1.streamed + taken) else s1;
    CallsNarrate(env.world, s1.(messages := s1.messages + [Calls(reply.text, Requests(reply.calls))]), reply, 0);
    ClosedNarrates(s2.(looks := looks + 1), Answered(reply.text, s.turn, s.trace));
  }

  lemma TurnNarrates(env: Env, s: State)
    requires Headed(s.messages) && s.turn <= |env.world.script| && Narrates(s)
    ensures Narrates(Turn(env, s).0)
  {
    AskedNarrates(env, s);
    ClosedNarrates(s.(looks := s.looks + 1), Stopped("", s.turn, s.trace));
    ClosedNarrates(s.(looks := s.looks + 1), LimitReached(s.turn, s.trace));
    if s.turn < |env.world.script| {
      HeardNarrates(env, Asked(env, s), env.world.script[s.turn]);
    }
  }

  lemma {:induction false} RunNarrates(env: Env, s: State)
    requires Headed(s.messages) && s.turn <= |env.world.script| && Narrates(s)
    ensures Narrates(RunFrom(env, s).0)
    decreases |env.world.script| - s.turn
  {
    TurnNarrates(env, s);
    TurnKeeps(env, s);
    if Turn(env, s).1.None? {
      RunNarrates(env, Turn(env, s).0);
    }
  }

  /** In every run the host is told of each turn as it begins, numbered from one, and of each dispatched call twice,
      when it starts and right after that how it ended, in the order of the trace. */
  lemma EventsTellTheRun(env: Env, opening: seq<Message>)
    requires Headed(opening)
    ensures var s := Whole(env, opening).0;
            && RanRows(s.events) == s.trace && Announced(s.events)
            && TurnsBegun(s.events) == seq(|s.prompts|, i => i + 1)
  {
    RunNarrates(env, Start(opening));
  }
}
