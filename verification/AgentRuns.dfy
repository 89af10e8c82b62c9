/** What every run of the agent loop keeps, whatever the provider, the tools and the user do. */
module AgentRuns {
  import opened Options
  import opened AgentLoop

  /** What a whole turn of calls adds to the conversation: the calls, then their replies in order. */
  function Exchange(r: Reply): seq<Message> {
    [Calls(r.text, Requests(r.calls))] + Answers(r.calls)
  }

  function Answers(calls: seq<Call>): seq<Message> {
    seq(|calls|, i requires 0 <= i < |calls| => Answer(calls[i]))
  }

  function Transcript(replies: seq<Reply>): seq<Message> {
    if replies == [] then [] else
      var n := |replies| - 1;
      Transcript(replies[..n]) + Exchange(replies[n])
  }

  function AllCalls(replies: seq<Reply>): seq<Call> {
    if replies == [] then [] else
      var n := |replies| - 1;
      AllCalls(replies[..n]) + replies[n].calls
  }

  function RowsOf(turn: nat, calls: seq<Call>): seq<Row> {
    seq(|calls|, i requires 0 <= i < |calls| => Row(turn, calls[i].request.name, calls[i].outcome.ok))
  }

  /** The trace that a run of whole turns leaves. */
  function Trace(replies: seq<Reply>): seq<Row> {
    if replies == [] then [] else
      var n := |replies| - 1;
      Trace(replies[..n]) + RowsOf(n + 1, replies[n].calls)
  }

  predicate NoHandOff(calls: seq<Call>) {
    forall call <- calls :: !call.outcome.needsUser
  }

  /** A reply after which the loop asks the provider again. */
  predicate Continues(r: Reply) {
    !r.fails && r.calls != [] && NoHandOff(r.calls)
  }

  predicate NoEnd(events: seq<Event>) {
    forall e <- events :: !e.Final? && !e.Error?
  }

  // ---------------------------------------------------------------- one turn's calls

  /** The first n of a turn's calls done. */
  function Done(s: State, calls: seq<Call>, events: seq<Event>): State {
    s.(looks := s.looks + |calls|, dispatched := s.dispatched + calls, trace := s.trace + RowsOf(s.turn, calls),
       messages := s.messages + Answers(calls), events := events)
  }

  lemma DoneOneMore(s: State, call: Call, rest: seq<Call>, events: seq<Event>)
    ensures Done(Dispatched(s, call), rest, events) == Done(s, [call] + rest, events)
  {
    assert RowsOf(s.turn, [call] + rest) == [Row(s.turn, call.request.name, call.outcome.ok)] + RowsOf(s.turn, rest);
    assert Answers([call] + rest) == [Answer(call)] + Answers(rest);
  }

  lemma DoneFrom(s: State, calls: seq<Call>, j: nat, n: nat, events: seq<Event>)
    requires j < n <= |calls|
    ensures Done(s, calls[j..n], events) == Done(Dispatched(s, calls[j]), calls[j + 1..n], events)
  {
    DoneOneMore(s, calls[j], calls[j + 1..n], events);
    assert calls[j..n] == [calls[j]] + calls[j + 1..n];
  }

  lemma DoneNothing(s: State)
    ensures Done(s, [], s.events) == s
  {
  }

  /** How a turn's calls end: all done; the last one done needs the user; or the stop flag was seen. */
  ghost predicate CallsEnd(w: World, turn: nat, reply: Reply, done: seq<Call>, mid: State, end: State,
                           e: Option<Ending>) {
    match e
    case None => mid == end && done == reply.calls && NoHandOff(done)
    case Some(Returned(HandedOff(answer, turns, trace))) =>
      && done != [] && NoHandOff(done[..|done| - 1]) && done[|done| - 1].outcome.needsUser
      && answer == HandOff(done[|done| - 1]) && turns == turn && trace == mid.trace
      && (end, e.value) == Closed(mid, e.value.result)
    case Some(Returned(Stopped(answer, turns, trace))) =>
      && NoHandOff(done) && StopSeen(w, mid.looks) && answer == reply.text
      && turns == turn && trace == mid.trace
      && (end, e.value) == Closed(mid.(looks := mid.looks + 1), e.value.result)
    case _ => false
  }

  ghost predicate CallsAre(w: World, s: State, reply: Reply, j: nat, n: nat, events: seq<Event>) {
    && j <= n <= |reply.calls| && NoEnd(events)
    && var mid := Done(s, reply.calls[j..n], events);
       && (w.stopAt.Some? ==> mid.looks <= w.stopAt.value)
       && CallsEnd(w, s.turn, reply, reply.calls[..n], mid, CallsFrom(w, s, reply, j).0, CallsFrom(w, s, reply, j).1)
  }

  lemma CallsGoOn(w: World, s: State, reply: Reply, j: nat, n: nat, events: seq<Event>)
    requires j < |reply.calls| && !StopSeen(w, s.looks) && !reply.calls[j].outcome.needsUser
    requires CallsAre(w, Dispatched(s, reply.calls[j]), reply, j + 1, n, events)
    ensures CallsAre(w, s, reply, j, n, events)
  {
    DoneFrom(s, reply.calls, j, n, events);
  }

  lemma CallsStop(w: World, s: State, reply: Reply, j: nat)
    requires j <= |reply.calls| && NoHandOff(reply.calls[..j]) && NoEnd(s.events)
    requires w.stopAt.Some? ==> s.looks <= w.stopAt.value
    requires j == |reply.calls| || StopSeen(w, s.looks)
    ensures CallsAre(w, s, reply, j, j, s.events)
  {
    DoneNothing(s);
    assert reply.calls[j..j] == [];
    if j == |reply.calls| {
      assert reply.calls[..j] == reply.calls;
    }
  }

  lemma CallsHandOff(w: World, s: State, reply: Reply, j: nat)
    requires j < |reply.calls| && NoHandOff(reply.calls[..j]) && NoEnd(s.events)
    requires w.stopAt.Some? ==> s.looks <= w.stopAt.value
    requires !StopSeen(w, s.looks) && reply.calls[j].outcome.needsUser
    ensures CallsAre(w, s, reply, j, j + 1, Dispatched(s, reply.calls[j]).events)
  {
    var s' := Dispatched(s, reply.calls[j]);
    DoneFrom(s, reply.calls, j, j + 1, s'.events);
    DoneNothing(s');
    assert reply.calls[..j + 1] == reply.calls[..j] + [reply.calls[j]];
  }

  lemma {:induction false} CallsFromIs(w: World, s: State, reply: Reply, j: nat)
      returns (n: nat, events: seq<Event>)
    requires j <= |reply.calls| && NoHandOff(reply.calls[..j]) && NoEnd(s.events)
    requires w.stopAt.Some? ==> s.looks <= w.stopAt.value
    ensures CallsAre(w, s, reply, j, n, events)
    decreases |reply.calls| - j
  {
    if j == |reply.calls| || StopSeen(w, s.looks) {
      n, events := j, s.events;
      CallsStop(w, s, reply, j);
    } else if reply.calls[j].outcome.needsUser {
      n, events := j + 1, Dispatched(s, reply.calls[j]).events;
      CallsHandOff(w, s, reply, j);
    } else {
      assert reply.calls[..j + 1] == reply.calls[..j] + [reply.calls[j]];
      n, events := CallsFromIs(w, Dispatched(s, reply.calls[j]), reply, j + 1);
      CallsGoOn(w, s, reply, j, n, events);
    }
  }

  // ---------------------------------------------------------------- whole runs

  /** The prompt of one turn: the opening, then every earlier turn in full. */
  function PromptAt(env: Env, opening: seq<Message>, k: nat): seq<Message>
    requires Headed(opening) && k <= |env.world.script|
  {
    Shown(opening + Transcript(env.world.script[..k]), env.world.context(k))
  }

  ghost predicate PromptsRight(env: Env, opening: seq<Message>, prompts: seq<seq<Message>>)
    requires Headed(opening)
  {
    forall k | 0 <= k < |prompts| :: k <= |env.world.script| && prompts[k] == PromptAt(env, opening, k)
  }

  ghost predicate Within(env: Env, s: State) {
    && (env.world.stopAt.Some? ==> |s.prompts| + |s.dispatched| <= env.world.stopAt.value)
    && (env.maxTurns.Some? ==> |s.prompts| <= env.maxTurns.value)
  }

  /** At the top of the loop: q whole turns are behind, and nothing else. */
  ghost predicate AtTop(env: Env, opening: seq<Message>, s: State)
    requires Headed(opening) && s.turn <= |env.world.script|
  {
    var before := env.world.script[..s.turn];
    && (forall r <- before :: Continues(r))
    && s.messages == opening + Transcript(before)
    && s.dispatched == AllCalls(before)
    && s.trace == Trace(before)
    && s.streamed == [] && NoEnd(s.events)
    && PromptsRight(env, opening, s.prompts) && |s.prompts| == s.turn
    && |s.prompts| + |s.dispatched| == s.turn + |AllCalls(before)| <= s.looks
    && (env.world.stopAt.Some? ==> s.looks <= env.world.stopAt.value)
    && (env.maxTurns.Some? ==> s.turn <= env.maxTurns.value)
  }

  ghost predicate Tops(env: Env, opening: seq<Message>, s: State) {
    Headed(opening) && s.turn <= |env.world.script| && AtTop(env, opening, s)
  }

  /** How the turn after the whole turns went, by the way the run ended. */
  ghost predicate LastTurn(env: Env, q: nat, done: seq<Call>, s: State, e: Ending)
    requires q <= |env.world.script|
  {
    var script := env.world.script;
    var begun := q < |script| && |s.prompts| == q + 1;
    match e
    case Waiting => q == |script| && |s.prompts| == q + 1 && done == [] && s.streamed == []
    case ProviderFailed => begun && script[q].fails && done == [] && s.streamed == []
    case Interrupted =>
      && begun && done == [] && env.world.stopAt.Some?
      && (s.streamed == [] || (script[q].calls == [] && s.streamed == script[q].fragments))
    case StreamFailed =>
      && begun && done == [] && !script[q].fails && script[q].calls == []
      && env.streaming && Refuses(env.world, q, script[q].fragments)
      && s.streamed == Taken(env.world, q, script[q].fragments)
    case Returned(Answered(answer, _, _)) =>
      && begun && done == [] && !script[q].fails && script[q].calls == [] && answer == script[q].text
      && (env.streaming ==> !Refuses(env.world, q, script[q].fragments))
      && (env.world.stopAt.Some? ==> s.looks <= env.world.stopAt.value)
      && s.streamed == if env.streaming then script[q].fragments else []
    case Returned(HandedOff(answer, _, _)) =>
      && begun && !script[q].fails && s.streamed == []
      && done != [] && done <= script[q].calls && NoHandOff(done[..|done| - 1]) && done[|done| - 1].outcome.needsUser
      && answer == HandOff(done[|done| - 1])
    case Returned(Stopped(answer, _, _)) =>
      && env.world.stopAt.Some? && s.streamed == [] && NoHandOff(done)
      && if |s.prompts| == q then done == [] && answer == ""
         else begun && !script[q].fails && script[q].calls != [] && done <= script[q].calls && answer == script[q].text
    case Returned(LimitReached(_, _)) =>
      |s.prompts| == q && done == [] && s.streamed == [] && env.maxTurns == Some(q)
  }

  /** What the outside was told at the end. */
  ghost predicate Reported(s: State, e: Ending) {
    match e
    case Returned(r) =>
      && r.turns == |s.prompts| && r.trace == s.trace
      && s.events != [] && NoEnd(s.events[..|s.events| - 1])
      && s.events[|s.events| - 1] == if r.LimitReached? then Error(r) else Final(r)
    case _ => NoEnd(s.events)
  }

  ghost predicate Ended(env: Env, opening: seq<Message>, q: nat, done: seq<Call>, s: State, e: Ending)
    requires Headed(opening)
  {
    && q <= |env.world.script|
    && (forall r <- env.world.script[..q] :: Continues(r))
    && s.dispatched == AllCalls(env.world.script[..q]) + done
    && s.trace == Trace(env.world.script[..q]) + RowsOf(q + 1, done)
    && PromptsRight(env, opening, s.prompts)
    && Within(env, s)
    && LastTurn(env, q, done, s, e)
    && Reported(s, e)
  }

  lemma {:induction false} ListenBounds(w: World, looks: nat, n: nat)
    requires w.stopAt.Some? ==> looks <= w.stopAt.value
    ensures Listen(w, looks, n).0 >= looks
    ensures Listen(w, looks, n).1 ==> w.stopAt.Some?
    ensures !Listen(w, looks, n).1 && w.stopAt.Some? ==> Listen(w, looks, n).0 <= w.stopAt.value
    decreases n
  {
    if n > 0 && !StopSeen(w, looks) {
      ListenBounds(w, looks + 1, n - 1);
    }
  }

  lemma AskedPrompts(env: Env, opening: seq<Message>, s: State)
    requires Headed(opening) && s.turn <= |env.world.script| && Headed(s.messages)
    requires s.messages == opening + Transcript(env.world.script[..s.turn])
    requires |s.prompts| == s.turn && PromptsRight(env, opening, s.prompts)
    ensures PromptsRight(env, opening, Asked(env, s).prompts)
  {
    assert Shown(s.messages, env.world.context(s.turn)) == PromptAt(env, opening, s.turn);
  }

  lemma WholeTurn(env: Env, opening: seq<Message>, s: State, mid: State, reply: Reply)
    requires Tops(env, opening, s) && s.turn < |env.world.script| && reply == env.world.script[s.turn]
    requires Continues(reply) && !StopSeen(env.world, s.looks) && (env.maxTurns.Some? ==> s.turn < env.maxTurns.value)
    requires mid.messages == s.messages + Exchange(reply) && mid.dispatched == s.dispatched + reply.calls
    requires mid.trace == s.trace + RowsOf(s.turn + 1, reply.calls) && mid.streamed == [] && NoEnd(mid.events)
    requires mid.prompts == Asked(env, s).prompts && mid.turn == s.turn + 1
    requires s.looks + 1 + |reply.calls| <= mid.looks
    requires env.world.stopAt.Some? ==> mid.looks <= env.world.stopAt.value
    ensures Tops(env, opening, mid)
  {
    var script := env.world.script;
    assert script[..mid.turn][..s.turn] == script[..s.turn];
    assert script[..mid.turn] == script[..s.turn] + [reply];
    AskedPrompts(env, opening, s);
  }

  /** One pass: it ends the run as described, or is one more whole turn. */
  lemma TurnEndsOrGoesOn(env: Env, opening: seq<Message>, s: State) returns (done: seq<Call>)
    requires Tops(env, opening, s)
    ensures var (s', e) := Turn(env, s);
            if e.None? then Tops(env, opening, s') && s'.turn == s.turn + 1
            else Ended(env, opening, s.turn, done, s', e.value)
  {
    var w := env.world;
    done := [];
    AskedPrompts(env, opening, s);
    if !StopSeen(w, s.looks) && !(env.maxTurns.Some? && s.turn >= env.maxTurns.value) && s.turn < |w.script| {
      done := HeardEndsOrGoesOn(env, opening, s);
    }
  }

  lemma HeardEndsOrGoesOn(env: Env, opening: seq<Message>, s: State) returns (done: seq<Call>)
    requires Tops(env, opening, s) && s.turn < |env.world.script|
    requires !StopSeen(env.world, s.looks) && (env.maxTurns.Some? ==> s.turn < env.maxTurns.value)
    ensures var (s', e) := Heard(env, Asked(env, s), env.world.script[s.turn]);
            if e.None? then Tops(env, opening, s') && s'.turn == s.turn + 1
            else Ended(env, opening, s.turn, done, s', e.value)
  {
    var w, reply, s1 := env.world, env.world.script[s.turn], Asked(env, s);
    done := [];
    AskedPrompts(env, opening, s);
    var n := if env.streaming then |reply.fragments| else 0;
    ListenBounds(w, s1.looks, n);
    var (looks, stopped) := Listen(w, s1.looks, n);
    if !stopped && !reply.fails && reply.calls != [] {
      done := CallsEndOrGoOn(env, opening, s, looks);
    } else {
      OtherTurnsEnd(env, opening, s, looks, stopped);
    }
  }

  /** A turn cut short, failed, or answered in plain text is the last. */
  lemma OtherTurnsEnd(env: Env, opening: seq<Message>, s: State, looks: nat, stopped: bool)
    requires Tops(env, opening, s) && s.turn < |env.world.script|
    requires !StopSeen(env.world, s.looks) && (env.maxTurns.Some? ==> s.turn < env.maxTurns.value)
    requires stopped || env.world.script[s.turn].fails || env.world.script[s.turn].calls == []
    requires var n := if env.streaming then |env.world.script[s.turn].fragments| else 0;
             (looks, stopped) == Listen(env.world, s.looks + 1, n)
    requires stopped ==> env.world.stopAt.Some?
    ensures var (s', e) := Heard(env, Asked(env, s), env.world.script[s.turn]);
            e.Some? && Ended(env, opening, s.turn, [], s', e.value)
  {
    var (s', e) := Heard(env, Asked(env, s), env.world.script[s.turn]);
    AskedPrompts(env, opening, s);
    assert RowsOf(s.turn + 1, []) == [];
    assert s'.dispatched == s.dispatched + [] && s'.trace == s.trace + [];
    assert Within(env, s');
    assert LastTurn(env, s.turn, [], s', e.value);
    assert Reported(s', e.value) by {
      if e.value.Returned? {
        assert s'.events[..|s'.events| - 1] == Asked(env, s).events;
      }
    }
  }

  lemma CallsEndOrGoOn(env: Env, opening: seq<Message>, s: State, looks: nat) returns (done: seq<Call>)
    requires Tops(env, opening, s) && s.turn < |env.world.script|
    requires !StopSeen(env.world, s.looks) && (env.maxTurns.Some? ==> s.turn < env.maxTurns.value)
    requires !env.world.script[s.turn].fails && env.world.script[s.turn].calls != []
    requires looks > s.looks && (env.world.stopAt.Some? ==> looks <= env.world.stopAt.value)
    ensures var reply := env.world.script[s.turn];
            var s1 := Asked(env, s).(looks := looks);
            var messages := s1.messages + [Calls(reply.text, Requests(reply.calls))];
            var (s', e) := CallsFrom(env.world, s1.(messages := messages), reply, 0);
            if e.None? then Tops(env, opening, s') && s'.turn == s.turn + 1
            else Ended(env, opening, s.turn, done, s', e.value)
  {
    var w, reply := env.world, env.world.script[s.turn];
    var s1 := Asked(env, s).(looks := looks);
    var s2 := s1.(messages := s1.messages + [Calls(reply.text, Requests(reply.calls))]);
    var m, events := CallsFromIs(w, s2, reply, 0);
    done := reply.calls[..m];
    assert reply.calls[0..m] == done;
    var (s', e) := CallsFrom(w, s2, reply, 0);
    if e.None? {
      CallsAllDone(env, opening, s, s2, events, reply);
    } else {
      AskedPrompts(env, opening, s);
      CallsAreLast(env, opening, s, s2, done, events, s', e.value);
    }
  }

  lemma CallsAllDone(env: Env, opening: seq<Message>, s: State, s2: State, events: seq<Event>, reply: Reply)
    requires Tops(env, opening, s) && s.turn < |env.world.script| && reply == env.world.script[s.turn]
    requires Continues(reply) && !StopSeen(env.world, s.looks) && (env.maxTurns.Some? ==> s.turn < env.maxTurns.value)
    requires s2.messages == s.messages + [Calls(reply.text, Requests(reply.calls))] && s2.dispatched == s.dispatched
    requires s2.trace == s.trace && s2.streamed == [] && s2.prompts == Asked(env, s).prompts && s2.turn == s.turn + 1
    requires s2.looks > s.looks && NoEnd(events)
    requires env.world.stopAt.Some? ==> Done(s2, reply.calls, events).looks <= env.world.stopAt.value
    ensures Tops(env, opening, Done(s2, reply.calls, events))
  {
    var mid := Done(s2, reply.calls, events);
    assert mid.messages == s.messages + Exchange(reply);
    WholeTurn(env, opening, s, mid, reply);
  }

  /** A turn ended among its calls is the last one. */
  lemma CallsAreLast(env: Env, opening: seq<Message>, s: State, s2: State, done: seq<Call>, events: seq<Event>,
                     s': State, e: Ending)
    requires Tops(env, opening, s) && s.turn < |env.world.script|
    requires env.maxTurns.Some? ==> s.turn < env.maxTurns.value
    requires !env.world.script[s.turn].fails && env.world.script[s.turn].calls != []
    requires done <= env.world.script[s.turn].calls
    requires s2.prompts == Asked(env, s).prompts && PromptsRight(env, opening, s2.prompts)
    requires s2.turn == s.turn + 1 && s2.dispatched == s.dispatched && s2.trace == s.trace && s2.streamed == []
    requires s2.looks > s.looks && NoEnd(events)
    requires env.world.stopAt.Some? ==> Done(s2, done, events).looks <= env.world.stopAt.value
    requires CallsEnd(env.world, s2.turn, env.world.script[s.turn], done, Done(s2, done, events), s', Some(e))
    ensures Ended(env, opening, s.turn, done, s', e)
  {
    assert s'.events[..|s'.events| - 1] == events;
    assert Within(env, s');
    assert Reported(s', e);
  }

  /** Every run of the loop is some whole turns and one last one. */
  lemma {:induction false} RunEnds(env: Env, opening: seq<Message>, s: State) returns (q: nat, done: seq<Call>)
    requires Tops(env, opening, s)
    ensures Ended(env, opening, q, done, RunFrom(env, s).0, RunFrom(env, s).1)
    decreases |env.world.script| - s.turn
  {
    q := s.turn;
    done := TurnEndsOrGoesOn(env, opening, s);
    if Turn(env, s).1.None? {
      TurnKeeps(env, s);
      q, done := RunEnds(env, opening, Turn(env, s).0);
    }
  }

  // ---------------------------------------------------------------- what it means for a whole run

  function Start(opening: seq<Message>): State {
    State(opening, [], 0, 0, [], [], [], [])
  }

  /** The whole run. */
  function Whole(env: Env, opening: seq<Message>): (State, Ending)
    requires Headed(opening)
  {
    RunFrom(env, Start(opening))
  }

  lemma WholeRunEnds(env: Env, opening: seq<Message>) returns (q: nat, done: seq<Call>)
    requires Headed(opening)
    ensures Ended(env, opening, q, done, Whole(env, opening).0, Whole(env, opening).1)
  {
    assert opening + [] == opening;
    q, done := RunEnds(env, opening, Start(opening));
  }

  /** Every tool call is followed by exactly its replies, in order, and there are no other replies. */
  predicate Paired(messages: seq<Message>)
    decreases |messages|
  {
    messages == [] ||
    match messages[0]
    case ToolReply(_, _) => false
    case Calls(_, requests) =>
      && |messages| > |requests|
      && AnsweredBy(requests, messages[1..1 + |requests|])
      && Paired(messages[1 + |requests|..])
    case _ => Paired(messages[1..])
  }

  predicate AnsweredBy(requests: seq<Request>, replies: seq<Message>)
    requires |replies| == |requests|
  {
    forall i | 0 <= i < |requests| :: replies[i].ToolReply? && replies[i].id == requests[i].id
  }

  lemma FrontOfConcat(a: seq<Message>, b: seq<Message>, k: nat)
    requires 1 <= k <= |a|
    ensures (a + b)[0] == a[0] && (a + b)[1..k] == a[1..k] && (a + b)[k..] == a[k..] + b
  {
  }

  lemma {:induction false} PairedConcat(a: seq<Message>, b: seq<Message>)
    requires Paired(a) && Paired(b)
    ensures Paired(a + b)
    decreases |a|
  {
    if a == [] {
      assert a + b == b;
    } else {
      var k := if a[0].Calls? then 1 + |a[0].requests| else 1;
      PairedConcat(a[k..], b);
      FrontOfConcat(a, b, k);
    }
  }

  lemma {:induction false} TranscriptIsPaired(replies: seq<Reply>)
    ensures Paired(Transcript(replies))
  {
    if replies != [] {
      var n := |replies| - 1;
      TranscriptIsPaired(replies[..n]);
      var e := Exchange(replies[n]);
      assert e[1..1 + |replies[n].calls|] == Answers(replies[n].calls) && e[1 + |replies[n].calls|..] == [];
      PairedConcat(Transcript(replies[..n]), e);
    }
  }

  lemma {:induction false} FilteredIsPaired(history: seq<HistoryRow>)
    ensures Paired(Filtered(history))
  {
    if history != [] {
      var n := |history| - 1;
      FilteredIsPaired(history[..n]);
      var content := history[n].content;
      assert Paired([User(content)]) && Paired([Assistant(content)]);
      PairedConcat(Filtered(history[..n]), [User(content)]);
      PairedConcat(Filtered(history[..n]), [Assistant(content)]);
      assert Filtered(history[..n]) + [] == Filtered(history[..n]);
    }
  }

  lemma OpeningIsPaired(system: string, history: seq<HistoryRow>, goal: string)
    ensures Headed(Opening(system, history, goal)) && Paired(Opening(system, history, goal))
  {
    FilteredIsPaired(history);
    assert Paired([System(system)]) && Paired([User(goal)]);
    PairedConcat([System(system)], Filtered(history));
    PairedConcat([System(system)] + Filtered(history), [User(goal)]);
  }

  lemma ShownIsPaired(messages: seq<Message>, context: string)
    requires Headed(messages) && Paired(messages)
    ensures Headed(Shown(messages, context)) && Paired(Shown(messages, context))
  {
    var shown := Shown(messages, context);
    assert shown[1..] == messages[1..];
  }

  /** Every prompt the provider is given is well formed, in every run. */
  lemma EveryPromptIsPaired(env: Env, system: string, history: seq<HistoryRow>, goal: string)
    ensures Headed(Opening(system, history, goal))
    ensures forall p <- Whole(env, Opening(system, history, goal)).0.prompts :: Headed(p) && Paired(p)
  {
    var opening := Opening(system, history, goal);
    OpeningIsPaired(system, history, goal);
    var q, done := WholeRunEnds(env, opening);
    var prompts := Whole(env, opening).0.prompts;
    forall k | 0 <= k < |prompts| ensures Headed(prompts[k]) && Paired(prompts[k]) {
      var t := Transcript(env.world.script[..k]);
      TranscriptIsPaired(env.world.script[..k]);
      PairedConcat(opening, t);
      assert prompts[k] == PromptAt(env, opening, k);
      ShownIsPaired(opening + t, env.world.context(k));
    }
  }

  /** The k-th prompt is the opening and the first k turns in full, with the head extended for it alone. */
  lemma PromptsReplayTurns(env: Env, opening: seq<Message>, k: nat)
    requires Headed(opening) && k < |Whole(env, opening).0.prompts|
    ensures k <= |env.world.script| && Whole(env, opening).0.prompts[k] == PromptAt(env, opening, k)
    ensures forall r <- env.world.script[..k] :: Continues(r)
  {
    var q, done := WholeRunEnds(env, opening);
    var script := env.world.script;
    forall r <- script[..k] ensures Continues(r) {
      assert k <= q;
      assert r in script[..q];
    }
  }

  /** The provider is never asked more often than the limit, and the limit ends a run only when used up. */
  lemma CallsStayWithinLimit(env: Env, opening: seq<Message>)
    requires Headed(opening) && env.maxTurns.Some?
    ensures |Whole(env, opening).0.prompts| <= env.maxTurns.value
    ensures var e := Whole(env, opening).1;
            e.Returned? && e.result.LimitReached? ==> |Whole(env, opening).0.prompts| == env.maxTurns.value
  {
    var q, done := WholeRunEnds(env, opening);
  }

  /** Calls are dispatched once each, in the order the model made them; a call that needs the user is the
      last, and ends the run with a hand-off. */
  lemma NothingAfterHandOff(env: Env, opening: seq<Message>)
    requires Headed(opening)
    ensures var (s, e) := Whole(env, opening);
            && s.dispatched <= AllCalls(env.world.script)
            && (forall i | 0 <= i < |s.dispatched| - 1 :: !s.dispatched[i].outcome.needsUser)
            && (s.dispatched != [] && s.dispatched[|s.dispatched| - 1].outcome.needsUser
                <==> e.Returned? && e.result.HandedOff?)
  {
    var q, done := WholeRunEnds(env, opening);
    var (s, e) := Whole(env, opening);
    var script := env.world.script;
    WholeTurnsNeverHandOff(script[..q]);
    var before := AllCalls(script[..q]);
    forall i | 0 <= i < |s.dispatched| - 1 ensures !s.dispatched[i].outcome.needsUser {
      if i < |before| {
        assert s.dispatched[i] == before[i] && before[i] in before;
      } else if e.Returned? && e.result.HandedOff? {
        assert s.dispatched[i] == done[..|done| - 1][i - |before|];
      } else {
        assert s.dispatched[i] == done[i - |before|];
      }
    }
    if q < |script| && done <= script[q].calls {
      AllCallsPrefix(script, q + 1);
      assert script[..q + 1][..q] == script[..q];
    } else {
      AllCallsPrefix(script, q);
    }
  }

  lemma {:induction false} WholeTurnsNeverHandOff(replies: seq<Reply>)
    requires forall r <- replies :: Continues(r)
    ensures NoHandOff(AllCalls(replies))
  {
    if replies != [] {
      var n := |replies| - 1;
      assert replies[n] in replies && forall r <- replies[..n] :: r in replies;
      WholeTurnsNeverHandOff(replies[..n]);
    }
  }

  lemma {:induction false} AllCallsPrefix(replies: seq<Reply>, q: nat)
    requires q <= |replies|
    ensures AllCalls(replies[..q]) <= AllCalls(replies)
  {
    if q == |replies| {
      assert replies[..q] == replies;
    } else {
      var n := |replies| - 1;
      assert replies[..n][..q] == replies[..q];
      AllCallsPrefix(replies[..n], q);
    }
  }

  /** The stream sees only the fragments of a turn without tool calls: all of them unless the callback
      itself raises part-way, and so all of them when the run ends with that turn's text. */
  lemma StreamShowsOnlyTheAnswer(env: Env, opening: seq<Message>)
    requires Headed(opening)
    ensures var (s, e) := Whole(env, opening);
            && (s.streamed == [] ||
                (0 < |s.prompts| <= |env.world.script|
                 && env.world.script[|s.prompts| - 1].calls == []
                 && s.streamed <= env.world.script[|s.prompts| - 1].fragments
                 && (e != StreamFailed ==> s.streamed == env.world.script[|s.prompts| - 1].fragments)))
            && (e.Returned? && e.result.Answered? ==>
                  0 < |s.prompts| <= |env.world.script|
                  && s.streamed == if env.streaming then env.world.script[|s.prompts| - 1].fragments else [])
  {
    var q, done := WholeRunEnds(env, opening);
  }

  /** Each prompt and each dispatch is preceded by its own look at the stop flag: once the flag is set,
      neither happens again. */
  lemma StopEndsTheRun(env: Env, opening: seq<Message>)
    requires Headed(opening) && env.world.stopAt.Some?
    ensures |Whole(env, opening).0.prompts| + |Whole(env, opening).0.dispatched| <= env.world.stopAt.value
  {
    var q, done := WholeRunEnds(env, opening);
  }

  /** A run that returns reports its turns and, row by row, the calls it dispatched; its one closing event
      carries the same result. A run that raises reports nothing. */
  lemma ResultMatchesWork(env: Env, opening: seq<Message>)
    requires Headed(opening)
    ensures var (s, e) := Whole(env, opening);
            && |s.trace| == |s.dispatched|
            && (forall i | 0 <= i < |s.trace| ::
                  s.trace[i].tool == s.dispatched[i].request.name && s.trace[i].ok == s.dispatched[i].outcome.ok)
            && Reported(s, e)
  {
    var q, done := WholeRunEnds(env, opening);
    TraceNames(env.world.script[..q]);
  }

  lemma {:induction false} TraceNames(replies: seq<Reply>)
    ensures |Trace(replies)| == |AllCalls(replies)|
    ensures forall i | 0 <= i < |Trace(replies)| ::
              && Trace(replies)[i].tool == AllCalls(replies)[i].request.name
              && Trace(replies)[i].ok == AllCalls(replies)[i].outcome.ok
  {
    if replies != [] {
      TraceNames(replies[..|replies| - 1]);
    }
  }

  lemma LastTurnDoesNotContinue(env: Env, q: nat, done: seq<Call>, s: State, e: Ending)
    requires q < |env.world.script| && LastTurn(env, q, done, s, e)
    requires env.world.stopAt.None? && env.maxTurns.None?
    ensures !Continues(env.world.script[q])
  {
    if e.Returned? && e.result.HandedOff? {
      assert done[|done| - 1] == env.world.script[q].calls[|done| - 1];
    }
  }

  /** Left alone, a run goes on exactly as long as the model makes calls that need nobody: how it ends is
      decided by the first reply that does otherwise. */
  lemma FirstOtherReplyDecides(env: Env, opening: seq<Message>, n: nat)
    requires Headed(opening) && env.world.stopAt.None? && env.maxTurns.None?
    requires n <= |env.world.script| && (forall r <- env.world.script[..n] :: Continues(r))
    requires n < |env.world.script| ==> !Continues(env.world.script[n])
    ensures |Whole(env, opening).0.prompts| == n + 1
    ensures var e := Whole(env, opening).1;
            if n == |env.world.script| then e == Waiting
            else if env.world.script[n].fails then e == ProviderFailed
            else if env.world.script[n].calls == [] then
              if env.streaming && Refuses(env.world, n, env.world.script[n].fragments) then e == StreamFailed
              else e.Returned? && e.result.Answered? && e.result.answer == env.world.script[n].text
            else e.Returned? && e.result.HandedOff?
  {
    var q, done := WholeRunEnds(env, opening);
    var script := env.world.script;
    forall i | 0 <= i < n ensures Continues(script[i]) {
      assert script[..n][i] in script[..n];
    }
    forall i | 0 <= i < q ensures Continues(script[i]) {
      assert script[..q][i] in script[..q];
    }
    if q < |script| {
      LastTurnDoesNotContinue(env, q, done, Whole(env, opening).0, Whole(env, opening).1);
    }
  }
}
