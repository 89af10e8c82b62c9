/** The agent's tool loop: prompts to the provider, tool calls to the registry, text to the stream. */
module AgentLoop {
  import opened Options

  const CONTENT_LIMIT := 20000
  const WAITING_ANSWER := "The workflow plan is waiting for human approval."

  datatype Request = Request(id: string, name: string, arguments: string)

  datatype Message =
    | System(text: string)
    | User(text: string)
    | Assistant(text: string)
    | Calls(text: string, requests: seq<Request>)
    | ToolReply(id: string, content: string)

  datatype HistoryRow = HistoryRow(role: string, content: string)

  /** What the registry answers to a call: its JSON text and the keys that the loop looks at. */
  datatype Outcome = Outcome(ok: bool, content: string, needsUser: bool, message: string)

  datatype Call = Call(request: Request, outcome: Outcome)

  /** One answer of the provider: the fragments it streams, then the finished reply or an error. */
  datatype Reply = Reply(fragments: seq<string>, fails: bool, text: string, calls: seq<Call>)

  datatype Row = Row(turn: nat, tool: string, ok: bool)

  datatype Result =
    | Answered(answer: string, turns: nat, trace: seq<Row>)
    | HandedOff(answer: string, turns: nat, trace: seq<Row>)
    | Stopped(answer: string, turns: nat, trace: seq<Row>)
    | LimitReached(turns: nat, trace: seq<Row>)

  /** How a run leaves the loop; Waiting is a run whose last prompt has no answer yet. */
  datatype Ending = Returned(result: Result) | Interrupted | ProviderFailed | StreamFailed | Waiting

  datatype Event =
    | Thinking(turn: nat) | Running(tool: string, turn: nat) | Ran(row: Row)
    | Final(result: Result) | Error(result: Result)

  /** The loop's surroundings: what the provider answers, turn by turn, the submission context read before
      each turn, how many fragments of a turn the stream callback takes before it raises (None if it does
      not), and the first look at the stop flag that finds it set. */
  datatype World = World(script: seq<Reply>, context: nat -> string, takes: nat -> Option<nat>, stopAt: Option<nat>)

  datatype Env = Env(world: World, maxTurns: Option<nat>, streaming: bool)

  /** The loop's variables, and everything it has shown to the outside. */
  datatype State = State(
    messages: seq<Message>, trace: seq<Row>, turn: nat, looks: nat,
    prompts: seq<seq<Message>>, streamed: seq<string>, dispatched: seq<Call>, events: seq<Event>)

  predicate StopSeen(w: World, look: nat) {
    w.stopAt.Some? && look >= w.stopAt.value
  }

  predicate Headed(messages: seq<Message>) {
    messages != [] && messages[0].System?
  }

  /** The submission context is added to the head message for this prompt only. */
  function Shown(messages: seq<Message>, context: string): seq<Message>
    requires Headed(messages)
  {
    if context == "" then messages else [System(messages[0].text + "\n\n" + context)] + messages[1..]
  }

  function Filtered(history: seq<HistoryRow>): seq<Message> {
    if history == [] then [] else
      var n := |history| - 1;
      Filtered(history[..n])
      + if history[n].role == "user" then [User(history[n].content)]
        else if history[n].role == "assistant" then [Assistant(history[n].content)]
        else []
  }

  function Opening(system: string, history: seq<HistoryRow>, goal: string): seq<Message> {
    [System(system)] + Filtered(history) + [User(goal)]
  }

  function Requests(calls: seq<Call>): seq<Request> {
    seq(|calls|, i requires 0 <= i < |calls| => calls[i].request)
  }

  function Answer(call: Call): Message {
    ToolReply(call.request.id,
              if |call.outcome.content| <= CONTENT_LIMIT then call.outcome.content
              else call.outcome.content[..CONTENT_LIMIT])
  }

  /** Looking at the stop flag before each of n fragments: the looks made, and whether it was set. */
  function Listen(w: World, looks: nat, n: nat): (nat, bool)
    decreases n
  {
    if n == 0 then (looks, false)
    else if StopSeen(w, looks) then (looks + 1, true)
    else Listen(w, looks + 1, n - 1)
  }

  function Dispatched(s: State, call: Call): State {
    var row := Row(s.turn, call.request.name, call.outcome.ok);
    s.(looks := s.looks + 1, dispatched := s.dispatched + [call], trace := s.trace + [row],
       events := s.events + [Running(call.request.name, s.turn)] + [Ran(row)], messages := s.messages + [Answer(call)])
  }

  function HandOff(call: Call): string {
    if call.outcome.message == "" then WAITING_ANSWER else call.outcome.message
  }

  /** Closing a run: its result is also its last event. */
  function Closed(s: State, result: Result): (State, Ending) {
    (s.(events := s.events + [if result.LimitReached? then Error(result) else Final(result)]), Returned(result))
  }

  /** The remaining calls of a turn; None when the loop goes on to the next turn. */
  function CallsFrom(w: World, s: State, reply: Reply, j: nat): (State, Option<Ending>)
    requires j <= |reply.calls|
    decreases |reply.calls| - j
  {
    if j == |reply.calls| then (s, None)
    else if StopSeen(w, s.looks) then
      var (s', e) := Closed(s.(looks := s.looks + 1), Stopped(reply.text, s.turn, s.trace));
      (s', Some(e))
    else
      var s' := Dispatched(s, reply.calls[j]);
      if reply.calls[j].outcome.needsUser then
        var (s'', e) := Closed(s', HandedOff(HandOff(reply.calls[j]), s.turn, s'.trace));
        (s'', Some(e))
      else CallsFrom(w, s', reply, j + 1)
  }

  /** One pass through the loop; None when there is another. */
  function Turn(env: Env, s: State): (State, Option<Ending>)
    requires Headed(s.messages) && s.turn <= |env.world.script|
  {
    var w := env.world;
    if StopSeen(w, s.looks) then
      var (s', e) := Closed(s.(looks := s.looks + 1), Stopped("", s.turn, s.trace));
      (s', Some(e))
    else if env.maxTurns.Some? && s.turn >= env.maxTurns.value then
      var (s', e) := Closed(s.(looks := s.looks + 1), LimitReached(s.turn, s.trace));
      (s', Some(e))
    else
      var asked := Asked(env, s);
      if s.turn == |w.script| then (asked, Some(Waiting))
      else Heard(env, asked, w.script[s.turn])
  }

  /** The turn has begun and the prompt is with the provider. */
  function Asked(env: Env, s: State): State
    requires Headed(s.messages)
  {
    s.(looks := s.looks + 1, turn := s.turn + 1, events := s.events + [Thinking(s.turn + 1)],
       prompts := s.prompts + [Shown(s.messages, env.world.context(s.turn))])
  }

  /** The fragments of a turn that the stream callback takes. */
  function Taken(w: World, turn: nat, fragments: seq<string>): seq<string> {
    if Refuses(w, turn, fragments) then fragments[..w.takes(turn).value] else fragments
  }

  predicate Refuses(w: World, turn: nat, fragments: seq<string>) {
    w.takes(turn).Some? && w.takes(turn).value < |fragments|
  }

  /** The reply to the turn that has begun. */
  function Heard(env: Env, s: State, reply: Reply): (State, Option<Ending>)
    requires s.turn > 0
  {
    var (looks, stopped) := Listen(env.world, s.looks, if env.streaming then |reply.fragments| else 0);
    var s1 := s.(looks := looks);
    if stopped then (s1, Some(Interrupted))
    else if reply.fails then (s1, Some(ProviderFailed))
    else if reply.calls != [] then
      CallsFrom(env.world, s1.(messages := s1.messages + [Calls(reply.text, Requests(reply.calls))]), reply, 0)
    else
      var taken := Taken(env.world, s.turn - 1, reply.fragments);
      var s2 := if env.streaming then s1.(streamed := s1.streamed + taken) else s1;
      var s3 := s2.(looks := looks + 1);
      if env.streaming && Refuses(env.world, s.turn - 1, reply.fragments) then (s2, Some(StreamFailed))
      else if StopSeen(env.world, looks) then (s3, Some(Interrupted))
      else
        var (s4, e) := Closed(s3, Answered(reply.text, s3.turn, s3.trace));
        (s4, Some(e))
  }

  lemma {:induction false} CallsKeep(w: World, s: State, reply: Reply, j: nat)
    requires j <= |reply.calls|
    ensures CallsFrom(w, s, reply, j).0.turn == s.turn
    ensures s.messages <= CallsFrom(w, s, reply, j).0.messages
    decreases |reply.calls| - j
  {
    if j < |reply.calls| && !StopSeen(w, s.looks) && !reply.calls[j].outcome.needsUser {
      CallsKeep(w, Dispatched(s, reply.calls[j]), reply, j + 1);
    }
  }

  lemma TurnKeeps(env: Env, s: State)
    requires Headed(s.messages) && s.turn <= |env.world.script|
    ensures Turn(env, s).1.None? ==>
              Headed(Turn(env, s).0.messages) && s.turn < |env.world.script| && Turn(env, s).0.turn == s.turn + 1
  {
    if s.turn < |env.world.script| {
      var reply := env.world.script[s.turn];
      var s1 := Asked(env, s);
      var looks := Listen(env.world, s1.looks, if env.streaming then |reply.fragments| else 0).0;
      var messages := s1.messages + [Calls(reply.text, Requests(reply.calls))];
      CallsKeep(env.world, s1.(looks := looks, messages := messages), reply, 0);
    }
  }

  /** The loop from a state on. */
  function RunFrom(env: Env, s: State): (State, Ending)
    requires Headed(s.messages) && s.turn <= |env.world.script|
    decreases |env.world.script| - s.turn
  {
    var (s', e) := Turn(env, s);
    TurnKeeps(env, s);
    if e.Some? then (s', e.value) else RunFrom(env, s')
  }

  /** A positive limit counts; anything else is no limit. */
  function Limit(asked: Option<int>): Option<nat> {
    if asked.Some? && asked.value > 0 then Some(asked.value) else None
  }

  class AgentRuntime {
    const systemPrompt: string
    const maxTurns: Option<nat>
    const streaming: bool
    var looks: nat
    var prompts: seq<seq<Message>>
    var streamed: seq<string>
    var dispatched: seq<Call>
    var events: seq<Event>

    constructor (systemPrompt: string, maxTurns: Option<int>, streaming: bool)
      ensures this.systemPrompt == systemPrompt && this.maxTurns == Limit(maxTurns) && this.streaming == streaming
      ensures prompts == [] && streamed == [] && dispatched == [] && events == []
    {
      this.systemPrompt, this.streaming := systemPrompt, streaming;
      this.maxTurns := if maxTurns.Some? && maxTurns.value > 0 then Some(maxTurns.value) else None;
      looks, prompts, streamed, dispatched, events := 0, [], [], [], [];
    }

    function Now(messages: seq<Message>, trace: seq<Row>, turn: nat): State
      reads this
    {
      State(messages, trace, turn, looks, prompts, streamed, dispatched, events)
    }

    method FilteredHistory(history: seq<HistoryRow>) returns (kept: seq<Message>)
      ensures kept == Filtered(history)
    {
      kept := [];
      for n := 0 to |history|
        invariant kept == Filtered(history[..n])
      {
        assert history[..n + 1][..n] == history[..n];
        if history[n].role == "user" {
          kept := kept + [User(history[n].content)];
        } else if history[n].role == "assistant" {
          kept := kept + [Assistant(history[n].content)];
        }
      }
      assert history[..|history|] == history;
    }

    method Cancelled(w: World) returns (stop: bool)
      modifies this`looks
      ensures stop == StopSeen(w, old(looks)) && looks == old(looks) + 1
    {
      stop := w.stopAt.Some? && looks >= w.stopAt.value;
      looks := looks + 1;
    }

    /** Run one model turn; text is held back until it is known that the turn makes no tool calls. */
    method ProviderChat(env: Env, messages: seq<Message>, turn: nat) returns (ending: Option<Ending>)
      requires env.streaming == streaming && Headed(messages) && turn <= |env.world.script|
      modifies this`looks, this`prompts, this`streamed
      ensures prompts == old(prompts) + [Shown(messages, env.world.context(turn))]
      ensures if turn == |env.world.script|
              then ending == Some(Waiting) && looks == old(looks) && streamed == old(streamed)
              else
                var reply := env.world.script[turn];
                var (heard, stopped) := Listen(env.world, old(looks), if streaming then |reply.fragments| else 0);
                var taken := Taken(env.world, turn, reply.fragments);
                var shows := !stopped && !reply.fails && streaming && reply.calls == [];
                && looks == heard
                && ending == (if stopped then Some(Interrupted) else if reply.fails then Some(ProviderFailed)
                              else if shows && Refuses(env.world, turn, reply.fragments) then Some(StreamFailed)
                              else None)
                && streamed == if shows then old(streamed) + taken else old(streamed)
    {
      var shown := messages;
      if env.world.context(turn) != "" {
        shown := [System(messages[0].text + "\n\n" + env.world.context(turn))] + messages[1..];
      }
      prompts := prompts + [shown];
      if turn == |env.world.script| { return Some(Waiting); }
      var reply := env.world.script[turn];
      var buffered: seq<string> := [];
      if streaming {
        for n := 0 to |reply.fragments|
          invariant buffered == reply.fragments[..n]
          invariant Listen(env.world, looks, |reply.fragments| - n) == Listen(env.world, old(looks), |reply.fragments|)
          invariant prompts == old(prompts) + [shown] && streamed == old(streamed)
        {
          var stop := Cancelled(env.world);
          if stop { return Some(Interrupted); }
          buffered := buffered + [reply.fragments[n]];
        }
      }
      if reply.fails { return Some(ProviderFailed); }
      if streaming && reply.calls == [] {
        for n := 0 to |buffered|
          invariant streamed == old(streamed) + buffered[..n]
          invariant env.world.takes(turn).Some? ==> n <= env.world.takes(turn).value
          invariant prompts == old(prompts) + [shown]
          invariant looks == Listen(env.world, old(looks), |reply.fragments|).0
        {
          if env.world.takes(turn) == Some(n) { return Some(StreamFailed); }
          streamed := streamed + [buffered[n]];
        }
      }
      ending := None;
    }

    method Stop(turn: nat, trace: seq<Row>, text: string) returns (ending: Ending)
      modifies this`events
      ensures ending == Returned(Stopped(text, turn, trace))
      ensures events == old(events) + [Final(Stopped(text, turn, trace))]
    {
      var result := Stopped(text, turn, trace);
      events := events + [Final(result)];
      ending := Returned(result);
    }

    /** A turn's tool calls, one after the other. */
    method CallTools(w: World, reply: Reply, messages: seq<Message>, trace: seq<Row>, turn: nat)
        returns (ending: Option<Ending>, grown: seq<Message>, longer: seq<Row>)
      modifies this
      ensures (Now(grown, longer, turn), ending) == CallsFrom(w, old(Now(messages, trace, turn)), reply, 0)
    {
      grown, longer := messages, trace;
      for j := 0 to |reply.calls|
        invariant CallsFrom(w, Now(grown, longer, turn), reply, j)
                  == CallsFrom(w, old(Now(messages, trace, turn)), reply, 0)
      {
        var call := reply.calls[j];
        var stopped := Cancelled(w);
        if stopped {
          var stop := Stop(turn, longer, reply.text);
          return Some(stop), grown, longer;
        }
        events := events + [Running(call.request.name, turn)];
        dispatched := dispatched + [call];
        var row := Row(turn, call.request.name, call.outcome.ok);
        longer := longer + [row];
        events := events + [Ran(row)];
        grown := grown + [Answer(call)];
        if call.outcome.needsUser {
          var result := HandedOff(HandOff(call), turn, longer);
          events := events + [Final(result)];
          return Some(Returned(result)), grown, longer;
        }
      }
      ending := None;
    }

    /** One pass through the loop. */
    method Pass(w: World, messages: seq<Message>, trace: seq<Row>, turn: nat)
        returns (ending: Option<Ending>, grown: seq<Message>, longer: seq<Row>, next: nat)
      requires Headed(messages) && turn <= |w.script|
      modifies this
      ensures (Now(grown, longer, next), ending)
              == Turn(Env(w, maxTurns, streaming), old(Now(messages, trace, turn)))
    {
      ghost var env, s := Env(w, maxTurns, streaming), Now(messages, trace, turn);
      grown, longer, next := messages, trace, turn;
      var stop := Cancelled(w);
      if stop {
        var stopped := Stop(turn, trace, "");
        ending := Some(stopped);
        return;
      }
      if maxTurns.Some? && turn >= maxTurns.value {
        var result := LimitReached(turn, trace);
        events := events + [Error(result)];
        ending := Some(Returned(result));
        return;
      }
      next := turn + 1;
      events := events + [Thinking(next)];
      ending := ProviderChat(Env(w, maxTurns, streaming), messages, turn);
      assert Now(grown, longer, next) == Asked(env, s).(looks := looks, streamed := streamed);
      if ending.Some? { return; }
      var reply := w.script[turn];
      assert Turn(env, s) == Heard(env, Asked(env, s), reply);
      if reply.calls != [] {
        grown := grown + [Calls(reply.text, Requests(reply.calls))];
        ending, grown, longer := CallTools(w, reply, grown, longer, next);
        return;
      }
      stop := Cancelled(w);
      if stop {
        ending := Some(Interrupted);
        return;
      }
      var result := Answered(reply.text, next, longer);
      events := events + [Final(result)];
      ending := Some(Returned(result));
    }

    /** The loop, until the model answers, a call needs the user, the user stops it, or the limit is used up. */
    method Run(goal: string, history: seq<HistoryRow>, w: World) returns (ending: Ending, ghost end: State)
      modifies this
      ensures looks == end.looks && prompts == end.prompts && streamed == end.streamed
      ensures dispatched == end.dispatched && events == end.events
      ensures (end, ending) == RunFrom(
                Env(w, maxTurns, streaming),
                State(Opening(systemPrompt, history, goal), [], 0, 0,
                      old(prompts), old(streamed), old(dispatched), old(events)))
    {
      looks := 0;
      var filtered := FilteredHistory(history);
      var messages := [System(systemPrompt)] + filtered + [User(goal)];
      var trace, turn := [], 0;
      ghost var env := Env(w, maxTurns, streaming);
      ghost var start := Now(messages, trace, turn);
      while true
        invariant turn <= |w.script| && Headed(messages) && Headed(start.messages) && start.turn == 0
        invariant RunFrom(env, Now(messages, trace, turn)) == RunFrom(env, start)
        decreases |w.script| - turn
      {
        TurnKeeps(env, Now(messages, trace, turn));
        var over: Option<Ending>;
        over, messages, trace, turn := Pass(w, messages, trace, turn);
        if over.Some? {
          ending := over.value;
          end := Now(messages, trace, turn);
          return;
        }
      }
    }
  }
}
