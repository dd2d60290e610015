/** The conversation loop: the model asks for tool calls, each call is answered in the history, and guardrails
    stop loops (agent/nodes.py, agent/model_client.py). */
module Conversation {
  import opened Text

  const MAX_ITERATIONS := 40
  const MAX_FAILURES := 5

  /** A call the model asks for; `arguments` is its canonical JSON text, and `summary` and `reason` the entries
      the two terminal tools read. */
  datatype Request = Request(id: string, name: string, arguments: string, summary: Option<string>,
    reason: Option<string>)

  datatype ModelTurn = ModelTurn(content: Option<string>, calls: seq<Request>)

  datatype Message =
    | System(content: string)
    | User(content: string)
    | AssistantCalls(calls: seq<Request>)
    | ToolResult(id: string, name: string, content: string)

  datatype Verdict = Succeeded | Failed | NeedsApproval

  datatype Outcome = Outcome(text: string, verdict: Verdict)

  datatype Status = Completed | GaveUp

  /** How the loop was left. */
  datatype End = ByCall(status: Status, summary: string) | ByText(text: string) | ByEmptyTurn | Halted(at: Guard)
    | Exhausted

  // ---------- Guardrails ----------

  datatype Guard = Guard(count: nat, failures: nat, recent: seq<string>)

  const FRESH := Guard(0, 0, [])

  function Success(g: Guard): Guard {
    Guard(g.count + 1, 0, g.recent)
  }

  function Failure(g: Guard, signature: string): Guard {
    Guard(g.count + 1, g.failures + 1, g.recent + [signature])
  }

  /** The number of different strings. */
  function Different(s: seq<string>): nat {
    if s == [] then 0 else Different(s[1..]) + if s[0] in s[1..] then 0 else 1
  }

  /** The last six failures were of at most two different calls. */
  predicate Repeats(recent: seq<string>) {
    |recent| >= 6 && Different(recent[|recent| - 6..]) <= 2
  }

  /** `should_halt` */
  predicate ShouldHalt(g: Guard) {
    g.count >= MAX_ITERATIONS || g.failures >= MAX_FAILURES || Repeats(g.recent)
  }

  /** `halt_reason`, by its three cases */
  function HaltReason(g: Guard): string {
    if g.count >= MAX_ITERATIONS then "Reached maximum iterations (" + Decimal(MAX_ITERATIONS) + ")"
    else if g.failures >= MAX_FAILURES then "Too many consecutive failures (" + Decimal(g.failures) + ")"
    else "Detected repetitive loop in tool calls"
  }

  class ToolCallGuardrails {
    var count: nat
    var failures: nat
    var recent: seq<string>

    constructor ()
      ensures State() == FRESH
    {
      count, failures, recent := 0, 0, [];
    }

    function State(): Guard
      reads this
    {
      Guard(count, failures, recent)
    }

    method RecordSuccess()
      modifies this
      ensures State() == Success(old(State()))
    {
      count := count + 1;
      failures := 0;
    }

    method RecordFailure(signature: string)
      modifies this
      ensures State() == Failure(old(State()), signature)
    {
      count := count + 1;
      failures := failures + 1;
      recent := recent + [signature];
    }
  }

  class History {
    var messages: seq<Message>

    /** `build_conversation` */
    constructor (system: string, user: string)
      ensures messages == [System(system), User(user)]
    {
      messages := [System(system), User(user)];
    }

    method AddAssistantToolCalls(calls: seq<Request>)
      modifies this
      ensures messages == old(messages) + [AssistantCalls(calls)]
    {
      messages := messages + [AssistantCalls(calls)];
    }

    method AddToolResult(id: string, name: string, content: string)
      modifies this
      ensures messages == old(messages) + [ToolResult(id, name, Cut(content, 8000))]
    {
      messages := messages + [ToolResult(id, name, Cut(content, 8000))];
    }
  }

  function Cut(s: string, n: nat): string {
    if |s| <= n then s else s[..n]
  }

  // ---------- One turn ----------

  predicate Terminal(call: Request) {
    call.name == "task_complete" || call.name == "task_failed"
  }

  function Or(s: Option<string>, default: string): string {
    if s.Some? then s.value else default
  }

  /** `_execute_tool_call`: the terminal tools answer with their own text; `given` is what any other brings. */
  function Executed(call: Request, given: Outcome): Outcome {
    if call.name == "task_complete" then Outcome(Or(call.summary, "Task completed."), Succeeded)
    else if call.name == "task_failed" then Outcome(Or(call.reason, "Task failed."), Failed)
    else given
  }

  function Signature(call: Request): string {
    call.name + ":" + Cut(call.arguments, 100)
  }

  function Answer(call: Request, outcome: Outcome, hint: string): Message {
    ToolResult(call.id, call.name,
      Cut(if outcome.verdict == NeedsApproval then outcome.text + hint else outcome.text, 8000))
  }

  /** The answers to the calls from one on, the guardrails after them, and the terminal call, if one ended it. */
  datatype Answered = Answered(answers: seq<Message>, guard: Guard, ended: Option<End>)

  function Answers(calls: seq<Request>, given: nat -> Outcome, hint: string, j: nat, g: Guard): Answered
    requires j <= |calls|
    decreases |calls| - j
  {
    if j == |calls| then Answered([], g, None) else
      var call := calls[j];
      var outcome := Executed(call, given(j));
      var answer := [Answer(call, outcome, hint)];
      if call.name == "task_complete" then
        Answered(answer, Success(g), Some(ByCall(Completed, Or(call.summary, outcome.text))))
      else if call.name == "task_failed" then
        Answered(answer, g, Some(ByCall(GaveUp, Or(call.reason, outcome.text))))
      else
        var now := if outcome.verdict == Failed then Failure(g, Signature(call)) else Success(g);
        var rest := Answers(calls, given, hint, j + 1, now);
        Answered(answer + rest.answers, rest.guard, rest.ended)
  }

  // ---------- The loop ----------

  /** What the model and the tools bring: the turn of each iteration and the outcome of each of its calls; and
      the hint added to the answer of a call that waits for approval. */
  datatype World = World(turn: nat -> ModelTurn, outcome: nat -> nat -> Outcome, hint: string)

  datatype Turned = Turned(messages: seq<Message>, guard: Guard, ended: Option<End>)

  /** One turn: text or nothing ends the loop; calls are put in the history and answered. */
  function TurnTaken(i: nat, messages: seq<Message>, g: Guard, w: World): Turned {
    var turn := w.turn(i);
    if turn.calls == [] then
      Turned(messages, g, Some(if turn.content.Some? then ByText(turn.content.value) else ByEmptyTurn))
    else
      var a := Answers(turn.calls, w.outcome(i), w.hint, 0, g);
      Turned(messages + ([AssistantCalls(turn.calls)] + a.answers), a.guard, a.ended)
  }

  /** The rest of a run: the history it leaves, how it ends, and the histories the model is asked with. */
  datatype Run = Run(messages: seq<Message>, end: End, asked: seq<seq<Message>>)

  function Loop(i: nat, messages: seq<Message>, g: Guard, w: World): Run
    requires i <= MAX_ITERATIONS
    decreases MAX_ITERATIONS - i
  {
    if i == MAX_ITERATIONS then Run(messages, Exhausted, [])
    else if ShouldHalt(g) then Run(messages, Halted(g), [])
    else
      var t := TurnTaken(i, messages, g, w);
      if t.ended.Some? then Run(t.messages, t.ended.value, [messages])
      else
        var rest := Loop(i + 1, t.messages, t.guard, w);
        Run(rest.messages, rest.end, [messages] + rest.asked)
  }

  /** `final_status` */
  function FinalStatus(end: End): Status {
    match end
    case ByCall(status, _) => status
    case Halted(_) => GaveUp
    case _ => Completed
  }

  /** `final_summary` */
  function FinalSummary(end: End): string {
    match end
    case ByCall(_, summary) => summary
    case ByText(text) => if text == "" then "Task completed." else text
    case Halted(g) => "Execution halted: " + HaltReason(g)
    case _ => "Task completed."
  }

  /** `step_summaries` */
  function StepSummaries(end: End): seq<string> {
    match end
    case ByCall(_, summary) => [summary]
    case ByText(_) => [FinalSummary(end)]
    case _ => []
  }

  function Opening(system: string, user: string): seq<Message> {
    [System(system), User(user)]
  }

  class AgentNodes {
    /** The histories the model was asked with. */
    ghost var asked: seq<seq<Message>>

    /** `get_next_turn`; only asked with a history in which every call is answered. */
    method GetNextTurn(history: History, w: World, i: nat) returns (turn: ModelTurn)
      modifies this
      ensures turn == w.turn(i)
      ensures asked == old(asked) + [history.messages]
    {
      asked := asked + [history.messages];
      turn := w.turn(i);
    }

    /** The loop over the calls of one turn; `ended` when a terminal call leaves it. */
    method ExecuteCalls(calls: seq<Request>, history: History, guardrails: ToolCallGuardrails, given: nat -> Outcome,
        hint: string)
      returns (ended: Option<End>)
      modifies history, guardrails
      ensures var a := Answers(calls, given, hint, 0, old(guardrails.State()));
        && history.messages == old(history.messages) + a.answers
        && guardrails.State() == a.guard && ended == a.ended
    {
      ghost var a, base := Answers(calls, given, hint, 0, guardrails.State()), history.messages;
      ghost var done: seq<Message> := [];
      var j := 0;
      assert base + [] == base;
      while j < |calls|
        invariant 0 <= j <= |calls|
        invariant history.messages == base + done
        invariant var rest := Answers(calls, given, hint, j, guardrails.State());
          a.answers == done + rest.answers && a.guard == rest.guard && a.ended == rest.ended
      {
        var call := calls[j];
        var outcome := Executed(call, given(j));
        ghost var answer := Answer(call, outcome, hint);
        ghost var g := guardrails.State();
        ghost var now := if outcome.verdict == Failed then Failure(g, Signature(call)) else Success(g);
        ConcatAssoc(done, [answer], Answers(calls, given, hint, j + 1, now).answers);
        ConcatAssoc(base, done, [answer]);
        done := done + [answer];
        if outcome.verdict == NeedsApproval {
          history.AddToolResult(call.id, call.name, outcome.text + hint);
          guardrails.RecordSuccess();
          j := j + 1;
          continue;
        }
        history.AddToolResult(call.id, call.name, outcome.text);
        if call.name == "task_complete" {
          guardrails.RecordSuccess();
          return Some(ByCall(Completed, Or(call.summary, outcome.text)));
        }
        if call.name == "task_failed" {
          return Some(ByCall(GaveUp, Or(call.reason, outcome.text)));
        }
        if outcome.verdict == Failed {
          guardrails.RecordFailure(Signature(call));
        } else {
          guardrails.RecordSuccess();
        }
        j := j + 1;
      }
      assert done + [] == done;
      ended := None;
    }

    /** The body of the loop: the model's turn and its calls. */
    method TakeTurn(i: nat, history: History, guardrails: ToolCallGuardrails, w: World) returns (ended: Option<End>)
      modifies this, history, guardrails
      ensures asked == old(asked) + [old(history.messages)]
      ensures TurnTaken(i, old(history.messages), old(guardrails.State()), w) ==
              Turned(history.messages, guardrails.State(), ended)
    {
      ghost var m := history.messages;
      var turn := GetNextTurn(history, w, i);
      if turn.calls == [] {
        return Some(if turn.content.Some? then ByText(turn.content.value) else ByEmptyTurn);
      }
      history.AddAssistantToolCalls(turn.calls);
      ended := ExecuteCalls(turn.calls, history, guardrails, w.outcome(i), w.hint);
      ConcatAssoc(m, [AssistantCalls(turn.calls)], Answers(turn.calls, w.outcome(i), w.hint, 0, old(guardrails.State())).answers);
    }

    /** The loop over the turns. */
    method Converse(history: History, guardrails: ToolCallGuardrails, w: World) returns (end: End)
      modifies this, history, guardrails
      ensures Run(history.messages, end, asked) ==
              After(old(asked), Loop(0, old(history.messages), old(guardrails.State()), w))
    {
      ghost var whole := After(asked, Loop(0, history.messages, guardrails.State(), w));
      var i := 0;
      while i < MAX_ITERATIONS
        invariant 0 <= i <= MAX_ITERATIONS
        invariant After(asked, Loop(i, history.messages, guardrails.State(), w)) == whole
      {
        ghost var g, said, m := guardrails.State(), asked, history.messages;
        LoopStops(i, m, g, w, said);
        if ShouldHalt(guardrails.State()) {
          return Halted(guardrails.State());
        }
        var ended := TakeTurn(i, history, guardrails, w);
        LoopTurns(i, m, g, w, said, Turned(history.messages, guardrails.State(), ended));
        if ended.Some? {
          return ended.value;
        }
        i := i + 1;
      }
      end := Exhausted;
      LoopStops(i, history.messages, guardrails.State(), w, asked);
    }

    /** The conversation loop of `execute_step`. */
    method ExecuteStep(system: string, user: string, w: World)
      returns (status: Status, summary: string, summaries: seq<string>, messages: seq<Message>)
      modifies this
      ensures var run := Loop(0, Opening(system, user), FRESH, w);
        && asked == old(asked) + run.asked && messages == run.messages
        && status == FinalStatus(run.end) && summary == FinalSummary(run.end) && summaries == StepSummaries(run.end)
    {
      var history := new History(system, user);
      var guardrails := new ToolCallGuardrails();
      var end := Converse(history, guardrails, w);
      status, summary, summaries, messages := FinalStatus(end), FinalSummary(end), StepSummaries(end), history.messages;
    }
  }

  /** A run that was asked with `earlier` before. */
  function After(earlier: seq<seq<Message>>, run: Run): Run {
    Run(run.messages, run.end, earlier + run.asked)
  }

  lemma LoopStops(i: nat, m: seq<Message>, g: Guard, w: World, asked: seq<seq<Message>>)
    requires i <= MAX_ITERATIONS
    ensures i == MAX_ITERATIONS ==> After(asked, Loop(i, m, g, w)) == Run(m, Exhausted, asked)
    ensures i < MAX_ITERATIONS && ShouldHalt(g) ==>
              After(asked, Loop(i, m, g, w)) == Run(m, Halted(g), asked)
  {
    assert asked + [] == asked;
  }

  lemma LoopTurns(i: nat, m: seq<Message>, g: Guard, w: World, asked: seq<seq<Message>>, t: Turned)
    requires i < MAX_ITERATIONS && !ShouldHalt(g) && t == TurnTaken(i, m, g, w)
    ensures After(asked, Loop(i, m, g, w)) ==
            if t.ended.Some? then Run(t.messages, t.ended.value, asked + [m])
            else After(asked + [m], Loop(i + 1, t.messages, t.guard, w))
  {
    if t.ended == None {
      ConcatAssoc(asked, [m], Loop(i + 1, t.messages, t.guard, w).asked);
    }
  }
}
