/** The bounded action loop of the harness: one model call and at most one tool call per iteration, an
    error streak, a cost guard and an append-only event log (harness/loop.py, harness/tool_executor.py,
    harness/model_adapter.py, db/repositories.py). */
module HarnessLoop {
  import opened Text

  // ---------- The event log ----------

  datatype Status = Completed | Paused | Failed

  /** The kinds of action that name a tool. */
  datatype Kind = Message | Shell | Browser | FileRead | FileWrite | FilePatch | Search | InstallLibrary
    | InstallRepo | Git | GitHub | SourceCache | Approval

  datatype Action = Finish(summary: string) | Use(kind: Kind)

  datatype Event =
    | UserMessage(content: string)
    | Thought(content: string, action: Action)
    | ToolCall(kind: Kind)
    | SideEvent(kind: Kind)
    | ToolResult(kind: Kind, content: string)
    | ApprovalRequested(reason: string, id: nat)
    | Error(content: string)
    | RunSummary(status: Status, content: string)

  datatype Row = Row(task: nat, run: Option<nat>, sequence: nat, event: Event)

  /** What a reader of the log asks for: one run, or one task when no run is given. */
  datatype Scope = Scope(task: nat, run: Option<nat>)

  predicate Matches(row: Row, scope: Scope) {
    if scope.run.Some? then row.run == scope.run else row.task == scope.task
  }

  function Matching(rows: seq<Row>, scope: Scope): (m: seq<Row>)
    ensures forall k | 0 <= k < |m| :: Matches(m[k], scope)
  {
    if rows == [] then [] else
      Matching(rows[..|rows| - 1], scope) + if Matches(rows[|rows| - 1], scope) then [rows[|rows| - 1]] else []
  }

  /** `max(sequence)` over the rows, or 0 */
  function LastSequence(rows: seq<Row>): (n: nat)
    ensures forall k | 0 <= k < |rows| :: rows[k].sequence <= n
    ensures n == 0 || exists k | 0 <= k < |rows| :: rows[k].sequence == n
  {
    if rows == [] then 0 else
      var n := LastSequence(rows[1..]);
      if rows[0].sequence > n then rows[0].sequence else n
  }

  /** `append_event`: the row gets the next number of its run, or of its task when it has no run. */
  function Logged(rows: seq<Row>, scope: Scope, event: Event): seq<Row> {
    rows + [Row(scope.task, scope.run, LastSequence(Matching(rows, scope)) + 1, event)]
  }

  function LoggedAll(rows: seq<Row>, scope: Scope, events: seq<Event>): seq<Row>
    decreases |events|
  {
    if events == [] then rows else LoggedAll(Logged(rows, scope, events[0]), scope, events[1..])
  }

  function Insert(row: Row, sorted: seq<Row>): seq<Row> {
    if sorted == [] || row.sequence <= sorted[0].sequence then [row] + sorted
    else [sorted[0]] + Insert(row, sorted[1..])
  }

  /** `ORDER BY sequence` */
  function Sorted(rows: seq<Row>): seq<Row> {
    if rows == [] then [] else Insert(rows[0], Sorted(rows[1..]))
  }

  /** `list_events` */
  function Listed(rows: seq<Row>, scope: Scope): seq<Row> {
    Sorted(Matching(rows, scope))
  }

  // ---------- The model ----------

  /** What the completion call brings: an exception, or text with its cost from which an action was parsed or
      an error raised. */
  datatype Reply = Unavailable | Answer(content: string, cost: Option<real>, action: Option<Action>, error: string)

  datatype Response = Response(content: string, action: Option<Action>, cost: Option<real>, error: string)

  /** Whether the cost guard lets the model be called. */
  predicate WithinBudget(cost: real, limit: real) {
    cost < limit
  }

  /** `next_action`; nothing stands for the exception of a failed completion. */
  function NextAction(cost: real, limit: real, reply: Reply): Option<Response> {
    if !WithinBudget(cost, limit) then
      Some(Response("", None, None, "Task exceeded budget before requesting another model call."))
    else
      match reply
      case Unavailable => None
      case Answer(content, actual, action, error) =>
        Some(Response(content, action, actual, if action.Some? then "" else error))
  }

  // ---------- Tools ----------

  datatype Verdict = Allow | Deny | Ask

  /** How a tool's handler ends. It may raise before or after logging its own event; when it returns, logging
      the call may still raise. */
  datatype ToolOutcome = Returns(summary: string, callLogged: bool) | Raises(error: string, afterEvent: bool)

  /** What one iteration meets outside the loop. */
  datatype Environment = Environment(timedOut: bool, reply: Reply, verdict: Verdict, reason: string,
    approval: Option<nat>, outcome: ToolOutcome)

  /** Actions the policy always allows. */
  predicate AlwaysAllowed(kind: Kind) {
    kind in {Message, FilePatch, Search, Git, SourceCache, Approval}
  }

  function Policy(kind: Kind, verdict: Verdict): Verdict {
    if AlwaysAllowed(kind) then Allow else verdict
  }

  /** Every kind but `message` has a registered tool. */
  predicate Registered(kind: Kind) {
    kind != Message
  }

  /** The tools whose handler logs an event of its own. */
  predicate HasSideEvent(kind: Kind) {
    kind in {Shell, Browser, FileWrite, FilePatch, Approval}
  }

  datatype Observation = Done | ErrorSeen(error: string) | Pending(summary: string, id: nat) | Broken

  function Side(kind: Kind): seq<Event> {
    if HasSideEvent(kind) then [SideEvent(kind)] else []
  }

  /** `execute_action`: the events it logs and what it returns, `Broken` for an exception. */
  function Executed(kind: Kind, env: Environment): (seq<Event>, Observation) {
    var call := [ToolCall(kind)];
    match Policy(kind, env.verdict)
    case Deny => (call + [Error(env.reason)], ErrorSeen(env.reason))
    case Ask =>
      if env.approval.None? then (call, Broken)
      else (call + [ApprovalRequested(env.reason, env.approval.value)], Pending(env.reason, env.approval.value))
    case Allow =>
      if !Registered(kind) then (call, Broken) else
        match env.outcome
        case Raises(error, afterEvent) =>
          (call + (if afterEvent then Side(kind) else []) + [Error(error)], ErrorSeen(error))
        case Returns(summary, callLogged) =>
          if callLogged then (call + Side(kind) + [ToolResult(kind, summary)], Done) else (call + Side(kind), Broken)
  }

  /** What executing an action comes to. A denied one logs its call and one error and no tool is run; one that
      needs approval logs its call and the request, and raises if none could be opened; `message` has no tool and
      raises; else the tool runs, and what follows its own event is an error, a result, or nothing when logging the
      finished call raises. */
  ghost predicate Handled(kind: Kind, env: Environment, events: seq<Event>, observation: Observation) {
    var judged := kind !in {Message, FilePatch, Search, Git, SourceCache, Approval};
    var own := if kind in {Shell, Browser, FileWrite, FilePatch, Approval} then [SideEvent(kind)] else [];
    if judged && env.verdict == Deny then
      events == [ToolCall(kind), Error(env.reason)] && observation == ErrorSeen(env.reason)
    else if judged && env.verdict == Ask then
      match env.approval
      case None => events == [ToolCall(kind)] && observation == Broken
      case Some(id) =>
        events == [ToolCall(kind), ApprovalRequested(env.reason, id)] && observation == Pending(env.reason, id)
    else if kind == Message then events == [ToolCall(kind)] && observation == Broken
    else
      match env.outcome
      case Raises(error, afterEvent) =>
        events == [ToolCall(kind)] + (if afterEvent then own else []) + [Error(error)] && observation == ErrorSeen(error)
      case Returns(summary, true) =>
        events == [ToolCall(kind)] + own + [ToolResult(kind, summary)] && observation == Done
      case Returns(_, false) => events == [ToolCall(kind)] + own && observation == Broken
  }

  lemma ExecutedIsHandled(kind: Kind, env: Environment)
    ensures Handled(kind, env, Executed(kind, env).0, Executed(kind, env).1)
  {
  }

  // ---------- The loop ----------

  datatype Limits = Limits(maxIterations: int, maxRepeated: int, maxCost: real)

  datatype RunResult = Finished(status: Status, summary: string, approval: Option<nat>) | Crashed

  /** The variables of the loop. */
  datatype Loop = Loop(iteration: nat, repeated: nat, cost: real)

  /** What one iteration logs, the cost of each model call it makes, and whether the run ends there. */
  datatype Step =
    | Ends(events: seq<Event>, calls: seq<real>, result: RunResult)
    | Goes(events: seq<Event>, calls: seq<real>, next: Loop)

  function CostOf(cost: Option<real>): real {
    if cost.Some? then cost.value else 0.0
  }

  /** `_finish` */
  function Ending(events: seq<Event>, calls: seq<real>, status: Status, summary: string, approval: Option<nat>): Step {
    Ends(events + [RunSummary(status, summary)], calls, Finished(status, summary, approval))
  }

  function CallsMade(st: Loop, limits: Limits, env: Environment): seq<real> {
    if WithinBudget(st.cost, limits.maxCost) && env.reply.Answer? then [CostOf(env.reply.cost)] else []
  }

  const RUNTIME_LIMIT := "Harness loop exceeded runtime limit."
  const ITERATION_LIMIT := "Harness loop exceeded maximum iterations."
  const NO_ACTION := "Model did not return a valid action."
  const MODEL_ERRORS := "Repeated model errors."

  function Or(s: string, default: string): string {
    if s == "" then default else s
  }

  function ActionType(action: Action): string {
    match action
    case Finish(_) => "finish"
    case Use(Message) => "message"
    case Use(Shell) => "shell"
    case Use(Browser) => "browser"
    case Use(FileRead) => "file_read"
    case Use(FileWrite) => "file_write"
    case Use(FilePatch) => "file_patch"
    case Use(Search) => "search"
    case Use(InstallLibrary) => "install_library"
    case Use(InstallRepo) => "install_repo"
    case Use(Git) => "git"
    case Use(GitHub) => "github"
    case Use(SourceCache) => "source_cache"
    case Use(Approval) => "approval"
  }

  /** An iteration in which the model gave no action. */
  function ModelFailed(st: Loop, calls: seq<real>, error: string, limits: Limits): Step {
    var events := [Error(Or(error, NO_ACTION))];
    if st.repeated + 1 >= limits.maxRepeated then Ending(events, calls, Failed, Or(error, MODEL_ERRORS), None)
    else Goes(events, calls, st.(repeated := st.repeated + 1))
  }

  /** An iteration in which a tool is used. */
  function ToolUsed(st: Loop, calls: seq<real>, thought: Event, kind: Kind, env: Environment, limits: Limits):
      (step: Step)
    ensures step.calls == calls && (step.Goes? ==> step.next.iteration == st.iteration)
  {
    var (logged, observation) := Executed(kind, env);
    var events := [thought] + logged;
    match observation
    case Broken => Ends(events, calls, Crashed)
    case Pending(summary, id) => Ending(events, calls, Paused, summary, Some(id))
    case ErrorSeen(error) =>
      if st.repeated + 1 >= limits.maxRepeated then Ending(events, calls, Failed, error, None)
      else Goes(events, calls, st.(repeated := st.repeated + 1))
    case Done => Goes(events, calls, st.(repeated := 0))
  }

  /** What an iteration makes of the model's response. */
  function Answered(st: Loop, calls: seq<real>, response: Response, env: Environment, limits: Limits): (step: Step)
    ensures step.calls == calls && (step.Goes? ==> step.next.iteration == st.iteration)
  {
    match response.action
    case None => ModelFailed(st, calls, response.error, limits)
    case Some(action) =>
      var thought := Thought(Or(response.content, ActionType(action)), action);
      match action
      case Finish(summary) => Ending([thought], calls, Completed, summary, None)
      case Use(kind) => ToolUsed(st, calls, thought, kind, env, limits)
  }

  /** One iteration of `run_task`. */
  function Iterated(st: Loop, env: Environment, limits: Limits): (step: Step)
    ensures step.Goes? ==> step.next.iteration == st.iteration + 1
  {
    if env.timedOut then Ending([Error(RUNTIME_LIMIT)], [], Failed, RUNTIME_LIMIT, None)
    else
      match NextAction(st.cost, limits.maxCost, env.reply)
      case None => Ends([], [], Crashed)
      case Some(response) =>
        var paid := st.(cost := st.cost + CostOf(response.cost), iteration := st.iteration + 1);
        Answered(paid, CallsMade(st, limits, env), response, env, limits)
  }

  // ---------- What an iteration is ----------

  /** The name of a kind of action. */
  predicate IsName(kind: Kind, name: string) {
    && (kind == Message ==> name == "message") && (kind == Shell ==> name == "shell")
    && (kind == Browser ==> name == "browser") && (kind == FileRead ==> name == "file_read")
    && (kind == FileWrite ==> name == "file_write") && (kind == FilePatch ==> name == "file_patch")
    && (kind == Search ==> name == "search") && (kind == InstallLibrary ==> name == "install_library")
    && (kind == InstallRepo ==> name == "install_repo") && (kind == Git ==> name == "git")
    && (kind == GitHub ==> name == "github") && (kind == SourceCache ==> name == "source_cache")
    && (kind == Approval ==> name == "approval")
  }

  /** An iteration that saw an error: the run ends failed when that is as many in a row as allowed, and else goes
      on with one more. */
  ghost predicate SawError(st: Loop, cost: real, events: seq<Event>, calls: seq<real>, summary: string, limits: Limits,
      step: Step)
  {
    if st.repeated + 1 >= limits.maxRepeated then
      step == Ends(events + [RunSummary(Failed, summary)], calls, Finished(Failed, summary, None))
    else step == Goes(events, calls, Loop(st.iteration + 1, st.repeated + 1, cost))
  }

  /** An iteration that used a tool: it raises, pauses the run, counts an error, or starts a new count. */
  ghost predicate UsedTool(st: Loop, cost: real, events: seq<Event>, calls: seq<real>, observation: Observation,
      limits: Limits, step: Step)
  {
    match observation
    case Broken => step == Ends(events, calls, Crashed)
    case Pending(summary, id) =>
      step == Ends(events + [RunSummary(Paused, summary)], calls, Finished(Paused, summary, Some(id)))
    case ErrorSeen(error) => SawError(st, cost, events, calls, error, limits, step)
    case Done => step == Goes(events, calls, Loop(st.iteration + 1, 0, cost))
  }

  /** What the model's answer leads to. */
  ghost predicate AnswerLeads(st: Loop, env: Environment, cost: real, calls: seq<real>, content: string,
      action: Option<Action>, error: string, limits: Limits, step: Step)
  {
    match action
    case None =>
      if error == "" then
        SawError(st, cost, [Error("Model did not return a valid action.")], calls, "Repeated model errors.", limits, step)
      else SawError(st, cost, [Error(error)], calls, error, limits, step)
    case Some(Finish(summary)) =>
      step == Ends([Thought(if content == "" then "finish" else content, Finish(summary)), RunSummary(Completed, summary)],
                   calls, Finished(Completed, summary, None))
    case Some(Use(kind)) =>
      exists name: string, events, observation | IsName(kind, name) && Handled(kind, env, events, observation) ::
        UsedTool(st, cost, [Thought(if content == "" then name else content, Use(kind))] + events, calls, observation,
                 limits, step)
  }

  /** One iteration, told by what it meets: the time limit ends the run; over budget the model is not asked, which
      is an error; a failed completion raises; else the answer decides. */
  ghost predicate IterationIs(st: Loop, env: Environment, limits: Limits, step: Step) {
    if env.timedOut then
      var late := "Harness loop exceeded runtime limit.";
      step == Ends([Error(late), RunSummary(Failed, late)], [], Finished(Failed, late, None))
    else if st.cost >= limits.maxCost then
      var broke := "Task exceeded budget before requesting another model call.";
      SawError(st, st.cost, [Error(broke)], [], broke, limits, step)
    else
      match env.reply
      case Unavailable => step == Ends([], [], Crashed)
      case Answer(content, cost, action, error) =>
        var spent := if cost == None then 0.0 else cost.value;
        AnswerLeads(st, env, st.cost + spent, [spent], content, action, error, limits, step)
  }

  lemma NameOf(kind: Kind)
    ensures IsName(kind, ActionType(Use(kind)))
  {
  }

  lemma UseLeads(st: Loop, paid: Loop, env: Environment, calls: seq<real>, content: string, kind: Kind, error: string,
      limits: Limits)
    requires paid == Loop(st.iteration + 1, st.repeated, paid.cost)
    ensures var action := Use(kind);
      AnswerLeads(st, env, paid.cost, calls, content, Some(action), error, limits,
        ToolUsed(paid, calls, Thought(Or(content, ActionType(action)), action), kind, env, limits))
  {
    NameOf(kind);
    ExecutedIsHandled(kind, env);
    var action := Use(kind);
    var events := [Thought(Or(content, ActionType(action)), action)] + Executed(kind, env).0;
    assert UsedTool(st, paid.cost, events, calls, Executed(kind, env).1, limits,
        ToolUsed(paid, calls, Thought(Or(content, ActionType(action)), action), kind, env, limits));
  }

  lemma AnsweredLeads(st: Loop, paid: Loop, env: Environment, calls: seq<real>, response: Response, limits: Limits)
    requires paid == Loop(st.iteration + 1, st.repeated, paid.cost)
    ensures AnswerLeads(st, env, paid.cost, calls, response.content, response.action, response.error, limits,
                        Answered(paid, calls, response, env, limits))
  {
    match response.action
    case None =>
    case Some(Finish(_)) =>
    case Some(Use(kind)) => UseLeads(st, paid, env, calls, response.content, kind, response.error, limits);
  }

  lemma IteratedIs(st: Loop, env: Environment, limits: Limits)
    ensures IterationIs(st, env, limits, Iterated(st, env, limits))
  {
    if !env.timedOut && NextAction(st.cost, limits.maxCost, env.reply).Some? {
      var response := NextAction(st.cost, limits.maxCost, env.reply).value;
      var paid := st.(cost := st.cost + CostOf(response.cost), iteration := st.iteration + 1);
      IteratedAnswers(st, env, response, paid, CallsMade(st, limits, env), limits);
      AnsweredLeads(st, paid, env, CallsMade(st, limits, env), response, limits);
      if st.cost < limits.maxCost {
        AnswersAlike(st, env, paid.cost, limits, response, Iterated(st, env, limits));
      }
    }
  }

  lemma AnswersAlike(st: Loop, env: Environment, cost: real, limits: Limits, response: Response, step: Step)
    requires env.reply.Answer? && st.cost < limits.maxCost && !env.timedOut
    requires Some(response) == NextAction(st.cost, limits.maxCost, env.reply) && cost == st.cost + CostOf(response.cost)
    requires AnswerLeads(st, env, cost, CallsMade(st, limits, env), response.content, response.action, response.error, limits, step)
    ensures IterationIs(st, env, limits, step)
  {
  }

  /** The rest of a run: its events, the costs of its model calls, how it ends and in how many iterations. */
  datatype Trace = Trace(events: seq<Event>, calls: seq<real>, result: RunResult, iterations: nat)

  function Run(st: Loop, env: nat -> Environment, limits: Limits): Trace
    decreases limits.maxIterations - st.iteration
  {
    if st.iteration >= limits.maxIterations then
      Trace([RunSummary(Failed, ITERATION_LIMIT)], [], Finished(Failed, ITERATION_LIMIT, None), 0)
    else
      match Iterated(st, env(st.iteration), limits)
      case Ends(events, calls, result) => Trace(events, calls, result, 1)
      case Goes(events, calls, next) =>
        var rest := Run(next, env, limits);
        Trace(events + rest.events, calls + rest.calls, rest.result, rest.iterations + 1)
  }

  const START := Loop(0, 0, 0.0)

  function Opening(rows: seq<Row>, scope: Scope, first: string): seq<Event> {
    if Listed(rows, scope) == [] then [UserMessage(first)] else []
  }

  /** `EventStore` over the table of events. */
  class EventStore {
    var rows: seq<Row>

    constructor ()
      ensures rows == []
    {
      rows := [];
    }

    method Append(scope: Scope, event: Event)
      modifies this
      ensures rows == Logged(old(rows), scope, event)
    {
      var next: nat := 0;
      var i := 0;
      var matching := Matching(rows, scope);
      while i < |matching|
        invariant 0 <= i <= |matching|
        invariant forall k | 0 <= k < i :: matching[k].sequence <= next
        invariant next == 0 || exists k | 0 <= k < i :: matching[k].sequence == next
      {
        if matching[i].sequence > next {
          next := matching[i].sequence;
        }
        i := i + 1;
      }
      rows := rows + [Row(scope.task, scope.run, next + 1, event)];
    }
  }

  class Harness {
    const store: EventStore
    const limits: Limits
    /** The costs of the completions made so far. */
    var calls: seq<real>

    constructor (store: EventStore, limits: Limits)
      ensures this.store == store && this.limits == limits && calls == []
    {
      this.store := store;
      this.limits := limits;
      calls := [];
    }

    /** `execute_action` */
    method ExecuteAction(kind: Kind, scope: Scope, env: Environment) returns (observation: Observation)
      modifies store
      ensures observation == Executed(kind, env).1
      ensures store.rows == LoggedAll(old(store.rows), scope, Executed(kind, env).0)
      ensures exists events :: Handled(kind, env, events, observation) && store.rows == LoggedAll(old(store.rows), scope, events)
    {
      ghost var before := store.rows;
      ExecutedIsHandled(kind, env);
      store.Append(scope, ToolCall(kind));
      LoggedOne(before, scope, ToolCall(kind));
      match Policy(kind, env.verdict) {
        case Deny =>
          LoggedSnoc(before, scope, [ToolCall(kind)], Error(env.reason));
          store.Append(scope, Error(env.reason));
          return ErrorSeen(env.reason);
        case Ask =>
          if env.approval.None? {
            return Broken;
          }
          LoggedSnoc(before, scope, [ToolCall(kind)], ApprovalRequested(env.reason, env.approval.value));
          store.Append(scope, ApprovalRequested(env.reason, env.approval.value));
          return Pending(env.reason, env.approval.value);
        case Allow =>
      }
      if !Registered(kind) {
        return Broken;
      }
      match env.outcome {
        case Raises(error, afterEvent) =>
          var side := if afterEvent then Side(kind) else [];
          LogSide(scope, side, before, [ToolCall(kind)]);
          LoggedSnoc(before, scope, [ToolCall(kind)] + side, Error(error));
          store.Append(scope, Error(error));
          return ErrorSeen(error);
        case Returns(summary, callLogged) =>
          LogSide(scope, Side(kind), before, [ToolCall(kind)]);
          if !callLogged {
            return Broken;
          }
          LoggedSnoc(before, scope, [ToolCall(kind)] + Side(kind), ToolResult(kind, summary));
          store.Append(scope, ToolResult(kind, summary));
          return Done;
      }
    }

    /** `_finish` */
    method Finish(scope: Scope, status: Status, summary: string, approval: Option<nat>, ghost before: seq<Row>,
        ghost logged: seq<Event>) returns (result: RunResult)
      requires store.rows == LoggedAll(before, scope, logged)
      modifies store
      ensures store.rows == LoggedAll(before, scope, logged + [RunSummary(status, summary)])
      ensures result == Finished(status, summary, approval)
    {
      LoggedSnoc(before, scope, logged, RunSummary(status, summary));
      store.Append(scope, RunSummary(status, summary));
      result := Finished(status, summary, approval);
    }

    /** The body of the loop; `ended` is what it returns, if it does. */
    method Iterate(scope: Scope, st: Loop, env: Environment) returns (ended: Option<RunResult>, next: Loop)
      modifies this`calls, store
      ensures var step := Iterated(st, env, limits);
        && store.rows == LoggedAll(old(store.rows), scope, step.events)
        && calls == old(calls) + step.calls
        && ended == (if step.Ends? then Some(step.result) else None)
        && (step.Goes? ==> next == step.next)
        && IterationIs(st, env, limits, step)
    {
      ghost var before := store.rows;
      next := st;
      IteratedIs(st, env, limits);
      if env.timedOut {
        LoggedOne(before, scope, Error(RUNTIME_LIMIT));
        store.Append(scope, Error(RUNTIME_LIMIT));
        var result := Finish(scope, Failed, RUNTIME_LIMIT, None, before, [Error(RUNTIME_LIMIT)]);
        AfterSuffix(calls);
        return Some(result), next;
      }
      var reply := NextAction(st.cost, limits.maxCost, env.reply);
      if reply.None? {
        AfterSuffix(calls);
        return Some(Crashed), next;
      }
      var response := reply.value;
      ghost var made := CallsMade(st, limits, env);
      calls := calls + CallsMade(st, limits, env);
      next := next.(cost := st.cost + CostOf(response.cost), iteration := st.iteration + 1);
      IteratedAnswers(st, env, response, next, made, limits);
      ended, next := Answer(scope, next, response, env, made);
    }

    /** The part of the body that follows the model's response. */
    method Answer(scope: Scope, st: Loop, response: Response, env: Environment, ghost made: seq<real>)
      returns (ended: Option<RunResult>, next: Loop)
      modifies store
      ensures var step := Answered(st, made, response, env, limits);
        && store.rows == LoggedAll(old(store.rows), scope, step.events)
        && ended == (if step.Ends? then Some(step.result) else None)
        && (step.Goes? ==> next == step.next)
    {
      ghost var before := store.rows;
      next := st;
      if response.action.None? {
        var error := Error(Or(response.error, NO_ACTION));
        next := next.(repeated := next.repeated + 1);
        LoggedOne(before, scope, error);
        store.Append(scope, error);
        if next.repeated >= limits.maxRepeated {
          var result := Finish(scope, Failed, Or(response.error, MODEL_ERRORS), None, before, [error]);
          return Some(result), next;
        }
        return None, next;
      }
      var action := response.action.value;
      var thought := Thought(Or(response.content, ActionType(action)), action);
      LoggedOne(before, scope, thought);
      store.Append(scope, thought);
      if action.Finish? {
        var result := Finish(scope, Completed, action.summary, None, before, [thought]);
        return Some(result), next;
      }
      ended, next := UseTool(scope, next, thought, action.kind, env, before, made);
    }

    /** The part of the body that follows the thought. */
    method UseTool(scope: Scope, st: Loop, thought: Event, kind: Kind, env: Environment, ghost before: seq<Row>,
        ghost made: seq<real>)
      returns (ended: Option<RunResult>, next: Loop)
      requires store.rows == LoggedAll(before, scope, [thought])
      modifies store
      ensures var step := ToolUsed(st, made, thought, kind, env, limits);
        && store.rows == LoggedAll(before, scope, step.events)
        && ended == (if step.Ends? then Some(step.result) else None)
        && (step.Goes? ==> next == step.next)
    {
      next := st;
      var observation := ExecuteAction(kind, scope, env);
      ghost var events := [thought] + Executed(kind, env).0;
      LoggedAppend(before, scope, [thought], Executed(kind, env).0);
      match observation {
        case Broken =>
          return Some(Crashed), next;
        case Pending(summary, id) =>
          var result := Finish(scope, Paused, summary, Some(id), before, events);
          return Some(result), next;
        case ErrorSeen(error) =>
          next := next.(repeated := next.repeated + 1);
          if next.repeated >= limits.maxRepeated {
            var result := Finish(scope, Failed, error, None, before, events);
            return Some(result), next;
          }
        case Done =>
          next := next.(repeated := 0);
      }
      ended := None;
    }

    /** `run_task`; `first` is the first message of a new run, `env` what each iteration meets. */
    method RunTask(scope: Scope, first: string, env: nat -> Environment) returns (result: RunResult)
      modifies this`calls, store
      ensures var t := Run(START, env, limits);
        && store.rows == LoggedAll(old(store.rows), scope, Opening(old(store.rows), scope, first) + t.events)
        && calls == old(calls) + t.calls
        && result == t.result
    {
      ghost var before, opening := store.rows, Opening(store.rows, scope, first);
      if Listed(store.rows, scope) == [] {
        LoggedOne(before, scope, UserMessage(first));
        store.Append(scope, UserMessage(first));
      }
      var st := START;
      ghost var whole, logged, spent := Run(START, env, limits), opening, calls;
      AfterSuffix(calls);
      while st.iteration < limits.maxIterations
        invariant store.rows == LoggedAll(before, scope, logged)
        invariant logged + Run(st, env, limits).events == opening + whole.events
        invariant calls + Run(st, env, limits).calls == spent + whole.calls
        invariant Run(st, env, limits).result == whole.result
        decreases limits.maxIterations - st.iteration
      {
        ghost var step := Iterated(st, env(st.iteration), limits);
        ghost var rest := if step.Goes? then Run(step.next, env, limits) else whole;
        ghost var paid := calls;
        var ended, next := Iterate(scope, st, env(st.iteration));
        LoggedAppend(before, scope, logged, step.events);
        ConcatAssoc(logged, step.events, rest.events);
        ConcatAssoc(paid, step.calls, rest.calls);
        if ended.Some? {
          return ended.value;
        }
        logged := logged + step.events;
        st := next;
      }
      result := Finish(scope, Failed, ITERATION_LIMIT, None, before, logged);
      AfterSuffix(calls);
    }

    /** The event a handler logs itself. */
    method LogSide(scope: Scope, side: seq<Event>, ghost before: seq<Row>, ghost logged: seq<Event>)
      requires |side| <= 1 && store.rows == LoggedAll(before, scope, logged)
      modifies store
      ensures store.rows == LoggedAll(before, scope, logged + side)
    {
      if side == [] {
        assert logged + side == logged;
      } else {
        assert side == [side[0]];
        LoggedSnoc(before, scope, logged, side[0]);
        store.Append(scope, side[0]);
      }
    }
  }

  lemma IteratedAnswers(st: Loop, env: Environment, response: Response, paid: Loop, made: seq<real>, limits: Limits)
    requires !env.timedOut && NextAction(st.cost, limits.maxCost, env.reply) == Some(response)
    requires paid == st.(cost := st.cost + CostOf(response.cost), iteration := st.iteration + 1)
    requires made == CallsMade(st, limits, env)
    ensures Iterated(st, env, limits) == Answered(paid, made, response, env, limits)
  {
  }

  lemma LoggedOne(rows: seq<Row>, scope: Scope, event: Event)
    ensures LoggedAll(rows, scope, [event]) == Logged(rows, scope, event)
  {
    assert [event][1..] == [];
  }

  lemma {:induction false} LoggedAppend(rows: seq<Row>, scope: Scope, a: seq<Event>, b: seq<Event>)
    ensures LoggedAll(rows, scope, a + b) == LoggedAll(LoggedAll(rows, scope, a), scope, b)
    decreases |a|
  {
    if a == [] {
      AfterPrefix([], b);
    } else {
      assert (a + b)[0] == a[0] && (a + b)[1..] == a[1..] + b;
      LoggedAppend(Logged(rows, scope, a[0]), scope, a[1..], b);
    }
  }

  lemma LoggedSnoc(rows: seq<Row>, scope: Scope, a: seq<Event>, event: Event)
    ensures LoggedAll(rows, scope, a + [event]) == Logged(LoggedAll(rows, scope, a), scope, event)
  {
    LoggedAppend(rows, scope, a, [event]);
    LoggedOne(LoggedAll(rows, scope, a), scope, event);
  }
}
