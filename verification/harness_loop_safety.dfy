/** What every run of the harness loop keeps: the grammar of its trace, the numbering of its events, and the
    bounds on calls, cost and iterations (harness/loop.py, harness/tool_executor.py, db/repositories.py). */
module HarnessLoopSafety {
  import opened Text
  import opened HarnessLoop

  // ---------- The grammar of a trace ----------

  /** Where a reader of the trace stands: between iterations (with the errors since the last tool result),
      after the error that ends the run, after a thought, inside a tool call, after a request for approval, or
      after the summary. */
  datatype Point =
    | Ready(errors: nat)
    | Exhausted
    | Thinking(errors: nat, action: Action)
    | Calling(errors: nat, kind: Kind)
    | SideLogged(errors: nat, kind: Kind)
    | Waiting
    | Closed(status: Status)
    | Stuck

  function AfterError(errors: nat, limit: int): Point {
    if errors + 1 >= limit then Exhausted else Ready(errors + 1)
  }

  /** Which event may follow, and where it leads. */
  function Next(p: Point, event: Event, limit: int): Point {
    match (p, event)
    case (Ready(n), Error(_)) => AfterError(n, limit)
    case (Ready(n), Thought(_, action)) => Thinking(n, action)
    case (Ready(_), RunSummary(Failed, _)) => Closed(Failed)
    case (Exhausted, RunSummary(Failed, _)) => Closed(Failed)
    case (Thinking(_, Finish(text)), RunSummary(Completed, summary)) =>
      if summary == text then Closed(Completed) else Stuck
    case (Thinking(n, Use(kind)), ToolCall(called)) => if called == kind then Calling(n, kind) else Stuck
    case (Calling(n, kind), SideEvent(logged)) =>
      if logged == kind && HasSideEvent(kind) then SideLogged(n, kind) else Stuck
    case (Calling(n, kind), Error(_)) => if Registered(kind) then AfterError(n, limit) else Stuck
    case (Calling(n, kind), ApprovalRequested(_, _)) => if AlwaysAllowed(kind) then Stuck else Waiting
    case (Calling(n, kind), ToolResult(used, _)) =>
      if used == kind && Registered(kind) && !HasSideEvent(kind) then Ready(0) else Stuck
    case (SideLogged(n, kind), Error(_)) => AfterError(n, limit)
    case (SideLogged(n, kind), ToolResult(used, _)) => if used == kind then Ready(0) else Stuck
    case (Waiting, RunSummary(Paused, _)) => Closed(Paused)
    case _ => Stuck
  }

  function Walk(p: Point, events: seq<Event>, limit: int): Point
    decreases |events|
  {
    if events == [] then p else Walk(Next(p, events[0], limit), events[1..], limit)
  }

  lemma {:induction false} WalkAppend(p: Point, a: seq<Event>, b: seq<Event>, limit: int)
    ensures Walk(p, a + b, limit) == Walk(Walk(p, a, limit), b, limit)
    decreases |a|
  {
    if a == [] {
      AfterPrefix([], b);
    } else {
      assert (a + b)[0] == a[0] && (a + b)[1..] == a[1..] + b;
      WalkAppend(Next(p, a[0], limit), a[1..], b, limit);
    }
  }

  lemma WalkOne(p: Point, event: Event, limit: int)
    ensures Walk(p, [event], limit) == Next(p, event, limit)
  {
    assert [event][1..] == [];
  }

  lemma WalkTwo(p: Point, a: Event, b: Event, limit: int)
    ensures Walk(p, [a] + [b], limit) == Next(Next(p, a, limit), b, limit)
  {
    WalkAppend(p, [a], [b], limit);
    WalkOne(p, a, limit);
    WalkOne(Next(p, a, limit), b, limit);
  }

  /** Where a crash may leave the trace: before an iteration, or inside a tool call. */
  predicate Broke(p: Point) {
    p.Ready? || p.Calling? || p.SideLogged?
  }

  /** What the reader sees when a step ends the run. */
  predicate EndsAt(p: Point, result: RunResult) {
    match result
    case Finished(status, _, _) => p == Closed(status)
    case Crashed => Broke(p)
  }

  /** A tool call leads to its end: a result, one error, or a request for approval. */
  lemma ExecutedWalks(n: nat, kind: Kind, env: Environment, limit: int)
    ensures var (events, observation) := Executed(kind, env);
      var p := Walk(Thinking(n, Use(kind)), events, limit);
      match observation
      case Done => p == Ready(0)
      case ErrorSeen(_) => p == AfterError(n, limit)
      case Pending(_, _) => p == Waiting
      case Broken => Broke(p)
  {
    var start, call := Thinking(n, Use(kind)), ToolCall(kind);
    WalkOne(start, call, limit);
    match Policy(kind, env.verdict)
    case Deny => WalkTwo(start, call, Error(env.reason), limit);
    case Ask =>
      if env.approval.Some? {
        WalkTwo(start, call, ApprovalRequested(env.reason, env.approval.value), limit);
      }
    case Allow =>
      if Registered(kind) {
        match env.outcome
        case Raises(error, afterEvent) => HandlerWalks(n, kind, if afterEvent then Side(kind) else [], Error(error), limit);
        case Returns(summary, callLogged) =>
          HandlerWalks(n, kind, Side(kind), ToolResult(kind, summary), limit);
      }
  }

  lemma HandlerWalks(n: nat, kind: Kind, side: seq<Event>, last: Event, limit: int)
    requires Registered(kind) && (side == Side(kind) || (side == [] && last.Error?))
    ensures Broke(Walk(Thinking(n, Use(kind)), [ToolCall(kind)] + side, limit))
    ensures last.Error? ==>
      Walk(Thinking(n, Use(kind)), [ToolCall(kind)] + side + [last], limit) == AfterError(n, limit)
    ensures last.ToolResult? && last.kind == kind ==>
      Walk(Thinking(n, Use(kind)), [ToolCall(kind)] + side + [last], limit) == Ready(0)
  {
    var start := Thinking(n, Use(kind));
    var inside := Walk(start, [ToolCall(kind)] + side, limit);
    if side == [] {
      AfterSuffix([ToolCall(kind)]);
      WalkOne(start, ToolCall(kind), limit);
    } else {
      WalkTwo(start, ToolCall(kind), SideEvent(kind), limit);
    }
    WalkAppend(start, [ToolCall(kind)] + side, [last], limit);
    WalkOne(inside, last, limit);
  }

  lemma ToolUsedWalks(st: Loop, calls: seq<real>, thought: Event, kind: Kind, env: Environment, limits: Limits)
    requires thought.Thought? && thought.action == Use(kind)
    ensures var step := ToolUsed(st, calls, thought, kind, env, limits);
      var p := Walk(Ready(st.repeated), step.events, limits.maxRepeated);
      if step.Ends? then EndsAt(p, step.result) else p == Ready(step.next.repeated)
  {
    var (logged, observation) := Executed(kind, env);
    var start, limit := Ready(st.repeated), limits.maxRepeated;
    ExecutedWalks(st.repeated, kind, env, limit);
    WalkAppend(start, [thought], logged, limit);
    WalkOne(start, thought, limit);
    match observation
    case Pending(summary, _) => Summarised(start, [thought] + logged, Paused, summary, limit);
    case ErrorSeen(error) => Summarised(start, [thought] + logged, Failed, error, limit);
    case _ =>
  }

  lemma Summarised(p: Point, events: seq<Event>, status: Status, summary: string, limit: int)
    ensures Walk(p, events + [RunSummary(status, summary)], limit) ==
            Next(Walk(p, events, limit), RunSummary(status, summary), limit)
  {
    WalkAppend(p, events, [RunSummary(status, summary)], limit);
    WalkOne(Walk(p, events, limit), RunSummary(status, summary), limit);
  }

  lemma AnsweredWalks(st: Loop, calls: seq<real>, response: Response, env: Environment, limits: Limits)
    ensures var step := Answered(st, calls, response, env, limits);
      var p := Walk(Ready(st.repeated), step.events, limits.maxRepeated);
      if step.Ends? then EndsAt(p, step.result) else p == Ready(step.next.repeated)
  {
    var start, limit := Ready(st.repeated), limits.maxRepeated;
    match response.action
    case None =>
      var error := Error(Or(response.error, NO_ACTION));
      WalkOne(start, error, limit);
      Summarised(start, [error], Failed, Or(response.error, MODEL_ERRORS), limit);
    case Some(action) =>
      var thought := Thought(Or(response.content, ActionType(action)), action);
      match action
      case Finish(summary) =>
        WalkOne(start, thought, limit);
        Summarised(start, [thought], Completed, summary, limit);
      case Use(kind) => ToolUsedWalks(st, calls, thought, kind, env, limits);
  }

  lemma IteratedWalks(st: Loop, env: Environment, limits: Limits)
    ensures var step := Iterated(st, env, limits);
      var p := Walk(Ready(st.repeated), step.events, limits.maxRepeated);
      if step.Ends? then EndsAt(p, step.result) else p == Ready(step.next.repeated)
  {
    if env.timedOut {
      var start, limit := Ready(st.repeated), limits.maxRepeated;
      WalkOne(start, Error(RUNTIME_LIMIT), limit);
      Summarised(start, [Error(RUNTIME_LIMIT)], Failed, RUNTIME_LIMIT, limit);
    } else {
      match NextAction(st.cost, limits.maxCost, env.reply)
      case None =>
      case Some(response) =>
        var paid := st.(cost := st.cost + CostOf(response.cost), iteration := st.iteration + 1);
        var made := CallsMade(st, limits, env);
        IteratedAnswers(st, env, response, paid, made, limits);
        AnsweredWalks(paid, made, response, env, limits);
    }
  }

  /** Every run follows the grammar: one that returns closes with its own status, one that raises stops
      between iterations or inside a tool call. */
  lemma {:induction false} RunWalks(st: Loop, env: nat -> Environment, limits: Limits)
    ensures EndsAt(Walk(Ready(st.repeated), Run(st, env, limits).events, limits.maxRepeated), Run(st, env, limits).result)
    decreases limits.maxIterations - st.iteration
  {
    if st.iteration < limits.maxIterations {
      var step := Iterated(st, env(st.iteration), limits);
      IteratedWalks(st, env(st.iteration), limits);
      if step.Goes? {
        RunWalks(step.next, env, limits);
        WalkAppend(Ready(st.repeated), step.events, Run(step.next, env, limits).events, limits.maxRepeated);
      }
    } else {
      WalkOne(Ready(st.repeated), RunSummary(Failed, ITERATION_LIMIT), limits.maxRepeated);
    }
  }

  /** A summary closes the trace, and nothing else does. */
  lemma {:induction false} OneSummary(p: Point, events: seq<Event>, limit: int)
    requires !p.Closed? && !Walk(p, events, limit).Stuck?
    ensures forall k | 0 <= k < |events| - 1 :: !events[k].RunSummary?
    ensures Walk(p, events, limit).Closed? <==> events != [] && events[|events| - 1].RunSummary?
    ensures Walk(p, events, limit).Closed? ==> events[|events| - 1].status == Walk(p, events, limit).status
    decreases |events|
  {
    if events != [] {
      var q := Next(p, events[0], limit);
      if q.Closed? || q.Stuck? {
        StaysStuck(q, events[1..], limit);
      } else {
        OneSummary(q, events[1..], limit);
      }
    }
  }

  /** Nothing follows a summary. */
  lemma {:induction false} StaysStuck(p: Point, events: seq<Event>, limit: int)
    requires p.Closed? || p.Stuck?
    ensures Walk(p, events, limit) == if events == [] then p else Stuck
    decreases |events|
  {
    if events != [] {
      StaysStuck(Stuck, events[1..], limit);
    }
  }

  /** The last event is the only summary and says what the run returns; a run that raises has none. */
  ghost predicate SummaryAtEnd(events: seq<Event>, result: RunResult) {
    && (forall k | 0 <= k < |events| - 1 :: !events[k].RunSummary?)
    && (result.Finished? ==> events != [] && events[|events| - 1] == RunSummary(result.status, result.summary))
    && (result.Crashed? ==> events == [] || !events[|events| - 1].RunSummary?)
  }

  ghost predicate EndsWithSummary(events: seq<Event>, result: RunResult) {
    result.Finished? ==> events != [] && events[|events| - 1] == RunSummary(result.status, result.summary)
  }

  lemma IteratedEndsWithSummary(st: Loop, env: Environment, limits: Limits)
    ensures var step := Iterated(st, env, limits);
      step.Ends? ==> EndsWithSummary(step.events, step.result)
  {
    match NextAction(st.cost, limits.maxCost, env.reply)
    case None =>
    case Some(response) =>
      if !env.timedOut {
        var paid := st.(cost := st.cost + CostOf(response.cost), iteration := st.iteration + 1);
        IteratedAnswers(st, env, response, paid, CallsMade(st, limits, env), limits);
        AnswerEndsWithSummary(paid, CallsMade(st, limits, env), response, env, limits);
      }
  }

  lemma AnswerEndsWithSummary(st: Loop, calls: seq<real>, response: Response, env: Environment, limits: Limits)
    ensures var step := Answered(st, calls, response, env, limits);
      step.Ends? ==> EndsWithSummary(step.events, step.result)
  {
  }

  lemma LaterSummary(a: seq<Event>, b: seq<Event>, result: RunResult)
    requires EndsWithSummary(b, result)
    ensures EndsWithSummary(a + b, result)
  {
  }

  lemma {:induction false} RunEndsWithSummary(st: Loop, env: nat -> Environment, limits: Limits)
    ensures EndsWithSummary(Run(st, env, limits).events, Run(st, env, limits).result)
    decreases limits.maxIterations - st.iteration
  {
    if st.iteration < limits.maxIterations {
      var step := Iterated(st, env(st.iteration), limits);
      IteratedEndsWithSummary(st, env(st.iteration), limits);
      if step.Goes? {
        var rest := Run(step.next, env, limits);
        RunEndsWithSummary(step.next, env, limits);
        LaterSummary(step.events, rest.events, rest.result);
      }
    }
  }

  /** A run that returns follows the grammar to its one summary, which is its last event and carries the status
      and the summary it returns; a run that raises stops where the grammar allows it and logs none. */
  lemma TraceGrammar(env: nat -> Environment, limits: Limits)
    ensures EndsAt(Walk(Ready(0), Run(START, env, limits).events, limits.maxRepeated), Run(START, env, limits).result)
    ensures SummaryAtEnd(Run(START, env, limits).events, Run(START, env, limits).result)
  {
    RunWalks(START, env, limits);
    RunEndsWithSummary(START, env, limits);
    OneSummary(Ready(0), Run(START, env, limits).events, limits.maxRepeated);
  }

  // ---------- Runs that raise ----------

  /** A tool call that leaves the loop by an exception: approval was wanted and none was opened, the tool is
      not registered, or logging the finished call failed. */
  predicate CallRaises(kind: Kind, env: Environment) {
    match Policy(kind, env.verdict)
    case Deny => false
    case Ask => env.approval.None?
    case Allow => kind == Message || (env.outcome.Returns? && !env.outcome.callLogged)
  }

  /** What makes an iteration raise: within time and budget, the completion failed or its tool call raises. */
  predicate Raising(st: Loop, env: Environment, limits: Limits) {
    && !env.timedOut && st.cost < limits.maxCost
    && match env.reply
       case Unavailable => true
       case Answer(_, _, action, _) => action.Some? && action.value.Use? && CallRaises(action.value.kind, env)
  }

  lemma ToolUsedCrashes(st: Loop, calls: seq<real>, thought: Event, kind: Kind, env: Environment, limits: Limits)
    ensures var step := ToolUsed(st, calls, thought, kind, env, limits);
      (step.Ends? && step.result == Crashed) <==> CallRaises(kind, env)
  {
  }

  lemma IterationCrashes(st: Loop, env: Environment, limits: Limits)
    ensures var step := Iterated(st, env, limits);
      (step.Ends? && step.result == Crashed) <==> Raising(st, env, limits)
  {
    if !env.timedOut && NextAction(st.cost, limits.maxCost, env.reply).Some? {
      var response := NextAction(st.cost, limits.maxCost, env.reply).value;
      var paid := st.(cost := st.cost + CostOf(response.cost), iteration := st.iteration + 1);
      IteratedAnswers(st, env, response, paid, CallsMade(st, limits, env), limits);
      if response.action.Some? && response.action.value.Use? {
        var action := response.action.value;
        var thought := Thought(Or(response.content, ActionType(action)), action);
        ToolUsedCrashes(paid, CallsMade(st, limits, env), thought, action.kind, env, limits);
      }
    }
  }

  /** The variables with which the k-th iteration from here begins, if the run gets there. */
  function Reached(st: Loop, env: nat -> Environment, limits: Limits, k: nat): Option<Loop>
    decreases k
  {
    if st.iteration >= limits.maxIterations then None
    else if k == 0 then Some(st)
    else
      match Iterated(st, env(st.iteration), limits)
      case Ends(_, _, _) => None
      case Goes(_, _, next) => Reached(next, env, limits, k - 1)
  }

  ghost predicate RaisesAt(st: Loop, env: nat -> Environment, limits: Limits, k: nat) {
    var at := Reached(st, env, limits, k);
    at.Some? && Raising(at.value, env(at.value.iteration), limits)
  }

  /** A run raises exactly when one of the iterations it reaches does. */
  lemma {:induction false} CrashedExactly(st: Loop, env: nat -> Environment, limits: Limits)
    ensures Run(st, env, limits).result == Crashed <==> exists k: nat :: RaisesAt(st, env, limits, k)
    decreases limits.maxIterations - st.iteration
  {
    if st.iteration < limits.maxIterations {
      var step := Iterated(st, env(st.iteration), limits);
      IterationCrashes(st, env(st.iteration), limits);
      assert RaisesAt(st, env, limits, 0) <==> Raising(st, env(st.iteration), limits);
      if step.Goes? {
        CrashedExactly(step.next, env, limits);
        forall k: nat
          ensures RaisesAt(st, env, limits, k + 1) == RaisesAt(step.next, env, limits, k)
        {
        }
        forall k: nat | RaisesAt(st, env, limits, k)
          ensures k > 0 && RaisesAt(step.next, env, limits, k - 1)
        {
        }
      } else {
        assert forall k: nat | RaisesAt(st, env, limits, k) :: k == 0;
      }
    }
  }

  /** A trace ends with its one summary exactly when no iteration reached raises. */
  lemma SummaryExactly(env: nat -> Environment, limits: Limits)
    ensures var events := Run(START, env, limits).events;
      (events != [] && events[|events| - 1].RunSummary?) <==> forall k: nat :: !RaisesAt(START, env, limits, k)
  {
    TraceGrammar(env, limits);
    CrashedExactly(START, env, limits);
  }

  /** A `message` action in a run's first turn: the thought and the call are logged, then the run raises. */
  lemma MessageRaises(env: nat -> Environment, limits: Limits, content: string, cost: Option<real>, error: string)
    requires limits.maxIterations > 0 && limits.maxCost > 0.0
    requires !env(0).timedOut && env(0).reply == Answer(content, cost, Some(Use(Message)), error)
    ensures Run(START, env, limits).result == Crashed
    ensures Run(START, env, limits).events == [Thought(Or(content, "message"), Use(Message)), ToolCall(Message)]
  {
    var response := NextAction(START.cost, limits.maxCost, env(0).reply).value;
    var paid := START.(cost := START.cost + CostOf(response.cost), iteration := START.iteration + 1);
    IteratedAnswers(START, env(0), response, paid, CallsMade(START, limits, env(0)), limits);
  }

  // ---------- The numbering of events ----------

  /** The events of the scope carry 1, 2, … in the order they were logged. */
  ghost predicate Numbered(rows: seq<Row>, scope: Scope) {
    forall k | 0 <= k < |Matching(rows, scope)| :: Matching(rows, scope)[k].sequence == k + 1
  }

  lemma MatchingSnoc(rows: seq<Row>, row: Row, scope: Scope)
    ensures Matching(rows + [row], scope) == Matching(rows, scope) + if Matches(row, scope) then [row] else []
  {
    assert (rows + [row])[..|rows|] == rows;
  }

  lemma LastOfNumbered(m: seq<Row>)
    requires forall k | 0 <= k < |m| :: m[k].sequence == k + 1
    ensures LastSequence(m) == |m|
  {
    if m != [] {
      assert m[|m| - 1].sequence == |m|;
    }
  }

  /** Logging in a scope takes its next number. */
  lemma LoggedIsNumbered(rows: seq<Row>, scope: Scope, event: Event)
    requires Numbered(rows, scope)
    ensures Numbered(Logged(rows, scope, event), scope)
    ensures Matching(Logged(rows, scope, event), scope) ==
            Matching(rows, scope) + [Row(scope.task, scope.run, |Matching(rows, scope)| + 1, event)]
  {
    LastOfNumbered(Matching(rows, scope));
    MatchingSnoc(rows, Row(scope.task, scope.run, |Matching(rows, scope)| + 1, event), scope);
  }

  function EventsOf(rows: seq<Row>): (events: seq<Event>)
    ensures |events| == |rows|
    ensures forall k | 0 <= k < |rows| :: events[k] == rows[k].event
  {
    if rows == [] then [] else [rows[0].event] + EventsOf(rows[1..])
  }

  lemma EventsSnoc(rows: seq<Row>, row: Row)
    ensures EventsOf(rows + [row]) == EventsOf(rows) + [row.event]
  {
  }

  lemma {:induction false} LoggedAllIsNumbered(rows: seq<Row>, scope: Scope, events: seq<Event>)
    requires Numbered(rows, scope)
    ensures Numbered(LoggedAll(rows, scope, events), scope)
    ensures EventsOf(Matching(LoggedAll(rows, scope, events), scope)) == EventsOf(Matching(rows, scope)) + events
    decreases |events|
  {
    if events == [] {
      AfterSuffix(EventsOf(Matching(rows, scope)));
    } else {
      var more := Logged(rows, scope, events[0]);
      LoggedIsNumbered(rows, scope, events[0]);
      EventsSnoc(Matching(rows, scope), Row(scope.task, scope.run, |Matching(rows, scope)| + 1, events[0]));
      LoggedAllIsNumbered(more, scope, events[1..]);
      ConcatAssoc(EventsOf(Matching(rows, scope)), [events[0]], events[1..]);
      assert [events[0]] + events[1..] == events;
    }
  }

  lemma {:induction false} SortedFixes(rows: seq<Row>)
    requires forall i, j | 0 <= i < j < |rows| :: rows[i].sequence <= rows[j].sequence
    ensures Sorted(rows) == rows
  {
    if rows != [] {
      SortedFixes(rows[1..]);
      assert [rows[0]] + rows[1..] == rows;
    }
  }

  /** Listing a numbered scope gives its events in the order they were logged. */
  lemma ListedInOrder(rows: seq<Row>, scope: Scope)
    requires Numbered(rows, scope)
    ensures Listed(rows, scope) == Matching(rows, scope)
  {
    SortedFixes(Matching(rows, scope));
  }

  /** A fresh run: its listed events are the user message and the trace, in order and numbered from 1, whatever
      other rows the table holds. */
  lemma FreshRun(rows: seq<Row>, scope: Scope, first: string, env: nat -> Environment, limits: Limits)
    requires Matching(rows, scope) == []
    ensures var t := Run(START, env, limits);
      var log := Listed(LoggedAll(rows, scope, Opening(rows, scope, first) + t.events), scope);
      && EventsOf(log) == [UserMessage(first)] + t.events
      && forall k | 0 <= k < |log| :: log[k].sequence == k + 1
  {
    var t := Run(START, env, limits);
    var events := [UserMessage(first)] + t.events;
    assert Opening(rows, scope, first) == [UserMessage(first)];
    LoggedAllIsNumbered(rows, scope, events);
    ListedInOrder(LoggedAll(rows, scope, events), scope);
    AfterPrefix([], events);
  }

  /** A run with a history goes on from where it was: no second user message, and the next numbers. */
  lemma ResumedRun(rows: seq<Row>, scope: Scope, first: string, env: nat -> Environment, limits: Limits)
    requires Numbered(rows, scope) && Matching(rows, scope) != []
    ensures var t := Run(START, env, limits);
      var log := Listed(LoggedAll(rows, scope, Opening(rows, scope, first) + t.events), scope);
      && EventsOf(log) == EventsOf(Matching(rows, scope)) + t.events
      && forall k | 0 <= k < |log| :: log[k].sequence == k + 1
  {
    var t := Run(START, env, limits);
    ListedInOrder(rows, scope);
    AfterPrefix([], t.events);
    LoggedAllIsNumbered(rows, scope, t.events);
    ListedInOrder(LoggedAll(rows, scope, t.events), scope);
  }

  // ---------- Several runs sharing the table ----------

  datatype Entry = Entry(scope: Scope, event: Event)

  function Log(history: seq<Entry>): seq<Row> {
    if history == [] then [] else
      Logged(Log(history[..|history| - 1]), history[|history| - 1].scope, history[|history| - 1].event)
  }

  /** The events logged for a run, in the order they were. */
  function EventsFor(history: seq<Entry>, run: nat): seq<Event> {
    if history == [] then [] else
      var last := history[|history| - 1];
      EventsFor(history[..|history| - 1], run) + if last.scope.run == Some(run) then [last.event] else []
  }

  lemma SameRun(rows: seq<Row>, a: Scope, b: Scope)
    requires a.run == b.run && a.run.Some?
    ensures Matching(rows, a) == Matching(rows, b)
  {
    if rows != [] {
      SameRun(rows[..|rows| - 1], a, b);
    }
  }

  /** However the events of different runs and tasks are interleaved, listing a run gives the events logged for
      it, in order and numbered from 1. */
  lemma {:induction false} RunsDoNotDisturb(history: seq<Entry>, run: nat, task: nat)
    ensures Numbered(Log(history), Scope(task, Some(run)))
    ensures EventsOf(Listed(Log(history), Scope(task, Some(run)))) == EventsFor(history, run)
  {
    var scope := Scope(task, Some(run));
    if history != [] {
      var front, last := history[..|history| - 1], history[|history| - 1];
      RunsDoNotDisturb(front, run, task);
      ListedInOrder(Log(front), scope);
      if last.scope.run == Some(run) {
        OwnEvent(Log(front), last.scope, scope, last.event);
      } else {
        MatchingSnoc(Log(front), Row(last.scope.task, last.scope.run,
          LastSequence(Matching(Log(front), last.scope)) + 1, last.event), scope);
        AfterSuffix(Matching(Log(front), scope));
        AfterSuffix(EventsFor(front, run));
      }
      ListedInOrder(Log(history), scope);
    }
  }

  lemma OwnEvent(rows: seq<Row>, from: Scope, scope: Scope, event: Event)
    requires from.run == scope.run && from.run.Some? && Numbered(rows, scope)
    ensures Numbered(Logged(rows, from, event), scope)
    ensures EventsOf(Matching(Logged(rows, from, event), scope)) == EventsOf(Matching(rows, scope)) + [event]
  {
    SameRun(rows, from, scope);
    LoggedIsNumbered(rows, from, event);
    SameRun(Logged(rows, from, event), from, scope);
    EventsSnoc(Matching(rows, scope), Row(from.task, from.run, |Matching(rows, scope)| + 1, event));
  }

  /** A task's own numbering does not have this property: an event of one of its runs takes the run's number,
      which the task may have used. */
  lemma TaskNumbersRepeat(task: nat, run: nat, a: Event, b: Event)
    ensures !Numbered(Log([Entry(Scope(task, None), a), Entry(Scope(task, Some(run)), b)]), Scope(task, None))
  {
    var scope, own := Scope(task, None), Scope(task, Some(run));
    var first := Row(task, None, 1, a);
    LogMore([], Entry(scope, a));
    AfterPrefix([], [Entry(scope, a)]);
    LogMore([Entry(scope, a)], Entry(own, b));
    assert [Entry(scope, a)] + [Entry(own, b)] == [Entry(scope, a), Entry(own, b)];
    LoggedFirst(scope, a);
    LoggedBeside([first], own, b);
    OneAndOne(first, Row(task, Some(run), 1, b), scope);
  }

  /** A run belongs to one task. */
  ghost predicate RunsHaveOneTask(history: seq<Entry>) {
    forall i, j | 0 <= i < |history| && 0 <= j < |history| && history[i].scope.run.Some? ::
      history[i].scope.run == history[j].scope.run ==> history[i].scope.task == history[j].scope.task
  }

  /** In the task a run's event follows only events of the same run. */
  ghost predicate RunsKeepApart(history: seq<Entry>, task: nat) {
    forall i | 0 <= i < |history| :: FollowsItsRun(history, i, task)
  }

  ghost predicate FollowsItsRun(history: seq<Entry>, i: nat, task: nat)
    requires i < |history|
  {
    history[i].scope.task == task && history[i].scope.run.Some? ==>
      forall j | 0 <= j < i && history[j].scope.task == task :: history[j].scope.run == history[i].scope.run
  }

  /** When a task's own events are numbered 1, 2, …: exactly when none of its runs' events follows an event of
      the task outside that run. */
  lemma {:induction false} TaskNumbering(history: seq<Entry>, task: nat)
    requires RunsHaveOneTask(history)
    ensures Numbered(Log(history), Scope(task, None)) <==>
      forall j, i | 0 <= j < i < |history| && history[j].scope.task == task && history[i].scope.task == task
          && history[i].scope.run.Some? ::
        history[j].scope.run == history[i].scope.run
  {
    TaskNumberedIff(history, task);
    assert RunsKeepApart(history, task) <==>
      forall j, i | 0 <= j < i < |history| && history[j].scope.task == task && history[i].scope.task == task
          && history[i].scope.run.Some? ::
        history[j].scope.run == history[i].scope.run
    by {
      if RunsKeepApart(history, task) {
        forall j, i | 0 <= j < i < |history| && history[j].scope.task == task && history[i].scope.task == task
            && history[i].scope.run.Some?
          ensures history[j].scope.run == history[i].scope.run
        {
          assert FollowsItsRun(history, i, task);
        }
      }
    }
  }

  lemma {:induction false} TaskNumberedIff(history: seq<Entry>, task: nat)
    requires RunsHaveOneTask(history)
    ensures Numbered(Log(history), Scope(task, None)) <==> RunsKeepApart(history, task)
  {
    if history != [] {
      var front, last := history[..|history| - 1], history[|history| - 1];
      TaskNumberedIff(front, task);
      ApartMore(history, front, task);
      NumberedStep(history, front, last.scope, Log(front), task);
      if last.scope.task == task && Numbered(Log(front), Scope(task, None)) {
        NextOfTask(history, front, last.scope, Log(front), task);
      }
    }
  }

  lemma NumberedStep(history: seq<Entry>, front: seq<Entry>, scope: Scope, rows: seq<Row>, task: nat)
    requires history != [] && front == history[..|history| - 1] && scope == history[|history| - 1].scope
    requires rows == Log(front)
    ensures Numbered(Log(history), Scope(task, None)) <==>
      Numbered(rows, Scope(task, None)) &&
      (scope.task == task ==> LastSequence(Matching(rows, scope)) == |Matching(rows, Scope(task, None))|)
  {
    var row := NextRow(rows, scope, history[|history| - 1].event);
    NumberedMore(rows, row, Scope(task, None));
  }

  function NextRow(rows: seq<Row>, scope: Scope, event: Event): (row: Row)
    ensures Logged(rows, scope, event) == rows + [row]
    ensures row.sequence == LastSequence(Matching(rows, scope)) + 1 && row.task == scope.task
  {
    Row(scope.task, scope.run, LastSequence(Matching(rows, scope)) + 1, event)
  }

  /** The last event took the task's next number exactly when it is the task's own or follows its run alone. */
  lemma NextOfTask(history: seq<Entry>, front: seq<Entry>, scope: Scope, rows: seq<Row>, task: nat)
    requires history != [] && front == history[..|history| - 1] && scope == history[|history| - 1].scope
    requires RunsHaveOneTask(history) && scope.task == task
    requires rows == Log(front) && Numbered(rows, Scope(task, None))
    ensures (LastSequence(Matching(rows, scope)) == |Matching(rows, Scope(task, None))|) <==>
      FollowsItsRun(history, |history| - 1, task)
  {
    LastOfNumbered(Matching(rows, Scope(task, None)));
    if scope.run.Some? {
      RunsDoNotDisturb(front, scope.run.value, task);
      LastOfNumbered(Matching(rows, scope));
      LogScopes(front);
      RunFillsTask(rows, task, scope.run.value);
      FollowsAsRows(history, front, rows, task);
    }
  }

  lemma ApartMore(history: seq<Entry>, front: seq<Entry>, task: nat)
    requires history != [] && front == history[..|history| - 1]
    ensures RunsKeepApart(history, task) <==>
      RunsKeepApart(front, task) && FollowsItsRun(history, |history| - 1, task)
  {
    assert forall i | 0 <= i < |front| :: FollowsItsRun(front, i, task) <==> FollowsItsRun(history, i, task);
  }

  lemma NumberedMore(rows: seq<Row>, row: Row, scope: Scope)
    ensures Numbered(rows + [row], scope) <==>
      Numbered(rows, scope) && (Matches(row, scope) ==> row.sequence == |Matching(rows, scope)| + 1)
  {
    MatchingSnoc(rows, row, scope);
    var m, more := Matching(rows, scope), Matching(rows + [row], scope);
    if Numbered(rows + [row], scope) {
      forall k | 0 <= k < |m|
        ensures m[k].sequence == k + 1
      {
        assert more[k] == m[k];
      }
      if Matches(row, scope) {
        assert more[|m|] == row;
      }
    }
  }

  /** The rows of the log have the scopes of the history. */
  lemma {:induction false} LogScopes(history: seq<Entry>)
    ensures |Log(history)| == |history|
    ensures forall k | 0 <= k < |history| ::
      Log(history)[k].task == history[k].scope.task && Log(history)[k].run == history[k].scope.run
  {
    if history != [] {
      LogScopes(history[..|history| - 1]);
    }
  }

  /** A run has all the rows of its task or fewer. */
  lemma {:induction false} RunFillsTask(rows: seq<Row>, task: nat, run: nat)
    requires forall k | 0 <= k < |rows| && rows[k].run == Some(run) :: rows[k].task == task
    ensures |Matching(rows, Scope(task, Some(run)))| <= |Matching(rows, Scope(task, None))|
    ensures |Matching(rows, Scope(task, Some(run)))| == |Matching(rows, Scope(task, None))| <==>
      forall k | 0 <= k < |rows| && rows[k].task == task :: rows[k].run == Some(run)
  {
    if rows != [] {
      RunFillsTask(rows[..|rows| - 1], task, run);
    }
  }

  lemma FollowsAsRows(history: seq<Entry>, front: seq<Entry>, rows: seq<Row>, task: nat)
    requires history != [] && front == history[..|history| - 1] && |rows| == |front|
    requires forall k | 0 <= k < |front| :: rows[k].task == front[k].scope.task && rows[k].run == front[k].scope.run
    requires var last := history[|history| - 1].scope; last.task == task && last.run.Some?
    ensures FollowsItsRun(history, |history| - 1, task) <==>
      forall k | 0 <= k < |rows| && rows[k].task == task :: rows[k].run == history[|history| - 1].scope.run
  {
  }

  lemma LogMore(history: seq<Entry>, entry: Entry)
    ensures Log(history + [entry]) == Logged(Log(history), entry.scope, entry.event)
  {
    assert (history + [entry])[..|history|] == history;
  }

  lemma LoggedFirst(scope: Scope, event: Event)
    ensures Logged([], scope, event) == [Row(scope.task, scope.run, 1, event)]
  {
    AfterPrefix([], [Row(scope.task, scope.run, 1, event)]);
  }

  lemma LoggedBeside(rows: seq<Row>, scope: Scope, event: Event)
    requires |rows| == 1 && !Matches(rows[0], scope)
    ensures Logged(rows, scope, event) == rows + [Row(scope.task, scope.run, 1, event)]
  {
    assert rows[..0] == [];
    assert Matching(rows, scope) == [];
  }

  lemma OneAndOne(a: Row, b: Row, scope: Scope)
    requires Matches(a, scope) && Matches(b, scope) && b.sequence == 1
    ensures !Numbered([a] + [b], scope)
  {
    MatchingSnoc([], a, scope);
    AfterPrefix([], [a]);
    MatchingSnoc([a], b, scope);
    assert Matching([a] + [b], scope)[1].sequence == 1;
  }

  // ---------- Cost and length ----------

  function Sum(calls: seq<real>): real {
    if calls == [] then 0.0 else Sum(calls[..|calls| - 1]) + calls[|calls| - 1]
  }

  lemma {:induction false} SumAppend(a: seq<real>, b: seq<real>)
    ensures Sum(a + b) == Sum(a) + Sum(b)
  {
    if b == [] {
      AfterSuffix(a);
    } else {
      assert (a + b)[..|a + b| - 1] == a + b[..|b| - 1];
      SumAppend(a, b[..|b| - 1]);
    }
  }

  /** What was spent before each call was below the limit. */
  ghost predicate Guarded(spent: real, calls: seq<real>, limit: real) {
    forall k | 0 <= k < |calls| :: spent + Sum(calls[..k]) < limit
  }

  lemma IteratedPays(st: Loop, env: Environment, limits: Limits)
    ensures var step := Iterated(st, env, limits);
      && |step.calls| <= 1 && (step.calls != [] ==> st.cost < limits.maxCost)
      && (step.Goes? ==> step.next.cost == st.cost + Sum(step.calls))
  {
    var made := CallsMade(st, limits, env);
    assert made[..0] == [];
    match NextAction(st.cost, limits.maxCost, env.reply)
    case None =>
    case Some(response) =>
      var paid := st.(cost := st.cost + CostOf(response.cost), iteration := st.iteration + 1);
      if !env.timedOut {
        IteratedAnswers(st, env, response, paid, made, limits);
        AnswerKeepsCost(paid, made, response, env, limits);
      }
  }

  lemma AnswerKeepsCost(st: Loop, calls: seq<real>, response: Response, env: Environment, limits: Limits)
    ensures var step := Answered(st, calls, response, env, limits);
      step.Goes? ==> step.next.cost == st.cost
  {
  }

  lemma GuardedMore(spent: real, a: seq<real>, b: seq<real>, limit: real)
    requires |a| <= 1 && (a != [] ==> spent < limit) && Guarded(spent + Sum(a), b, limit)
    ensures Guarded(spent, a + b, limit)
  {
    forall k | 0 <= k < |a + b|
      ensures spent + Sum((a + b)[..k]) < limit
    {
      if k < |a| {
        assert (a + b)[..k] == [];
      } else {
        assert (a + b)[..k] == a + b[..k - |a|];
        SumAppend(a, b[..k - |a|]);
      }
    }
  }

  /** No model call is made once the limit is reached, and a run makes at most one call per iteration and no
      more iterations than allowed. */
  lemma {:induction false} RunIsGuarded(st: Loop, env: nat -> Environment, limits: Limits)
    ensures var t := Run(st, env, limits);
      && Guarded(st.cost, t.calls, limits.maxCost)
      && |t.calls| <= t.iterations
      && t.iterations <= if st.iteration < limits.maxIterations then limits.maxIterations - st.iteration else 0
    decreases limits.maxIterations - st.iteration
  {
    if st.iteration < limits.maxIterations {
      var step := Iterated(st, env(st.iteration), limits);
      IteratedPays(st, env(st.iteration), limits);
      if step.Goes? {
        RunIsGuarded(step.next, env, limits);
        GuardedMore(st.cost, step.calls, Run(step.next, env, limits).calls, limits.maxCost);
      } else {
        AfterSuffix(step.calls);
        GuardedMore(st.cost, step.calls, [], limits.maxCost);
      }
    }
  }

  /** A run's spending exceeds the limit by less than its last call. */
  lemma CostBound(env: nat -> Environment, limits: Limits)
    ensures var calls := Run(START, env, limits).calls;
      && (forall k | 0 <= k < |calls| :: Sum(calls[..k]) < limits.maxCost)
      && (calls != [] ==> Sum(calls) < limits.maxCost + calls[|calls| - 1])
  {
    var calls := Run(START, env, limits).calls;
    RunIsGuarded(START, env, limits);
    if calls != [] {
      assert START.cost + Sum(calls[..|calls| - 1]) < limits.maxCost;
    }
  }

  /** Once the guard trips no further call is made, and the run ends failed within the iterations its error
      streak leaves it. */
  lemma {:induction false} AfterTheGuard(st: Loop, env: nat -> Environment, limits: Limits)
    requires !WithinBudget(st.cost, limits.maxCost)
    ensures var t := Run(st, env, limits);
      && t.calls == []
      && t.result.Finished? && t.result.status == Failed
      && t.iterations <= if limits.maxRepeated - st.repeated > 1 then limits.maxRepeated - st.repeated else 1
    decreases limits.maxIterations - st.iteration
  {
    if st.iteration < limits.maxIterations {
      var step := Iterated(st, env(st.iteration), limits);
      if step.Goes? {
        AfterTheGuard(step.next, env, limits);
      }
    }
  }
}
