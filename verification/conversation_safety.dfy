/** What every run of the conversation loop keeps: the message protocol, the bound on turns, and what its
    final status means (agent/nodes.py, agent/model_client.py). */
module ConversationSafety {
  import opened Text
  import opened Conversation

  // ---------- The message protocol ----------

  /** The message answers the call. */
  predicate IsAnswer(m: Message, call: Request) {
    m.ToolResult? && m.id == call.id && m.name == call.name
  }

  /** The first messages answer the calls, one each and in their order. */
  predicate AnswerEach(m: seq<Message>, calls: seq<Request>) {
    |calls| <= |m| && forall k | 0 <= k < |calls| :: IsAnswer(m[k], calls[k])
  }

  /** Blocks of one assistant message with tool calls and one result per call, in the order of the calls. */
  predicate Blocks(m: seq<Message>)
    decreases |m|
  {
    m == [] ||
    (m[0].AssistantCalls? && m[0].calls != [] && AnswerEach(m[1..], m[0].calls) && Blocks(m[1 + |m[0].calls|..]))
  }

  /** A system message, a user message, and blocks. */
  predicate Protocol(m: seq<Message>) {
    |m| >= 2 && m[0].System? && m[1].User? && Blocks(m[2..])
  }

  lemma OneBlock(calls: seq<Request>, answers: seq<Message>)
    requires calls != [] && |answers| == |calls| && AnswerEach(answers, calls)
    ensures Blocks([AssistantCalls(calls)] + answers)
  {
    var m := [AssistantCalls(calls)] + answers;
    assert m[1..] == answers && m[1 + |calls|..] == [];
  }

  lemma FromIndex<T>(a: seq<T>, b: seq<T>, n: nat)
    requires 0 < n <= |a|
    ensures (a + b)[0] == a[0] && (a + b)[n..] == a[n..] + b
  {
  }

  lemma StillAnswered(a: seq<Message>, b: seq<Message>, calls: seq<Request>)
    requires AnswerEach(a, calls)
    ensures AnswerEach(a + b, calls)
  {
  }

  lemma {:induction false} BlocksAppend(a: seq<Message>, b: seq<Message>)
    requires Blocks(a) && Blocks(b)
    ensures Blocks(a + b)
    decreases |a|
  {
    if a == [] {
      AfterPrefix([], b);
    } else {
      var n := 1 + |a[0].calls|;
      BlocksAppend(a[n..], b);
      FromIndex(a, b, n);
      FromIndex(a, b, 1);
      StillAnswered(a[1..], b, a[0].calls);
    }
  }

  lemma AfterTwo(m: seq<Message>, block: seq<Message>)
    requires |m| >= 2
    ensures |m + block| >= 2 && (m + block)[0] == m[0] && (m + block)[1] == m[1]
    ensures (m + block)[2..] == m[2..] + block
  {
  }

  lemma ProtocolGrows(m: seq<Message>, block: seq<Message>, all: seq<Message>)
    requires Protocol(m) && Blocks(block) && all == m + block
    ensures Protocol(all)
  {
    AfterTwo(m, block);
    BlocksAppend(m[2..], block);
  }

  /** The answers match the calls from `j` on, in order: all of them, or up to the first terminal call. */
  predicate Matched(a: Answered, calls: seq<Request>, j: nat)
    requires j <= |calls|
  {
    && |a.answers| <= |calls| - j
    && (forall k | 0 <= k < |a.answers| :: IsAnswer(a.answers[k], calls[j + k]))
    && (a.ended == None <==> forall k | j <= k < |calls| :: !Terminal(calls[k]))
    && (a.ended == None ==> |a.answers| == |calls| - j)
    && (a.ended.Some? ==>
          && |a.answers| > 0 && Terminal(calls[j + |a.answers| - 1])
          && forall k | j <= k < j + |a.answers| - 1 :: !Terminal(calls[k]))
  }

  lemma MatchedMore(a: Answered, calls: seq<Request>, j: nat, first: Message, all: seq<Message>)
    requires j < |calls| && Matched(a, calls, j + 1) && IsAnswer(first, calls[j]) && !Terminal(calls[j])
    requires all == [first] + a.answers
    ensures Matched(Answered(all, a.guard, a.ended), calls, j)
  {
    forall k | 0 <= k < |all|
      ensures IsAnswer(all[k], calls[j + k])
    {
      assert k > 0 ==> all[k] == a.answers[k - 1] && IsAnswer(a.answers[k - 1], calls[j + 1 + (k - 1)]);
    }
  }

  lemma {:induction false} AnswersMatch(calls: seq<Request>, given: nat -> Outcome, hint: string, j: nat, g: Guard)
    requires j <= |calls|
    ensures Matched(Answers(calls, given, hint, j, g), calls, j)
    decreases |calls| - j
  {
    if j < |calls| && !Terminal(calls[j]) {
      var outcome := Executed(calls[j], given(j));
      var now := if outcome.verdict == Failed then Failure(g, Signature(calls[j])) else Success(g);
      var rest := Answers(calls, given, hint, j + 1, now);
      AnswersMatch(calls, given, hint, j + 1, now);
      MatchedMore(rest, calls, j, Answer(calls[j], outcome, hint), [Answer(calls[j], outcome, hint)] + rest.answers);
    }
  }

  /** A turn that does not end the loop adds a block, and counts at least one call. */
  lemma TurnAddsBlock(i: nat, messages: seq<Message>, g: Guard, w: World)
    requires Protocol(messages) && TurnTaken(i, messages, g, w).ended == None
    ensures Protocol(TurnTaken(i, messages, g, w).messages)
  {
    var calls := w.turn(i).calls;
    var answers := Answers(calls, w.outcome(i), w.hint, 0, g).answers;
    AnswersMatch(calls, w.outcome(i), w.hint, 0, g);
    assert forall k | 0 <= k < |answers| :: IsAnswer(answers[k], calls[0 + k]);
    OneBlock(calls, answers);
    ProtocolGrows(messages, [AssistantCalls(calls)] + answers, TurnTaken(i, messages, g, w).messages);
  }

  ghost predicate AllInProtocol(asked: seq<seq<Message>>) {
    forall k | 0 <= k < |asked| :: Protocol(asked[k])
  }

  lemma AskedMore(m: seq<Message>, rest: seq<seq<Message>>)
    requires Protocol(m) && AllInProtocol(rest)
    ensures AllInProtocol([m] + rest)
  {
  }

  lemma {:induction false} AskedInProtocol(i: nat, messages: seq<Message>, g: Guard, w: World)
    requires i <= MAX_ITERATIONS && Protocol(messages)
    ensures |Loop(i, messages, g, w).asked| <= MAX_ITERATIONS - i && AllInProtocol(Loop(i, messages, g, w).asked)
    decreases MAX_ITERATIONS - i
  {
    AskedMore(messages, []);
    if i < MAX_ITERATIONS && !ShouldHalt(g) {
      var t := TurnTaken(i, messages, g, w);
      if t.ended == None {
        TurnAddsBlock(i, messages, g, w);
        AskedInProtocol(i + 1, t.messages, t.guard, w);
        AskedMore(messages, Loop(i + 1, t.messages, t.guard, w).asked);
      } else {
        AfterSuffix([messages]);
      }
    }
  }

  /** Over a whole run: whenever the model is asked the history follows the protocol, every call made so far
      being answered; and it is asked at most 40 times. */
  lemma ConversationProtocol(system: string, user: string, w: World)
    ensures var asked := Loop(0, Opening(system, user), FRESH, w).asked;
      |asked| <= 40 && forall k | 0 <= k < |asked| :: Protocol(asked[k])
  {
    assert Opening(system, user)[2..] == [];
    AskedInProtocol(0, Opening(system, user), FRESH, w);
  }

  /** The history a run leaves follows the protocol too, unless a terminal call ended it: then the last block
      may lack the results of the calls after that one. */
  predicate Left(m: seq<Message>, end: End) {
    if end.ByCall? then
      exists n | 0 <= n < |m| :: Protocol(m[..n]) && CutBlock(m[n..])
    else Protocol(m)
  }

  /** A block answered up to its first terminal call. */
  predicate CutBlock(b: seq<Message>) {
    && |b| >= 2 && b[0].AssistantCalls? && |b| - 1 <= |b[0].calls|
    && (forall k | 0 <= k < |b| - 1 :: IsAnswer(b[k + 1], b[0].calls[k]))
    && Terminal(b[0].calls[|b| - 2])
    && (forall k | 0 <= k < |b| - 2 :: !Terminal(b[0].calls[k]))
  }

  lemma CutBlockOf(calls: seq<Request>, answers: seq<Message>, block: seq<Message>)
    requires 0 < |answers| <= |calls| && block == [AssistantCalls(calls)] + answers
    requires forall k | 0 <= k < |answers| :: IsAnswer(answers[k], calls[k])
    requires Terminal(calls[|answers| - 1]) && forall k | 0 <= k < |answers| - 1 :: !Terminal(calls[k])
    ensures CutBlock(block)
  {
    assert block[0] == AssistantCalls(calls) && forall k | 0 <= k < |answers| :: block[k + 1] == answers[k];
  }

  lemma LeftBy(messages: seq<Message>, block: seq<Message>, end: End)
    requires Protocol(messages) && CutBlock(block) && end.ByCall?
    ensures Left(messages + block, end)
  {
    AfterPrefix(messages, block);
    assert Protocol((messages + block)[..|messages|]) && CutBlock((messages + block)[|messages|..]);
  }

  lemma TurnEnds(i: nat, messages: seq<Message>, g: Guard, w: World)
    requires Protocol(messages) && TurnTaken(i, messages, g, w).ended.Some?
    ensures Left(TurnTaken(i, messages, g, w).messages, TurnTaken(i, messages, g, w).ended.value)
  {
    var calls := w.turn(i).calls;
    if calls != [] {
      var a := Answers(calls, w.outcome(i), w.hint, 0, g);
      AnswersMatch(calls, w.outcome(i), w.hint, 0, g);
      EndedByCall(calls, w.outcome(i), w.hint, 0, g);
      var block := [AssistantCalls(calls)] + a.answers;
      assert forall k | 0 <= k < |a.answers| :: IsAnswer(a.answers[k], calls[0 + k]);
      CutBlockOf(calls, a.answers, block);
      LeftBy(messages, block, a.ended.value);
    }
  }

  lemma {:induction false} EndedByCall(calls: seq<Request>, given: nat -> Outcome, hint: string, j: nat, g: Guard)
    requires j <= |calls|
    ensures Answers(calls, given, hint, j, g).ended.Some? ==> Answers(calls, given, hint, j, g).ended.value.ByCall?
    decreases |calls| - j
  {
    if j < |calls| && !Terminal(calls[j]) {
      var outcome := Executed(calls[j], given(j));
      EndedByCall(calls, given, hint, j + 1,
        if outcome.verdict == Failed then Failure(g, Signature(calls[j])) else Success(g));
    }
  }

  lemma {:induction false} LeftInProtocol(i: nat, messages: seq<Message>, g: Guard, w: World)
    requires i <= MAX_ITERATIONS && Protocol(messages)
    ensures Left(Loop(i, messages, g, w).messages, Loop(i, messages, g, w).end)
    decreases MAX_ITERATIONS - i
  {
    if i < MAX_ITERATIONS && !ShouldHalt(g) {
      var t := TurnTaken(i, messages, g, w);
      if t.ended.Some? {
        TurnEnds(i, messages, g, w);
      } else {
        TurnAddsBlock(i, messages, g, w);
        LeftInProtocol(i + 1, t.messages, t.guard, w);
      }
    }
  }

  /** The text of an answer: the terminal tools answer for themselves, any other brings its own, with a hint when it
      waits for approval; 8000 characters of it at most. */
  predicate Says(m: Message, call: Request, given: Outcome, hint: string) {
    var text :=
      if call.name == "task_complete" then if call.summary == None then "Task completed." else call.summary.value
      else if call.name == "task_failed" then if call.reason == None then "Task failed." else call.reason.value
      else if given.verdict == NeedsApproval then given.text + hint
      else given.text;
    m.ToolResult? && m.content == if |text| > 8000 then text[..8000] else text
  }

  lemma AnswerSays(call: Request, given: Outcome, hint: string)
    ensures Says(Answer(call, Executed(call, given), hint), call, given, hint)
  {
  }

  /** Every answer says what its call came to. */
  lemma {:induction false} AnswersSay(calls: seq<Request>, given: nat -> Outcome, hint: string, j: nat, g: Guard, k: nat)
    requires j <= |calls| && k < |Answers(calls, given, hint, j, g).answers|
    ensures j + k < |calls| && Says(Answers(calls, given, hint, j, g).answers[k], calls[j + k], given(j + k), hint)
    decreases |calls| - j
  {
    AnswerSays(calls[j], given(j), hint);
    if k > 0 {
      var outcome := Executed(calls[j], given(j));
      var now := if outcome.verdict == Failed then Failure(g, Signature(calls[j])) else Success(g);
      AnswersSay(calls, given, hint, j + 1, now, k - 1);
    }
  }

  // ---------- The guardrails ----------

  /** What the guardrails are told of one call. */
  datatype Record = Good | Bad(signature: string)

  function Recorded(g: Guard, r: Record): Guard {
    match r
    case Good => Success(g)
    case Bad(signature) => Failure(g, signature)
  }

  function GuardOf(records: seq<Record>): Guard {
    if records == [] then FRESH else Recorded(GuardOf(records[..|records| - 1]), records[|records| - 1])
  }

  /** How many of the last records are failures. */
  function Streak(records: seq<Record>): nat {
    if records == [] || records[|records| - 1].Good? then 0 else 1 + Streak(records[..|records| - 1])
  }

  /** The failures, in order. */
  function Failures(records: seq<Record>): seq<string> {
    if records == [] then [] else
      var last := records[|records| - 1];
      Failures(records[..|records| - 1]) + if last.Bad? then [last.signature] else []
  }

  function Members(s: seq<string>): set<string> {
    set x | x in s
  }

  /** What is counted is how many different strings there are. */
  lemma {:induction false} DifferentCounts(s: seq<string>)
    ensures Different(s) == |Members(s)|
  {
    if s != [] {
      DifferentCounts(s[1..]);
      assert forall x | x in s :: x == s[0] || x in s[1..];
      if s[0] in s[1..] {
        assert Members(s) == Members(s[1..]);
      } else {
        assert Members(s) == Members(s[1..]) + {s[0]};
      }
    }
  }

  /** The last six failures were of at most two different calls. */
  predicate AlikeAtLast(failures: seq<string>) {
    |failures| >= 6 && |Members(failures[|failures| - 6..])| <= 2
  }

  lemma RepeatsMeaning(failures: seq<string>)
    ensures Repeats(failures) <==> AlikeAtLast(failures)
  {
    if |failures| >= 6 {
      DifferentCounts(failures[|failures| - 6..]);
    }
  }

  /** Why the guardrails halt: the first of the three causes that holds. */
  predicate IsReason(reason: string, records: seq<Record>) {
    && (|records| >= 40 ==> reason == "Reached maximum iterations (" + Decimal(40) + ")")
    && (|records| < 40 && Streak(records) >= 5 ==>
          reason == "Too many consecutive failures (" + Decimal(Streak(records)) + ")")
    && (|records| < 40 && Streak(records) < 5 ==> reason == "Detected repetitive loop in tool calls")
  }

  /** The three counters are the number of records, the length of the current streak of failures, and the
      failures in order. So the guardrails halt exactly on 40 calls, on 5 failures in a row, or when the last six
      failures (with or without successes between them) were of at most two different calls. */
  lemma {:induction false} GuardMeaning(records: seq<Record>)
    ensures GuardOf(records) == Guard(|records|, Streak(records), Failures(records))
    ensures ShouldHalt(GuardOf(records)) <==>
            |records| >= 40 || Streak(records) >= 5 || AlikeAtLast(Failures(records))
    ensures IsReason(HaltReason(GuardOf(records)), records)
  {
    RepeatsMeaning(Failures(records));
    if records != [] {
      GuardMeaning(records[..|records| - 1]);
      AfterSuffix(Failures(records[..|records| - 1]));
    }
  }

  /** What the guardrails are told of a call that does not end the run. */
  function RecordOf(call: Request, given: Outcome): Record {
    if Executed(call, given).verdict == Failed then Bad(Signature(call)) else Good
  }

  /** The records of the first n calls of a turn. */
  function TurnRecords(calls: seq<Request>, given: nat -> Outcome, n: nat): (records: seq<Record>)
    requires n <= |calls|
    ensures |records| == n
  {
    if n == 0 then [] else TurnRecords(calls, given, n - 1) + [RecordOf(calls[n - 1], given(n - 1))]
  }

  /** The records of a run's first turns. */
  function RunRecords(w: World, turns: nat): seq<Record> {
    if turns == 0 then [] else
      RunRecords(w, turns - 1) +
      TurnRecords(w.turn(turns - 1).calls, w.outcome(turns - 1), |w.turn(turns - 1).calls|)
  }

  /** A failed call is told by its name and the first 100 characters of its arguments; every other is good. */
  lemma RecordMeaning(call: Request, given: Outcome)
    requires !Terminal(call)
    ensures given.verdict != Failed ==> RecordOf(call, given) == Good
    ensures given.verdict == Failed && |call.arguments| <= 100 ==>
              RecordOf(call, given) == Bad(call.name + ":" + call.arguments)
    ensures given.verdict == Failed && |call.arguments| > 100 ==>
              RecordOf(call, given) == Bad(call.name + ":" + call.arguments[..100])
  {
  }

  lemma GuardMore(records: seq<Record>, r: Record)
    ensures GuardOf(records + [r]) == Recorded(GuardOf(records), r)
  {
    assert (records + [r])[..|records|] == records;
  }

  predicate NoneTerminal(calls: seq<Request>) {
    forall k | 0 <= k < |calls| :: !Terminal(calls[k])
  }

  /** A turn without a terminal call leaves the guardrails as the records of its calls do, one for each. */
  lemma {:induction false} AnswersRecord(calls: seq<Request>, given: nat -> Outcome, hint: string, j: nat, g: Guard,
      earlier: seq<Record>)
    requires j <= |calls| && NoneTerminal(calls) && g == GuardOf(earlier + TurnRecords(calls, given, j))
    ensures Answers(calls, given, hint, j, g).guard == GuardOf(earlier + TurnRecords(calls, given, |calls|))
    decreases |calls| - j
  {
    if j < |calls| {
      var r := RecordOf(calls[j], given(j));
      GuardMore(earlier + TurnRecords(calls, given, j), r);
      ConcatAssoc(earlier, TurnRecords(calls, given, j), [r]);
      AnswersRecord(calls, given, hint, j + 1, Recorded(g, r), earlier);
    }
  }

  // ---------- How a run ends ----------

  /** Turn k asks for calls, none of them terminal, and the records before it do not halt the run. */
  predicate GoesOn(w: World, k: nat) {
    w.turn(k).calls != [] && NoneTerminal(w.turn(k).calls) && !ShouldHalt(GuardOf(RunRecords(w, k)))
  }

  /** Call n is the first terminal one. */
  predicate FirstTerminal(calls: seq<Request>, n: nat) {
    n < |calls| && Terminal(calls[n]) && forall m | 0 <= m < n :: !Terminal(calls[m])
  }

  /** The end at a turn that does not go on. */
  ghost predicate EndsBy(w: World, k: nat, end: End) {
    var turn, guard := w.turn(k), GuardOf(RunRecords(w, k));
    if ShouldHalt(guard) then end == Halted(guard)
    else if turn.calls == [] then end == if turn.content.Some? then ByText(turn.content.value) else ByEmptyTurn
    else exists n: nat | FirstTerminal(turn.calls, n) :: EndsByCall(turn.calls[n], w.outcome(k)(n), end)
  }

  predicate EndsByCall(call: Request, given: Outcome, end: End) {
    if call.name == "task_complete" then end == ByCall(Completed, Or(call.summary, Executed(call, given).text))
    else end == ByCall(GaveUp, Or(call.reason, Executed(call, given).text))
  }

  lemma {:induction false} AnswersEnd(calls: seq<Request>, given: nat -> Outcome, hint: string, j: nat, g: Guard)
    requires j <= |calls| && (forall m | 0 <= m < j :: !Terminal(calls[m])) && !NoneTerminal(calls)
    ensures var ended := Answers(calls, given, hint, j, g).ended;
      ended.Some? && exists n: nat | FirstTerminal(calls, n) :: EndsByCall(calls[n], given(n), ended.value)
    decreases |calls| - j
  {
    if j < |calls| {
      if Terminal(calls[j]) {
        assert FirstTerminal(calls, j);
      } else {
        AnswersEnd(calls, given, hint, j + 1,
          if Executed(calls[j], given(j)).verdict == Failed then Failure(g, Signature(calls[j])) else Success(g));
      }
    }
  }

  lemma TurnGoesOn(i: nat, messages: seq<Message>, g: Guard, w: World)
    requires g == GuardOf(RunRecords(w, i)) && GoesOn(w, i)
    ensures var t := TurnTaken(i, messages, g, w);
      t.ended == None && t.guard == GuardOf(RunRecords(w, i + 1))
  {
    var calls := w.turn(i).calls;
    AnswersMatch(calls, w.outcome(i), w.hint, 0, g);
    AfterSuffix(RunRecords(w, i));
    AnswersRecord(calls, w.outcome(i), w.hint, 0, g, RunRecords(w, i));
  }

  /** A run whose turns go on up to turn k, and no further, ends as that turn says. */
  lemma {:induction false} RunEnds(i: nat, messages: seq<Message>, g: Guard, w: World, k: nat)
    requires i <= k <= MAX_ITERATIONS && g == GuardOf(RunRecords(w, i))
    requires (forall j | i <= j < k :: GoesOn(w, j)) && (k == MAX_ITERATIONS || !GoesOn(w, k))
    ensures var end := Loop(i, messages, g, w).end;
      if k == MAX_ITERATIONS then end == Exhausted else EndsBy(w, k, end)
    decreases k - i
  {
    if i < k {
      var t := TurnTaken(i, messages, g, w);
      TurnGoesOn(i, messages, g, w);
      LoopGoesOn(i, messages, g, w, t);
      RunEnds(i + 1, t.messages, t.guard, w, k);
    } else if k < MAX_ITERATIONS && !ShouldHalt(g) && w.turn(k).calls != [] {
      AnswersEnd(w.turn(k).calls, w.outcome(k), w.hint, 0, g);
    }
  }

  lemma LoopGoesOn(i: nat, messages: seq<Message>, g: Guard, w: World, t: Turned)
    requires i < MAX_ITERATIONS && !ShouldHalt(g) && t == TurnTaken(i, messages, g, w) && t.ended == None
    ensures Loop(i, messages, g, w).end == Loop(i + 1, t.messages, t.guard, w).end
  {
  }

  /** The turn at which a run stops going on, or 40. */
  function StopsAt(w: World, i: nat): (k: nat)
    requires i <= MAX_ITERATIONS
    ensures i <= k <= MAX_ITERATIONS && (forall j | i <= j < k :: GoesOn(w, j))
    ensures k == MAX_ITERATIONS || !GoesOn(w, k)
    decreases MAX_ITERATIONS - i
  {
    if i == MAX_ITERATIONS || !GoesOn(w, i) then i else StopsAt(w, i + 1)
  }

  lemma EndedEarly(w: World, k: nat, end: End)
    requires EndsBy(w, k, end)
    ensures end != Exhausted
  {
  }

  lemma EveryTurnGoesOn(w: World)
    ensures StopsAt(w, 0) == 40 <==> forall k | 0 <= k < 40 :: GoesOn(w, k)
  {
  }

  /** The 40 turns run out exactly when each of them goes on. */
  lemma ExhaustedExactly(system: string, user: string, w: World)
    ensures Loop(0, Opening(system, user), FRESH, w).end == Exhausted <==> forall k | 0 <= k < 40 :: GoesOn(w, k)
  {
    var run, k := Loop(0, Opening(system, user), FRESH, w), StopsAt(w, 0);
    RunEnds(0, Opening(system, user), FRESH, w, k);
    EveryTurnGoesOn(w);
    if k < 40 {
      EndedEarly(w, k, run.end);
    }
  }

  /** One record for each call, so turns that go on make one call or more each. */
  lemma {:induction false} RecordsCount(w: World, i: nat)
    requires forall k | 0 <= k < i :: GoesOn(w, k)
    ensures |RunRecords(w, i)| >= i
    ensures |RunRecords(w, i)| == i ==> forall k | 0 <= k < i :: |w.turn(k).calls| == 1
  {
    if i > 0 {
      RecordsCount(w, i - 1);
      assert GoesOn(w, i - 1);
    }
  }

  /** The records before turn k halt nothing but by their number. */
  predicate NoLoopBefore(w: World, k: nat) {
    Streak(RunRecords(w, k)) < 5 && !AlikeAtLast(Failures(RunRecords(w, k)))
  }

  lemma GoesOnMeaning(w: World, k: nat)
    ensures GoesOn(w, k) <==>
      w.turn(k).calls != [] && NoneTerminal(w.turn(k).calls) && |RunRecords(w, k)| < 40 && NoLoopBefore(w, k)
  {
    GuardMeaning(RunRecords(w, k));
  }

  /** Turns of calls, exactly one each but in the last, none of them terminal, with never 5 failures in a row nor
      the last six of at most two calls. */
  predicate SingleCalls(w: World, turns: nat) {
    && (forall k | 0 <= k < turns :: w.turn(k).calls != [] && NoneTerminal(w.turn(k).calls) && NoLoopBefore(w, k))
    && (forall k | 0 <= k < turns - 1 :: |w.turn(k).calls| == 1)
  }

  lemma AllGoOn(w: World, turns: nat)
    requires turns == MAX_ITERATIONS && forall k | 0 <= k < turns :: GoesOn(w, k)
    ensures SingleCalls(w, turns)
  {
    FewRecords(w, turns - 1);
    forall k | 0 <= k < turns
      ensures w.turn(k).calls != [] && NoneTerminal(w.turn(k).calls) && NoLoopBefore(w, k)
    {
      GoesOnMeaning(w, k);
    }
  }

  /** The calls before the last turn leave room for no second call in a turn. */
  lemma FewRecords(w: World, last: nat)
    requires last == MAX_ITERATIONS - 1 && forall k | 0 <= k <= last :: GoesOn(w, k)
    ensures forall k | 0 <= k < last :: |w.turn(k).calls| == 1
  {
    GoesOnMeaning(w, last);
    RecordsCount(w, last);
  }

  lemma SingleCallsGoOn(w: World, turns: nat, k: nat)
    requires SingleCalls(w, turns) && k < turns <= MAX_ITERATIONS
    ensures GoesOn(w, k)
  {
    OneEach(w, k);
    GoesOnMeaning(w, k);
  }

  /** In terms of calls: the 40 turns run out exactly when all but the last make one call each. */
  lemma ExhaustedTurns(w: World, turns: nat)
    requires turns == MAX_ITERATIONS
    ensures (forall k | 0 <= k < turns :: GoesOn(w, k)) <==> SingleCalls(w, turns)
  {
    if forall k | 0 <= k < turns :: GoesOn(w, k) {
      AllGoOn(w, turns);
    }
    if SingleCalls(w, turns) {
      forall k | 0 <= k < turns
        ensures GoesOn(w, k)
      {
        SingleCallsGoOn(w, turns, k);
      }
    }
  }

  lemma {:induction false} OneEach(w: World, i: nat)
    requires forall k | 0 <= k < i :: |w.turn(k).calls| == 1
    ensures |RunRecords(w, i)| == i
  {
    if i > 0 {
      OneEach(w, i - 1);
    }
  }

  // ---------- What is reported ----------

  /** The summary reported and the one recorded, if one is, by how the run ended. */
  lemma SummaryMeaning(end: End)
    ensures match end
      case ByCall(status, summary) =>
        FinalStatus(end) == status && FinalSummary(end) == summary && StepSummaries(end) == [summary]
      case ByText(text) =>
        && FinalStatus(end) == Completed && StepSummaries(end) == [FinalSummary(end)]
        && FinalSummary(end) == (if text != "" then text else "Task completed.")
      case ByEmptyTurn => FinalStatus(end) == Completed && FinalSummary(end) == "Task completed." && StepSummaries(end) == []
      case Halted(g) =>
        FinalStatus(end) == GaveUp && FinalSummary(end) == "Execution halted: " + HaltReason(g) && StepSummaries(end) == []
      case Exhausted => FinalStatus(end) == Completed && FinalSummary(end) == "Task completed." && StepSummaries(end) == []
  {
  }

  // ---------- What the final status means ----------

  /** The run gets to turn k. */
  predicate GetsTo(w: World, k: nat) {
    forall j | 0 <= j < k :: GoesOn(w, j)
  }

  ghost predicate FirstTerminalIs(calls: seq<Request>, name: string) {
    exists n: nat | FirstTerminal(calls, n) :: calls[n].name == name
  }

  /** At turn k the guardrails halt the run, or `task_failed` is its first terminal call. */
  ghost predicate GivesUpAt(w: World, k: nat) {
    ShouldHalt(GuardOf(RunRecords(w, k))) || FirstTerminalIs(w.turn(k).calls, "task_failed")
  }

  /** At turn k the model makes no call, or `task_complete` is its first terminal call. */
  ghost predicate SaysDoneAt(w: World, k: nat) {
    && !ShouldHalt(GuardOf(RunRecords(w, k)))
    && (w.turn(k).calls == [] || FirstTerminalIs(w.turn(k).calls, "task_complete"))
  }

  lemma StatusAt(w: World, k: nat, end: End)
    requires !GoesOn(w, k) && EndsBy(w, k, end)
    ensures FinalStatus(end) == GaveUp <==> GivesUpAt(w, k)
    ensures FinalStatus(end) == Completed <==> SaysDoneAt(w, k)
  {
    var calls := w.turn(k).calls;
    if !ShouldHalt(GuardOf(RunRecords(w, k))) && calls != [] {
      var n: nat :| FirstTerminal(calls, n) && EndsByCall(calls[n], w.outcome(k)(n), end);
      OneFirst(calls, n);
    }
  }

  lemma OneFirst(calls: seq<Request>, n: nat)
    requires FirstTerminal(calls, n)
    ensures FirstTerminalIs(calls, "task_complete") <==> calls[n].name == "task_complete"
    ensures FirstTerminalIs(calls, "task_failed") <==> calls[n].name != "task_complete"
  {
    forall m: nat | FirstTerminal(calls, m)
      ensures m == n
    {
    }
  }

  lemma NotBoth(w: World, k: nat)
    requires GoesOn(w, k)
    ensures !GivesUpAt(w, k) && !SaysDoneAt(w, k)
  {
  }

  /** No other turn the run gets to gives up or says it is done. */
  lemma OneStop(w: World, k: nat)
    requires GetsTo(w, k) && (k == 40 || !GoesOn(w, k))
    ensures forall j: nat | j < 40 && GetsTo(w, j) && j != k :: !GivesUpAt(w, j) && !SaysDoneAt(w, j)
  {
    forall j: nat | j < 40 && GetsTo(w, j) && j != k
      ensures !GivesUpAt(w, j) && !SaysDoneAt(w, j)
    {
      assert j < k;
      NotBoth(w, j);
    }
  }

  /** What the reported status says of the model and its calls: failed exactly when the turn it stopped at gave
      up; completed exactly when that turn said it was done or there was no such turn among the 40. */
  lemma FinalStatusMeaning(system: string, user: string, w: World)
    ensures var status := FinalStatus(Loop(0, Opening(system, user), FRESH, w).end);
      && (status == GaveUp <==> exists k | 0 <= k < 40 :: GetsTo(w, k) && GivesUpAt(w, k))
      && (status == Completed <==>
            GetsTo(w, 40) || exists k | 0 <= k < 40 :: GetsTo(w, k) && SaysDoneAt(w, k))
  {
    var run, k := Loop(0, Opening(system, user), FRESH, w), StopsAt(w, 0);
    RunEnds(0, Opening(system, user), FRESH, w, k);
    assert GetsTo(w, k);
    if k < 40 {
      StatusAt(w, k, run.end);
    }
    OneStop(w, k);
  }

  /** A completed run whose model never said it was done is one whose 40 turns all went on, and no other. */
  lemma UnsaidExactly(system: string, user: string, w: World)
    ensures var status := FinalStatus(Loop(0, Opening(system, user), FRESH, w).end);
      status == Completed && !(exists k | 0 <= k < 40 :: GetsTo(w, k) && SaysDoneAt(w, k)) <==> GetsTo(w, 40)
  {
    FinalStatusMeaning(system, user, w);
    if GetsTo(w, 40) {
      OneStop(w, 40);
    }
  }

  /** The world in which the model keeps making one call that succeeds. */
  function Busy(call: Request): World {
    World(i => ModelTurn(None, [call]), i => j => Outcome("ok", Succeeded), "")
  }

  lemma OneGood(call: Request, given: nat -> Outcome)
    requires !Terminal(call) && given(0).verdict == Succeeded
    ensures TurnRecords([call], given, 1) == [Good]
  {
    assert TurnRecords([call], given, 0) == [];
    AfterPrefix([], [Good]);
  }

  lemma GoodMore(records: seq<Record>, longer: seq<Record>, n: nat)
    requires GuardOf(records) == Guard(n, 0, []) && longer == records + [Good]
    ensures GuardOf(longer) == Guard(n + 1, 0, [])
  {
    GuardMore(records, Good);
  }

  /** Turn k makes one call that succeeds. */
  predicate AddsGood(w: World, k: nat) {
    RunRecords(w, k + 1) == RunRecords(w, k) + [Good]
  }

  lemma BusyTurn(i: nat, call: Request, w: World)
    requires !Terminal(call) && w == Busy(call)
    ensures AddsGood(w, i)
  {
    assert w.turn(i).calls == [call];
    OneGood(call, w.outcome(i));
  }

  lemma {:induction false} GoodRecords(i: nat, w: World)
    requires forall k: nat :: AddsGood(w, k)
    ensures GuardOf(RunRecords(w, i)) == Guard(i, 0, [])
  {
    if i > 0 {
      GoodRecords(i - 1, w);
      assert AddsGood(w, i - 1);
      GoodMore(RunRecords(w, i - 1), RunRecords(w, i), i - 1);
    }
  }

  lemma BusyGoesOn(i: nat, call: Request, w: World)
    requires i < MAX_ITERATIONS && !Terminal(call) && w == Busy(call)
    ensures GoesOn(w, i)
  {
    forall k: nat
      ensures AddsGood(w, k)
    {
      BusyTurn(k, call, w);
    }
    GoodRecords(i, w);
  }

  /** Such a run is reported as completed, although the model never said so. */
  lemma BusyEndsCompleted(system: string, user: string, call: Request)
    requires !Terminal(call)
    ensures var run := Loop(0, Opening(system, user), FRESH, Busy(call));
      FinalStatus(run.end) == Completed && FinalSummary(run.end) == "Task completed." && StepSummaries(run.end) == []
  {
    forall i | 0 <= i < MAX_ITERATIONS
      ensures GoesOn(Busy(call), i)
    {
      BusyGoesOn(i, call, Busy(call));
    }
    ExhaustedExactly(system, user, Busy(call));
  }
}
