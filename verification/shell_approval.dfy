/** The shell tool: commands are classified, held for approval, and run once (tools/shell_command.py;
    approvals are reviewed in gateways/service.py and harness/tool_executor.py). */
module ShellApproval {
  import opened Text
  import opened ShellWords

  // ---------- Classification ----------

  datatype Level = Safe | Medium | High | Dangerous

  datatype Rule = Rule(name: string, reason: string, matches: string -> bool)

  datatype Rules = Rules(blocked: seq<Rule>, safe: seq<Rule>, dangerous: seq<Rule>, high: seq<Rule>, medium: seq<Rule>)

  datatype Assessment = Assessment(level: Level, requiresApproval: bool, blocked: bool, reason: string, rule: string)

  ghost predicate AnyMatches(rules: seq<Rule>, target: string) {
    exists k | 0 <= k < |rules| :: rules[k].matches(target)
  }

  method MatchRule(target: string, rules: seq<Rule>) returns (found: Option<Rule>)
    ensures found == FirstMatch(target, rules)
  {
    var i := 0;
    while i < |rules|
      invariant 0 <= i <= |rules|
      invariant FirstMatch(target, rules) == FirstMatch(target, rules[i..])
    {
      assert rules[i..][0] == rules[i] && rules[i..][1..] == rules[i + 1..];
      if rules[i].matches(target) {
        return Some(rules[i]);
      }
      i := i + 1;
    }
    found := None;
  }

  function FirstMatch(target: string, rules: seq<Rule>): (found: Option<Rule>)
    ensures found.Some? <==> AnyMatches(rules, target)
    ensures found.Some? ==> found.value in rules && found.value.matches(target)
  {
    if rules == [] then None
    else if rules[0].matches(target) then Some(rules[0])
    else
      var rest := FirstMatch(target, rules[1..]);
      assert AnyMatches(rules[1..], target) ==> AnyMatches(rules, target) by {
        if k :| 0 <= k < |rules[1..]| && rules[1..][k].matches(target) {
          assert rules[k + 1].matches(target);
        }
      }
      assert AnyMatches(rules, target) ==> AnyMatches(rules[1..], target) by {
        if k :| 0 <= k < |rules| && rules[k].matches(target) {
          assert rules[1..][k - 1].matches(target);
        }
      }
      rest
  }

  /** A blocked rule decides; else the first level, in the order tried, that has a matching rule. */
  function Classified(command: string, rules: Rules): Assessment {
    match FirstMatch(Target(command), rules.blocked)
    case Some(r) => Assessment(Dangerous, false, true, r.reason, r.name)
    case None => ByLevel(Target(command), Levels(rules))
  }

  function Classifier(rules: Rules): string -> Assessment {
    command => Classified(command, rules)
  }

  /** The levels whose rules are tried after the blocked ones, in order. */
  function Levels(rules: Rules): seq<(Level, seq<Rule>)> {
    [(Safe, rules.safe), (Dangerous, rules.dangerous), (High, rules.high), (Medium, rules.medium)]
  }

  /** The assessment by the first of these levels with a matching rule. */
  function ByLevel(target: string, levels: seq<(Level, seq<Rule>)>): (a: Assessment)
    ensures !a.blocked && (a.requiresApproval <==> a.level != Safe)
  {
    if levels == [] then
      Assessment(Safe, false, false, "Default: all commands allowed in admin mode.", "default-admin-mode")
    else
      match FirstMatch(target, levels[0].1)
      case Some(r) => Assessment(levels[0].0, levels[0].0 != Safe, false, r.reason, r.name)
      case None => ByLevel(target, levels[1..])
  }

  /** `_classify_command` */
  method ClassifyCommand(command: string, rules: Rules) returns (a: Assessment)
    ensures a == Classified(command, rules)
    ensures forall words | HasWords(command, words) :: Assessed(a, Spaced(Seen(words)), rules)
  {
    forall words | HasWords(command, words)
      ensures Assessed(Classified(command, rules), Spaced(Seen(words)), rules)
    {
      ClassifiedMeaning(command, words, rules);
    }
    var target := Target(command);
    var blocked := MatchRule(target, rules.blocked);
    if blocked.Some? {
      return Assessment(Dangerous, false, true, blocked.value.reason, blocked.value.name);
    }
    a := ClassifyByLevel(target, Levels(rules));
  }

  method ClassifyByLevel(target: string, levels: seq<(Level, seq<Rule>)>) returns (a: Assessment)
    ensures a == ByLevel(target, levels)
  {
    var i := 0;
    while i < |levels|
      invariant 0 <= i <= |levels|
      invariant ByLevel(target, levels[i..]) == ByLevel(target, levels)
    {
      assert levels[i..][0] == levels[i] && levels[i..][1..] == levels[i + 1..];
      var matched := MatchRule(target, levels[i].1);
      if matched.Some? {
        return Assessment(levels[i].0, levels[i].0 != Safe, false, matched.value.reason, matched.value.name);
      }
      i := i + 1;
    }
    a := Assessment(Safe, false, false, "Default: all commands allowed in admin mode.", "default-admin-mode");
  }

  /** The rule is the first of the list that matches. */
  ghost predicate IsFirst(rules: seq<Rule>, target: string, r: Rule) {
    exists k | 0 <= k < |rules| ::
      rules[k] == r && r.matches(target) && forall j | 0 <= j < k :: !rules[j].matches(target)
  }

  /** The list decides: its first matching rule gives the level, the reason and the name. */
  ghost predicate DecidedBy(a: Assessment, rules: seq<Rule>, target: string, level: Level) {
    a.level == level && exists r | IsFirst(rules, target, r) :: a.reason == r.reason && a.rule == r.name
  }

  lemma {:induction false} FirstMatchIsFirst(target: string, rules: seq<Rule>)
    ensures FirstMatch(target, rules).Some? ==> IsFirst(rules, target, FirstMatch(target, rules).value)
  {
    if rules != [] && !rules[0].matches(target) {
      FirstMatchIsFirst(target, rules[1..]);
      if FirstMatch(target, rules[1..]).Some? {
        LaterFirst(rules, target, FirstMatch(target, rules[1..]).value);
      }
    }
  }

  lemma LaterFirst(rules: seq<Rule>, target: string, r: Rule)
    requires rules != [] && !rules[0].matches(target) && IsFirst(rules[1..], target, r)
    ensures IsFirst(rules, target, r)
  {
    var rest := rules[1..];
    var k :| 0 <= k < |rest| && rest[k] == r && r.matches(target) && forall j | 0 <= j < k :: !rest[j].matches(target);
    assert rules[k + 1] == r;
    forall j | 0 <= j < k + 1
      ensures !rules[j].matches(target)
    {
      assert j > 0 ==> rules[j] == rest[j - 1];
    }
  }

  lemma ByLevelFirst(target: string, level: Level, group: seq<Rule>, rest: seq<(Level, seq<Rule>)>)
    ensures var a := ByLevel(target, [(level, group)] + rest);
      if AnyMatches(group, target) then DecidedBy(a, group, target, level) else a == ByLevel(target, rest)
  {
    var levels := [(level, group)] + rest;
    assert levels[0] == (level, group) && levels[1..] == rest;
    FirstMatchIsFirst(target, group);
  }

  /** The assessment when no blocked rule matches: the safe rules are tried first, then the dangerous, the high and
      the medium ones, and what none matches is safe. */
  ghost predicate Levelled(a: Assessment, target: string, rules: Rules) {
    && !a.blocked && (a.requiresApproval <==> a.level != Safe)
    && if AnyMatches(rules.safe, target) then DecidedBy(a, rules.safe, target, Safe)
       else if AnyMatches(rules.dangerous, target) then DecidedBy(a, rules.dangerous, target, Dangerous)
       else if AnyMatches(rules.high, target) then DecidedBy(a, rules.high, target, High)
       else if AnyMatches(rules.medium, target) then DecidedBy(a, rules.medium, target, Medium)
       else a.level == Safe && a.rule == "default-admin-mode"
  }

  lemma ByLevelMeaning(target: string, rules: Rules)
    ensures Levelled(ByLevel(target, Levels(rules)), target, rules)
  {
    var medium := [(Medium, rules.medium)];
    var high := [(High, rules.high)] + medium;
    var dangerous := [(Dangerous, rules.dangerous)] + high;
    AfterSuffix(medium);
    ByLevelFirst(target, Medium, rules.medium, []);
    ByLevelFirst(target, High, rules.high, medium);
    ByLevelFirst(target, Dangerous, rules.dangerous, high);
    ByLevelFirst(target, Safe, rules.safe, dangerous);
    assert [(Safe, rules.safe)] + dangerous == Levels(rules);
  }

  /** What an assessment means, told on the text the rules are tried on: a blocked rule wins over all others, and
      else the levels decide in their order. */
  ghost predicate Assessed(a: Assessment, target: string, rules: Rules) {
    if AnyMatches(rules.blocked, target) then
      a.blocked && !a.requiresApproval && DecidedBy(a, rules.blocked, target, Dangerous)
    else Levelled(a, target, rules)
  }

  /** What a classification means, told on the command's words. */
  lemma ClassifiedMeaning(command: string, words: seq<string>, rules: Rules)
    requires HasWords(command, words)
    ensures Assessed(Classified(command, rules), Spaced(Seen(words)), rules)
  {
    var t := Target(command);
    RulesSee(command, words);
    FirstMatchIsFirst(t, rules.blocked);
    ByLevelMeaning(t, rules);
  }

  /** Spacing, or one `sudo` in front, changes nothing about a classification. */
  lemma SameAssessment(a: string, b: string, words: seq<string>, rules: Rules)
    requires HasWords(a, words) && (HasWords(b, words) || HasWords(b, ["sudo"] + words))
    requires HasWords(b, ["sudo"] + words) ==> words != [] && (words[0] == "sudo" ==> |words| == 1)
    ensures Classified(a, rules) == Classified(b, rules)
  {
    SameForTheRules(a, b, words);
  }

  // ---------- Rows ----------

  datatype Status = Waiting | WaitingApproval | Running | Blocked | Completed | Failed | TimedOut

  predicate Settled(s: Status) {
    s in {Completed, Failed, TimedOut}
  }

  datatype Call = Call(task: nat, command: string, directory: string, status: Status, level: Level,
    approvedByUser: bool, stdout: string, stderr: string, exitCode: Option<int>)

  datatype Review = Requested | Approved | Rejected

  datatype Approval = Approval(call: nat, review: Review)

  /** A process that was started. */
  datatype Start = Start(call: nat, command: string, directory: string)

  /** The tables; the decisions whose process is not started yet; the processes not yet reported back; and
      every process start so far. */
  datatype State = State(tasks: set<nat>, calls: seq<Call>, approvals: seq<Approval>, launching: multiset<nat>,
    live: multiset<nat>, starts: seq<Start>)

  /** `_resolve_working_directory`: a path, and what is wrong with it. */
  datatype Resolved = Resolved(path: string, error: Option<string>)

  datatype Request = Request(command: string, directory: string, task: nat)

  datatype Outcome = Exit(code: int, stdout: string, stderr: string)
    | RanOutOfTime(killed: Option<int>, stdout: string, stderr: string)
    | Lost

  /** One committed step of a session. */
  datatype Event =
    | Submit(request: Request, directory: Resolved)
    | Execute(call: nat, seen: Status, approved: bool, directory: Resolved)
    | Launch(call: nat, starts: bool)
    | Report(call: nat, outcome: Outcome)
    | Approve(approval: nat)
    | Reject(approval: nat)

  /** `_is_tool_call_approved` */
  predicate IsApproved(st: State, call: nat)
    requires call < |st.calls|
  {
    st.calls[call].approvedByUser || exists k | 0 <= k < |st.approvals| :: st.approvals[k] == Approval(call, Approved)
  }

  /** The statuses `execute_approved_tool_call` goes on from. */
  predicate MayExecute(s: Status) {
    s in {WaitingApproval, Waiting, Blocked}
  }

  function GuardedBy(directory: Resolved, a: Assessment): Assessment {
    if directory.error.None? then a
    else Assessment(Dangerous, false, true, directory.error.value, "working-directory-guard")
  }

  function Submitted(st: State, request: Request, directory: Resolved, classify: string -> Assessment): State {
    var a := GuardedBy(directory, classify(request.command));
    var id := |st.calls|;
    var call := Call(request.task, request.command, directory.path, Running, a.level, false, "", "", None);
    if request.task !in st.tasks then st
    else if a.blocked then st.(calls := st.calls + [call.(status := Blocked, stderr := a.reason)])
    else if a.requiresApproval then
      st.(calls := st.calls + [call.(status := WaitingApproval)], approvals := st.approvals + [Approval(id, Requested)])
    else st.(calls := st.calls + [call], launching := st.launching + multiset{id})
  }

  /** The first session of `execute_approved_tool_call`, from the status and the approval it read. */
  function Decided(st: State, id: nat, seen: Status, approved: bool, directory: Resolved, classify: string -> Assessment): State {
    if id >= |st.calls| || !MayExecute(seen) then st else
      var call := st.calls[id];
      var a := classify(call.command);
      if directory.error.Some? then
        st.(calls := st.calls[id := call.(status := Blocked, level := Dangerous, stderr := directory.error.value)])
      else if a.blocked then
        st.(calls := st.calls[id := call.(status := Blocked, level := a.level, stderr := a.reason)])
      else if a.requiresApproval && !approved then st.(calls := st.calls[id := call.(status := WaitingApproval)])
      else
        st.(calls := st.calls[id := call.(status := Running, level := a.level)], launching := st.launching + multiset{id})
  }

  function Ended(call: Call, outcome: Outcome): Call {
    match outcome
    case Exit(code, out, err) =>
      call.(status := if code == 0 then Completed else Failed, stdout := out, stderr := err, exitCode := Some(code))
    case RanOutOfTime(code, out, err) => call.(status := TimedOut, stdout := out, stderr := err, exitCode := code)
    case Lost => call
  }

  function After(st: State, e: Event, classify: string -> Assessment): State {
    match e
    case Submit(request, directory) => Submitted(st, request, directory, classify)
    case Execute(id, seen, approved, directory) => Decided(st, id, seen, approved, directory, classify)
    case Launch(id, starts) =>
      if id !in st.launching || id >= |st.calls| then st
      else if !starts then st.(launching := st.launching - multiset{id})
      else
        st.(launching := st.launching - multiset{id}, live := st.live + multiset{id},
            starts := st.starts + [Start(id, st.calls[id].command, st.calls[id].directory)])
    case Report(id, outcome) =>
      if id !in st.live || id >= |st.calls| then st
      else st.(calls := st.calls[id := Ended(st.calls[id], outcome)], live := st.live - multiset{id})
    case Approve(k) =>
      if k >= |st.approvals| then st else
        var id := st.approvals[k].call;
        st.(approvals := st.approvals[k := Approval(id, Approved)],
            calls := if id < |st.calls| then st.calls[id := st.calls[id].(approvedByUser := true)] else st.calls)
    case Reject(k) =>
      if k >= |st.approvals| then st else
        st.(approvals := st.approvals[k := Approval(st.approvals[k].call, Rejected)])
  }

  /** The state after the first `k` events. */
  function At(st: State, run: seq<Event>, k: nat, classify: string -> Assessment): State
    requires k <= |run|
  {
    if k == 0 then st else After(At(st, run, k - 1, classify), run[k - 1], classify)
  }

  function Initial(tasks: set<nat>): State {
    State(tasks, [], [], multiset{}, multiset{}, [])
  }

  // ---------- What the operations leave ----------

  /** A call of a process that ran: its end, its output and its exit code; nothing of it if the report was lost. */
  predicate Ran(was: Call, now: Call, outcome: Outcome) {
    && now.task == was.task && now.command == was.command && now.directory == was.directory
    && now.level == was.level && now.approvedByUser == was.approvedByUser
    && match outcome
       case Exit(code, out, err) =>
         (now.status == if code == 0 then Completed else Failed)
         && now.stdout == out && now.stderr == err && now.exitCode == Some(code)
       case RanOutOfTime(code, out, err) =>
         now.status == TimedOut && now.stdout == out && now.stderr == err && now.exitCode == code
       case Lost => now == was
  }

  /** The process of a running call: it is not started and the call stays as it is, or it is started and runs. */
  predicate Launched(was: seq<Start>, now: seq<Start>, id: nat, running: Call, call: Call, starting: bool, outcome: Outcome)
  {
    if starting then now == was + [Start(id, running.command, running.directory)] && Ran(running, call, outcome)
    else now == was && call == running
  }

  /** What a submission leaves: nothing without the task; else one more call, which is blocked with the reason, or
      waits for an approval that is requested with it, or runs. */
  ghost predicate Submission(was: State, now: State, request: Request, directory: Resolved, starting: bool,
      outcome: Outcome, classify: string -> Assessment)
  {
    var id, a := |was.calls|, classify(request.command);
    var call := Call(request.task, request.command, directory.path, Running, a.level, false, "", "", None);
    if request.task !in was.tasks then now.calls == was.calls && now.approvals == was.approvals && now.starts == was.starts
    else
      && |now.calls| == id + 1 && now.calls[..id] == was.calls
      && if directory.error.Some? then
           now.calls[id] == call.(status := Blocked, level := Dangerous, stderr := directory.error.value)
           && now.approvals == was.approvals && now.starts == was.starts
         else if a.blocked then
           now.calls[id] == call.(status := Blocked, stderr := a.reason)
           && now.approvals == was.approvals && now.starts == was.starts
         else if a.requiresApproval then
           now.calls[id] == call.(status := WaitingApproval)
           && now.approvals == was.approvals + [Approval(id, Requested)] && now.starts == was.starts
         else
           Launched(was.starts, now.starts, id, call, now.calls[id], starting, outcome) && now.approvals == was.approvals
  }

  /** What an attempt to run a call leaves: nothing if it is not waiting, pending or blocked; else it is blocked with
      the reason, waits for an approval it does not have, or runs. */
  ghost predicate Execution(was: State, now: State, id: nat, directory: Resolved, starting: bool, outcome: Outcome,
      classify: string -> Assessment)
    requires id < |was.calls|
  {
    var call, a := was.calls[id], classify(was.calls[id].command);
    && now.approvals == was.approvals && |now.calls| == |was.calls|
    && (forall k | 0 <= k < |was.calls| && k != id :: now.calls[k] == was.calls[k])
    && if call.status !in {WaitingApproval, Waiting, Blocked} then now.calls[id] == call && now.starts == was.starts
       else if directory.error.Some? then
         now.calls[id] == call.(status := Blocked, level := Dangerous, stderr := directory.error.value)
         && now.starts == was.starts
       else if a.blocked then
         now.calls[id] == call.(status := Blocked, level := a.level, stderr := a.reason) && now.starts == was.starts
       else if a.requiresApproval && !call.approvedByUser
               && (forall k | 0 <= k < |was.approvals| :: was.approvals[k] != Approval(id, Approved)) then
         now.calls[id] == call.(status := WaitingApproval) && now.starts == was.starts
       else
         Launched(was.starts, now.starts, id, call.(status := Running, level := a.level), now.calls[id], starting, outcome)
  }

  lemma ProcessRuns(st: State, id: nat, starting: bool, outcome: Outcome, classify: string -> Assessment, now: State)
    requires id < |st.calls| && st.live == multiset{} && now == RunProcess(st, id, starting, outcome, classify)
    ensures now.approvals == st.approvals && |now.calls| == |st.calls|
    ensures forall k | 0 <= k < |st.calls| && k != id :: now.calls[k] == st.calls[k]
    ensures Launched(st.starts, now.starts, id, st.calls[id], now.calls[id], starting, outcome)
  {
  }

  lemma SubmitLeaves(st: State, request: Request, directory: Resolved, starting: bool, outcome: Outcome,
      classify: string -> Assessment)
    requires st.launching == multiset{} && st.live == multiset{}
    ensures Submission(st, SubmitWhole(st, request, directory, starting, outcome, classify), request, directory, starting,
                       outcome, classify)
  {
    var s := Submitted(st, request, directory, classify);
    assert multiset{} + multiset{|st.calls|} == multiset{|st.calls|};
    if s.launching != multiset{} {
      var now := RunProcess(s, |st.calls|, starting, outcome, classify);
      ProcessRuns(s, |st.calls|, starting, outcome, classify, now);
      FrontStays(st.calls, s.calls, now.calls);
    }
  }

  lemma FrontStays(was: seq<Call>, more: seq<Call>, now: seq<Call>)
    requires |more| == |was| + 1 == |now| && more[..|was|] == was
    requires forall k | 0 <= k < |more| && k != |was| :: now[k] == more[k]
    ensures now[..|was|] == was
  {
    assert forall k | 0 <= k < |was| :: now[k] == more[..|was|][k];
  }

  lemma ExecuteLeaves(st: State, id: nat, directory: Resolved, starting: bool, outcome: Outcome,
      classify: string -> Assessment)
    requires id < |st.calls| && st.launching == multiset{} && st.live == multiset{}
    ensures Execution(st, ExecuteWhole(st, id, directory, starting, outcome, classify), id, directory, starting, outcome,
                      classify)
  {
    var s := Decided(st, id, st.calls[id].status, IsApproved(st, id), directory, classify);
    assert multiset{} + multiset{id} == multiset{id};
    if s.launching != multiset{} {
      ProcessRuns(s, id, starting, outcome, classify, RunProcess(s, id, starting, outcome, classify));
    }
  }

  // ---------- The tool ----------

  /** `classify` is `_classify_command`: `Classifier` of the rule lists. */
  class ShellCommandTool {
    const classify: string -> Assessment
    var tasks: set<nat>
    var calls: seq<Call>
    var approvals: seq<Approval>
    var starts: seq<Start>

    constructor (classify: string -> Assessment, tasks: set<nat>)
      ensures this.classify == classify && Tables() == Initial(tasks)
    {
      this.classify := classify;
      this.tasks := tasks;
      calls, approvals, starts := [], [], [];
    }

    /** The tables between operations, when no decision is waiting for its process. */
    function Tables(): State
      reads this
    {
      State(tasks, calls, approvals, multiset{}, multiset{}, starts)
    }

    /** `_execute_tool_call`, its process and what becomes of it given */
    method ExecuteToolCall(id: nat, starting: bool, outcome: Outcome)
      requires id < |calls|
      modifies this`calls, this`starts
      ensures Tables() == RunProcess(old(Tables()), id, starting, outcome, classify)
      ensures |calls| == |old(calls)| && forall k | 0 <= k < |calls| && k != id :: calls[k] == old(calls)[k]
      ensures Launched(old(starts), starts, id, old(calls)[id], calls[id], starting, outcome)
    {
      ProcessRuns(Tables(), id, starting, outcome, classify, RunProcess(Tables(), id, starting, outcome, classify));
      if !starting {
        return;
      }
      starts := starts + [Start(id, calls[id].command, calls[id].directory)];
      var call := calls[id];
      match outcome {
        case Exit(code, out, err) =>
          call := call.(status := if code == 0 then Completed else Failed, stdout := out, stderr := err,
                        exitCode := Some(code));
        case RanOutOfTime(code, out, err) =>
          call := call.(status := TimedOut, stdout := out, stderr := err, exitCode := code);
        case Lost =>
      }
      calls := calls[id := call];
    }

    /** `submit_command`; nothing is returned when the task does not exist. */
    method SubmitCommand(request: Request, directory: Resolved, starting: bool, outcome: Outcome)
      returns (id: Option<nat>)
      modifies this`calls, this`approvals, this`starts
      ensures Tables() == SubmitWhole(old(Tables()), request, directory, starting, outcome, classify)
      ensures id == if request.task in tasks then Some(|old(calls)|) else None
      ensures Submission(old(Tables()), Tables(), request, directory, starting, outcome, classify)
    {
      SubmitLeaves(Tables(), request, directory, starting, outcome, classify);
      if request.task !in tasks {
        return None;
      }
      var a := classify(request.command);
      if directory.error.Some? {
        a := Assessment(Dangerous, false, true, directory.error.value, "working-directory-guard");
      }
      var n := |calls|;
      id := Some(n);
      var call := Call(request.task, request.command, directory.path, if a.requiresApproval then WaitingApproval else Waiting,
        a.level, false, "", "", None);
      calls := calls + [call];
      if a.blocked {
        calls := calls[n := calls[n].(status := Blocked, stderr := a.reason)];
        return;
      }
      if a.requiresApproval {
        approvals := approvals + [Approval(n, Requested)];
        return;
      }
      calls := calls[n := calls[n].(status := Running)];
      assert Submitted(old(Tables()), request, directory, classify) ==
        Tables().(launching := multiset{n}) by {
        assert multiset{} + multiset{n} == multiset{n};
      }
      ExecuteToolCall(n, starting, outcome);
    }

    /** `execute_approved_tool_call`; false for the exception when there is no such call. */
    method ExecuteApprovedToolCall(id: nat, directory: Resolved, starting: bool, outcome: Outcome) returns (found: bool)
      modifies this`calls, this`starts
      ensures found == (id < |old(calls)|)
      ensures Tables() == if found then ExecuteWhole(old(Tables()), id, directory, starting, outcome, classify) else old(Tables())
      ensures found ==> Execution(old(Tables()), Tables(), id, directory, starting, outcome, classify)
    {
      if id < |calls| {
        ExecuteLeaves(Tables(), id, directory, starting, outcome, classify);
      }
      if id >= |calls| {
        return false;
      }
      found := true;
      if !MayExecute(calls[id].status) {
        return;
      }
      var a := classify(calls[id].command);
      if directory.error.Some? {
        calls := calls[id := calls[id].(status := Blocked, level := Dangerous, stderr := directory.error.value)];
        return;
      }
      if a.blocked {
        calls := calls[id := calls[id].(status := Blocked, level := a.level, stderr := a.reason)];
        return;
      }
      if a.requiresApproval {
        var approved := IsApproved(Tables(), id);
        if !approved {
          calls := calls[id := calls[id].(status := WaitingApproval)];
          return;
        }
      }
      calls := calls[id := calls[id].(status := Running, level := a.level)];
      assert multiset{} + multiset{id} == multiset{id};
      ExecuteToolCall(id, starting, outcome);
    }

    /** A reviewer approves: the approval and, with it, its tool call. */
    method ApproveCommand(k: nat)
      modifies this`calls, this`approvals
      ensures Tables() == After(old(Tables()), Approve(k), classify)
    {
      if k < |approvals| {
        var id := approvals[k].call;
        approvals := approvals[k := Approval(id, Approved)];
        if id < |calls| {
          calls := calls[id := calls[id].(approvedByUser := true)];
        }
      }
    }

    /** A reviewer rejects: the approval alone. */
    method RejectCommand(k: nat)
      modifies this`approvals
      ensures Tables() == After(old(Tables()), Reject(k), classify)
    {
      if k < |approvals| {
        approvals := approvals[k := Approval(approvals[k].call, Rejected)];
      }
    }
  }

  /** Starting the process of a decided call, and its report. */
  function RunProcess(st: State, id: nat, starting: bool, outcome: Outcome, classify: string -> Assessment): State {
    var decided := st.(launching := multiset{id});
    After(After(decided, Launch(id, starting), classify), Report(id, outcome), classify)
  }

  /** The steps of `submit_command` with nothing in between. */
  function SubmitWhole(st: State, request: Request, directory: Resolved, starting: bool, outcome: Outcome,
      classify: string -> Assessment): State
  {
    var s := Submitted(st, request, directory, classify);
    if s.launching == multiset{} then s else RunProcess(s, |st.calls|, starting, outcome, classify)
  }

  /** The steps of `execute_approved_tool_call` with nothing in between. */
  function ExecuteWhole(st: State, id: nat, directory: Resolved, starting: bool, outcome: Outcome,
      classify: string -> Assessment): State
    requires id < |st.calls|
  {
    var s := Decided(st, id, st.calls[id].status, IsApproved(st, id), directory, classify);
    if s.launching == multiset{} then s else RunProcess(s, id, starting, outcome, classify)
  }
}
