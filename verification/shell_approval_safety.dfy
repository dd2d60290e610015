/** What every run of submissions, executions and reviews keeps: a process starts at most once, only after a
    decision that its command is allowed, and its result is final (tools/shell_command.py). */
module ShellApprovalSafety {
  import opened Text
  import opened ShellWords
  import opened ShellApproval

  /** What an execution goes by: the status and the approval it read. */
  predicate SeenAt(st: State, e: Event) {
    e.Execute? && e.call < |st.calls| && e.seen == st.calls[e.call].status
  }

  predicate ApprovalAt(st: State, e: Event) {
    e.Execute? && e.call < |st.calls| && e.approved == IsApproved(st, e.call)
  }

  /** An execution that commits now read both before, the status first; other sessions may have committed since. */
  ghost predicate Read(states: seq<State>, e: Event, now: nat)
    requires now < |states|
  {
    e.Execute? && e.call < |states[now].calls| ==>
      exists i, j | 0 <= i <= j <= now :: SeenAt(states[i], e) && ApprovalAt(states[j], e)
  }

  /** A run of overlapping sessions from empty tables: the states between the commits. */
  ghost predicate IsRun(states: seq<State>, run: seq<Event>, tasks: set<nat>, classify: string -> Assessment) {
    && |states| == |run| + 1
    && states[0] == Initial(tasks)
    && forall k | 0 <= k < |run| :: Read(states, run[k], k) && states[k + 1] == After(states[k], run[k], classify)
  }

  /** When an execution that may go on commits, the row still has a status from which it may. */
  predicate StillMay(st: State, e: Event) {
    e.Execute? && e.call < |st.calls| && MayExecute(e.seen) ==> MayExecute(st.calls[e.call].status)
  }

  /** No execution overtakes another up to the `k`th step. */
  ghost predicate Kept(states: seq<State>, run: seq<Event>, k: nat)
    requires k <= |run| <= |states|
  {
    forall j | 0 <= j < k :: StillMay(states[j], run[j])
  }

  function StartsOf(starts: seq<Start>, id: nat): nat {
    if starts == [] then 0 else StartsOf(starts[..|starts| - 1], id) + if starts[|starts| - 1].call == id then 1 else 0
  }

  lemma StartsSnoc(starts: seq<Start>, s: Start, id: nat)
    ensures StartsOf(starts + [s], id) == StartsOf(starts, id) + if s.call == id then 1 else 0
  {
    assert (starts + [s])[..|starts|] == starts;
  }

  // ---------- The invariant ----------

  /** What holds of one call: it is decided or started at most once, then it is running or settled; it has a
      result only after its process was started and reported. */
  ghost predicate CallInv(st: State, id: nat) {
    if id >= |st.calls| then st.launching[id] == 0 && st.live[id] == 0 && StartsOf(st.starts, id) == 0
    else
      && st.launching[id] + StartsOf(st.starts, id) <= 1
      && st.live[id] <= StartsOf(st.starts, id)
      && (st.launching[id] + StartsOf(st.starts, id) == 1 ==> !MayExecute(st.calls[id].status))
      && (st.launching[id] + st.live[id] > 0 ==> st.calls[id].status == Running)
      && (Settled(st.calls[id].status) ==> StartsOf(st.starts, id) == 1 && st.live[id] == 0)
  }

  /** An approval is of a call, and a granted one has marked it. */
  ghost predicate ApprovalInv(st: State, k: nat) {
    k < |st.approvals| ==>
      && st.approvals[k].call < |st.calls|
      && (st.approvals[k].review == Approved ==> st.calls[st.approvals[k].call].approvedByUser)
  }

  // ---------- One step ----------

  /** The row without the approval mark. */
  function Unmarked(call: Call): Call {
    call.(approvedByUser := false)
  }

  /** At this step it was decided to run the call: its directory was allowed, its command not blocked, and it
      was safe or approved at that moment. */
  ghost predicate Clears(st: State, e: Event, id: nat, classify: string -> Assessment) {
    match e
    case Submit(request, directory) =>
      && id == |st.calls| && request.task in st.tasks && directory.error.None?
      && !classify(request.command).blocked && !classify(request.command).requiresApproval
    case Execute(call, _, _, directory) =>
      && id == call < |st.calls| && directory.error.None?
      && !classify(st.calls[id].command).blocked
      && (classify(st.calls[id].command).requiresApproval ==> IsApproved(st, id))
    case _ => false
  }

  /** At this step a reviewer approved the call. */
  predicate Approves(st: State, e: Event, id: nat) {
    e.Approve? && e.approval < |st.approvals| && st.approvals[e.approval].call == id
  }

  /** What a step does to one call: its command stays, and only an approval marks it. */
  ghost predicate CallStep(st: State, e: Event, now: State, id: nat) {
    && (id < |st.calls| ==>
          && id < |now.calls|
          && now.calls[id].command == st.calls[id].command
          && (now.calls[id].approvedByUser <==> st.calls[id].approvedByUser || Approves(st, e, id)))
    && (|st.calls| <= id < |now.calls| ==>
          !now.calls[id].approvedByUser && e.Submit? && now.calls[id].command == e.request.command)
  }

  /** Only a step that clears a call readies it. */
  ghost predicate ReadyStep(st: State, e: Event, now: State, id: nat, classify: string -> Assessment) {
    now.launching[id] > st.launching[id] ==> Clears(st, e, id, classify)
  }

  /** A result stays. */
  ghost predicate ResultStep(st: State, now: State, id: nat) {
    id < |st.calls| && Settled(st.calls[id].status) ==>
      id < |now.calls| && Unmarked(now.calls[id]) == Unmarked(st.calls[id])
  }

  /** A process starts only when a launch finds its call ready. */
  ghost predicate StartStep(st: State, e: Event, now: State) {
    now.starts != st.starts ==> e.Launch? && e.starts && st.launching[e.call] > 0 && e.call < |st.calls|
  }

  lemma SubmitStep(st: State, e: Event, now: State, id: nat, classify: string -> Assessment)
    requires e.Submit? && now == Submitted(st, e.request, e.directory, classify)
    ensures CallStep(st, e, now, id) && ReadyStep(st, e, now, id, classify)
    ensures CallInv(st, id) ==> CallInv(now, id) && ResultStep(st, now, id)
  {
  }

  /** An approval read as granted is granted. */
  predicate Sincere(st: State, e: Event) {
    e.Execute? && e.call < |st.calls| && e.approved ==> IsApproved(st, e.call)
  }

  lemma ExecuteStep(st: State, e: Event, now: State, id: nat, classify: string -> Assessment)
    requires e.Execute? && now == Decided(st, e.call, e.seen, e.approved, e.directory, classify)
    ensures CallStep(st, e, now, id) && (Sincere(st, e) ==> ReadyStep(st, e, now, id, classify))
    ensures CallInv(st, id) && StillMay(st, e) ==> CallInv(now, id) && ResultStep(st, now, id)
  {
  }

  lemma LaunchStep(st: State, e: Event, now: State, id: nat, classify: string -> Assessment)
    requires e.Launch? && now == After(st, e, classify)
    ensures CallStep(st, e, now, id) && ReadyStep(st, e, now, id, classify)
    ensures CallInv(st, id) ==> CallInv(now, id) && ResultStep(st, now, id)
  {
    if e.call < |st.calls| {
      StartsSnoc(st.starts, Start(e.call, st.calls[e.call].command, st.calls[e.call].directory), id);
    }
  }

  lemma ReportStep(st: State, e: Event, now: State, id: nat, classify: string -> Assessment)
    requires e.Report? && now == After(st, e, classify)
    ensures CallStep(st, e, now, id) && ReadyStep(st, e, now, id, classify)
    ensures CallInv(st, id) ==> CallInv(now, id) && ResultStep(st, now, id)
  {
  }

  lemma ReviewStep(st: State, e: Event, now: State, id: nat, classify: string -> Assessment)
    requires (e.Approve? || e.Reject?) && now == After(st, e, classify)
    ensures CallStep(st, e, now, id) && ReadyStep(st, e, now, id, classify)
    ensures CallInv(st, id) ==> CallInv(now, id) && ResultStep(st, now, id)
  {
  }

  /** Every step, by whatever session, keeps commands and marks; it readies only what it clears; and if the row
      may still be executed the call stays decided and started at most once, and its result stays. */
  lemma EveryCall(st: State, e: Event, now: State, id: nat, classify: string -> Assessment)
    requires now == After(st, e, classify)
    ensures CallStep(st, e, now, id) && (Sincere(st, e) ==> ReadyStep(st, e, now, id, classify))
    ensures CallInv(st, id) && StillMay(st, e) ==> CallInv(now, id) && ResultStep(st, now, id)
  {
    match e
    case Submit(_, _) => SubmitStep(st, e, now, id, classify);
    case Execute(_, _, _, _) => ExecuteStep(st, e, now, id, classify);
    case Launch(_, _) => LaunchStep(st, e, now, id, classify);
    case Report(_, _) => ReportStep(st, e, now, id, classify);
    case Approve(_) => ReviewStep(st, e, now, id, classify);
    case Reject(_) => ReviewStep(st, e, now, id, classify);
  }

  lemma SubmitApproval(st: State, e: Event, now: State, k: nat, classify: string -> Assessment)
    requires e.Submit? && ApprovalInv(st, k) && now == Submitted(st, e.request, e.directory, classify)
    ensures ApprovalInv(now, k)
  {
  }

  lemma ExecuteApproval(st: State, e: Event, now: State, k: nat, classify: string -> Assessment)
    requires e.Execute? && ApprovalInv(st, k)
    requires now == Decided(st, e.call, e.seen, e.approved, e.directory, classify)
    ensures ApprovalInv(now, k)
  {
  }

  lemma ProcessApproval(st: State, e: Event, now: State, k: nat, classify: string -> Assessment)
    requires (e.Launch? || e.Report?) && ApprovalInv(st, k) && now == After(st, e, classify)
    ensures ApprovalInv(now, k)
  {
  }

  lemma ReviewApproval(st: State, e: Event, now: State, k: nat, classify: string -> Assessment)
    requires (e.Approve? || e.Reject?) && ApprovalInv(st, k) && ApprovalInv(st, e.approval)
    requires now == After(st, e, classify)
    ensures ApprovalInv(now, k)
  {
  }

  lemma EveryApproval(st: State, e: Event, now: State, k: nat, classify: string -> Assessment)
    requires ApprovalInv(st, k) && now == After(st, e, classify)
    requires e.Approve? || e.Reject? ==> ApprovalInv(st, e.approval)
    ensures ApprovalInv(now, k)
  {
    match e
    case Submit(_, _) => SubmitApproval(st, e, now, k, classify);
    case Execute(_, _, _, _) => ExecuteApproval(st, e, now, k, classify);
    case Launch(_, _) => ProcessApproval(st, e, now, k, classify);
    case Report(_, _) => ProcessApproval(st, e, now, k, classify);
    case Approve(_) => ReviewApproval(st, e, now, k, classify);
    case Reject(_) => ReviewApproval(st, e, now, k, classify);
  }

  lemma EveryStart(st: State, e: Event, now: State, classify: string -> Assessment)
    requires now == After(st, e, classify)
    ensures StartStep(st, e, now)
  {
  }

  ghost predicate Inv(st: State) {
    forall k: nat :: ApprovalInv(st, k)
  }

  lemma {:induction false} RunKeepsApprovals(states: seq<State>, run: seq<Event>, k: nat, tasks: set<nat>,
      classify: string -> Assessment)
    requires IsRun(states, run, tasks, classify) && k < |states|
    ensures Inv(states[k])
  {
    if k > 0 {
      RunKeepsApprovals(states, run, k - 1, tasks, classify);
      forall i: nat
        ensures ApprovalInv(states[k], i)
      {
        EveryApproval(states[k - 1], run[k - 1], states[k], i, classify);
      }
    }
  }

  /** An approval, once there, stays. */
  lemma {:induction false} ApprovalStays(states: seq<State>, run: seq<Event>, j: nat, k: nat, id: nat, tasks: set<nat>,
      classify: string -> Assessment)
    requires IsRun(states, run, tasks, classify) && j <= k < |states| && id < |states[j].calls|
    requires IsApproved(states[j], id)
    ensures id < |states[k].calls| && states[k].calls[id].approvedByUser
    decreases k
  {
    if j < k {
      ApprovalStays(states, run, j, k - 1, id, tasks, classify);
      EveryCall(states[k - 1], run[k - 1], states[k], id, classify);
    } else {
      RunKeepsApprovals(states, run, k, tasks, classify);
      MarkedWhenApproved(states[k], id);
    }
  }

  lemma MarkedWhenApproved(st: State, id: nat)
    requires Inv(st) && id < |st.calls|
    ensures IsApproved(st, id) <==> st.calls[id].approvedByUser
  {
    forall i: nat | i < |st.approvals| && st.approvals[i] == Approval(id, Approved)
      ensures st.calls[id].approvedByUser
    {
      assert ApprovalInv(st, i);
    }
  }

  lemma EveryExecutionIsSincere(states: seq<State>, run: seq<Event>, k: nat, tasks: set<nat>,
      classify: string -> Assessment)
    requires IsRun(states, run, tasks, classify) && k < |run|
    ensures Sincere(states[k], run[k])
  {
    var e := run[k];
    if e.Execute? && e.call < |states[k].calls| && e.approved {
      assert Read(states, e, k);
      var i, j :| 0 <= i <= j <= k && SeenAt(states[i], e) && ApprovalAt(states[j], e);
      assert IsApproved(states[j], e.call);
      ApprovalStays(states, run, j, k, e.call, tasks, classify);
    }
  }

  /** The step relations at the `k`th step of a run. */
  ghost predicate StepAt(states: seq<State>, run: seq<Event>, k: nat, id: nat, classify: string -> Assessment)
    requires k < |run| && |states| == |run| + 1
  {
    && CallStep(states[k], run[k], states[k + 1], id)
    && ReadyStep(states[k], run[k], states[k + 1], id, classify)
    && StartStep(states[k], run[k], states[k + 1])
  }

  /** Every step of every run, however its sessions overlap. */
  lemma StepIsSound(states: seq<State>, run: seq<Event>, k: nat, id: nat, tasks: set<nat>,
      classify: string -> Assessment)
    requires IsRun(states, run, tasks, classify) && k < |run|
    ensures StepAt(states, run, k, id, classify)
  {
    EveryStart(states[k], run[k], states[k + 1], classify);
    EveryExecutionIsSincere(states, run, k, tasks, classify);
    EveryCall(states[k], run[k], states[k + 1], id, classify);
  }

  // ---------- A process starts once, and its result is final ----------

  lemma {:induction false} KeptInv(states: seq<State>, run: seq<Event>, k: nat, id: nat, tasks: set<nat>,
      classify: string -> Assessment)
    requires IsRun(states, run, tasks, classify) && k <= |run| && Kept(states, run, k)
    ensures CallInv(states[k], id)
  {
    if k > 0 {
      KeptInv(states, run, k - 1, id, tasks, classify);
      EveryCall(states[k - 1], run[k - 1], states[k], id, classify);
    }
  }

  /** While no execution overtakes another, a call's process was started at most once, not at all while the call
      is blocked or waiting, and exactly once when it has a result. */
  lemma StartsAtMostOnce(states: seq<State>, run: seq<Event>, k: nat, id: nat, tasks: set<nat>,
      classify: string -> Assessment)
    requires IsRun(states, run, tasks, classify) && k <= |run| && Kept(states, run, k)
    ensures StartsOf(states[k].starts, id) <= 1
    ensures id < |states[k].calls| && MayExecute(states[k].calls[id].status) ==> StartsOf(states[k].starts, id) == 0
    ensures id < |states[k].calls| && Settled(states[k].calls[id].status) ==> StartsOf(states[k].starts, id) == 1
  {
    KeptInv(states, run, k, id, tasks, classify);
  }

  /** Over these steps the call's result stays. */
  ghost predicate ResultsKept(states: seq<State>, k: nat, id: nat)
    requires k < |states|
  {
    forall i | 0 <= i < k :: ResultStep(states[i], states[i + 1], id)
  }

  lemma {:induction false} ResultStays(states: seq<State>, j: nat, k: nat, id: nat)
    requires j <= k < |states| && ResultsKept(states, k, id)
    requires id < |states[j].calls| && Settled(states[j].calls[id].status)
    ensures id < |states[k].calls| && Unmarked(states[k].calls[id]) == Unmarked(states[j].calls[id])
    decreases k
  {
    if j < k {
      ResultStays(states, j, k - 1, id);
      assert ResultStep(states[k - 1], states[k], id);
    }
  }

  lemma KeptResult(states: seq<State>, run: seq<Event>, k: nat, id: nat, tasks: set<nat>, classify: string -> Assessment)
    requires IsRun(states, run, tasks, classify) && k < |run| && Kept(states, run, k + 1)
    ensures ResultStep(states[k], states[k + 1], id)
  {
    KeptInv(states, run, k, id, tasks, classify);
    EveryCall(states[k], run[k], states[k + 1], id, classify);
  }

  /** A completed, failed or timed-out call keeps its row, the approval mark apart, for as long as no execution
      overtakes another. */
  lemma ResultsAreFinal(states: seq<State>, run: seq<Event>, j: nat, k: nat, id: nat, tasks: set<nat>,
      classify: string -> Assessment)
    requires IsRun(states, run, tasks, classify) && j <= k <= |run| && Kept(states, run, k)
    requires id < |states[j].calls| && Settled(states[j].calls[id].status)
    ensures id < |states[k].calls| && Unmarked(states[k].calls[id]) == Unmarked(states[j].calls[id])
  {
    forall i | 0 <= i < k
      ensures ResultStep(states[i], states[i + 1], id)
    {
      KeptResult(states, run, i, id, tasks, classify);
    }
    ResultStays(states, j, k, id);
  }

  /** What the steps of every run do to a call. */
  ghost predicate CallSteps(states: seq<State>, run: seq<Event>, id: nat) {
    && |states| == |run| + 1
    && |states[0].calls| == 0
    && (forall k | 0 <= k < |states| :: Inv(states[k]))
    && (forall k | 0 <= k < |run| :: CallStep(states[k], run[k], states[k + 1], id))
  }

  lemma RunSteps(states: seq<State>, run: seq<Event>, id: nat, tasks: set<nat>, classify: string -> Assessment)
    requires IsRun(states, run, tasks, classify)
    ensures CallSteps(states, run, id)
  {
    forall k | 0 <= k < |states|
      ensures Inv(states[k])
    {
      RunKeepsApprovals(states, run, k, tasks, classify);
    }
    forall k | 0 <= k < |run|
      ensures CallStep(states[k], run[k], states[k + 1], id)
    {
      EveryCall(states[k], run[k], states[k + 1], id, classify);
    }
  }

  lemma {:induction false} CallStays(states: seq<State>, run: seq<Event>, j: nat, k: nat, id: nat)
    requires CallSteps(states, run, id) && j <= k < |states| && id < |states[j].calls|
    ensures id < |states[k].calls|
    ensures states[k].calls[id].command == states[j].calls[id].command
    decreases k
  {
    if j < k {
      CallStays(states, run, j, k - 1, id);
      assert CallStep(states[k - 1], run[k - 1], states[k], id);
    }
  }

  // ---------- Exactly when a process can start twice ----------

  /** How often the call was decided to run: its starts, and the decisions whose process is not started yet. */
  function Exposure(st: State, id: nat): nat {
    st.launching[id] + StartsOf(st.starts, id)
  }

  /** An execution that passes its guards on what it read. */
  predicate Readies(st: State, e: Event, id: nat, classify: string -> Assessment) {
    && e.Execute? && e.call == id < |st.calls| && MayExecute(e.seen) && e.directory.error.None?
    && !classify(st.calls[id].command).blocked && (classify(st.calls[id].command).requiresApproval ==> e.approved)
  }

  /** What a step does to the exposure of a call. */
  ghost predicate Exposes(st: State, e: Event, now: State, id: nat, classify: string -> Assessment) {
    && (id >= |now.calls| ==> Exposure(now, id) == 0)
    && (Readies(st, e, id, classify) ==> Exposure(now, id) == Exposure(st, id) + 1)
    && (!Readies(st, e, id, classify) && Exposure(now, id) > Exposure(st, id) ==> Exposure(now, id) == 1)
  }

  lemma SubmitExposes(st: State, e: Event, now: State, id: nat, classify: string -> Assessment)
    requires e.Submit? && now == Submitted(st, e.request, e.directory, classify)
    requires id >= |st.calls| ==> Exposure(st, id) == 0
    ensures Exposes(st, e, now, id, classify)
  {
  }

  lemma DecisionExposes(st: State, e: Event, now: State, id: nat, classify: string -> Assessment)
    requires e.Execute? && now == Decided(st, e.call, e.seen, e.approved, e.directory, classify)
    requires id >= |st.calls| ==> Exposure(st, id) == 0
    ensures Exposes(st, e, now, id, classify)
  {
  }

  lemma LaunchExposes(st: State, e: Event, now: State, id: nat, classify: string -> Assessment)
    requires e.Launch? && now == After(st, e, classify)
    ensures now.calls == st.calls && Exposure(now, id) <= Exposure(st, id)
    ensures e != Launch(id, false) ==> Exposure(now, id) == Exposure(st, id)
  {
    if e.call in st.launching && e.call < |st.calls| && e.starts {
      var start := Start(e.call, st.calls[e.call].command, st.calls[e.call].directory);
      StartsSnoc(st.starts, start, id);
      assert StartsOf(now.starts, id) == StartsOf(st.starts, id) + if e.call == id then 1 else 0;
    } else {
      assert now.starts == st.starts;
    }
  }

  lemma OthersExposeNothing(st: State, e: Event, now: State, id: nat, classify: string -> Assessment)
    requires (e.Report? || e.Approve? || e.Reject?) && now == After(st, e, classify)
    ensures |now.calls| == |st.calls| && Exposure(now, id) == Exposure(st, id)
  {
  }

  lemma ExposureStep(st: State, e: Event, now: State, id: nat, classify: string -> Assessment)
    requires now == After(st, e, classify) && (id >= |st.calls| ==> Exposure(st, id) == 0)
    ensures Exposes(st, e, now, id, classify)
  {
    match e
    case Submit(_, _) => SubmitExposes(st, e, now, id, classify);
    case Execute(_, _, _, _) => DecisionExposes(st, e, now, id, classify);
    case Launch(_, _) => LaunchExposes(st, e, now, id, classify);
    case Report(_, _) => OthersExposeNothing(st, e, now, id, classify);
    case Approve(_) => OthersExposeNothing(st, e, now, id, classify);
    case Reject(_) => OthersExposeNothing(st, e, now, id, classify);
  }

  lemma {:induction false} NothingAhead(states: seq<State>, run: seq<Event>, k: nat, id: nat, tasks: set<nat>,
      classify: string -> Assessment)
    requires IsRun(states, run, tasks, classify) && k < |states|
    ensures id >= |states[k].calls| ==> Exposure(states[k], id) == 0
  {
    if k > 0 {
      NothingAhead(states, run, k - 1, id, tasks, classify);
      ExposureStep(states[k - 1], run[k - 1], states[k], id, classify);
    }
  }

  /** In a run of overlapping sessions a call is decided at most once, at every moment, if and only if each
      execution that passes its guards commits before the call was decided. */
  lemma DecidedOnceExactly(states: seq<State>, run: seq<Event>, id: nat, tasks: set<nat>,
      classify: string -> Assessment)
    requires IsRun(states, run, tasks, classify)
    ensures (forall k | 0 <= k < |states| :: Exposure(states[k], id) <= 1) <==>
            (forall k | 0 <= k < |run| && Readies(states[k], run[k], id, classify) :: Exposure(states[k], id) == 0)
  {
    if forall k | 0 <= k < |states| :: Exposure(states[k], id) <= 1 {
      forall k | 0 <= k < |run| && Readies(states[k], run[k], id, classify)
        ensures Exposure(states[k], id) == 0
      {
        NothingAhead(states, run, k, id, tasks, classify);
        ExposureStep(states[k], run[k], states[k + 1], id, classify);
        assert Exposure(states[k + 1], id) <= 1;
      }
    }
    if forall k | 0 <= k < |run| && Readies(states[k], run[k], id, classify) :: Exposure(states[k], id) == 0 {
      forall k | 0 <= k < |states|
        ensures Exposure(states[k], id) <= 1
      {
        StaysDecidedOnce(states, run, k, id, tasks, classify);
      }
    }
  }

  lemma {:induction false} StaysDecidedOnce(states: seq<State>, run: seq<Event>, k: nat, id: nat, tasks: set<nat>,
      classify: string -> Assessment)
    requires IsRun(states, run, tasks, classify) && k < |states|
    requires forall j | 0 <= j < |run| && Readies(states[j], run[j], id, classify) :: Exposure(states[j], id) == 0
    ensures Exposure(states[k], id) <= 1
  {
    if k > 0 {
      StaysDecidedOnce(states, run, k - 1, id, tasks, classify);
      NothingAhead(states, run, k - 1, id, tasks, classify);
      ExposureStep(states[k - 1], run[k - 1], states[k], id, classify);
    }
  }

  lemma LaunchStarts(st: State, id: nat, now: State, classify: string -> Assessment)
    requires id < |st.calls| && st.launching[id] > 0 && now == After(st, Launch(id, true), classify)
    ensures |now.calls| == |st.calls| && now.launching[id] == st.launching[id] - 1
    ensures StartsOf(now.starts, id) == StartsOf(st.starts, id) + 1
  {
    StartsSnoc(st.starts, Start(id, st.calls[id].command, st.calls[id].directory), id);
  }

  lemma RunMore(states: seq<State>, run: seq<Event>, e: Event, now: State, tasks: set<nat>,
      classify: string -> Assessment)
    requires IsRun(states, run, tasks, classify) && !e.Execute? && now == After(states[|run|], e, classify)
    ensures IsRun(states + [now], run + [e], tasks, classify)
  {
    var longer, more := states + [now], run + [e];
    forall k | 0 <= k < |more|
      ensures Read(longer, more[k], k) && longer[k + 1] == After(longer[k], more[k], classify)
    {
      if k < |run| {
        assert Read(states, run[k], k);
        ReadStays(states, longer, run[k], k);
      }
    }
  }

  lemma ReadStays(states: seq<State>, longer: seq<State>, e: Event, now: nat)
    requires now < |states| <= |longer| && longer[..|states|] == states && Read(states, e, now)
    ensures Read(longer, e, now)
  {
    if e.Execute? && e.call < |states[now].calls| {
      var i, j :| 0 <= i <= j <= now && SeenAt(states[i], e) && ApprovalAt(states[j], e);
      assert longer[i] == states[i] && longer[j] == states[j] && longer[now] == states[now];
    }
  }

  /** Once its launches succeed, a call has as many starts as it was decided. */
  lemma {:induction false} LaunchesFollow(states: seq<State>, run: seq<Event>, id: nat, tasks: set<nat>,
      classify: string -> Assessment)
      returns (longer: seq<State>, more: seq<Event>)
    requires IsRun(states, run, tasks, classify) && id < |states[|run|].calls|
    ensures IsRun(longer, run + more, tasks, classify) && longer[..|states|] == states
    ensures forall k | 0 <= k < |more| :: more[k] == Launch(id, true)
    ensures StartsOf(longer[|run + more|].starts, id) == Exposure(states[|run|], id)
    decreases states[|run|].launching[id]
  {
    var st := states[|run|];
    if st.launching[id] == 0 {
      longer, more := states, [];
      AfterSuffix(run);
      assert states[..|states|] == states;
    } else {
      var e := Launch(id, true);
      var now := After(st, e, classify);
      LaunchStarts(st, id, now, classify);
      RunMore(states, run, e, now, tasks, classify);
      longer, more := LaunchesFollow(states + [now], run + [e], id, tasks, classify);
      ConcatAssoc(run, [e], more);
      assert longer[..|states|] == longer[..|states + [now]|][..|states|];
      more := [e] + more;
    }
  }

  /** An execution that passes its guards after the call was already decided leads to two starts. */
  lemma LateExecutionStartsTwice(states: seq<State>, run: seq<Event>, k: nat, id: nat, tasks: set<nat>,
      classify: string -> Assessment)
      returns (longer: seq<State>, more: seq<Event>)
    requires IsRun(states, run, tasks, classify) && |run| == k + 1
    requires Readies(states[k], run[k], id, classify) && Exposure(states[k], id) > 0
    ensures IsRun(longer, run + more, tasks, classify)
    ensures forall k | 0 <= k < |more| :: more[k] == Launch(id, true)
    ensures StartsOf(longer[|run + more|].starts, id) >= 2
  {
    ExposureStep(states[k], run[k], states[k + 1], id, classify);
    EveryCall(states[k], run[k], states[k + 1], id, classify);
    longer, more := LaunchesFollow(states, run, id, tasks, classify);
  }

  lemma {:induction false} RunIsRunningOnce(states: seq<State>, run: seq<Event>, k: nat, id: nat, tasks: set<nat>,
      classify: string -> Assessment)
    requires IsRun(states, run, tasks, classify) && k <= |run| && Kept(states, run, k)
    requires forall j | 0 <= j < k :: run[j] != Launch(id, false)
    ensures RunningOnce(states[k], id)
  {
    if k > 0 {
      RunIsRunningOnce(states, run, k - 1, id, tasks, classify);
      KeptInv(states, run, k - 1, id, tasks, classify);
      RunningOnceStays(states[k - 1], run[k - 1], states[k], id, classify);
    }
  }

  /** A call whose row may not be executed was decided once. */
  predicate RunningOnce(st: State, id: nat) {
    id < |st.calls| && !MayExecute(st.calls[id].status) ==> Exposure(st, id) == 1
  }

  lemma SubmittedOnce(st: State, e: Event, now: State, id: nat, classify: string -> Assessment)
    requires e.Submit? && now == Submitted(st, e.request, e.directory, classify)
    requires CallInv(st, id) && RunningOnce(st, id)
    ensures RunningOnce(now, id)
  {
  }

  lemma ExecutedOnce(st: State, e: Event, now: State, id: nat, classify: string -> Assessment)
    requires e.Execute? && now == Decided(st, e.call, e.seen, e.approved, e.directory, classify)
    requires CallInv(st, id) && StillMay(st, e) && RunningOnce(st, id)
    ensures RunningOnce(now, id)
  {
  }

  lemma OthersStayOnce(st: State, e: Event, now: State, id: nat, classify: string -> Assessment)
    requires (e.Report? || e.Approve? || e.Reject?) && now == After(st, e, classify)
    requires CallInv(st, id) && RunningOnce(st, id)
    ensures RunningOnce(now, id)
  {
  }

  lemma RunningOnceStays(st: State, e: Event, now: State, id: nat, classify: string -> Assessment)
    requires now == After(st, e, classify) && e != Launch(id, false)
    requires CallInv(st, id) && StillMay(st, e) && RunningOnce(st, id)
    ensures RunningOnce(now, id)
  {
    match e
    case Submit(_, _) => SubmittedOnce(st, e, now, id, classify);
    case Execute(_, _, _, _) => ExecutedOnce(st, e, now, id, classify);
    case Launch(_, _) => LaunchExposes(st, e, now, id, classify);
    case Report(_, _) => OthersStayOnce(st, e, now, id, classify);
    case Approve(_) => OthersStayOnce(st, e, now, id, classify);
    case Reject(_) => OthersStayOnce(st, e, now, id, classify);
  }

  /** So the guard of `StartsAtMostOnce` is the right one: as long as it was kept and no launch of the call
      failed, the next execution to pass its guards leaves the call decided once if and only if the row may
      still be executed when it commits. */
  lemma StatusGuardIsExact(states: seq<State>, run: seq<Event>, k: nat, id: nat, tasks: set<nat>,
      classify: string -> Assessment)
    requires IsRun(states, run, tasks, classify) && k < |run| && Kept(states, run, k)
    requires forall j | 0 <= j < k :: run[j] != Launch(id, false)
    requires Readies(states[k], run[k], id, classify)
    ensures Exposure(states[k + 1], id) <= 1 <==> MayExecute(states[k].calls[id].status)
  {
    RunIsRunningOnce(states, run, k, id, tasks, classify);
    KeptInv(states, run, k, id, tasks, classify);
    ExposureStep(states[k], run[k], states[k + 1], id, classify);
  }

  // ---------- Why a process was started ----------

  lemma {:induction false} ReadyWasCleared(states: seq<State>, run: seq<Event>, k: nat, id: nat, tasks: set<nat>,
      classify: string -> Assessment) returns (j: nat)
    requires IsRun(states, run, tasks, classify) && k < |states| && states[k].launching[id] > 0
    ensures j < k && Clears(states[j], run[j], id, classify)
  {
    StepIsSound(states, run, k - 1, id, tasks, classify);
    if states[k - 1].launching[id] > 0 {
      j := ReadyWasCleared(states, run, k - 1, id, tasks, classify);
    } else {
      j := k - 1;
    }
  }

  /** A process starts only for a call that an earlier step of the run cleared, however the sessions overlap. */
  lemma StartIsJustified(states: seq<State>, run: seq<Event>, k: nat, tasks: set<nat>, classify: string -> Assessment)
      returns (j: nat)
    requires IsRun(states, run, tasks, classify) && k < |run| && states[k + 1].starts != states[k].starts
    ensures run[k].Launch? && j < k && Clears(states[j], run[j], run[k].call, classify)
  {
    StepIsSound(states, run, k, 0, tasks, classify);
    j := ReadyWasCleared(states, run, k, run[k].call, tasks, classify);
  }

  // ---------- Approval ----------

  ghost predicate ApprovedBefore(states: seq<State>, run: seq<Event>, k: nat, id: nat)
    requires k < |states| == |run| + 1
  {
    exists j | 0 <= j < k :: Approves(states[j], run[j], id)
  }

  lemma {:induction false} MarkedIffApproved(states: seq<State>, run: seq<Event>, k: nat, id: nat)
    requires CallSteps(states, run, id) && k < |states|
    ensures (id < |states[k].calls| && states[k].calls[id].approvedByUser) <==> ApprovedBefore(states, run, k, id)
  {
    if k > 0 {
      MarkedIffApproved(states, run, k - 1, id);
      assert CallStep(states[k - 1], run[k - 1], states[k], id);
      assert ApprovedBefore(states, run, k, id) <==>
        ApprovedBefore(states, run, k - 1, id) || Approves(states[k - 1], run[k - 1], id);
      assert Approves(states[k - 1], run[k - 1], id) ==> ApprovalInv(states[k - 1], run[k - 1].approval);
    }
  }

  /** A call counts as approved exactly when some reviewer approved it before. */
  lemma ApprovedExactly(states: seq<State>, run: seq<Event>, k: nat, id: nat, tasks: set<nat>,
      classify: string -> Assessment)
    requires IsRun(states, run, tasks, classify) && k < |states| && id < |states[k].calls|
    ensures IsApproved(states[k], id) <==> ApprovedBefore(states, run, k, id)
  {
    RunSteps(states, run, id, tasks, classify);
    MarkedIffApproved(states, run, k, id);
    MarkedWhenApproved(states[k], id);
  }

  /** A started command is not blocked, and one that needs approval is started only after a reviewer approved
      its call. */
  lemma RiskyStartsNeedApproval(states: seq<State>, run: seq<Event>, k: nat, tasks: set<nat>,
      classify: string -> Assessment)
    requires IsRun(states, run, tasks, classify) && k < |run| && states[k + 1].starts != states[k].starts
    requires run[k].Launch? && run[k].call < |states[k].calls|
    ensures !classify(states[k].calls[run[k].call].command).blocked
    ensures classify(states[k].calls[run[k].call].command).requiresApproval ==>
              ApprovedBefore(states, run, k, run[k].call)
  {
    var id := run[k].call;
    var j := StartIsJustified(states, run, k, tasks, classify);
    RunSteps(states, run, id, tasks, classify);
    if run[j].Execute? {
      CallStays(states, run, j, k, id);
      ApprovedExactly(states, run, j, id, tasks, classify);
    } else {
      SubmitAdds(states[j], run[j], states[j + 1], classify);
      CallStays(states, run, j + 1, k, id);
    }
  }

  /** The same in terms of the command's words and the rule lists: no blocked rule matches what the rules see of a
      started command, and one that matches a risky rule but no safe rule was approved before. */
  lemma StartsObeyTheRules(states: seq<State>, run: seq<Event>, k: nat, words: seq<string>, tasks: set<nat>, rules: Rules)
    requires IsRun(states, run, tasks, Classifier(rules)) && k < |run| && states[k + 1].starts != states[k].starts
    requires run[k].Launch? && run[k].call < |states[k].calls| && HasWords(states[k].calls[run[k].call].command, words)
    ensures var t := Spaced(if |words| > 1 && words[0] == "sudo" then words[1..] else words);
      && !AnyMatches(rules.blocked, t)
      && (!AnyMatches(rules.safe, t) &&
          (AnyMatches(rules.dangerous, t) || AnyMatches(rules.high, t) || AnyMatches(rules.medium, t)) ==>
            ApprovedBefore(states, run, k, run[k].call))
  {
    ClassifiedMeaning(states[k].calls[run[k].call].command, words, rules);
    RiskyStartsNeedApproval(states, run, k, tasks, Classifier(rules));
  }

  lemma SubmitAdds(st: State, e: Event, now: State, classify: string -> Assessment)
    requires e.Submit? && e.request.task in st.tasks && now == After(st, e, classify)
    ensures |now.calls| == |st.calls| + 1
  {
  }

  // ---------- Two limits ----------

  /** Rejecting an approval that was granted does not take it back: the mark on the call stays. */
  lemma RejectionDoesNotRevoke(st: State, k: nat, classify: string -> Assessment)
    requires k < |st.approvals| && st.approvals[k].call < |st.calls|
    ensures IsApproved(After(After(st, Approve(k), classify), Reject(k), classify), st.approvals[k].call)
  {
  }

  /** The run of two sessions that both read an approved call before either commits. */
  function TwoSessions(request: Request, directory: Resolved): seq<Event> {
    var e := Execute(0, WaitingApproval, true, directory);
    [Submit(request, directory), Approve(0), e, e, Launch(0, true), Launch(0, true)]
  }

  /** A table with one approved call. */
  predicate OneApproved(st: State, request: Request) {
    && |st.calls| == 1 && st.calls[0].command == request.command && st.calls[0].approvedByUser
    && st.starts == []
  }

  lemma SubmitAndApprove(request: Request, directory: Resolved, tasks: set<nat>, a: State, b: State,
      classify: string -> Assessment)
    requires request.task in tasks && directory.error.None?
    requires !classify(request.command).blocked && classify(request.command).requiresApproval
    requires a == After(Initial(tasks), Submit(request, directory), classify) && b == After(a, Approve(0), classify)
    ensures OneApproved(b, request) && b.calls[0].status == WaitingApproval && b.launching[0] == 0
  {
    AfterPrefix([], a.calls);
  }

  lemma ExecuteReadies(st: State, request: Request, directory: Resolved, now: State, classify: string -> Assessment)
    requires OneApproved(st, request) && directory.error.None? && !classify(request.command).blocked
    requires now == After(st, Execute(0, WaitingApproval, true, directory), classify)
    ensures OneApproved(now, request) && now.launching[0] == st.launching[0] + 1
  {
  }

  lemma TwoDecisions(st: State, request: Request, directory: Resolved, one: State, two: State, started: State,
      last: State, classify: string -> Assessment)
    requires OneApproved(st, request) && directory.error.None? && !classify(request.command).blocked
    requires one == After(st, Execute(0, WaitingApproval, true, directory), classify)
    requires two == After(one, Execute(0, WaitingApproval, true, directory), classify)
    requires started == After(two, Launch(0, true), classify) && last == After(started, Launch(0, true), classify)
    ensures StartsOf(last.starts, 0) == 2
  {
    ExecuteReadies(st, request, directory, one, classify);
    ExecuteReadies(one, request, directory, two, classify);
    LaunchStarts(two, 0, started, classify);
    LaunchStarts(started, 0, last, classify);
  }

  lemma BothReadBefore(states: seq<State>, run: seq<Event>, request: Request, directory: Resolved)
    requires |states| == 7 && run == TwoSessions(request, directory)
    requires OneApproved(states[2], request) && states[2].calls[0].status == WaitingApproval
    ensures forall k | 0 <= k < 6 :: Read(states, run[k], k)
  {
    var e := Execute(0, WaitingApproval, true, directory);
    assert SeenAt(states[2], e) && ApprovalAt(states[2], e);
  }

  /** Without a lock, two sessions that both read the row before either commits start the process twice. */
  lemma OverlappingSessionsStartTwice(request: Request, directory: Resolved, tasks: set<nat>, classify: string -> Assessment)
      returns (states: seq<State>)
    requires request.task in tasks && directory.error.None?
    requires !classify(request.command).blocked && classify(request.command).requiresApproval
    ensures IsRun(states, TwoSessions(request, directory), tasks, classify)
    ensures StartsOf(states[6].starts, 0) == 2
  {
    var run := TwoSessions(request, directory);
    var s0 := Initial(tasks);
    var s1 := After(s0, run[0], classify);
    var s2 := After(s1, run[1], classify);
    var s3 := After(s2, run[2], classify);
    var s4 := After(s3, run[3], classify);
    var s5 := After(s4, run[4], classify);
    var s6 := After(s5, run[5], classify);
    SubmitAndApprove(request, directory, tasks, s1, s2, classify);
    TwoDecisions(s2, request, directory, s3, s4, s5, s6, classify);
    states := [s0, s1, s2, s3, s4, s5, s6];
    BothReadBefore(states, run, request, directory);
  }
}
