/** The task queue as a protocol over locked rows (db/task_queue.py). Each operation is a row of
    steps of its session: `SELECT ... FOR UPDATE SKIP LOCKED` steps that take locks, reads, and a
    commit that writes and lets go. Steps of different sessions interleave in any order. */
module TaskQueue {
  import opened Text

  type TaskId = nat
  type SessionId = nat
  type Time = nat

  datatype Priority = Urgent | High | Normal | Low | Backlog

  function Rank(p: Priority): nat {
    match p case Urgent => 0 case High => 1 case Normal => 2 case Low => 3 case Backlog => 4
  }

  datatype Status = Pending | Running | Paused | Completed | Failed | Cancelled

  predicate Terminal(s: Status) {
    s in {Completed, Failed, Cancelled}
  }

  datatype Task = Task(
    workspace: nat, priority: Priority, status: Status, worker: Option<string>,
    createdAt: Time, startedAt: Option<Time>, completedAt: Option<Time>)

  datatype TaskRun = TaskRun(
    task: TaskId, attempt: nat, worker: string, status: Status,
    startedAt: Option<Time>, completedAt: Option<Time>, error: Option<string>)

  /** The committed rows. Task runs are never deleted; a run's row number is its place. */
  datatype Db = Db(tasks: map<TaskId, Task>, runs: seq<TaskRun>)

  // ---------- Queries ----------

  predicate KeyAtMost(a: Task, b: Task) {
    Rank(a.priority) < Rank(b.priority) || (Rank(a.priority) == Rank(b.priority) && a.createdAt <= b.createdAt)
  }

  predicate InWorkspace(task: Task, workspace: Option<nat>) {
    workspace.Some? ==> task.workspace == workspace.value
  }

  /** How many attempts the task has had. */
  function Count(runs: seq<TaskRun>, t: TaskId): nat {
    if runs == [] then 0 else
      Count(runs[..|runs| - 1], t) + (if runs[|runs| - 1].task == t then 1 else 0)
  }

  /** `coalesce(max(attempt_number), 0)` over the runs of a task */
  function MaxAttempt(runs: seq<TaskRun>, t: TaskId): nat {
    if runs == [] then 0 else
      var rest, last := MaxAttempt(runs[..|runs| - 1], t), runs[|runs| - 1];
      if last.task == t && rest < last.attempt then last.attempt else rest
  }

  // ---------- Commits ----------

  function ClaimedTask(task: Task, worker: string, now: Time): Task {
    task.(status := Running, worker := Some(worker),
          startedAt := if task.startedAt.None? then Some(now) else task.startedAt,
          completedAt := None)
  }

  function ClaimRun(t: TaskId, worker: string, attempt: nat, now: Time): TaskRun {
    TaskRun(t, attempt, worker, Running, Some(now), None, None)
  }

  /** `claim_next_task`, the writing part */
  function ClaimedDb(db: Db, t: TaskId, worker: string, attempt: nat, now: Time): Db
    requires t in db.tasks
  {
    Db(db.tasks[t := ClaimedTask(db.tasks[t], worker, now)], db.runs + [ClaimRun(t, worker, attempt, now)])
  }

  function UpdatedTask(task: Task, status: Status, worker: Option<string>, now: Time): Task {
    match status
    case Running =>
      task.(status := Running, worker := if worker.Some? && worker.value != "" then worker else task.worker,
            startedAt := if task.startedAt.None? then Some(now) else task.startedAt, completedAt := None)
    case Pending => task.(status := status, worker := None, completedAt := None)
    case Paused => task.(status := status, worker := None, completedAt := None)
    case _ => task.(status := status, worker := None, completedAt := Some(now))
  }

  function UpdatedRun(run: TaskRun, status: Status, error: Option<string>, now: Time): TaskRun {
    run.(status := status,
         startedAt := if status == Running && run.startedAt.None? then Some(now) else run.startedAt,
         completedAt := if Terminal(status) || status == Paused then Some(now) else run.completedAt,
         error := if error.Some? then error else run.error)
  }

  /** `update_task_status`, the writing part */
  function UpdatedDb(db: Db, t: TaskId, status: Status, worker: Option<string>, error: Option<string>,
                     run: Option<nat>, now: Time): Db
    requires t in db.tasks && (run.Some? ==> run.value < |db.runs|)
  {
    Db(db.tasks[t := UpdatedTask(db.tasks[t], status, worker, now)],
       if run.None? then db.runs else db.runs[run.value := UpdatedRun(db.runs[run.value], status, error, now)])
  }

  // ---------- The protocol ----------

  datatype Phase =
    | Idle
    | Claiming(task: TaskId, worker: string)
    | Claimed(task: TaskId, worker: string, attempt: nat)
    | Updating(task: TaskId, status: Status, newWorker: Option<string>, error: Option<string>)
    | UpdatingRun(task: TaskId, status: Status, newWorker: Option<string>, error: Option<string>, run: Option<nat>)
    | Reprioritizing(task: TaskId, priority: Priority)

  /** What was committed, in order. */
  datatype Event =
    | Created(task: TaskId, status: Status, worker: Option<string>)
    | ClaimDone(task: TaskId, attempt: nat)
    | UpdateDone(task: TaskId, status: Status)

  datatype State = State(
    db: Db, taskLock: map<TaskId, SessionId>, runLock: map<nat, SessionId>,
    sessions: map<SessionId, Phase>, log: seq<Event>)
  {
    function PhaseOf(sid: SessionId): Phase {
      if sid in sessions then sessions[sid] else Idle
    }
  }

  datatype Step =
    | Create(id: TaskId, task: Task)
    | LockForClaim(sid: SessionId, worker: string, workspace: Option<nat>, choice: TaskId)
    | ReadAttempt(sid: SessionId)
    | CommitClaim(sid: SessionId, now: Time)
    | LockForUpdate(sid: SessionId, id: TaskId, status: Status, newWorker: Option<string>, error: Option<string>)
    | LockRun(sid: SessionId, run: Option<nat>)
    | CommitUpdate(sid: SessionId, now: Time)
    | LockForPriority(sid: SessionId, id: TaskId, priority: Priority)
    | CommitPriority(sid: SessionId)
    | Abort(sid: SessionId)

  /** A pending row that the claim's query may see: unlocked and in the asked workspace. */
  predicate Claimable(s: State, t: TaskId, workspace: Option<nat>) {
    t in s.db.tasks && s.db.tasks[t].status == Pending && InWorkspace(s.db.tasks[t], workspace) && t !in s.taskLock
  }

  /** The row the claim's query locks: a first one in the order of priority, then creation. */
  ghost predicate ClaimChoice(s: State, t: TaskId, workspace: Option<nat>) {
    Claimable(s, t, workspace) &&
    forall u | Claimable(s, u, workspace) :: KeyAtMost(s.db.tasks[t], s.db.tasks[u])
  }

  predicate FreeRun(s: State, t: TaskId, r: nat) {
    r < |s.db.runs| && s.db.runs[r].task == t && r !in s.runLock
  }

  /** The row `_latest_task_run` locks: the highest attempt among the runs nobody has locked. */
  ghost predicate RunChoice(s: State, t: TaskId, run: Option<nat>) {
    match run
    case None => forall r: nat :: !FreeRun(s, t, r)
    case Some(r) => FreeRun(s, t, r) && forall q: nat | FreeRun(s, t, q) :: s.db.runs[q].attempt <= s.db.runs[r].attempt
  }

  ghost predicate Enabled(s: State, step: Step) {
    match step
    case Create(id, task) => id !in s.db.tasks && task.startedAt.None? && task.completedAt.None?
    case LockForClaim(sid, _, workspace, choice) => s.PhaseOf(sid).Idle? && ClaimChoice(s, choice, workspace)
    case ReadAttempt(sid) => s.PhaseOf(sid).Claiming?
    case CommitClaim(sid, _) => s.PhaseOf(sid).Claimed? && s.PhaseOf(sid).task in s.db.tasks
    case LockForUpdate(sid, id, _, _, _) => s.PhaseOf(sid).Idle? && id in s.db.tasks && id !in s.taskLock
    case LockRun(sid, run) => s.PhaseOf(sid).Updating? && RunChoice(s, s.PhaseOf(sid).task, run)
    case CommitUpdate(sid, _) =>
      var p := s.PhaseOf(sid);
      p.UpdatingRun? && p.task in s.db.tasks && (p.run.Some? ==> p.run.value < |s.db.runs|)
    case LockForPriority(sid, id, _) => s.PhaseOf(sid).Idle? && id in s.db.tasks && id !in s.taskLock
    case CommitPriority(sid) => s.PhaseOf(sid).Reprioritizing? && s.PhaseOf(sid).task in s.db.tasks
    case Abort(sid) => !s.PhaseOf(sid).Idle?
  }

  /** The unique constraint on (task_id, attempt_number) refuses the row. */
  ghost predicate Duplicate(db: Db, t: TaskId, attempt: nat) {
    exists r :: 0 <= r < |db.runs| && db.runs[r].task == t && db.runs[r].attempt == attempt
  }

  /** A session ends its transaction: its locks go. */
  function Release(s: State, sid: SessionId): State {
    s.(taskLock := map t | t in s.taskLock && s.taskLock[t] != sid :: s.taskLock[t],
       runLock := map r | r in s.runLock && s.runLock[r] != sid :: s.runLock[r],
       sessions := s.sessions[sid := Idle])
  }

  ghost function After(s: State, step: Step): State
    requires Enabled(s, step)
  {
    match step
    case Create(id, task) =>
      s.(db := Db(s.db.tasks[id := task], s.db.runs), log := s.log + [Created(id, task.status, task.worker)])
    case LockForClaim(sid, worker, _, choice) =>
      s.(taskLock := s.taskLock[choice := sid], sessions := s.sessions[sid := Claiming(choice, worker)])
    case ReadAttempt(sid) =>
      var p := s.PhaseOf(sid);
      s.(sessions := s.sessions[sid := Claimed(p.task, p.worker, MaxAttempt(s.db.runs, p.task) + 1)])
    case CommitClaim(sid, now) =>
      var p := s.PhaseOf(sid);
      if Duplicate(s.db, p.task, p.attempt) then Release(s, sid) else
        Release(s, sid).(db := ClaimedDb(s.db, p.task, p.worker, p.attempt, now),
                         log := s.log + [ClaimDone(p.task, p.attempt)])
    case LockForUpdate(sid, id, status, newWorker, error) =>
      s.(taskLock := s.taskLock[id := sid], sessions := s.sessions[sid := Updating(id, status, newWorker, error)])
    case LockRun(sid, run) =>
      var p := s.PhaseOf(sid);
      s.(runLock := if run.Some? then s.runLock[run.value := sid] else s.runLock,
         sessions := s.sessions[sid := UpdatingRun(p.task, p.status, p.newWorker, p.error, run)])
    case CommitUpdate(sid, now) =>
      var p := s.PhaseOf(sid);
      Release(s, sid).(db := UpdatedDb(s.db, p.task, p.status, p.newWorker, p.error, p.run, now),
                       log := s.log + [UpdateDone(p.task, p.status)])
    case LockForPriority(sid, id, priority) =>
      s.(taskLock := s.taskLock[id := sid], sessions := s.sessions[sid := Reprioritizing(id, priority)])
    case CommitPriority(sid) =>
      var p := s.PhaseOf(sid);
      Release(s, sid).(db := Db(s.db.tasks[p.task := s.db.tasks[p.task].(priority := p.priority)], s.db.runs))
    case Abort(sid) => Release(s, sid)
  }

  const START := State(Db(map[], []), map[], map[], map[], [])

  /** The states a run passes through. */
  ghost predicate Behaviour(states: seq<State>, steps: seq<Step>) {
    |states| == |steps| + 1 && states[0] == START &&
    forall i | 0 <= i < |steps| :: Enabled(states[i], steps[i]) && states[i + 1] == After(states[i], steps[i])
  }

  ghost predicate Reachable(s: State) {
    exists states: seq<State>, steps: seq<Step> :: Behaviour(states, steps) && states[|steps|] == s
  }
}
