/** The queue operations of one session without rivals, and the worker's loop over them
    (db/task_queue.py, workers/main.py). */
module QueueWorker {
  import opened Text
  import opened TaskQueue
  import opened TaskQueueSafety

  /** The protocol state in which nobody else is at work. */
  function Lone(db: Db): State {
    State(db, map[], map[], map[], [])
  }

  /** The run with the highest attempt, as `_latest_task_run` finds it when no run is locked. */
  function LatestRun(runs: seq<TaskRun>, t: TaskId): (r: Option<nat>)
    ensures r.Some? ==> r.value < |runs| && runs[r.value].task == t
  {
    if runs == [] then None else
      var n := |runs| - 1;
      var earlier := LatestRun(runs[..n], t);
      if runs[n].task == t && (earlier.None? || runs[earlier.value].attempt < runs[n].attempt) then Some(n) else earlier
  }

  lemma {:induction false} LatestRunChosen(runs: seq<TaskRun>, t: TaskId)
    ensures match LatestRun(runs, t)
      case None => forall q | 0 <= q < |runs| :: runs[q].task != t
      case Some(r) => forall q | 0 <= q < |runs| && runs[q].task == t :: runs[q].attempt <= runs[r].attempt
  {
    if runs != [] {
      var n := |runs| - 1;
      LatestRunChosen(runs[..n], t);
      assert forall q | 0 <= q < n :: runs[..n][q] == runs[q];
    }
  }

  function PendingTasks(db: Db, workspace: Option<nat>): set<TaskId> {
    set t | t in db.tasks && db.tasks[t].status == Pending && InWorkspace(db.tasks[t], workspace)
  }

  lemma {:induction false} FirstExists(db: Db, s: set<TaskId>) returns (t: TaskId)
    requires s != {} && s <= db.tasks.Keys
    ensures t in s && forall u | u in s :: KeyAtMost(db.tasks[t], db.tasks[u])
  {
    t :| t in s;
    if s != {t} {
      var u := FirstExists(db, s - {t});
      t := if KeyAtMost(db.tasks[t], db.tasks[u]) then t else u;
    }
  }

  // ---------- Listing ----------

  /** No row twice, and in the order of priority, then creation. */
  ghost predicate Ordered(db: Db, ids: seq<TaskId>) {
    && (forall i | 0 <= i < |ids| :: ids[i] in db.tasks)
    && (forall i, j | 0 <= i < j < |ids| :: ids[i] != ids[j] && KeyAtMost(db.tasks[ids[i]], db.tasks[ids[j]]))
  }

  /** What `list_task_queue` may return: the first `limit` matching rows; ties come in any order. */
  ghost predicate IsListing(db: Db, statuses: set<Status>, workspace: Option<nat>, limit: nat, ids: seq<TaskId>) {
    && Ordered(db, ids)
    && (forall t | t in ids :: db.tasks[t].status in statuses && InWorkspace(db.tasks[t], workspace))
    && |ids| <= limit
    && forall t | t in db.tasks && db.tasks[t].status in statuses && InWorkspace(db.tasks[t], workspace) && t !in ids ::
         |ids| == limit && forall u | u in ids :: KeyAtMost(db.tasks[u], db.tasks[t])
  }

  function Elements(s: seq<TaskId>): (r: set<TaskId>)
    ensures forall t :: t in r <==> t in s
  {
    if s == [] then {} else Elements(s[..|s| - 1]) + {s[|s| - 1]}
  }

  /** Two orders of the same rows show the same priority and creation time at every place. */
  lemma SameOrder(db: Db, a: seq<TaskId>, b: seq<TaskId>, k: nat)
    requires Ordered(db, a) && Ordered(db, b)
    requires Elements(a) == Elements(b)
    requires k < |a| && k < |b|
    ensures db.tasks[a[k]].priority == db.tasks[b[k]].priority && db.tasks[a[k]].createdAt == db.tasks[b[k]].createdAt
  {
    NotLater(db, a, b, k);
    NotLater(db, b, a, k);
  }

  predicate MoreUrgent(a: Priority, b: Priority) {
    match a
    case Urgent => b != Urgent
    case High => b in {Normal, Low, Backlog}
    case Normal => b in {Low, Backlog}
    case Low => b == Backlog
    case Backlog => false
  }

  /** The task comes first: it is more urgent, or as urgent and not younger. */
  predicate ComesFirst(a: Task, b: Task) {
    MoreUrgent(a.priority, b.priority) || (a.priority == b.priority && a.createdAt <= b.createdAt)
  }

  lemma KeyMeaning(a: Task, b: Task)
    ensures KeyAtMost(a, b) <==> ComesFirst(a, b)
  {
  }

  /** A listing for the eye: rows of the statuses and the workspace asked for, none twice, each before what comes
      after it; and a row left out comes after all of as many as were asked for. */
  lemma ListingMeaning(db: Db, statuses: set<Status>, workspace: Option<nat>, limit: nat, ids: seq<TaskId>)
    requires IsListing(db, statuses, workspace, limit, ids)
    ensures |ids| <= limit
    ensures forall t | t in ids :: t in db.tasks && db.tasks[t].status in statuses
                                   && (workspace == None || workspace == Some(db.tasks[t].workspace))
    ensures forall i, j | 0 <= i < j < |ids| :: ids[i] != ids[j] && ComesFirst(db.tasks[ids[i]], db.tasks[ids[j]])
    ensures forall t | t in db.tasks && t !in ids && db.tasks[t].status in statuses
                       && (workspace == None || workspace == Some(db.tasks[t].workspace)) ::
              |ids| == limit && forall u | u in ids :: ComesFirst(db.tasks[u], db.tasks[t])
  {
    forall i, j | 0 <= i < j < |ids|
      ensures ComesFirst(db.tasks[ids[i]], db.tasks[ids[j]])
    {
      KeyMeaning(db.tasks[ids[i]], db.tasks[ids[j]]);
    }
    forall t, u | t in db.tasks && t !in ids && db.tasks[t].status in statuses && InWorkspace(db.tasks[t], workspace) && u in ids
      ensures ComesFirst(db.tasks[u], db.tasks[t])
    {
      KeyMeaning(db.tasks[u], db.tasks[t]);
    }
  }

  // ---------- What the writes leave ----------

  /** A pending task of the workspace, if one is asked for. */
  predicate MayClaim(task: Task, workspace: Option<nat>) {
    task.status == Pending && (workspace == None || workspace == Some(task.workspace))
  }

  /** A task claimed: it runs for the worker, without an end, and with a first start. */
  predicate Starts(was: Task, now: Task, worker: string, time: Time) {
    && now.status == Running && now.worker == Some(worker) && now.completedAt == None
    && now.startedAt == (if was.startedAt == None then Some(time) else was.startedAt)
    && now.workspace == was.workspace && now.priority == was.priority && now.createdAt == was.createdAt
  }

  /** A claim: the task starts, and it has a new run with the next attempt number; every other row is as it was. */
  ghost predicate ClaimLeft(was: Db, now: Db, t: TaskId, worker: string, time: Time) {
    && t in was.tasks && now.tasks.Keys == was.tasks.Keys
    && (forall u | u in was.tasks && u != t :: now.tasks[u] == was.tasks[u])
    && Starts(was.tasks[t], now.tasks[t], worker, time)
    && now.runs == was.runs + [TaskRun(t, Count(was.runs, t) + 1, worker, Running, Some(time), None, None)]
  }

  lemma ClaimStarts(task: Task, worker: string, time: Time)
    ensures Starts(task, ClaimedTask(task, worker, time), worker, time)
  {
  }

  lemma ClaimLeaves(db: Db, t: TaskId, worker: string, time: Time)
    requires t in db.tasks
    ensures ClaimLeft(db, ClaimedDb(db, t, worker, Count(db.runs, t) + 1, time), t, worker, time)
  {
    ClaimStarts(db.tasks[t], worker, time);
    ClaimIsLeft(db, ClaimedTask(db.tasks[t], worker, time), t, worker, time,
      ClaimedDb(db, t, worker, Count(db.runs, t) + 1, time));
  }

  lemma ClaimIsLeft(db: Db, task: Task, t: TaskId, worker: string, time: Time, now: Db)
    requires t in db.tasks && Starts(db.tasks[t], task, worker, time)
    requires now.tasks == db.tasks[t := task]
    requires now.runs == db.runs + [TaskRun(t, Count(db.runs, t) + 1, worker, Running, Some(time), None, None)]
    ensures ClaimLeft(db, now, t, worker, time)
  {
  }

  /** An update of a task: a running one has the new worker if one is named, a first start and no end; one that is
      pending or paused is let go without an end; a final one is let go and ended. */
  predicate Rewrites(was: Task, now: Task, status: Status, worker: Option<string>, time: Time) {
    && now.status == status
    && now.workspace == was.workspace && now.priority == was.priority && now.createdAt == was.createdAt
    && now.worker == (if status != Running then None else if worker in [None, Some("")] then was.worker else worker)
    && now.startedAt == (if status == Running && was.startedAt == None then Some(time) else was.startedAt)
    && now.completedAt == (if status in {Completed, Failed, Cancelled} then Some(time) else None)
  }

  /** Its last run: a first start when it runs, an end when it is final or paused, an error if one is named. */
  predicate RewritesRun(was: TaskRun, now: TaskRun, status: Status, error: Option<string>, time: Time) {
    && now.task == was.task && now.attempt == was.attempt && now.worker == was.worker && now.status == status
    && now.startedAt == (if status == Running && was.startedAt == None then Some(time) else was.startedAt)
    && now.completedAt == (if status in {Completed, Failed, Cancelled, Paused} then Some(time) else was.completedAt)
    && now.error == (if error == None then was.error else error)
  }

  lemma TaskRewritten(task: Task, status: Status, worker: Option<string>, time: Time)
    ensures Rewrites(task, UpdatedTask(task, status, worker, time), status, worker, time)
  {
  }

  lemma RunRewritten(run: TaskRun, status: Status, error: Option<string>, time: Time)
    ensures RewritesRun(run, UpdatedRun(run, status, error, time), status, error, time)
  {
  }

  /** No run of the task has a higher attempt number. */
  predicate IsHighest(runs: seq<TaskRun>, t: TaskId, r: nat)
    requires r < |runs|
  {
    runs[r].task == t && forall q | 0 <= q < |runs| && runs[q].task == t :: runs[q].attempt <= runs[r].attempt
  }

  /** The rows after an update: of the task, and of its run with the highest attempt if it has runs. */
  ghost predicate Updates(was: Db, now: Db, t: TaskId, status: Status, worker: Option<string>, error: Option<string>, time: Time)
  {
    && t in was.tasks && now.tasks.Keys == was.tasks.Keys && |now.runs| == |was.runs|
    && (forall u | u in was.tasks && u != t :: now.tasks[u] == was.tasks[u])
    && Rewrites(was.tasks[t], now.tasks[t], status, worker, time)
    && (forall r | 0 <= r < |was.runs| && IsHighest(was.runs, t, r) ::
          RewritesRun(was.runs[r], now.runs[r], status, error, time))
    && (forall r | 0 <= r < |was.runs| && !IsHighest(was.runs, t, r) :: now.runs[r] == was.runs[r])
  }

  lemma UpdateMeaning(db: Db, t: TaskId, status: Status, worker: Option<string>, error: Option<string>, time: Time)
    requires Numbered(db.runs) && t in db.tasks
    ensures Updates(db, UpdatedDb(db, t, status, worker, error, LatestRun(db.runs, t), time), t, status, worker, error, time)
  {
    forall r | 0 <= r < |db.runs|
      ensures LatestRun(db.runs, t) == Some(r) <==> IsHighest(db.runs, t, r)
    {
      LatestIsHighest(db.runs, t, r);
    }
    UpdatesLatest(db, t, status, worker, error, LatestRun(db.runs, t), time,
      UpdatedDb(db, t, status, worker, error, LatestRun(db.runs, t), time));
  }

  lemma UpdatesLatest(db: Db, t: TaskId, status: Status, worker: Option<string>, error: Option<string>,
      latest: Option<nat>, time: Time, now: Db)
    requires t in db.tasks && (latest.Some? ==> latest.value < |db.runs|)
    requires forall r | 0 <= r < |db.runs| :: latest == Some(r) <==> IsHighest(db.runs, t, r)
    requires now == UpdatedDb(db, t, status, worker, error, latest, time)
    ensures Updates(db, now, t, status, worker, error, time)
  {
    TaskRewritten(db.tasks[t], status, worker, time);
    if latest.Some? {
      RunRewritten(db.runs[latest.value], status, error, time);
    }
  }

  lemma LatestIsHighest(runs: seq<TaskRun>, t: TaskId, r: nat)
    requires Numbered(runs) && r < |runs|
    ensures LatestRun(runs, t) == Some(r) <==> IsHighest(runs, t, r)
  {
    LatestRunChosen(runs, t);
    if IsHighest(runs, t, r) {
      OneHighest(runs, t, r, LatestRun(runs, t).value);
    }
  }

  /** Attempt numbers of a task differ, so only one run has the highest. */
  lemma OneHighest(runs: seq<TaskRun>, t: TaskId, r: nat, q: nat)
    requires Numbered(runs) && r < |runs| && q < |runs| && IsHighest(runs, t, r) && IsHighest(runs, t, q)
    ensures r == q
  {
    if r < q {
      LaterAttempt(runs, t, r, q);
    } else if q < r {
      LaterAttempt(runs, t, q, r);
    }
  }

  lemma LaterAttempt(runs: seq<TaskRun>, t: TaskId, r: nat, q: nat)
    requires Numbered(runs) && r < q < |runs| && runs[r].task == t && runs[q].task == t
    ensures runs[r].attempt < runs[q].attempt
  {
    NumberedPrefix(runs, q);
    assert runs[..q][r] == runs[r];
    AttemptRange(runs[..q], r);
  }

  lemma NotLater(db: Db, a: seq<TaskId>, b: seq<TaskId>, k: nat)
    requires Ordered(db, a) && Ordered(db, b)
    requires Elements(a) == Elements(b)
    requires k < |a| && k < |b|
    ensures KeyAtMost(db.tasks[a[k]], db.tasks[b[k]])
  {
    OrderedPrefix(db, a, k);
    OrderedPrefix(db, b, k + 1);
    var t := OneMore(a[..k], b[..k + 1]);
    assert t in b && t in Elements(a);
    InOrder(db, b[..k + 1], t, b[k]);
    NotBefore(db, a, k, t);
  }

  lemma OrderedPrefix(db: Db, ids: seq<TaskId>, k: nat)
    requires Ordered(db, ids) && k <= |ids|
    ensures Ordered(db, ids[..k])
  {
  }

  /** A longer list of distinct rows has a row that a shorter one has not. */
  lemma OneMore(few: seq<TaskId>, many: seq<TaskId>) returns (t: TaskId)
    requires |few| < |many|
    requires forall i, j | 0 <= i < j < |few| :: few[i] != few[j]
    requires forall i, j | 0 <= i < j < |many| :: many[i] != many[j]
    ensures t in many && t !in few
  {
    DistinctCount(few);
    DistinctCount(many);
    if Elements(many) <= Elements(few) {
      SubsetCount(Elements(many), Elements(few));
    }
    t :| t in Elements(many) && t !in Elements(few);
  }

  lemma InOrder(db: Db, s: seq<TaskId>, t: TaskId, last: TaskId)
    requires t in s && last == s[|s| - 1] && Ordered(db, s)
    ensures KeyAtMost(db.tasks[t], db.tasks[last])
  {
  }

  lemma NotBefore(db: Db, a: seq<TaskId>, k: nat, t: TaskId)
    requires Ordered(db, a) && k < |a| && t in a && t !in a[..k]
    ensures KeyAtMost(db.tasks[a[k]], db.tasks[t])
  {
    var j :| 0 <= j < |a| && a[j] == t;
    assert forall m | 0 <= m < k :: a[m] == a[..k][m];
  }

  lemma {:induction false} DistinctCount(s: seq<TaskId>)
    requires forall i, j | 0 <= i < j < |s| :: s[i] != s[j]
    ensures |Elements(s)| == |s|
  {
    if s != [] {
      var init, last := s[..|s| - 1], s[|s| - 1];
      DistinctCount(init);
      assert last !in init && last !in Elements(init);
    }
  }

  lemma {:induction false} SubsetCount(a: set<TaskId>, b: set<TaskId>)
    requires a <= b
    ensures |a| <= |b|
  {
    if a != {} {
      var t :| t in a;
      SubsetCount(a - {t}, b - {t});
    }
  }

  // ---------- What the agent made of a task ----------

  datatype Outcome =
    | Raised(text: string)
    | Returned(status: string, summary: string)

  /** The status and error text that the worker records for an outcome. */
  function Recorded(o: Outcome): (Status, Option<string>) {
    match o
    case Raised(text) => (Failed, Some(text))
    case Returned(status, summary) =>
      if status == "completed" then (Completed, None)
      else if status == "paused" then (Paused, None)
      else if status == "failed" then (Failed, Some(summary))
      else (Failed, Some("Unexpected agent result status: " + status))
  }

  /** What an outcome means for the run that had it: an exception fails it with its text; a result that says so
      completes, pauses or fails it, the last with its summary; any other result fails it. */
  predicate EndsAs(status: Status, error: Option<string>, o: Outcome) {
    match o
    case Raised(text) => status == Failed && error == Some(text)
    case Returned(said, summary) =>
      && (said == "completed" ==> status == Completed && error == None)
      && (said == "paused" ==> status == Paused && error == None)
      && (said == "failed" ==> status == Failed && error == Some(summary))
      && (said !in ["completed", "paused", "failed"] ==>
            status == Failed && error == Some("Unexpected agent result status: " + said))
  }

  /** A task that was worked on, and the run of this attempt: they end as the outcome says, and the task is let go. */
  predicate WorkedOn(task: Task, run: TaskRun, t: TaskId, attempt: nat, worker: string, o: Outcome) {
    && run.task == t && run.attempt == attempt && run.worker == worker
    && run.status == task.status && EndsAs(run.status, run.error, o)
    && task.worker == None && task.startedAt.Some? && run.startedAt.Some? && run.completedAt.Some?
    && (task.completedAt == None <==> task.status == Paused)
  }

  // ---------- The operations ----------

  class Queue {
    var db: Db

    constructor ()
      ensures Valid() && db == Db(map[], [])
    {
      db := Db(map[], []);
    }

    /** The rows are as some run of the protocol left them. */
    ghost predicate Valid()
      reads this
    {
      Numbered(db.runs) && Mirrored(db)
    }

    /** `claim_next_task` */
    method ClaimNextTask(worker: string, workspace: Option<nat>, now: Time) returns (claimed: Option<TaskId>)
      requires Valid()
      modifies this
      ensures Valid()
      ensures claimed.None? <==> old(PendingTasks(db, workspace)) == {}
      ensures claimed.None? ==> db == old(db)
      ensures claimed.Some? ==>
                && ClaimChoice(Lone(old(db)), claimed.value, workspace)
                && db == ClaimedDb(old(db), claimed.value, worker, Count(old(db.runs), claimed.value) + 1, now)
      ensures claimed == None ==> forall t | t in old(db).tasks :: !MayClaim(old(db).tasks[t], workspace)
      ensures claimed.Some? ==>
                && ClaimLeft(old(db), db, claimed.value, worker, now) && MayClaim(old(db).tasks[claimed.value], workspace)
                && forall t | t in old(db).tasks && MayClaim(old(db).tasks[t], workspace) ::
                     ComesFirst(old(db).tasks[claimed.value], old(db).tasks[t])
    {
      claimed := PickPending(db, workspace);
      if claimed.Some? {
        ClaimedFirst(db, claimed.value, workspace);
        ClaimLeaves(db, claimed.value, worker, now);
        WriteClaim(claimed.value, worker, now);
      } else {
        NoneToClaim(db, workspace);
      }
    }

    /** The query for the row to claim. */
    static method PickPending(db: Db, workspace: Option<nat>) returns (picked: Option<TaskId>)
      ensures picked.None? <==> PendingTasks(db, workspace) == {}
      ensures picked.Some? ==> picked.value in db.tasks && ClaimChoice(Lone(db), picked.value, workspace)
    {
      var pending := PendingTasks(db, workspace);
      if pending == {} {
        return None;
      }
      var t := PickFirst(db, pending);
      ClaimsFirst(db, workspace, t);
      picked := Some(t);
    }

    /** The row and its new run, once the row is locked. */
    method WriteClaim(t: TaskId, worker: string, now: Time)
      requires Valid() && t in db.tasks
      modifies this
      ensures Valid()
      ensures db == ClaimedDb(old(db), t, worker, Count(old(db).runs, t) + 1, now)
    {
      var task := StartTask(db.tasks[t], worker, now);
      var run := ClaimRun(t, worker, MaxAttempt(db.runs, t) + 1, now);
      MaxIsCount(db.runs, t);
      ClaimedRuns(db, t, run, Db(db.tasks[t := task], db.runs + [run]));
      db := Db(db.tasks[t := task], db.runs + [run]);
    }

    static method StartTask(task0: Task, worker: string, now: Time) returns (task: Task)
      ensures task == ClaimedTask(task0, worker, now)
    {
      task := task0.(status := Running, worker := Some(worker));
      if task.startedAt == None {
        task := task.(startedAt := Some(now));
      }
      task := task.(completedAt := None);
    }

    /** `ORDER BY ... LIMIT 1`: any first row. */
    static method PickFirst(db: Db, pending: set<TaskId>) returns (t: TaskId)
      requires pending != {} && pending <= db.tasks.Keys
      ensures t in pending && forall u | u in pending :: KeyAtMost(db.tasks[t], db.tasks[u])
    {
      ghost var first := FirstExists(db, pending);
      t :| t in pending && forall u | u in pending :: KeyAtMost(db.tasks[t], db.tasks[u]);
    }

    /** `update_task_status` */
    method UpdateTaskStatus(t: TaskId, status: Status, worker: Option<string>, error: Option<string>, now: Time)
        returns (found: bool)
      requires Valid()
      modifies this
      ensures Valid()
      ensures found <==> t in old(db).tasks
      ensures db == if found then UpdatedDb(old(db), t, status, worker, error, LatestRun(old(db).runs, t), now) else old(db)
      ensures found ==> Updates(old(db), db, t, status, worker, error, now)
    {
      if t !in db.tasks {
        return false;
      }
      var task := WriteTask(db.tasks[t], status, worker, now);
      var runs := db.runs;
      var latest := LatestRun(runs, t);
      if latest.Some? {
        var run := WriteRun(runs[latest.value], status, error, now);
        runs := runs[latest.value := run];
      }
      LatestReads(db, t, status, worker, error);
      UpdatedRuns(db, t, status, worker, error, latest, now);
      UpdateMeaning(db, t, status, worker, error, now);
      db := Db(db.tasks[t := task], runs);
      found := true;
    }

    static method WriteTask(task0: Task, status: Status, worker: Option<string>, now: Time) returns (task: Task)
      ensures task == UpdatedTask(task0, status, worker, now)
    {
      task := task0.(status := status);
      if status == Running {
        task := task.(worker := if worker.Some? && worker.value != "" then worker else task.worker);
        if task.startedAt == None {
          task := task.(startedAt := Some(now));
        }
        task := task.(completedAt := None);
      } else if status == Pending || status == Paused {
        task := task.(worker := None, completedAt := None);
      } else {
        task := task.(worker := None, completedAt := Some(now));
      }
    }

    static method WriteRun(run0: TaskRun, status: Status, error: Option<string>, now: Time) returns (run: TaskRun)
      ensures run == UpdatedRun(run0, status, error, now)
    {
      run := run0.(status := status);
      if status == Running && run.startedAt == None {
        run := run.(startedAt := Some(now));
      }
      if Terminal(status) || status == Paused {
        run := run.(completedAt := Some(now));
      }
      if error.Some? {
        run := run.(error := error);
      }
    }

    /** The body of `worker_loop`: claim, run, record what the agent made of it. */
    method ProcessNext(worker: string, outcomes: TaskId -> Outcome, now: Time, later: Time) returns (claimed: Option<TaskId>)
      requires Valid()
      modifies this
      ensures Valid()
      ensures claimed.None? <==> old(PendingTasks(db, None)) == {}
      ensures claimed.None? ==> db == old(db)
      ensures claimed.Some? ==>
                && ClaimChoice(Lone(old(db)), claimed.value, None)
                && Round(old(db), db, claimed.value, worker, outcomes(claimed.value))
    {
      claimed := ClaimNextTask(worker, None, now);
      if claimed.Some? {
        RecordOutcome(old(db), worker, now, claimed.value, outcomes(claimed.value), later);
      }
    }

    /** `complete_task`, `pause_task` or `fail_task` of the task just claimed, as the outcome says */
    method RecordOutcome(ghost before: Db, worker: string, ghost since: Time, t: TaskId, o: Outcome, now: Time)
      requires Valid() && Numbered(before.runs) && t in before.tasks
      requires db == ClaimedDb(before, t, worker, Count(before.runs, t) + 1, since)
      modifies this
      ensures Valid() && Round(before, db, t, worker, o)
    {
      ghost var db1 := db;
      var (status, error) := Recorded(o);
      var found := UpdateTaskStatus(t, status, None, error, now);
      RecordedEnds(o);
      ClaimThenUpdate(before, t, worker, since, db1, status, error, o, now, db);
    }

    /** `worker_loop` while no one else writes: it returns at the first poll that finds nothing, or
        after one task when `once` is set. `outcomes` is what the agent makes of each task. */
    method WorkerLoop(worker: string, once: bool, outcomes: TaskId -> Outcome, clock: nat -> Time)
        returns (claimed: seq<TaskId>)
      requires Valid()
      modifies this
      ensures Valid()
      ensures !once ==> IsListing(old(db), {Pending}, None, |claimed|, claimed)
      ensures !once ==> Elements(claimed) == PendingTasks(old(db), None) && PendingTasks(db, None) == {}
      ensures once ==> IsListing(old(db), {Pending}, None, 1, claimed)
      ensures Rows(old(db), db, claimed, worker, outcomes)
    {
      claimed := [];
      var tick := 0;
      while true
        invariant Valid()
        invariant once ==> claimed == []
        invariant Progress(old(db), db, claimed, worker, outcomes)
        decreases |PendingTasks(db, None)|
      {
        ghost var before := db;
        var next := ProcessNext(worker, outcomes, clock(tick), clock(tick + 1));
        if next == None {
          break;
        }
        ProgressStep(old(db), before, claimed, worker, outcomes, next.value, db);
        claimed := claimed + [next.value];
        tick := tick + 2;
        if once {
          break;
        }
      }
      HasListed(old(db), db, claimed, worker, outcomes, once);
    }
  }

  lemma ClaimedFirst(db: Db, t: TaskId, workspace: Option<nat>)
    requires ClaimChoice(Lone(db), t, workspace)
    ensures MayClaim(db.tasks[t], workspace)
    ensures forall u | u in db.tasks && MayClaim(db.tasks[u], workspace) :: ComesFirst(db.tasks[t], db.tasks[u])
  {
    forall u | u in db.tasks && MayClaim(db.tasks[u], workspace)
      ensures ComesFirst(db.tasks[t], db.tasks[u])
    {
      assert Claimable(Lone(db), u, workspace);
      KeyMeaning(db.tasks[t], db.tasks[u]);
    }
  }

  lemma NoneToClaim(db: Db, workspace: Option<nat>)
    requires PendingTasks(db, workspace) == {}
    ensures forall t | t in db.tasks :: !MayClaim(db.tasks[t], workspace)
  {
    forall t | t in db.tasks
      ensures !MayClaim(db.tasks[t], workspace)
    {
      assert t !in PendingTasks(db, workspace);
    }
  }

  lemma ClaimsFirst(db: Db, workspace: Option<nat>, t: TaskId)
    requires t in PendingTasks(db, workspace)
    requires forall u | u in PendingTasks(db, workspace) :: KeyAtMost(db.tasks[t], db.tasks[u])
    ensures ClaimChoice(Lone(db), t, workspace)
  {
    forall u | Claimable(Lone(db), u, workspace)
      ensures KeyAtMost(db.tasks[t], db.tasks[u])
    {
      assert u in PendingTasks(db, workspace);
    }
  }

  /** What one round does to the rows: a run of `t` is added, in which it ends as the outcome says; every other
      row is as it was. */
  ghost predicate Round(db: Db, db': Db, t: TaskId, worker: string, o: Outcome) {
    && t in db.tasks && db'.tasks.Keys == db.tasks.Keys
    && (forall u | u in db.tasks && u != t :: db'.tasks[u] == db.tasks[u])
    && |db'.runs| == |db.runs| + 1 && db'.runs[..|db.runs|] == db.runs
    && WorkedOn(db'.tasks[t], db'.runs[|db.runs|], t, Count(db.runs, t) + 1, worker, o)
  }

  lemma ClaimThenUpdate(db: Db, t: TaskId, worker: string, now: Time, db1: Db, status: Status, error: Option<string>,
      o: Outcome, later: Time, db2: Db)
    requires Numbered(db.runs) && t in db.tasks && db1 == ClaimedDb(db, t, worker, Count(db.runs, t) + 1, now)
    requires db2 == UpdatedDb(db1, t, status, None, error, LatestRun(db1.runs, t), later)
    requires EndsAs(status, error, o) && status in {Completed, Paused, Failed}
    ensures Round(db, db2, t, worker, o)
  {
    var task, run := ClaimedTask(db.tasks[t], worker, now), ClaimRun(t, worker, Count(db.runs, t) + 1, now);
    var updated := UpdatedRun(run, status, error, later);
    LatestIsNew(db.runs, run, db1.runs);
    WrittenTwice(db, t, task, run, UpdatedTask(task, status, None, later), updated, db1, db2);
    OutcomeEnds(task, run, t, status, error, o, later);
    RoundOf(db, db2, t, UpdatedTask(task, status, None, later), updated, worker, o);
  }

  lemma WrittenTwice(db: Db, t: TaskId, task: Task, run: TaskRun, task': Task, run': TaskRun, db1: Db, db2: Db)
    requires t in db.tasks && db1 == Db(db.tasks[t := task], db.runs + [run])
    requires db2 == Db(db1.tasks[t := task'], db1.runs[|db.runs| := run'])
    ensures db2.tasks.Keys == db.tasks.Keys && db2.tasks[t] == task'
    ensures forall u | u in db.tasks && u != t :: db2.tasks[u] == db.tasks[u]
    ensures db2.runs == db.runs + [run']
  {
    UpdatesLast(db.runs, run, run');
  }

  lemma RecordedEnds(o: Outcome)
    ensures EndsAs(Recorded(o).0, Recorded(o).1, o) && Recorded(o).0 in {Completed, Paused, Failed}
  {
  }

  lemma RoundOf(db: Db, db2: Db, t: TaskId, task: Task, run: TaskRun, worker: string, o: Outcome)
    requires t in db.tasks && db2.tasks.Keys == db.tasks.Keys && db2.tasks[t] == task
    requires forall u | u in db.tasks && u != t :: db2.tasks[u] == db.tasks[u]
    requires db2.runs == db.runs + [run] && WorkedOn(task, run, t, Count(db.runs, t) + 1, worker, o)
    ensures Round(db, db2, t, worker, o)
  {
    AfterPrefix(db.runs, [run]);
  }

  lemma UpdatesLast(runs: seq<TaskRun>, run: TaskRun, updated: TaskRun)
    ensures (runs + [run])[|runs| := updated] == runs + [updated]
  {
  }

  /** The latest run of a task just claimed is the new one. */
  lemma LatestIsNew(runs: seq<TaskRun>, run: TaskRun, now: seq<TaskRun>)
    requires Numbered(runs) && run.attempt == Count(runs, run.task) + 1 && now == runs + [run]
    ensures LatestRun(now, run.task) == Some(|runs|)
  {
    EarlierAttempts(runs, run.task);
    LatestRunChosen(now, run.task);
    assert now[|runs|] == run;
    assert forall r | 0 <= r < |runs| :: now[r] == runs[r];
  }

  lemma OutcomeEnds(task: Task, run: TaskRun, t: TaskId, status: Status, error: Option<string>, o: Outcome, later: Time)
    requires run.task == t && run.error == None && task.startedAt.Some? && run.startedAt.Some?
    requires EndsAs(status, error, o) && status in {Completed, Paused, Failed}
    ensures WorkedOn(UpdatedTask(task, status, None, later), UpdatedRun(run, status, error, later), t, run.attempt,
                     run.worker, o)
  {
  }

  lemma ProgressStep(before: Db, db: Db, claimed: seq<TaskId>, worker: string, outcomes: TaskId -> Outcome, t: TaskId, db': Db)
    requires Progress(before, db, claimed, worker, outcomes) && ClaimChoice(Lone(db), t, None)
    requires Round(db, db', t, worker, outcomes(t))
    ensures Progress(before, db', claimed + [t], worker, outcomes)
    ensures t in PendingTasks(db, None)
    ensures PendingTasks(db', None) == PendingTasks(db, None) - {t}
  {
    FirstPending(before, db, claimed, worker, outcomes, t);
    RowsStep(before, db, claimed, worker, outcomes, t, db');
    OrderedSnoc(before, claimed, t);
    OneLessPending(db, db', t, worker, outcomes(t));
    assert forall u :: u in claimed + [t] <==> u in claimed || u == t;
  }

  lemma FirstPending(before: Db, db: Db, claimed: seq<TaskId>, worker: string, outcomes: TaskId -> Outcome, t: TaskId)
    requires Progress(before, db, claimed, worker, outcomes) && ClaimChoice(Lone(db), t, None)
    ensures IsPending(db, t) && t !in claimed && t in PendingTasks(db, None)
    ensures forall u | IsPending(db, u) :: KeyAtMost(before.tasks[t], before.tasks[u])
  {
    assert IsPending(db, t) && t !in claimed;
    forall u | IsPending(db, u)
      ensures KeyAtMost(before.tasks[t], before.tasks[u])
    {
      assert Claimable(Lone(db), u, None);
      assert u !in claimed;
    }
  }

  lemma OneLessPending(db: Db, db': Db, t: TaskId, worker: string, o: Outcome)
    requires IsPending(db, t) && Round(db, db', t, worker, o)
    ensures forall u :: IsPending(db', u) <==> IsPending(db, u) && u != t
    ensures PendingTasks(db', None) == PendingTasks(db, None) - {t}
  {
    assert forall u :: u in PendingTasks(db, None) <==> IsPending(db, u);
    assert forall u :: u in PendingTasks(db', None) <==> IsPending(db', u);
  }

  lemma RowsStep(before: Db, db: Db, claimed: seq<TaskId>, worker: string, outcomes: TaskId -> Outcome, t: TaskId, db': Db)
    requires Rows(before, db, claimed, worker, outcomes) && IsPending(db, t) && t !in claimed
    requires Round(db, db', t, worker, outcomes(t))
    ensures Rows(before, db', claimed + [t], worker, outcomes)
  {
    var more := claimed + [t];
    assert forall u :: u in more <==> u in claimed || u == t;
    RunsStep(before.runs, db.runs, db'.runs, t);
    assert t in before.tasks && before.tasks[t] == db.tasks[t] && Count(db.runs, t) == Count(before.runs, t);
    NewRow(before, db, t, worker, outcomes, db');
    forall k | 0 <= k < |more|
      ensures ClaimedRow(before, db', more[k], |before.runs| + k, worker, outcomes)
    {
      if k < |claimed| {
        assert ClaimedRow(before, db, claimed[k], |before.runs| + k, worker, outcomes);
        RowStays(before, db, claimed[k], t, |before.runs| + k, worker, outcomes, db');
      } else {
        assert more[k] == t && |before.runs| + k == |db.runs|;
      }
    }
  }

  lemma RunsStep(before: seq<TaskRun>, runs: seq<TaskRun>, runs': seq<TaskRun>, t: TaskId)
    requires |before| <= |runs| && runs[..|before|] == before && |runs'| == |runs| + 1 && runs'[..|runs|] == runs
    requires runs'[|runs|].task == t
    ensures runs'[..|before|] == before
    ensures forall u :: Count(runs', u) == Count(runs, u) + if u == t then 1 else 0
  {
    assert runs' == runs + [runs'[|runs|]];
    CountsAfter(runs, runs'[|runs|]);
    assert runs'[..|before|] == runs[..|before|];
  }

  lemma NewRow(before: Db, db: Db, t: TaskId, worker: string, outcomes: TaskId -> Outcome, db': Db)
    requires IsPending(db, t) && t in before.tasks && before.tasks[t] == db.tasks[t]
    requires Count(db.runs, t) == Count(before.runs, t) && Round(db, db', t, worker, outcomes(t))
    ensures ClaimedRow(before, db', t, |db.runs|, worker, outcomes)
  {
  }

  lemma RowStays(before: Db, db: Db, u: TaskId, t: TaskId, r: nat, worker: string, outcomes: TaskId -> Outcome, db': Db)
    requires ClaimedRow(before, db, u, r, worker, outcomes) && u != t && Round(db, db', t, worker, outcomes(t))
    ensures ClaimedRow(before, db', u, r, worker, outcomes)
  {
    assert db'.runs[r] == db'.runs[..|db.runs|][r];
  }

  lemma OrderedSnoc(db: Db, ids: seq<TaskId>, t: TaskId)
    requires Ordered(db, ids) && t in db.tasks && t !in ids
    requires forall u | u in ids :: KeyAtMost(db.tasks[u], db.tasks[t])
    ensures Ordered(db, ids + [t])
  {
  }

  lemma Unclaimed(before: Db, db: Db, claimed: seq<TaskId>, worker: string, outcomes: TaskId -> Outcome)
    requires Rows(before, db, claimed, worker, outcomes)
    ensures forall t :: IsPending(db, t) <==> IsPending(before, t) && t !in claimed
  {
  }

  lemma PendingSet(db: Db)
    ensures forall t :: t in PendingTasks(db, None) <==> IsPending(db, t)
  {
  }

  /** A finished worker has listed exactly the pending rows. */
  lemma AllListed(before: Db, db: Db, claimed: seq<TaskId>, worker: string, outcomes: TaskId -> Outcome)
    requires Progress(before, db, claimed, worker, outcomes) && PendingTasks(db, None) == {}
    ensures IsListing(before, {Pending}, None, |claimed|, claimed)
    ensures Elements(claimed) == PendingTasks(before, None)
  {
    Unclaimed(before, db, claimed, worker, outcomes);
    PendingSet(db);
    PendingSet(before);
  }

  /** A worker that stops after one task has listed the first of the pending rows. */
  lemma FirstListed(before: Db, db: Db, claimed: seq<TaskId>, worker: string, outcomes: TaskId -> Outcome)
    requires Progress(before, db, claimed, worker, outcomes) && |claimed| == 1
    ensures IsListing(before, {Pending}, None, 1, claimed)
  {
    Unclaimed(before, db, claimed, worker, outcomes);
  }

  /** What a worker has listed when it stops. */
  lemma HasListed(before: Db, db: Db, claimed: seq<TaskId>, worker: string, outcomes: TaskId -> Outcome, once: bool)
    requires Progress(before, db, claimed, worker, outcomes)
    requires (once && |claimed| == 1) || PendingTasks(db, None) == {}
    requires once ==> |claimed| <= 1
    ensures !once ==> IsListing(before, {Pending}, None, |claimed|, claimed)
    ensures !once ==> Elements(claimed) == PendingTasks(before, None)
    ensures once ==> IsListing(before, {Pending}, None, 1, claimed)
  {
    if |claimed| == 1 {
      FirstListed(before, db, claimed, worker, outcomes);
    }
    if PendingTasks(db, None) == {} {
      AllListed(before, db, claimed, worker, outcomes);
    }
  }

  lemma LatestReads(db: Db, t: TaskId, status: Status, worker: Option<string>, error: Option<string>)
    requires Numbered(db.runs) && t in db.tasks
    ensures ReadsHold(db, UpdatingRun(t, status, worker, error, LatestRun(db.runs, t)))
  {
    var runs, n := db.runs, Count(db.runs, t);
    LatestRunChosen(runs, t);
    if n > 0 {
      var last := AttemptExists(runs, t, n);
    }
    EarlierAttempts(runs, t);
    if LatestRun(runs, t).Some? {
      AttemptRange(runs, LatestRun(runs, t).value);
    }
  }

  predicate IsPending(db: Db, t: TaskId) {
    t in db.tasks && db.tasks[t].status == Pending
  }

  /** A task that was pending, and its new run `r`. */
  predicate ClaimedRow(before: Db, db: Db, t: TaskId, r: nat, worker: string, outcomes: TaskId -> Outcome) {
    && IsPending(before, t) && t in db.tasks && r < |db.runs|
    && WorkedOn(db.tasks[t], db.runs[r], t, Count(before.runs, t) + 1, worker, outcomes(t))
  }

  /** One run was added for each task claimed, in the order of the claims, and each of these tasks and runs ended as
      its outcome says; every other row is as it was. */
  ghost predicate Rows(before: Db, db: Db, claimed: seq<TaskId>, worker: string, outcomes: TaskId -> Outcome) {
    && db.tasks.Keys == before.tasks.Keys
    && |db.runs| == |before.runs| + |claimed| && db.runs[..|before.runs|] == before.runs
    && (forall k | 0 <= k < |claimed| :: ClaimedRow(before, db, claimed[k], |before.runs| + k, worker, outcomes))
    && (forall t | t in db.tasks && t !in claimed :: db.tasks[t] == before.tasks[t])
    && (forall t | t !in claimed :: Count(db.runs, t) == Count(before.runs, t))
  }

  /** How far a worker has come: what it claimed came in order, and before all that is still pending. */
  ghost predicate Progress(before: Db, db: Db, claimed: seq<TaskId>, worker: string, outcomes: TaskId -> Outcome) {
    && Rows(before, db, claimed, worker, outcomes)
    && Ordered(before, claimed)
    && (forall t, u | t in claimed && IsPending(db, u) :: KeyAtMost(before.tasks[t], before.tasks[u]))
  }

  // ---------- The operations are the protocol, run without a break ----------

  /** The three steps of a claim, one after the other from any reachable state, do what
      `Queue.ClaimNextTask` does. */
  lemma ClaimIsThreeSteps(s: State, sid: SessionId, worker: string, workspace: Option<nat>, t: TaskId, now: Time)
    requires Inv(s) && Enabled(s, LockForClaim(sid, worker, workspace, t))
    ensures var s1 := After(s, LockForClaim(sid, worker, workspace, t));
      && Enabled(s1, ReadAttempt(sid))
      && Enabled(After(s1, ReadAttempt(sid)), CommitClaim(sid, now))
      && After(After(s1, ReadAttempt(sid)), CommitClaim(sid, now)).db
         == ClaimedDb(s.db, t, worker, Count(s.db.runs, t) + 1, now)
  {
    var s1 := After(s, LockForClaim(sid, worker, workspace, t));
    LocksForClaim(s, sid, worker, workspace, t);
    MaxIsCount(s.db.runs, t);
    ReadsNext(s1, sid, worker, t, Count(s.db.runs, t) + 1);
    NextAttemptIsFree(s.db, t);
    CommitsClaim(After(s1, ReadAttempt(sid)), sid, worker, t, Count(s.db.runs, t) + 1, now);
  }

  lemma LocksForClaim(s: State, sid: SessionId, worker: string, workspace: Option<nat>, t: TaskId)
    requires Enabled(s, LockForClaim(sid, worker, workspace, t))
    ensures var s1 := After(s, LockForClaim(sid, worker, workspace, t));
      s1.db == s.db && t in s.db.tasks && s1.PhaseOf(sid) == Claiming(t, worker)
  {
  }

  lemma ReadsNext(s: State, sid: SessionId, worker: string, t: TaskId, next: nat)
    requires s.PhaseOf(sid) == Claiming(t, worker) && next == MaxAttempt(s.db.runs, t) + 1
    ensures Enabled(s, ReadAttempt(sid))
    ensures var s1 := After(s, ReadAttempt(sid));
      s1.db == s.db && s1.PhaseOf(sid) == Claimed(t, worker, next)
  {
  }

  lemma NextAttemptIsFree(db: Db, t: TaskId)
    requires Numbered(db.runs)
    ensures !Duplicate(db, t, Count(db.runs, t) + 1)
  {
    EarlierAttempts(db.runs, t);
  }

  lemma CommitsClaim(s: State, sid: SessionId, worker: string, t: TaskId, attempt: nat, now: Time)
    requires s.PhaseOf(sid) == Claimed(t, worker, attempt) && t in s.db.tasks && !Duplicate(s.db, t, attempt)
    ensures Enabled(s, CommitClaim(sid, now))
    ensures After(s, CommitClaim(sid, now)).db == ClaimedDb(s.db, t, worker, attempt, now)
  {
  }

  /** The three steps of an update do what `Queue.UpdateTaskStatus` does. */
  lemma UpdateIsThreeSteps(s: State, sid: SessionId, t: TaskId, status: Status, worker: Option<string>, error: Option<string>, now: Time)
    requires Inv(s) && Enabled(s, LockForUpdate(sid, t, status, worker, error))
    ensures var s1 := After(s, LockForUpdate(sid, t, status, worker, error));
      var lock := LockRun(sid, LatestRun(s.db.runs, t));
      && Enabled(s1, lock)
      && Enabled(After(s1, lock), CommitUpdate(sid, now))
      && After(After(s1, lock), CommitUpdate(sid, now)).db
         == UpdatedDb(s.db, t, status, worker, error, LatestRun(s.db.runs, t), now)
  {
    var s1 := After(s, LockForUpdate(sid, t, status, worker, error));
    StepKeeps(s, LockForUpdate(sid, t, status, worker, error));
    LatestRunChosen(s.db.runs, t);
    assert HoldsTask(s1, sid);
    forall r | r in s1.runLock
      ensures HoldsTask(s1, s1.runLock[r]) && s1.db.runs[r].task != t
    {
    }
    assert RunChoice(s1, t, LatestRun(s.db.runs, t));
  }

  /** The two steps of a change of priority leave that priority on the task, and all else as it was. */
  lemma PriorityIsTwoSteps(s: State, sid: SessionId, t: TaskId, priority: Priority)
    requires Enabled(s, LockForPriority(sid, t, priority))
    ensures var s1 := After(s, LockForPriority(sid, t, priority));
      && Enabled(s1, CommitPriority(sid))
      && After(s1, CommitPriority(sid)).db == s.db.(tasks := s.db.tasks[t := s.db.tasks[t].(priority := priority)])
  {
  }
}
