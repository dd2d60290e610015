/** What every interleaving of the queue's sessions keeps (db/task_queue.py). */
module TaskQueueSafety {
  import opened Text
  import opened TaskQueue

  // ---------- Attempts ----------

  /** The k-th run of each task is its attempt k. */
  ghost predicate Numbered(runs: seq<TaskRun>) {
    forall r | 0 <= r < |runs| :: runs[r].attempt == Count(runs[..r], runs[r].task) + 1
  }

  lemma CountAppend(runs: seq<TaskRun>, run: TaskRun, t: TaskId)
    ensures Count(runs + [run], t) == Count(runs, t) + if run.task == t then 1 else 0
  {
    assert (runs + [run])[..|runs|] == runs;
  }

  lemma {:induction false} CountPrefix(runs: seq<TaskRun>, k: nat, t: TaskId)
    requires k <= |runs|
    ensures Count(runs[..k], t) <= Count(runs, t)
    ensures k < |runs| && runs[k].task == t ==> Count(runs[..k], t) < Count(runs, t)
    decreases |runs|
  {
    if k == |runs| {
      assert runs[..k] == runs;
    } else {
      var init := runs[..|runs| - 1];
      assert init[..k] == runs[..k];
      CountPrefix(init, k, t);
    }
  }

  /** Rewriting a run without changing its task changes no count. */
  lemma {:induction false} CountUpdate(runs: seq<TaskRun>, r: nat, run: TaskRun, t: TaskId)
    requires r < |runs| && run.task == runs[r].task
    ensures Count(runs[r := run], t) == Count(runs, t)
    decreases |runs|
  {
    var n := |runs| - 1;
    var updated := runs[r := run];
    if r == n {
      assert updated[..n] == runs[..n];
    } else {
      assert updated[..n] == runs[..n][r := run];
      CountUpdate(runs[..n], r, run, t);
    }
  }

  lemma AttemptRange(runs: seq<TaskRun>, r: nat)
    requires Numbered(runs) && r < |runs|
    ensures 1 <= runs[r].attempt <= Count(runs, runs[r].task)
  {
    CountPrefix(runs, r, runs[r].task);
  }

  lemma {:induction false} MaxIsCount(runs: seq<TaskRun>, t: TaskId)
    requires Numbered(runs)
    ensures MaxAttempt(runs, t) == Count(runs, t)
  {
    if runs != [] {
      NumberedPrefix(runs, |runs| - 1);
      MaxIsCount(runs[..|runs| - 1], t);
    }
  }

  lemma NumberedPrefix(runs: seq<TaskRun>, k: nat)
    requires Numbered(runs) && k <= |runs|
    ensures Numbered(runs[..k])
  {
    forall r | 0 <= r < k
      ensures runs[..k][r].attempt == Count(runs[..k][..r], runs[..k][r].task) + 1
    {
      assert runs[..k][..r] == runs[..r];
    }
  }

  lemma NumberedAppend(runs: seq<TaskRun>, run: TaskRun)
    requires Numbered(runs) && run.attempt == Count(runs, run.task) + 1
    ensures Numbered(runs + [run])
  {
    var all := runs + [run];
    forall r | 0 <= r < |all|
      ensures all[r].attempt == Count(all[..r], all[r].task) + 1
    {
      assert all[..r] == runs[..r];
      assert runs[..|runs|] == runs;
    }
  }

  lemma NumberedUpdate(runs: seq<TaskRun>, k: nat, run: TaskRun)
    requires Numbered(runs) && k < |runs| && run.task == runs[k].task && run.attempt == runs[k].attempt
    ensures Numbered(runs[k := run])
  {
    var all := runs[k := run];
    forall r | 0 <= r < |all|
      ensures all[r].attempt == Count(all[..r], all[r].task) + 1
    {
      if k < r {
        assert all[..r] == runs[..r][k := run];
        CountUpdate(runs[..r], k, run, all[r].task);
      } else {
        assert all[..r] == runs[..r];
      }
    }
  }

  /** Two runs of a task are different attempts, in the order of their rows. */
  lemma AttemptsDiffer(runs: seq<TaskRun>, r: nat, q: nat)
    requires Numbered(runs) && r < q < |runs| && runs[r].task == runs[q].task
    ensures runs[r].attempt < runs[q].attempt
  {
    var t := runs[r].task;
    assert runs[..q][..r] == runs[..r];
    CountPrefix(runs[..q], r, t);
  }

  /** Attempts 1..n all exist. */
  lemma {:induction false} AttemptExists(runs: seq<TaskRun>, t: TaskId, k: nat) returns (r: nat)
    requires Numbered(runs) && 1 <= k <= Count(runs, t)
    ensures r < |runs| && runs[r].task == t && runs[r].attempt == k
  {
    var n := |runs| - 1;
    if runs[n].task == t && runs[n].attempt == k {
      r := n;
    } else {
      NumberedPrefix(runs, n);
      r := AttemptExists(runs[..n], t, k);
    }
  }

  // ---------- The log ----------

  /** The last committed event about a task. */
  function LastEvent(log: seq<Event>, t: TaskId): Option<Event> {
    if log == [] then None
    else if log[|log| - 1].task == t then Some(log[|log| - 1])
    else LastEvent(log[..|log| - 1], t)
  }

  function StatusSet(e: Event): Status {
    match e
    case Created(_, status, _) => status
    case ClaimDone(_, _) => Running
    case UpdateDone(_, status) => status
  }

  predicate LastSets(log: seq<Event>, t: TaskId, status: Status) {
    LastEvent(log, t).Some? && StatusSet(LastEvent(log, t).value) == status
  }

  /** How often a task was claimed. */
  function Claims(log: seq<Event>, t: TaskId): nat {
    if log == [] then 0 else
      var last := log[|log| - 1];
      Claims(log[..|log| - 1], t) + (if last.ClaimDone? && last.task == t then 1 else 0)
  }

  lemma LogAppend(log: seq<Event>, e: Event, t: TaskId)
    ensures LastEvent(log + [e], t) == if e.task == t then Some(e) else LastEvent(log, t)
    ensures Claims(log + [e], t) == Claims(log, t) + if e.ClaimDone? && e.task == t then 1 else 0
  {
    assert (log + [e])[..|log|] == log;
  }

  /** A claim finds its task pending and draws the next attempt number; a creation is new. */
  ghost predicate EventSound(before: seq<Event>, e: Event) {
    match e
    case ClaimDone(t, attempt) => LastSets(before, t, Pending) && attempt == Claims(before, t) + 1
    case Created(t, _, _) => LastEvent(before, t) == None
    case UpdateDone(t, _) => LastEvent(before, t) != None
  }

  ghost predicate LogSound(log: seq<Event>) {
    forall i | 0 <= i < |log| :: EventSound(log[..i], log[i])
  }

  lemma LogSoundAppend(log: seq<Event>, e: Event)
    requires LogSound(log) && EventSound(log, e)
    ensures LogSound(log + [e])
  {
    var all := log + [e];
    forall i | 0 <= i < |all|
      ensures EventSound(all[..i], all[i])
    {
      assert all[..i] == log[..i];
      assert log[..|log|] == log;
    }
  }

  /** `completed_at` is set exactly in a terminal state, and only a running task has a worker. */
  predicate Settled(task: Task) {
    (task.completedAt.Some? <==> Terminal(task.status)) && (task.worker.Some? ==> task.status == Running)
  }

  /** The event leaves a settled row: only a creation with an odd status or worker does not. */
  predicate Settles(e: Event) {
    e.Created? ==> !Terminal(e.status) && (e.worker.Some? ==> e.status == Running)
  }

  // ---------- The invariant ----------

  /** A session's phase and its locks name the same rows. A run's lock is held only by the session
      that holds the lock of the run's task. */
  ghost predicate Locks(s: State) {
    && (forall t | t in s.taskLock :: !s.PhaseOf(s.taskLock[t]).Idle? && s.PhaseOf(s.taskLock[t]).task == t)
    && (forall r | r in s.runLock ::
          && r < |s.db.runs|
          && s.PhaseOf(s.runLock[r]).UpdatingRun? && s.PhaseOf(s.runLock[r]).run == Some(r)
          && s.db.runs[r].task == s.PhaseOf(s.runLock[r]).task)
    && (forall sid :: !s.PhaseOf(sid).Idle? ==> HoldsTask(s, sid))
  }

  ghost predicate HoldsTask(s: State, sid: SessionId) {
    !s.PhaseOf(sid).Idle? &&
    var t := s.PhaseOf(sid).task;
    t in s.db.tasks && t in s.taskLock && s.taskLock[t] == sid
  }

  /** What a session has read of the rows it holds is still so. */
  ghost predicate ReadsHold(db: Db, p: Phase) {
    match p
    case Claiming(t, _) => t in db.tasks && db.tasks[t].status == Pending
    case Claimed(t, _, attempt) => t in db.tasks && db.tasks[t].status == Pending && attempt == Count(db.runs, t) + 1
    case UpdatingRun(t, _, _, _, run) =>
      match run {
        case None => Count(db.runs, t) == 0
        case Some(r) => r < |db.runs| && db.runs[r].task == t && db.runs[r].attempt == Count(db.runs, t)
      }
    case _ => true
  }

  /** The latest run of a task has the task's status. */
  ghost predicate Mirrored(db: Db) {
    forall r | 0 <= r < |db.runs| ::
      db.runs[r].task in db.tasks &&
      (db.runs[r].attempt == Count(db.runs, db.runs[r].task) ==> db.runs[r].status == db.tasks[db.runs[r].task].status)
  }

  /** The log tells each row's status, its number of attempts, and whether it is settled. */
  ghost predicate LogTells(db: Db, log: seq<Event>, t: TaskId) {
    && (t !in db.tasks ==> LastEvent(log, t) == None)
    && (t in db.tasks ==> LastSets(log, t, db.tasks[t].status) && (Settled(db.tasks[t]) <==> Settles(LastEvent(log, t).value)))
    && Claims(log, t) == Count(db.runs, t)
  }

  ghost predicate DbInv(db: Db, log: seq<Event>) {
    Numbered(db.runs) && Mirrored(db) && LogSound(log) && forall t :: LogTells(db, log, t)
  }

  ghost predicate Inv(s: State) {
    Locks(s) && DbInv(s.db, s.log) && forall sid :: ReadsHold(s.db, s.PhaseOf(sid))
  }

  // ---------- Steps that write no row ----------

  lemma TaskLockKeeps(s: State, sid: SessionId, t: TaskId, p: Phase)
    requires Inv(s) && s.PhaseOf(sid).Idle? && t in s.db.tasks && t !in s.taskLock
    requires !p.Idle? && !p.UpdatingRun? && p.task == t && ReadsHold(s.db, p)
    ensures Inv(s.(taskLock := s.taskLock[t := sid], sessions := s.sessions[sid := p]))
  {
    var s' := s.(taskLock := s.taskLock[t := sid], sessions := s.sessions[sid := p]);
    forall x
      ensures s'.PhaseOf(x) == if x == sid then p else s.PhaseOf(x)
      ensures !s'.PhaseOf(x).Idle? ==> HoldsTask(s', x)
    {
      assert x != sid && !s.PhaseOf(x).Idle? ==> HoldsTask(s, x);
    }
  }

  lemma ReleaseKeeps(s: State, sid: SessionId)
    requires Inv(s)
    ensures Inv(Release(s, sid))
  {
    var s' := Release(s, sid);
    forall x
      ensures s'.PhaseOf(x) == if x == sid then Idle else s.PhaseOf(x)
      ensures !s'.PhaseOf(x).Idle? ==> HoldsTask(s', x)
    {
      assert x != sid && !s.PhaseOf(x).Idle? ==> HoldsTask(s, x);
    }
  }

  lemma ReadAttemptKeeps(s: State, sid: SessionId)
    requires Inv(s) && Enabled(s, ReadAttempt(sid))
    ensures Inv(After(s, ReadAttempt(sid)))
  {
    var p, s' := s.PhaseOf(sid), After(s, ReadAttempt(sid));
    MaxIsCount(s.db.runs, p.task);
    assert ReadsHold(s.db, p);
    PhaseChangeKeeps(s, sid, Claimed(p.task, p.worker, MaxAttempt(s.db.runs, p.task) + 1));
  }

  lemma PhaseChangeKeeps(s: State, sid: SessionId, p: Phase)
    requires Inv(s) && !s.PhaseOf(sid).Idle? && !s.PhaseOf(sid).UpdatingRun?
    requires !p.Idle? && !p.UpdatingRun? && p.task == s.PhaseOf(sid).task && ReadsHold(s.db, p)
    ensures Inv(s.(sessions := s.sessions[sid := p]))
  {
    var s' := s.(sessions := s.sessions[sid := p]);
    assert HoldsTask(s, sid);
    forall x
      ensures s'.PhaseOf(x) == if x == sid then p else s.PhaseOf(x)
      ensures !s'.PhaseOf(x).Idle? ==> HoldsTask(s', x)
    {
      assert x != sid && !s.PhaseOf(x).Idle? ==> HoldsTask(s, x);
    }
  }

  /** Nobody else can have locked a run of a task that `sid` holds, so SKIP LOCKED skips nothing:
      the run it locks is the task's last attempt. */
  lemma LatestRunIsLatest(s: State, sid: SessionId, run: Option<nat>)
    requires Inv(s) && s.PhaseOf(sid).Updating? && RunChoice(s, s.PhaseOf(sid).task, run)
    ensures forall r: nat | r < |s.db.runs| && s.db.runs[r].task == s.PhaseOf(sid).task :: r !in s.runLock
    ensures match run
      case None => Count(s.db.runs, s.PhaseOf(sid).task) == 0
      case Some(r) => r < |s.db.runs| && s.db.runs[r].task == s.PhaseOf(sid).task
                      && s.db.runs[r].attempt == Count(s.db.runs, s.PhaseOf(sid).task)
  {
    var t := s.PhaseOf(sid).task;
    assert HoldsTask(s, sid);
    forall r | r in s.runLock
      ensures HoldsTask(s, s.runLock[r]) && s.db.runs[r].task != t
    {
    }
    if run.Some? {
      AttemptRange(s.db.runs, run.value);
    }
    if Count(s.db.runs, t) > 0 {
      var last := AttemptExists(s.db.runs, t, Count(s.db.runs, t));
      assert FreeRun(s, t, last);
    }
  }

  lemma LockRunKeeps(s: State, sid: SessionId, run: Option<nat>)
    requires Inv(s) && Enabled(s, LockRun(sid, run))
    ensures Inv(After(s, LockRun(sid, run)))
  {
    var s' := After(s, LockRun(sid, run));
    LatestRunIsLatest(s, sid, run);
    assert HoldsTask(s, sid);
    forall x
      ensures s'.PhaseOf(x) == if x == sid then s'.PhaseOf(sid) else s.PhaseOf(x)
      ensures !s'.PhaseOf(x).Idle? ==> HoldsTask(s', x)
    {
      assert x != sid && !s.PhaseOf(x).Idle? ==> HoldsTask(s, x);
    }
  }

  // ---------- Commits ----------

  /** Rewriting the row of one task, with its runs, leaves what others have read of their tasks. */
  ghost predicate OnlyTask(db: Db, db': Db, t: TaskId) {
    && t in db.tasks && db'.tasks.Keys == db.tasks.Keys
    && (forall u | u in db.tasks && u != t :: db'.tasks[u] == db.tasks[u])
    && (forall u | u != t :: Count(db'.runs, u) == Count(db.runs, u))
    && |db.runs| <= |db'.runs|
    && (forall r | 0 <= r < |db.runs| ::
          db'.runs[r].task == db.runs[r].task && db'.runs[r].attempt == db.runs[r].attempt)
  }

  /** Another session's readings do not depend on the task that is written. */
  lemma OthersRead(s: State, sid: SessionId, x: SessionId, db: Db)
    requires Inv(s) && HoldsTask(s, sid) && OnlyTask(s.db, db, s.PhaseOf(sid).task) && x != sid
    ensures ReadsHold(db, s.PhaseOf(x))
  {
    var p := s.PhaseOf(x);
    if !p.Idle? {
      assert HoldsTask(s, x) && ReadsHold(s.db, p) && p.task != s.PhaseOf(sid).task;
    }
  }

  /** A commit by the session that holds the task: the others keep their locks and readings. */
  lemma CommitKeeps(s: State, sid: SessionId, db: Db, log: seq<Event>)
    requires Inv(s) && HoldsTask(s, sid)
    requires OnlyTask(s.db, db, s.PhaseOf(sid).task) && DbInv(db, log)
    ensures Inv(Release(s, sid).(db := db, log := log))
  {
    var released := Release(s, sid);
    var s' := released.(db := db, log := log);
    ReleaseKeeps(s, sid);
    forall x
      ensures s'.PhaseOf(x) == if x == sid then Idle else s.PhaseOf(x)
      ensures !s'.PhaseOf(x).Idle? ==> HoldsTask(s', x)
      ensures ReadsHold(s'.db, s'.PhaseOf(x))
    {
      assert !released.PhaseOf(x).Idle? ==> HoldsTask(released, x);
      if x != sid {
        OthersRead(s, sid, x, db);
      }
    }
    assert Locks(released);
  }

  lemma ClaimedDbInv(db: Db, log: seq<Event>, t: TaskId, worker: string, n: nat, now: Time, db': Db)
    requires DbInv(db, log) && t in db.tasks && db.tasks[t].status == Pending
    requires n == Count(db.runs, t) + 1 && db' == ClaimedDb(db, t, worker, n, now)
    ensures !Duplicate(db, t, n) && OnlyTask(db, db', t) && DbInv(db', log + [ClaimDone(t, n)])
  {
    var run := ClaimRun(t, worker, n, now);
    ClaimedRuns(db, t, run, db');
    CountsAfter(db.runs, run);
    forall u
      ensures LogTells(db', log + [ClaimDone(t, n)], u)
    {
      assert LogTells(db, log, u);
      LogAppend(log, ClaimDone(t, n), u);
    }
    assert LogTells(db, log, t);
    LogSoundAppend(log, ClaimDone(t, n));
  }

  lemma ClaimedRuns(db: Db, t: TaskId, run: TaskRun, db': Db)
    requires Numbered(db.runs) && Mirrored(db) && t in db.tasks
    requires run.task == t && run.attempt == Count(db.runs, t) + 1
    requires t in db'.tasks && db'.tasks == db.tasks[t := db'.tasks[t]]
    requires db'.runs == db.runs + [run] && db'.tasks[t].status == run.status
    ensures !Duplicate(db, t, run.attempt) && OnlyTask(db, db', t) && Numbered(db'.runs) && Mirrored(db')
  {
    EarlierAttempts(db.runs, t);
    CountsAfter(db.runs, run);
    NumberedAppend(db.runs, run);
    forall r | 0 <= r < |db'.runs|
      ensures db'.runs[r].task in db'.tasks
      ensures db'.runs[r].attempt == Count(db'.runs, db'.runs[r].task) ==> db'.runs[r].status == db'.tasks[db'.runs[r].task].status
    {
      assert db'.runs[r] == if r < |db.runs| then db.runs[r] else run;
    }
  }

  lemma EarlierAttempts(runs: seq<TaskRun>, t: TaskId)
    requires Numbered(runs)
    ensures forall r | 0 <= r < |runs| && runs[r].task == t :: runs[r].attempt <= Count(runs, t)
  {
    forall r | 0 <= r < |runs| && runs[r].task == t
      ensures runs[r].attempt <= Count(runs, t)
    {
      AttemptRange(runs, r);
    }
  }

  lemma CountsAfter(runs: seq<TaskRun>, run: TaskRun)
    ensures forall u :: Count(runs + [run], u) == Count(runs, u) + if run.task == u then 1 else 0
  {
    forall u
      ensures Count(runs + [run], u) == Count(runs, u) + if run.task == u then 1 else 0
    {
      CountAppend(runs, run, u);
    }
  }

  lemma UpdatedDbInv(db: Db, log: seq<Event>, t: TaskId, status: Status, worker: Option<string>, error: Option<string>,
                     run: Option<nat>, now: Time)
    requires DbInv(db, log) && t in db.tasks && ReadsHold(db, UpdatingRun(t, status, worker, error, run))
    ensures OnlyTask(db, UpdatedDb(db, t, status, worker, error, run, now), t)
    ensures DbInv(UpdatedDb(db, t, status, worker, error, run, now), log + [UpdateDone(t, status)])
  {
    var db' := UpdatedDb(db, t, status, worker, error, run, now);
    assert db'.tasks[t].status == status && Settled(db'.tasks[t]);
    UpdatedRuns(db, t, status, worker, error, run, now);
    forall u
      ensures LogTells(db', log + [UpdateDone(t, status)], u)
    {
      assert LogTells(db, log, u);
      LogAppend(log, UpdateDone(t, status), u);
    }
    assert LogTells(db, log, t);
    LogSoundAppend(log, UpdateDone(t, status));
  }

  lemma UpdatedCounts(db: Db, t: TaskId, status: Status, worker: Option<string>, error: Option<string>, run: Option<nat>, now: Time)
    requires Numbered(db.runs) && Mirrored(db) && t in db.tasks
    requires ReadsHold(db, UpdatingRun(t, status, worker, error, run))
    ensures var db' := UpdatedDb(db, t, status, worker, error, run, now);
      Numbered(db'.runs) && forall u :: Count(db'.runs, u) == Count(db.runs, u)
  {
    var db' := UpdatedDb(db, t, status, worker, error, run, now);
    if run.Some? {
      NumberedUpdate(db.runs, run.value, db'.runs[run.value]);
    }
    forall u
      ensures Count(db'.runs, u) == Count(db.runs, u)
    {
      if run.Some? {
        CountUpdate(db.runs, run.value, db'.runs[run.value], u);
      }
    }
  }

  lemma UpdatedRuns(db: Db, t: TaskId, status: Status, worker: Option<string>, error: Option<string>, run: Option<nat>, now: Time)
    requires Numbered(db.runs) && Mirrored(db) && t in db.tasks
    requires ReadsHold(db, UpdatingRun(t, status, worker, error, run))
    ensures var db' := UpdatedDb(db, t, status, worker, error, run, now);
      && OnlyTask(db, db', t) && Numbered(db'.runs) && Mirrored(db')
      && forall u :: Count(db'.runs, u) == Count(db.runs, u)
  {
    var db' := UpdatedDb(db, t, status, worker, error, run, now);
    UpdatedCounts(db, t, status, worker, error, run, now);
    forall r | 0 <= r < |db'.runs|
      ensures db'.runs[r].task in db'.tasks
      ensures db'.runs[r].attempt == Count(db'.runs, db'.runs[r].task) ==> db'.runs[r].status == db'.tasks[db'.runs[r].task].status
    {
      UpdatedRunMirrors(db, t, status, worker, error, run, now, db', r);
    }
  }

  ghost predicate RunMirrors(db: Db, r: nat)
    requires r < |db.runs|
  {
    && db.runs[r].task in db.tasks
    && (db.runs[r].attempt == Count(db.runs, db.runs[r].task) ==> db.runs[r].status == db.tasks[db.runs[r].task].status)
  }

  lemma UpdatedRunMirrors(db: Db, t: TaskId, status: Status, worker: Option<string>, error: Option<string>, run: Option<nat>,
      now: Time, db': Db, r: nat)
    requires Numbered(db.runs) && Mirrored(db) && t in db.tasks
    requires ReadsHold(db, UpdatingRun(t, status, worker, error, run))
    requires db' == UpdatedDb(db, t, status, worker, error, run, now) && r < |db'.runs|
    requires forall u :: Count(db'.runs, u) == Count(db.runs, u)
    ensures RunMirrors(db', r)
  {
    assert db'.runs[r].task == db.runs[r].task && db'.runs[r].attempt == db.runs[r].attempt;
    if db.runs[r].task == t && db.runs[r].attempt == Count(db.runs, t) {
      OneLast(db.runs, r, run);
    }
  }

  /** The run that was locked as the last attempt is the only last attempt. */
  lemma OneLast(runs: seq<TaskRun>, r: nat, run: Option<nat>)
    requires Numbered(runs) && r < |runs| && runs[r].attempt == Count(runs, runs[r].task)
    requires match run
             case None => Count(runs, runs[r].task) == 0
             case Some(q) => q < |runs| && runs[q].task == runs[r].task && runs[q].attempt == Count(runs, runs[r].task)
    ensures run == Some(r)
  {
    AttemptRange(runs, r);
    if run.value < r {
      AttemptsDiffer(runs, run.value, r);
    } else if r < run.value {
      AttemptsDiffer(runs, r, run.value);
    }
  }

  lemma PriorityDbInv(db: Db, log: seq<Event>, t: TaskId, priority: Priority)
    requires DbInv(db, log) && t in db.tasks
    ensures OnlyTask(db, Db(db.tasks[t := db.tasks[t].(priority := priority)], db.runs), t)
    ensures DbInv(Db(db.tasks[t := db.tasks[t].(priority := priority)], db.runs), log)
  {
    var db' := Db(db.tasks[t := db.tasks[t].(priority := priority)], db.runs);
    forall u
      ensures LogTells(db', log, u)
    {
      assert LogTells(db, log, u);
    }
  }

  lemma CreateKeeps(s: State, id: TaskId, task: Task)
    requires Inv(s) && Enabled(s, Create(id, task))
    ensures Inv(After(s, Create(id, task)))
  {
    var s' := After(s, Create(id, task));
    var e := Created(id, task.status, task.worker);
    forall u
      ensures LogTells(s'.db, s'.log, u)
    {
      assert LogTells(s.db, s.log, u);
      LogAppend(s.log, e, u);
    }
    assert LogTells(s.db, s.log, id);
    LogSoundAppend(s.log, e);
    forall x
      ensures !s'.PhaseOf(x).Idle? ==> HoldsTask(s', x)
      ensures ReadsHold(s'.db, s'.PhaseOf(x))
    {
      assert s'.PhaseOf(x) == s.PhaseOf(x);
      assert !s.PhaseOf(x).Idle? ==> HoldsTask(s, x);
      assert ReadsHold(s.db, s.PhaseOf(x));
    }
  }

  lemma CommitClaimKeeps(s: State, sid: SessionId, now: Time)
    requires Inv(s) && Enabled(s, CommitClaim(sid, now))
    ensures Inv(After(s, CommitClaim(sid, now)))
  {
    var p := s.PhaseOf(sid);
    assert HoldsTask(s, sid) && ReadsHold(s.db, p);
    var db' := ClaimedDb(s.db, p.task, p.worker, p.attempt, now);
    ClaimedDbInv(s.db, s.log, p.task, p.worker, p.attempt, now, db');
    CommitKeeps(s, sid, db', s.log + [ClaimDone(p.task, p.attempt)]);
  }

  lemma CommitUpdateKeeps(s: State, sid: SessionId, now: Time)
    requires Inv(s) && Enabled(s, CommitUpdate(sid, now))
    ensures Inv(After(s, CommitUpdate(sid, now)))
  {
    var p := s.PhaseOf(sid);
    assert HoldsTask(s, sid) && ReadsHold(s.db, p);
    UpdatedDbInv(s.db, s.log, p.task, p.status, p.newWorker, p.error, p.run, now);
    CommitKeeps(s, sid, UpdatedDb(s.db, p.task, p.status, p.newWorker, p.error, p.run, now), s.log + [UpdateDone(p.task, p.status)]);
  }

  lemma CommitPriorityKeeps(s: State, sid: SessionId)
    requires Inv(s) && Enabled(s, CommitPriority(sid))
    ensures Inv(After(s, CommitPriority(sid)))
  {
    var p := s.PhaseOf(sid);
    assert HoldsTask(s, sid);
    PriorityDbInv(s.db, s.log, p.task, p.priority);
    CommitKeeps(s, sid, Db(s.db.tasks[p.task := s.db.tasks[p.task].(priority := p.priority)], s.db.runs), s.log);
  }

  lemma LockKeeps(s: State, step: Step)
    requires Inv(s) && Enabled(s, step) && (step.LockForClaim? || step.LockForUpdate? || step.LockForPriority?)
    ensures Inv(After(s, step))
  {
    match step
    case LockForClaim(sid, worker, _, choice) => TaskLockKeeps(s, sid, choice, Claiming(choice, worker));
    case LockForUpdate(sid, id, status, newWorker, error) => TaskLockKeeps(s, sid, id, Updating(id, status, newWorker, error));
    case LockForPriority(sid, id, priority) => TaskLockKeeps(s, sid, id, Reprioritizing(id, priority));
  }

  /** Every step of every session keeps the invariant. */
  lemma StepKeeps(s: State, step: Step)
    requires Inv(s) && Enabled(s, step)
    ensures Inv(After(s, step))
  {
    match step
    case Create(id, task) => CreateKeeps(s, id, task);
    case ReadAttempt(sid) => ReadAttemptKeeps(s, sid);
    case CommitClaim(sid, now) => CommitClaimKeeps(s, sid, now);
    case LockRun(sid, run) => LockRunKeeps(s, sid, run);
    case CommitUpdate(sid, now) => CommitUpdateKeeps(s, sid, now);
    case CommitPriority(sid) => CommitPriorityKeeps(s, sid);
    case Abort(sid) => ReleaseKeeps(s, sid);
    case _ => LockKeeps(s, step);
  }

  lemma {:induction false} BehaviourKeeps(states: seq<State>, steps: seq<Step>, n: nat)
    requires Behaviour(states, steps) && n < |states|
    ensures Inv(states[n])
  {
    if n == 0 {
      assert forall t :: LogTells(START.db, START.log, t);
    } else {
      BehaviourKeeps(states, steps, n - 1);
      StepKeeps(states[n - 1], steps[n - 1]);
    }
  }

  lemma ReachableInv(s: State)
    requires Reachable(s)
    ensures Inv(s)
  {
    var states: seq<State>, steps: seq<Step> :| Behaviour(states, steps) && states[|steps|] == s;
    BehaviourKeeps(states, steps, |steps|);
  }

  // ---------- The theorems ----------

  /** Attempts of a task are exactly 1..n, each once, where n is how often it was claimed; and the
      unique constraint never refuses a claim. */
  lemma AttemptsExact(s: State, t: TaskId, k: nat)
    requires Reachable(s)
    ensures (exists r :: 0 <= r < |s.db.runs| && s.db.runs[r].task == t && s.db.runs[r].attempt == k)
            <==> 1 <= k <= Claims(s.log, t)
    ensures forall r, q | 0 <= r < q < |s.db.runs| && s.db.runs[r].task == s.db.runs[q].task ::
              s.db.runs[r].attempt < s.db.runs[q].attempt
    ensures forall sid, now | Enabled(s, CommitClaim(sid, now)) ::
              !Duplicate(s.db, s.PhaseOf(sid).task, s.PhaseOf(sid).attempt)
  {
    ReachableInv(s);
    assert LogTells(s.db, s.log, t);
    if 1 <= k <= Claims(s.log, t) {
      var r := AttemptExists(s.db.runs, t, k);
    }
    forall r | 0 <= r < |s.db.runs|
      ensures 1 <= s.db.runs[r].attempt <= Count(s.db.runs, s.db.runs[r].task)
    {
      AttemptRange(s.db.runs, r);
    }
    forall r, q | 0 <= r < q < |s.db.runs| && s.db.runs[r].task == s.db.runs[q].task
      ensures s.db.runs[r].attempt < s.db.runs[q].attempt
    {
      AttemptsDiffer(s.db.runs, r, q);
    }
    forall sid, now | Enabled(s, CommitClaim(sid, now))
      ensures !Duplicate(s.db, s.PhaseOf(sid).task, s.PhaseOf(sid).attempt)
    {
      assert ReadsHold(s.db, s.PhaseOf(sid));
      EarlierAttempts(s.db.runs, s.PhaseOf(sid).task);
    }
  }

  /** The k-th claim of a task that the log shows created attempt k. */
  lemma ClaimNumber(s: State, i: nat)
    requires Reachable(s) && i < |s.log| && s.log[i].ClaimDone?
    ensures s.log[i].attempt == Claims(s.log[..i], s.log[i].task) + 1
  {
    ReachableInv(s);
  }

  lemma {:induction false} LastEventAt(log: seq<Event>, t: TaskId) returns (k: nat)
    requires LastEvent(log, t).Some?
    ensures k < |log| && log[k] == LastEvent(log, t).value && log[k].task == t
    ensures forall m | k < m < |log| :: log[m].task != t
  {
    k := |log| - 1;
    if log[k].task != t {
      k := LastEventAt(log[..k], t);
    }
  }

  lemma {:induction false} EarlierEvent(log: seq<Event>, t: TaskId, i: nat)
    requires i < |log| && log[i].task == t
    ensures LastEvent(log, t).Some?
  {
    if log[|log| - 1].task != t {
      EarlierEvent(log[..|log| - 1], t, i);
    }
  }

  /** Between two claims of one task there is always a committed update back to pending. */
  lemma PendingBetweenClaims(s: State, i: nat, j: nat) returns (k: nat)
    requires Reachable(s) && i < j < |s.log|
    requires s.log[i].ClaimDone? && s.log[j].ClaimDone? && s.log[i].task == s.log[j].task
    ensures i < k < j && s.log[k] == UpdateDone(s.log[i].task, Pending)
  {
    ReachableInv(s);
    var t := s.log[i].task;
    k := LastEventAt(s.log[..j], t);
    assert s.log[..j][i] == s.log[i] && s.log[..j][k] == s.log[k];
    if s.log[k].Created? {
      EarlierEvent(s.log[..k], t, i);
    }
  }

  /** No two sessions work on the same task, and a run is locked only by the session that has
      locked its task. */
  lemma LockDiscipline(s: State)
    requires Reachable(s)
    ensures forall a, b | a != b && !s.PhaseOf(a).Idle? && !s.PhaseOf(b).Idle? :: s.PhaseOf(a).task != s.PhaseOf(b).task
    ensures forall r | r in s.runLock ::
              r < |s.db.runs| && s.db.runs[r].task in s.taskLock && s.taskLock[s.db.runs[r].task] == s.runLock[r]
  {
    ReachableInv(s);
    forall a, b | a != b && !s.PhaseOf(a).Idle? && !s.PhaseOf(b).Idle?
      ensures s.PhaseOf(a).task != s.PhaseOf(b).task
    {
      assert HoldsTask(s, a) && HoldsTask(s, b);
    }
    forall r | r in s.runLock
      ensures r < |s.db.runs| && s.db.runs[r].task in s.taskLock && s.taskLock[s.db.runs[r].task] == s.runLock[r]
    {
      assert HoldsTask(s, s.runLock[r]);
    }
  }

  /** In every committed state the last run of a task has the task's status. */
  lemma RunMirrorsTask(s: State, r: nat)
    requires Reachable(s) && r < |s.db.runs|
    requires forall q | 0 <= q < |s.db.runs| && s.db.runs[q].task == s.db.runs[r].task :: s.db.runs[q].attempt <= s.db.runs[r].attempt
    ensures s.db.runs[r].task in s.db.tasks && s.db.runs[r].status == s.db.tasks[s.db.runs[r].task].status
  {
    ReachableInv(s);
    var t := s.db.runs[r].task;
    AttemptRange(s.db.runs, r);
    var last := AttemptExists(s.db.runs, t, Count(s.db.runs, t));
  }

  /** `completed_at` is set exactly on terminal tasks and a worker only on running ones, for exactly
      the tasks that were claimed or updated since creation or were created that way. */
  lemma SettledExactly(s: State, t: TaskId)
    requires Reachable(s) && t in s.db.tasks
    ensures LastEvent(s.log, t).Some?
    ensures Settled(s.db.tasks[t]) <==> Settles(LastEvent(s.log, t).value)
  {
    ReachableInv(s);
    assert LogTells(s.db, s.log, t);
  }
}
