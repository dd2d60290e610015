/** Snapshots are kept by whatever is done later, and restoring one brings the workspace back and touches
    nothing else (harness/workspace.py). */
module WorkspaceSafety {
  import opened Workspace

  // ---------- Regions ----------

  ghost predicate Same(a: Tree, b: Tree, p: Path) {
    SameAt(a, p, b, p)
  }

  /** The two trees are the same below `d`. */
  ghost predicate Agree(a: Tree, b: Tree, d: Path) {
    forall p | Under(p, d) :: Same(a, b, p)
  }

  lemma AgreeTrans(a: Tree, b: Tree, c: Tree, d: Path)
    requires Agree(a, b, d) && Agree(b, c, d)
    ensures Agree(a, c, d)
  {
    forall p | Under(p, d)
      ensures Same(a, c, p)
    {
      assert Same(a, b, p) && Same(b, c, p);
    }
  }

  /** Neither path is above the other. */
  predicate Apart(a: Path, b: Path) {
    !Under(a, b) && !Under(b, a)
  }

  /** Two paths above the same path are above one another. */
  lemma Comparable(p: Path, a: Path, b: Path)
    requires Under(p, a) && Under(p, b)
    ensures Under(a, b) || Under(b, a)
  {
    if |a| <= |b| {
      assert b[..|a|] == p[..|b|][..|a|] == p[..|a|];
    } else {
      assert a[..|b|] == p[..|a|][..|b|] == p[..|b|];
    }
  }

  lemma UnderTrans(p: Path, a: Path, b: Path)
    requires Under(p, a) && Under(a, b)
    ensures Under(p, b)
  {
    assert p[..|b|] == p[..|a|][..|b|];
  }

  lemma NotInside(p: Path, r: Path, d: Path)
    requires Under(p, r) && Apart(r, d)
    ensures !Under(p, d)
  {
    if Under(p, d) {
      Comparable(p, r, d);
    }
  }

  lemma SameBelowTrans(a: Tree, d: Path, b: Tree, e: Path, c: Tree, f: Path)
    requires SameBelow(a, d, b, e) && SameBelow(b, e, c, f)
    ensures SameBelow(a, d, c, f)
  {
    forall r: Path
      ensures SameAt(a, d + r, c, f + r)
    {
      assert SameAt(a, d + r, b, e + r) && SameAt(b, e + r, c, f + r);
    }
  }

  lemma AgreeIsSame(a: Tree, b: Tree, d: Path)
    requires Agree(a, b, d)
    ensures SameBelow(a, d, b, d) && SameBelow(b, d, a, d)
  {
    forall r: Path
      ensures SameAt(a, d + r, b, d + r) && SameAt(b, d + r, a, d + r)
    {
      assert Under(d + r, d);
      assert Same(a, b, d + r);
    }
  }

  // ---------- What the library leaves alone ----------

  lemma MkdirAgrees(fs: Tree, x: Path, d: Path, lib: Library)
    requires Lawful(lib) && !Under(x, d)
    ensures Agree(fs, lib.mkdir(fs, x), d)
  {
    forall p | Under(p, d)
      ensures Same(fs, lib.mkdir(fs, x), p)
    {
      assert MkdirAt(lib, fs, x, p);
      if Under(x, p) {
        UnderTrans(x, p, d);
      }
    }
  }

  lemma {:induction false} MadeAllAgrees(fs: Tree, dirs: seq<Path>, d: Path, lib: Library)
    requires Lawful(lib) && forall k | 0 <= k < |dirs| :: !Under(dirs[k], d)
    ensures Agree(fs, MadeAll(fs, dirs, lib).0, d)
    decreases |dirs|
  {
    if dirs != [] && CanMake(fs, dirs[0]) {
      MkdirAgrees(fs, dirs[0], d, lib);
      MadeAllAgrees(lib.mkdir(fs, dirs[0]), dirs[1..], d, lib);
      AgreeTrans(fs, lib.mkdir(fs, dirs[0]), MadeAll(fs, dirs, lib).0, d);
    }
  }

  lemma RmtreeAgrees(fs: Tree, x: Path, d: Path, lib: Library)
    requires Lawful(lib) && Apart(x, d)
    ensures Agree(fs, lib.rmtree(fs, x), d)
  {
    forall p | Under(p, d)
      ensures Same(fs, lib.rmtree(fs, x), p)
    {
      assert RmtreeAt(lib, fs, x, p);
      if Under(p, x) {
        Comparable(p, x, d);
      }
    }
  }

  lemma CopytreeAgrees(fs: Tree, from: Path, to: Path, d: Path, lib: Library)
    requires Lawful(lib) && Apart(to, d)
    ensures Agree(fs, lib.copytree(fs, from, to), d)
  {
    forall p | Under(p, d)
      ensures Same(fs, lib.copytree(fs, from, to), p)
    {
      assert CopytreeAt(lib, fs, from, to, p);
      if Under(p, to) {
        Comparable(p, to, d);
      }
      if Under(to, p) {
        UnderTrans(to, p, d);
      }
    }
  }

  /** A copy of a directory to where nothing is has the same below it. */
  lemma CopytreeCopies(fs: Tree, from: Path, to: Path, lib: Library)
    requires Lawful(lib) && from in fs && fs[from] == Dir
    requires forall p | p in fs :: !Under(p, to)
    ensures SameBelow(lib.copytree(fs, from, to), to, fs, from)
  {
    forall r: Path
      ensures SameAt(lib.copytree(fs, from, to), to + r, fs, from + r)
    {
      assert CopytreeAt(lib, fs, from, to, to + r);
      assert Under(to + r, to) && (to + r)[|to|..] == r;
      if r == [] {
        assert from + r == from;
      } else {
        assert !Under(to, to + r);
      }
    }
  }

  // ---------- Parents exist ----------

  lemma MkdirCloses(fs: Tree, d: Path, lib: Library)
    requires Lawful(lib) && Closed(fs)
    ensures Closed(lib.mkdir(fs, d))
    ensures d in lib.mkdir(fs, d) && forall p | p in fs :: p in lib.mkdir(fs, d)
  {
    forall p, k | p in lib.mkdir(fs, d) && 0 <= k <= |p|
      ensures p[..k] in lib.mkdir(fs, d)
    {
      assert MkdirAt(lib, fs, d, p) && MkdirAt(lib, fs, d, p[..k]);
      if p !in fs {
        UnderTrans(d, p, p[..k]);
      }
    }
    assert MkdirAt(lib, fs, d, d);
    forall p | p in fs
      ensures p in lib.mkdir(fs, d)
    {
      assert MkdirAt(lib, fs, d, p);
    }
  }

  lemma {:induction false} MadeAllCloses(fs: Tree, dirs: seq<Path>, lib: Library)
    requires Lawful(lib) && Closed(fs)
    ensures Closed(MadeAll(fs, dirs, lib).0)
    ensures forall p | p in fs :: p in MadeAll(fs, dirs, lib).0
    ensures MadeAll(fs, dirs, lib).1 ==> forall k | 0 <= k < |dirs| :: dirs[k] in MadeAll(fs, dirs, lib).0
    decreases |dirs|
  {
    if dirs != [] && CanMake(fs, dirs[0]) {
      MkdirCloses(fs, dirs[0], lib);
      MadeAllCloses(lib.mkdir(fs, dirs[0]), dirs[1..], lib);
    }
  }

  lemma RmtreeCloses(fs: Tree, d: Path, lib: Library)
    requires Lawful(lib) && Closed(fs)
    ensures Closed(lib.rmtree(fs, d))
  {
    forall p, k | p in lib.rmtree(fs, d) && 0 <= k <= |p|
      ensures p[..k] in lib.rmtree(fs, d)
    {
      assert RmtreeAt(lib, fs, d, p) && RmtreeAt(lib, fs, d, p[..k]);
      if Under(p[..k], d) {
        UnderTrans(p, p[..k], d);
      }
    }
  }

  lemma CopytreeCloses(fs: Tree, from: Path, to: Path, lib: Library)
    requires Lawful(lib) && Closed(fs)
    ensures Closed(lib.copytree(fs, from, to))
  {
    var now := lib.copytree(fs, from, to);
    forall p, k | p in now && 0 <= k <= |p|
      ensures p[..k] in now
    {
      assert CopytreeAt(lib, fs, from, to, p) && CopytreeAt(lib, fs, from, to, p[..k]);
      CopiedParent(fs, from, to, p, k);
    }
  }

  lemma CopiedParent(fs: Tree, from: Path, to: Path, p: Path, k: nat)
    requires Closed(fs) && k <= |p| && CopiedNode(fs, from, to, p).Some?
    ensures CopiedNode(fs, from, to, p[..k]).Some?
  {
    if Under(p, to) && from + p[|to|..] in fs {
      if k < |to| {
        assert p[..k] == to[..k];
      } else {
        var r := p[|to|..];
        assert p[..k][|to|..] == r[..k - |to|];
        assert (from + r)[..|from| + k - |to|] == from + r[..k - |to|];
      }
    } else if p !in fs {
      UnderTrans(to, p, p[..k]);
    }
  }

  // ---------- Whole operations ----------

  datatype Op =
    | Create(task: string)
    | Open(task: string)
    | Cleanup(task: string)
    | Snapshot(task: string, id: string)
    | Restore(task: string, id: string)
    | Edit(task: string, after: Tree)

  /** Whatever is done inside a task's workspace: the tree afterwards differs only below its root. */
  ghost predicate IsEdit(fs: Tree, after: Tree, d: Path) {
    Closed(after) && forall p | !Under(p, d) :: Same(fs, after, p)
  }

  ghost function Apply(st: State, root: Path, lib: Library, op: Op): State {
    match op
    case Create(t) => Created(st, root, lib, t).0
    case Open(t) => Opened(st, root, lib, t).0
    case Cleanup(t) => CleanedUp(st, root, lib, t).0
    case Snapshot(t, id) => Snapshotted(st, root, lib, t, id).0
    case Restore(t, id) => RestoredTo(st, root, lib, t, id).0
    case Edit(t, after) => if IsEdit(st.fs, after, TaskRoot(root, t)) then State(after, st.records) else st
  }

  ghost function ApplyAll(st: State, root: Path, lib: Library, ops: seq<Op>): State
    decreases |ops|
  {
    if ops == [] then st else ApplyAll(Apply(st, root, lib, ops[0]), root, lib, ops[1..])
  }

  lemma TouchedCloses(fs: Tree, d: Path, name: string)
    requires Closed(fs) && d in fs
    ensures Closed(Touched(fs, d + [name]))
  {
    var p := d + [name];
    forall q, k | q in Touched(fs, p) && 0 <= k <= |q|
      ensures q[..k] in Touched(fs, p)
    {
      if q == p {
        assert k < |p| ==> p[..k] == d[..k];
        assert k == |p| ==> p[..k] == p;
      }
    }
  }

  lemma CreatedCloses(st: State, root: Path, lib: Library, task: string)
    requires Lawful(lib) && Closed(st.fs)
    ensures Closed(Created(st, root, lib, task).0.fs)
    ensures Created(st, root, lib, task).1 ==> TaskRoot(root, task) in Created(st, root, lib, task).0.fs
  {
    var dirs, r := Layout(root, task), TaskRoot(root, task);
    var (fs, made) := MadeAll(st.fs, dirs, lib);
    MadeAllCloses(st.fs, dirs, lib);
    if made {
      var touched := Touched(fs, r + ["events.jsonl"]);
      assert dirs[0] == r && r in fs;
      TouchedCloses(fs, r, "events.jsonl");
      MadeAllCloses(touched, [SnapshotsRoot(root)], lib);
    }
  }

  lemma SnapshotParent(root: Path, task: string, id: string)
    ensures var to := SnapshotDir(root, task, id);
      to[..|to| - 1] == SnapshotsRoot(root) + ["task_" + task]
  {
  }

  lemma SnapshotCloses(st: State, root: Path, lib: Library, task: string, id: string)
    requires Lawful(lib) && Closed(st.fs)
    ensures Closed(Snapshotted(st, root, lib, task, id).0.fs)
  {
    CreatedCloses(st, root, lib, task);
    var open, to := Opened(st, root, lib, task).0, SnapshotDir(root, task, id);
    MadeAllCloses(open.fs, [to[..|to| - 1]], lib);
    CopytreeCloses(MadeAll(open.fs, [to[..|to| - 1]], lib).0, TaskRoot(root, task), to, lib);
  }

  lemma RestoreCloses(st: State, root: Path, lib: Library, task: string, id: string)
    requires Lawful(lib) && Closed(st.fs)
    ensures Closed(RestoredTo(st, root, lib, task, id).0.fs)
  {
    RmtreeCloses(st.fs, TaskRoot(root, task), lib);
    CopytreeCloses(lib.rmtree(st.fs, TaskRoot(root, task)), SnapshotDir(root, task, id), TaskRoot(root, task), lib);
  }

  /** Every operation keeps parents in place. */
  lemma ApplyCloses(st: State, root: Path, lib: Library, op: Op)
    requires Lawful(lib) && Closed(st.fs)
    ensures Closed(Apply(st, root, lib, op).fs)
  {
    match op
    case Create(t) => CreatedCloses(st, root, lib, t);
    case Open(t) => CreatedCloses(st, root, lib, t);
    case Cleanup(t) => RmtreeCloses(st.fs, TaskRoot(root, t), lib);
    case Snapshot(t, id) => SnapshotCloses(st, root, lib, t, id);
    case Restore(t, id) => RestoreCloses(st, root, lib, t, id);
    case Edit(t, after) =>
  }

  /** In every run, whatever exists has its parents. */
  lemma {:induction false} ApplyAllCloses(st: State, root: Path, lib: Library, ops: seq<Op>)
    requires Lawful(lib) && Closed(st.fs)
    ensures Closed(ApplyAll(st, root, lib, ops).fs)
    decreases |ops|
  {
    if ops != [] {
      ApplyCloses(st, root, lib, ops[0]);
      ApplyAllCloses(Apply(st, root, lib, ops[0]), root, lib, ops[1..]);
    }
  }

  // ---------- What an operation leaves alone ----------

  /** A region apart from the task's workspace and not above the manager's own directories. */
  predicate Outside(d: Path, root: Path, task: string) {
    Apart(TaskRoot(root, task), d) && !Under(SnapshotsRoot(root), d) && !Under(SnapshotsRoot(root) + ["task_" + task], d)
  }

  lemma CreatedAgrees(st: State, root: Path, lib: Library, task: string, d: Path)
    requires Lawful(lib) && Outside(d, root, task)
    ensures Agree(st.fs, Created(st, root, lib, task).0.fs, d)
  {
    var dirs, r := Layout(root, task), TaskRoot(root, task);
    forall k | 0 <= k < |dirs|
      ensures !Under(dirs[k], d)
    {
      NotInside(dirs[k], r, d);
    }
    MadeAllAgrees(st.fs, dirs, d, lib);
    var (fs, made) := MadeAll(st.fs, dirs, lib);
    if made {
      var e := r + ["events.jsonl"];
      NotInside(e, r, d);
      assert Agree(fs, Touched(fs, e), d);
      MadeAllAgrees(Touched(fs, e), [SnapshotsRoot(root)], d, lib);
      AgreeTrans(st.fs, fs, Touched(fs, e), d);
      AgreeTrans(st.fs, Touched(fs, e), Created(st, root, lib, task).0.fs, d);
    }
  }

  lemma OpenedAgrees(st: State, root: Path, lib: Library, task: string, d: Path)
    requires Lawful(lib) && Outside(d, root, task)
    ensures Agree(st.fs, Opened(st, root, lib, task).0.fs, d)
  {
    CreatedAgrees(st, root, lib, task, d);
  }

  lemma SnapshotAgrees(st: State, root: Path, lib: Library, task: string, id: string, d: Path)
    requires Lawful(lib) && Outside(d, root, task) && Apart(SnapshotDir(root, task, id), d)
    ensures Agree(st.fs, Snapshotted(st, root, lib, task, id).0.fs, d)
  {
    var open, to := Opened(st, root, lib, task).0, SnapshotDir(root, task, id);
    OpenedAgrees(st, root, lib, task, d);
    SnapshotParent(root, task, id);
    MadeAllAgrees(open.fs, [to[..|to| - 1]], d, lib);
    var fs := MadeAll(open.fs, [to[..|to| - 1]], lib).0;
    AgreeTrans(st.fs, open.fs, fs, d);
    CopytreeAgrees(fs, TaskRoot(root, task), to, d, lib);
    AgreeTrans(st.fs, fs, lib.copytree(fs, TaskRoot(root, task), to), d);
  }

  lemma RestoreAgrees(st: State, root: Path, lib: Library, task: string, id: string, d: Path)
    requires Lawful(lib) && Outside(d, root, task)
    ensures Agree(st.fs, RestoredTo(st, root, lib, task, id).0.fs, d)
  {
    var r, from := TaskRoot(root, task), SnapshotDir(root, task, id);
    var cleared := lib.rmtree(st.fs, r);
    RmtreeAgrees(st.fs, r, d, lib);
    CopytreeAgrees(cleared, from, r, d, lib);
    AgreeTrans(st.fs, cleared, lib.copytree(cleared, from, r), d);
  }

  lemma EditAgrees(fs: Tree, after: Tree, r: Path, d: Path)
    requires Apart(r, d) && IsEdit(fs, after, r)
    ensures Agree(fs, after, d)
  {
    forall p | Under(p, d)
      ensures Same(fs, after, p)
    {
      if Under(p, r) {
        Comparable(p, r, d);
      }
    }
  }

  lemma ApplyAgrees(st: State, root: Path, lib: Library, op: Op, d: Path)
    requires Lawful(lib) && Outside(d, root, op.task)
    requires op.Snapshot? ==> Apart(SnapshotDir(root, op.task, op.id), d)
    ensures Agree(st.fs, Apply(st, root, lib, op).fs, d)
  {
    match op
    case Create(t) => CreatedAgrees(st, root, lib, t, d);
    case Open(t) => OpenedAgrees(st, root, lib, t, d);
    case Cleanup(t) => RmtreeAgrees(st.fs, TaskRoot(root, t), d, lib);
    case Snapshot(t, id) => SnapshotAgrees(st, root, lib, t, id, d);
    case Restore(t, id) => RestoreAgrees(st, root, lib, t, id, d);
    case Edit(t, after) =>
      if IsEdit(st.fs, after, TaskRoot(root, t)) {
        EditAgrees(st.fs, after, TaskRoot(root, t), d);
      }
  }

  lemma OtherTask(root: Path, task: string, other: string)
    requires task != other
    ensures Outside(TaskRoot(root, other), root, task)
    ensures forall id: string :: Apart(SnapshotDir(root, task, id), TaskRoot(root, other))
  {
    var a, b := TaskRoot(root, task), TaskRoot(root, other);
    var n := |root|;
    assert a[n] == "task_" + task && b[n] == "task_" + other;
    assert a[n][5..] == task && b[n][5..] == other;
    assert SnapshotsRoot(root)[n] == ".snapshots";
    assert (SnapshotsRoot(root) + ["task_" + task])[n] == ".snapshots";
    assert b[n][0] == 't';
    forall id: string
      ensures Apart(SnapshotDir(root, task, id), b)
    {
      assert SnapshotDir(root, task, id)[n] == ".snapshots";
    }
  }

  lemma ItsSnapshot(root: Path, task: string, owner: string, id: string)
    ensures Outside(SnapshotDir(root, owner, id), root, task)
    ensures forall other: string :: (task, other) != (owner, id) ==>
              Apart(SnapshotDir(root, task, other), SnapshotDir(root, owner, id))
  {
    var d, n := SnapshotDir(root, owner, id), |root|;
    assert d[n] == ".snapshots" && d[n + 1] == "task_" + owner && d[n + 2] == id;
    assert TaskRoot(root, task)[n] == "task_" + task && ("task_" + task)[0] == 't';
    forall other: string | (task, other) != (owner, id)
      ensures Apart(SnapshotDir(root, task, other), d)
    {
      var e := SnapshotDir(root, task, other);
      assert e[n + 1] == "task_" + task && e[n + 2] == other;
      assert ("task_" + task)[5..] == task && ("task_" + owner)[5..] == owner;
    }
  }

  lemma ParentIsElsewhere(root: Path, task: string)
    ensures !Under(SnapshotsRoot(root) + ["task_" + task], TaskRoot(root, task))
  {
    var n := |root|;
    assert (SnapshotsRoot(root) + ["task_" + task])[n] == ".snapshots";
    assert TaskRoot(root, task)[n] == "task_" + task && ("task_" + task)[0] == 't';
  }

  // ---------- The theorems ----------

  /** An operation on one task leaves every other task's workspace as it is. */
  lemma OtherWorkspacesStay(st: State, root: Path, lib: Library, op: Op, other: string)
    requires Lawful(lib) && op.task != other
    ensures Agree(st.fs, Apply(st, root, lib, op).fs, TaskRoot(root, other))
  {
    OtherTask(root, op.task, other);
    ApplyAgrees(st, root, lib, op, TaskRoot(root, other));
  }

  /** A snapshot under an id already taken fails, and changes nothing below it. */
  lemma TakenId(st: State, root: Path, lib: Library, owner: string, id: string)
    requires Lawful(lib) && SnapshotDir(root, owner, id) in st.fs
    ensures !Snapshotted(st, root, lib, owner, id).1
    ensures Agree(st.fs, Snapshotted(st, root, lib, owner, id).0.fs, SnapshotDir(root, owner, id))
  {
    var open, to := Opened(st, root, lib, owner).0, SnapshotDir(root, owner, id);
    ItsSnapshot(root, owner, owner, id);
    OpenedAgrees(st, root, lib, owner, to);
    SnapshotParent(root, owner, id);
    MadeAllAgrees(open.fs, [to[..|to| - 1]], to, lib);
    var fs := MadeAll(open.fs, [to[..|to| - 1]], lib).0;
    AgreeTrans(st.fs, open.fs, fs, to);
    assert Under(to, to) && Same(st.fs, fs, to);
  }

  /** No operation changes a snapshot there is. */
  lemma SnapshotsStay(st: State, root: Path, lib: Library, op: Op, owner: string, id: string)
    requires Lawful(lib) && SnapshotDir(root, owner, id) in st.fs
    ensures Agree(st.fs, Apply(st, root, lib, op).fs, SnapshotDir(root, owner, id))
  {
    ItsSnapshot(root, op.task, owner, id);
    if op.Snapshot? && op.task == owner && op.id == id {
      TakenId(st, root, lib, owner, id);
    } else {
      ApplyAgrees(st, root, lib, op, SnapshotDir(root, owner, id));
    }
  }

  lemma {:induction false} SnapshotsStayAll(st: State, root: Path, lib: Library, ops: seq<Op>, owner: string, id: string)
    requires Lawful(lib) && SnapshotDir(root, owner, id) in st.fs
    ensures Agree(st.fs, ApplyAll(st, root, lib, ops).fs, SnapshotDir(root, owner, id))
    decreases |ops|
  {
    var d := SnapshotDir(root, owner, id);
    if ops != [] {
      var next := Apply(st, root, lib, ops[0]);
      SnapshotsStay(st, root, lib, ops[0], owner, id);
      assert Under(d, d) && Same(st.fs, next.fs, d);
      SnapshotsStayAll(next, root, lib, ops[1..], owner, id);
      AgreeTrans(st.fs, next.fs, ApplyAll(next, root, lib, ops[1..]).fs, d);
    }
  }

  lemma NothingBelow(fs: Tree, d: Path)
    requires Closed(fs) && d !in fs
    ensures forall p | p in fs :: !Under(p, d)
  {
    forall p | p in fs
      ensures !Under(p, d)
    {
      assert |d| <= |p| ==> p[..|d|] in fs;
    }
  }

  lemma CopyHolds(fs: Tree, from: Path, to: Path, lib: Library)
    requires Lawful(lib) && Closed(fs) && from in fs && fs[from] == Dir && to !in fs && Apart(to, from)
    ensures var now := lib.copytree(fs, from, to);
      && to in now && now[to] == Dir && SameBelow(now, to, fs, from) && Agree(fs, now, from)
  {
    var now := lib.copytree(fs, from, to);
    NothingBelow(fs, to);
    CopytreeCopies(fs, from, to, lib);
    CopytreeAgrees(fs, from, to, from, lib);
    assert SameAt(now, to + [], fs, from + []);
    assert to + [] == to && from + [] == from;
  }

  /** A snapshot holds what the workspace held, and leaves the workspace as it was. */
  lemma SnapshotHolds(st: State, root: Path, lib: Library, task: string, id: string)
    requires Lawful(lib) && Closed(st.fs) && Snapshotted(st, root, lib, task, id).1
    ensures var now := Snapshotted(st, root, lib, task, id).0;
      && SnapshotDir(root, task, id) in now.fs && now.fs[SnapshotDir(root, task, id)] == Dir
      && SameBelow(now.fs, SnapshotDir(root, task, id), now.fs, TaskRoot(root, task))
      && Agree(Opened(st, root, lib, task).0.fs, now.fs, TaskRoot(root, task))
  {
    var from, to := TaskRoot(root, task), SnapshotDir(root, task, id);
    var open := Opened(st, root, lib, task).0;
    CreatedCloses(st, root, lib, task);
    SnapshotParent(root, task, id);
    ParentIsElsewhere(root, task);
    var fs := MadeAll(open.fs, [to[..|to| - 1]], lib).0;
    MadeAllCloses(open.fs, [to[..|to| - 1]], lib);
    MadeAllAgrees(open.fs, [to[..|to| - 1]], from, lib);
    ItsSnapshot(root, task, task, id);
    CopyHolds(fs, from, to, lib);
    AgreeTrans(open.fs, fs, lib.copytree(fs, from, to), from);
    AgreeIsSame(fs, lib.copytree(fs, from, to), from);
    SameBelowTrans(lib.copytree(fs, from, to), to, fs, from, lib.copytree(fs, from, to), from);
  }

  /** Restoring makes the workspace equal to the snapshot and leaves everything that is not below it (or above
      it) as it was. */
  lemma RestoreMakesEqual(st: State, root: Path, lib: Library, task: string, id: string)
    requires Lawful(lib) && RestoredTo(st, root, lib, task, id).1
    ensures var now := RestoredTo(st, root, lib, task, id).0;
      && SameBelow(now.fs, TaskRoot(root, task), st.fs, SnapshotDir(root, task, id))
      && forall p | !Under(p, TaskRoot(root, task)) && !Under(TaskRoot(root, task), p) :: Same(st.fs, now.fs, p)
  {
    var from, to := SnapshotDir(root, task, id), TaskRoot(root, task);
    var cleared := lib.rmtree(st.fs, to);
    var now := lib.copytree(cleared, from, to);
    ItsSnapshot(root, task, task, id);
    RmtreeAgrees(st.fs, to, from, lib);
    assert Under(from, from) && Same(st.fs, cleared, from);
    forall p | p in cleared
      ensures !Under(p, to)
    {
      assert RmtreeAt(lib, st.fs, to, p);
    }
    CopytreeCopies(cleared, from, to, lib);
    AgreeIsSame(st.fs, cleared, from);
    SameBelowTrans(now, to, cleared, from, st.fs, from);
    forall p | !Under(p, to) && !Under(to, p)
      ensures Same(st.fs, now, p)
    {
      assert RmtreeAt(lib, st.fs, to, p) && CopytreeAt(lib, cleared, from, to, p);
    }
  }

  /** The round trip: after a snapshot, whatever is done next to this and to other workspaces (further snapshots,
      restores and clean-ups among it), the snapshot is still there, and restoring it makes the workspace what
      it was when the snapshot was taken, with everything else unchanged. */
  lemma SnapshotRoundTrip(st: State, root: Path, lib: Library, task: string, id: string, ops: seq<Op>)
    requires Lawful(lib) && Closed(st.fs) && Snapshotted(st, root, lib, task, id).1
    ensures var taken := Snapshotted(st, root, lib, task, id).0;
      var later := ApplyAll(taken, root, lib, ops);
      var (now, ok) := RestoredTo(later, root, lib, task, id);
      && (ok <==> !IsFile(later.fs, TaskRoot(root, task)))
      && (ok ==>
            && SameBelow(now.fs, TaskRoot(root, task), taken.fs, TaskRoot(root, task))
            && forall p | !Under(p, TaskRoot(root, task)) && !Under(TaskRoot(root, task), p) :: Same(later.fs, now.fs, p))
  {
    var d := SnapshotDir(root, task, id);
    var taken := Snapshotted(st, root, lib, task, id).0;
    var later := ApplyAll(taken, root, lib, ops);
    SnapshotHolds(st, root, lib, task, id);
    SnapshotsStayAll(taken, root, lib, ops, task, id);
    assert Under(d, d) && Same(taken.fs, later.fs, d);
    AgreeIsSame(taken.fs, later.fs, d);
    if RestoredTo(later, root, lib, task, id).1 {
      var now := RestoredTo(later, root, lib, task, id).0;
      RestoreMakesEqual(later, root, lib, task, id);
      SameBelowTrans(now.fs, TaskRoot(root, task), later.fs, d, taken.fs, d);
      SameBelowTrans(now.fs, TaskRoot(root, task), taken.fs, d, taken.fs, TaskRoot(root, task));
    }
  }

  // ---------- The laws have a model ----------

  function Above(d: Path): (names: set<Path>)
    ensures forall p :: p in names <==> Under(d, p)
    decreases |d|
  {
    if d == [] then {[]} else
      var front := d[..|d| - 1];
      assert forall p | Under(d, p) && p != d :: Under(front, p) by {
        forall p | Under(d, p) && p != d
          ensures Under(front, p)
        {
          assert front[..|p|] == d[..|p|];
        }
      }
      assert forall p | Under(front, p) :: Under(d, p) by {
        forall p | Under(front, p)
          ensures Under(d, p)
        {
          assert front[..|p|] == d[..|p|];
        }
      }
      Above(front) + {d}
  }

  function Mkdir(fs: Tree, d: Path): Tree {
    map p | p in fs.Keys + Above(d) :: if p in fs then fs[p] else Dir
  }

  function Rmtree(fs: Tree, d: Path): Tree {
    map p | p in fs && !Under(p, d) :: fs[p]
  }

  /** The targets of a copy. */
  function Moved(fs: Tree, from: Path, to: Path): set<Path> {
    set p | p in fs && Under(p, from) :: to + p[|from|..]
  }

  lemma MovedAt(fs: Tree, from: Path, to: Path, p: Path)
    ensures p in Moved(fs, from, to) <==> Under(p, to) && from + p[|to|..] in fs
  {
    if p in Moved(fs, from, to) {
      var q :| q in fs && Under(q, from) && to + q[|from|..] == p;
      assert p[..|to|] == to && p[|to|..] == q[|from|..];
      assert from + q[|from|..] == q;
    }
    if Under(p, to) && from + p[|to|..] in fs {
      var q := from + p[|to|..];
      assert Under(q, from) && q[|from|..] == p[|to|..];
      assert to + p[|to|..] == p;
    }
  }

  function Copytree(fs: Tree, from: Path, to: Path): Tree {
    map p | p in fs.Keys + Above(to) + Moved(fs, from, to) ::
      if CopiedNode(fs, from, to, p).Some? then CopiedNode(fs, from, to, p).value else Dir
  }

  /** The laws assumed of the library are met by plain operations on maps. */
  lemma LibraryExists()
    ensures Lawful(Library(Mkdir, Rmtree, Copytree))
  {
    var lib := Library(Mkdir, Rmtree, Copytree);
    forall fs, from, to, p
      ensures CopytreeAt(lib, fs, from, to, p)
    {
      MovedAt(fs, from, to, p);
    }
  }
}
