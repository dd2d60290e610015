/** Task workspaces and their snapshots as regions of one file tree (harness/workspace.py). Paths are lists of
    resolved components; a snapshot id is one component. */
module Workspace {
  import opened Text

  type Path = seq<string>

  datatype Node = File(content: string) | Dir

  type Tree = map<Path, Node>

  // ---------- The file tree ----------

  predicate Under(p: Path, d: Path) {
    |d| <= |p| && p[..|d|] == d
  }

  /** Whatever exists has its parents. */
  ghost predicate Closed(fs: Tree) {
    forall p, k | p in fs && 0 <= k <= |p| :: p[..k] in fs
  }

  /** What is below `d` in `a` is what is below `e` in `b`. */
  ghost predicate SameBelow(a: Tree, d: Path, b: Tree, e: Path) {
    forall r: Path :: SameAt(a, d + r, b, e + r)
  }

  ghost predicate SameAt(a: Tree, p: Path, b: Tree, q: Path) {
    (p in a <==> q in b) && (p in a ==> a[p] == b[q])
  }

  // ---------- The library ----------

  /** The operations of the library: `mkdir(parents=True, exist_ok=True)` where no file is in the way,
      `shutil.rmtree` and `shutil.copytree` to where nothing is. */
  datatype Library = Library(mkdir: (Tree, Path) -> Tree, rmtree: (Tree, Path) -> Tree,
    copytree: (Tree, Path, Path) -> Tree)

  /** What a node copied to `p` is. */
  function CopiedNode(fs: Tree, from: Path, to: Path, p: Path): Option<Node> {
    if Under(p, to) && from + p[|to|..] in fs then Some(fs[from + p[|to|..]])
    else if p in fs then Some(fs[p])
    else if Under(to, p) then Some(Dir)
    else None
  }

  ghost predicate IsNode(fs: Tree, p: Path, node: Option<Node>) {
    (p in fs <==> node.Some?) && (p in fs ==> Some(fs[p]) == node)
  }

  ghost predicate MkdirAt(lib: Library, fs: Tree, d: Path, p: Path) {
    IsNode(lib.mkdir(fs, d), p, if p in fs then Some(fs[p]) else if Under(d, p) then Some(Dir) else None)
  }

  ghost predicate RmtreeAt(lib: Library, fs: Tree, d: Path, p: Path) {
    IsNode(lib.rmtree(fs, d), p, if p in fs && !Under(p, d) then Some(fs[p]) else None)
  }

  ghost predicate CopytreeAt(lib: Library, fs: Tree, from: Path, to: Path, p: Path) {
    IsNode(lib.copytree(fs, from, to), p, CopiedNode(fs, from, to, p))
  }

  /** What they are known to do, path by path. */
  ghost predicate Lawful(lib: Library) {
    && (forall fs, d, p :: MkdirAt(lib, fs, d, p))
    && (forall fs, d, p :: RmtreeAt(lib, fs, d, p))
    && (forall fs, from, to, p :: CopytreeAt(lib, fs, from, to, p))
  }

  /** No file is in the way of the directory `d`. */
  predicate CanMake(fs: Tree, d: Path) {
    forall k | 0 <= k <= |d| :: d[..k] in fs ==> fs[d[..k]] == Dir
  }

  /** One `mkdir` after the other, up to the first that fails. */
  function MadeAll(fs: Tree, dirs: seq<Path>, lib: Library): (Tree, bool)
    decreases |dirs|
  {
    if dirs == [] then (fs, true)
    else if !CanMake(fs, dirs[0]) then (fs, false)
    else MadeAll(lib.mkdir(fs, dirs[0]), dirs[1..], lib)
  }

  /** `touch(exist_ok=True)` */
  function Touched(fs: Tree, p: Path): Tree {
    if p in fs then fs else fs[p := File("")]
  }

  // ---------- Workspaces ----------

  datatype Status = Active | Deleted | Restored

  /** The tree, and the status recorded for each task. */
  datatype State = State(fs: Tree, records: map<string, Status>)

  function TaskRoot(root: Path, task: string): Path {
    root + ["task_" + task]
  }

  function SnapshotsRoot(root: Path): Path {
    root + [".snapshots"]
  }

  function SnapshotDir(root: Path, task: string, id: string): Path {
    root + [".snapshots", "task_" + task, id]
  }

  /** The directories of `_layout` that are made. */
  function Layout(root: Path, task: string): seq<Path> {
    var r := TaskRoot(root, task);
    [r, r + ["repo"], r + ["downloads"], r + ["screenshots"], r + ["source_cache"], r + ["logs"], r + ["patches"]]
  }

  /** `create_task_workspace`; the flag is false for an exception. */
  function Created(st: State, root: Path, lib: Library, task: string): (State, bool) {
    var (fs, made) := MadeAll(st.fs, Layout(root, task), lib);
    if !made then (State(fs, st.records), false) else
      var touched := Touched(fs, TaskRoot(root, task) + ["events.jsonl"]);
      var (whole, ok) := MadeAll(touched, [SnapshotsRoot(root)], lib);
      (State(whole, if ok then st.records[task := Active] else st.records), ok)
  }

  /** `get_task_workspace` */
  function Opened(st: State, root: Path, lib: Library, task: string): (State, bool) {
    if TaskRoot(root, task) in st.fs then (st, true) else Created(st, root, lib, task)
  }

  /** A file is where the directory should be: removing or copying it as a tree raises. */
  predicate IsFile(fs: Tree, d: Path) {
    d in fs && fs[d].File?
  }

  /** `cleanup_workspace` */
  function CleanedUp(st: State, root: Path, lib: Library, task: string): (State, bool) {
    if IsFile(st.fs, TaskRoot(root, task)) then (st, false)
    else (State(lib.rmtree(st.fs, TaskRoot(root, task)), st.records[task := Deleted]), true)
  }

  /** `snapshot_workspace` with the id taken from the clock */
  function Snapshotted(st: State, root: Path, lib: Library, task: string, id: string): (State, bool) {
    var (open, ok) := Opened(st, root, lib, task);
    if !ok then (open, false) else
      var to := SnapshotDir(root, task, id);
      var (fs, made) := MadeAll(open.fs, [to[..|to| - 1]], lib);
      if !made || to in fs || IsFile(fs, TaskRoot(root, task)) then (State(fs, open.records), false)
      else (State(lib.copytree(fs, TaskRoot(root, task), to), open.records), true)
  }

  /** `restore_snapshot` */
  function RestoredTo(st: State, root: Path, lib: Library, task: string, id: string): (State, bool) {
    var from, to := SnapshotDir(root, task, id), TaskRoot(root, task);
    if from !in st.fs || IsFile(st.fs, to) then (st, false)
    else if IsFile(st.fs, from) then (State(lib.rmtree(st.fs, to), st.records), false)
    else (State(lib.copytree(lib.rmtree(st.fs, to), from, to), st.records[task := Restored]), true)
  }

  class WorkspaceManager {
    const root: Path
    const lib: Library
    var fs: Tree
    var records: map<string, Status>

    constructor (root: Path, lib: Library, fs: Tree)
      ensures this.root == root && this.lib == lib && Now() == State(fs, map[])
    {
      this.root := root;
      this.lib := lib;
      this.fs := fs;
      records := map[];
    }

    function Now(): State
      reads this
    {
      State(fs, records)
    }

    /** Makes the directories in turn; false when a file is in the way of one. */
    method MakeDirs(dirs: seq<Path>) returns (ok: bool)
      modifies this`fs
      ensures (fs, ok) == MadeAll(old(fs), dirs, lib)
    {
      var i := 0;
      while i < |dirs|
        invariant 0 <= i <= |dirs|
        invariant MadeAll(fs, dirs[i..], lib) == MadeAll(old(fs), dirs, lib)
      {
        assert dirs[i..][0] == dirs[i] && dirs[i..][1..] == dirs[i + 1..];
        if !CanMake(fs, dirs[i]) {
          return false;
        }
        fs := lib.mkdir(fs, dirs[i]);
        i := i + 1;
      }
      ok := true;
    }

    method CreateTaskWorkspace(task: string) returns (ok: bool)
      modifies this
      ensures (Now(), ok) == Created(old(Now()), root, lib, task)
    {
      ok := MakeDirs(Layout(root, task));
      if ok {
        fs := Touched(fs, TaskRoot(root, task) + ["events.jsonl"]);
        ok := MakeDirs([SnapshotsRoot(root)]);
        if ok {
          records := records[task := Active];
        }
      }
    }

    method GetTaskWorkspace(task: string) returns (ok: bool)
      modifies this
      ensures (Now(), ok) == Opened(old(Now()), root, lib, task)
    {
      if TaskRoot(root, task) !in fs {
        ok := CreateTaskWorkspace(task);
      } else {
        ok := true;
      }
    }

    method CleanupWorkspace(task: string) returns (ok: bool)
      modifies this
      ensures (Now(), ok) == CleanedUp(old(Now()), root, lib, task)
    {
      if IsFile(fs, TaskRoot(root, task)) {
        return false;
      }
      ok := true;
      fs := lib.rmtree(fs, TaskRoot(root, task));
      records := records[task := Deleted];
    }

    method SnapshotWorkspace(task: string, id: string) returns (ok: bool)
      modifies this
      ensures (Now(), ok) == Snapshotted(old(Now()), root, lib, task, id)
    {
      ok := GetTaskWorkspace(task);
      if !ok {
        return;
      }
      var to := SnapshotDir(root, task, id);
      ok := MakeDirs([to[..|to| - 1]]);
      if !ok || to in fs || IsFile(fs, TaskRoot(root, task)) {
        return false;
      }
      fs := lib.copytree(fs, TaskRoot(root, task), to);
    }

    method RestoreSnapshot(task: string, id: string) returns (ok: bool)
      modifies this
      ensures (Now(), ok) == RestoredTo(old(Now()), root, lib, task, id)
    {
      var from, to := SnapshotDir(root, task, id), TaskRoot(root, task);
      if from !in fs || IsFile(fs, to) {
        return false;
      }
      var broken := IsFile(fs, from);
      var cleared := lib.rmtree(fs, to);
      fs := cleared;
      if broken {
        return false;
      }
      fs := lib.copytree(cleared, from, to);
      records := records[task := Restored];
      ok := true;
    }
  }
}
