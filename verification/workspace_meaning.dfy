/** What each operation on a workspace leaves in the file tree, and exactly when it succeeds
    (harness/workspace.py). */
module WorkspaceMeaning {
  import opened Text
  import opened Workspace

  /** No file stands where the directory or one of its parents is to be. */
  ghost predicate NothingInTheWay(fs: Tree, d: Path) {
    forall p | Under(d, p) && p in fs :: fs[p] == Dir
  }

  lemma CanMakeMeaning(fs: Tree, d: Path)
    ensures CanMake(fs, d) <==> NothingInTheWay(fs, d)
  {
    if CanMake(fs, d) {
      forall p | Under(d, p) && p in fs
        ensures fs[p] == Dir
      {
        assert d[..|p|] == p;
      }
    }
    forall k | 0 <= k <= |d|
      ensures Under(d, d[..k])
    {
    }
  }

  /** The path is one of the directories, or one of their parents. */
  ghost predicate OnTheWay(dirs: seq<Path>, p: Path) {
    exists k | 0 <= k < |dirs| :: Under(dirs[k], p)
  }

  /** The directories are there, with their parents, and all else is as it was. */
  ghost predicate Made(was: Tree, now: Tree, dirs: seq<Path>) {
    forall p :: IsNode(now, p, if p in was then Some(was[p]) else if OnTheWay(dirs, p) then Some(Dir) else None)
  }

  ghost predicate AllFree(fs: Tree, dirs: seq<Path>) {
    forall k | 0 <= k < |dirs| :: NothingInTheWay(fs, dirs[k])
  }

  /** Making directories one after the other succeeds exactly when no file is in the way of any. */
  lemma {:induction false} MadeAllMeaning(fs: Tree, dirs: seq<Path>, lib: Library)
    requires Lawful(lib)
    ensures MadeAll(fs, dirs, lib).1 <==> AllFree(fs, dirs)
    ensures MadeAll(fs, dirs, lib).1 ==> Made(fs, MadeAll(fs, dirs, lib).0, dirs)
    decreases |dirs|
  {
    if dirs != [] {
      CanMakeMeaning(fs, dirs[0]);
      if CanMake(fs, dirs[0]) {
        var one := lib.mkdir(fs, dirs[0]);
        MadeAllMeaning(one, dirs[1..], lib);
        MkdirFrees(fs, dirs, lib, one);
        if AllFree(fs, dirs) {
          MadeMore(fs, one, MadeAll(one, dirs[1..], lib).0, dirs, lib);
        }
      }
    }
  }

  lemma MkdirFrees(fs: Tree, dirs: seq<Path>, lib: Library, one: Tree)
    requires Lawful(lib) && dirs != [] && one == lib.mkdir(fs, dirs[0]) && NothingInTheWay(fs, dirs[0])
    ensures AllFree(one, dirs[1..]) <==> AllFree(fs, dirs)
  {
    forall p
      ensures p in fs ==> p in one && one[p] == fs[p]
      ensures p in one && p !in fs ==> one[p] == Dir
    {
      assert MkdirAt(lib, fs, dirs[0], p);
    }
    if AllFree(one, dirs[1..]) {
      forall k | 0 <= k < |dirs|
        ensures NothingInTheWay(fs, dirs[k])
      {
        assert k > 0 ==> NothingInTheWay(one, dirs[1..][k - 1]);
      }
    }
  }

  lemma MadeMore(fs: Tree, one: Tree, now: Tree, dirs: seq<Path>, lib: Library)
    requires Lawful(lib) && dirs != [] && one == lib.mkdir(fs, dirs[0]) && Made(one, now, dirs[1..])
    ensures Made(fs, now, dirs)
  {
    forall p
      ensures IsNode(now, p, if p in fs then Some(fs[p]) else if OnTheWay(dirs, p) then Some(Dir) else None)
    {
      assert MkdirAt(lib, fs, dirs[0], p);
      WayOfFirst(dirs, p);
    }
  }

  lemma WayOfFirst(dirs: seq<Path>, p: Path)
    requires dirs != []
    ensures OnTheWay(dirs, p) <==> Under(dirs[0], p) || OnTheWay(dirs[1..], p)
  {
    if OnTheWay(dirs, p) {
      var k :| 0 <= k < |dirs| && Under(dirs[k], p);
      assert k > 0 ==> Under(dirs[1..][k - 1], p);
    }
    if OnTheWay(dirs[1..], p) {
      var k :| 0 <= k < |dirs[1..]| && Under(dirs[1..][k], p);
      assert Under(dirs[k + 1], p);
    }
  }

  // ---------- Making a workspace ----------

  /** The directories of a workspace, and the one of all snapshots. */
  function Places(root: Path, task: string): seq<Path> {
    [root + ["task_" + task], root + ["task_" + task, "repo"], root + ["task_" + task, "downloads"],
     root + ["task_" + task, "screenshots"], root + ["task_" + task, "source_cache"], root + ["task_" + task, "logs"],
     root + ["task_" + task, "patches"], root + [".snapshots"]]
  }

  function EventsFile(root: Path, task: string): Path {
    root + ["task_" + task, "events.jsonl"]
  }

  /** What stands at a path when a workspace was made. */
  ghost predicate LaidAt(was: Tree, now: Tree, root: Path, task: string, p: Path) {
    IsNode(now, p,
      if p in was then Some(was[p])
      else if p == EventsFile(root, task) then Some(File(""))
      else if OnTheWay(Places(root, task), p) then Some(Dir)
      else None)
  }

  /** What making a workspace leaves: its directories, its event file, the record, and all else as it was. */
  ghost predicate Laid(was: State, now: State, root: Path, task: string) {
    && now.records == was.records[task := Active]
    && forall p :: LaidAt(was.fs, now.fs, root, task, p)
  }

  lemma PlacesAre(root: Path, task: string)
    ensures Places(root, task) == Layout(root, task) + [SnapshotsRoot(root)]
    ensures EventsFile(root, task) == TaskRoot(root, task) + ["events.jsonl"]
    ensures !OnTheWay(Places(root, task), EventsFile(root, task))
  {
    var r, e := TaskRoot(root, task), EventsFile(root, task);
    assert forall name: string :: r + [name] == root + ["task_" + task, name];
    forall k | 0 <= k < |Places(root, task)|
      ensures !Under(Places(root, task)[k], e)
    {
      var d := Places(root, task)[k];
      assert |e| == |root| + 2 && e[|root| + 1] == "events.jsonl";
      assert |d| == |root| + 2 ==> d[|root| + 1] != "events.jsonl" && d[..|e|] == d;
    }
  }

  lemma TouchFrees(fs: Tree, e: Path, d: Path)
    requires !Under(d, e)
    ensures NothingInTheWay(Touched(fs, e), d) <==> NothingInTheWay(fs, d)
  {
    var now := Touched(fs, e);
    assert forall p :: Under(d, p) ==> p != e;
    assert forall p :: p != e ==> (p in now <==> p in fs) && (p in fs ==> now[p] == fs[p]);
  }

  lemma MadeFrees(was: Tree, now: Tree, dirs: seq<Path>, d: Path)
    requires Made(was, now, dirs)
    ensures NothingInTheWay(now, d) <==> NothingInTheWay(was, d)
  {
    forall p
      ensures p in was ==> p in now && now[p] == was[p]
      ensures p in now && p !in was ==> now[p] == Dir
    {
      assert IsNode(now, p, if p in was then Some(was[p]) else if OnTheWay(dirs, p) then Some(Dir) else None);
    }
  }

  /** Making a workspace succeeds exactly when no file is in the way, and then leaves its layout. */
  lemma CreatedMeaning(st: State, root: Path, lib: Library, task: string)
    requires Lawful(lib)
    ensures var (now, ok) := Created(st, root, lib, task);
      && (ok <==> AllFree(st.fs, Places(root, task)))
      && (ok ==> Laid(st, now, root, task))
      && (!ok ==> now.records == st.records)
  {
    var layout, snaps, e := Layout(root, task), [SnapshotsRoot(root)], EventsFile(root, task);
    var (fs, made) := MadeAll(st.fs, layout, lib);
    PlacesAre(root, task);
    MadeAllMeaning(st.fs, layout, lib);
    FreeAll(st.fs, layout, SnapshotsRoot(root));
    if made {
      var touched := Touched(fs, e);
      MadeAllMeaning(touched, snaps, lib);
      assert !Under(SnapshotsRoot(root), e) by {
        assert Places(root, task)[7] == SnapshotsRoot(root);
      }
      TouchFrees(fs, e, SnapshotsRoot(root));
      MadeFrees(st.fs, fs, layout, SnapshotsRoot(root));
      assert AllFree(touched, snaps) <==> NothingInTheWay(touched, snaps[0]);
      if MadeAll(touched, snaps, lib).1 {
        LaidTree(st.fs, fs, touched, MadeAll(touched, snaps, lib).0, root, task);
      }
    }
  }

  lemma FreeAll(fs: Tree, dirs: seq<Path>, last: Path)
    ensures AllFree(fs, dirs + [last]) <==> AllFree(fs, dirs) && NothingInTheWay(fs, last)
  {
    var all := dirs + [last];
    assert all[|dirs|] == last;
    assert forall k | 0 <= k < |dirs| :: all[k] == dirs[k];
  }

  lemma LaidTree(was: Tree, fs: Tree, touched: Tree, now: Tree, root: Path, task: string)
    requires Made(was, fs, Layout(root, task)) && touched == Touched(fs, EventsFile(root, task))
    requires Made(touched, now, [SnapshotsRoot(root)])
    ensures forall p :: LaidAt(was, now, root, task, p)
  {
    PlacesAre(root, task);
    forall p
      ensures LaidAt(was, now, root, task, p)
    {
      WayOfAll(Layout(root, task), SnapshotsRoot(root), p);
      assert IsNode(fs, p, if p in was then Some(was[p]) else if OnTheWay(Layout(root, task), p) then Some(Dir) else None);
      assert IsNode(now, p,
        if p in touched then Some(touched[p]) else if OnTheWay([SnapshotsRoot(root)], p) then Some(Dir) else None);
    }
  }

  lemma WayOfAll(dirs: seq<Path>, last: Path, p: Path)
    ensures OnTheWay(dirs + [last], p) <==> OnTheWay(dirs, p) || OnTheWay([last], p)
  {
    var all := dirs + [last];
    assert all[|dirs|] == last && [last][0] == last;
    assert forall k | 0 <= k < |dirs| :: all[k] == dirs[k];
    if OnTheWay(dirs, p) {
      var k :| 0 <= k < |dirs| && Under(dirs[k], p);
      assert Under(all[k], p);
    }
    if OnTheWay([last], p) {
      assert Under(all[|dirs|], p);
    }
  }

  // ---------- The other operations ----------

  predicate IsAFile(fs: Tree, p: Path) {
    p in fs && fs[p] != Dir
  }

  /** Cleaning up takes away the workspace with all that is in it, if it is not a file, and nothing else. */
  lemma CleanedMeaning(st: State, root: Path, lib: Library, task: string)
    requires Lawful(lib)
    ensures var (now, ok) := CleanedUp(st, root, lib, task);
      var r := root + ["task_" + task];
      && (ok <==> !IsAFile(st.fs, r)) && (!ok ==> now == st)
      && (ok ==> now.records == st.records[task := Deleted]
                 && forall p :: IsNode(now.fs, p, if p in st.fs && !Under(p, r) then Some(st.fs[p]) else None))
  {
    var r := TaskRoot(root, task);
    forall p
      ensures IsNode(lib.rmtree(st.fs, r), p, if p in st.fs && !Under(p, r) then Some(st.fs[p]) else None)
    {
      assert RmtreeAt(lib, st.fs, r, p);
    }
  }

  /** The workspace is there, or can be made. */
  ghost predicate CanOpen(st: State, root: Path, task: string) {
    root + ["task_" + task] in st.fs || AllFree(st.fs, Places(root, task))
  }

  lemma OpenedMeaning(st: State, root: Path, lib: Library, task: string)
    requires Lawful(lib)
    ensures var (now, ok) := Opened(st, root, lib, task);
      && (ok <==> CanOpen(st, root, task))
      && (root + ["task_" + task] in st.fs ==> now == st)
      && (ok && root + ["task_" + task] !in st.fs ==> Laid(st, now, root, task))
  {
    CreatedMeaning(st, root, lib, task);
  }

  /** A snapshot succeeds exactly when the workspace can be opened and is a directory, the id is not taken, and no
      file is in the way of the snapshots of the task. */
  lemma SnapshottedMeaning(st: State, root: Path, lib: Library, task: string, id: string)
    requires Lawful(lib)
    ensures Snapshotted(st, root, lib, task, id).1 <==>
      && CanOpen(st, root, task) && !IsAFile(st.fs, root + ["task_" + task])
      && root + [".snapshots", "task_" + task, id] !in st.fs
      && NothingInTheWay(st.fs, root + [".snapshots", "task_" + task])
  {
    var (open, ok) := Opened(st, root, lib, task);
    OpenedMeaning(st, root, lib, task);
    if ok {
      var to, above, r := SnapshotDir(root, task, id), root + [".snapshots", "task_" + task], TaskRoot(root, task);
      assert to[..|to| - 1] == above;
      SnapshotPaths(root, task, id);
      if r !in st.fs {
        LaidKeeps(st, open, root, task, id);
      }
      var (fs, made) := MadeAll(open.fs, [above], lib);
      MadeAllMeaning(open.fs, [above], lib);
      assert AllFree(open.fs, [above]) <==> NothingInTheWay(open.fs, [above][0]);
      if made {
        MadeBeside(open.fs, fs, above, to);
        MadeBeside(open.fs, fs, above, r);
      }
    }
  }

  lemma SnapshotPaths(root: Path, task: string, id: string)
    ensures var to, above, r := SnapshotDir(root, task, id), root + [".snapshots", "task_" + task], TaskRoot(root, task);
      !Under(above, to) && !Under(above, r)
  {
    var to, above, r := SnapshotDir(root, task, id), root + [".snapshots", "task_" + task], TaskRoot(root, task);
    assert |to| == |above| + 1;
    assert above[|root|] == ".snapshots" && r[|root|] == "task_" + task && r[|root|][0] == 't';
    assert |r| <= |above| && above[..|r|][|root|] == above[|root|];
  }

  /** A path that is no parent of the directory made is as it was. */
  lemma MadeBeside(was: Tree, now: Tree, d: Path, p: Path)
    requires Made(was, now, [d]) && !Under(d, p)
    ensures (p in now <==> p in was) && (p in was ==> now[p] == was[p])
  {
    assert IsNode(now, p, if p in was then Some(was[p]) else if OnTheWay([d], p) then Some(Dir) else None);
    assert !OnTheWay([d], p);
  }

  /** A new workspace leaves no file in the way of its snapshots, and none of them is there. */
  lemma LaidKeeps(st: State, open: State, root: Path, task: string, id: string)
    requires Laid(st, open, root, task) && TaskRoot(root, task) !in st.fs
    ensures NothingInTheWay(open.fs, root + [".snapshots", "task_" + task]) <==>
            NothingInTheWay(st.fs, root + [".snapshots", "task_" + task])
    ensures SnapshotDir(root, task, id) in open.fs <==> SnapshotDir(root, task, id) in st.fs
    ensures !IsFile(open.fs, TaskRoot(root, task))
  {
    var above, to, e, r := root + [".snapshots", "task_" + task], SnapshotDir(root, task, id), EventsFile(root, task),
      TaskRoot(root, task);
    assert above[|root|] == ".snapshots" && e[|root|] == "task_" + task && e[|root|][0] == 't';
    forall p | Under(above, p)
      ensures p in st.fs ==> p in open.fs && open.fs[p] == st.fs[p]
      ensures p in open.fs && p !in st.fs ==> open.fs[p] == Dir
    {
      assert |p| > |root| ==> p[|root|] == above[..|p|][|root|] == ".snapshots";
      assert p != e;
      assert LaidAt(st.fs, open.fs, root, task, p);
    }
    TooDeep(root, task, to);
    assert to != e by {
      assert |to| == |e| + 1;
    }
    assert LaidAt(st.fs, open.fs, root, task, to);
    assert r != e by {
      assert |r| + 1 == |e|;
    }
    assert LaidAt(st.fs, open.fs, root, task, r);
  }

  /** The places of a workspace lie at most two below the root. */
  lemma TooDeep(root: Path, task: string, p: Path)
    requires |p| > |root| + 2
    ensures !OnTheWay(Places(root, task), p)
  {
    forall k | 0 <= k < |Places(root, task)|
      ensures !Under(Places(root, task)[k], p)
    {
      assert |Places(root, task)[k]| <= |root| + 2;
    }
  }

  /** A restore succeeds exactly when the snapshot is there as a directory and the workspace is no file; then the
      workspace is recorded as restored, and else the record stays. */
  lemma RestoredMeaning(st: State, root: Path, lib: Library, task: string, id: string)
    ensures var (now, ok) := RestoredTo(st, root, lib, task, id);
      var from := root + [".snapshots", "task_" + task, id];
      && (ok <==> from in st.fs && st.fs[from] == Dir && !IsAFile(st.fs, root + ["task_" + task]))
      && now.records == if ok then st.records[task := Restored] else st.records
  {
  }
}
