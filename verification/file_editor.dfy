/** Editing files with a backup for each edit, and undoing the edits (harness/file_editor.py).
    The disk maps resolved paths to what the files hold; `Path.resolve`, the JSON text of a patch
    record and the names drawn by `uuid4` are parameters. */
module FileEditing {
  import opened Text
  import Diff = UnifiedDiff
  import DiffRoundTrip

  type Path = seq<string>

  type Disk = map<Path, string>

  datatype PatchRecord = PatchRecord(path: string, backup: Option<Path>, diffPath: Path)

  datatype EditError =
    | OutsideWorkspace
    | BadDiff(error: Diff.Error)
    | NoSuchPatch
    | BadRecord
    | BackupMissing

  datatype Report = Report(path: Path, patchId: string, diff: string, changed: bool)

  /** The names one edit draws. */
  datatype Ids = Ids(patch: string, backup: string)

  datatype Config = Config(
    root: Path,
    patches: Path,
    resolve: string -> Path,
    encode: PatchRecord -> string,
    decode: string -> Option<PatchRecord>)
  {
    /** A record that was written reads back. */
    ghost predicate Valid() {
      forall r :: decode(encode(r)) == Some(r)
    }

    /** `_resolve` */
    function Target(path: string): Option<Path> {
      if root <= resolve(path) then Some(resolve(path)) else None
    }

    function MetaPath(id: string): Path {
      patches + [id + ".json"]
    }

    function DiffPath(id: string): Path {
      patches + [id + ".diff"]
    }

    function BackupPath(id: string, target: Path): Path {
      patches + ["backups", id + "_" + (if target == [] then "" else target[|target| - 1]) + ".bak"]
    }
  }

  // ---------- What the operations do to the disk ----------

  function OldText(disk: Disk, target: Path): string {
    if target in disk then UniversalNewlines(disk[target]) else ""
  }

  /** The disk after a backup, a write and a patch record. */
  function Stored(cfg: Config, disk: Disk, path: string, target: Path, content: string, diff: string, ids: Ids): Disk {
    var backup := if target in disk then Some(cfg.BackupPath(ids.backup, target)) else None;
    var saved := if target in disk then disk[cfg.BackupPath(ids.backup, target) := disk[target]] else disk;
    saved[target := content]
         [cfg.DiffPath(ids.patch) := diff]
         [cfg.MetaPath(ids.patch) := cfg.encode(PatchRecord(path, backup, cfg.DiffPath(ids.patch)))]
  }

  predicate IsTargetLine(line: string) {
    |line| >= 3 && line[0] == '+' && line[1] == '+' && line[2] == '+'
  }

  /** `s.replace("b/", "", 1)` */
  function RemoveFirstB(s: string): string {
    if |s| < 2 then s
    else if s[0] == 'b' && s[1] == '/' then s[2..]
    else [s[0]] + RemoveFirstB(s[1..])
  }

  function TargetOfLine(line: string): string {
    RemoveFirstB(Strip(if |line| >= 4 then line[4..] else ""))
  }

  function FirstTarget(lines: seq<string>): Option<string> {
    if lines == [] then None
    else if IsTargetLine(lines[0]) then Some(TargetOfLine(lines[0]))
    else FirstTarget(lines[1..])
  }

  datatype Change =
    | Write(path: string, content: string, dryRun: bool, hunks: seq<Diff.Hunk>, ids: Ids)
    | Patch(diff: string, dryRun: bool, ids: Ids)

  function PatchOutcome(cfg: Config, disk: Disk, diff: string): Result<(string, Path, string, string), EditError> {
    match FirstTarget(SplitLines(diff))
    case None => Err(BadDiff(Diff.NoTargetPath))
    case Some(path) =>
      match cfg.Target(path)
      case None => Err(OutsideWorkspace)
      case Some(t) =>
        match Diff.Applied(OldText(disk, t), diff)
        case Err(e) => Err(BadDiff(e))
        case Ok(content) => Ok((path, t, content, diff))
  }

  /** The path, its target, the new content and the diff of a change; or why it is refused. */
  function Effect(cfg: Config, disk: Disk, c: Change): Result<(string, Path, string, string), EditError> {
    match c
    case Write(path, content, _, hunks, _) =>
      (match cfg.Target(path)
       case None => Err(OutsideWorkspace)
       case Some(t) => Ok((path, t, content, Diff.GenerateDiff(path, hunks))))
    case Patch(diff, _, _) => PatchOutcome(cfg, disk, diff)
  }

  /** What the editor answers to a change. */
  function Answer(cfg: Config, disk: Disk, c: Change): Result<Report, EditError> {
    match Effect(cfg, disk, c)
    case Err(e) => Err(e)
    case Ok((_, t, content, diff)) => Ok(Report(t, c.ids.patch, diff, OldText(disk, t) != content))
  }

  /** The disk after a change; a refused change and a dry run leave it as it was. */
  function After(cfg: Config, disk: Disk, c: Change): Disk {
    var e := Effect(cfg, disk, c);
    if e.Err? || c.dryRun then disk
    else Stored(cfg, disk, e.value.0, e.value.1, e.value.2, e.value.3, c.ids)
  }

  lemma AnswerOf(cfg: Config, disk: Disk, c: Change, e: Result<(string, Path, string, string), EditError>)
    requires e == Effect(cfg, disk, c)
    ensures e.Err? ==> After(cfg, disk, c) == disk && Answer(cfg, disk, c) == Err(e.error)
    ensures e.Ok? ==>
      && After(cfg, disk, c) ==
         (if c.dryRun then disk else Stored(cfg, disk, e.value.0, e.value.1, e.value.2, e.value.3, c.ids))
      && Answer(cfg, disk, c) ==
         Ok(Report(e.value.1, c.ids.patch, e.value.3, OldText(disk, e.value.1) != e.value.2))
  {
  }

  // ---------- What an edit leaves ----------

  ghost predicate InPatches(cfg: Config, p: Path) {
    cfg.patches <= p
  }

  /** The file holds the content; the patches directory has the diff, the record and, if there was a file, its old
      bytes; every other file is as it was. */
  ghost predicate Wrote(cfg: Config, was: Disk, now: Disk, path: string, content: string, diff: string, ids: Ids) {
    var t := cfg.resolve(path);
    var backup, shown, record := cfg.BackupPath(ids.backup, t), cfg.DiffPath(ids.patch), cfg.MetaPath(ids.patch);
    && t in now && now[t] == content
    && (t in was ==> backup in now && now[backup] == was[t])
    && shown in now && now[shown] == diff
    && record in now && now[record] == cfg.encode(PatchRecord(path, if t in was then Some(backup) else None, shown))
    && forall p | p != t && p != shown && p != record && (p == backup ==> t !in was) ::
         (p in now <==> p in was) && (p in was ==> now[p] == was[p])
  }

  /** An accepted edit: its report tells the file, the patch, the diff and whether the text changed; a dry run
      leaves the disk as it was. */
  ghost predicate Edited(cfg: Config, was: Disk, now: Disk, path: string, content: string, diff: string, dryRun: bool,
      ids: Ids, r: Result<Report, EditError>)
  {
    var t := cfg.resolve(path);
    && r == Ok(Report(t, ids.patch, diff, (if t in was then UniversalNewlines(was[t]) else "") != content))
    && (dryRun ==> now == was)
    && (!dryRun && !InPatches(cfg, t) ==> Wrote(cfg, was, now, path, content, diff, ids))
  }

  lemma StoredWrote(cfg: Config, disk: Disk, path: string, content: string, diff: string, ids: Ids, now: Disk)
    requires !InPatches(cfg, cfg.resolve(path)) && now == Stored(cfg, disk, path, cfg.resolve(path), content, diff, ids)
    ensures Wrote(cfg, disk, now, path, content, diff, ids)
  {
    PatchPaths(cfg, ids, cfg.resolve(path));
  }

  lemma WriteIsEdit(cfg: Config, disk: Disk, path: string, content: string, dryRun: bool, hunks: seq<Diff.Hunk>, ids: Ids)
    ensures var c := Write(path, content, dryRun, hunks, ids);
      if cfg.root <= cfg.resolve(path) then
        Edited(cfg, disk, After(cfg, disk, c), path, content, Diff.GenerateDiff(path, hunks), dryRun, ids, Answer(cfg, disk, c))
      else After(cfg, disk, c) == disk && Answer(cfg, disk, c) == Err(OutsideWorkspace)
  {
    var c := Write(path, content, dryRun, hunks, ids);
    AnswerOf(cfg, disk, c, Effect(cfg, disk, c));
    if cfg.root <= cfg.resolve(path) && !dryRun && !InPatches(cfg, cfg.resolve(path)) {
      StoredWrote(cfg, disk, path, content, Diff.GenerateDiff(path, hunks), ids, After(cfg, disk, c));
    }
  }

  /** The edit a patch is: of the file its target line names, with what its lines make of the file's text; or the
      error that leaves the disk as it was. */
  ghost predicate Patched(cfg: Config, was: Disk, now: Disk, diff: string, dryRun: bool, ids: Ids,
      r: Result<Report, EditError>)
  {
    match FirstTarget(SplitLines(diff))
    case None => now == was && r == Err(BadDiff(Diff.NoTargetPath))
    case Some(path) =>
      var t := cfg.resolve(path);
      if cfg.root <= t then
        match Diff.Applied(if t in was then UniversalNewlines(was[t]) else "", diff)
        case Ok(content) => Edited(cfg, was, now, path, content, diff, dryRun, ids, r)
        case Err(e) => now == was && r == Err(BadDiff(e))
      else now == was && r == Err(OutsideWorkspace)
  }

  lemma PatchIsEdit(cfg: Config, disk: Disk, diff: string, dryRun: bool, ids: Ids)
    ensures var c := Patch(diff, dryRun, ids);
      Patched(cfg, disk, After(cfg, disk, c), diff, dryRun, ids, Answer(cfg, disk, c))
  {
    var c := Patch(diff, dryRun, ids);
    AnswerOf(cfg, disk, c, Effect(cfg, disk, c));
    if Recorded(cfg, disk, c) {
      var (path, t, content, _) := Effect(cfg, disk, c).value;
      if !InPatches(cfg, t) {
        StoredWrote(cfg, disk, path, content, diff, ids, After(cfg, disk, c));
      }
    }
  }

  predicate Recorded(cfg: Config, disk: Disk, c: Change) {
    Effect(cfg, disk, c).Ok? && !c.dryRun
  }

  function RolledBack(cfg: Config, disk: Disk, id: string): Result<Disk, EditError> {
    if cfg.MetaPath(id) !in disk then Err(NoSuchPatch) else
      match cfg.decode(disk[cfg.MetaPath(id)])
      case None => Err(BadRecord)
      case Some(record) =>
        match cfg.Target(record.path)
        case None => Err(OutsideWorkspace)
        case Some(t) =>
          match record.backup
          case None => Ok(disk - {t})
          case Some(b) => if b in disk then Ok(disk[t := disk[b]]) else Err(BackupMissing)
  }

  /** The file a patch record is about. */
  function RecordedTarget(cfg: Config, disk: Disk, id: string): Option<Path> {
    if cfg.MetaPath(id) !in disk then None else
      match cfg.decode(disk[cfg.MetaPath(id)])
      case None => None
      case Some(record) => cfg.Target(record.path)
  }

  /** A rollback: of the file its record names, to its backup, or away if it was new; or the error that leaves the
      disk as it was. */
  ghost predicate RollsBack(cfg: Config, was: Disk, now: Disk, id: string, r: Result<Path, EditError>) {
    var meta := cfg.patches + [id + ".json"];
    if meta !in was then now == was && r == Err(NoSuchPatch)
    else
      match cfg.decode(was[meta])
      case None => now == was && r == Err(BadRecord)
      case Some(record) =>
        var t := cfg.resolve(record.path);
        if !(cfg.root <= t) then now == was && r == Err(OutsideWorkspace)
        else
          match record.backup
          case None => now == was - {t} && r == Ok(t)
          case Some(backup) =>
            if backup in was then now == was[t := was[backup]] && r == Ok(t)
            else now == was && r == Err(BackupMissing)
  }

  // ---------- The editor ----------

  class FileEditor {
    const cfg: Config
    var disk: Disk

    constructor (cfg: Config, disk: Disk)
      ensures this.cfg == cfg && this.disk == disk
    {
      this.cfg := cfg;
      this.disk := disk;
    }

    method CreateBackup(target: Path, ids: Ids) returns (backup: Option<Path>)
      modifies this
      ensures backup == if target in old(disk) then Some(cfg.BackupPath(ids.backup, target)) else None
      ensures disk == if target in old(disk) then old(disk)[cfg.BackupPath(ids.backup, target) := old(disk)[target]] else old(disk)
    {
      if target !in disk {
        return None;
      }
      var path := cfg.BackupPath(ids.backup, target);
      disk := disk[path := disk[target]];
      backup := Some(path);
    }

    method StorePatchRecord(path: string, diff: string, backup: Option<Path>, ids: Ids)
      modifies this
      ensures disk == old(disk)[cfg.DiffPath(ids.patch) := diff]
                              [cfg.MetaPath(ids.patch) := cfg.encode(PatchRecord(path, backup, cfg.DiffPath(ids.patch)))]
    {
      disk := disk[cfg.DiffPath(ids.patch) := diff];
      disk := disk[cfg.MetaPath(ids.patch) := cfg.encode(PatchRecord(path, backup, cfg.DiffPath(ids.patch)))];
    }

    /** The writing part of an edit: backup, content, record. */
    method Store(path: string, target: Path, content: string, diff: string, ids: Ids)
      modifies this
      ensures disk == Stored(cfg, old(disk), path, target, content, diff, ids)
    {
      var backup := CreateBackup(target, ids);
      disk := disk[target := content];
      StorePatchRecord(path, diff, backup, ids);
    }

    /** `write_file`; `hunks` is the differ's answer. */
    method WriteFile(path: string, content: string, dryRun: bool, hunks: seq<Diff.Hunk>, ids: Ids)
        returns (r: Result<Report, EditError>)
      modifies this
      ensures disk == After(cfg, old(disk), Write(path, content, dryRun, hunks, ids))
      ensures r == Answer(cfg, old(disk), Write(path, content, dryRun, hunks, ids))
      ensures if cfg.root <= cfg.resolve(path) then
                Edited(cfg, old(disk), disk, path, content, Diff.GenerateDiff(path, hunks), dryRun, ids, r)
              else disk == old(disk) && r == Err(OutsideWorkspace)
    {
      WriteIsEdit(cfg, disk, path, content, dryRun, hunks, ids);
      var target := cfg.Target(path);
      if target == None {
        return Err(OutsideWorkspace);
      }
      var before := OldText(disk, target.value);
      var diff := Diff.GenerateDiff(path, hunks);
      if !dryRun {
        Store(path, target.value, content, diff, ids);
      }
      r := Ok(Report(target.value, ids.patch, diff, before != content));
    }

    method ExtractTargetPath(diff: string) returns (path: Option<string>)
      ensures path == FirstTarget(SplitLines(diff))
    {
      var lines := SplitLines(diff);
      var k := 0;
      while k < |lines|
        invariant k <= |lines|
        invariant FirstTarget(lines) == FirstTarget(lines[k..])
      {
        if IsTargetLine(lines[k]) {
          return Some(TargetOfLine(lines[k]));
        }
        assert lines[k..][1..] == lines[k + 1..];
        k := k + 1;
      }
      path := None;
    }

    /** The reading part of `apply_patch`: the path, its target, the new content and the diff. */
    method ReadPatch(diff: string) returns (e: Result<(string, Path, string, string), EditError>)
      ensures e == PatchOutcome(cfg, disk, diff)
    {
      var path := ExtractTargetPath(diff);
      if path == None {
        return Err(BadDiff(Diff.NoTargetPath));
      }
      var target := cfg.Target(path.value);
      if target == None {
        return Err(OutsideWorkspace);
      }
      var content := Diff.ApplyUnifiedDiff(OldText(disk, target.value), diff);
      if content.Err? {
        return Err(BadDiff(content.error));
      }
      e := Ok((path.value, target.value, content.value, diff));
    }

    /** `apply_patch` */
    method ApplyPatch(diff: string, dryRun: bool, ids: Ids) returns (r: Result<Report, EditError>)
      modifies this
      ensures disk == After(cfg, old(disk), Patch(diff, dryRun, ids))
      ensures r == Answer(cfg, old(disk), Patch(diff, dryRun, ids))
      ensures Patched(cfg, old(disk), disk, diff, dryRun, ids, r)
    {
      PatchIsEdit(cfg, disk, diff, dryRun, ids);
      var e := ReadPatch(diff);
      AnswerOf(cfg, disk, Patch(diff, dryRun, ids), e);
      if e.Err? {
        return Err(e.error);
      }
      var (path, target, content, _) := e.value;
      var before := OldText(disk, target);
      if !dryRun {
        Store(path, target, content, diff, ids);
      }
      r := Ok(Report(target, ids.patch, diff, before != content));
    }

    /** `rollback_patch` */
    method RollbackPatch(id: string) returns (r: Result<Path, EditError>)
      modifies this
      ensures r.Ok? <==> RolledBack(cfg, old(disk), id).Ok?
      ensures disk == if r.Ok? then RolledBack(cfg, old(disk), id).value else old(disk)
      ensures r.Err? ==> r.error == RolledBack(cfg, old(disk), id).error
      ensures r.Ok? ==> RecordedTarget(cfg, old(disk), id) == Some(r.value)
      ensures RollsBack(cfg, old(disk), disk, id, r)
    {
      if cfg.MetaPath(id) !in disk {
        return Err(NoSuchPatch);
      }
      var record := cfg.decode(disk[cfg.MetaPath(id)]);
      if record == None {
        return Err(BadRecord);
      }
      var target := cfg.Target(record.value.path);
      if target == None {
        return Err(OutsideWorkspace);
      }
      if record.value.backup == None {
        if target.value in disk {
          disk := disk - {target.value};
        }
        assert old(disk) - {target.value} == disk;
        return Ok(target.value);
      }
      var backup := record.value.backup.value;
      if backup !in disk {
        return Err(BackupMissing);
      }
      disk := disk[target.value := disk[backup]];
      r := Ok(target.value);
    }
  }

  // ---------- Undoing a run of edits ----------

  /** The changes one after the other. */
  function RunAll(cfg: Config, disk: Disk, cs: seq<Change>): Disk
    decreases |cs|
  {
    if cs == [] then disk else RunAll(cfg, After(cfg, disk, cs[0]), cs[1..])
  }

  /** The patch ids a run records, in order. */
  function RecordedIds(cfg: Config, disk: Disk, cs: seq<Change>): seq<string>
    decreases |cs|
  {
    if cs == [] then [] else
      (if Recorded(cfg, disk, cs[0]) then [cs[0].ids.patch] else []) + RecordedIds(cfg, After(cfg, disk, cs[0]), cs[1..])
  }

  /** Rolls back the ids, the last one first. */
  function UndoAll(cfg: Config, disk: Disk, ids: seq<string>): Result<Disk, EditError> {
    if ids == [] then Ok(disk) else
      match UndoAll(cfg, disk, ids[1..])
      case Err(e) => Err(e)
      case Ok(d) => RolledBack(cfg, d, ids[0])
  }

  /** The change stays out of the patches directory and draws names that are not in use. */
  ghost predicate Proper(cfg: Config, disk: Disk, c: Change) {
    Recorded(cfg, disk, c) ==>
      var t := Effect(cfg, disk, c).value.1;
      && !InPatches(cfg, t)
      && cfg.MetaPath(c.ids.patch) !in disk
      && cfg.DiffPath(c.ids.patch) !in disk
      && cfg.BackupPath(c.ids.backup, t) !in disk
  }

  ghost predicate ProperRun(cfg: Config, disk: Disk, cs: seq<Change>)
    decreases |cs|
  {
    cs == [] || (Proper(cfg, disk, cs[0]) && ProperRun(cfg, After(cfg, disk, cs[0]), cs[1..]))
  }

  /** The two disks hold the same files outside the patches directory. */
  ghost predicate SameOutside(cfg: Config, a: Disk, b: Disk) {
    forall p :: !InPatches(cfg, p) ==> (p in a <==> p in b) && (p in a && p in b ==> a[p] == b[p])
  }

  /** `b` still has every patch file of `a`. */
  ghost predicate KeepsPatches(cfg: Config, a: Disk, b: Disk) {
    forall p :: InPatches(cfg, p) && p in a ==> p in b && b[p] == a[p]
  }

  lemma PatchPaths(cfg: Config, ids: Ids, t: Path)
    ensures InPatches(cfg, cfg.MetaPath(ids.patch)) && InPatches(cfg, cfg.DiffPath(ids.patch))
    ensures InPatches(cfg, cfg.BackupPath(ids.backup, t))
    ensures cfg.MetaPath(ids.patch) != cfg.DiffPath(ids.patch)
    ensures cfg.BackupPath(ids.backup, t) != cfg.MetaPath(ids.patch)
    ensures cfg.BackupPath(ids.backup, t) != cfg.DiffPath(ids.patch)
  {
    var n := |cfg.patches|;
    var json, diff := ids.patch + ".json", ids.patch + ".diff";
    assert json[|json| - 1] == 'n' && diff[|diff| - 1] == 'f';
    assert cfg.MetaPath(ids.patch)[n] == json && cfg.DiffPath(ids.patch)[n] == diff;
    assert |cfg.BackupPath(ids.backup, t)| == n + 2;
  }

  /** What is stored leaves every other file outside the patches directory, and every patch file there was. */
  lemma StoredKeeps(cfg: Config, disk: Disk, path: string, t: Path, content: string, diff: string, ids: Ids)
    requires !InPatches(cfg, t) && cfg.MetaPath(ids.patch) !in disk && cfg.DiffPath(ids.patch) !in disk
    requires cfg.BackupPath(ids.backup, t) !in disk
    ensures var now := Stored(cfg, disk, path, t, content, diff, ids);
      && KeepsPatches(cfg, disk, now)
      && forall p :: !InPatches(cfg, p) && p != t ==> (p in disk <==> p in now) && (p in disk ==> now[p] == disk[p])
  {
    PatchPaths(cfg, ids, t);
  }

  /** A recorded change touches one file outside the patches directory and only adds files inside. */
  lemma ChangeKeeps(cfg: Config, disk: Disk, c: Change)
    requires Proper(cfg, disk, c)
    ensures KeepsPatches(cfg, disk, After(cfg, disk, c))
    ensures !Recorded(cfg, disk, c) ==> After(cfg, disk, c) == disk
    ensures Recorded(cfg, disk, c) ==>
              forall p :: !InPatches(cfg, p) && p != Effect(cfg, disk, c).value.1 ==>
                (p in disk <==> p in After(cfg, disk, c)) && (p in disk ==> After(cfg, disk, c)[p] == disk[p])
  {
    var e := Effect(cfg, disk, c);
    AnswerOf(cfg, disk, c, e);
    if Recorded(cfg, disk, c) {
      StoredKeeps(cfg, disk, e.value.0, e.value.1, e.value.2, e.value.3, c.ids);
    }
  }

  lemma {:induction false} RunKeepsPatches(cfg: Config, disk: Disk, cs: seq<Change>)
    requires ProperRun(cfg, disk, cs)
    ensures KeepsPatches(cfg, disk, RunAll(cfg, disk, cs))
    decreases |cs|
  {
    if cs != [] {
      ChangeKeeps(cfg, disk, cs[0]);
      RunKeepsPatches(cfg, After(cfg, disk, cs[0]), cs[1..]);
    }
  }

  lemma EffectTarget(cfg: Config, disk: Disk, c: Change)
    requires Effect(cfg, disk, c).Ok?
    ensures cfg.Target(Effect(cfg, disk, c).value.0) == Some(Effect(cfg, disk, c).value.1)
  {
  }

  /** Rolling back what was stored, on any disk that still has the files and the record. */
  lemma UndoStored(cfg: Config, disk: Disk, path: string, t: Path, content: string, diff: string, ids: Ids, later: Disk)
    requires cfg.Valid() && cfg.Target(path) == Some(t) && !InPatches(cfg, t)
    requires KeepsPatches(cfg, Stored(cfg, disk, path, t, content, diff, ids), later)
    ensures RolledBack(cfg, later, ids.patch) == Ok(if t in disk then later[t := disk[t]] else later - {t})
  {
    PatchPaths(cfg, ids, t);
    var stored := Stored(cfg, disk, path, t, content, diff, ids);
    var meta, backup := cfg.MetaPath(ids.patch), cfg.BackupPath(ids.backup, t);
    var record := PatchRecord(path, if t in disk then Some(backup) else None, cfg.DiffPath(ids.patch));
    assert meta in stored && stored[meta] == cfg.encode(record);
    assert t in disk ==> backup in stored && stored[backup] == disk[t];
  }

  /** Rolling one change back, on any disk that still has its files and its records. */
  lemma UndoOne(cfg: Config, disk: Disk, c: Change, later: Disk)
    requires cfg.Valid() && Proper(cfg, disk, c) && Recorded(cfg, disk, c)
    requires SameOutside(cfg, After(cfg, disk, c), later) && KeepsPatches(cfg, After(cfg, disk, c), later)
    ensures RolledBack(cfg, later, c.ids.patch).Ok?
    ensures SameOutside(cfg, disk, RolledBack(cfg, later, c.ids.patch).value)
    ensures KeepsPatches(cfg, later, RolledBack(cfg, later, c.ids.patch).value)
  {
    var e := Effect(cfg, disk, c).value;
    EffectTarget(cfg, disk, c);
    AnswerOf(cfg, disk, c, Effect(cfg, disk, c));
    StoredUndone(cfg, disk, e.0, e.1, e.2, e.3, c.ids, later);
  }

  lemma StoredUndone(cfg: Config, disk: Disk, path: string, t: Path, content: string, diff: string, ids: Ids, later: Disk)
    requires cfg.Valid() && cfg.Target(path) == Some(t) && !InPatches(cfg, t)
    requires cfg.MetaPath(ids.patch) !in disk && cfg.DiffPath(ids.patch) !in disk && cfg.BackupPath(ids.backup, t) !in disk
    requires SameOutside(cfg, Stored(cfg, disk, path, t, content, diff, ids), later)
    requires KeepsPatches(cfg, Stored(cfg, disk, path, t, content, diff, ids), later)
    ensures RolledBack(cfg, later, ids.patch).Ok?
    ensures SameOutside(cfg, disk, RolledBack(cfg, later, ids.patch).value)
    ensures KeepsPatches(cfg, later, RolledBack(cfg, later, ids.patch).value)
  {
    StoredKeeps(cfg, disk, path, t, content, diff, ids);
    UndoStored(cfg, disk, path, t, content, diff, ids, later);
  }

  /** For every run of edits outside the patches directory, rolling back the recorded patches in
      reverse order succeeds and brings every other file back: its content and whether it exists.
      This holds on any disk that agrees with the end of the run, whatever patch files were added. */
  lemma {:induction false} UndoStack(cfg: Config, disk: Disk, cs: seq<Change>, later: Disk)
    requires cfg.Valid() && ProperRun(cfg, disk, cs)
    requires SameOutside(cfg, RunAll(cfg, disk, cs), later) && KeepsPatches(cfg, RunAll(cfg, disk, cs), later)
    ensures UndoAll(cfg, later, RecordedIds(cfg, disk, cs)).Ok?
    ensures SameOutside(cfg, disk, UndoAll(cfg, later, RecordedIds(cfg, disk, cs)).value)
    ensures KeepsPatches(cfg, later, UndoAll(cfg, later, RecordedIds(cfg, disk, cs)).value)
    decreases |cs|
  {
    if cs != [] {
      var c, next := cs[0], After(cfg, disk, cs[0]);
      var ids := RecordedIds(cfg, next, cs[1..]);
      UndoStack(cfg, next, cs[1..], later);
      RunKeepsPatches(cfg, next, cs[1..]);
      ChangeKeeps(cfg, disk, c);
      var d := UndoAll(cfg, later, ids).value;
      if Recorded(cfg, disk, c) {
        UndoOne(cfg, disk, c, d);
        assert ([c.ids.patch] + ids)[1..] == ids;
      } else {
        assert [] + ids == ids;
      }
    }
  }

  // ---------- Patching through the editor ----------

  ghost predicate HasB(s: string) {
    exists k :: 0 <= k < |s| - 1 && s[k] == 'b' && s[k + 1] == '/'
  }

  lemma {:induction false} RemoveFirstBFixes(s: string)
    ensures RemoveFirstB(s) == s <==> !HasB(s)
    ensures |RemoveFirstB(s)| <= |s|
  {
    if |s| >= 2 && !(s[0] == 'b' && s[1] == '/') {
      RemoveFirstBFixes(s[1..]);
      assert s == [s[0]] + s[1..];
      HasBLater(s);
    }
  }

  lemma HasBLater(s: string)
    requires |s| >= 2 && !(s[0] == 'b' && s[1] == '/')
    ensures HasB(s) <==> HasB(s[1..])
  {
    var t := s[1..];
    if k :| 0 <= k < |t| - 1 && t[k] == 'b' && t[k + 1] == '/' {
      assert s[k + 1] == 'b' && s[k + 2] == '/';
    }
    if k :| 0 <= k < |s| - 1 && s[k] == 'b' && s[k + 1] == '/' {
      assert k > 0 && t[k - 1] == 'b' && t[k - 1 + 1] == '/';
    }
  }

  lemma {:induction false} FirstBRemoved(before: string, after: string)
    requires !HasB(before + "b")
    ensures RemoveFirstB(before + ("b/" + after)) == before + after
  {
    var s := before + ("b/" + after);
    if before == "" {
      assert s[0] == 'b' && s[1] == '/' && s[2..] == after;
    } else {
      BOf(before, s, after);
      FirstBRemoved(before[1..], after);
      assert s[1..] == before[1..] + ("b/" + after);
      assert [before[0]] + (before[1..] + after) == before + after;
    }
  }

  lemma BOf(before: string, s: string, after: string)
    requires before != "" && s == before + ("b/" + after) && !HasB(before + "b")
    ensures |s| >= 2 && s[0] == before[0] && !(s[0] == 'b' && s[1] == '/') && !HasB(before[1..] + "b")
  {
    var b := before + "b";
    assert s[1] == b[1] && b[0] == s[0];
    assert before[1..] + "b" == b[1..];
    assert b[0] == 'b' && b[0 + 1] == '/' ==> HasB(b);
    HasBLater(b);
  }

  /** The target of any diff: the first line that starts with `+++` names it, four characters on; the space around
      the name goes, and the first "b/" in it. */
  lemma TargetIsRead(lines: seq<string>, k: nat, left: string, name: string, right: string)
    requires k < |lines| && (forall j | 0 <= j < k :: !StartsWith(lines[j], "+++")) && StartsWith(lines[k], "+++")
    requires |lines[k]| >= 4 && lines[k][4..] == left + name + right && AllSpace(left) && AllSpace(right) && SolidEnds(name)
    ensures !HasB(name) ==> FirstTarget(lines) == Some(name)
    ensures forall a: string, c: string | name == a + ("b/" + c) && !HasB(a + "b") :: FirstTarget(lines) == Some(a + c)
  {
    forall j | 0 <= j <= k
      ensures IsTargetLine(lines[j]) <==> StartsWith(lines[j], "+++")
    {
      TargetPrefix(lines[j]);
    }
    FirstTargetAt(lines, k);
    StripOf(left, name, right);
    RemoveFirstBFixes(name);
    forall a: string, c: string | name == a + ("b/" + c) && !HasB(a + "b")
      ensures FirstTarget(lines) == Some(a + c)
    {
      FirstBRemoved(a, c);
    }
  }

  lemma {:induction false} FirstTargetAt(lines: seq<string>, k: nat)
    requires k < |lines| && (forall j | 0 <= j < k :: !IsTargetLine(lines[j])) && IsTargetLine(lines[k])
    ensures FirstTarget(lines) == Some(TargetOfLine(lines[k]))
  {
    if k > 0 {
      FirstTargetAt(lines[1..], k - 1);
    }
  }

  lemma TargetPrefix(line: string)
    ensures IsTargetLine(line) <==> StartsWith(line, "+++")
  {
    assert |line| >= 3 ==> line[..3] == [line[0], line[1], line[2]];
  }

  /** Without such a line there is none. */
  lemma {:induction false} NoTarget(lines: seq<string>)
    ensures FirstTarget(lines) == None <==> forall k | 0 <= k < |lines| :: !StartsWith(lines[k], "+++")
  {
    if lines != [] {
      TargetPrefix(lines[0]);
      NoTarget(lines[1..]);
    }
  }

  /** The target path read from a printed diff is the path it was printed for if and only if that
      path has no outer whitespace and no "b/" in it. */
  lemma TargetOfPrintedDiff(path: string, hunks: seq<Diff.Hunk>)
    requires hunks != [] && OneLine(path) && DiffRoundTrip.CleanHunks(hunks)
    ensures FirstTarget(SplitLines(Diff.GenerateDiff(path, hunks))).Some?
    ensures FirstTarget(SplitLines(Diff.GenerateDiff(path, hunks))).value == path <==> Strip(path) == path && !HasB(path)
  {
    DiffRoundTrip.ReadsDiff(path, hunks);
    TargetOfToLine(path);
    FirstTargetSecond(Diff.FromLine(path), Diff.ToLine(path), Diff.PrintHunks(hunks));
    RemoveFirstBFixes(Strip(path));
  }

  lemma TargetOfToLine(path: string)
    ensures !IsTargetLine(Diff.FromLine(path)) && IsTargetLine(Diff.ToLine(path))
    ensures TargetOfLine(Diff.ToLine(path)) == RemoveFirstB(Strip(path))
  {
    var from, to := Diff.FromLine(path), Diff.ToLine(path);
    assert from[0] == '-' && to[0] == '+' && to[1] == '+' && to[2] == '+';
    assert to[4..] == path;
  }

  lemma FirstTargetSkips(lines: seq<string>)
    requires |lines| >= 2 && !IsTargetLine(lines[0]) && IsTargetLine(lines[1])
    ensures FirstTarget(lines) == Some(TargetOfLine(lines[1]))
  {
    assert lines[1..][0] == lines[1];
  }

  lemma FirstTargetSecond(from: string, to: string, rest: seq<string>)
    requires !IsTargetLine(from) && IsTargetLine(to)
    ensures FirstTarget([from, to] + rest) == Some(TargetOfLine(to))
  {
    FirstTargetSkips([from, to] + rest);
  }

  lemma EffectOfPatch(cfg: Config, disk: Disk, diff: string, path: string, t: Path, content: string, ids: Ids)
    requires FirstTarget(SplitLines(diff)) == Some(path) && cfg.Target(path) == Some(t)
    requires Diff.Applied(OldText(disk, t), diff) == Ok(content)
    ensures Effect(cfg, disk, Patch(diff, false, ids)) == Ok((path, t, content, diff))
  {
  }

  /** The patch part: the printed diff is accepted for its own file and gives it the new lines. */
  lemma PatchEffect(cfg: Config, disk: Disk, path: string, after: string, hunks: seq<Diff.Hunk>, ids: Ids)
    requires cfg.Target(path).Some?
    requires OneLine(path) && Strip(path) == path && !HasB(path)
    requires var before := OldText(disk, cfg.resolve(path));
      && hunks != [] && Diff.ValidHunks(SplitLines(before), SplitLines(after), hunks, 0, 0)
      && Diff.Anchored(hunks, 0) && DiffRoundTrip.LastLineShown(SplitLines(after))
    ensures var e := Effect(cfg, disk, Patch(Diff.GenerateDiff(path, hunks), false, ids));
      e.Ok? && e.value.1 == cfg.resolve(path) && SplitLines(e.value.2) == SplitLines(after)
  {
    var before := OldText(disk, cfg.resolve(path));
    DiffRoundTrip.ValidHunksAreClean(SplitLines(before), SplitLines(after), hunks, 0, 0);
    TargetOfPrintedDiff(path, hunks);
    DiffRoundTrip.AnchoredIsExact(SplitLines(before), hunks, 0);
    DiffRoundTrip.RoundTrip(before, after, path, hunks);
    var diff := Diff.GenerateDiff(path, hunks);
    EffectOfPatch(cfg, disk, diff, path, cfg.resolve(path), Diff.Applied(before, diff).value, ids);
  }

  /** Printing the difference between a file and a new text, applying that diff to the file as a
      patch, and rolling the patch back: the patch gives the file the new lines, and the rollback
      gives it its old bytes. */
  lemma PatchAndRollback(cfg: Config, disk: Disk, path: string, after: string, hunks: seq<Diff.Hunk>, ids: Ids)
    requires cfg.Valid() && cfg.Target(path).Some?
    requires OneLine(path) && Strip(path) == path && !HasB(path)
    requires var before := OldText(disk, cfg.resolve(path));
      && hunks != [] && Diff.ValidHunks(SplitLines(before), SplitLines(after), hunks, 0, 0)
      && Diff.Anchored(hunks, 0) && DiffRoundTrip.LastLineShown(SplitLines(after))
    requires Proper(cfg, disk, Patch(Diff.GenerateDiff(path, hunks), false, ids))
    ensures var c := Patch(Diff.GenerateDiff(path, hunks), false, ids);
      var patched := After(cfg, disk, c);
      && Recorded(cfg, disk, c)
      && cfg.resolve(path) in patched && SplitLines(patched[cfg.resolve(path)]) == SplitLines(after)
      && RolledBack(cfg, patched, ids.patch).Ok?
      && SameOutside(cfg, disk, RolledBack(cfg, patched, ids.patch).value)
  {
    var c := Patch(Diff.GenerateDiff(path, hunks), false, ids);
    PatchEffect(cfg, disk, path, after, hunks, ids);
    ChangedThenUndone(cfg, disk, c);
  }

  lemma ChangedThenUndone(cfg: Config, disk: Disk, c: Change)
    requires cfg.Valid() && Proper(cfg, disk, c) && Recorded(cfg, disk, c)
    ensures var (_, t, content, _) := Effect(cfg, disk, c).value;
      t in After(cfg, disk, c) && After(cfg, disk, c)[t] == content
    ensures RolledBack(cfg, After(cfg, disk, c), c.ids.patch).Ok?
    ensures SameOutside(cfg, disk, RolledBack(cfg, After(cfg, disk, c), c.ids.patch).value)
  {
    var e := Effect(cfg, disk, c).value;
    PatchPaths(cfg, c.ids, e.1);
    UndoOne(cfg, disk, c, After(cfg, disk, c));
  }
}
