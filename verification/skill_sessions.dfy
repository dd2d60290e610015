/** Publications by overlapping sessions. The code takes no locks on the skill tables: a publication decides on
    what it read and commits later, and only the unique constraint stands between two of them
    (db/skill_service.py, db/models.py). */
module SkillSessions {
  import opened Text
  import opened SkillStore
  import opened SkillStoreSafety

  /** A publication that commits: the rows there were when it looked for its version, for the latest version and
      for the active versions. */
  datatype Publication = Publication(workspace: Workspace, definition: Definition, forExact: seq<Skill>,
    forLatest: seq<Skill>, forActive: seq<Skill>)

  /** The queries found nothing against it. */
  predicate Passes(p: Publication) {
    var d := p.definition;
    var latest := LatestSkill(p.forLatest, p.workspace, d.name);
    && ExactSkill(p.forExact, p.workspace, d).None?
    && (latest.Some? ==> d.version > p.forLatest[latest.value].definition.version)
  }

  /** It adds a row: its queries let it, and so does the unique constraint on (workspace, name, version). */
  predicate Adds(rows: seq<Skill>, p: Publication) {
    Passes(p) && ExactSkill(rows, p.workspace, p.definition).None?
  }

  predicate SawActive(p: Publication, i: nat) {
    i < |p.forActive| && SameSkill(p.forActive[i], p.workspace, p.definition.name) && p.forActive[i].status == Active
  }

  /** The rows it saw active are superseded, by their ids. */
  function SupersedeSeen(rows: seq<Skill>, p: Publication): (r: seq<Skill>)
    ensures |r| == |rows|
    ensures forall i | 0 <= i < |rows| :: r[i] == if SawActive(p, i) then rows[i].(status := Superseded) else rows[i]
  {
    if rows == [] then [] else
      var n := |rows| - 1;
      SupersedeSeen(rows[..n], p) + [if SawActive(p, n) then rows[n].(status := Superseded) else rows[n]]
  }

  /** The rows after the commit; one that raises or finds its version there changes nothing. */
  function Committed(rows: seq<Skill>, p: Publication): seq<Skill> {
    if Adds(rows, p) then SupersedeSeen(rows, p) + [Skill(p.workspace, p.definition, Active)] else rows
  }

  /** It read what earlier states held, one query after the other; others may have committed since. */
  ghost predicate Read(states: seq<seq<Skill>>, p: Publication, now: nat)
    requires now < |states|
  {
    exists i, j, k | 0 <= i <= j <= k <= now ::
      p.forExact == states[i] && p.forLatest == states[j] && p.forActive == states[k]
  }

  /** A run of overlapping sessions from empty tables: the rows between the commits. */
  ghost predicate IsRun(states: seq<seq<Skill>>, run: seq<Publication>) {
    && |states| == |run| + 1
    && states[0] == []
    && forall k | 0 <= k < |run| :: Read(states, run[k], k) && states[k + 1] == Committed(states[k], run[k])
  }

  /** Without others in between this is the publication of the other theorems. */
  lemma CommittedAlone(rows: seq<Skill>, w: Workspace, d: Definition)
    ensures Committed(rows, Publication(w, d, rows, rows, rows)) ==
            match Publish(rows, w, d)
            case Ok((published, _)) => published
            case Err(_) => rows
  {
    var p := Publication(w, d, rows, rows, rows);
    if Adds(rows, p) {
      SupersedesAll(rows, p);
    }
  }

  // ---------- What every run keeps ----------

  /** No version of a name is there twice. */
  ghost predicate OneRowEach(rows: seq<Skill>) {
    forall i, j | 0 <= i < j < |rows| && SameName(rows[i], rows[j]) ::
      rows[i].definition.version != rows[j].definition.version
  }

  /** The last row of a name is active. */
  ghost predicate LastIsActive(rows: seq<Skill>) {
    forall i | 0 <= i < |rows| && Last(rows, i) :: rows[i].status == Active
  }

  /** What a commit leaves of the rows. */
  lemma AddedRows(rows: seq<Skill>, p: Publication, now: seq<Skill>)
    requires Adds(rows, p) && now == Committed(rows, p)
    ensures |now| == |rows| + 1 && now[|rows|] == Skill(p.workspace, p.definition, Active)
    ensures forall i | 0 <= i < |rows| :: SameContent(now[i], rows[i])
    ensures forall i | 0 <= i < |rows| :: now[i].status == if SawActive(p, i) then Superseded else rows[i].status
  {
  }

  /** The rows a publication read are still there, as they were but for their status. */
  ghost predicate Grown(earlier: seq<Skill>, rows: seq<Skill>) {
    |earlier| <= |rows| && forall i | 0 <= i < |earlier| :: SameContent(rows[i], earlier[i])
  }

  ghost predicate Sees(rows: seq<Skill>, p: Publication) {
    Grown(p.forActive, rows)
  }

  lemma OneRowStep(rows: seq<Skill>, p: Publication, now: seq<Skill>)
    requires OneRowEach(rows) && now == Committed(rows, p)
    ensures OneRowEach(now)
  {
    if Adds(rows, p) {
      AddedRows(rows, p, now);
      forall i, j | 0 <= i < j < |now| && SameName(now[i], now[j])
        ensures now[i].definition.version != now[j].definition.version
      {
        if j < |rows| {
          assert SameName(rows[i], rows[j]);
        } else {
          assert SameSkill(rows[i], p.workspace, p.definition.name);
        }
      }
    }
  }

  lemma LastStep(rows: seq<Skill>, p: Publication, now: seq<Skill>)
    requires LastIsActive(rows) && Sees(rows, p) && now == Committed(rows, p)
    ensures LastIsActive(now)
  {
    if Adds(rows, p) {
      AddedRows(rows, p, now);
      forall i | 0 <= i < |rows| && Last(now, i)
        ensures now[i].status == Active
      {
        LastBefore(rows, p, now, i);
      }
    }
  }

  lemma LastBefore(rows: seq<Skill>, p: Publication, now: seq<Skill>, i: nat)
    requires Adds(rows, p) && Sees(rows, p) && now == Committed(rows, p) && i < |rows| && Last(now, i)
    ensures Last(rows, i) && !SawActive(p, i)
  {
    AddedRows(rows, p, now);
    assert !SameName(now[i], now[|rows|]);
    forall j | i < j < |rows|
      ensures !SameName(rows[i], rows[j])
    {
      assert !SameName(now[i], now[j]);
    }
  }

  lemma {:induction false} RunGrows(states: seq<seq<Skill>>, run: seq<Publication>, j: nat, k: nat)
    requires IsRun(states, run) && j <= k < |states|
    ensures Grown(states[j], states[k])
    decreases k
  {
    if j < k {
      RunGrows(states, run, j, k - 1);
      CommitGrows(states[k - 1], run[k - 1], states[k]);
    }
  }

  lemma CommitGrows(rows: seq<Skill>, p: Publication, now: seq<Skill>)
    requires now == Committed(rows, p)
    ensures Grown(rows, now)
  {
  }

  lemma RunSees(states: seq<seq<Skill>>, run: seq<Publication>, k: nat)
    requires IsRun(states, run) && k < |run|
    ensures Sees(states[k], run[k])
  {
    assert Read(states, run[k], k);
    var j :| 0 <= j <= k && run[k].forActive == states[j];
    RunGrows(states, run, j, k);
  }

  /** However sessions overlap, no version is published twice, and the row published last is active. */
  lemma {:induction false} OverlappingRunsKeep(states: seq<seq<Skill>>, run: seq<Publication>, k: nat)
    requires IsRun(states, run) && k < |states|
    ensures OneRowEach(states[k]) && LastIsActive(states[k])
  {
    if k > 0 {
      OverlappingRunsKeep(states, run, k - 1);
      RunSees(states, run, k - 1);
      OneRowStep(states[k - 1], run[k - 1], states[k]);
      LastStep(states[k - 1], run[k - 1], states[k]);
    }
  }

  // ---------- When one version is active ----------

  ghost predicate OneActive(rows: seq<Skill>) {
    forall i, j | 0 <= i < j < |rows| && SameName(rows[i], rows[j]) ::
      rows[i].status == Superseded || rows[j].status == Superseded
  }

  /** Every row of the name that is active now was there when it looked for the active ones. */
  ghost predicate SawThemAll(rows: seq<Skill>, p: Publication) {
    forall i | 0 <= i < |rows| && SameSkill(rows[i], p.workspace, p.definition.name) && rows[i].status == Active ::
      SawActive(p, i)
  }

  lemma OneActiveStep(rows: seq<Skill>, p: Publication, now: seq<Skill>)
    requires OneActive(rows) && Adds(rows, p) && now == Committed(rows, p)
    ensures OneActive(now) <==> SawThemAll(rows, p)
  {
    AddedRows(rows, p, now);
    if SawThemAll(rows, p) {
      forall i, j | 0 <= i < j < |now| && SameName(now[i], now[j])
        ensures now[i].status == Superseded || now[j].status == Superseded
      {
        if j < |rows| {
          assert SameName(rows[i], rows[j]);
        } else {
          assert SameSkill(rows[i], p.workspace, p.definition.name);
        }
      }
    } else {
      MissedOne(rows, p, now);
    }
  }

  lemma MissedOne(rows: seq<Skill>, p: Publication, now: seq<Skill>)
    requires Adds(rows, p) && now == Committed(rows, p) && !SawThemAll(rows, p)
    ensures !OneActive(now)
  {
    AddedRows(rows, p, now);
    var i :| 0 <= i < |rows| && SameSkill(rows[i], p.workspace, p.definition.name) && rows[i].status == Active
             && !SawActive(p, i);
    assert SameName(now[i], now[|rows|]);
  }

  /** Over a run no name ever has two active versions if and only if each publication that adds a row saw all
      the active ones of its name. */
  lemma OneActiveExactly(states: seq<seq<Skill>>, run: seq<Publication>)
    requires IsRun(states, run)
    ensures (forall k | 0 <= k < |states| :: OneActive(states[k])) <==>
            (forall k | 0 <= k < |run| && Adds(states[k], run[k]) :: SawThemAll(states[k], run[k]))
  {
    if forall k | 0 <= k < |states| :: OneActive(states[k]) {
      forall k | 0 <= k < |run| && Adds(states[k], run[k])
        ensures SawThemAll(states[k], run[k])
      {
        OneActiveStep(states[k], run[k], states[k + 1]);
      }
    }
    if forall k | 0 <= k < |run| && Adds(states[k], run[k]) :: SawThemAll(states[k], run[k]) {
      forall k | 0 <= k < |states|
        ensures OneActive(states[k])
      {
        StaysOneActive(states, run, k);
      }
    }
  }

  lemma {:induction false} StaysOneActive(states: seq<seq<Skill>>, run: seq<Publication>, k: nat)
    requires IsRun(states, run) && k < |states|
    requires forall j | 0 <= j < |run| && Adds(states[j], run[j]) :: SawThemAll(states[j], run[j])
    ensures OneActive(states[k])
  {
    if k > 0 {
      StaysOneActive(states, run, k - 1);
      if Adds(states[k - 1], run[k - 1]) {
        OneActiveStep(states[k - 1], run[k - 1], states[k]);
      }
    }
  }

  // ---------- When it is the highest ----------

  /** It is newer than every row of its name when it commits. */
  ghost predicate Newest(rows: seq<Skill>, p: Publication) {
    forall i | 0 <= i < |rows| && SameSkill(rows[i], p.workspace, p.definition.name) ::
      rows[i].definition.version < p.definition.version
  }

  lemma SupersedesAll(rows: seq<Skill>, p: Publication)
    requires SawThemAll(rows, p) && Sees(rows, p)
    ensures SupersedeSeen(rows, p) == Supersede(rows, p.workspace, p.definition.name)
  {
    var r, all := SupersedeSeen(rows, p), Supersede(rows, p.workspace, p.definition.name);
    forall i | 0 <= i < |rows|
      ensures r[i] == all[i]
    {
      assert SawActive(p, i) ==> SameContent(rows[i], p.forActive[i]);
    }
  }

  lemma VersionedStep(rows: seq<Skill>, p: Publication, now: seq<Skill>)
    requires Versioned(rows) && Adds(rows, p) && Sees(rows, p) && now == Committed(rows, p)
    ensures Versioned(now) <==> SawThemAll(rows, p) && Newest(rows, p)
  {
    if SawThemAll(rows, p) && Newest(rows, p) {
      SupersedesAll(rows, p);
      NewVersion(rows, p.workspace, p.definition, now);
    } else if !SawThemAll(rows, p) {
      MissedOne(rows, p, now);
      OneActiveWhenVersioned(now);
    } else {
      NotNewest(rows, p, now);
    }
  }

  lemma OneActiveWhenVersioned(rows: seq<Skill>)
    ensures Versioned(rows) ==> OneActive(rows)
  {
  }

  lemma NotNewest(rows: seq<Skill>, p: Publication, now: seq<Skill>)
    requires Adds(rows, p) && now == Committed(rows, p) && !Newest(rows, p)
    ensures !Versioned(now)
  {
    AddedRows(rows, p, now);
    var i :| 0 <= i < |rows| && SameSkill(rows[i], p.workspace, p.definition.name)
             && rows[i].definition.version >= p.definition.version;
    assert SameName(now[i], now[|rows|]);
  }

  /** Over a run versions always rise, with only the highest active, if and only if each publication that adds a
      row saw all the active ones of its name and is newer than all there are when it commits. */
  lemma VersionedExactly(states: seq<seq<Skill>>, run: seq<Publication>)
    requires IsRun(states, run)
    ensures (forall k | 0 <= k < |states| :: Versioned(states[k])) <==>
            (forall k | 0 <= k < |run| && Adds(states[k], run[k]) ::
               SawThemAll(states[k], run[k]) && Newest(states[k], run[k]))
  {
    if forall k | 0 <= k < |states| :: Versioned(states[k]) {
      forall k | 0 <= k < |run| && Adds(states[k], run[k])
        ensures SawThemAll(states[k], run[k]) && Newest(states[k], run[k])
      {
        RunSees(states, run, k);
        VersionedStep(states[k], run[k], states[k + 1]);
      }
    }
    if forall k | 0 <= k < |run| && Adds(states[k], run[k]) ::
      SawThemAll(states[k], run[k]) && Newest(states[k], run[k]) {
      forall k | 0 <= k < |states|
        ensures Versioned(states[k])
      {
        StaysVersioned(states, run, k);
      }
    }
  }

  lemma {:induction false} StaysVersioned(states: seq<seq<Skill>>, run: seq<Publication>, k: nat)
    requires IsRun(states, run) && k < |states|
    requires forall j | 0 <= j < |run| && Adds(states[j], run[j]) ::
               SawThemAll(states[j], run[j]) && Newest(states[j], run[j])
    ensures Versioned(states[k])
  {
    if k > 0 {
      StaysVersioned(states, run, k - 1);
      RunSees(states, run, k - 1);
      CommitVersioned(states[k - 1], run[k - 1], states[k]);
    }
  }

  lemma CommitVersioned(rows: seq<Skill>, p: Publication, now: seq<Skill>)
    requires Versioned(rows) && Sees(rows, p) && now == Committed(rows, p)
    requires Adds(rows, p) ==> SawThemAll(rows, p) && Newest(rows, p)
    ensures Versioned(now)
  {
    if Adds(rows, p) {
      VersionedStep(rows, p, now);
    }
  }

  // ---------- They need not be ----------

  /** A run goes on with a publication that read one of its states. */
  lemma RunMore(states: seq<seq<Skill>>, run: seq<Publication>, p: Publication, from: nat, now: seq<Skill>)
    requires IsRun(states, run) && from <= |run| && now == Committed(states[|run|], p)
    requires p.forExact == states[from] && p.forLatest == states[from] && p.forActive == states[from]
    ensures IsRun(states + [now], run + [p])
  {
    var longer, more := states + [now], run + [p];
    forall k | 0 <= k < |more|
      ensures Read(longer, more[k], k) && longer[k + 1] == Committed(longer[k], more[k])
    {
      if k < |run| {
        StepStays(states, run, longer, more, k);
      } else {
        assert longer[from] == states[from];
        ReadAtOnce(longer, p, from, k);
      }
    }
  }

  lemma ReadAtOnce(states: seq<seq<Skill>>, p: Publication, from: nat, now: nat)
    requires from <= now < |states|
    requires p.forExact == states[from] && p.forLatest == states[from] && p.forActive == states[from]
    ensures Read(states, p, now)
  {
  }

  lemma StepStays(states: seq<seq<Skill>>, run: seq<Publication>, longer: seq<seq<Skill>>, more: seq<Publication>, k: nat)
    requires IsRun(states, run) && k < |run| < |more| && |states| < |longer|
    requires longer[..|states|] == states && more[..|run|] == run
    ensures Read(longer, more[k], k) && longer[k + 1] == Committed(longer[k], more[k])
  {
    assert more[k] == run[k] && longer[k] == states[k] && longer[k + 1] == states[k + 1];
    ReadStays(states, longer, run[k], k);
  }

  lemma ReadStays(states: seq<seq<Skill>>, longer: seq<seq<Skill>>, p: Publication, now: nat)
    requires now < |states| <= |longer| && longer[..|states|] == states && Read(states, p, now)
    ensures Read(longer, p, now)
  {
    var i, j, k :| 0 <= i <= j <= k <= now &&
      p.forExact == states[i] && p.forLatest == states[j] && p.forActive == states[k];
    assert longer[i] == states[i] && longer[j] == states[j] && longer[k] == states[k];
  }

  /** Two sessions publish different versions, each having read the tables before the other commits: both
      versions stay active. */
  lemma OverlappingPublications(w: Workspace, a: Definition, b: Definition, c: Definition)
      returns (states: seq<seq<Skill>>, run: seq<Publication>)
    requires a.name == b.name == c.name && a.version < b.version < c.version
    ensures IsRun(states, run) && |run| == 3
    ensures states[3] == [Skill(w, a, Superseded), Skill(w, b, Active), Skill(w, c, Active)]
    ensures !OneActive(states[3])
  {
    var one := [Skill(w, a, Active)];
    var two := [Skill(w, a, Superseded), Skill(w, b, Active)];
    var three := [Skill(w, a, Superseded), Skill(w, b, Active), Skill(w, c, Active)];
    var p, q, r := Publication(w, a, [], [], []), Publication(w, b, one, one, one), Publication(w, c, one, one, one);
    FirstPublished(w, a, p);
    SecondPublished(w, a, b, q, one, two);
    ThirdPublished(w, a, b, c, r, two, three);
    RunMore([[]], [], p, 0, one);
    RunMore([[]] + [one], [] + [p], q, 1, two);
    RunMore([[]] + [one] + [two], [] + [p] + [q], r, 1, three);
    states, run := [[]] + [one] + [two] + [three], [] + [p] + [q] + [r];
    assert SameName(three[1], three[2]);
  }

  lemma FirstPublished(w: Workspace, a: Definition, p: Publication)
    requires p == Publication(w, a, [], [], [])
    ensures Committed([], p) == [Skill(w, a, Active)]
  {
  }

  lemma SecondPublished(w: Workspace, a: Definition, b: Definition, p: Publication, one: seq<Skill>, two: seq<Skill>)
    requires a.name == b.name && a.version < b.version
    requires one == [Skill(w, a, Active)] && two == [Skill(w, a, Superseded), Skill(w, b, Active)]
    requires p == Publication(w, b, one, one, one)
    ensures Committed(one, p) == two
  {
    assert SupersedeSeen(one, p) == [Skill(w, a, Superseded)];
  }

  lemma ThirdPublished(w: Workspace, a: Definition, b: Definition, c: Definition, p: Publication, two: seq<Skill>,
      three: seq<Skill>)
    requires a.name == b.name == c.name && a.version < b.version < c.version
    requires p.workspace == w && p.definition == c && p.forActive == [Skill(w, a, Active)]
    requires p.forExact == p.forLatest == p.forActive
    requires two == [Skill(w, a, Superseded), Skill(w, b, Active)]
    requires three == [Skill(w, a, Superseded), Skill(w, b, Active), Skill(w, c, Active)]
    ensures Committed(two, p) == three
  {
    assert SupersedeSeen(two, p) == two;
  }
}
