/** What every run of the skill store keeps, and what a sync leaves behind
    (db/skill_service.py, services/agent_learning_service.py). */
module SkillStoreSafety {
  import opened Text
  import opened SkillStore

  // ---------- The invariant ----------

  predicate SameName(a: Skill, b: Skill) {
    a.workspace == b.workspace && a.definition.name == b.definition.name
  }

  predicate Last(skills: seq<Skill>, i: nat)
    requires i < |skills|
  {
    forall j | i < j < |skills| :: !SameName(skills[i], skills[j])
  }

  /** Versions of a name rise from row to row, and exactly the last row of a name is active. */
  ghost predicate Versioned(skills: seq<Skill>) {
    && (forall i, j | 0 <= i < j < |skills| && SameName(skills[i], skills[j]) ::
          skills[i].definition.version < skills[j].definition.version)
    && forall i | 0 <= i < |skills| :: skills[i].status == Active <==> Last(skills, i)
  }

  /** Each proposal came with its own approval. */
  ghost predicate Paired(st: Store) {
    |st.approvals| == |st.proposals| && forall a | 0 <= a < |st.approvals| :: st.approvals[a].proposal == a
  }

  predicate Published(p: Proposal) {
    p.status in {Applied, Activated}
  }

  /** The proposal was published as row `j`. */
  predicate Backs(st: Store, p: nat, j: nat) {
    p < |st.proposals| && Published(st.proposals[p]) && st.proposals[p].applied == Some(j)
  }

  /** A published proposal points to the skill it describes. */
  ghost predicate Linked(st: Store) {
    forall p | 0 <= p < |st.proposals| && Published(st.proposals[p]) ::
      match st.proposals[p].applied
      case None => false
      case Some(j) => j < |st.skills| && st.skills[j].workspace == st.proposals[p].workspace
                      && st.skills[j].definition == st.proposals[p].definition
  }

  predicate HasEarlier(skills: seq<Skill>, j: nat)
    requires j < |skills|
  {
    exists i | 0 <= i < j :: SameName(skills[i], skills[j])
  }

  /** Every row that is not the first of its name has a published proposal. */
  ghost predicate Backed(st: Store) {
    forall j | 0 <= j < |st.skills| && HasEarlier(st.skills, j) :: exists p :: Backs(st, p, j)
  }

  ghost predicate Inv(st: Store) {
    Versioned(st.skills) && Paired(st) && Linked(st) && Backed(st)
  }

  // ---------- Publication ----------

  /** Rows are only added, and a row only ever goes from active to superseded. */
  ghost predicate Evolves(a: seq<Skill>, b: seq<Skill>) {
    && |a| <= |b|
    && forall i | 0 <= i < |a| ::
         && b[i].workspace == a[i].workspace && b[i].definition == a[i].definition
         && (b[i].status == a[i].status || (a[i].status == Active && b[i].status == Superseded))
  }

  lemma PublishKeeps(skills: seq<Skill>, w: Workspace, d: Definition)
    requires Versioned(skills) && Publish(skills, w, d).Ok?
    ensures var (rows, id) := Publish(skills, w, d).value;
      && Versioned(rows) && Evolves(skills, rows) && |rows| <= |skills| + 1
      && id < |rows| && rows[id].workspace == w && rows[id].definition == d
      && (|rows| > |skills| ==> id == |skills|)
  {
    if ExactSkill(skills, w, d).None? {
      NewVersion(skills, w, d, Publish(skills, w, d).value.0);
    }
  }

  /** A row above all others of its name, after these were retired. */
  lemma NewVersion(skills: seq<Skill>, w: Workspace, d: Definition, rows: seq<Skill>)
    requires Versioned(skills) && rows == Supersede(skills, w, d.name) + [Skill(w, d, Active)]
    requires forall i | 0 <= i < |skills| && SameSkill(skills[i], w, d.name) :: skills[i].definition.version < d.version
    ensures Versioned(rows) && Evolves(skills, rows)
  {
    Rows(skills, w, d, rows);
    forall i, j | 0 <= i < j < |rows| && SameName(rows[i], rows[j])
      ensures rows[i].definition.version < rows[j].definition.version
    {
      VersionsRise(skills, w, d, rows, i, j);
    }
    forall i | 0 <= i < |skills|
      ensures rows[i].status == Active <==> Last(rows, i)
    {
      LastAfter(skills, rows, i);
    }
  }

  /** Rows keep what they describe. */
  ghost predicate SameContent(a: Skill, b: Skill) {
    a.workspace == b.workspace && a.definition == b.definition
  }

  lemma VersionsRise(skills: seq<Skill>, w: Workspace, d: Definition, rows: seq<Skill>, i: nat, j: nat)
    requires Versioned(skills) && |rows| == |skills| + 1 && rows[|skills|] == Skill(w, d, Active)
    requires i < j < |rows| && SameName(rows[i], rows[j])
    requires SameContent(rows[i], skills[i]) && (j < |skills| ==> SameContent(rows[j], skills[j]))
    requires SameSkill(skills[i], w, d.name) ==> skills[i].definition.version < d.version
    ensures rows[i].definition.version < rows[j].definition.version
  {
    if j < |skills| {
      assert SameName(skills[i], skills[j]);
    } else {
      assert SameSkill(skills[i], w, d.name);
    }
  }

  lemma Rows(skills: seq<Skill>, w: Workspace, d: Definition, rows: seq<Skill>)
    requires rows == Supersede(skills, w, d.name) + [Skill(w, d, Active)]
    ensures |rows| == |skills| + 1 && rows[|skills|] == Skill(w, d, Active)
    ensures forall i | 0 <= i < |skills| :: rows[i] == Retired(skills[i], w, d.name)
  {
    forall i | 0 <= i < |skills|
      ensures rows[i] == Retired(skills[i], w, d.name)
    {
      assert rows[i] == Supersede(skills, w, d.name)[i];
    }
  }

  lemma LastAfter(skills: seq<Skill>, rows: seq<Skill>, i: nat)
    requires i < |skills| && |rows| == |skills| + 1
    requires forall j | 0 <= j < |skills| :: SameName(rows[j], skills[j])
    ensures Last(rows, i) <==> Last(skills, i) && !SameName(rows[i], rows[|skills|])
  {
    forall j | i < j < |skills|
      ensures SameName(rows[i], rows[j]) <==> SameName(skills[i], skills[j])
    {
    }
  }

  /** Rows of a publication that are not first of their name were not before, but for the new one. */
  lemma EarlierStays(a: seq<Skill>, b: seq<Skill>, j: nat)
    requires Evolves(a, b) && j < |a|
    ensures HasEarlier(b, j) <==> HasEarlier(a, j)
  {
    assert forall i | 0 <= i < j :: SameName(b[i], b[j]) <==> SameName(a[i], a[j]);
  }

  // ---------- Operations ----------

  lemma PairedApproval(st: Store, p: nat)
    requires Paired(st) && p < |st.proposals|
    ensures ApprovalOf(st.approvals, p) == Some(p)
  {
    assert st.approvals[p].proposal == p;
  }

  /** A step in which proposals keep what backs a row, and every new row that needs it is backed. */
  ghost predicate ProposalsAdvance(a: seq<Proposal>, b: seq<Proposal>) {
    && |a| <= |b|
    && forall p | 0 <= p < |a| ::
         && b[p].workspace == a[p].workspace && b[p].definition == a[p].definition
         && (Published(a[p]) ==> Published(b[p]) && b[p].applied == a[p].applied)
  }

  lemma BackedStays(st: Store, st': Store)
    requires Backed(st) && Evolves(st.skills, st'.skills) && ProposalsAdvance(st.proposals, st'.proposals)
    requires forall j | |st.skills| <= j < |st'.skills| && HasEarlier(st'.skills, j) :: exists p :: Backs(st', p, j)
    ensures Backed(st')
  {
    forall j | 0 <= j < |st'.skills| && HasEarlier(st'.skills, j)
      ensures exists p :: Backs(st', p, j)
    {
      if j < |st.skills| {
        EarlierStays(st.skills, st'.skills, j);
        var p :| Backs(st, p, j);
        assert Backs(st', p, j);
      }
    }
  }

  /** The exact row of a published definition, when rows rise, is the only one it can be. */
  lemma ExactIs(skills: seq<Skill>, w: Workspace, d: Definition, j: nat)
    requires Versioned(skills) && j < |skills| && skills[j].workspace == w && skills[j].definition == d
    ensures ExactSkill(skills, w, d) == Some(j)
    ensures Publish(skills, w, d) == Ok((skills, j))
  {
    assert SameSkill(skills[j], w, d.name);
    var e := ExactSkill(skills, w, d).value;
    assert SameName(skills[j], skills[e]);
    assert !(e < j) && !(j < e);
  }

  /** Proposals stay linked while rows are only added and one proposal is pointed at its own row. */
  lemma LinkedStays(st: Store, st': Store, p: nat)
    requires Linked(st) && Evolves(st.skills, st'.skills) && p < |st.proposals| == |st'.proposals|
    requires forall q | 0 <= q < |st.proposals| && q != p :: st'.proposals[q] == st.proposals[q]
    requires st'.proposals[p].applied.Some?
    requires var j := st'.proposals[p].applied.value;
      j < |st'.skills| && st'.skills[j].workspace == st'.proposals[p].workspace && st'.skills[j].definition == st'.proposals[p].definition
    ensures Linked(st')
  {
  }

  /** Publishing a proposal's definition and pointing the proposal at the row. */
  lemma PublishProposalKeeps(st: Store, p: nat, status: ProposalStatus, st': Store)
    requires Inv(st) && p < |st.proposals| && status in {Applied, Activated}
    requires Publish(st.skills, st.proposals[p].workspace, st.proposals[p].definition).Ok?
    requires var (rows, id) := Publish(st.skills, st.proposals[p].workspace, st.proposals[p].definition).value;
      && st'.skills == rows
      && st'.proposals == st.proposals[p := st.proposals[p].(status := status, applied := Some(id))]
    requires Paired(st')
    ensures Inv(st') && Evolves(st.skills, st'.skills)
  {
    var w, d := st.proposals[p].workspace, st.proposals[p].definition;
    var id := Publish(st.skills, w, d).value.1;
    PublishKeeps(st.skills, w, d);
    LinkedStays(st, st', p);
    if Published(st.proposals[p]) {
      ExactIs(st.skills, w, d, st.proposals[p].applied.value);
    }
    PointedBacks(st, st', p, id);
  }

  lemma PointedBacks(st: Store, st': Store, p: nat, id: nat)
    requires Backed(st) && Evolves(st.skills, st'.skills) && |st'.skills| <= |st.skills| + 1
    requires |st'.skills| > |st.skills| ==> id == |st.skills|
    requires p < |st.proposals| == |st'.proposals|
    requires Published(st'.proposals[p]) && st'.proposals[p].applied == Some(id)
    requires st'.proposals == st.proposals[p := st'.proposals[p]]
    requires st'.proposals[p].workspace == st.proposals[p].workspace && st'.proposals[p].definition == st.proposals[p].definition
    requires Published(st.proposals[p]) ==> st.proposals[p].applied == Some(id)
    ensures Backed(st')
  {
    assert Backs(st', p, id);
    BackedStays(st, st');
  }

  lemma ReviewKeeps(st: Store, p: nat, approve: bool)
    requires Inv(st) && Review(st, p, approve).Ok?
    ensures Inv(Review(st, p, approve).value) && Evolves(st.skills, Review(st, p, approve).value.skills)
  {
    PairedApproval(st, p);
    var st' := Review(st, p, approve).value;
    if approve {
      PublishProposalKeeps(st, p, Applied, st');
    } else {
      BackedStays(st, st');
    }
  }

  lemma ActivateKeeps(st: Store, p: nat)
    requires Inv(st) && Activate(st, p).Ok?
    ensures Inv(Activate(st, p).value) && Evolves(st.skills, Activate(st, p).value.skills)
  {
    PublishProposalKeeps(st, p, Activated, Activate(st, p).value);
  }

  lemma ApproveKeeps(st: Store, p: nat)
    requires Inv(st) && Approve(st, p).Ok?
    ensures Inv(Approve(st, p).value) && Evolves(st.skills, Approve(st, p).value.skills)
  {
    PairedApproval(st, p);
    BackedStays(st, Approve(st, p).value);
  }

  lemma RecordKeeps(st: Store, w: Workspace, d: Definition)
    requires Inv(st) && CreateRecord(st, w, d).Ok?
    ensures Inv(CreateRecord(st, w, d).value) && Evolves(st.skills, CreateRecord(st, w, d).value.skills)
  {
    BackedStays(st, CreateRecord(st, w, d).value);
  }

  /** What a step of a sync does, by its answer. */
  lemma SyncOneCases(st: Store, w: Workspace, d: Definition)
    requires SyncOne(st, w, d).Ok?
    ensures var (st', kind) := SyncOne(st, w, d).value;
      match kind
      case IsUnchanged => st' == st
      case IsProposed => CreateRecord(st, w, d) == Ok(st')
      case IsCreated =>
        && ExactSkill(st.skills, w, d).None? && LatestSkill(st.skills, w, d.name).None?
        && Publish(st.skills, w, d).Ok? && st' == st.(skills := Publish(st.skills, w, d).value.0)
  {
  }

  lemma FirstKeeps(st: Store, w: Workspace, d: Definition, st': Store)
    requires Inv(st) && LatestSkill(st.skills, w, d.name).None? && Publish(st.skills, w, d).Ok?
    requires st' == st.(skills := Publish(st.skills, w, d).value.0)
    ensures Inv(st') && Evolves(st.skills, st'.skills)
  {
    PublishKeeps(st.skills, w, d);
    assert !HasEarlier(st'.skills, |st.skills|);
    BackedStays(st, st');
  }

  lemma SyncOneKeeps(st: Store, w: Workspace, d: Definition)
    requires Inv(st) && SyncOne(st, w, d).Ok?
    ensures Inv(SyncOne(st, w, d).value.0) && Evolves(st.skills, SyncOne(st, w, d).value.0.skills)
  {
    var (st', kind) := SyncOne(st, w, d).value;
    SyncOneCases(st, w, d);
    match kind
    case IsUnchanged =>
    case IsProposed => RecordKeeps(st, w, d);
    case IsCreated => FirstKeeps(st, w, d, st');
  }

  lemma EvolvesTransitive(a: seq<Skill>, b: seq<Skill>, c: seq<Skill>)
    requires Evolves(a, b) && Evolves(b, c)
    ensures Evolves(a, c)
  {
  }

  lemma {:induction false} SyncAllKeeps(st: Store, w: Workspace, ds: seq<Definition>)
    requires Inv(st) && SyncAll(st, w, ds).Ok?
    ensures Inv(SyncAll(st, w, ds).value.0) && Evolves(st.skills, SyncAll(st, w, ds).value.0.skills)
    decreases |ds|
  {
    if ds != [] {
      var st' := SyncOne(st, w, ds[0]).value.0;
      SyncOneKeeps(st, w, ds[0]);
      SyncAllKeeps(st', w, ds[1..]);
      EvolvesTransitive(st.skills, st'.skills, SyncAll(st', w, ds[1..]).value.0.skills);
    }
  }

  lemma ResolveKeeps(st: Store, a: nat, grant: bool)
    requires Inv(st) && Resolve(st, a, grant).Ok?
    ensures Inv(Resolve(st, a, grant).value)
  {
    BackedStays(st, Resolve(st, a, grant).value);
  }

  lemma NewProposalKeeps(st: Store, w: Workspace, d: Definition)
    requires Inv(st)
    ensures Inv(Apply(st, CreateOp(w, d))) && Evolves(st.skills, Apply(st, CreateOp(w, d)).skills)
    ensures Inv(Apply(st, ProposeOp(w, d))) && Evolves(st.skills, Apply(st, ProposeOp(w, d)).skills)
  {
    if CreateRecord(st, w, d).Ok? {
      RecordKeeps(st, w, d);
    }
  }

  lemma AnsweredProposalKeeps(st: Store, op: Op)
    requires Inv(st) && (op.ReviewOp? || op.ApproveOp? || op.ActivateOp?)
    ensures Inv(Apply(st, op)) && Evolves(st.skills, Apply(st, op).skills)
  {
    match op
    case ReviewOp(p, approve) => if Review(st, p, approve).Ok? { ReviewKeeps(st, p, approve); }
    case ApproveOp(p) => if Approve(st, p).Ok? { ApproveKeeps(st, p); }
    case ActivateOp(p) => if Activate(st, p).Ok? { ActivateKeeps(st, p); }
  }

  lemma SyncKeeps(st: Store, w: Workspace, ds: seq<Definition>)
    requires Inv(st)
    ensures Inv(Apply(st, SyncOp(w, ds))) && Evolves(st.skills, Apply(st, SyncOp(w, ds)).skills)
  {
    if Sync(st, w, ds).Ok? {
      SyncAllKeeps(st, w, ds);
    }
  }

  lemma ApplyKeeps(st: Store, op: Op)
    requires Inv(st)
    ensures Inv(Apply(st, op)) && Evolves(st.skills, Apply(st, op).skills)
  {
    match op
    case CreateOp(w, d) => NewProposalKeeps(st, w, d);
    case ProposeOp(w, d) => NewProposalKeeps(st, w, d);
    case SyncOp(w, ds) => SyncKeeps(st, w, ds);
    case ResolveOp(a, grant) => if Resolve(st, a, grant).Ok? { ResolveKeeps(st, a, grant); }
    case _ => AnsweredProposalKeeps(st, op);
  }

  lemma {:induction false} RunFromKeeps(st: Store, ops: seq<Op>)
    requires Inv(st)
    ensures Inv(RunFrom(st, ops)) && Evolves(st.skills, RunFrom(st, ops).skills)
    decreases |ops|
  {
    if ops != [] {
      var next := Apply(st, ops[0]);
      ApplyKeeps(st, ops[0]);
      RunFromKeeps(next, ops[1..]);
      EvolvesTransitive(st.skills, next.skills, RunFrom(next, ops[1..]).skills);
    }
  }

  lemma RunKeeps(ops: seq<Op>)
    ensures Inv(Run(ops))
  {
    RunFromKeeps(EMPTY, ops);
  }

  lemma {:induction false} RunAppend(st: Store, a: seq<Op>, b: seq<Op>)
    ensures RunFrom(st, a + b) == RunFrom(RunFrom(st, a), b)
    decreases |a|
  {
    if a == [] {
      assert a + b == b;
    } else {
      assert (a + b)[0] == a[0] && (a + b)[1..] == a[1..] + b;
      RunAppend(Apply(st, a[0]), a[1..], b);
    }
  }

  // ---------- Versions ----------

  /** In every reachable state, a name that has rows has exactly one active row, and that row has
      the highest version, above all others. */
  lemma OneActiveVersion(ops: seq<Op>, w: Workspace, name: string) returns (top: nat)
    requires exists i :: 0 <= i < |Run(ops).skills| && SameSkill(Run(ops).skills[i], w, name)
    ensures var skills := Run(ops).skills;
      && top < |skills| && SameSkill(skills[top], w, name) && skills[top].status == Active
      && forall i | 0 <= i < |skills| && i != top && SameSkill(skills[i], w, name) ::
           skills[i].status == Superseded && skills[i].definition.version < skills[top].definition.version
  {
    RunKeeps(ops);
    var skills := Run(ops).skills;
    top := LatestSkill(skills, w, name).value;
    forall i | 0 <= i < |skills| && i != top && SameSkill(skills[i], w, name)
      ensures i < top
    {
      assert SameName(skills[i], skills[top]);
    }
    forall i | 0 <= i < top && SameSkill(skills[i], w, name)
      ensures !Last(skills, i)
    {
      assert SameName(skills[i], skills[top]);
    }
  }

  /** Continuing a run never changes a version's content and never revives one. */
  lemma VersionsAreImmutable(ops: seq<Op>, more: seq<Op>)
    ensures Evolves(Run(ops).skills, Run(ops + more).skills)
  {
    RunKeeps(ops);
    RunAppend(EMPTY, ops, more);
    RunFromKeeps(Run(ops), more);
  }

  // ---------- Provenance ----------

  /** The approvals that were last answered "no" from outside, after the operation. */
  function Overrule(st: Store, op: Op, overruled: set<nat>): set<nat> {
    match op
    case ResolveOp(a, grant) =>
      if |st.approvals| <= a then overruled else if grant then overruled - {a} else overruled + {a}
    case ApproveOp(p) => if Approve(st, p).Ok? then overruled - {p} else overruled
    case _ => overruled
  }

  function OverruledFrom(st: Store, ops: seq<Op>, overruled: set<nat>): set<nat>
    decreases |ops|
  {
    if ops == [] then overruled else OverruledFrom(Apply(st, ops[0]), ops[1..], Overrule(st, ops[0], overruled))
  }

  function Overruled(ops: seq<Op>): set<nat> {
    OverruledFrom(EMPTY, ops, {})
  }

  /** The approval of a proposal that was approved is granted, unless it was overruled since. */
  ghost predicate Answered(st: Store, overruled: set<nat>) {
    && (forall a | a in overruled :: a < |st.approvals| && st.approvals[a].status == Refused)
    && forall p | 0 <= p < |st.proposals| && p < |st.approvals| && p !in overruled
                  && st.proposals[p].status in {Approved, Applied, Activated} ::
         st.approvals[p].status == Granted
  }

  lemma {:induction false} SyncAnswers(st: Store, w: Workspace, ds: seq<Definition>, overruled: set<nat>)
    requires Answered(st, overruled) && Paired(st) && SyncAll(st, w, ds).Ok?
    ensures Answered(SyncAll(st, w, ds).value.0, overruled)
    decreases |ds|
  {
    if ds != [] {
      SyncAnswers(SyncOne(st, w, ds[0]).value.0, w, ds[1..], overruled);
    }
  }

  lemma ReviewAnswers(st: Store, p: nat, approve: bool, overruled: set<nat>)
    requires Inv(st) && Answered(st, overruled)
    ensures Answered(Apply(st, ReviewOp(p, approve)), Overrule(st, ReviewOp(p, approve), overruled))
  {
    if p < |st.proposals| {
      PairedApproval(st, p);
    }
  }

  lemma ApproveAnswers(st: Store, p: nat, overruled: set<nat>)
    requires Inv(st) && Answered(st, overruled)
    ensures Answered(Apply(st, ApproveOp(p)), Overrule(st, ApproveOp(p), overruled))
  {
    if p < |st.proposals| {
      PairedApproval(st, p);
    }
  }

  lemma ActivateAnswers(st: Store, p: nat, overruled: set<nat>)
    requires Inv(st) && Answered(st, overruled)
    ensures Answered(Apply(st, ActivateOp(p)), Overrule(st, ActivateOp(p), overruled))
  {
  }

  lemma NewAnswers(st: Store, w: Workspace, d: Definition, overruled: set<nat>)
    requires Inv(st) && Answered(st, overruled)
    ensures Answered(Apply(st, CreateOp(w, d)), Overrule(st, CreateOp(w, d), overruled))
    ensures Answered(Apply(st, ProposeOp(w, d)), Overrule(st, ProposeOp(w, d), overruled))
  {
  }

  lemma ApplyAnswers(st: Store, op: Op, overruled: set<nat>)
    requires Inv(st) && Answered(st, overruled)
    ensures Answered(Apply(st, op), Overrule(st, op, overruled))
  {
    match op
    case CreateOp(w, d) => NewAnswers(st, w, d, overruled);
    case ProposeOp(w, d) => NewAnswers(st, w, d, overruled);
    case ReviewOp(p, approve) => ReviewAnswers(st, p, approve, overruled);
    case ApproveOp(p) => ApproveAnswers(st, p, overruled);
    case ActivateOp(p) => ActivateAnswers(st, p, overruled);
    case SyncOp(w, ds) => if Sync(st, w, ds).Ok? { SyncAnswers(st, w, ds, overruled); }
    case ResolveOp(_, _) =>
  }

  lemma {:induction false} RunAnswers(st: Store, ops: seq<Op>, overruled: set<nat>)
    requires Inv(st) && Answered(st, overruled)
    ensures Answered(RunFrom(st, ops), OverruledFrom(st, ops, overruled))
    decreases |ops|
  {
    if ops != [] {
      ApplyKeeps(st, ops[0]);
      ApplyAnswers(st, ops[0], overruled);
      RunAnswers(Apply(st, ops[0]), ops[1..], Overrule(st, ops[0], overruled));
    }
  }

  /** Every row that is not the lowest version of its name is pointed to by an applied or activated
      proposal with the same content, and that proposal's approval is granted if and only if nobody
      overruled it from outside. */
  lemma Provenance(ops: seq<Op>, i: nat, j: nat) returns (p: nat)
    requires i < |Run(ops).skills| && j < |Run(ops).skills| && SameName(Run(ops).skills[i], Run(ops).skills[j])
    requires Run(ops).skills[i].definition.version < Run(ops).skills[j].definition.version
    ensures Backs(Run(ops), p, j)
    ensures Run(ops).proposals[p].workspace == Run(ops).skills[j].workspace
    ensures Run(ops).proposals[p].definition == Run(ops).skills[j].definition
    ensures p < |Run(ops).approvals| && Run(ops).approvals[p].proposal == p
    ensures Run(ops).approvals[p].status == Granted <==> p !in Overruled(ops)
  {
    RunKeeps(ops);
    RunAnswers(EMPTY, ops, {});
    p := BackedBy(Run(ops), Overruled(ops), i, j);
  }

  lemma BackedBy(st: Store, overruled: set<nat>, i: nat, j: nat) returns (p: nat)
    requires Inv(st) && Answered(st, overruled)
    requires i < |st.skills| && j < |st.skills| && SameName(st.skills[i], st.skills[j])
    requires st.skills[i].definition.version < st.skills[j].definition.version
    ensures Backs(st, p, j)
    ensures st.proposals[p].workspace == st.skills[j].workspace && st.proposals[p].definition == st.skills[j].definition
    ensures p < |st.approvals| && st.approvals[p].proposal == p
    ensures st.approvals[p].status == Granted <==> p !in overruled
  {
    assert HasEarlier(st.skills, j);
    p :| Backs(st, p, j);
  }

  /** Nothing is overruled in a run without an outside refusal. */
  lemma {:induction false} NothingOverruled(st: Store, ops: seq<Op>)
    requires forall k | 0 <= k < |ops| :: !(ops[k].ResolveOp? && !ops[k].grant)
    ensures OverruledFrom(st, ops, {}) == {}
    decreases |ops|
  {
    if ops != [] {
      assert Overrule(st, ops[0], {}) == {};
      NothingOverruled(Apply(st, ops[0]), ops[1..]);
    }
  }

  /** Propose, approve, refuse from outside, activate: the new version is published although its
      approval stands refused. */
  lemma RefusedYetPublished(w: Workspace, d: Definition, e: Definition)
    requires d.name == e.name && d.version < e.version
    ensures var st := Run([SyncOp(w, [d]), ProposeOp(w, e), ApproveOp(0), ResolveOp(0, false), ActivateOp(0)]);
      && st.skills == [Skill(w, d, Superseded), Skill(w, e, Active)]
      && Backs(st, 0, 1) && st.approvals == [Approval(0, Refused)]
  {
    var one := Store([Skill(w, d, Active)], [], []);
    var two := Store(one.skills, [Proposal(w, e, Proposed, None)], [Approval(0, Waiting)]);
    var three := Store(one.skills, [Proposal(w, e, Approved, None)], [Approval(0, Granted)]);
    var four := Store(one.skills, [Proposal(w, e, Approved, None)], [Approval(0, Refused)]);
    RunOfFive(SyncOp(w, [d]), ProposeOp(w, e), ApproveOp(0), ResolveOp(0, false), ActivateOp(0));
    FirstSync(w, d);
    assert Apply(one, ProposeOp(w, e)) == two;
    ApproveOnly(one.skills, w, e);
    RefuseOnly(one.skills, w, e);
    SecondVersion(w, d, e);
    ActivateOnly(w, d, e);
  }

  lemma RunOfFive(a: Op, b: Op, c: Op, d: Op, e: Op)
    ensures Run([a, b, c, d, e]) == Apply(Apply(Apply(Apply(Apply(EMPTY, a), b), c), d), e)
  {
    var st := Apply(EMPTY, a);
    assert [a, b, c, d, e][1..] == [b, c, d, e] && [b, c, d, e][1..] == [c, d, e];
    assert [c, d, e][1..] == [d, e] && [d, e][1..] == [e] && [e][1..] == [];
    assert RunFrom(st, [b, c, d, e]) == RunFrom(Apply(st, b), [c, d, e]);
    assert RunFrom(Apply(Apply(st, b), c), [d, e]) == RunFrom(Apply(Apply(Apply(st, b), c), d), [e]);
  }

  lemma ApproveOnly(skills: seq<Skill>, w: Workspace, e: Definition)
    ensures Apply(Store(skills, [Proposal(w, e, Proposed, None)], [Approval(0, Waiting)]), ApproveOp(0))
            == Store(skills, [Proposal(w, e, Approved, None)], [Approval(0, Granted)])
  {
    var st := Store(skills, [Proposal(w, e, Proposed, None)], [Approval(0, Waiting)]);
    PairedApproval(st, 0);
  }

  lemma RefuseOnly(skills: seq<Skill>, w: Workspace, e: Definition)
    ensures Apply(Store(skills, [Proposal(w, e, Approved, None)], [Approval(0, Granted)]), ResolveOp(0, false))
            == Store(skills, [Proposal(w, e, Approved, None)], [Approval(0, Refused)])
  {
    assert [Approval(0, Granted)][0 := Approval(0, Refused)] == [Approval(0, Refused)];
  }

  lemma ActivateOnly(w: Workspace, d: Definition, e: Definition)
    requires Publish([Skill(w, d, Active)], w, e) == Ok(([Skill(w, d, Superseded), Skill(w, e, Active)], 1))
    ensures Apply(Store([Skill(w, d, Active)], [Proposal(w, e, Approved, None)], [Approval(0, Refused)]), ActivateOp(0))
            == Store([Skill(w, d, Superseded), Skill(w, e, Active)], [Proposal(w, e, Activated, Some(1))], [Approval(0, Refused)])
  {
    var before := [Proposal(w, e, Approved, None)];
    assert before[0 := Proposal(w, e, Activated, Some(1))] == [Proposal(w, e, Activated, Some(1))];
  }

  lemma FirstSync(w: Workspace, d: Definition)
    ensures Apply(EMPTY, SyncOp(w, [d])) == Store([Skill(w, d, Active)], [], [])
  {
    var one := Store([Skill(w, d, Active)], [], []);
    assert Supersede([], w, d.name) + [Skill(w, d, Active)] == one.skills;
    assert SyncOne(EMPTY, w, d) == Ok((one, IsCreated));
    assert [d][0] == d && [d][1..] == [];
    assert SyncAll(one, w, []) == Ok((one, []));
    assert SyncAll(EMPTY, w, [d]) == Ok((one, [IsCreated] + []));
    assert Sync(EMPTY, w, [d]) == SyncAll(EMPTY, w, [d]);
  }

  lemma SecondVersion(w: Workspace, d: Definition, e: Definition)
    requires d.name == e.name && d.version < e.version
    ensures Publish([Skill(w, d, Active)], w, e) == Ok(([Skill(w, d, Superseded), Skill(w, e, Active)], 1))
  {
    var skills := [Skill(w, d, Active)];
    assert skills[0] == Skill(w, d, Active);
    assert ExactSkill(skills, w, e).None?;
    var retired := Supersede(skills, w, e.name);
    assert retired == [Skill(w, d, Superseded)];
    assert retired + [Skill(w, e, Active)] == [Skill(w, d, Superseded), Skill(w, e, Active)];
  }

  // ---------- Sync ----------

  /** A sync of this definition would change nothing. */
  predicate Settled(st: Store, w: Workspace, d: Definition) {
    SyncOne(st, w, d) == Ok((st, IsUnchanged))
  }

  lemma SettledAfterOwn(st: Store, w: Workspace, d: Definition)
    requires Inv(st) && SyncOne(st, w, d).Ok?
    ensures Settled(SyncOne(st, w, d).value.0, w, d)
  {
    var (st', kind) := SyncOne(st, w, d).value;
    if kind == IsCreated {
      PublishKeeps(st.skills, w, d);
      ExactIs(st'.skills, w, d, |st.skills|);
    } else if kind == IsProposed {
      var n := |st.proposals|;
      assert SameProposal(st'.proposals[n], w, d) && st'.proposals[n].status == Proposed;
    }
  }

  /** The definitions of other names read the same rows after a first publication. */
  lemma OtherNameSame(skills: seq<Skill>, w: Workspace, d: Definition, e: Definition)
    requires Versioned(skills) && LatestSkill(skills, w, d.name).None? && e.name != d.name
    ensures var rows := Publish(skills, w, d).value.0;
      && Publish(skills, w, d).Ok?
      && (ExactSkill(rows, w, e) == ExactSkill(skills, w, e))
      && (LatestSkill(rows, w, e.name) == LatestSkill(skills, w, e.name))
      && rows[..|skills|] == skills
  {
    assert Supersede(skills, w, d.name) == skills;
    assert (skills + [Skill(w, d, Active)])[..|skills|] == skills;
  }

  /** A settled definition has rows of its name. */
  lemma SettledHasRows(st: Store, w: Workspace, e: Definition)
    requires Settled(st, w, e)
    ensures LatestSkill(st.skills, w, e.name).Some?
  {
  }

  lemma SettledAfterFirst(st: Store, w: Workspace, d: Definition, e: Definition, st': Store)
    requires Inv(st) && Settled(st, w, e) && d.name != e.name
    requires LatestSkill(st.skills, w, d.name).None? && Publish(st.skills, w, d).Ok?
    requires st' == st.(skills := Publish(st.skills, w, d).value.0)
    ensures Settled(st', w, e)
  {
    OtherNameSame(st.skills, w, d, e);
    SameReads(st, st', w, e);
  }

  /** A definition is settled wherever the tables read the same for it. */
  lemma SameReads(st: Store, st': Store, w: Workspace, e: Definition)
    requires Settled(st, w, e) && st'.proposals == st.proposals && |st.skills| <= |st'.skills|
    requires st'.skills[..|st.skills|] == st.skills
    requires ExactSkill(st'.skills, w, e) == ExactSkill(st.skills, w, e)
    requires LatestSkill(st'.skills, w, e.name) == LatestSkill(st.skills, w, e.name)
    ensures Settled(st', w, e)
  {
    assert forall k | 0 <= k < |st.skills| :: st'.skills[k] == st.skills[k];
  }

  lemma SettledAfterOther(st: Store, w: Workspace, d: Definition, e: Definition)
    requires Inv(st) && SyncOne(st, w, d).Ok? && Settled(st, w, e)
    requires d.name != e.name || d.version != e.version
    ensures Settled(SyncOne(st, w, d).value.0, w, e)
  {
    var (st', kind) := SyncOne(st, w, d).value;
    SyncOneCases(st, w, d);
    SettledHasRows(st, w, e);
    match kind
    case IsUnchanged =>
    case IsCreated => SettledAfterFirst(st, w, d, e, st');
    case IsProposed => SettledAfterProposal(st, w, d, e);
  }

  lemma SettledAfterProposal(st: Store, w: Workspace, d: Definition, e: Definition)
    requires Settled(st, w, e) && CreateRecord(st, w, d).Ok?
    ensures Settled(CreateRecord(st, w, d).value, w, e)
  {
    var st' := CreateRecord(st, w, d).value;
    if ExactSkill(st.skills, w, e).None? {
      var q := PendingProposal(st.proposals, w, e).value;
      assert st'.proposals[q] == st.proposals[q];
    }
  }

  ghost predicate AllSettled(st: Store, w: Workspace, ds: seq<Definition>) {
    forall k | 0 <= k < |ds| :: Settled(st, w, ds[k])
  }

  lemma SyncRest(st: Store, w: Workspace, ds: seq<Definition>, rest: seq<Definition>, st1: Store)
    requires SyncAll(st, w, ds).Ok? && ds != [] && rest == ds[1..]
    requires SyncOne(st, w, ds[0]).Ok? ==> st1 == SyncOne(st, w, ds[0]).value.0
    ensures SyncOne(st, w, ds[0]).Ok? && SyncAll(st1, w, rest).Ok?
    ensures SyncAll(st, w, ds).value.0 == SyncAll(st1, w, rest).value.0
    ensures SyncAll(st, w, ds).value.1 == [SyncOne(st, w, ds[0]).value.1] + SyncAll(st1, w, rest).value.1
  {
  }

  /** A sync that succeeds leaves every definition settled. */
  lemma {:induction false} SyncSettles(st: Store, w: Workspace, ds: seq<Definition>, settled: seq<Definition>)
    requires Inv(st) && DistinctKeys(settled + ds) && SyncAll(st, w, ds).Ok?
    requires AllSettled(st, w, settled)
    ensures AllSettled(SyncAll(st, w, ds).value.0, w, settled + ds)
    decreases |ds|
  {
    if ds == [] {
      assert settled + ds == settled;
    } else {
      var d, rest := ds[0], ds[1..];
      var st' := SyncOne(st, w, d).value.0;
      SyncRest(st, w, ds, rest, st');
      OneMoved(settled, d, rest, ds);
      SyncOneKeeps(st, w, d);
      SettledStep(st, w, d, settled, rest);
      SyncSettles(st', w, rest, settled + [d]);
    }
  }

  lemma OneMoved(settled: seq<Definition>, d: Definition, rest: seq<Definition>, ds: seq<Definition>)
    requires ds != [] && d == ds[0] && rest == ds[1..]
    ensures (settled + [d]) + rest == settled + ds
  {
  }

  lemma SettledStep(st: Store, w: Workspace, d: Definition, settled: seq<Definition>, rest: seq<Definition>)
    requires Inv(st) && DistinctKeys((settled + [d]) + rest) && SyncOne(st, w, d).Ok?
    requires AllSettled(st, w, settled)
    ensures AllSettled(SyncOne(st, w, d).value.0, w, settled + [d])
  {
    var all := (settled + [d]) + rest;
    SettledAfterOwn(st, w, d);
    forall k | 0 <= k < |settled|
      ensures Settled(SyncOne(st, w, d).value.0, w, settled[k])
    {
      assert all[k] == settled[k] && all[|settled|] == d;
      SettledAfterOther(st, w, d, settled[k]);
    }
  }

  lemma {:induction false} SettledSync(st: Store, w: Workspace, ds: seq<Definition>)
    requires forall k | 0 <= k < |ds| :: Settled(st, w, ds[k])
    ensures SyncAll(st, w, ds).Ok? && SyncAll(st, w, ds).value.0 == st
    ensures AllUnchanged(ds, SyncAll(st, w, ds).value.1)
  {
    if ds != [] {
      SettledSync(st, w, ds[1..]);
    }
  }

  ghost predicate AllUnchanged(ds: seq<Definition>, kinds: seq<Kind>) {
    |kinds| == |ds| && forall k | 0 <= k < |ds| :: kinds[k] == IsUnchanged
  }

  /** Syncing again at once succeeds, changes no row, and reports every definition as unchanged. */
  lemma SyncIsIdempotent(st: Store, w: Workspace, ds: seq<Definition>)
    requires Inv(st) && Sync(st, w, ds).Ok?
    ensures var st' := Sync(st, w, ds).value.0;
      Sync(st', w, ds).Ok? && Sync(st', w, ds).value.0 == st' && AllUnchanged(ds, Sync(st', w, ds).value.1)
  {
    assert [] + ds == ds;
    SyncSettles(st, w, ds, []);
    SettledSync(Sync(st, w, ds).value.0, w, ds);
  }

  function AllLabels(ds: seq<Definition>): seq<string> {
    if ds == [] then [] else AllLabels(ds[..|ds| - 1]) + [Label(ds[|ds| - 1])]
  }

  lemma {:induction false} KindsSplit(ds: seq<Definition>, kinds: seq<Kind>)
    requires |kinds| == |ds|
    ensures multiset(Labels(ds, kinds, IsCreated)) + multiset(Labels(ds, kinds, IsProposed)) + multiset(Labels(ds, kinds, IsUnchanged))
            == multiset(AllLabels(ds))
  {
    if ds != [] {
      KindsSplit(ds[..|ds| - 1], kinds[..|ds| - 1]);
    }
  }

  /** The three lists that a sync reports split the labels of the directory: none is lost, none is reported
      twice. */
  lemma LabelsSplit(st: Store, w: Workspace, ds: seq<Definition>, created: seq<string>, proposed: seq<string>,
      same: seq<string>)
    requires Sync(st, w, ds).Ok? && Filed(ds, Sync(st, w, ds).value.1, created, proposed, same)
    ensures multiset(created) + multiset(proposed) + multiset(same) == multiset(AllLabels(ds))
  {
    KindsSplit(ds, Sync(st, w, ds).value.1);
  }

  /** Which rows of a name there are after a step. */
  lemma NamesAfter(st: Store, w: Workspace, d: Definition, name: string)
    requires Inv(st) && SyncOne(st, w, d).Ok?
    ensures LatestSkill(SyncOne(st, w, d).value.0.skills, w, name).None? <==>
            LatestSkill(st.skills, w, name).None? && d.name != name
    ensures SyncOne(st, w, d).value.1 == IsCreated <==> LatestSkill(st.skills, w, d.name).None?
  {
    var (st', kind) := SyncOne(st, w, d).value;
    SyncOneCases(st, w, d);
    if kind == IsCreated {
      FirstIsLast(st.skills, w, d);
      OtherNamesStay(st.skills, w, d, name);
    }
  }

  lemma FirstIsLast(skills: seq<Skill>, w: Workspace, d: Definition)
    requires ExactSkill(skills, w, d).None? && LatestSkill(skills, w, d.name).None?
    ensures LatestSkill(Publish(skills, w, d).value.0, w, d.name).Some?
  {
    var rows := Publish(skills, w, d).value.0;
    assert SameSkill(rows[|skills|], w, d.name);
  }

  lemma OtherNamesStay(skills: seq<Skill>, w: Workspace, d: Definition, name: string)
    requires Versioned(skills) && LatestSkill(skills, w, d.name).None?
    ensures Publish(skills, w, d).Ok?
    ensures name != d.name ==> LatestSkill(Publish(skills, w, d).value.0, w, name) == LatestSkill(skills, w, name)
  {
    if name != d.name {
      OtherNameSame(skills, w, d, Definition(name, 0, ""));
    }
  }

  /** No definition before it has its name. */
  predicate FirstNamed(ds: seq<Definition>, k: nat)
    requires k < |ds|
  {
    forall j | 0 <= j < k :: ds[j].name != ds[k].name
  }

  lemma FirstNamedRest(ds: seq<Definition>, rest: seq<Definition>, k: nat)
    requires 0 < k < |ds| && rest == ds[1..]
    ensures rest[k - 1] == ds[k]
    ensures FirstNamed(ds, k) <==> ds[0].name != ds[k].name && FirstNamed(rest, k - 1)
  {
    assert forall j | 1 <= j < |ds| :: ds[j] == rest[j - 1];
    assert forall j | 0 <= j < |rest| :: rest[j] == ds[j + 1];
  }

  /** A sync reports a definition as created exactly when the tables had no row of its name and it is the first
      of its name in the directory. */
  lemma {:induction false} CreatedExactly(st: Store, w: Workspace, ds: seq<Definition>, k: nat)
    requires Inv(st) && SyncAll(st, w, ds).Ok? && k < |ds|
    ensures |SyncAll(st, w, ds).value.1| == |ds|
    ensures SyncAll(st, w, ds).value.1[k] == IsCreated <==> LatestSkill(st.skills, w, ds[k].name).None? && FirstNamed(ds, k)
    decreases |ds|
  {
    var st1, rest := SyncOne(st, w, ds[0]).value.0, ds[1..];
    SyncRest(st, w, ds, rest, st1);
    SyncKindsLength(st, w, ds);
    NamesAfter(st, w, ds[0], ds[k].name);
    if k > 0 {
      SyncOneKeeps(st, w, ds[0]);
      FirstNamedRest(ds, rest, k);
      CreatedExactly(st1, w, rest, k - 1);
    }
  }

  lemma {:induction false} SyncKindsLength(st: Store, w: Workspace, ds: seq<Definition>)
    requires SyncAll(st, w, ds).Ok?
    ensures |SyncAll(st, w, ds).value.1| == |ds|
    decreases |ds|
  {
    if ds != [] {
      SyncKindsLength(SyncOne(st, w, ds[0]).value.0, w, ds[1..]);
    }
  }
}
