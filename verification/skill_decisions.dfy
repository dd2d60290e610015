/** What each operation on the skill tables does, told on the rows, and what becomes of a proposal over a run
    (db/skill_service.py, services/agent_learning_service.py). */
module SkillDecisions {
  import opened Text
  import opened SkillStore
  import opened SkillStoreSafety

  // ---------- One operation ----------

  /** The version is newer than every row of its name. */
  ghost predicate NewerThanAll(skills: seq<Skill>, w: Workspace, d: Definition) {
    forall i | 0 <= i < |skills| && SameSkill(skills[i], w, d.name) :: skills[i].definition.version < d.version
  }

  /** Row `id` has this name, version and content. */
  predicate IsThere(skills: seq<Skill>, w: Workspace, d: Definition, id: nat) {
    && id < |skills| && SameSkill(skills[id], w, d.name)
    && skills[id].definition.version == d.version && skills[id].definition.digest == d.digest
  }

  /** Row `id` is the version published: the one that was there, or a new active row, after which no other row of
      its name is active. */
  ghost predicate Publishes(was: seq<Skill>, w: Workspace, d: Definition, now: seq<Skill>, id: nat) {
    || (IsThere(was, w, d, id) && now == was)
    || (&& NewerThanAll(was, w, d) && id == |was| && |now| == |was| + 1 && now[id] == Skill(w, d, Active)
        && forall i | 0 <= i < |was| ::
             now[i] == if SameSkill(was[i], w, d.name) then was[i].(status := Superseded) else was[i])
  }

  ghost predicate MayPublish(skills: seq<Skill>, w: Workspace, d: Definition) {
    NewerThanAll(skills, w, d) || exists id: nat :: IsThere(skills, w, d, id)
  }

  predicate NoProposal(st: Store, w: Workspace, d: Definition) {
    forall i | 0 <= i < |st.proposals| :: !(st.proposals[i].workspace == w && st.proposals[i].definition == d)
  }

  /** A pending proposal with its pending approval is added. */
  predicate AddsProposal(st: Store, w: Workspace, d: Definition, now: Store) {
    && now.skills == st.skills
    && now.proposals == st.proposals + [Proposal(w, d, Proposed, None)]
    && now.approvals == st.approvals + [Approval(|st.proposals|, Waiting)]
  }

  predicate Pending(st: Store, p: nat) {
    p < |st.proposals| && st.proposals[p].status == Proposed
  }

  predicate Waits(st: Store, p: nat) {
    p < |st.approvals| && st.approvals[p].status == Waiting
  }

  /** The proposal gets this status and its approval that one; every other row is as it was. */
  predicate Decides(st: Store, p: nat, status: ProposalStatus, answer: ApprovalStatus, now: Store)
    requires p < |st.proposals| && p < |st.approvals|
  {
    && now.skills == st.skills
    && now.proposals == st.proposals[p := st.proposals[p].(status := status)]
    && now.approvals == st.approvals[p := Approval(p, answer)]
  }

  /** The proposal's version is published and the proposal points to its row. */
  ghost predicate PublishesProposal(st: Store, p: nat, status: ProposalStatus, now: Store)
    requires p < |st.proposals|
  {
    exists id: nat ::
      && Publishes(st.skills, st.proposals[p].workspace, st.proposals[p].definition, now.skills, id)
      && now.proposals == st.proposals[p := st.proposals[p].(status := status, applied := Some(id))]
  }

  /** What a review does. */
  ghost predicate Reviews(st: Store, p: nat, approve: bool, now: Store)
    requires |st.approvals| == |st.proposals|
  {
    if !(Pending(st, p) && Waits(st, p)) then now == st
    else if !approve then Decides(st, p, Rejected, Refused, now)
    else if MayPublish(st.skills, st.proposals[p].workspace, st.proposals[p].definition) then
      PublishesProposal(st, p, Applied, now) && now.approvals == st.approvals[p := Approval(p, Granted)]
    else now == st
  }

  /** What an activation does. */
  ghost predicate Activates(st: Store, p: nat, now: Store) {
    if p < |st.proposals| && st.proposals[p].status in {Approved, Applied}
       && MayPublish(st.skills, st.proposals[p].workspace, st.proposals[p].definition)
    then PublishesProposal(st, p, Activated, now) && now.approvals == st.approvals
    else now == st
  }

  lemma PublishMeaning(skills: seq<Skill>, w: Workspace, d: Definition)
    requires Versioned(skills)
    ensures Publish(skills, w, d).Ok? <==> MayPublish(skills, w, d)
    ensures Publish(skills, w, d).Ok? ==>
      Publishes(skills, w, d, Publish(skills, w, d).value.0, Publish(skills, w, d).value.1)
  {
    var exact, latest := ExactSkill(skills, w, d), LatestSkill(skills, w, d.name);
    if exact.Some? {
      OneOfVersion(skills, w, d, exact.value);
      assert skills[exact.value].definition.digest == d.digest ==> IsThere(skills, w, d, exact.value);
    } else {
      NewerThanLatest(skills, w, d);
      if Publish(skills, w, d).Ok? {
        PublishesNew(skills, w, d);
      }
    }
  }

  lemma OneOfVersion(skills: seq<Skill>, w: Workspace, d: Definition, exact: nat)
    requires Versioned(skills) && exact < |skills| && SameSkill(skills[exact], w, d.name)
    requires skills[exact].definition.version == d.version
    ensures !NewerThanAll(skills, w, d)
    ensures forall id: nat | IsThere(skills, w, d, id) :: id == exact
  {
    forall id: nat | IsThere(skills, w, d, id)
      ensures id == exact
    {
      assert SameName(skills[id], skills[exact]) && SameName(skills[exact], skills[id]);
    }
  }

  lemma NewerThanLatest(skills: seq<Skill>, w: Workspace, d: Definition)
    ensures var latest := LatestSkill(skills, w, d.name);
      NewerThanAll(skills, w, d) <==> (latest.Some? ==> skills[latest.value].definition.version < d.version)
  {
  }

  lemma PublishesNew(skills: seq<Skill>, w: Workspace, d: Definition)
    requires Versioned(skills) && ExactSkill(skills, w, d).None? && NewerThanAll(skills, w, d)
    ensures Publishes(skills, w, d, Supersede(skills, w, d.name) + [Skill(w, d, Active)], |skills|)
  {
  }

  lemma ReviewDoes(st: Store, p: nat, approve: bool)
    requires Inv(st)
    ensures Reviews(st, p, approve, Apply(st, ReviewOp(p, approve)))
  {
    if p < |st.proposals| {
      PairedApproval(st, p);
      PublishMeaning(st.skills, st.proposals[p].workspace, st.proposals[p].definition);
    }
  }

  lemma ActivateDoes(st: Store, p: nat)
    requires Inv(st)
    ensures Activates(st, p, Apply(st, ActivateOp(p)))
  {
    if p < |st.proposals| {
      PublishMeaning(st.skills, st.proposals[p].workspace, st.proposals[p].definition);
    }
  }

  lemma ApproveDoes(st: Store, p: nat)
    requires Inv(st)
    ensures if Pending(st, p) then Decides(st, p, Approved, Granted, Apply(st, ApproveOp(p)))
            else Apply(st, ApproveOp(p)) == st
  {
    if p < |st.proposals| {
      PairedApproval(st, p);
    }
  }

  lemma CreateDoes(st: Store, w: Workspace, d: Definition)
    ensures if NewerThanAll(st.skills, w, d) && NoProposal(st, w, d) then AddsProposal(st, w, d, Apply(st, CreateOp(w, d)))
            else Apply(st, CreateOp(w, d)) == st
    ensures if NoProposal(st, w, d) then AddsProposal(st, w, d, Apply(st, ProposeOp(w, d)))
            else Apply(st, ProposeOp(w, d)) == st
  {
    NewerThanLatest(st.skills, w, d);
  }

  lemma ResolveDoes(st: Store, a: nat, grant: bool)
    ensures Apply(st, ResolveOp(a, grant)) ==
      if a < |st.approvals| then
        st.(approvals := st.approvals[a := Approval(st.approvals[a].proposal, if grant then Granted else Refused)])
      else st
  {
  }

  // ---------- Why an operation is refused ----------

  /** Row `id` has this name and version, whatever its content. */
  predicate VersionIsThere(skills: seq<Skill>, w: Workspace, d: Definition, id: nat) {
    id < |skills| && SameSkill(skills[id], w, d.name) && skills[id].definition.version == d.version
  }

  /** What is wrong with publishing: the version is there with other content, or it is not newer than all. */
  lemma PublishError(skills: seq<Skill>, w: Workspace, d: Definition)
    requires Versioned(skills) && !MayPublish(skills, w, d)
    ensures Publish(skills, w, d) ==
      Err(if exists id: nat :: VersionIsThere(skills, w, d, id) then DifferentContent else NotNewer)
  {
    PublishMeaning(skills, w, d);
    var exact := ExactSkill(skills, w, d);
    assert exact.Some? ==> VersionIsThere(skills, w, d, exact.value);
  }

  ghost predicate PendingTwin(st: Store, w: Workspace, d: Definition, q: nat) {
    Pending(st, q) && st.proposals[q].workspace == w && st.proposals[q].definition == d
  }

  /** What a proposal is answered: the version is published already, or with other content; it is pending, under
      the id it has; it is not newer than all; it was proposed before; or it is new, under the next id. */
  lemma CreateAnswer(st: Store, w: Workspace, d: Definition)
    requires Versioned(st.skills)
    ensures var r := CreateProposal(st, w, d);
      if (exists id: nat :: IsThere(st.skills, w, d, id)) then r == Err(AlreadyPublished)
      else if (exists id: nat :: VersionIsThere(st.skills, w, d, id)) then r == Err(DifferentContent)
      else if (exists q: nat :: PendingTwin(st, w, d, q)) then
        r.Ok? && r.value.0 == st && PendingTwin(st, w, d, r.value.1)
      else if !NewerThanAll(st.skills, w, d) then r == Err(NotNewer)
      else if !NoProposal(st, w, d) then r == Err(UniqueViolation)
      else r.Ok? && r.value.1 == |st.proposals|
  {
    var exact, pending := ExactSkill(st.skills, w, d), PendingProposal(st.proposals, w, d);
    NewerThanLatest(st.skills, w, d);
    if exact.Some? {
      OneOfVersion(st.skills, w, d, exact.value);
      assert VersionIsThere(st.skills, w, d, exact.value);
      assert st.skills[exact.value].definition.digest == d.digest ==> IsThere(st.skills, w, d, exact.value);
    } else if pending.Some? {
      assert PendingTwin(st, w, d, pending.value);
    }
  }

  /** Why a review is refused. */
  lemma ReviewError(st: Store, p: nat, approve: bool)
    requires Inv(st)
    ensures var r := Review(st, p, approve);
      && (p >= |st.proposals| ==> r == Err(NoSuchProposal))
      && (p < |st.proposals| && !(Pending(st, p) && Waits(st, p)) ==> r == Err(NotPending))
      && ((Pending(st, p) && Waits(st, p)
           && (!approve || MayPublish(st.skills, st.proposals[p].workspace, st.proposals[p].definition))) ==> r.Ok?)
  {
    if p < |st.proposals| {
      PairedApproval(st, p);
      PublishMeaning(st.skills, st.proposals[p].workspace, st.proposals[p].definition);
    }
  }

  /** Why an approval or an activation by the second route is refused. */
  lemma RouteError(st: Store, p: nat)
    requires Inv(st)
    ensures p >= |st.proposals| ==> Approve(st, p) == Err(NoSuchProposal) && Activate(st, p) == Err(NoSuchProposal)
    ensures p < |st.proposals| && !Pending(st, p) ==> Approve(st, p) == Err(NotPending)
    ensures p < |st.proposals| && st.proposals[p].status !in {Approved, Applied} ==> Activate(st, p) == Err(NotApproved)
    ensures Pending(st, p) ==> Approve(st, p).Ok?
    ensures (p < |st.proposals| && st.proposals[p].status in {Approved, Applied}
             && MayPublish(st.skills, st.proposals[p].workspace, st.proposals[p].definition)) ==> Activate(st, p).Ok?
  {
    if p < |st.proposals| {
      PublishMeaning(st.skills, st.proposals[p].workspace, st.proposals[p].definition);
    }
  }

  /** A directory with two definitions of one name and version is refused; any other is synced one by one. */
  lemma SyncRefuses(st: Store, w: Workspace, ds: seq<Definition>)
    ensures if (exists i, j :: 0 <= i < j < |ds| && ds[i].name == ds[j].name && ds[i].version == ds[j].version)
            then Sync(st, w, ds) == Err(DuplicateDefinition) else Sync(st, w, ds) == SyncAll(st, w, ds)
  {
  }

  predicate NameIsNew(skills: seq<Skill>, w: Workspace, name: string) {
    forall i | 0 <= i < |skills| :: !SameSkill(skills[i], w, name)
  }

  /** A step of a sync: a version that is there with this content, or is proposed and pending, is left; a name
      that is new gets its first row; a newer version never proposed is proposed; anything else fails. */
  lemma SyncOneDoes(st: Store, w: Workspace, d: Definition)
    requires Versioned(st.skills)
    ensures var r := SyncOne(st, w, d);
      if (exists id: nat :: IsThere(st.skills, w, d, id)) then r == Ok((st, IsUnchanged))
      else if NameIsNew(st.skills, w, d.name) then
        r == Ok((st.(skills := st.skills + [Skill(w, d, Active)]), IsCreated))
      else if !NewerThanAll(st.skills, w, d) then r.Err?
      else if NoProposal(st, w, d) then r.Ok? && r.value.1 == IsProposed && AddsProposal(st, w, d, r.value.0)
      else if (exists q: nat :: Pending(st, q) && SameProposal(st.proposals[q], w, d)) then r == Ok((st, IsUnchanged))
      else r == Err(UniqueViolation)
  {
    PublishMeaning(st.skills, w, d);
    NewerThanLatest(st.skills, w, d);
    PendingMeaning(st, w, d);
    if NameIsNew(st.skills, w, d.name) {
      FirstOfName(st.skills, w, d);
    }
  }

  lemma PendingMeaning(st: Store, w: Workspace, d: Definition)
    ensures PendingProposal(st.proposals, w, d).Some? <==>
      exists q: nat :: Pending(st, q) && SameProposal(st.proposals[q], w, d)
  {
    var found := PendingProposal(st.proposals, w, d);
    assert found.Some? ==> Pending(st, found.value) && SameProposal(st.proposals[found.value], w, d);
  }

  lemma FirstOfName(skills: seq<Skill>, w: Workspace, d: Definition)
    requires NameIsNew(skills, w, d.name)
    ensures Publish(skills, w, d) == Ok((skills + [Skill(w, d, Active)], |skills|))
  {
    assert Supersede(skills, w, d.name) == skills;
  }

  // ---------- A proposal over a run ----------

  /** A sync only adds proposals. */
  lemma {:induction false} SyncAddsProposals(st: Store, w: Workspace, ds: seq<Definition>)
    requires SyncAll(st, w, ds).Ok?
    ensures var now := SyncAll(st, w, ds).value.0;
      |st.proposals| <= |now.proposals| && now.proposals[..|st.proposals|] == st.proposals
    decreases |ds|
  {
    if ds != [] {
      var next := SyncOne(st, w, ds[0]).value.0;
      SyncOneAdds(st, w, ds[0]);
      SyncAddsProposals(next, w, ds[1..]);
      FrontOfFront(st.proposals, next.proposals, SyncAll(next, w, ds[1..]).value.0.proposals);
    }
  }

  lemma SyncOneAdds(st: Store, w: Workspace, d: Definition)
    requires SyncOne(st, w, d).Ok?
    ensures var now := SyncOne(st, w, d).value.0;
      |st.proposals| <= |now.proposals| && now.proposals[..|st.proposals|] == st.proposals
  {
  }

  lemma FrontOfFront(a: seq<Proposal>, b: seq<Proposal>, c: seq<Proposal>)
    requires |a| <= |b| <= |c| && b[..|a|] == a && c[..|b|] == b
    ensures c[..|a|] == a
  {
  }

  /** What an operation may do to a proposal, and why. */
  ghost predicate ProposalStep(st: Store, op: Op, now: Store, p: nat)
    requires p < |st.proposals| && p < |now.proposals|
  {
    var was, made := st.proposals[p], now.proposals[p];
    || made == was
    || (was.status == Proposed && op == ReviewOp(p, false) && made == was.(status := Rejected))
    || (was.status == Proposed && op == ReviewOp(p, true) && made.status == Applied)
    || (was.status == Proposed && op == ApproveOp(p) && made == was.(status := Approved))
    || (was.status in {Approved, Applied} && op == ActivateOp(p) && made.status == Activated)
  }

  lemma ProposalStays(st: Store, op: Op, p: nat)
    requires Inv(st) && p < |st.proposals|
    ensures p < |Apply(st, op).proposals| && ProposalStep(st, op, Apply(st, op), p)
  {
    match op
    case CreateOp(w, d) => CreateDoes(st, w, d);
    case ProposeOp(w, d) => CreateDoes(st, w, d);
    case ReviewOp(q, approve) => ReviewDoes(st, q, approve);
    case ApproveOp(q) => ApproveDoes(st, q);
    case ActivateOp(q) => ActivateDoes(st, q);
    case SyncOp(w, ds) =>
      if Sync(st, w, ds).Ok? {
        SyncAddsProposals(st, w, ds);
        assert st.proposals[p] == Sync(st, w, ds).value.0.proposals[..|st.proposals|][p];
      }
    case ResolveOp(a, grant) => ResolveDoes(st, a, grant);
  }

  lemma {:induction false} RejectedStays(st: Store, ops: seq<Op>, p: nat)
    requires Inv(st) && p < |st.proposals| && st.proposals[p].status == Rejected
    ensures p < |RunFrom(st, ops).proposals| && RunFrom(st, ops).proposals[p] == st.proposals[p]
    decreases |ops|
  {
    if ops != [] {
      ProposalStays(st, ops[0], p);
      ApplyKeeps(st, ops[0]);
      RejectedStays(Apply(st, ops[0]), ops[1..], p);
    }
  }

  /** A review that rejects a pending proposal leaves the skills and every other row, and refuses its approval; and
      whatever is done after, the proposal stays rejected and never stands behind a row. */
  lemma RejectedForGood(ops: seq<Op>, p: nat, later: seq<Op>)
    requires Pending(Run(ops), p) && Waits(Run(ops), p)
    ensures Decides(Run(ops), p, Rejected, Refused, Run(ops + [ReviewOp(p, false)]))
    ensures var st := Run(ops + [ReviewOp(p, false)] + later);
      p < |st.proposals| && st.proposals[p].status == Rejected && forall j: nat :: !Backs(st, p, j)
  {
    var before, op := Run(ops), ReviewOp(p, false);
    RunKeeps(ops);
    ReviewDoes(before, p, false);
    RunAppend(EMPTY, ops, [op]);
    assert [op][1..] == [];
    ApplyKeeps(before, op);
    RunAppend(EMPTY, ops + [op], later);
    RejectedStays(Run(ops + [op]), later, p);
  }

  /** Over a run a proposal that stands behind a row was approved before, by a review or by the second route. */
  lemma {:induction false} PublishedWasApproved(ops: seq<Op>, p: nat)
    requires p < |Run(ops).proposals| && Run(ops).proposals[p].status in {Approved, Applied, Activated}
    ensures exists k | 0 <= k < |ops| :: ops[k] in {ReviewOp(p, true), ApproveOp(p)} && Pending(Run(ops[..k]), p)
    decreases |ops|
  {
    if ops != [] {
      var front, op := ops[..|ops| - 1], ops[|ops| - 1];
      RunKeeps(front);
      LastOp(ops, front, op);
      if p < |Run(front).proposals| {
        ProposalStays(Run(front), op, p);
        if Run(front).proposals[p].status in {Approved, Applied, Activated} {
          PublishedWasApproved(front, p);
          var k :| 0 <= k < |front| && front[k] in {ReviewOp(p, true), ApproveOp(p)} && Pending(Run(front[..k]), p);
          assert ops[k] == front[k] && ops[..k] == front[..k];
        }
      } else {
        NewIsPending(Run(front), op, p);
      }
    }
  }

  lemma LastOp(ops: seq<Op>, front: seq<Op>, op: Op)
    requires ops != [] && front == ops[..|ops| - 1] && op == ops[|ops| - 1]
    ensures Run(ops) == Apply(Run(front), op)
  {
    assert ops == front + [op];
    RunAppend(EMPTY, front, [op]);
    assert [op][1..] == [];
  }

  /** A proposal starts pending. */
  lemma NewIsPending(st: Store, op: Op, p: nat)
    requires Inv(st) && |st.proposals| <= p < |Apply(st, op).proposals|
    ensures Apply(st, op).proposals[p].status == Proposed
  {
    match op
    case CreateOp(w, d) => CreateDoes(st, w, d);
    case ProposeOp(w, d) => CreateDoes(st, w, d);
    case ReviewOp(q, approve) => ReviewDoes(st, q, approve);
    case ApproveOp(q) => ApproveDoes(st, q);
    case ActivateOp(q) => ActivateDoes(st, q);
    case SyncOp(w, ds) => if Sync(st, w, ds).Ok? { SyncedArePending(st, w, ds, |st.proposals|); }
    case ResolveOp(a, grant) => ResolveDoes(st, a, grant);
  }

  lemma {:induction false} SyncedArePending(st: Store, w: Workspace, ds: seq<Definition>, from: nat)
    requires SyncAll(st, w, ds).Ok? && from <= |st.proposals|
    requires forall q | from <= q < |st.proposals| :: st.proposals[q].status == Proposed
    ensures var now := SyncAll(st, w, ds).value.0;
      forall q | from <= q < |now.proposals| :: now.proposals[q].status == Proposed
    decreases |ds|
  {
    if ds != [] {
      SyncOneAdds(st, w, ds[0]);
      SyncedArePending(SyncOne(st, w, ds[0]).value.0, w, ds[1..], from);
    }
  }
}
