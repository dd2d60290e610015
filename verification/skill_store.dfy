/** The store of versioned skills: proposals, two ways of approving them, publication, and the
    directory sync (db/skill_service.py, services/agent_learning_service.py). An operation that
    raises leaves the tables as they were. A row's id is its place in its table. */
module SkillStore {
  import opened Text

  type Workspace = nat

  /** A parsed skill file; `digest` is the content hash of everything it says. */
  datatype Definition = Definition(name: string, version: nat, digest: string)

  datatype SkillStatus = Active | Superseded

  datatype Skill = Skill(workspace: Workspace, definition: Definition, status: SkillStatus)

  datatype ProposalStatus = Proposed | Rejected | Approved | Applied | Activated

  datatype Proposal = Proposal(workspace: Workspace, definition: Definition, status: ProposalStatus, applied: Option<nat>)

  datatype ApprovalStatus = Waiting | Granted | Refused

  datatype Approval = Approval(proposal: nat, status: ApprovalStatus)

  datatype Store = Store(skills: seq<Skill>, proposals: seq<Proposal>, approvals: seq<Approval>)

  datatype Error =
    | DifferentContent
    | AlreadyPublished
    | NotNewer
    | UniqueViolation
    | DuplicateDefinition
    | NoSuchProposal
    | NotPending
    | NoApproval
    | NotApproved

  // ---------- Queries ----------

  predicate SameSkill(s: Skill, w: Workspace, name: string) {
    s.workspace == w && s.definition.name == name
  }

  /** `_get_skill_by_name_version` */
  function ExactSkill(skills: seq<Skill>, w: Workspace, d: Definition): (r: Option<nat>)
    ensures r.Some? ==> r.value < |skills| && SameSkill(skills[r.value], w, d.name)
                        && skills[r.value].definition.version == d.version
    ensures r.None? ==> forall i | 0 <= i < |skills| ::
                          !(SameSkill(skills[i], w, d.name) && skills[i].definition.version == d.version)
  {
    if skills == [] then None else
      var n := |skills| - 1;
      if SameSkill(skills[n], w, d.name) && skills[n].definition.version == d.version then Some(n)
      else ExactSkill(skills[..n], w, d)
  }

  /** `_get_latest_skill`: a row with the highest version */
  function LatestSkill(skills: seq<Skill>, w: Workspace, name: string): (r: Option<nat>)
    ensures r.Some? ==> r.value < |skills| && SameSkill(skills[r.value], w, name)
    ensures r.Some? ==> forall i | 0 <= i < |skills| && SameSkill(skills[i], w, name) ::
                          skills[i].definition.version <= skills[r.value].definition.version
    ensures r.None? ==> forall i | 0 <= i < |skills| :: !SameSkill(skills[i], w, name)
  {
    if skills == [] then None else
      var n := |skills| - 1;
      var earlier := LatestSkill(skills[..n], w, name);
      if SameSkill(skills[n], w, name)
         && (earlier.None? || skills[earlier.value].definition.version <= skills[n].definition.version)
      then Some(n) else earlier
  }

  predicate SameProposal(p: Proposal, w: Workspace, d: Definition) {
    p.workspace == w && p.definition == d
  }

  /** `_get_pending_proposal` */
  function PendingProposal(proposals: seq<Proposal>, w: Workspace, d: Definition): (r: Option<nat>)
    ensures r.Some? ==> r.value < |proposals| && SameProposal(proposals[r.value], w, d) && proposals[r.value].status == Proposed
    ensures r.None? ==> forall i | 0 <= i < |proposals| :: !(SameProposal(proposals[i], w, d) && proposals[i].status == Proposed)
  {
    if proposals == [] then None else
      var n := |proposals| - 1;
      if SameProposal(proposals[n], w, d) && proposals[n].status == Proposed then Some(n)
      else PendingProposal(proposals[..n], w, d)
  }

  /** The latest approval of a proposal. */
  function ApprovalOf(approvals: seq<Approval>, p: nat): (r: Option<nat>)
    ensures r.Some? ==> r.value < |approvals| && approvals[r.value].proposal == p
    ensures r.Some? ==> forall i | r.value < i < |approvals| :: approvals[i].proposal != p
    ensures r.None? ==> forall i | 0 <= i < |approvals| :: approvals[i].proposal != p
  {
    if approvals == [] then None else
      var n := |approvals| - 1;
      if approvals[n].proposal == p then Some(n) else ApprovalOf(approvals[..n], p)
  }

  // ---------- Operations ----------

  function Retired(s: Skill, w: Workspace, name: string): Skill {
    if SameSkill(s, w, name) && s.status == Active then s.(status := Superseded) else s
  }

  /** The active versions of a name are superseded. */
  function Supersede(skills: seq<Skill>, w: Workspace, name: string): (r: seq<Skill>)
    ensures |r| == |skills|
    ensures forall i | 0 <= i < |skills| :: r[i] == Retired(skills[i], w, name)
  {
    if skills == [] then [] else
      var n := |skills| - 1;
      Supersede(skills[..n], w, name) + [Retired(skills[n], w, name)]
  }

  /** `_publish_skill_definition`: the rows and the id of the published one */
  function Publish(skills: seq<Skill>, w: Workspace, d: Definition): Result<(seq<Skill>, nat), Error> {
    var exact, latest := ExactSkill(skills, w, d), LatestSkill(skills, w, d.name);
    if exact.Some? then
      if skills[exact.value].definition.digest != d.digest then Err(DifferentContent) else Ok((skills, exact.value))
    else if latest.Some? && d.version <= skills[latest.value].definition.version then Err(NotNewer)
    else Ok((Supersede(skills, w, d.name) + [Skill(w, d, Active)], |skills|))
  }

  /** The unique constraint on (workspace, name, version, content hash) of proposals. */
  predicate ProposalExists(proposals: seq<Proposal>, w: Workspace, d: Definition) {
    exists i | 0 <= i < |proposals| :: SameProposal(proposals[i], w, d)
  }

  /** `_create_skill_proposal_record` */
  function CreateRecord(st: Store, w: Workspace, d: Definition): Result<Store, Error> {
    if ProposalExists(st.proposals, w, d) then Err(UniqueViolation)
    else Ok(st.(proposals := st.proposals + [Proposal(w, d, Proposed, None)],
                approvals := st.approvals + [Approval(|st.proposals|, Waiting)]))
  }

  /** `create_skill_proposal` */
  function CreateProposal(st: Store, w: Workspace, d: Definition): Result<(Store, nat), Error> {
    var exact, latest := ExactSkill(st.skills, w, d), LatestSkill(st.skills, w, d.name);
    var pending := PendingProposal(st.proposals, w, d);
    if exact.Some? then
      Err(if st.skills[exact.value].definition.digest == d.digest then AlreadyPublished else DifferentContent)
    else if pending.Some? then Ok((st, pending.value))
    else if latest.Some? && d.version <= st.skills[latest.value].definition.version then Err(NotNewer)
    else
      match CreateRecord(st, w, d)
      case Err(e) => Err(e)
      case Ok(st') => Ok((st', |st.proposals|))
  }

  /** `propose_skill_update`: the second route records without looking first. */
  function ProposeUpdate(st: Store, w: Workspace, d: Definition): Result<(Store, nat), Error> {
    match CreateRecord(st, w, d)
    case Err(e) => Err(e)
    case Ok(st') => Ok((st', |st.proposals|))
  }

  /** `review_skill_proposal` */
  function Review(st: Store, p: nat, approve: bool): Result<Store, Error> {
    if |st.proposals| <= p then Err(NoSuchProposal)
    else if st.proposals[p].status != Proposed then Err(NotPending)
    else
      match ApprovalOf(st.approvals, p)
      case None => Err(NoApproval)
      case Some(a) =>
        if st.approvals[a].status != Waiting then Err(NotPending)
        else if !approve then
          Ok(st.(proposals := st.proposals[p := st.proposals[p].(status := Rejected)],
                 approvals := st.approvals[a := st.approvals[a].(status := Refused)]))
        else
          match Publish(st.skills, st.proposals[p].workspace, st.proposals[p].definition)
          case Err(e) => Err(e)
          case Ok((skills, id)) =>
            Ok(Store(skills,
                     st.proposals[p := st.proposals[p].(status := Applied, applied := Some(id))],
                     st.approvals[a := st.approvals[a].(status := Granted)]))
  }

  /** `approve_skill_proposal` */
  function Approve(st: Store, p: nat): Result<Store, Error> {
    if |st.proposals| <= p then Err(NoSuchProposal)
    else if st.proposals[p].status != Proposed then Err(NotPending)
    else
      var a := ApprovalOf(st.approvals, p);
      Ok(st.(proposals := st.proposals[p := st.proposals[p].(status := Approved)],
             approvals := if a.None? then st.approvals
                          else st.approvals[a.value := st.approvals[a.value].(status := Granted)]))
  }

  /** `activate_skill_proposal` */
  function Activate(st: Store, p: nat): Result<Store, Error> {
    if |st.proposals| <= p then Err(NoSuchProposal)
    else if st.proposals[p].status !in {Approved, Applied} then Err(NotApproved)
    else
      match Publish(st.skills, st.proposals[p].workspace, st.proposals[p].definition)
      case Err(e) => Err(e)
      case Ok((skills, id)) =>
        Ok(st.(skills := skills,
               proposals := st.proposals[p := st.proposals[p].(status := Activated, applied := Some(id))]))
  }

  /** An approval answered outside these services: the gateway's approve command, or an approval
      action of the harness. The proposal is not touched. */
  function Resolve(st: Store, a: nat, grant: bool): Result<Store, Error> {
    if |st.approvals| <= a then Err(NoApproval)
    else Ok(st.(approvals := st.approvals[a := st.approvals[a].(status := if grant then Granted else Refused)]))
  }

  // ---------- Sync ----------

  datatype Kind = IsCreated | IsProposed | IsUnchanged

  /** One definition of the directory. */
  function SyncOne(st: Store, w: Workspace, d: Definition): Result<(Store, Kind), Error> {
    var exact, latest := ExactSkill(st.skills, w, d), LatestSkill(st.skills, w, d.name);
    if exact.Some? then
      if st.skills[exact.value].definition.digest != d.digest then Err(DifferentContent) else Ok((st, IsUnchanged))
    else if latest.None? then
      match Publish(st.skills, w, d)
      case Err(e) => Err(e)
      case Ok((skills, _)) => Ok((st.(skills := skills), IsCreated))
    else if d.version <= st.skills[latest.value].definition.version then Err(NotNewer)
    else if PendingProposal(st.proposals, w, d).Some? then Ok((st, IsUnchanged))
    else
      match CreateRecord(st, w, d)
      case Err(e) => Err(e)
      case Ok(st') => Ok((st', IsProposed))
  }

  function SyncAll(st: Store, w: Workspace, ds: seq<Definition>): Result<(Store, seq<Kind>), Error>
    decreases |ds|
  {
    if ds == [] then Ok((st, [])) else
      match SyncOne(st, w, ds[0])
      case Err(e) => Err(e)
      case Ok((st', kind)) =>
        match SyncAll(st', w, ds[1..])
        case Err(e) => Err(e)
        case Ok((st'', kinds)) => Ok((st'', [kind] + kinds))
  }

  predicate DistinctKeys(ds: seq<Definition>) {
    forall i, j | 0 <= i < j < |ds| :: ds[i].name != ds[j].name || ds[i].version != ds[j].version
  }

  /** `sync_skills_from_directory`, for what `load_skill_definitions` read */
  function Sync(st: Store, w: Workspace, ds: seq<Definition>): Result<(Store, seq<Kind>), Error> {
    if !DistinctKeys(ds) then Err(DuplicateDefinition) else SyncAll(st, w, ds)
  }

  function Label(d: Definition): string {
    d.name + "@v" + Decimal(d.version)
  }

  /** The labels that got one kind of answer, in directory order. */
  function Labels(ds: seq<Definition>, kinds: seq<Kind>, kind: Kind): seq<string>
    requires |kinds| == |ds|
  {
    if ds == [] then [] else
      var n := |ds| - 1;
      Labels(ds[..n], kinds[..n], kind) + (if kinds[n] == kind then [Label(ds[n])] else [])
  }

  // ---------- Runs ----------

  datatype Op =
    | CreateOp(w: Workspace, d: Definition)
    | ProposeOp(w: Workspace, d: Definition)
    | ReviewOp(p: nat, approve: bool)
    | ApproveOp(p: nat)
    | ActivateOp(p: nat)
    | SyncOp(w: Workspace, ds: seq<Definition>)
    | ResolveOp(a: nat, grant: bool)

  /** The tables after an operation; one that raises changes nothing. */
  function Apply(st: Store, op: Op): Store {
    match op
    case CreateOp(w, d) => (match CreateProposal(st, w, d) case Ok((st', _)) => st' case Err(_) => st)
    case ProposeOp(w, d) => (match ProposeUpdate(st, w, d) case Ok((st', _)) => st' case Err(_) => st)
    case ReviewOp(p, approve) => (match Review(st, p, approve) case Ok(st') => st' case Err(_) => st)
    case ApproveOp(p) => (match Approve(st, p) case Ok(st') => st' case Err(_) => st)
    case ActivateOp(p) => (match Activate(st, p) case Ok(st') => st' case Err(_) => st)
    case SyncOp(w, ds) => (match Sync(st, w, ds) case Ok((st', _)) => st' case Err(_) => st)
    case ResolveOp(a, grant) => (match Resolve(st, a, grant) case Ok(st') => st' case Err(_) => st)
  }

  const EMPTY := Store([], [], [])

  function RunFrom(st: Store, ops: seq<Op>): Store
    decreases |ops|
  {
    if ops == [] then st else RunFrom(Apply(st, ops[0]), ops[1..])
  }

  function Run(ops: seq<Op>): Store {
    RunFrom(EMPTY, ops)
  }

  // ---------- The service ----------

  class SkillService {
    var skills: seq<Skill>
    var proposals: seq<Proposal>
    var approvals: seq<Approval>

    constructor ()
      ensures Tables() == EMPTY
    {
      skills, proposals, approvals := [], [], [];
    }

    function Tables(): Store
      reads this
    {
      Store(skills, proposals, approvals)
    }

    method PublishSkillDefinition(w: Workspace, d: Definition) returns (r: Result<nat, Error>)
      modifies this`skills
      ensures match Publish(old(skills), w, d)
        case Ok((rows, id)) => r == Ok(id) && skills == rows
        case Err(e) => r == Err(e) && skills == old(skills)
    {
      var exact := ExactSkill(skills, w, d);
      if exact.Some? {
        if skills[exact.value].definition.digest != d.digest {
          return Err(DifferentContent);
        }
        return Ok(exact.value);
      }
      var latest := LatestSkill(skills, w, d.name);
      if latest.Some? && d.version <= skills[latest.value].definition.version {
        return Err(NotNewer);
      }
      var k := 0;
      while k < |skills|
        invariant k <= |skills| == |old(skills)|
        invariant forall i | 0 <= i < k :: skills[i] == Retired(old(skills)[i], w, d.name)
        invariant forall i | k <= i < |skills| :: skills[i] == old(skills)[i]
      {
        if SameSkill(skills[k], w, d.name) && skills[k].status == Active {
          skills := skills[k := skills[k].(status := Superseded)];
        }
        k := k + 1;
      }
      assert skills == Supersede(old(skills), w, d.name);
      skills := skills + [Skill(w, d, Active)];
      r := Ok(|skills| - 1);
    }

    method CreateSkillProposalRecord(w: Workspace, d: Definition) returns (r: Result<nat, Error>)
      modifies this`proposals, this`approvals
      ensures match CreateRecord(old(Tables()), w, d)
        case Ok(st) => r == Ok(|old(proposals)|) && Tables() == st
        case Err(e) => r == Err(e) && Tables() == old(Tables())
    {
      if ProposalExists(proposals, w, d) {
        return Err(UniqueViolation);
      }
      r := Ok(|proposals|);
      approvals := approvals + [Approval(|proposals|, Waiting)];
      proposals := proposals + [Proposal(w, d, Proposed, None)];
    }

    method CreateSkillProposal(w: Workspace, d: Definition) returns (r: Result<nat, Error>)
      modifies this`proposals, this`approvals
      ensures Tables() == Apply(old(Tables()), CreateOp(w, d))
      ensures match CreateProposal(old(Tables()), w, d)
        case Ok((_, id)) => r == Ok(id)
        case Err(e) => r == Err(e)
    {
      var exact := ExactSkill(skills, w, d);
      if exact.Some? {
        return Err(if skills[exact.value].definition.digest == d.digest then AlreadyPublished else DifferentContent);
      }
      var pending := PendingProposal(proposals, w, d);
      if pending.Some? {
        return Ok(pending.value);
      }
      var latest := LatestSkill(skills, w, d.name);
      if latest.Some? && d.version <= skills[latest.value].definition.version {
        return Err(NotNewer);
      }
      r := CreateSkillProposalRecord(w, d);
    }

    method ReviewSkillProposal(p: nat, approve: bool) returns (r: Result<Option<nat>, Error>)
      modifies this
      ensures Tables() == Apply(old(Tables()), ReviewOp(p, approve))
      ensures match Review(old(Tables()), p, approve)
        case Ok(st) => p < |st.proposals| && r == Ok(if approve then st.proposals[p].applied else None)
        case Err(e) => r == Err(e)
    {
      if |proposals| <= p {
        return Err(NoSuchProposal);
      }
      if proposals[p].status != Proposed {
        return Err(NotPending);
      }
      var a := ApprovalOf(approvals, p);
      if a == None {
        return Err(NoApproval);
      }
      if approvals[a.value].status != Waiting {
        return Err(NotPending);
      }
      if !approve {
        proposals := proposals[p := proposals[p].(status := Rejected)];
        approvals := approvals[a.value := approvals[a.value].(status := Refused)];
        return Ok(None);
      }
      var published := PublishSkillDefinition(proposals[p].workspace, proposals[p].definition);
      if published.Err? {
        return Err(published.error);
      }
      proposals := proposals[p := proposals[p].(status := Applied, applied := Some(published.value))];
      approvals := approvals[a.value := approvals[a.value].(status := Granted)];
      r := Ok(Some(published.value));
    }

    method ApproveSkillProposal(p: nat) returns (r: Result<nat, Error>)
      modifies this`proposals, this`approvals
      ensures Tables() == Apply(old(Tables()), ApproveOp(p))
      ensures match Approve(old(Tables()), p)
        case Ok(_) => r == Ok(p)
        case Err(e) => r == Err(e)
    {
      if |proposals| <= p {
        return Err(NoSuchProposal);
      }
      if proposals[p].status != Proposed {
        return Err(NotPending);
      }
      var a := ApprovalOf(approvals, p);
      if a.Some? {
        approvals := approvals[a.value := approvals[a.value].(status := Granted)];
      }
      proposals := proposals[p := proposals[p].(status := Approved)];
      r := Ok(p);
    }

    method ActivateSkillProposal(p: nat) returns (r: Result<nat, Error>)
      modifies this`skills, this`proposals
      ensures Tables() == Apply(old(Tables()), ActivateOp(p))
      ensures match Activate(old(Tables()), p)
        case Ok(st) => r.Ok? && p < |st.proposals| && st.proposals[p].applied == Some(r.value)
        case Err(e) => r == Err(e)
    {
      if |proposals| <= p {
        return Err(NoSuchProposal);
      }
      if proposals[p].status != Approved && proposals[p].status != Applied {
        return Err(NotApproved);
      }
      var published := PublishSkillDefinition(proposals[p].workspace, proposals[p].definition);
      if published.Err? {
        return Err(published.error);
      }
      proposals := proposals[p := proposals[p].(status := Activated, applied := Some(published.value))];
      r := Ok(published.value);
    }

    /** The three lists that a sync reports. */
    method SyncSkillsFromDirectory(w: Workspace, ds: seq<Definition>)
        returns (r: Result<(seq<string>, seq<string>, seq<string>), Error>)
      modifies this
      ensures Tables() == Apply(old(Tables()), SyncOp(w, ds))
      ensures match Sync(old(Tables()), w, ds)
        case Err(e) => r == Err(e)
        case Ok((_, kinds)) => r.Ok? && Filed(ds, kinds, r.value.0, r.value.1, r.value.2)
    {
      if !DistinctKeys(ds) {
        return Err(DuplicateDefinition);
      }
      var before := Tables();
      var created, proposed, same, error := SyncLoop(w, ds);
      if error.Some? {
        skills, proposals, approvals := before.skills, before.proposals, before.approvals;
        return Err(error.value);
      }
      r := Ok((created, proposed, same));
    }

    method SyncLoop(w: Workspace, ds: seq<Definition>)
        returns (created: seq<string>, proposed: seq<string>, same: seq<string>, error: Option<Error>)
      modifies this
      ensures match SyncAll(old(Tables()), w, ds)
        case Err(e) => error == Some(e)
        case Ok((st, kinds)) => error.None? && Tables() == st && Filed(ds, kinds, created, proposed, same)
    {
      created, proposed, same, error := [], [], [], None;
      ghost var before, kinds: seq<Kind> := Tables(), [];
      WithNoKinds(before, w, ds);
      var k := 0;
      while k < |ds|
        invariant k <= |ds| && |kinds| == k
        invariant SyncAll(before, w, ds) == WithKinds(kinds, SyncAll(Tables(), w, ds[k..]))
        invariant Filed(ds[..k], kinds, created, proposed, same) && error.None?
      {
        SyncCons(Tables(), w, ds, k, kinds);
        var kind;
        kind, error := SyncDefinition(w, ds[k]);
        if error.Some? {
          return;
        }
        FiledSnoc(ds, k, kinds, kind, created, proposed, same);
        match kind {
          case IsCreated => created := created + [Label(ds[k])];
          case IsProposed => proposed := proposed + [Label(ds[k])];
          case IsUnchanged => same := same + [Label(ds[k])];
        }
        kinds := kinds + [kind];
        k := k + 1;
      }
      WithAllKinds(before, w, ds, kinds, Tables());
    }

    /** The body of the sync loop for one definition. */
    method SyncDefinition(w: Workspace, d: Definition) returns (kind: Kind, error: Option<Error>)
      modifies this
      ensures match SyncOne(old(Tables()), w, d)
        case Ok((st, k)) => error.None? && kind == k && Tables() == st
        case Err(e) => error == Some(e)
    {
      kind, error := IsUnchanged, None;
      var exact := ExactSkill(skills, w, d);
      if exact.Some? {
        if skills[exact.value].definition.digest != d.digest {
          error := Some(DifferentContent);
        }
        return;
      }
      var latest := LatestSkill(skills, w, d.name);
      if latest.None? {
        var published := PublishSkillDefinition(w, d);
        return IsCreated, None;
      }
      if d.version <= skills[latest.value].definition.version {
        return IsUnchanged, Some(NotNewer);
      }
      if PendingProposal(proposals, w, d).Some? {
        return;
      }
      var recorded := CreateSkillProposalRecord(w, d);
      return IsProposed, if recorded.Err? then Some(recorded.error) else None;
    }
  }

  function WithKinds(kinds: seq<Kind>, r: Result<(Store, seq<Kind>), Error>): Result<(Store, seq<Kind>), Error> {
    match r
    case Err(e) => Err(e)
    case Ok((st, rest)) => Ok((st, kinds + rest))
  }

  lemma WithNoKinds(st: Store, w: Workspace, ds: seq<Definition>)
    ensures SyncAll(st, w, ds) == WithKinds([], SyncAll(st, w, ds[0..]))
  {
    assert ds[0..] == ds;
    match SyncAll(st, w, ds)
    case Err(_) =>
    case Ok((_, rest)) => assert [] + rest == rest;
  }

  lemma WithAllKinds(before: Store, w: Workspace, ds: seq<Definition>, kinds: seq<Kind>, st: Store)
    requires SyncAll(before, w, ds) == WithKinds(kinds, SyncAll(st, w, ds[|ds|..]))
    ensures SyncAll(before, w, ds) == Ok((st, kinds))
    ensures ds[..|ds|] == ds
  {
    assert kinds + [] == kinds;
  }

  lemma SyncCons(st: Store, w: Workspace, ds: seq<Definition>, k: nat, kinds: seq<Kind>)
    requires k < |ds|
    ensures match SyncOne(st, w, ds[k])
      case Err(e) => WithKinds(kinds, SyncAll(st, w, ds[k..])) == Err(e)
      case Ok((st', kind)) =>
        WithKinds(kinds, SyncAll(st, w, ds[k..])) == WithKinds(kinds + [kind], SyncAll(st', w, ds[k + 1..]))
  {
    assert ds[k..][1..] == ds[k + 1..];
    match SyncOne(st, w, ds[k])
    case Err(_) =>
    case Ok((st', kind)) =>
      match SyncAll(st', w, ds[k + 1..])
      case Err(_) =>
      case Ok((_, rest)) => assert kinds + ([kind] + rest) == (kinds + [kind]) + rest;
  }

  /** The lists hold the labels of their kind. */
  ghost predicate Filed(ds: seq<Definition>, kinds: seq<Kind>, created: seq<string>, proposed: seq<string>, same: seq<string>) {
    && |kinds| == |ds|
    && created == Labels(ds, kinds, IsCreated)
    && proposed == Labels(ds, kinds, IsProposed)
    && same == Labels(ds, kinds, IsUnchanged)
  }

  lemma FiledSnoc(ds: seq<Definition>, k: nat, kinds: seq<Kind>, kind: Kind,
                  created: seq<string>, proposed: seq<string>, same: seq<string>)
    requires k < |ds| && Filed(ds[..k], kinds, created, proposed, same)
    ensures Filed(ds[..k + 1], kinds + [kind],
                  if kind == IsCreated then created + [Label(ds[k])] else created,
                  if kind == IsProposed then proposed + [Label(ds[k])] else proposed,
                  if kind == IsUnchanged then same + [Label(ds[k])] else same)
  {
    LabelsSnoc(ds, k, kinds, kind, IsCreated);
    LabelsSnoc(ds, k, kinds, kind, IsProposed);
    LabelsSnoc(ds, k, kinds, kind, IsUnchanged);
  }

  lemma LabelsSnoc(ds: seq<Definition>, k: nat, kinds: seq<Kind>, kind: Kind, x: Kind)
    requires k < |ds| && |kinds| == k
    ensures Labels(ds[..k + 1], kinds + [kind], x)
            == if kind == x then Labels(ds[..k], kinds, x) + [Label(ds[k])] else Labels(ds[..k], kinds, x)
  {
    assert ds[..k + 1][..k] == ds[..k];
    assert (kinds + [kind])[..k] == kinds;
  }
}
