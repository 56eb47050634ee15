// Agents and blueprints over all runs: what their timestamps say, and names.
module Lifecycle {
  import opened Text
  import opened ControlPlane
  import Policy
  import Replay

  // ---- the status is recoverable from the timestamps ----

  // What the three timestamps of an agent say about it.
  function Decode(a: Agent): AgentStatus {
    if a.revokedAt.Some? then Revoked
    else if a.activatedAt.None? then Draft
    else if a.suspendedAt.Some? && a.suspendedAt.value > a.activatedAt.value then Suspended
    else Active
  }

  // Activation and suspension carry one time: a clock that stood still.
  predicate Ambiguous(a: Agent) {
    a.revokedAt.None? && a.activatedAt.Some? && a.activatedAt == a.suspendedAt
  }

  ghost predicate AgentOk(a: Agent, now: int) {
    && (a.status.Revoked? <==> a.revokedAt.Some?)
    && (a.status.Draft? ==> a.activatedAt.None? && a.suspendedAt.None?)
    && (a.status.Active? ==> a.activatedAt.Some?)
    && (a.status.Suspended? ==> a.activatedAt.Some? && a.suspendedAt.Some?)
    && (a.status.Draft? || a.status.Active? || a.status.Suspended? || a.status.Revoked?)
    && (a.suspendedAt.Some? ==> a.activatedAt.Some?)
    && (a.activatedAt.Some? ==> a.activatedAt.value <= now)
    && (a.suspendedAt.Some? ==> a.suspendedAt.value <= now)
    && (a.status.Active? && a.suspendedAt.Some? ==> a.suspendedAt.value <= a.activatedAt.value)
    && (a.status.Suspended? ==> a.activatedAt.value <= a.suspendedAt.value)
  }

  ghost predicate AgentsOk(s: State) {
    forall id :: id in s.db.agents ==> AgentOk(s.db.agents[id], s.now)
  }

  predicate TouchesAgents(step: Step) {
    step.StepCreateAgent? || step.StepActivateAgent? || step.StepSuspendAgent? || step.StepRevokeAgent? || step.StepRotateKey?
  }

  lemma AgentsFrame(cfg: Config, s: State, step: Step)
    requires !TouchesAgents(step)
    ensures Next(cfg, s, step).db.agents == s.db.agents && Next(cfg, s, step).now >= s.now
  {
    if Administrative(step) {
      hide Serve, ApplyChanges;
    } else {
      ServingKeeps(cfg, s, step);
    }
  }

  // Serving sessions leaves agents, blueprints and delegations alone.
  lemma ServingKeeps(cfg: Config, s: State, step: Step)
    requires !Administrative(step)
    ensures
      var s' := Next(cfg, s, step);
      && s'.db.agents == s.db.agents && s'.db.blueprints == s.db.blueprints
      && s'.db.delegations == s.db.delegations && s'.now == s.now
  {
    if Replay.Quiet(step) {
      hide Next;
      Replay.QuietFrame(cfg, s, step);
    } else {
      hide Administer, Attestation.Verify, MayStart, NewSession, IssueToken;
    }
  }

  lemma AgentsOkStep(cfg: Config, s: State, step: Step)
    requires AgentsOk(s)
    ensures AgentsOk(Next(cfg, s, step))
  {
    hide Next;
    if TouchesAgents(step) {
      AgentsTouched(cfg, s, step);
    } else {
      AgentsFrame(cfg, s, step);
    }
  }

  lemma AgentsTouched(cfg: Config, s: State, step: Step)
    requires TouchesAgents(step) && AgentsOk(s)
    ensures AgentsOk(Next(cfg, s, step))
  {
    hide Serve, BuildPrincipalUri;
  }

  lemma {:induction false} RunKeepsAgentsOk(cfg: Config, run: seq<Step>, n: nat)
    requires n <= |run|
    ensures AgentsOk(At(cfg, run, n))
  {
    hide Next;
    if n > 0 {
      RunKeepsAgentsOk(cfg, run, n - 1);
      AgentsOkStep(cfg, At(cfg, run, n - 1), run[n - 1]);
    }
  }

  // In every reachable state the status of every agent is what its timestamps
  // say, unless it was activated and suspended at one and the same instant.
  lemma StatusIsRecoverable(cfg: Config, run: seq<Step>, n: nat, id: Uuid)
    requires n <= |run| && id in At(cfg, run, n).db.agents
    ensures
      var a := At(cfg, run, n).db.agents[id];
      && (!Ambiguous(a) ==> a.status == Decode(a))
      && (Ambiguous(a) ==> a.status.Active? || a.status.Suspended?)
      && (a.status.Revoked? <==> a.revokedAt.Some?)
  {
    RunKeepsAgentsOk(cfg, run, n);
  }

  // The proviso is needed: activated, suspended and activated again within
  // one instant, an agent has the same timestamps in both statuses.
  lemma AmbiguityIsReal(s: State, id: Uuid)
    requires id in s.db.agents && s.db.agents[id].status.Draft? && s.db.agents[id].revokedAt.None?
    ensures
      var s1 := ActivateAgent(s, id).state;
      var s2 := SuspendAgent(s1, id).state;
      var s3 := ActivateAgent(s2, id).state;
      && s2.db.agents[id].status.Suspended? && Ambiguous(s2.db.agents[id])
      && s3.db.agents[id] == s2.db.agents[id].(status := Active)
  {
  }

  // ---- the status is what the commands made it ----

  // The lifecycle as an automaton: what a command does to an agent's status.
  function Move(status: AgentStatus, step: Step, id: Uuid): AgentStatus {
    match step
    case StepActivateAgent(target) =>
      if target == id && (status.Draft? || status.Suspended?) then Active else status
    case StepSuspendAgent(target) => if target == id && status.Active? then Suspended else status
    case StepRevokeAgent(target) => if target == id then Revoked else status
    case _ => status
  }

  function Moves(status: AgentStatus, steps: seq<Step>, id: Uuid): AgentStatus
    decreases |steps|
  {
    if steps == [] then status else Move(Moves(status, steps[..|steps| - 1], id), steps[|steps| - 1], id)
  }

  // The last key that was registered in these steps, if any.
  function LastKey(steps: seq<Step>, id: Uuid): Option<string>
    decreases |steps|
  {
    if steps == [] then None
    else
      match steps[|steps| - 1]
      case StepRotateKey(target, key) => if target == id then Some(key) else LastKey(steps[..|steps| - 1], id)
      case _ => LastKey(steps[..|steps| - 1], id)
  }

  // The commands that leave a timestamp.
  datatype Kind = Activation | Suspension | Revocation

  predicate Happens(kind: Kind, s: State, step: Step, id: Uuid) {
    id in s.db.agents &&
    match kind
    case Activation => step == StepActivateAgent(id) && s.db.agents[id].status in {Draft, PendingApproval, Suspended}
    case Suspension => step == StepSuspendAgent(id) && s.db.agents[id].status.Active?
    case Revocation => step == StepRevokeAgent(id)
  }

  function TimeAfter(kind: Kind, s: State, step: Step, id: Uuid, before: Option<int>): Option<int> {
    if Happens(kind, s, step, id) then Some(s.now) else before
  }

  // In s', the agent is where the automaton says, and the command, if it was
  // one for this agent that went through, has left its time; nothing else of
  // the row has changed.
  ghost predicate AgentMoved(s: State, step: Step, s': State, id: Uuid)
    requires id in s.db.agents
  {
    && id in s'.db.agents
    && var a := s.db.agents[id];
       s'.db.agents[id] == a.(
         status := Move(a.status, step, id),
         publicKey := if step.StepRotateKey? && step.agentId == id then Some(step.key) else a.publicKey,
         activatedAt := TimeAfter(Activation, s, step, id, a.activatedAt),
         suspendedAt := TimeAfter(Suspension, s, step, id, a.suspendedAt),
         revokedAt := TimeAfter(Revocation, s, step, id, a.revokedAt))
  }

  lemma ActivationMoves(s: State, target: Uuid, id: Uuid)
    requires AgentsOk(s) && id in s.db.agents
    ensures AgentMoved(s, StepActivateAgent(target), ActivateAgent(s, target).state, id)
  {
    assert AgentOk(s.db.agents[id], s.now);
  }

  lemma SuspensionMoves(s: State, target: Uuid, id: Uuid)
    requires id in s.db.agents
    ensures AgentMoved(s, StepSuspendAgent(target), SuspendAgent(s, target).state, id)
  {
  }

  lemma RevocationMoves(s: State, target: Uuid, id: Uuid)
    requires id in s.db.agents
    ensures AgentMoved(s, StepRevokeAgent(target), RevokeAgent(s, target).state, id)
  {
  }

  lemma RotationMoves(s: State, target: Uuid, key: string, id: Uuid)
    requires id in s.db.agents
    ensures AgentMoved(s, StepRotateKey(target, key), RotateKey(s, target, key).state, id)
  {
  }

  lemma CreationMoves(s: State, created: Uuid, blueprintId: Uuid, key: Option<string>, id: Uuid)
    requires id in s.db.agents && s.db.agents.Keys <= s.ids
    ensures AgentMoved(s, StepCreateAgent(created, blueprintId, key), CreateAgent(s, created, blueprintId, key).state, id)
  {
    hide BuildPrincipalUri;
  }

  lemma AgentTouched(cfg: Config, s: State, step: Step, id: Uuid)
    requires TouchesAgents(step) && AgentsOk(s) && id in s.db.agents && s.db.agents.Keys <= s.ids
    ensures AgentMoved(s, step, Next(cfg, s, step), id)
  {
    hide Serve, ActivateAgent, SuspendAgent, RevokeAgent, RotateKey, CreateAgent, AgentMoved;
    match step
    case StepActivateAgent(target) => ActivationMoves(s, target, id);
    case StepSuspendAgent(target) => SuspensionMoves(s, target, id);
    case StepRevokeAgent(target) => RevocationMoves(s, target, id);
    case StepRotateKey(target, key) => RotationMoves(s, target, key, id);
    case StepCreateAgent(created, blueprintId, key) => CreationMoves(s, created, blueprintId, key, id);
  }

  // From any point of any run on, an agent's status is the automaton's answer
  // to the commands since, and its key the last one registered since.
  lemma {:induction false} StatusFollowsCommands(cfg: Config, run: seq<Step>, m: nat, n: nat, id: Uuid)
    requires m <= n <= |run| && id in At(cfg, run, m).db.agents
    ensures
      var before, agents := At(cfg, run, m).db.agents[id], At(cfg, run, n).db.agents;
      && id in agents
      && agents[id].status == Moves(before.status, run[m..n], id)
      && agents[id].publicKey == (if LastKey(run[m..n], id).Some? then LastKey(run[m..n], id) else before.publicKey)
    decreases n - m
  {
    hide Next;
    if m < n {
      var s, step := At(cfg, run, n - 1), run[n - 1];
      StatusFollowsCommands(cfg, run, m, n - 1, id);
      RunKeepsAgentsOk(cfg, run, n - 1);
      Replay.RunKeepsInv(cfg, run, n - 1);
      assert run[m..n][..n - 1 - m] == run[m..n - 1];
      if TouchesAgents(step) {
        AgentTouched(cfg, s, step, id);
      } else {
        AgentsFrame(cfg, s, step);
      }
    }
  }

  // The time of the last command of a kind between two points of a run.
  function LastTime(cfg: Config, run: seq<Step>, m: nat, n: nat, id: Uuid, kind: Kind, before: Option<int>): Option<int>
    requires m <= n <= |run|
    decreases n - m
  {
    if m == n then before
    else TimeAfter(kind, At(cfg, run, n - 1), run[n - 1], id, LastTime(cfg, run, m, n - 1, id, kind, before))
  }

  // From any point of any run on, each timestamp of an agent is the clock at
  // the last command of its kind since that went through; its blueprint and its
  // URI are what they were.
  lemma {:induction false} TimesFollowCommands(cfg: Config, run: seq<Step>, m: nat, n: nat, id: Uuid)
    requires m <= n <= |run| && id in At(cfg, run, m).db.agents
    ensures
      var before, agents := At(cfg, run, m).db.agents[id], At(cfg, run, n).db.agents;
      && id in agents
      && agents[id].activatedAt == LastTime(cfg, run, m, n, id, Activation, before.activatedAt)
      && agents[id].suspendedAt == LastTime(cfg, run, m, n, id, Suspension, before.suspendedAt)
      && agents[id].revokedAt == LastTime(cfg, run, m, n, id, Revocation, before.revokedAt)
      && agents[id].blueprintId == before.blueprintId && agents[id].principalUri == before.principalUri
    decreases n - m
  {
    hide Next, Move;
    if m < n {
      var s, step := At(cfg, run, n - 1), run[n - 1];
      TimesFollowCommands(cfg, run, m, n - 1, id);
      RunKeepsAgentsOk(cfg, run, n - 1);
      Replay.RunKeepsInv(cfg, run, n - 1);
      if TouchesAgents(step) {
        AgentTouched(cfg, s, step, id);
      } else {
        AgentsFrame(cfg, s, step);
      }
    }
  }

  // Where an agent comes from: a command under an active blueprint, which makes
  // a draft with the key that was given and no timestamp.
  lemma NewAgent(cfg: Config, s: State, step: Step, id: Uuid)
    requires id !in s.db.agents && id in Next(cfg, s, step).db.agents
    ensures step.StepCreateAgent? && step.agentId == id && step.blueprintId in s.db.blueprints
    ensures
      var a, blueprint := Next(cfg, s, step).db.agents[id], s.db.blueprints[step.blueprintId];
      && blueprint.status.BlueprintActive?
      && a == Agent("agent://local/" + blueprint.slug + "/" + id, step.blueprintId, Draft, step.publicKey, None, None,
                    None)
  {
    if TouchesAgents(step) {
      hide Serve;
    } else {
      hide Next;
      AgentsFrame(cfg, s, step);
    }
  }

  // ---- names ----

  ghost predicate SlugsDistinct(blueprints: map<Uuid, Blueprint>) {
    forall a, b :: a in blueprints && b in blueprints && a != b ==> blueprints[a].slug != blueprints[b].slug
  }

  ghost predicate UrisBuilt(db: Tables) {
    forall id :: id in db.agents ==>
      && db.agents[id].blueprintId in db.blueprints
      && db.agents[id].principalUri == BuildPrincipalUri(id, db.blueprints[db.agents[id].blueprintId].slug)
  }

  ghost predicate NamesInv(s: State) {
    SlugsDistinct(s.db.blueprints) && UrisBuilt(s.db)
  }

  predicate TouchesBlueprints(step: Step) {
    step.StepCreateBlueprint? || step.StepUpdateBlueprint? || step.StepSetBlueprintStatus?
  }

  lemma BlueprintsFrame(cfg: Config, s: State, step: Step)
    requires !TouchesBlueprints(step)
    ensures Next(cfg, s, step).db.blueprints == s.db.blueprints
  {
    if Administrative(step) {
      hide Serve;
    } else {
      ServingKeeps(cfg, s, step);
    }
  }

  lemma {:induction false} ChangesKeepSlug(b: Blueprint, changes: seq<Change>)
    ensures
      var r := ApplyChanges(b, changes);
      r.Some? ==> r.value.slug == b.slug && r.value.version == b.version && r.value.status == b.status
    decreases |changes|
  {
    if changes != [] && Storable(changes[0]) {
      ChangesKeepSlug(ApplyChange(b, changes[0]), changes[1..]);
    }
  }

  // The value that the last change of its kind sets, if there is one.
  function LastScopes(changes: seq<Change>): Option<Policy.ListField>
    decreases |changes|
  {
    if changes == [] then None
    else
      match changes[|changes| - 1]
      case SetMaxScopes(f) => Some(f)
      case _ => LastScopes(changes[..|changes| - 1])
  }

  function LastEnvironments(changes: seq<Change>): Option<Policy.ListField>
    decreases |changes|
  {
    if changes == [] then None
    else
      match changes[|changes| - 1]
      case SetEnvironments(f) => Some(f)
      case _ => LastEnvironments(changes[..|changes| - 1])
  }

  function LastTtl(changes: seq<Change>): Option<Option<int>>
    decreases |changes|
  {
    if changes == [] then None
    else
      match changes[|changes| - 1]
      case SetMaxTtl(ttl) => Some(ttl)
      case _ => LastTtl(changes[..|changes| - 1])
  }

  function LastName(changes: seq<Change>): Option<Option<string>>
    decreases |changes|
  {
    if changes == [] then None
    else
      match changes[|changes| - 1]
      case SetName(name) => Some(name)
      case _ => LastName(changes[..|changes| - 1])
  }

  lemma {:induction false} ApplyLast(b: Blueprint, changes: seq<Change>)
    requires changes != []
    ensures
      var before, last := ApplyChanges(b, changes[..|changes| - 1]), changes[|changes| - 1];
      ApplyChanges(b, changes) == if before.Some? && Storable(last) then Some(ApplyChange(before.value, last)) else None
    decreases |changes|
  {
    if |changes| > 1 && Storable(changes[0]) {
      var front := changes[..|changes| - 1];
      ApplyLast(ApplyChange(b, changes[0]), changes[1..]);
      assert changes[1..][..|changes| - 2] == front[1..];
    }
  }

  // An update is refused exactly when it stores a null where none may be, and
  // otherwise every field holds the last value sent for it, or what it held.
  lemma {:induction false} UpdateIsExact(b: Blueprint, changes: seq<Change>)
    ensures ApplyChanges(b, changes).Some? <==> forall c :: c in changes ==> Storable(c)
    ensures ApplyChanges(b, changes).Some? ==>
      var r := ApplyChanges(b, changes).value;
      && r.maxScopes == (if LastScopes(changes).Some? then LastScopes(changes).value else b.maxScopes)
      && r.approvedEnvironments ==
           (if LastEnvironments(changes).Some? then LastEnvironments(changes).value else b.approvedEnvironments)
      && Some(r.maxTtl) == (if LastTtl(changes).Some? then LastTtl(changes).value else Some(b.maxTtl))
      && Some(r.name) == (if LastName(changes).Some? then LastName(changes).value else Some(b.name))
      && r == b.(maxScopes := r.maxScopes, approvedEnvironments := r.approvedEnvironments, maxTtl := r.maxTtl,
                 name := r.name)
    decreases |changes|
  {
    if changes != [] {
      var front, last := changes[..|changes| - 1], changes[|changes| - 1];
      UpdateIsExact(b, front);
      ApplyLast(b, changes);
      assert changes == front + [last];
    }
  }

  // The step is an update of this blueprint that goes through.
  predicate Updates(s: State, step: Step, id: Uuid) {
    step.StepUpdateBlueprint? && step.blueprintId == id && id in s.db.blueprints
    && ApplyChanges(s.db.blueprints[id], step.changes).Some?
  }

  // Activation and deactivation, as commands to one blueprint.
  function StatusAfter(status: BlueprintStatus, step: Step, id: Uuid): BlueprintStatus {
    match step
    case StepSetBlueprintStatus(target, active) =>
      if target != id then status else if active then BlueprintActive else BlueprintInactive
    case _ => status
  }

  function StatusesAfter(status: BlueprintStatus, steps: seq<Step>, id: Uuid): BlueprintStatus
    decreases |steps|
  {
    if steps == [] then status
    else StatusAfter(StatusesAfter(status, steps[..|steps| - 1], id), steps[|steps| - 1], id)
  }

  // What a step does to one blueprint.
  ghost predicate BlueprintKept(s: State, step: Step, s': State, id: Uuid)
    requires id in s.db.blueprints
  {
    && id in s'.db.blueprints
    && s'.db.blueprints[id].slug == s.db.blueprints[id].slug
    && s'.db.blueprints[id].status == StatusAfter(s.db.blueprints[id].status, step, id)
    && s'.db.blueprints[id].version == s.db.blueprints[id].version + if Updates(s, step, id) then 1 else 0
  }

  lemma BlueprintTouched(cfg: Config, s: State, step: Step, id: Uuid)
    requires TouchesBlueprints(step)
    requires id in s.db.blueprints && s.db.blueprints.Keys <= s.ids
    ensures BlueprintKept(s, step, Next(cfg, s, step), id)
  {
    hide Serve, ApplyChanges;
    if step.StepUpdateBlueprint? && step.blueprintId in s.db.blueprints {
      ChangesKeepSlug(s.db.blueprints[step.blueprintId], step.changes);
    }
  }

  lemma BlueprintStep(cfg: Config, s: State, step: Step, id: Uuid)
    requires id in s.db.blueprints && s.db.blueprints.Keys <= s.ids
    ensures BlueprintKept(s, step, Next(cfg, s, step), id)
  {
    hide Next, ApplyChanges;
    if TouchesBlueprints(step) {
      BlueprintTouched(cfg, s, step, id);
    } else {
      BlueprintsFrame(cfg, s, step);
    }
  }

  // From any point of any run on, a blueprint is what the last activation or
  // deactivation since then made it, and what it was if there was none.
  lemma {:induction false} BlueprintStatusFollows(cfg: Config, run: seq<Step>, m: nat, n: nat, id: Uuid)
    requires m <= n <= |run| && id in At(cfg, run, m).db.blueprints
    ensures
      var before, blueprints := At(cfg, run, m).db.blueprints[id], At(cfg, run, n).db.blueprints;
      && id in blueprints
      && blueprints[id].status == StatusesAfter(before.status, run[m..n], id)
    decreases n - m
  {
    hide Next, StatusAfter, Updates;
    if m < n {
      BlueprintStatusFollows(cfg, run, m, n - 1, id);
      Replay.RunKeepsInv(cfg, run, n - 1);
      BlueprintStep(cfg, At(cfg, run, n - 1), run[n - 1], id);
      assert run[m..n][..n - 1 - m] == run[m..n - 1];
    }
  }

  // Where a blueprint comes from: a command within the ranges of the request,
  // with a slug that was free, which makes a draft of version 1.
  lemma NewBlueprint(cfg: Config, s: State, step: Step, id: Uuid)
    requires id !in s.db.blueprints && id in Next(cfg, s, step).db.blueprints
    ensures step.StepCreateBlueprint? && step.blueprintId == id
    ensures 1 <= |step.slug| <= 128 && 1 <= |step.name| <= 256 && 60 <= step.maxTtl <= 86400
    ensures forall other :: other in s.db.blueprints ==> s.db.blueprints[other].slug != step.slug
    ensures Next(cfg, s, step).db.blueprints[id]
         == Blueprint(step.slug, 1, step.name, BlueprintDraft, Policy.Items(step.environments),
                      Policy.Items(step.maxScopes), step.maxTtl)
  {
    if TouchesBlueprints(step) {
      hide Serve, ApplyChanges;
    } else {
      hide Next;
      BlueprintsFrame(cfg, s, step);
    }
  }

  function CountUpdates(cfg: Config, run: seq<Step>, n: nat, id: Uuid): nat
    requires n <= |run|
  {
    if n == 0 then 0
    else CountUpdates(cfg, run, n - 1, id) + if Updates(At(cfg, run, n - 1), run[n - 1], id) then 1 else 0
  }

  // A blueprint's version is 1 plus its number of updates.
  lemma {:induction false} VersionCountsUpdates(cfg: Config, run: seq<Step>, n: nat, id: Uuid)
    requires n <= |run|
    ensures
      var blueprints := At(cfg, run, n).db.blueprints;
      if id in blueprints then blueprints[id].version == 1 + CountUpdates(cfg, run, n, id)
      else CountUpdates(cfg, run, n, id) == 0
  {
    hide Next, ApplyChanges;
    if n > 0 {
      var s, step := At(cfg, run, n - 1), run[n - 1];
      VersionCountsUpdates(cfg, run, n - 1, id);
      Replay.RunKeepsInv(cfg, run, n - 1);
      if id in s.db.blueprints {
        BlueprintStep(cfg, s, step, id);
      } else if id in Next(cfg, s, step).db.blueprints {
        NewBlueprint(cfg, s, step, id);
      }
    }
  }

  lemma NamesBlueprints(cfg: Config, s: State, step: Step)
    requires TouchesBlueprints(step) && NamesInv(s) && s.db.blueprints.Keys <= s.ids
    ensures NamesInv(Next(cfg, s, step))
  {
    hide Serve, ApplyChanges, BuildPrincipalUri;
    if step.StepUpdateBlueprint? && step.blueprintId in s.db.blueprints {
      ChangesKeepSlug(s.db.blueprints[step.blueprintId], step.changes);
    }
  }

  lemma NamesAgents(cfg: Config, s: State, step: Step)
    requires TouchesAgents(step) && NamesInv(s)
    ensures NamesInv(Next(cfg, s, step))
  {
    hide Serve, BuildPrincipalUri;
  }

  lemma NamesStep(cfg: Config, s: State, step: Step)
    requires NamesInv(s) && s.db.blueprints.Keys <= s.ids
    ensures NamesInv(Next(cfg, s, step))
  {
    hide Next, BuildPrincipalUri;
    if TouchesBlueprints(step) {
      NamesBlueprints(cfg, s, step);
    } else if TouchesAgents(step) {
      NamesAgents(cfg, s, step);
    } else {
      BlueprintsFrame(cfg, s, step);
      AgentsFrame(cfg, s, step);
    }
  }

  // In every reachable state no two blueprints share a slug, and every agent's
  // URI is the one built from its id and its blueprint's present slug.
  lemma {:induction false} RunKeepsNames(cfg: Config, run: seq<Step>, n: nat)
    requires n <= |run|
    ensures NamesInv(At(cfg, run, n))
  {
    hide Next;
    if n > 0 {
      RunKeepsNames(cfg, run, n - 1);
      Replay.RunKeepsInv(cfg, run, n - 1);
      NamesStep(cfg, At(cfg, run, n - 1), run[n - 1]);
    }
  }

  // Reading a principal URI back: the id is the last 36 characters, the slug
  // what is left between the prefix and the slash, slashes of its own included.
  const PREFIX := "agent://local/"

  function DecodeUri(uri: string): Option<(Uuid, string)> {
    if |uri| < |PREFIX| + 37 || uri[..|PREFIX|] != PREFIX then None
    else
      var id := uri[|uri| - 36..];
      if uri[|uri| - 37] == '/' then Some((id, uri[|PREFIX|..|uri| - 37])) else None
  }

  lemma UriRoundTrip(id: Uuid, slug: string)
    ensures DecodeUri(BuildPrincipalUri(id, slug)) == Some((id, slug))
  {
    var uri := BuildPrincipalUri(id, slug);
    assert uri == PREFIX + slug + "/" + id;
    assert uri[..|PREFIX|] == PREFIX;
    assert uri[|uri| - 36..] == id;
    assert uri[|PREFIX|..|uri| - 37] == slug;
  }

  // So distinct agents never share a URI: the unique constraint on
  // principal_uri cannot be violated.
  lemma UrisDistinct(cfg: Config, run: seq<Step>, n: nat, a: Uuid, b: Uuid)
    requires n <= |run|
    requires a in At(cfg, run, n).db.agents && b in At(cfg, run, n).db.agents
    ensures
      var db := At(cfg, run, n).db;
      && db.agents[a].blueprintId in db.blueprints
      && DecodeUri(db.agents[a].principalUri) == Some((a, db.blueprints[db.agents[a].blueprintId].slug))
      && (db.agents[a].principalUri == db.agents[b].principalUri ==> a == b)
  {
    var db := At(cfg, run, n).db;
    RunKeepsNames(cfg, run, n);
    UriRoundTrip(a, db.blueprints[db.agents[a].blueprintId].slug);
    UriRoundTrip(b, db.blueprints[db.agents[b].blueprintId].slug);
  }
}
