// What a revocation stops, and exactly what it does not.
module Revocation {
  import opened Text
  import opened ControlPlane
  import opened Authorization
  import opened History
  import Lifecycle
  import Replay

  // ---- sessions and agents ----

  lemma RevokeSessionTakesEffect(cfg: Config, s: State, id: Uuid)
    requires id in s.db.sessions
    ensures
      var sessions := Next(cfg, s, StepRevokeSession(id)).db.sessions;
      id in sessions && sessions[id].revokedAt.Some?
  {
  }

  // Once revoke_session has run for a session, no token for it is accepted.
  lemma SessionRevocationIsFinal(cfg: Config, run: seq<Step>, i: nat, m: Moments, t: Token, tool: string,
                                 operation: string, engine: Engine)
    requires m.Within(|run|) && i < m.session
    requires run[i] == StepRevokeSession(t.jti) && t.jti in At(cfg, run, i).db.sessions
    ensures AuthorizeAt(cfg, run, m, t, tool, operation, engine) == Unauthorized
  {
    hide Next, Consult, BuildInput;
    RevokeSessionTakesEffect(cfg, At(cfg, run, i), t.jti);
    assert At(cfg, run, i + 1) == Next(cfg, At(cfg, run, i), run[i]);
    RunLater(cfg, run, i + 1, m.session);
    hide At;
  }

  lemma RevokeAgentTakesEffect(cfg: Config, s: State, id: Uuid)
    requires id in s.db.agents
    ensures
      var agents := Next(cfg, s, StepRevokeAgent(id)).db.agents;
      id in agents && agents[id].status.Revoked?
  {
  }

  // The agent is revoked from step i on.
  lemma RevokedFrom(cfg: Config, run: seq<Step>, i: nat, n: nat, id: Uuid)
    requires i < n <= |run| && run[i] == StepRevokeAgent(id) && id in At(cfg, run, i).db.agents
    ensures id in At(cfg, run, n).db.agents && At(cfg, run, n).db.agents[id].status.Revoked?
  {
    hide Next;
    RevokeAgentTakesEffect(cfg, At(cfg, run, i), id);
    assert At(cfg, run, i + 1) == Next(cfg, At(cfg, run, i), run[i]);
    RunLater(cfg, run, i + 1, n);
  }

  // Once revoke_agent has run for an agent, none of its sessions is allowed
  // anything, by either engine, whenever its row is read afterwards.
  lemma AgentRevocationIsFinal(cfg: Config, run: seq<Step>, i: nat, m: Moments, t: Token, tool: string,
                               operation: string, engine: Engine)
    requires m.Within(|run|) && i < m.agent
    requires t.jti in At(cfg, run, m.session).db.sessions
    requires
      var agentId := At(cfg, run, m.session).db.sessions[t.jti].agentId;
      run[i] == StepRevokeAgent(agentId) && agentId in At(cfg, run, i).db.agents
    ensures !Allows(AuthorizeAt(cfg, run, m, t, tool, operation, engine))
  {
    hide At, Next, Authorize;
    RevokedFrom(cfg, run, i, m.agent, At(cfg, run, m.session).db.sessions[t.jti].agentId);
    InactiveAgentIsDenied(cfg, run, m, t, tool, operation, engine);
  }

  // An agent that is suspended, or in any status but active, when its row is
  // read is allowed nothing either.
  lemma InactiveAgentIsDenied(cfg: Config, run: seq<Step>, m: Moments, t: Token, tool: string, operation: string,
                              engine: Engine)
    requires m.Within(|run|)
    requires t.jti in At(cfg, run, m.session).db.sessions
    requires
      var agentId := At(cfg, run, m.session).db.sessions[t.jti].agentId;
      agentId in At(cfg, run, m.agent).db.agents && !At(cfg, run, m.agent).db.agents[agentId].status.Active?
    ensures !Allows(AuthorizeAt(cfg, run, m, t, tool, operation, engine))
  {
    hide At, Next, Authorize;
    if Allows(AuthorizeAt(cfg, run, m, t, tool, operation, engine)) {
      var s := At(cfg, run, m.token);
      AllowNeedsActive(t, s.tokens, s.now, ReadRows(cfg, run, m, t), tool, operation, engine);
    }
  }

  // Whatever session a revoked agent has, or gets later, was requested before
  // the revocation: no creation begun after it ever commits.  One begun before
  // may.
  lemma RevokedAgentBeginsNothing(cfg: Config, run: seq<Step>, i: nat, n: nat, id: Uuid)
    returns (o: Origin)
    requires i < |run| && n <= |run| && id in At(cfg, run, n).db.sessions
    requires
      var agentId := At(cfg, run, n).db.sessions[id].agentId;
      run[i] == StepRevokeAgent(agentId) && agentId in At(cfg, run, i).db.agents
    ensures CreatedBy(cfg, run, id, At(cfg, run, n).db.sessions[id], o)
    ensures o.load < i
  {
    hide At, Next, Attestation.Verify, DelegationAllows;
    o := SessionOrigin(cfg, run, n, id);
    if i < o.load {
      RevokedFrom(cfg, run, i, o.load, At(cfg, run, n).db.sessions[id].agentId);
    }
  }

  lemma RequestSession(cfg: Config, run: seq<Step>, n: nat, q: RequestId)
    requires n <= |run|
    requires q in At(cfg, run, n).requests && Replay.HasSession(At(cfg, run, n).requests[q])
    ensures
      var r := At(cfg, run, n).requests[q];
      r.phase.session.agentId == r.params.agentId && r.phase.session.delegationId == r.params.delegationId
  {
    hide At;
    var o := RequestOrigin(cfg, run, n, q);
  }

  // A creation that has come as far as its session after a revocation of its
  // agent was in flight when the agent was revoked, and has been ever since.
  lemma InFlightAtRevocation(cfg: Config, run: seq<Step>, i: nat, n: nat, q: RequestId)
    requires i <= n <= |run| && i < |run|
    requires q in At(cfg, run, n).requests && Replay.HasSession(At(cfg, run, n).requests[q])
    requires
      var agentId := At(cfg, run, n).requests[q].params.agentId;
      run[i] == StepRevokeAgent(agentId) && agentId in At(cfg, run, i).db.agents
    ensures forall x :: i <= x <= n ==> InFlight(cfg, run, x, q, At(cfg, run, n).requests[q].params)
  {
    hide At, VerifyRequest, BlueprintAt, CheckedAt, GrantedAt;
    var o := RequestOrigin(cfg, run, n, q);
    if i < o.load { RevokedFrom(cfg, run, i, o.load, At(cfg, run, n).requests[q].params.agentId); }
  }

  // Step c commits session id of agent a, whose creation has been in flight
  // since step i.
  ghost predicate CommitsInFlight(cfg: Config, run: seq<Step>, i: nat, c: nat, a: Uuid, id: Uuid) {
    && i < c < |run| && run[c].StepCommit?
    && var q := run[c].request;
       && q in At(cfg, run, c).requests
       && var r := At(cfg, run, c).requests[q];
          && r.params.agentId == a && r.phase.Issued? && r.phase.sessionId == id
          && forall x :: i <= x <= c ==> InFlight(cfg, run, x, q, r.params)
  }

  // The step that committed a session.
  lemma {:induction false} CommittedBy(cfg: Config, run: seq<Step>, i: nat, n: nat, id: Uuid) returns (c: nat)
    requires i <= n <= |run| && id !in At(cfg, run, i).db.sessions && id in At(cfg, run, n).db.sessions
    ensures i <= c < n && run[c].StepCommit? && run[c].request in At(cfg, run, c).requests
    ensures
      var p := At(cfg, run, c).requests[run[c].request].phase;
      && p.Issued? && p.sessionId == id
      && p.session.agentId == At(cfg, run, n).db.sessions[id].agentId
      && p.session.delegationId == At(cfg, run, n).db.sessions[id].delegationId
    decreases n
  {
    hide Next;
    var s := At(cfg, run, n - 1);
    if id in s.db.sessions {
      Replay.RunKeepsInv(cfg, run, n - 1);
      SessionsLastStep(cfg, s, run[n - 1]);
      c := CommittedBy(cfg, run, i, n - 1, id);
    } else {
      SessionCommitted(cfg, s, run[n - 1], id);
      c := n - 1;
    }
  }

  lemma CommitInserts(cfg: Config, s: State, q: RequestId)
    requires q in s.requests && s.requests[q].phase.Issued?
    ensures
      var p, sessions := s.requests[q].phase, Next(cfg, s, StepCommit(q)).db.sessions;
      p.sessionId in sessions && sessions[p.sessionId] == p.session
  {
    hide Administer;
  }

  // The documented "a revoked identity must never receive a valid session"
  // fails exactly for the creations that are in flight when the agent is
  // revoked and commit later.
  lemma RevokedAgentReceives(cfg: Config, run: seq<Step>, i: nat, n: nat, a: Uuid, id: Uuid)
    requires i < n <= |run| && run[i] == StepRevokeAgent(a) && a in At(cfg, run, i).db.agents
    ensures
      var before, after := At(cfg, run, i).db.sessions, At(cfg, run, n).db.sessions;
      id !in before && id in after && after[id].agentId == a <==>
        exists c: nat :: c < n && CommitsInFlight(cfg, run, i, c, a, id)
  {
    hide At, Next;
    var before, after := At(cfg, run, i).db.sessions, At(cfg, run, n).db.sessions;
    if id !in before && id in after && after[id].agentId == a {
      var c := CommittedBy(cfg, run, i, n, id);
      RequestSession(cfg, run, c, run[c].request);
      InFlightAtRevocation(cfg, run, i, c, run[c].request);
      assert CommitsInFlight(cfg, run, i, c, a, id);
    }
    forall c: nat | c < n && CommitsInFlight(cfg, run, i, c, a, id)
      ensures id !in before && id in after && after[id].agentId == a
    {
      RequestSession(cfg, run, c, run[c].request);
      CommittedIsNew(cfg, run, i, c, n);
    }
  }

  // What step c commits was not there before, and is there ever after.
  lemma CommittedIsNew(cfg: Config, run: seq<Step>, i: nat, c: nat, n: nat)
    requires i <= c < n <= |run| && run[c].StepCommit? && run[c].request in At(cfg, run, c).requests
    requires At(cfg, run, c).requests[run[c].request].phase.Issued?
    ensures
      var p, sessions := At(cfg, run, c).requests[run[c].request].phase, At(cfg, run, n).db.sessions;
      && p.sessionId !in At(cfg, run, i).db.sessions
      && p.sessionId in sessions
      && sessions[p.sessionId].agentId == p.session.agentId
      && sessions[p.sessionId].delegationId == p.session.delegationId
  {
    hide Next;
    var q := run[c].request;
    Replay.RunKeepsInv(cfg, run, c);
    CommitInserts(cfg, At(cfg, run, c), q);
    assert At(cfg, run, c + 1) == Next(cfg, At(cfg, run, c), run[c]);
    RunLater(cfg, run, i, c);
    RunLater(cfg, run, c + 1, n);
    hide At;
  }

  lemma CommitWasInFlight(cfg: Config, run: seq<Step>, i: nat, c: nat, a: Uuid, id: Uuid)
    requires i <= |run|
    ensures CommitsInFlight(cfg, run, i, c, a, id) ==>
      exists q :: q in At(cfg, run, i).requests && At(cfg, run, i).requests[q].params.agentId == a
  {
    hide At;
    if CommitsInFlight(cfg, run, i, c, a, id) {
      var q := run[c].request;
      assert InFlight(cfg, run, i, q, At(cfg, run, c).requests[q].params);
    }
  }

  // So with no creation for the agent in flight when it is revoked, it never
  // again receives a session.
  lemma QuietRevocation(cfg: Config, run: seq<Step>, i: nat, n: nat, id: Uuid)
    requires i < n <= |run| && id in At(cfg, run, n).db.sessions
    requires
      var agentId := At(cfg, run, n).db.sessions[id].agentId;
      && run[i] == StepRevokeAgent(agentId) && agentId in At(cfg, run, i).db.agents
      && forall q :: q in At(cfg, run, i).requests ==> At(cfg, run, i).requests[q].params.agentId != agentId
    ensures id in At(cfg, run, i).db.sessions
  {
    hide At, Next;
    var agentId := At(cfg, run, n).db.sessions[id].agentId;
    RevokedAgentReceives(cfg, run, i, n, agentId, id);
    forall c: nat | c < n { CommitWasInFlight(cfg, run, i, c, agentId, id); }
  }

  // ---- blueprints ----

  // Deactivated at step i, and not activated since.
  ghost predicate Deactivated(run: seq<Step>, i: nat, n: nat, b: Uuid) {
    && i < n <= |run| && run[i] == StepSetBlueprintStatus(b, false)
    && forall x :: i < x < n ==> run[x] != StepSetBlueprintStatus(b, true)
  }

  lemma {:induction false} DeactivatedStays(cfg: Config, run: seq<Step>, i: nat, n: nat, b: Uuid)
    requires Deactivated(run, i, n, b) && b in At(cfg, run, i).db.blueprints
    ensures b in At(cfg, run, n).db.blueprints && At(cfg, run, n).db.blueprints[b].status.BlueprintInactive?
    decreases n
  {
    hide Next;
    Replay.RunKeepsInv(cfg, run, n - 1);
    if i < n - 1 { DeactivatedStays(cfg, run, i, n - 1, b); }
    Lifecycle.BlueprintStep(cfg, At(cfg, run, n - 1), run[n - 1], b);
  }

  // After a deactivation and until the next activation, no session under the
  // blueprint is allowed anything, by either engine.
  lemma DeactivatedIsDenied(cfg: Config, run: seq<Step>, i: nat, m: Moments, b: Uuid, t: Token, tool: string,
                            operation: string, engine: Engine)
    requires m.Within(|run|)
    requires Deactivated(run, i, m.blueprint, b) && b in At(cfg, run, i).db.blueprints
    ensures
      var rows := ReadRows(cfg, run, m, t);
      rows.agent.Some? && rows.agent.value.blueprintId == b ==>
        !Allows(AuthorizeAt(cfg, run, m, t, tool, operation, engine))
  {
    hide At, Next, Authorize;
    DeactivatedStays(cfg, run, i, m.blueprint, b);
    var s := At(cfg, run, m.token);
    AllowNeedsActive(t, s.tokens, s.now, ReadRows(cfg, run, m, t), tool, operation, engine);
  }

  // Nor does a creation that reads the blueprint's row in that time commit.
  lemma DeactivatedBeginsNothing(cfg: Config, run: seq<Step>, i: nat, n: nat, b: Uuid, id: Uuid) returns (o: Origin)
    requires i < |run| && n <= |run| && id in At(cfg, run, n).db.sessions && b in At(cfg, run, i).db.blueprints
    ensures CreatedBy(cfg, run, id, At(cfg, run, n).db.sessions[id], o)
    ensures At(cfg, run, o.load).db.agents[run[o.load].params.agentId].blueprintId == b ==>
      !Deactivated(run, i, o.blueprint, b)
  {
    o := SessionOrigin(cfg, run, n, id);
    hide At, Next, Attestation.Verify, DelegationAllows, SessionTtl;
    if Deactivated(run, i, o.blueprint, b) { DeactivatedStays(cfg, run, i, o.blueprint, b); }
  }

  // ---- what a creation in flight does not see ----

  // One agent's or one delegation's row, changed.
  datatype Edit = AgentRow(id: Uuid, agent: Agent) | DelegationRow(id: Uuid, delegation: Delegation)

  predicate Edits(s: State, e: Edit) {
    match e
    case AgentRow(id, _) => id in s.db.agents
    case DelegationRow(id, _) => id in s.db.delegations
  }

  function Edited(s: State, e: Edit): State {
    match e
    case AgentRow(id, agent) => PutAgent(s, id, agent)
    case DelegationRow(id, delegation) => PutDelegation(s, id, delegation)
  }

  // The step reads or writes the row: any other may come at any time.
  predicate Touches(s: State, step: Step, e: Edit) {
    match e
    case AgentRow(id, _) =>
      (match step
       case StepLoad(_, _, params) => params.agentId == id
       case StepCreateAgent(target, _, _) => target == id
       case StepActivateAgent(target) => target == id
       case StepSuspendAgent(target) => target == id
       case StepRevokeAgent(target) => target == id
       case StepRotateKey(target, _) => target == id
       case _ => false)
    case DelegationRow(id, _) =>
      (match step
       case StepReadDelegation(q) => q in s.requests && s.requests[q].params.delegationId == Some(id)
       case StepCreateDelegation(target, _, _) => target == id
       case StepRevokeDelegation(target) => target == id
       case _ => false)
  }

  ghost predicate LeavesAlone(cfg: Config, s: State, steps: seq<Step>, e: Edit)
    decreases |steps|
  {
    steps == [] || (!Touches(s, steps[0], e) && LeavesAlone(cfg, Next(cfg, s, steps[0]), steps[1..], e))
  }

  function Moved(r: Reply, e: Edit): Reply {
    Reply(Edited(r.state, e), r.status)
  }

  lemma VerdictIgnores(cfg: Config, s: State, r: Request, e: Edit)
    requires MayStart(r)
    ensures VerifyRequest(cfg, Edited(s, e), r) == VerifyRequest(cfg, s, r)
  {
    hide Attestation.Verify, MayStart;
  }

  lemma AttestIgnores(cfg: Config, s: State, q: RequestId, attestationId: Uuid, e: Edit)
    ensures Attest(cfg, Edited(s, e), q, attestationId) == Moved(Attest(cfg, s, q, attestationId), e)
  {
    hide VerifyRequest, MayStart;
    if q in s.requests && MayStart(s.requests[q]) { VerdictIgnores(cfg, s, s.requests[q], e); }
  }

  lemma FlushIgnores(s: State, q: RequestId, e: Edit)
    ensures Flush(Edited(s, e), q) == Moved(Flush(s, q), e)
  {
    hide Insertable;
  }

  lemma LoadIgnores(s: State, q: RequestId, p: Process, params: Params, e: Edit)
    requires !Touches(s, StepLoad(q, p, params), e)
    ensures Load(Edited(s, e), q, p, params) == Moved(Load(s, q, p, params), e)
  {
  }

  lemma ReadsIgnore(s: State, q: RequestId, e: Edit)
    ensures ReadBlueprint(Edited(s, e), q) == Moved(ReadBlueprint(s, q), e)
    ensures !Touches(s, StepReadDelegation(q), e) ==>
      ReadDelegation(Edited(s, e), q) == Moved(ReadDelegation(s, q), e)
  {
  }

  lemma ServingIgnores(cfg: Config, s: State, step: Step, e: Edit)
    requires !Administrative(step) && !Touches(s, step, e)
    ensures Serve(cfg, Edited(s, e), step) == Moved(Serve(cfg, s, step), e)
  {
    hide Load, ReadBlueprint, Attest, Flush, ReadDelegation, NewSession, IssueToken, DelegationAllows;
    match step
    case StepLoad(q, p, params) => LoadIgnores(s, q, p, params, e);
    case StepReadBlueprint(q) => ReadsIgnore(s, q, e);
    case StepAttest(q, attestationId) => AttestIgnores(cfg, s, q, attestationId, e);
    case StepFlush(q) => FlushIgnores(s, q, e);
    case StepReadDelegation(q) => ReadsIgnore(s, q, e);
    case _ =>
  }

  lemma AdministrationIgnores(s: State, step: Step, e: Edit)
    requires Administrative(step) && Edits(s, e) && !Touches(s, step, e)
    ensures Administer(Edited(s, e), step) == Moved(Administer(s, step), e)
  {
    hide CreateAgent, ActivateAgent, SuspendAgent, RevokeAgent, RotateKey, CreateDelegation, RevokeDelegation, Edits,
         Touches, ApplyChanges;
    if Lifecycle.TouchesAgents(step) {
      AgentStepIgnores(s, step, e);
    } else if step.StepCreateDelegation? || step.StepRevokeDelegation? {
      DelegationStepIgnores(s, step, e);
    }
  }

  lemma AgentStepIgnores(s: State, step: Step, e: Edit)
    requires Lifecycle.TouchesAgents(step) && Edits(s, e) && !Touches(s, step, e)
    ensures Administer(Edited(s, e), step) == Moved(Administer(s, step), e)
  {
    hide CreateAgent, ActivateAgent, SuspendAgent, RevokeAgent, RotateKey, Edited, Edits;
    match step
    case StepCreateAgent(id, blueprintId, key) => AgentCreationIgnores(s, id, blueprintId, key, e);
    case StepActivateAgent(id) => StatusIgnores(s, id, e);
    case StepSuspendAgent(id) => StatusIgnores(s, id, e);
    case StepRevokeAgent(id) => RevocationIgnores(s, id, e);
    case StepRotateKey(id, key) => RotationIgnores(s, id, key, e);
  }

  lemma AgentCreationIgnores(s: State, id: Uuid, blueprintId: Uuid, key: Option<string>, e: Edit)
    requires Edits(s, e) && (e.AgentRow? ==> e.id != id)
    ensures CreateAgent(Edited(s, e), id, blueprintId, key) == Moved(CreateAgent(s, id, blueprintId, key), e)
  {
    hide BuildPrincipalUri;
  }

  lemma StatusIgnores(s: State, id: Uuid, e: Edit)
    requires Edits(s, e) && (e.AgentRow? ==> e.id != id)
    ensures ActivateAgent(Edited(s, e), id) == Moved(ActivateAgent(s, id), e)
    ensures SuspendAgent(Edited(s, e), id) == Moved(SuspendAgent(s, id), e)
  {
  }

  lemma RevocationIgnores(s: State, id: Uuid, e: Edit)
    requires Edits(s, e) && (e.AgentRow? ==> e.id != id)
    ensures RevokeAgent(Edited(s, e), id) == Moved(RevokeAgent(s, id), e)
  {
  }

  lemma RotationIgnores(s: State, id: Uuid, key: string, e: Edit)
    requires Edits(s, e) && (e.AgentRow? ==> e.id != id)
    ensures RotateKey(Edited(s, e), id, key) == Moved(RotateKey(s, id, key), e)
  {
  }

  lemma DelegationStepIgnores(s: State, step: Step, e: Edit)
    requires step.StepCreateDelegation? || step.StepRevokeDelegation?
    requires Edits(s, e) && !Touches(s, step, e)
    ensures Administer(Edited(s, e), step) == Moved(Administer(s, step), e)
  {
    hide CreateDelegation, RevokeDelegation, Edited, Edits;
    match step
    case StepCreateDelegation(id, agentId, ttl) => DelegationCreationIgnores(s, id, agentId, ttl, e);
    case StepRevokeDelegation(id) => DelegationRevocationIgnores(s, id, e);
  }

  lemma DelegationCreationIgnores(s: State, id: Uuid, agentId: Uuid, ttl: int, e: Edit)
    requires Edits(s, e) && (e.DelegationRow? ==> e.id != id)
    ensures CreateDelegation(Edited(s, e), id, agentId, ttl) == Moved(CreateDelegation(s, id, agentId, ttl), e)
  {
  }

  lemma DelegationRevocationIgnores(s: State, id: Uuid, e: Edit)
    requires Edits(s, e) && (e.DelegationRow? ==> e.id != id)
    ensures RevokeDelegation(Edited(s, e), id) == Moved(RevokeDelegation(s, id), e)
  {
  }

  lemma EditStays(cfg: Config, s: State, step: Step, e: Edit)
    requires Edits(s, e)
    ensures Edits(Next(cfg, s, step), e)
  {
    if Lifecycle.TouchesAgents(step) || step.StepCreateDelegation? || step.StepRevokeDelegation? {
      hide Serve, BuildPrincipalUri;
    } else if Administrative(step) {
      hide Next;
      Lifecycle.AgentsFrame(cfg, s, step);
      DelegationsFrame(cfg, s, step);
    } else {
      hide Next;
      Lifecycle.ServingKeeps(cfg, s, step);
    }
  }

  // A change to a row commutes with every sequence of steps that neither reads
  // nor writes it, however many requests they interleave.
  lemma {:induction false} RunIgnores(cfg: Config, s: State, steps: seq<Step>, e: Edit)
    requires Edits(s, e) && LeavesAlone(cfg, s, steps, e)
    ensures After(cfg, Edited(s, e), steps) == Edited(After(cfg, s, steps), e)
    decreases |steps|
  {
    if steps != [] {
      var step := steps[0];
      assert Next(cfg, Edited(s, e), step) == Edited(Next(cfg, s, step), e) by {
        hide Administer, Serve;
        if Administrative(step) { AdministrationIgnores(s, step, e); } else { ServingIgnores(cfg, s, step, e); }
      }
      hide Next;
      EditStays(cfg, s, step, e);
      RunIgnores(cfg, Next(cfg, s, step), steps[1..], e);
    }
  }

  // A revocation of an agent changes its row, and nothing else that happens
  // until the row is read or written again: in whatever phase they are, its
  // creations in flight go on as they would have gone.
  lemma RevocationChangesOneRow(cfg: Config, s: State, a: Uuid, steps: seq<Step>)
    requires a in s.db.agents
    ensures
      var revoked := s.db.agents[a].(status := Revoked, revokedAt := Some(s.now));
      LeavesAlone(cfg, s, steps, AgentRow(a, revoked)) ==>
        After(cfg, Next(cfg, s, StepRevokeAgent(a)), steps) == PutAgent(After(cfg, s, steps), a, revoked)
  {
    var e := AgentRow(a, s.db.agents[a].(status := Revoked, revokedAt := Some(s.now)));
    assert Next(cfg, s, StepRevokeAgent(a)) == Edited(s, e) by { hide Serve; }
    hide Next;
    if LeavesAlone(cfg, s, steps, e) { RunIgnores(cfg, s, steps, e); }
  }

  // The same of a delegation, for the creations that have read its row.
  lemma DelegationRevocationChangesOneRow(cfg: Config, s: State, d: Uuid, steps: seq<Step>)
    requires d in s.db.delegations && s.db.delegations[d].revokedAt.None?
    ensures
      var revoked := s.db.delegations[d].(revokedAt := Some(s.now));
      LeavesAlone(cfg, s, steps, DelegationRow(d, revoked)) ==>
        After(cfg, Next(cfg, s, StepRevokeDelegation(d)), steps) == PutDelegation(After(cfg, s, steps), d, revoked)
  {
    var e := DelegationRow(d, s.db.delegations[d].(revokedAt := Some(s.now)));
    assert Next(cfg, s, StepRevokeDelegation(d)) == Edited(s, e) by { hide Serve; }
    hide Next;
    if LeavesAlone(cfg, s, steps, e) { RunIgnores(cfg, s, steps, e); }
  }

  // ---- delegations ----

  // A session under a delegation was granted after the delegation's row was
  // read, not revoked and for its own agent, and checked, not expired.
  lemma DelegationWasGood(cfg: Config, run: seq<Step>, n: nat, id: Uuid) returns (o: Origin)
    requires n <= |run| && id in At(cfg, run, n).db.sessions
    ensures CreatedBy(cfg, run, id, At(cfg, run, n).db.sessions[id], o)
    ensures
      var session := At(cfg, run, n).db.sessions[id];
      session.delegationId.Some? ==>
        && session.delegationId.value in At(cfg, run, o.delegation).db.delegations
        && var d := At(cfg, run, o.delegation).db.delegations[session.delegationId.value];
           && d.revokedAt.None? && d.agentId == session.agentId
           && At(cfg, run, o.check).now <= d.expiresAt && At(cfg, run, o.check).now <= session.issuedAt
  {
    o := SessionOrigin(cfg, run, n, id);
    RunLater(cfg, run, o.check, o.grant);
    hide At, Next, Attestation.Verify;
  }

  lemma RevokeDelegationTakesEffect(cfg: Config, s: State, id: Uuid)
    requires id in s.db.delegations
    ensures
      var delegations := Next(cfg, s, StepRevokeDelegation(id)).db.delegations;
      id in delegations && delegations[id].revokedAt.Some?
  {
  }

  // Whatever session is granted under a delegation that was revoked, its
  // creation had read the row before.
  lemma DelegationRevocationIsFinal(cfg: Config, run: seq<Step>, i: nat, n: nat, id: Uuid) returns (o: Origin)
    requires i < |run| && n <= |run| && id in At(cfg, run, n).db.sessions
    requires
      var d := At(cfg, run, n).db.sessions[id].delegationId;
      d.Some? && run[i] == StepRevokeDelegation(d.value) && d.value in At(cfg, run, i).db.delegations
    ensures CreatedBy(cfg, run, id, At(cfg, run, n).db.sessions[id], o)
    ensures o.delegation < i
  {
    hide Next, Attestation.Verify, CreatedBy;
    o := DelegationWasGood(cfg, run, n, id);
    var d := At(cfg, run, n).db.sessions[id].delegationId.value;
    OriginSteps(cfg, run, id, At(cfg, run, n).db.sessions[id], o);
    if i < o.delegation {
      RevokeDelegationTakesEffect(cfg, At(cfg, run, i), d);
      assert At(cfg, run, i + 1) == Next(cfg, At(cfg, run, i), run[i]);
      RunDelegations(cfg, run, i + 1, o.delegation);
    }
  }

  // Step c commits session id under delegation d, whose row its creation read
  // at step k, before step i, and which has been in flight ever since.
  ghost predicate CommitsConsulted(cfg: Config, run: seq<Step>, i: nat, k: nat, c: nat, d: Uuid, id: Uuid) {
    && k < i < c < |run| && run[c].StepCommit? && run[k] == StepReadDelegation(run[c].request)
    && var q := run[c].request;
       && q in At(cfg, run, c).requests
       && var r := At(cfg, run, c).requests[q];
          && r.params.delegationId == Some(d) && r.phase.Issued? && r.phase.sessionId == id
          && forall x :: k < x <= c ==> InFlight(cfg, run, x, q, r.params)
  }

  // Over any run, the sessions that begin under a delegation after its
  // revocation are exactly those whose creation had read its row before.
  lemma RevokedDelegationServes(cfg: Config, run: seq<Step>, i: nat, n: nat, d: Uuid, id: Uuid)
    requires i < n <= |run| && run[i] == StepRevokeDelegation(d) && d in At(cfg, run, i).db.delegations
    ensures
      var before, after := At(cfg, run, i).db.sessions, At(cfg, run, n).db.sessions;
      id !in before && id in after && after[id].delegationId == Some(d) <==>
        exists c: nat, k: nat :: c < n && CommitsConsulted(cfg, run, i, k, c, d, id)
  {
    hide At, Next;
    var before, after := At(cfg, run, i).db.sessions, At(cfg, run, n).db.sessions;
    if id !in before && id in after && after[id].delegationId == Some(d) {
      var c := CommittedBy(cfg, run, i, n, id);
      RequestSession(cfg, run, c, run[c].request);
      var k := ConsultedBefore(cfg, run, i, c, run[c].request, d);
      assert CommitsConsulted(cfg, run, i, k, c, d, id);
    }
    forall c: nat, k: nat | c < n && CommitsConsulted(cfg, run, i, k, c, d, id)
      ensures id !in before && id in after && after[id].delegationId == Some(d)
    {
      RequestSession(cfg, run, c, run[c].request);
      CommittedIsNew(cfg, run, i, c, n);
    }
  }

  lemma ConsultedBefore(cfg: Config, run: seq<Step>, i: nat, n: nat, q: RequestId, d: Uuid) returns (k: nat)
    requires i < n <= |run| && run[i] == StepRevokeDelegation(d) && d in At(cfg, run, i).db.delegations
    requires q in At(cfg, run, n).requests && Replay.HasSession(At(cfg, run, n).requests[q])
    requires At(cfg, run, n).requests[q].params.delegationId == Some(d)
    ensures k < i && run[k] == StepReadDelegation(q)
    ensures forall x :: k < x <= n ==> InFlight(cfg, run, x, q, At(cfg, run, n).requests[q].params)
  {
    hide Next, BlueprintAt, AttestedAt, GrantedAt, Attestation.Verify;
    var o := RequestOrigin(cfg, run, n, q);
    k := o.delegation;
    if i < k {
      RevokeDelegationTakesEffect(cfg, At(cfg, run, i), d);
      assert At(cfg, run, i + 1) == Next(cfg, At(cfg, run, i), run[i]);
      RunDelegations(cfg, run, i + 1, k);
      hide At;
    }
  }

  lemma OriginSteps(cfg: Config, run: seq<Step>, id: Uuid, session: Session, o: Origin)
    ensures CreatedBy(cfg, run, id, session, o) ==> o.Within(|run|) && run[o.delegation].StepReadDelegation?
  {
    hide At;
  }
}
