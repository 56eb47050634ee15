// The identity service as the code has it: tables that handlers update in
// place.  A ghost field keeps the run that led to the present state, so that
// what is proved of runs holds of the object.
module Services {
  import opened Text
  import opened Json
  import opened Attestation
  import opened ControlPlane
  import opened Creation
  import Authorization
  import Grants
  import History
  import Integrity
  import Lifecycle
  import Policy
  import Replay

  class IdentityService {
    const cfg: Config
    var now: nat
    var blueprints: map<Uuid, Blueprint>
    var agents: map<Uuid, Agent>
    var delegations: map<Uuid, Delegation>
    var attestations: map<Uuid, AttestationRow>
    var sessions: map<Uuid, Session>
    var seen: map<Process, set<Value>>
    var requests: map<RequestId, Request>
    var tokens: set<Token>
    var ids: set<Uuid>
    ghost var run: seq<Step>  // every step since the service was set up

    constructor (cfg: Config)
      ensures this.cfg == cfg && run == [] && Valid()
    {
      this.cfg := cfg;
      run := [];
      now, tokens, ids := 0, {}, {};
      blueprints, agents, delegations, attestations, sessions := map[], map[], map[], map[], map[];
      seen, requests := map[], map[];
    }

    ghost function Abs(): State
      reads this
    {
      State(now, Tables(blueprints, agents, delegations, attestations, sessions), seen, requests, tokens, ids)
    }

    ghost predicate Valid()
      reads this
    {
      Abs() == At(cfg, run, |run|)
    }

    // The method has taken this step of the transition system.
    twostate predicate Took(step: Step, status: int)
      reads this
    {
      Valid() && run == old(run) + [step] && Reply(Abs(), status) == Do(cfg, old(Abs()), step)
    }

    ghost method Record(step: Step)
      requires Valid()
      modifies this`run
      ensures run == old(run) + [step] && At(cfg, run, |run|) == Next(cfg, old(Abs()), step)
    {
      AtExtended(cfg, run, step);
      run := run + [step];
    }

    // ---- blueprints ----

    method CreateBlueprint(id: Uuid, slug: string, name: string, environments: seq<string>,
                           maxScopes: seq<string>, maxTtl: int) returns (status: int)
      requires Valid()
      modifies this
      ensures Took(StepCreateBlueprint(id, slug, name, environments, maxScopes, maxTtl), status)
    {
      hide Serve;
      Record(StepCreateBlueprint(id, slug, name, environments, maxScopes, maxTtl));
      if id in ids { return 500; }
      if |slug| < 1 || |slug| > 128 || |name| < 1 || |name| > 256 || maxTtl < 60 || maxTtl > 86400 { return 422; }
      if FindSlug(blueprints, slug) { return 409; }
      ids := ids + {id};
      blueprints := blueprints[id := Blueprint(slug, 1, name, BlueprintDraft, Policy.Items(environments),
                                               Policy.Items(maxScopes), maxTtl)];
      return 201;
    }

    // Every field that was sent is set, then the version goes up, then the
    // commit refuses a null in a column that must not be null.
    method UpdateBlueprint(id: Uuid, changes: seq<Change>) returns (status: int)
      requires Valid()
      modifies this
      ensures Took(StepUpdateBlueprint(id, changes), status)
    {
      hide Serve;
      Record(StepUpdateBlueprint(id, changes));
      if id !in blueprints { return 404; }
      var blueprint, refused := blueprints[id], false;
      for i := 0 to |changes|
        invariant refused ==> ApplyChanges(blueprints[id], changes).None?
        invariant !refused ==> ApplyChanges(blueprint, changes[i..]) == ApplyChanges(blueprints[id], changes)
      {
        if Storable(changes[i]) {
          blueprint := ApplyChange(blueprint, changes[i]);
        } else {
          refused := true;
        }
      }
      if refused { return 500; }
      blueprint := blueprint.(version := blueprint.version + 1);
      blueprints := blueprints[id := blueprint];
      if blueprint.maxScopes.Items? && blueprint.approvedEnvironments.Items? { return 200; }
      return 500;
    }

    method ActivateBlueprint(id: Uuid) returns (status: int)
      requires Valid()
      modifies this
      ensures Took(StepSetBlueprintStatus(id, true), status)
    {
      hide Serve;
      Record(StepSetBlueprintStatus(id, true));
      if id !in blueprints { return 404; }
      blueprints := blueprints[id := blueprints[id].(status := BlueprintActive)];
      return 200;
    }

    method DeactivateBlueprint(id: Uuid) returns (status: int)
      requires Valid()
      modifies this
      ensures Took(StepSetBlueprintStatus(id, false), status)
    {
      hide Serve;
      Record(StepSetBlueprintStatus(id, false));
      if id !in blueprints { return 404; }
      blueprints := blueprints[id := blueprints[id].(status := BlueprintInactive)];
      return 200;
    }

    // ---- agents ----

    method CreateAgent(id: Uuid, blueprintId: Uuid, publicKey: Option<string>) returns (status: int)
      requires Valid()
      modifies this
      ensures Took(StepCreateAgent(id, blueprintId, publicKey), status)
    {
      hide Serve;
      Record(StepCreateAgent(id, blueprintId, publicKey));
      if blueprintId !in blueprints { return 404; }
      var blueprint := blueprints[blueprintId];
      if blueprint.status != BlueprintActive { return 400; }
      if id in ids { return 500; }
      ids := ids + {id};
      var agent := Agent(BuildPrincipalUri(id, blueprint.slug), blueprintId, Draft, publicKey, None, None, None);
      agents := agents[id := agent];
      return 201;
    }

    method ActivateAgent(id: Uuid) returns (status: int)
      requires Valid()
      modifies this
      ensures Took(StepActivateAgent(id), status)
    {
      hide Serve;
      Record(StepActivateAgent(id));
      if id !in agents { return 404; }
      var agent := agents[id];
      if agent.status !in {Draft, PendingApproval, Suspended} { return 400; }
      agent := agent.(status := Active);
      agent := agent.(activatedAt := Some(now));
      agents := agents[id := agent];
      return 200;
    }

    method SuspendAgent(id: Uuid) returns (status: int)
      requires Valid()
      modifies this
      ensures Took(StepSuspendAgent(id), status)
    {
      hide Serve;
      Record(StepSuspendAgent(id));
      if id !in agents { return 404; }
      var agent := agents[id];
      if agent.status != Active { return 400; }
      agent := agent.(status := Suspended);
      agent := agent.(suspendedAt := Some(now));
      agents := agents[id := agent];
      return 200;
    }

    method RevokeAgent(id: Uuid) returns (status: int)
      requires Valid()
      modifies this
      ensures Took(StepRevokeAgent(id), status)
    {
      hide Serve;
      Record(StepRevokeAgent(id));
      if id !in agents { return 404; }
      var agent := agents[id];
      agent := agent.(status := Revoked);
      agent := agent.(revokedAt := Some(now));
      agents := agents[id := agent];
      return 200;
    }

    method RotateKey(id: Uuid, publicKey: string) returns (status: int)
      requires Valid()
      modifies this
      ensures Took(StepRotateKey(id, publicKey), status)
    {
      hide Serve;
      Record(StepRotateKey(id, publicKey));
      if id !in agents { return 404; }
      agents := agents[id := agents[id].(publicKey := Some(publicKey))];
      return 200;
    }

    // ---- delegations ----

    method CreateDelegation(id: Uuid, agentId: Uuid, ttl: int) returns (status: int)
      requires Valid()
      modifies this
      ensures Took(StepCreateDelegation(id, agentId, ttl), status)
    {
      hide Serve;
      Record(StepCreateDelegation(id, agentId, ttl));
      if ttl < 1 || ttl > 86400 { return 422; }
      if agentId !in agents || id in ids { return 500; }
      ids := ids + {id};
      delegations := delegations[id := Delegation(agentId, now, now + ttl * SECOND, None)];
      return 201;
    }

    method RevokeDelegation(id: Uuid) returns (status: int)
      requires Valid()
      modifies this
      ensures Took(StepRevokeDelegation(id), status)
    {
      hide Serve;
      Record(StepRevokeDelegation(id));
      if id !in delegations { return 404; }
      if delegations[id].revokedAt.Some? { return 400; }
      delegations := delegations[id := delegations[id].(revokedAt := Some(now))];
      return 200;
    }

    // ---- sessions ----

    method Load(q: RequestId, p: Process, params: Params) returns (status: int)
      requires Valid()
      modifies this
      ensures Took(StepLoad(q, p, params), status)
    {
      hide Administer;
      Record(StepLoad(q, p, params));
      if q in requests { return 500; }
      if params.ttl < 1 || params.ttl > 1800 { return 422; }
      var agent: Option<Agent> := None;
      if params.agentId in agents { agent := Some(agents[params.agentId]); }
      requests := requests[q := Request(p, params, agent, None, Arrived)];
      return 102;
    }

    method ReadBlueprint(q: RequestId) returns (status: int)
      requires Valid()
      modifies this
      ensures Took(StepReadBlueprint(q), status)
    {
      hide Administer;
      Record(StepReadBlueprint(q));
      if q !in requests || !requests[q].phase.Arrived? { return 500; }
      var r := requests[q];
      var blueprint: Option<Blueprint> := None;
      if r.agent.Some? && r.agent.value.blueprintId in blueprints {
        blueprint := Some(blueprints[r.agent.value.blueprintId]);
      }
      requests := requests[q := r.(blueprint := blueprint, phase := Loaded)];
      return 102;
    }

    method Attest(q: RequestId, attestationId: Uuid) returns (status: int)
      requires Valid()
      modifies this
      ensures Took(StepAttest(q, attestationId), status)
    {
      hide Administer, Verify, At, ControlPlane.Load, ControlPlane.Flush, ControlPlane.Check, ControlPlane.Grant,
           ControlPlane.Issue, ControlPlane.Commit;
      Record(StepAttest(q, attestationId));
      if q !in requests || !requests[q].phase.Loaded? || attestationId in ids { return 500; }
      var r := requests[q];
      if !MayStart(r) {
        requests := requests - {q};
        return 400;
      }
      var seenHere := if r.process in seen then seen[r.process] else {};
      var verdict := Verify(cfg.env, PoppedData(r.params.attestation), PoppedSignature(r.params.attestation),
                            r.agent.value.publicKey.value, r.params.agentId, now, seenHere);
      seen := seen[r.process := verdict.seen];
      if !verdict.outcome.Verified? {
        requests := requests - {q};
        return if verdict.outcome.Raised? then 500 else 400;
      }
      ids := ids + {attestationId};
      requests := requests[q := r.(phase := Attested(attestationId))];
      return 102;
    }

    method Flush(q: RequestId) returns (status: int)
      requires Valid()
      modifies this
      ensures Took(StepFlush(q), status)
    {
      hide Administer, Insertable, At, ControlPlane.Load, ControlPlane.Attest, ControlPlane.Check,
           ControlPlane.Grant, ControlPlane.Issue, ControlPlane.Commit;
      Record(StepFlush(q));
      if q !in requests || !requests[q].phase.Attested? { return 500; }
      var r := requests[q];
      var claims := PoppedData(r.params.attestation);
      if !Insertable(claims) {
        requests := requests - {q};
        return 500;
      }
      InsertableClaims(claims);
      var nonce := Get(claims, "nonce").value.s;
      if exists a | a in attestations :: attestations[a].nonce == nonce {
        requests := requests - {q};
        return 500;
      }
      if exists o | o in requests :: Holds(requests[o]) && requests[o].phase.row.nonce == nonce { return 102; }
      var row := AttestationRow(r.params.agentId, Get(claims, "environment").value.s, nonce);
      requests := requests[q := r.(phase := Flushed(r.phase.attestationId, row))];
      return 102;
    }

    method ReadDelegation(q: RequestId) returns (status: int)
      requires Valid()
      modifies this
      ensures Took(StepReadDelegation(q), status)
    {
      hide Administer;
      Record(StepReadDelegation(q));
      if q !in requests || !requests[q].phase.Flushed? { return 500; }
      var r := requests[q];
      var delegation: Option<Delegation> := None;
      if r.params.delegationId.Some? && r.params.delegationId.value in delegations {
        delegation := Some(delegations[r.params.delegationId.value]);
      }
      requests := requests[q := r.(phase := Consulted(r.phase.attestationId, r.phase.row, delegation))];
      return 102;
    }

    method Check(q: RequestId) returns (status: int)
      requires Valid()
      modifies this
      ensures Took(StepCheck(q), status)
    {
      hide Administer;
      Record(StepCheck(q));
      if q !in requests || !requests[q].phase.Consulted? { return 500; }
      var r := requests[q];
      if r.params.delegationId.Some? {
        var delegation := r.phase.delegation;
        var good := delegation.Some?;
        if good { good := delegation.value.revokedAt.None?; }
        if good { good := delegation.value.expiresAt >= now; }
        if good { good := delegation.value.agentId == r.params.agentId; }
        if !good {
          requests := requests - {q};
          return 400;
        }
      }
      requests := requests[q := r.(phase := Cleared(r.phase.attestationId, r.phase.row))];
      return 102;
    }

    method Grant(q: RequestId, sessionId: Uuid, traceId: string) returns (status: int)
      requires Valid()
      modifies this
      ensures Took(StepGrant(q, sessionId, traceId), status)
    {
      hide Administer, At, ControlPlane.Load, ControlPlane.Attest, ControlPlane.Flush, ControlPlane.Check,
           ControlPlane.Issue, ControlPlane.Commit;
      Record(StepGrant(q, sessionId, traceId));
      if q !in requests || !requests[q].phase.Cleared? || requests[q].blueprint.None? { return 500; }
      if sessionId in ids { return 500; }
      var r := requests[q];
      var session := NewSession(cfg, now, r.params, r.blueprint.value, r.phase.attestationId, traceId);
      ids := ids + {sessionId};
      requests := requests[q := r.(phase := Granted(r.phase.attestationId, r.phase.row, sessionId, session))];
      return 102;
    }

    method Issue(q: RequestId) returns (status: int)
      requires Valid()
      modifies this
      ensures Took(StepIssue(q), status)
    {
      hide Administer, At, ControlPlane.Load, ControlPlane.Attest, ControlPlane.Flush, ControlPlane.Check,
           ControlPlane.Grant, ControlPlane.Commit;
      Record(StepIssue(q));
      if q !in requests || !requests[q].phase.Granted? || requests[q].blueprint.None? { return 500; }
      var r := requests[q];
      var phase := r.phase;
      tokens := tokens + {IssueToken(phase.sessionId, phase.session, BlueprintTag(r.blueprint.value), now)};
      requests := requests[q := r.(phase := Issued(phase.attestationId, phase.row, phase.sessionId, phase.session))];
      return 102;
    }

    method Commit(q: RequestId) returns (status: int)
      requires Valid()
      modifies this
      ensures Took(StepCommit(q), status)
    {
      hide Administer, At, ControlPlane.Load, ControlPlane.Attest, ControlPlane.Flush, ControlPlane.Check,
           ControlPlane.Grant, ControlPlane.Issue;
      Record(StepCommit(q));
      if q !in requests || !requests[q].phase.Issued? { return 500; }
      var phase := requests[q].phase;
      attestations := attestations[phase.attestationId := phase.row];
      sessions := sessions[phase.sessionId := phase.session];
      requests := requests - {q};
      return 201;
    }

    method Rollback(q: RequestId) returns (status: int)
      requires Valid()
      modifies this
      ensures Took(StepAbort(q), status)
    {
      hide Administer;
      Record(StepAbort(q));
      requests := requests - {q};
      return 500;
    }

    // Lines 79 to 120 of create_session and the commit behind them, uninterrupted.
    method FinishCreation(q: RequestId, sessionId: Uuid, traceId: string) returns (status: int)
      requires Valid()
      modifies this
      ensures Valid() && old(run) <= run
      ensures Reply(Abs(), status) == Finish(cfg, old(Abs()), q, sessionId, traceId)
    {
      hide ControlPlane.ReadDelegation, ControlPlane.Check, ControlPlane.Grant, ControlPlane.Issue,
           ControlPlane.Commit, Do, At;
      LateSteps(cfg, Abs(), q, sessionId, traceId);
      status := ReadDelegation(q);
      LateSteps(cfg, Abs(), q, sessionId, traceId);
      status := Check(q);
      if status != 102 { return; }
      LateSteps(cfg, Abs(), q, sessionId, traceId);
      status := Grant(q, sessionId, traceId);
      LateSteps(cfg, Abs(), q, sessionId, traceId);
      status := Issue(q);
      LateSteps(cfg, Abs(), q, sessionId, traceId);
      status := Commit(q);
    }

    // create_session and the commit behind it, uninterrupted.
    method CreateSession(q: RequestId, p: Process, params: Params, attestationId: Uuid, sessionId: Uuid,
                         traceId: string) returns (status: int)
      requires Valid()
      modifies this
      ensures Valid() && old(run) <= run
      ensures Reply(Abs(), status) == CreationRun(cfg, old(Abs()), q, p, params, attestationId, sessionId, traceId)
      ensures Fresh(old(Abs()), q, attestationId, sessionId) ==>
        (status == 201 <==> Creatable(cfg, old(Abs()), p, params))
    {
      hide ControlPlane.Load, ControlPlane.ReadBlueprint, ControlPlane.Attest, ControlPlane.Flush, Finish, Creatable,
           Do, At;
      ghost var before := Abs();
      if Fresh(before, q, attestationId, sessionId) {
        CreationSucceeds(cfg, before, q, p, params, attestationId, sessionId, traceId);
      }
      EarlySteps(cfg, Abs(), q, p, params, attestationId);
      status := Load(q, p, params);
      if status != 102 { return; }
      EarlySteps(cfg, Abs(), q, p, params, attestationId);
      status := ReadBlueprint(q);
      EarlySteps(cfg, Abs(), q, p, params, attestationId);
      status := Attest(q, attestationId);
      if status != 102 { return; }
      EarlySteps(cfg, Abs(), q, p, params, attestationId);
      FlushKeepsRequest(Abs(), q);
      status := Flush(q);
      if status != 102 || !requests[q].phase.Flushed? { return; }
      status := FinishCreation(q, sessionId, traceId);
    }

    method RevokeSession(id: Uuid) returns (status: int)
      requires Valid()
      modifies this
      ensures Took(StepRevokeSession(id), status)
    {
      hide Administer;
      Record(StepRevokeSession(id));
      if id !in sessions { return 400; }
      if sessions[id].revokedAt.Some? { return 400; }
      sessions := sessions[id := sessions[id].(revokedAt := Some(now))];
      return 200;
    }

    // ---- authorization ----

    // The endpoint with all rows read at one time.  Whoever gets an allow from
    // the Python engine has asked for these scopes in an earlier request.
    method Authorize(t: Token, tool: string, operation: string, engine: Authorization.Engine)
      returns (answer: Authorization.Answer, ghost o: History.Origin)
      requires Valid()
      ensures answer == Authorization.Authorize(t, tokens, now, ReadNow(Abs(), t), tool, operation, engine)
      ensures engine.PythonEngine? && Authorization.Allows(answer) ==>
        && o.load < |run| && run[o.load].StepLoad? && t.jti in sessions && sessions[t.jti].agentId in agents
        && agents[sessions[t.jti].agentId].blueprintId in blueprints
        && var blueprint := blueprints[agents[sessions[t.jti].agentId].blueprintId];
           var required := Policy.ToolScopeMap(Policy.ToolKey(tool, operation));
           && required.Some? && Increasing(answer.decision.scopes)
           && forall scope :: scope in answer.decision.scopes <==>
                && scope in run[o.load].params.scopes
                && Policy.Listed(blueprint.maxScopes, scope)
                && scope in required.value
    {
      hide Policy.Evaluate, Policy.RegoEvaluate, Policy.ToolScopeMap, Policy.ToolKey, At, History.CreatedBy;
      ghost var n := |run|;
      ghost var m := Authorization.Moments(n, n, n, n, n);
      o := Grants.GrantEquation(cfg, run, m, t, tool, operation);
      if t.jti in sessions { Grants.OriginScopes(cfg, run, t.jti, sessions[t.jti], o); }
      if !Authorization.ValidToken(t, tokens, now) { return Authorization.Unauthorized, o; }
      if t.jti !in sessions { return Authorization.Unauthorized, o; }
      var session := sessions[t.jti];
      if session.revokedAt.Some? { return Authorization.Unauthorized, o; }
      if session.agentId !in agents { return Authorization.Unauthorized, o; }
      var agent := agents[session.agentId];
      if agent.blueprintId !in blueprints { return Authorization.Unauthorized, o; }
      var blueprint := blueprints[agent.blueprintId];
      var attestation := Lookup(attestations, session.attestationId);
      var input := Authorization.BuildInput(t, session, agent, blueprint, attestation, tool, operation);
      answer := Authorization.Decided(Authorization.Consult(engine, input));
    }

    // ---- the environment ----

    // A process of the service dies and starts again.
    method Restart(p: Process) returns (status: int)
      requires Valid()
      modifies this
      ensures Took(StepRestart(p), status)
    {
      hide Administer;
      Record(StepRestart(p));
      seen := seen - {p};
      requests := map q | q in requests && requests[q].process != p :: requests[q];
      return 200;
    }

    method Tick(micros: nat) returns (status: int)
      requires Valid()
      modifies this
      ensures Took(StepTick(micros), status)
    {
      hide Serve;
      Record(StepTick(micros));
      now := now + micros;
      return 200;
    }

    // ---- what holds of the tables at any time ----

    lemma Consistent()
      requires Valid()
      ensures forall a, b :: a in attestations && b in attestations && a != b ==>
        attestations[a].nonce != attestations[b].nonce
      ensures forall i, j :: i in sessions && j in sessions && i != j ==>
        sessions[i].attestationId != sessions[j].attestationId
      ensures Integrity.NoDanglingRows(Abs().db)
      ensures forall t :: t in tokens && t.jti in sessions ==> Replay.Matches(t, sessions[t.jti])
      ensures Lifecycle.SlugsDistinct(blueprints)
      ensures forall id :: id in agents && !Lifecycle.Ambiguous(agents[id]) ==>
        agents[id].status == Lifecycle.Decode(agents[id])
    {
      hide At, Next, Integrity.NoDanglingRows, Lifecycle.SlugsDistinct, Lifecycle.UrisBuilt;
      var n := |run|;
      Replay.RunKeepsInv(cfg, run, n);
      Integrity.ReferencesHold(cfg, run, n);
      Lifecycle.RunKeepsNames(cfg, run, n);
      forall id | id in agents
        ensures !Lifecycle.Ambiguous(agents[id]) ==> agents[id].status == Lifecycle.Decode(agents[id])
      {
        Lifecycle.StatusIsRecoverable(cfg, run, n, id);
      }
    }
  }

  lemma InsertableClaims(claims: Dict)
    requires Insertable(claims)
    ensures Get(claims, "nonce").Some? && Get(claims, "nonce").value.Str?
    ensures Get(claims, "environment").Some? && Get(claims, "environment").value.Str?
  {
  }
}
