// What lasts over a run, and where a committed session comes from.
module History {
  import opened Text
  import opened Attestation
  import opened ControlPlane
  import Replay
  import Lifecycle

  // ---- what lasts ----

  ghost predicate SessionsLast(s: State, s': State) {
    forall id :: id in s.db.sessions ==>
      && id in s'.db.sessions
      && s'.db.sessions[id] == s.db.sessions[id].(revokedAt := s'.db.sessions[id].revokedAt)
      && (s.db.sessions[id].revokedAt.Some? ==> s'.db.sessions[id] == s.db.sessions[id])
  }

  predicate AgentLasts(a: Agent, b: Agent) {
    && b.blueprintId == a.blueprintId && b.principalUri == a.principalUri
    && (a.status.Revoked? ==> b.status.Revoked?)
  }

  ghost predicate AgentsLast(s: State, s': State) {
    forall id :: id in s.db.agents ==> id in s'.db.agents && AgentLasts(s.db.agents[id], s'.db.agents[id])
  }

  ghost predicate BlueprintsLast(s: State, s': State) {
    forall id :: id in s.db.blueprints ==> id in s'.db.blueprints && s'.db.blueprints[id].slug == s.db.blueprints[id].slug
  }

  ghost predicate AttestationsLast(s: State, s': State) {
    forall id :: id in s.db.attestations ==> id in s'.db.attestations && s'.db.attestations[id] == s.db.attestations[id]
  }

  // Rows are never deleted; a revocation of a session or an agent is never
  // undone; tokens stay issued; the clock does not run backwards.
  ghost predicate Later(s: State, s': State) {
    && s.now <= s'.now && s.tokens <= s'.tokens
    && SessionsLast(s, s') && AgentsLast(s, s') && BlueprintsLast(s, s') && AttestationsLast(s, s')
  }

  lemma SessionsLastCommit(s: State, q: RequestId)
    requires Replay.IdInv(s)
    ensures SessionsLast(s, Commit(s, q).state)
    ensures AttestationsLast(s, Commit(s, q).state)
  {
  }

  lemma SessionsLastRevoke(s: State, id: Uuid)
    ensures SessionsLast(s, RevokeSession(s, id).state)
    ensures AttestationsLast(s, RevokeSession(s, id).state)
  {
  }

  lemma SessionsLastStep(cfg: Config, s: State, step: Step)
    requires Replay.IdInv(s)
    ensures SessionsLast(s, Next(cfg, s, step))
    ensures AttestationsLast(s, Next(cfg, s, step))
  {
    hide Administer, SessionsLast, AttestationsLast, Commit, RevokeSession;
    match step
    case StepCommit(q) => SessionsLastCommit(s, q);
    case StepRevokeSession(id) => SessionsLastRevoke(s, id);
    case _ => SessionsLastOther(cfg, s, step);
  }

  lemma SessionsLastOther(cfg: Config, s: State, step: Step)
    requires !step.StepCommit? && !step.StepRevokeSession?
    ensures SessionsLast(s, Next(cfg, s, step))
    ensures AttestationsLast(s, Next(cfg, s, step))
  {
    hide Next;
    Replay.OnlyCommitInserts(cfg, s, step);
  }

  // The agent with this id is in s' what it was in s, or later.
  ghost predicate AgentCarries(s: State, s': State, id: Uuid)
    requires id in s.db.agents
  {
    id in s'.db.agents && AgentLasts(s.db.agents[id], s'.db.agents[id])
  }

  lemma ActivationCarries(s: State, touched: Uuid, id: Uuid)
    requires id in s.db.agents
    ensures AgentCarries(s, ActivateAgent(s, touched).state, id)
  {
  }

  lemma SuspensionCarries(s: State, touched: Uuid, id: Uuid)
    requires id in s.db.agents
    ensures AgentCarries(s, SuspendAgent(s, touched).state, id)
  {
  }

  lemma RevocationCarries(s: State, touched: Uuid, id: Uuid)
    requires id in s.db.agents
    ensures AgentCarries(s, RevokeAgent(s, touched).state, id)
  {
  }

  lemma RotationCarries(s: State, touched: Uuid, key: string, id: Uuid)
    requires id in s.db.agents
    ensures AgentCarries(s, RotateKey(s, touched, key).state, id)
  {
  }

  lemma CreationCarries(s: State, created: Uuid, blueprintId: Uuid, key: Option<string>, id: Uuid)
    requires id in s.db.agents && s.db.agents.Keys <= s.ids
    ensures AgentCarries(s, CreateAgent(s, created, blueprintId, key).state, id)
  {
    hide BuildPrincipalUri;
  }

  lemma AgentLastsTouched(cfg: Config, s: State, step: Step, id: Uuid)
    requires Lifecycle.TouchesAgents(step) && s.db.agents.Keys <= s.ids
    requires id in s.db.agents
    ensures AgentCarries(s, Next(cfg, s, step), id)
  {
    hide Serve, ActivateAgent, SuspendAgent, RevokeAgent, RotateKey, CreateAgent, AgentCarries;
    match step
    case StepActivateAgent(touched) => ActivationCarries(s, touched, id);
    case StepSuspendAgent(touched) => SuspensionCarries(s, touched, id);
    case StepRevokeAgent(touched) => RevocationCarries(s, touched, id);
    case StepRotateKey(touched, key) => RotationCarries(s, touched, key, id);
    case StepCreateAgent(created, blueprintId, key) => CreationCarries(s, created, blueprintId, key, id);
  }

  lemma AgentsLastStep(cfg: Config, s: State, step: Step)
    requires Replay.IdInv(s)
    ensures AgentsLast(s, Next(cfg, s, step))
  {
    hide Next;
    if Lifecycle.TouchesAgents(step) {
      assert Replay.KeysKnown(s);
      forall id | id in s.db.agents
        ensures AgentCarries(s, Next(cfg, s, step), id)
      {
        AgentLastsTouched(cfg, s, step, id);
      }
    } else {
      Lifecycle.AgentsFrame(cfg, s, step);
    }
  }

  lemma BlueprintsLastStep(cfg: Config, s: State, step: Step)
    requires Replay.IdInv(s)
    ensures BlueprintsLast(s, Next(cfg, s, step))
  {
    hide Next;
    forall id | id in s.db.blueprints
      ensures id in Next(cfg, s, step).db.blueprints
           && Next(cfg, s, step).db.blueprints[id].slug == s.db.blueprints[id].slug
    {
      Lifecycle.BlueprintStep(cfg, s, step, id);
    }
  }

  lemma TokensLastStep(cfg: Config, s: State, step: Step)
    ensures s.now <= Next(cfg, s, step).now && s.tokens <= Next(cfg, s, step).tokens
  {
    if !step.StepIssue? {
      Replay.TokensKept(cfg, s, step);
    }
  }

  lemma LaterStep(cfg: Config, s: State, step: Step)
    requires Replay.IdInv(s)
    ensures Later(s, Next(cfg, s, step))
  {
    hide Next, SessionsLast, AgentsLast, BlueprintsLast, AttestationsLast;
    SessionsLastStep(cfg, s, step);
    AgentsLastStep(cfg, s, step);
    BlueprintsLastStep(cfg, s, step);
    TokensLastStep(cfg, s, step);
  }

  lemma LaterTransitive(s: State, t: State, u: State)
    requires Later(s, t) && Later(t, u)
    ensures Later(s, u)
  {
  }

  lemma {:induction false} RunLater(cfg: Config, run: seq<Step>, i: nat, j: nat)
    requires i <= j <= |run|
    ensures Later(At(cfg, run, i), At(cfg, run, j))
    decreases j - i
  {
    hide Next;
    if i < j {
      RunLater(cfg, run, i, j - 1);
      Replay.RunKeepsInv(cfg, run, j - 1);
      LaterStep(cfg, At(cfg, run, j - 1), run[j - 1]);
      LaterTransitive(At(cfg, run, i), At(cfg, run, j - 1), At(cfg, run, j));
    }
  }

  // A revoked delegation stays revoked.
  ghost predicate DelegationsLast(s: State, s': State) {
    forall id :: id in s.db.delegations ==>
      && id in s'.db.delegations
      && s'.db.delegations[id] == s.db.delegations[id].(revokedAt := s'.db.delegations[id].revokedAt)
      && (s.db.delegations[id].revokedAt.Some? ==> s'.db.delegations[id] == s.db.delegations[id])
  }

  lemma DelegationsFrame(cfg: Config, s: State, step: Step)
    requires !step.StepCreateDelegation? && !step.StepRevokeDelegation?
    ensures Next(cfg, s, step).db.delegations == s.db.delegations
  {
    if Administrative(step) {
      hide Serve, ApplyChanges;
    } else {
      Lifecycle.ServingKeeps(cfg, s, step);
    }
  }

  lemma DelegationsTouched(cfg: Config, s: State, step: Step)
    requires step.StepCreateDelegation? || step.StepRevokeDelegation?
    requires s.db.delegations.Keys <= s.ids
    ensures DelegationsLast(s, Next(cfg, s, step))
  {
  }

  lemma {:induction false} RunDelegations(cfg: Config, run: seq<Step>, i: nat, j: nat)
    requires i <= j <= |run|
    ensures DelegationsLast(At(cfg, run, i), At(cfg, run, j))
    decreases j - i
  {
    hide Next;
    if i < j {
      var s, step := At(cfg, run, j - 1), run[j - 1];
      RunDelegations(cfg, run, i, j - 1);
      Replay.RunKeepsInv(cfg, run, j - 1);
      if step.StepCreateDelegation? || step.StepRevokeDelegation? {
        DelegationsTouched(cfg, s, step);
      } else {
        DelegationsFrame(cfg, s, step);
      }
    }
  }

  // ---- the steps behind a request ----

  predicate Addresses(step: Step, q: RequestId) {
    match step
    case StepLoad(id, _, _) => id == q
    case StepReadBlueprint(id) => id == q
    case StepAttest(id, _) => id == q
    case StepFlush(id) => id == q
    case StepReadDelegation(id) => id == q
    case StepCheck(id) => id == q
    case StepGrant(id, _, _) => id == q
    case StepIssue(id) => id == q
    case _ => false
  }

  // What a step addressed to request q makes of it, if it goes through.
  ghost predicate Advances(cfg: Config, s: State, step: Step, q: RequestId, r': Request)
    requires step.StepLoad? || q in s.requests
  {
    match step
    case StepLoad(_, p, params) =>
      && q !in s.requests && TtlInRange(params)
      && r' == Request(p, params, Lookup(s.db.agents, params.agentId), None, Arrived)
    case StepReadBlueprint(_) =>
      var r := s.requests[q];
      r.phase.Arrived? && r' == r.(blueprint := BlueprintOf(s, r.agent), phase := Loaded)
    case StepAttest(_, attestationId) =>
      var r := s.requests[q];
      && r.phase.Loaded? && MayStart(r) && VerifyRequest(cfg, s, r).outcome.Verified?
      && r' == r.(phase := Attested(attestationId))
    case StepFlush(_) =>
      var r := s.requests[q];
      && r.phase.Attested? && Insertable(PoppedData(r.params.attestation))
      && r' == r.(phase := Flushed(r.phase.attestationId, RowFor(r.params)))
    case StepReadDelegation(_) =>
      var r := s.requests[q];
      && r.phase.Flushed?
      && r' == r.(phase := Consulted(r.phase.attestationId, r.phase.row, DelegationOf(s, r.params)))
    case StepCheck(_) =>
      var r := s.requests[q];
      && r.phase.Consulted? && DelegationAllows(r.params, r.phase.delegation, s.now)
      && r' == r.(phase := Cleared(r.phase.attestationId, r.phase.row))
    case StepGrant(_, sessionId, traceId) =>
      var r := s.requests[q];
      && r.phase.Cleared? && r.blueprint.Some?
      && r' == r.(phase := Granted(r.phase.attestationId, r.phase.row, sessionId,
                    NewSession(cfg, s.now, r.params, r.blueprint.value, r.phase.attestationId, traceId)))
    case StepIssue(_) =>
      var r := s.requests[q];
      && r.phase.Granted?
      && r' == r.(phase := Issued(r.phase.attestationId, r.phase.row, r.phase.sessionId, r.phase.session))
    case _ => false
  }

  // No other step does anything to a request but drop it.
  lemma NotAddressed(cfg: Config, s: State, step: Step, q: RequestId)
    requires !Addresses(step, q) && q in Next(cfg, s, step).requests
    ensures q in s.requests && Next(cfg, s, step).requests[q] == s.requests[q]
  {
    if Administrative(step) {
      hide Next;
      Replay.AdministrativeFrame(cfg, s, step);
    } else {
      hide Administer, Verify, Insertable, DelegationAllows, MayStart, NewSession, IssueToken;
    }
  }

  lemma Addressed(cfg: Config, s: State, step: Step, q: RequestId)
    requires Addresses(step, q) && q in Next(cfg, s, step).requests
    ensures q !in s.requests ==> step.StepLoad?
    ensures
      var r' := Next(cfg, s, step).requests[q];
      (q in s.requests && r' == s.requests[q]) || Advances(cfg, s, step, q, r')
  {
    hide Administer, Verify, Insertable, DelegationAllows, MayStart, NewSession, IssueToken, BlueprintOf, DelegationOf;
  }

  // ---- what is known of a request in flight ----

  // The steps that made a request what it is.
  datatype Origin = Origin(load: nat, blueprint: nat, attest: nat, delegation: nat, check: nat, grant: nat) {
    predicate Within(n: nat) {
      load < blueprint < attest < delegation < check < grant < n
    }
  }

  predicate HasDelegation(r: Request) {
    r.phase.Consulted? || IsCleared(r)
  }

  predicate IsCleared(r: Request) {
    r.phase.Cleared? || Replay.HasSession(r)
  }

  ghost predicate LoadedAt(cfg: Config, run: seq<Step>, r: Request, q: RequestId, j: nat) {
    && j < |run| && run[j] == StepLoad(q, r.process, r.params) && TtlInRange(r.params)
    && r.agent == Lookup(At(cfg, run, j).db.agents, r.params.agentId)
  }

  ghost predicate BlueprintAt(cfg: Config, run: seq<Step>, r: Request, q: RequestId, b: nat) {
    b < |run| && run[b] == StepReadBlueprint(q) && r.blueprint == BlueprintOf(At(cfg, run, b), r.agent)
  }

  ghost predicate AttestedAt(cfg: Config, run: seq<Step>, r: Request, q: RequestId, k: nat)
    requires Replay.HasAttestation(r)
  {
    && k < |run| && run[k] == StepAttest(q, r.phase.attestationId)
    && MayStart(r) && VerifyRequest(cfg, At(cfg, run, k), r).outcome.Verified?
  }

  ghost predicate CheckedAt(cfg: Config, run: seq<Step>, r: Request, q: RequestId, d: nat, c: nat) {
    && d < c < |run| && run[d] == StepReadDelegation(q) && run[c] == StepCheck(q)
    && DelegationAllows(r.params, DelegationOf(At(cfg, run, d), r.params), At(cfg, run, c).now)
  }

  ghost predicate GrantedAt(cfg: Config, run: seq<Step>, r: Request, q: RequestId, g: nat)
    requires Replay.HasSession(r)
  {
    && g < |run| && run[g] == StepGrant(q, r.phase.sessionId, r.phase.session.traceId) && r.blueprint.Some?
    && r.phase.session == NewSession(cfg, At(cfg, run, g).now, r.params, r.blueprint.value, r.phase.attestationId,
                                     r.phase.session.traceId)
  }

  ghost predicate Explained(cfg: Config, run: seq<Step>, n: nat, r: Request, q: RequestId, o: Origin)
    requires n <= |run|
  {
    && o.load < n && LoadedAt(cfg, run, r, q, o.load)
    && (!r.phase.Arrived? ==> o.load < o.blueprint < n && BlueprintAt(cfg, run, r, q, o.blueprint))
    && (Replay.HasAttestation(r) ==> o.blueprint < o.attest < n && AttestedAt(cfg, run, r, q, o.attest))
    && (Holds(r) ==> Insertable(PoppedData(r.params.attestation)) && r.phase.row == RowFor(r.params))
    && (HasDelegation(r) ==> o.attest < o.delegation < n && run[o.delegation] == StepReadDelegation(q))
    && (r.phase.Consulted? ==> r.phase.delegation == DelegationOf(At(cfg, run, o.delegation), r.params))
    && (IsCleared(r) ==> o.delegation < o.check < n && CheckedAt(cfg, run, r, q, o.delegation, o.check))
    && (Replay.HasSession(r) ==> o.check < o.grant < n && GrantedAt(cfg, run, r, q, o.grant))
  }

  ghost predicate InFlight(cfg: Config, run: seq<Step>, n: nat, q: RequestId, params: Params)
    requires n <= |run|
  {
    q in At(cfg, run, n).requests && At(cfg, run, n).requests[q].params == params
  }

  // One more step of the run, addressed to the request.
  function Extended(o: Origin, step: Step, n: nat): Origin {
    match step
    case StepReadBlueprint(_) => o.(blueprint := n)
    case StepAttest(_, _) => o.(attest := n)
    case StepReadDelegation(_) => o.(delegation := n)
    case StepCheck(_) => o.(check := n)
    case StepGrant(_, _, _) => o.(grant := n)
    case _ => o
  }

  // A change of phase does not disturb what was known before.
  lemma Carried(cfg: Config, run: seq<Step>, r: Request, r': Request, q: RequestId, o: Origin)
    requires r' == r.(phase := r'.phase)
    ensures LoadedAt(cfg, run, r, q, o.load) == LoadedAt(cfg, run, r', q, o.load)
    ensures BlueprintAt(cfg, run, r, q, o.blueprint) == BlueprintAt(cfg, run, r', q, o.blueprint)
    ensures CheckedAt(cfg, run, r, q, o.delegation, o.check) == CheckedAt(cfg, run, r', q, o.delegation, o.check)
    ensures
      Replay.HasAttestation(r) && Replay.HasAttestation(r') && r'.phase.attestationId == r.phase.attestationId ==>
        AttestedAt(cfg, run, r, q, o.attest) == AttestedAt(cfg, run, r', q, o.attest)
    ensures
      && Replay.HasSession(r) && Replay.HasSession(r') && r'.phase.attestationId == r.phase.attestationId
      && r'.phase.sessionId == r.phase.sessionId && r'.phase.session == r.phase.session ==>
        GrantedAt(cfg, run, r, q, o.grant) == GrantedAt(cfg, run, r', q, o.grant)
  {
    hide At, Verify, NewSession, DelegationAllows, BlueprintOf, DelegationOf;
  }

  // How a step changes the phase of a request.
  predicate Follows(step: Step, r: Request, r': Request) {
    var p, p' := r.phase, r'.phase;
    match step
    case StepReadBlueprint(_) => p.Arrived? && p'.Loaded? && r' == r.(blueprint := r'.blueprint, phase := p')
    case StepAttest(_, _) => p.Loaded? && p'.Attested? && r' == r.(phase := p')
    case StepFlush(_) =>
      && p.Attested? && p'.Flushed? && p'.attestationId == p.attestationId && r' == r.(phase := p')
      && Insertable(PoppedData(r.params.attestation)) && p'.row == RowFor(r.params)
    case StepReadDelegation(_) =>
      && p.Flushed? && p'.Consulted? && p'.attestationId == p.attestationId && p'.row == p.row
      && r' == r.(phase := p')
    case StepCheck(_) =>
      && p.Consulted? && p'.Cleared? && p'.attestationId == p.attestationId && p'.row == p.row
      && r' == r.(phase := p')
    case StepGrant(_, _, _) =>
      && p.Cleared? && p'.Granted? && p'.attestationId == p.attestationId && p'.row == p.row
      && r' == r.(phase := p')
    case StepIssue(_) =>
      && p.Granted? && p'.Issued? && p'.attestationId == p.attestationId && p'.row == p.row
      && p'.sessionId == p.sessionId && p'.session == p.session && r' == r.(phase := p')
    case _ => false
  }

  ghost predicate AddedBy(cfg: Config, run: seq<Step>, n: nat, r': Request, q: RequestId, o: Origin)
    requires n < |run|
  {
    && LoadedAt(cfg, run, r', q, o.load)
    && (run[n].StepReadBlueprint? ==> BlueprintAt(cfg, run, r', q, n))
    && (run[n].StepAttest? ==> Replay.HasAttestation(r') && AttestedAt(cfg, run, r', q, n))
    && (run[n].StepReadDelegation? ==>
          && run[n] == StepReadDelegation(q)
          && r'.phase.Consulted? && r'.phase.delegation == DelegationOf(At(cfg, run, n), r'.params))
    && (run[n].StepCheck? ==> CheckedAt(cfg, run, r', q, o.delegation, n))
    && (run[n].StepGrant? ==> Replay.HasSession(r') && GrantedAt(cfg, run, r', q, n))
  }

  // What the step itself adds.
  lemma Adds(cfg: Config, run: seq<Step>, n: nat, r: Request, r': Request, q: RequestId, o: Origin)
    requires n < |run| && Explained(cfg, run, n, r, q, o) && !run[n].StepLoad?
    requires q in At(cfg, run, n).requests && At(cfg, run, n).requests[q] == r
    requires Addresses(run[n], q) && Advances(cfg, At(cfg, run, n), run[n], q, r')
    ensures Follows(run[n], r, r') && AddedBy(cfg, run, n, r', q, o)
    ensures r'.params == r.params
  {
    hide At, Insertable, RowFor, PoppedData, Verify, SessionTtl, DelegationAllows, BlueprintOf, DelegationOf;
  }

  lemma ExplainedStep(cfg: Config, run: seq<Step>, n: nat, r: Request, r': Request, q: RequestId, o: Origin)
    requires n < |run| && Explained(cfg, run, n, r, q, o)
    requires Follows(run[n], r, r') && AddedBy(cfg, run, n, r', q, o)
    ensures Explained(cfg, run, n + 1, r', q, Extended(o, run[n], n))
  {
    hide At, DelegationOf, Insertable, RowFor, PoppedData, LoadedAt, BlueprintAt, AttestedAt, CheckedAt, GrantedAt;
    if !run[n].StepReadBlueprint? {
      Carried(cfg, run, r, r', q, o);
    }
  }

  // Every request in flight has been made what it is by steps of the run, in
  // order, and has been in flight ever since it was loaded.
  lemma {:induction false} RequestOrigin(cfg: Config, run: seq<Step>, n: nat, q: RequestId) returns (o: Origin)
    requires n <= |run| && q in At(cfg, run, n).requests
    ensures Explained(cfg, run, n, At(cfg, run, n).requests[q], q, o)
    ensures forall x :: o.load < x <= n ==> InFlight(cfg, run, x, q, At(cfg, run, n).requests[q].params)
  {
    hide Next, LoadedAt, BlueprintAt, AttestedAt, CheckedAt, GrantedAt, AddedBy, Follows;
    var s, step, r' := At(cfg, run, n - 1), run[n - 1], At(cfg, run, n).requests[q];
    if Addresses(step, q) { Addressed(cfg, s, step, q); } else { NotAddressed(cfg, s, step, q); }
    if q in s.requests {
      o := RequestOrigin(cfg, run, n - 1, q);
      if r' != s.requests[q] {
        Adds(cfg, run, n - 1, s.requests[q], r', q, o);
        ExplainedStep(cfg, run, n - 1, s.requests[q], r', q, o);
        o := Extended(o, step, n - 1);
      }
    } else {
      o := Origin(n - 1, 0, 0, 0, 0, 0);
      JustLoaded(cfg, run, n - 1, r', q, o);
    }
  }

  lemma JustLoaded(cfg: Config, run: seq<Step>, n: nat, r: Request, q: RequestId, o: Origin)
    requires n < |run| && run[n].StepLoad? && Addresses(run[n], q) && Advances(cfg, At(cfg, run, n), run[n], q, r)
    requires o.load == n
    ensures Explained(cfg, run, n + 1, r, q, o)
  {
    hide At;
  }

  // ---- where a session comes from ----

  // The agent was active when it was read, with a key, and so was its
  // blueprint when that was read right after; the attestation was verified
  // under that key; the delegation, as it was read, was the agent's own and
  // not revoked, and had not expired when it was checked; the session was
  // granted after that, with the scopes that had been asked for, and the least
  // of the three lifetimes.
  ghost predicate CreatedBy(cfg: Config, run: seq<Step>, id: Uuid, session: Session, o: Origin) {
    && o.Within(|run|) && run[o.load].StepLoad?
    && var q, p, process := run[o.load].request, run[o.load].params, run[o.load].process;
       && TtlInRange(p)
       && run[o.blueprint] == StepReadBlueprint(q)
       && run[o.attest] == StepAttest(q, session.attestationId)
       && run[o.delegation] == StepReadDelegation(q)
       && run[o.check] == StepCheck(q)
       && run[o.grant] == StepGrant(q, id, session.traceId)
       && p.agentId in At(cfg, run, o.load).db.agents
       && var agent := At(cfg, run, o.load).db.agents[p.agentId];
          && agent.status.Active? && agent.publicKey.Some?
          && agent.blueprintId in At(cfg, run, o.blueprint).db.blueprints
          && var blueprint := At(cfg, run, o.blueprint).db.blueprints[agent.blueprintId];
             && blueprint.status.BlueprintActive?
             && Verify(cfg.env, PoppedData(p.attestation), PoppedSignature(p.attestation), agent.publicKey.value,
                       p.agentId, At(cfg, run, o.attest).now, SeenBy(At(cfg, run, o.attest), process)).outcome.Verified?
             && DelegationAllows(p, DelegationOf(At(cfg, run, o.delegation), p), At(cfg, run, o.check).now)
             && session.agentId == p.agentId
             && session.actingUser == p.actingUser
             && session.delegationId == p.delegationId
             && session.requestedScopes == session.effectiveScopes == p.scopes
             && session.issuedAt == At(cfg, run, o.grant).now
             && session.expiresAt == session.issuedAt + SessionTtl(cfg, p, blueprint) * SECOND
  }

  // The attestation row holds what the request's claims said.
  ghost predicate AttestedRow(run: seq<Step>, row: AttestationRow, o: Origin) {
    && o.load < |run| && run[o.load].StepLoad?
    && var p := run[o.load].params;
       Insertable(PoppedData(p.attestation)) && row == RowFor(p)
  }

  lemma SessionCommitted(cfg: Config, s: State, step: Step, id: Uuid)
    requires id in Next(cfg, s, step).db.sessions && id !in s.db.sessions
    ensures step.StepCommit? && step.request in s.requests
    ensures
      var p := s.requests[step.request].phase;
      && p.Issued? && p.sessionId == id
      && Next(cfg, s, step).db.sessions[id] == p.session
      && p.attestationId in Next(cfg, s, step).db.attestations
      && Next(cfg, s, step).db.attestations[p.attestationId] == p.row
  {
    if step.StepCommit? {
      hide Administer;
    } else {
      Replay.OnlyCommitInserts(cfg, s, step);
      hide Next;
    }
  }

  lemma ExplainedSession(cfg: Config, run: seq<Step>, n: nat, r: Request, q: RequestId, o: Origin)
    requires n <= |run| && Replay.HasSession(r)
    ensures Explained(cfg, run, n, r, q, o) && r.phase.session.attestationId == r.phase.attestationId ==>
      o.grant < n && CreatedBy(cfg, run, r.phase.sessionId, r.phase.session, o)
  {
    hide At, Insertable, RowFor, PoppedData, Verify, DelegationAllows, SessionTtl, DelegationOf;
  }

  lemma ExplainedRow(cfg: Config, run: seq<Step>, n: nat, r: Request, q: RequestId, o: Origin)
    requires n <= |run| && Holds(r)
    ensures Explained(cfg, run, n, r, q, o) ==> AttestedRow(run, r.phase.row, o)
  {
    hide At, Insertable, RowFor, PoppedData, BlueprintAt, AttestedAt, CheckedAt, GrantedAt;
  }

  // Every session in every reachable state has such an origin, and so has its
  // attestation.
  lemma {:induction false} SessionOrigin(cfg: Config, run: seq<Step>, n: nat, id: Uuid) returns (o: Origin)
    requires n <= |run| && id in At(cfg, run, n).db.sessions
    ensures
      var db := At(cfg, run, n).db;
      && o.grant < n && CreatedBy(cfg, run, id, db.sessions[id], o)
      && db.sessions[id].attestationId in db.attestations
      && AttestedRow(run, db.attestations[db.sessions[id].attestationId], o)
  {
    hide Next;
    var s, step := At(cfg, run, n - 1), run[n - 1];
    Replay.RunKeepsInv(cfg, run, n - 1);
    if id in s.db.sessions {
      o := SessionOrigin(cfg, run, n - 1, id);
      SessionsLastStep(cfg, s, step);
      SameOrigin(cfg, run, id, s.db.sessions[id], At(cfg, run, n).db.sessions[id], o);
    } else {
      SessionCommitted(cfg, s, step, id);
      hide CreatedBy, Explained, AttestedRow;
      o := RequestOrigin(cfg, run, n - 1, step.request);
      ExplainedSession(cfg, run, n - 1, s.requests[step.request], step.request, o);
      ExplainedRow(cfg, run, n - 1, s.requests[step.request], step.request, o);
    }
  }

  // A revocation does not change where a session comes from.
  lemma SameOrigin(cfg: Config, run: seq<Step>, id: Uuid, a: Session, b: Session, o: Origin)
    requires b == a.(revokedAt := b.revokedAt)
    ensures CreatedBy(cfg, run, id, a, o) ==> CreatedBy(cfg, run, id, b, o)
  {
    hide At, Verify, DelegationAllows, SessionTtl, DelegationOf;
  }
}
