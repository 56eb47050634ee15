// What a run can be granted, end to end: scopes and expiry.
module Grants {
  import opened Text
  import opened ControlPlane
  import opened Authorization
  import opened History
  import Creation
  import Integrity
  import Policy
  import Replay

  // The session row and the token agree, however much later the row is read.
  lemma TokenNamesSession(cfg: Config, run: seq<Step>, i: nat, j: nat, t: Token)
    requires i <= j <= |run|
    requires t in At(cfg, run, i).tokens && t.jti in At(cfg, run, j).db.sessions
    ensures Replay.Matches(t, At(cfg, run, j).db.sessions[t.jti])
  {
    hide At, Next;
    RunLater(cfg, run, i, j);
    Replay.RunKeepsInv(cfg, run, j);
    assert t in At(cfg, run, j).tokens;
  }

  // ---- scopes ----

  ghost predicate InMaxScopes(b: Blueprint, scope: string) {
    Policy.Listed(b.maxScopes, scope)
  }

  // When the Python engine allows, the scopes it returns are, in increasing
  // order, those requested when the session was created that the blueprint
  // lists now and the tool requires.
  lemma GrantEquation(cfg: Config, run: seq<Step>, m: Moments, t: Token, tool: string, operation: string)
    returns (o: Origin)
    requires m.Within(|run|)
    ensures
      var answer, rows := AuthorizeAt(cfg, run, m, t, tool, operation, PythonEngine), ReadRows(cfg, run, m, t);
      Allows(answer) ==>
        && rows.session.Some? && rows.blueprint.Some?
        && o.grant < m.session && CreatedBy(cfg, run, t.jti, rows.session.value, o)
        && var required := Policy.ToolScopeMap(Policy.ToolKey(tool, operation));
           && required.Some? && Increasing(answer.decision.scopes)
           && forall scope :: scope in answer.decision.scopes <==>
                && scope in run[o.load].params.scopes
                && InMaxScopes(rows.blueprint.value, scope)
                && scope in required.value
  {
    hide At, CreatedBy, Policy.Evaluate, Policy.ToolScopeMap, Policy.ToolKey;
    if !Allows(AuthorizeAt(cfg, run, m, t, tool, operation, PythonEngine)) { return Origin(0, 0, 0, 0, 0, 0); }
    var rows := ReadRows(cfg, run, m, t);
    var input := BuildInput(t, rows.session.value, rows.agent.value, rows.blueprint.value, rows.attestation, tool, operation);
    o := SessionOrigin(cfg, run, m.session, t.jti);
    TokenNamesSession(cfg, run, m.token, m.session, t);
    OriginScopes(cfg, run, t.jti, rows.session.value, o);
    Policy.EvaluateMeetsSpec(input);
  }

  lemma OriginScopes(cfg: Config, run: seq<Step>, id: Uuid, session: Session, o: Origin)
    ensures CreatedBy(cfg, run, id, session, o) ==>
      o.Within(|run|) && run[o.load].StepLoad? && session.effectiveScopes == run[o.load].params.scopes
  {
    hide At;
  }

  // The Rego engine returns more: what was requested and the blueprint lists,
  // in the order requested, whether or not the tool needs it.
  lemma RegoGrantEquation(cfg: Config, run: seq<Step>, m: Moments, t: Token, tool: string, operation: string)
    returns (o: Origin)
    requires m.Within(|run|)
    ensures
      var answer, rows := AuthorizeAt(cfg, run, m, t, tool, operation, RegoEngine), ReadRows(cfg, run, m, t);
      Allows(answer) ==>
        && rows.session.Some? && rows.blueprint.Some?
        && o.grant < m.session && CreatedBy(cfg, run, t.jti, rows.session.value, o)
        && forall scope :: scope in answer.decision.scopes <==>
             && scope in run[o.load].params.scopes
             && InMaxScopes(rows.blueprint.value, scope)
  {
    hide At, CreatedBy, Policy.RegoAllow;
    if !Allows(AuthorizeAt(cfg, run, m, t, tool, operation, RegoEngine)) { return Origin(0, 0, 0, 0, 0, 0); }
    var rows := ReadRows(cfg, run, m, t);
    o := SessionOrigin(cfg, run, m.session, t.jti);
    TokenNamesSession(cfg, run, m.token, m.session, t);
    OriginScopes(cfg, run, t.jti, rows.session.value, o);
  }

  // ---- expiry ----

  lemma Truncation(issued: int, ttl: int)
    requires issued >= 0 && issued + ttl * SECOND >= 0
    ensures TruncSeconds(issued + ttl * SECOND) == issued / SECOND + ttl
    ensures TruncSeconds(issued + ttl * SECOND) * SECOND <= issued + ttl * SECOND
  {
  }

  // A token that is accepted at some time for a committed session has not
  // outlived the session; the session's lifetime is the least of the requested
  // one, the configured one and the blueprint's at the time it was read; and
  // the token's own lifetime is positive and no longer than that.  So a
  // session with a lifetime of zero or less is never accepted at all.
  lemma ExpiryBounds(cfg: Config, run: seq<Step>, i: nat, n: nat, t: Token) returns (o: Origin)
    requires i <= n <= |run|
    requires ValidToken(t, At(cfg, run, i).tokens, At(cfg, run, i).now)
    requires t.jti in At(cfg, run, n).db.sessions
    ensures
      var session := At(cfg, run, n).db.sessions[t.jti];
      && CreatedBy(cfg, run, t.jti, session, o) && Lives(cfg, run, session, o)
      && At(cfg, run, i).now < t.exp * 1_000_000 <= session.expiresAt
      && 1_000_000 <= (t.exp - t.iat) * 1_000_000 <= session.expiresAt - session.issuedAt
  {
    hide At, Next, CreatedBy, Lives, TruncSeconds;
    var session := At(cfg, run, n).db.sessions[t.jti];
    o := SessionOrigin(cfg, run, n, t.jti);
    TokenNamesSession(cfg, run, i, n, t);
    Replay.RunKeepsInv(cfg, run, n);
    var ttl := OriginLives(cfg, run, t.jti, session, o);
    ExpiryArithmetic(t, session, ttl, At(cfg, run, i).now);
  }

  // The session lives for the least of the lifetime requested, within the range
  // of requests, the one configured, and the one of the blueprint as read.
  ghost predicate Lives(cfg: Config, run: seq<Step>, session: Session, o: Origin) {
    && o.load < |run| && o.blueprint < |run| && run[o.load].StepLoad? && session.agentId in At(cfg, run, o.load).db.agents
    && var agent, blueprints := At(cfg, run, o.load).db.agents[session.agentId], At(cfg, run, o.blueprint).db.blueprints;
       && agent.blueprintId in blueprints
       && 1 <= run[o.load].params.ttl <= 1800
       && IsLeast(session.expiresAt - session.issuedAt, run[o.load].params.ttl, cfg.sessionMaxTtl,
                  blueprints[agent.blueprintId].maxTtl)
  }

  lemma OriginLives(cfg: Config, run: seq<Step>, id: Uuid, session: Session, o: Origin) returns (ttl: int)
    ensures CreatedBy(cfg, run, id, session, o) ==>
      Lives(cfg, run, session, o) && session.expiresAt == session.issuedAt + ttl * SECOND
  {
    hide At, Attestation.Verify, DelegationAllows, DelegationOf, SessionTtl;
    ttl := 0;
    if CreatedBy(cfg, run, id, session, o) {
      var blueprint :=
        At(cfg, run, o.blueprint).db.blueprints[At(cfg, run, o.load).db.agents[session.agentId].blueprintId];
      ttl := SessionTtl(cfg, run[o.load].params, blueprint);
      TtlIsLeast(cfg, run[o.load].params, blueprint);
    }
  }

  // The lifetime is one of the three, in seconds, and exceeds none.
  ghost predicate IsLeast(lifetime: int, requested: int, configured: int, ofBlueprint: int) {
    && (lifetime == requested * 1_000_000 || lifetime == configured * 1_000_000 || lifetime == ofBlueprint * 1_000_000)
    && lifetime <= requested * 1_000_000 && lifetime <= configured * 1_000_000 && lifetime <= ofBlueprint * 1_000_000
  }

  lemma TtlIsLeast(cfg: Config, params: Params, blueprint: Blueprint)
    ensures IsLeast(SessionTtl(cfg, params, blueprint) * SECOND, params.ttl, cfg.sessionMaxTtl, blueprint.maxTtl)
  {
  }

  // What a session is when it begins, field by field, after a creation that
  // nothing interrupts; and what its token says.
  lemma CreatedSession(cfg: Config, s: State, q: RequestId, p: Process, params: Params, attestationId: Uuid,
                       sessionId: Uuid, traceId: string)
    requires Creation.Fresh(s, q, attestationId, sessionId)
    ensures Creation.Creatable(cfg, s, p, params) ==>
      var s' := Creation.CreationRun(cfg, s, q, p, params, attestationId, sessionId, traceId).state;
      var blueprint := s.db.blueprints[s.db.agents[params.agentId].blueprintId];
      && sessionId in s'.db.sessions
      && var session := s'.db.sessions[sessionId];
         && session == Session(params.agentId, params.actingUser, params.delegationId, attestationId, params.scopes,
                               params.scopes, traceId, s.now, session.expiresAt, None)
         && IsLeast(session.expiresAt - s.now, params.ttl, cfg.sessionMaxTtl, blueprint.maxTtl)
         && exists t :: s'.tokens == s.tokens + {t}
              && t == Token(sessionId, params.agentId, BlueprintTag(blueprint), params.actingUser, params.delegationId,
                            params.scopes, traceId, s.now / 1_000_000, TruncSeconds(session.expiresAt))
  {
    hide Creation.Creatable, Creation.CreationRun, SessionTtl, BlueprintTag, RowFor;
    Creation.CreationSucceeds(cfg, s, q, p, params, attestationId, sessionId, traceId);
    if Creation.Creatable(cfg, s, p, params) {
      Creation.CreatableRows(cfg, s, p, params);
      var blueprint := s.db.blueprints[s.db.agents[params.agentId].blueprintId];
      TtlIsLeast(cfg, params, blueprint);
      var session := NewSession(cfg, s.now, params, blueprint, attestationId, traceId);
      var s' := Creation.CreationRun(cfg, s, q, p, params, attestationId, sessionId, traceId).state;
      var t := IssueToken(sessionId, session, BlueprintTag(blueprint), s.now);
      assert s'.tokens == s.tokens + {t};
    }
  }

  // A token that was issued for a session is accepted, over any run, until the
  // second in which it expires or the session's revocation, and not after: no
  // other row that is read can be missing.
  lemma AcceptedUntil(cfg: Config, run: seq<Step>, m: Moments, t: Token, tool: string, operation: string, engine: Engine)
    requires m.Within(|run|)
    requires t in At(cfg, run, m.token).tokens && t.jti in At(cfg, run, m.session).db.sessions
    ensures AuthorizeAt(cfg, run, m, t, tool, operation, engine).Unauthorized? <==>
      || At(cfg, run, m.token).now >= t.exp * 1_000_000
      || At(cfg, run, m.session).db.sessions[t.jti].revokedAt.Some?
  {
    hide At, Next, Authorize;
    var s := At(cfg, run, m.token);
    Replay.RunKeepsInv(cfg, run, m.token);
    Integrity.ReferencesHold(cfg, run, m.session);
    RunLater(cfg, run, m.session, m.agent);
    Integrity.ReferencesHold(cfg, run, m.agent);
    RunLater(cfg, run, m.agent, m.blueprint);
    UnauthorizedExactly(t, s.tokens, s.now, ReadRows(cfg, run, m, t), tool, operation, engine);
  }

  lemma ExpiryArithmetic(t: Token, session: Session, ttl: int, now: nat)
    requires t.iat * SECOND <= now < t.exp * SECOND
    requires Replay.Matches(t, session) && session.issuedAt >= 0
    requires session.expiresAt == session.issuedAt + ttl * SECOND
    ensures t.exp * SECOND <= session.expiresAt
    ensures 1 <= t.exp - t.iat <= ttl
  {
    assert t.exp > 0;
    Truncation(session.issuedAt, ttl);
  }

  // ---- environment ----

  // The environment that the policy looks at is the one that the agent signed:
  // an allow by the Python engine means that the blueprint, as read, approves
  // it, or approves any.
  lemma EnvironmentWasSigned(cfg: Config, run: seq<Step>, m: Moments, t: Token, tool: string, operation: string)
    returns (o: Origin)
    requires m.Within(|run|)
    ensures
      var answer, rows := AuthorizeAt(cfg, run, m, t, tool, operation, PythonEngine), ReadRows(cfg, run, m, t);
      Allows(answer) ==>
        && rows.session.Some? && rows.blueprint.Some?
        && CreatedBy(cfg, run, t.jti, rows.session.value, o)
        && ControlPlane.Insertable(Attestation.PoppedData(run[o.load].params.attestation))
        && var environments := rows.blueprint.value.approvedEnvironments;
           environments.Items? && environments.items != [] ==>
             RowFor(run[o.load].params).environment in environments.items
  {
    hide At, CreatedBy, Policy.Evaluate, Policy.ToolScopeMap, Policy.ToolKey, Insertable, RowFor;
    if !Allows(AuthorizeAt(cfg, run, m, t, tool, operation, PythonEngine)) { return Origin(0, 0, 0, 0, 0, 0); }
    var rows := ReadRows(cfg, run, m, t);
    var session := rows.session.value;
    o := SessionOrigin(cfg, run, m.session, t.jti);
    RunLater(cfg, run, m.session, m.attestation);
    assert rows.attestation == Some(At(cfg, run, m.session).db.attestations[session.attestationId]);
    var input := BuildInput(t, session, rows.agent.value, rows.blueprint.value, rows.attestation, tool, operation);
    Policy.EvaluateMeetsSpec(input);
  }
}
