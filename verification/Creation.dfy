// One session creation without interference: exactly when it goes through, and
// what the new session is then allowed.
module Creation {
  import opened Text
  import opened Json
  import opened Attestation
  import opened ControlPlane
  import opened Authorization
  import Policy

  // The steps of one creation.
  function CreationSteps(q: RequestId, p: Process, params: Params, attestationId: Uuid, sessionId: Uuid,
                         traceId: string): seq<Step> {
    [StepLoad(q, p, params), StepReadBlueprint(q), StepAttest(q, attestationId), StepFlush(q), StepReadDelegation(q),
     StepCheck(q), StepGrant(q, sessionId, traceId), StepIssue(q), StepCommit(q)]
  }

  // What is left of a creation once its attestation is in the database.
  function Finish(cfg: Config, s: State, q: RequestId, sessionId: Uuid, traceId: string): Reply {
    var checked := Check(ReadDelegation(s, q).state, q);
    if checked.status != 102 then checked
    else Commit(Issue(Grant(cfg, checked.state, q, sessionId, traceId).state, q).state, q)
  }

  // One creation from start to end with nothing in between.  It ends with the
  // first step that refuses, or at an insert that has to wait for another
  // open transaction.
  function CreationRun(cfg: Config, s: State, q: RequestId, p: Process, params: Params,
                       attestationId: Uuid, sessionId: Uuid, traceId: string): Reply {
    var loaded := Load(s, q, p, params);
    if loaded.status != 102 then loaded
    else
      var attested := Attest(cfg, ReadBlueprint(loaded.state, q).state, q, attestationId);
      if attested.status != 102 then attested
      else
        var flushed := Flush(attested.state, q);
        if flushed.status != 102 || !flushed.state.requests[q].phase.Flushed? then flushed
        else Finish(cfg, flushed.state, q, sessionId, traceId)
  }

  ghost predicate NonceUncommitted(s: State, nonce: string) {
    forall a :: a in s.db.attestations ==> s.db.attestations[a].nonce != nonce
  }

  // Neither committed nor held by an open transaction.
  ghost predicate NonceFree(s: State, nonce: string) {
    && NonceUncommitted(s, nonce)
    && (forall o :: o in s.requests && Holds(s.requests[o]) ==> s.requests[o].phase.row.nonce != nonce)
  }

  // The agent and its blueprint are active, and there is a key.
  ghost predicate Startable(s: State, params: Params) {
    && params.agentId in s.db.agents
    && var agent := s.db.agents[params.agentId];
       && agent.status.Active? && agent.publicKey.Some? && agent.publicKey.value != ""
       && agent.blueprintId in s.db.blueprints
       && s.db.blueprints[agent.blueprintId].status.BlueprintActive?
  }

  // What the verifier makes of the claims.
  function OutcomeNow(cfg: Config, s: State, p: Process, params: Params): Outcome
    requires params.agentId in s.db.agents && s.db.agents[params.agentId].publicKey.Some?
  {
    Verify(cfg.env, PoppedData(params.attestation), PoppedSignature(params.attestation),
           s.db.agents[params.agentId].publicKey.value, params.agentId, s.now, SeenBy(s, p)).outcome
  }

  // If the request names a delegation, it is there, the agent's own, not
  // revoked, and expires no sooner than now.
  ghost predicate DelegationGood(s: State, params: Params) {
    params.delegationId.Some? ==>
      && params.delegationId.value in s.db.delegations
      && var d := s.db.delegations[params.delegationId.value];
         d.agentId == params.agentId && d.revokedAt.None? && s.now <= d.expiresAt
  }

  // Everything create_session asks for, in one place.
  ghost predicate Creatable(cfg: Config, s: State, p: Process, params: Params) {
    && 1 <= params.ttl <= 1800
    && Startable(s, params) && OutcomeNow(cfg, s, p, params).Verified?
    && Insertable(PoppedData(params.attestation)) && NonceFree(s, RowFor(params).nonce)
    && DelegationGood(s, params)
  }

  lemma CreatableRows(cfg: Config, s: State, p: Process, params: Params)
    ensures Creatable(cfg, s, p, params) ==>
      && params.agentId in s.db.agents && s.db.agents[params.agentId].blueprintId in s.db.blueprints
      && Insertable(PoppedData(params.attestation))
  {
  }

  lemma DelegationGoodMeans(s: State, params: Params)
    ensures DelegationGood(s, params) <==> DelegationAllows(params, DelegationOf(s, params), s.now)
  {
  }

  ghost predicate Fresh(s: State, q: RequestId, attestationId: Uuid, sessionId: Uuid) {
    q !in s.requests && attestationId !in s.ids && sessionId !in s.ids && attestationId != sessionId
  }

  // ---- phase by phase ----

  lemma LoadPhase(s: State, q: RequestId, p: Process, params: Params)
    requires q !in s.requests && TtlInRange(params)
    ensures
      var agent := Lookup(s.db.agents, params.agentId);
      && Load(s, q, p, params).status == 102
      && ReadBlueprint(Load(s, q, p, params).state, q).state
           == SetRequest(s, q, Request(p, params, agent, BlueprintOf(s, agent), Loaded))
  {
  }

  ghost predicate Attestable(cfg: Config, s: State, r: Request) {
    MayStart(r) && VerifyRequest(cfg, s, r).outcome.Verified?
  }

  // The tables and the tokens are as they were.
  ghost predicate Untouched(s: State, s': State) {
    s'.db == s.db && s'.tokens == s.tokens
  }

  lemma AttestPhase(cfg: Config, s: State, q: RequestId, attestationId: Uuid)
    requires q in s.requests && s.requests[q].phase.Loaded? && attestationId !in s.ids
    ensures
      var reply, r := Attest(cfg, s, q, attestationId), s.requests[q];
      var s' := reply.state;
      if Attestable(cfg, s, r) then
        && reply.status == 102
        && s'.db == s.db && s'.tokens == s.tokens && s'.now == s.now && s'.ids == s.ids + {attestationId}
        && s'.requests == s.requests[q := r.(phase := Attested(attestationId))]
      else
        && Untouched(s, s') && q !in s'.requests
        && reply.status == if MayStart(r) && VerifyRequest(cfg, s, r).outcome.Raised? then 500 else 400
  {
    hide Verify, MayStart;
  }

  lemma FlushPhase(s: State, q: RequestId)
    requires q in s.requests && s.requests[q].phase.Attested?
    ensures
      var reply, r := Flush(s, q), s.requests[q];
      if Insertable(PoppedData(r.params.attestation)) && NonceFree(s, RowFor(r.params).nonce) then
        reply == Reply(SetRequest(s, q, r.(phase := Flushed(r.phase.attestationId, RowFor(r.params)))), 102)
      else
        && Untouched(s, reply.state)
        && reply.status == (if Insertable(PoppedData(r.params.attestation)) && NonceUncommitted(s, RowFor(r.params).nonce)
                            then 102 else 500)
        && (if reply.status == 102 then reply.state == s else q !in reply.state.requests)
  {
    hide Insertable;
  }

  lemma FlushKeepsRequest(s: State, q: RequestId)
    ensures Flush(s, q).status == 102 ==> q in Flush(s, q).state.requests
  {
    hide Insertable;
  }

  // From the flush on, only the delegation can stop the creation.
  lemma LastPhases(cfg: Config, s: State, q: RequestId, sessionId: Uuid, traceId: string)
    requires q in s.requests && s.requests[q].phase.Flushed? && s.requests[q].blueprint.Some? && sessionId !in s.ids
    ensures
      var reply, r := Finish(cfg, s, q, sessionId, traceId), s.requests[q];
      var s', blueprint := reply.state, r.blueprint.value;
      var session := NewSession(cfg, s.now, r.params, blueprint, r.phase.attestationId, traceId);
      if DelegationAllows(r.params, DelegationOf(s, r.params), s.now) then
        && reply.status == 201
        && s'.db == s.db.(attestations := s.db.attestations[r.phase.attestationId := r.phase.row],
                          sessions := s.db.sessions[sessionId := session])
        && s'.tokens == s.tokens + {IssueToken(sessionId, session, BlueprintTag(blueprint), s.now)}
        && s'.now == s.now && q !in s'.requests
      else
        reply.status == 400 && Untouched(s, s') && q !in s'.requests
  {
    hide DelegationAllows, DelegationOf, IssueToken, BlueprintTag, NewSession;
  }

  // ---- the whole creation ----

  // The status that each outcome has; 102 is that of a creation that waits for
  // another transaction.
  ghost predicate StatusByCause(cfg: Config, s: State, p: Process, params: Params, status: int) {
    var inRange, startable := 1 <= params.ttl <= 1800, Startable(s, params);
    var verified := startable && OutcomeNow(cfg, s, p, params).Verified?;
    var insertable := Insertable(PoppedData(params.attestation));
    var unused := insertable && NonceUncommitted(s, RowFor(params).nonce);
    var free := insertable && NonceFree(s, RowFor(params).nonce);
    && (status == 422 <==> !inRange)
    && (status == 400 <==>
          inRange && (|| !startable
                      || OutcomeNow(cfg, s, p, params).Rejected?
                      || (verified && free && !DelegationGood(s, params))))
    && (status == 500 <==> inRange && startable && (OutcomeNow(cfg, s, p, params).Raised? || (verified && !unused)))
    && (status == 102 <==> inRange && verified && unused && !free)
    && (status == 201 <==> inRange && verified && free && DelegationGood(s, params))
  }

  // What a creation with all conditions met leaves behind, and one without.
  ghost predicate CreationResult(cfg: Config, s: State, reply: Reply, q: RequestId, p: Process, params: Params,
                                 attestationId: Uuid, sessionId: Uuid, traceId: string) {
    && (reply.status == 201 <==> Creatable(cfg, s, p, params))
    && StatusByCause(cfg, s, p, params, reply.status)
    && (q in reply.state.requests <==> reply.status == 102)
    && var s' := reply.state;
       if Creatable(cfg, s, p, params) then
         && var blueprint := s.db.blueprints[s.db.agents[params.agentId].blueprintId];
            var session := NewSession(cfg, s.now, params, blueprint, attestationId, traceId);
            && s'.db == s.db.(attestations := s.db.attestations[attestationId := RowFor(params)],
                              sessions := s.db.sessions[sessionId := session])
            && s'.tokens == s.tokens + {IssueToken(sessionId, session, BlueprintTag(blueprint), s.now)}
            && s'.now == s.now && q !in s'.requests
       else
         Untouched(s, s')
  }

  // It goes through exactly when all conditions hold, and then it adds one
  // attestation row, one session row and one token; otherwise it adds nothing.
  lemma CreationSucceeds(cfg: Config, s: State, q: RequestId, p: Process, params: Params,
                         attestationId: Uuid, sessionId: Uuid, traceId: string)
    requires Fresh(s, q, attestationId, sessionId)
    ensures CreationResult(cfg, s, CreationRun(cfg, s, q, p, params, attestationId, sessionId, traceId),
                           q, p, params, attestationId, sessionId, traceId)
  {
    hide Verify, DelegationAllows, DelegationGood, IssueToken, BlueprintTag, NewSession, Load, ReadBlueprint,
         Attest, Flush, Finish, Insertable, NonceFree, NonceUncommitted;
    DelegationGoodMeans(s, params);
    if TtlInRange(params) {
      var s1 := ReadBlueprint(Load(s, q, p, params).state, q).state;
      LoadPhase(s, q, p, params);
      var s2 := Attest(cfg, s1, q, attestationId).state;
      AttestPhase(cfg, s1, q, attestationId);
      if Attestable(cfg, s1, s1.requests[q]) {
        FlushPhase(s2, q);
        var claims := PoppedData(params.attestation);
        if Insertable(claims) { SameNonces(s, s2, q, RowFor(params).nonce); }
        if Insertable(claims) && NonceFree(s2, RowFor(params).nonce) {
          LastPhases(cfg, Flush(s2, q).state, q, sessionId, traceId);
        }
      }
    } else {
      LoadRefuses(s, q, p, params);
    }
  }

  // A creation that goes through is a run of its nine steps.
  lemma CreationIsRun(cfg: Config, s: State, q: RequestId, p: Process, params: Params,
                      attestationId: Uuid, sessionId: Uuid, traceId: string)
    ensures
      var reply := CreationRun(cfg, s, q, p, params, attestationId, sessionId, traceId);
      reply.status == 201 ==> After(cfg, s, CreationSteps(q, p, params, attestationId, sessionId, traceId)) == reply.state
  {
    hide Do, Load, ReadBlueprint, Attest, Flush, ReadDelegation, Check, Grant, Issue, Commit, After;
    OnlyCommitCreates(cfg, s, q, p, params, attestationId, sessionId, traceId);
    var steps := CreationSteps(q, p, params, attestationId, sessionId, traceId);
    var s1 := ReadBlueprint(Load(s, q, p, params).state, q).state;
    var s2 := Flush(Attest(cfg, s1, q, attestationId).state, q).state;
    var s3 := Check(ReadDelegation(s2, q).state, q).state;
    var s4 := Issue(Grant(cfg, s3, q, sessionId, traceId).state, q).state;
    EarlySteps(cfg, s, q, p, params, attestationId);
    EarlySteps(cfg, Load(s, q, p, params).state, q, p, params, attestationId);
    EarlySteps(cfg, s1, q, p, params, attestationId);
    EarlySteps(cfg, Attest(cfg, s1, q, attestationId).state, q, p, params, attestationId);
    LateSteps(cfg, s2, q, sessionId, traceId);
    LateSteps(cfg, ReadDelegation(s2, q).state, q, sessionId, traceId);
    LateSteps(cfg, s3, q, sessionId, traceId);
    LateSteps(cfg, Grant(cfg, s3, q, sessionId, traceId).state, q, sessionId, traceId);
    LateSteps(cfg, s4, q, sessionId, traceId);
    TwoSteps(cfg, s, steps);
    assert steps[2..][2..] == steps[4..] && steps[4..][2..] == steps[6..] && steps[6..][2..] == steps[8..];
    TwoSteps(cfg, s1, steps[2..]);
    TwoSteps(cfg, s2, steps[4..]);
    TwoSteps(cfg, s3, steps[6..]);
    OneStep(cfg, s4, steps[8..]);
  }

  lemma OnlyCommitCreates(cfg: Config, s: State, q: RequestId, p: Process, params: Params,
                          attestationId: Uuid, sessionId: Uuid, traceId: string)
    ensures Load(s, q, p, params).status != 201
    ensures
      var s1 := ReadBlueprint(Load(s, q, p, params).state, q).state;
      var s2 := Attest(cfg, s1, q, attestationId);
      var s3 := Flush(s2.state, q);
      s2.status != 201 && s3.status != 201 && Check(ReadDelegation(s3.state, q).state, q).status != 201
  {
    hide ReadBlueprint, ReadDelegation, Attestation.Verify, MayStart, Insertable, DelegationAllows;
  }

  lemma EarlySteps(cfg: Config, s: State, q: RequestId, p: Process, params: Params, attestationId: Uuid)
    ensures Do(cfg, s, StepLoad(q, p, params)) == Load(s, q, p, params)
    ensures Do(cfg, s, StepReadBlueprint(q)) == ReadBlueprint(s, q)
    ensures Do(cfg, s, StepAttest(q, attestationId)) == Attest(cfg, s, q, attestationId)
    ensures Do(cfg, s, StepFlush(q)) == Flush(s, q)
  {
    hide Administer, Load, ReadBlueprint, Attest, Flush, ReadDelegation, Check, Grant, Issue, Commit;
  }

  lemma LateSteps(cfg: Config, s: State, q: RequestId, sessionId: Uuid, traceId: string)
    ensures Do(cfg, s, StepReadDelegation(q)) == ReadDelegation(s, q)
    ensures Do(cfg, s, StepCheck(q)) == Check(s, q)
    ensures Do(cfg, s, StepGrant(q, sessionId, traceId)) == Grant(cfg, s, q, sessionId, traceId)
    ensures Do(cfg, s, StepIssue(q)) == Issue(s, q)
    ensures Do(cfg, s, StepCommit(q)) == Commit(s, q)
  {
    hide Administer, Load, ReadBlueprint, Attest, Flush, ReadDelegation, Check, Grant, Issue, Commit;
  }

  lemma OneStep(cfg: Config, s: State, steps: seq<Step>)
    requires |steps| == 1
    ensures After(cfg, s, steps) == Next(cfg, s, steps[0])
  {
    hide Next;
  }

  lemma TwoSteps(cfg: Config, s: State, steps: seq<Step>)
    requires |steps| >= 2
    ensures After(cfg, s, steps) == After(cfg, Next(cfg, Next(cfg, s, steps[0]), steps[1]), steps[2..])
  {
    hide Next;
    assert steps[1..][1..] == steps[2..];
  }

  lemma LoadRefuses(s: State, q: RequestId, p: Process, params: Params)
    requires q !in s.requests && !TtlInRange(params)
    ensures Load(s, q, p, params) == Reply(s, 422)
  {
  }

  lemma SameNonces(s: State, s': State, q: RequestId, nonce: string)
    requires s'.db == s.db && q !in s.requests && q in s'.requests && !Holds(s'.requests[q])
    requires s'.requests == s.requests[q := s'.requests[q]]
    ensures NonceFree(s', nonce) <==> NonceFree(s, nonce)
    ensures NonceUncommitted(s', nonce) <==> NonceUncommitted(s, nonce)
    ensures NonceFree(s, nonce) ==> NonceUncommitted(s, nonce)
  {
    if NonceFree(s', nonce) {
      forall o | o in s.requests && Holds(s.requests[o]) ensures s.requests[o].phase.row.nonce != nonce {
        assert s'.requests[o] == s.requests[o];
      }
    }
  }

  // ---- the new session is served right away ----

  // All rows read in one state.
  function ReadNow(s: State, t: Token): Reads {
    ReadFrom(s.db, s.db, s.db, s.db, t)
  }

  // An honest agent gets, at once and without anyone else's help, what the
  // policy is there to give: the token of a creation that went through is
  // accepted exactly if the session has a positive lifetime, and then the
  // Python engine allows exactly the scopes that were requested, that the
  // blueprint lists, and that the tool requires.
  lemma NewSessionIsServed(cfg: Config, s: State, q: RequestId, p: Process, params: Params,
                           attestationId: Uuid, sessionId: Uuid, traceId: string, tool: string, operation: string)
    requires Fresh(s, q, attestationId, sessionId)
    ensures Creatable(cfg, s, p, params) ==>
      var s' := CreationRun(cfg, s, q, p, params, attestationId, sessionId, traceId).state;
      var agent := s.db.agents[params.agentId];
      var blueprint := s.db.blueprints[agent.blueprintId];
      var session := NewSession(cfg, s.now, params, blueprint, attestationId, traceId);
      var t := IssueToken(sessionId, session, BlueprintTag(blueprint), s.now);
      var answer := Authorize(t, s'.tokens, s'.now, ReadNow(s', t), tool, operation, PythonEngine);
      var environment := RowFor(params).environment;
      var required := Policy.ToolScopeMap(Policy.ToolKey(tool, operation));
      && (answer.Unauthorized? <==> SessionTtl(cfg, params, blueprint) <= 0)
      && (Allows(answer) <==>
            && SessionTtl(cfg, params, blueprint) > 0
            && required.Some?
            && (blueprint.slug == "research-agent" ==> forall c :: c in required.value ==> !Policy.IsWrite(c))
            && (blueprint.approvedEnvironments.Items? && blueprint.approvedEnvironments.items != [] ==>
                  environment in blueprint.approvedEnvironments.items)
            && exists c :: c in params.scopes && Policy.Listed(blueprint.maxScopes, c) && c in required.value)
  {
    hide CreationRun, Policy.Evaluate, Policy.ToolScopeMap, Policy.ToolKey, Verify, DelegationAllows, BlueprintTag,
         Insertable, NonceFree;
    CreationSucceeds(cfg, s, q, p, params, attestationId, sessionId, traceId);
    if Creatable(cfg, s, p, params) {
      var s' := CreationRun(cfg, s, q, p, params, attestationId, sessionId, traceId).state;
      var agent := s.db.agents[params.agentId];
      var blueprint := s.db.blueprints[agent.blueprintId];
      var session := NewSession(cfg, s.now, params, blueprint, attestationId, traceId);
      var t := IssueToken(sessionId, session, BlueprintTag(blueprint), s.now);
      FreshTokenValid(s.now, SessionTtl(cfg, params, blueprint));
      var rows := ReadNow(s', t);
      assert rows.session == Some(session) && rows.agent == Some(agent) && rows.blueprint == Some(blueprint);
      var input := BuildInput(t, session, agent, blueprint, rows.attestation, tool, operation);
      StatusTexts(agent.status, blueprint.status);
      Policy.EvaluateMeetsSpec(input);
      var answer := Authorize(t, s'.tokens, s'.now, rows, tool, operation, PythonEngine);
      assert ValidToken(t, s'.tokens, s'.now) <==> SessionTtl(cfg, params, blueprint) > 0;
      assert answer == if SessionTtl(cfg, params, blueprint) > 0 then Decided(Policy.Evaluate(input)) else Unauthorized;
      forall c
        ensures Policy.Granted(input, c) <==>
          && Policy.ToolScopeMap(Policy.ToolKey(tool, operation)).Some?
          && c in params.scopes && Policy.Listed(blueprint.maxScopes, c)
          && c in Policy.ToolScopeMap(Policy.ToolKey(tool, operation)).value
      {}
    }
  }

  lemma FreshTokenValid(now: nat, ttl: int)
    ensures TruncSeconds(now) * SECOND <= now
    ensures now < TruncSeconds(now + ttl * SECOND) * SECOND <==> ttl > 0
  {
  }
}
