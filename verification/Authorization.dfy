// POST /v1/authorize: apps/identity_api/api/authorization.py, with
// packages/token_library/validator.py in front of it.
module Authorization {
  import opened Text
  import opened ControlPlane
  import Policy

  datatype Engine = PythonEngine | RegoEngine

  // validate_session_token accepts what the service signed, from iat on and
  // strictly before exp.
  predicate ValidToken(t: Token, issued: set<Token>, now: int) {
    t in issued && t.iat * SECOND <= now < t.exp * SECOND
  }

  // The rows the handler reads, one after the other.
  datatype Reads = Reads(
    session: Option<Session>,
    agent: Option<Agent>,
    blueprint: Option<Blueprint>,
    attestation: Option<AttestationRow>)

  datatype Answer = Unauthorized | Decided(decision: Policy.Decision)

  function BuildInput(t: Token, session: Session, agent: Agent, blueprint: Blueprint,
                      attestation: Option<AttestationRow>, tool: string, operation: string): Policy.PolicyInput {
    Policy.PolicyInput(
      Some(agent.status.Text()),
      Policy.Items(session.effectiveScopes),
      Some(blueprint.status.Text()),
      Some(blueprint.slug),
      blueprint.maxScopes,
      blueprint.approvedEnvironments,
      Policy.Items([]),
      Some(if attestation.Some? then attestation.value.environment else ""),
      Some(tool),
      Some(operation),
      Policy.Items(t.scopes))
  }

  function Consult(engine: Engine, input: Policy.PolicyInput): Policy.Decision {
    match engine
    case PythonEngine => Policy.Evaluate(input)
    case RegoEngine => Policy.RegoEvaluate(input)
  }

  function Authorize(t: Token, issued: set<Token>, now: int, r: Reads, tool: string, operation: string,
                     engine: Engine): Answer {
    if !ValidToken(t, issued, now) then Unauthorized
    else if r.session.None? || r.session.value.revokedAt.Some? then Unauthorized
    else if r.agent.None? || r.blueprint.None? then Unauthorized
    else
      var input := BuildInput(t, r.session.value, r.agent.value, r.blueprint.value, r.attestation, tool, operation);
      Decided(Consult(engine, input))
  }

  // How many steps of the run have happened when the token is checked and
  // when each row is read.  Other requests may run in between.
  datatype Moments = Moments(token: nat, session: nat, agent: nat, blueprint: nat, attestation: nat) {
    predicate Within(n: nat) {
      token <= session <= agent <= blueprint <= attestation <= n
    }
  }

  // The session is read from the first tables, the agent from the second, and
  // so on.
  function ReadFrom(first: Tables, second: Tables, third: Tables, fourth: Tables, t: Token): Reads {
    var session := Lookup(first.sessions, t.jti);
    var agent := if session.None? then None else Lookup(second.agents, session.value.agentId);
    var blueprint := if agent.None? then None else Lookup(third.blueprints, agent.value.blueprintId);
    var attestation := if session.None? then None else Lookup(fourth.attestations, session.value.attestationId);
    Reads(session, agent, blueprint, attestation)
  }

  function ReadRows(cfg: Config, run: seq<Step>, m: Moments, t: Token): Reads
    requires m.Within(|run|)
  {
    ReadFrom(At(cfg, run, m.session).db, At(cfg, run, m.agent).db, At(cfg, run, m.blueprint).db,
             At(cfg, run, m.attestation).db, t)
  }

  function AuthorizeAt(cfg: Config, run: seq<Step>, m: Moments, t: Token, tool: string, operation: string,
                       engine: Engine): Answer
    requires m.Within(|run|)
  {
    var s := At(cfg, run, m.token);
    Authorize(t, s.tokens, s.now, ReadRows(cfg, run, m, t), tool, operation, engine)
  }

  predicate Allows(a: Answer) {
    a.Decided? && a.decision.Allow?
  }

  lemma StatusTexts(agent: AgentStatus, blueprint: BlueprintStatus)
    ensures agent.Text() == "active" <==> agent.Active?
    ensures blueprint.Text() == "active" <==> blueprint.BlueprintActive?
  {
  }

  // Under either engine an allow needs an active agent and an active blueprint.
  lemma AllowNeedsActive(t: Token, issued: set<Token>, now: int, r: Reads, tool: string, operation: string,
                         engine: Engine)
    ensures Allows(Authorize(t, issued, now, r, tool, operation, engine)) ==>
      && ValidToken(t, issued, now)
      && r.session.Some? && r.session.value.revokedAt.None?
      && r.agent.Some? && r.agent.value.status.Active?
      && r.blueprint.Some? && r.blueprint.value.status.BlueprintActive?
  {
    if r.agent.Some? && r.blueprint.Some? {
      StatusTexts(r.agent.value.status, r.blueprint.value.status);
    }
  }

  // ---- exactly when ----

  // The token was issued here, its time has come and not gone, and all rows
  // that are asked for are there, the session's not revoked.
  ghost predicate Recognized(t: Token, issued: set<Token>, now: int, r: Reads) {
    && t in issued && t.iat * 1_000_000 <= now < t.exp * 1_000_000
    && r.session.Some? && r.session.value.revokedAt.None? && r.agent.Some? && r.blueprint.Some?
  }

  lemma UnauthorizedExactly(t: Token, issued: set<Token>, now: int, r: Reads, tool: string, operation: string,
                            engine: Engine)
    ensures Authorize(t, issued, now, r, tool, operation, engine).Unauthorized? <==> !Recognized(t, issued, now, r)
  {
    hide Consult, BuildInput;
  }

  // What the Python engine is asked, row by row: it allows exactly for an active
  // agent and blueprint, a known tool that is not closed to the blueprint, an
  // attested environment that the blueprint approves, and a scope that token,
  // session, blueprint and tool all have; it raises exactly where it comes to
  // compare scopes and the blueprint's are null.
  lemma AllowedExactly(t: Token, issued: set<Token>, now: int, r: Reads, tool: string, operation: string, key: string)
    requires key == if tool == "" || operation == "" then tool else tool + "." + operation
    ensures
      var answer := Authorize(t, issued, now, r, tool, operation, PythonEngine);
      Recognized(t, issued, now, r) ==>
        var blueprint := r.blueprint.value;
        var environment := if r.attestation.Some? then r.attestation.value.environment else "";
        var open :=
          && r.agent.value.status.Active? && blueprint.status.BlueprintActive?
          && key in Policy.TOOLS && (blueprint.slug == "research-agent" ==> key !in Policy.WRITE_TOOLS)
          && (blueprint.approvedEnvironments.Items? && blueprint.approvedEnvironments.items != [] ==>
                environment in blueprint.approvedEnvironments.items);
        && answer.Decided?
        && (answer.decision.Raise? <==> open && blueprint.maxScopes.Null?)
        && (answer.decision.Allow? <==>
              open && exists scope :: Shared(t, r.session.value, blueprint, Policy.ToolScopeMap(key), scope))
        && (answer.decision.Allow? ==> forall scope ::
              scope in answer.decision.scopes <==> Shared(t, r.session.value, blueprint, Policy.ToolScopeMap(key), scope))
  {
    if Recognized(t, issued, now, r) {
      var input := BuildInput(t, r.session.value, r.agent.value, r.blueprint.value, r.attestation, tool, operation);
      StatusTexts(r.agent.value.status, r.blueprint.value.status);
      assert key == Policy.ToolKey(tool, operation);
      Policy.ToolTable(key);
      Policy.EvaluateMeetsSpec(input);
      hide Policy.Evaluate, Policy.ToolScopeMap, Policy.ToolKey, Policy.IsWrite, Policy.TOOLS, Policy.WRITE_TOOLS;
      assert forall scope :: Policy.Granted(input, scope) <==>
        Policy.ToolScopeMap(key).Some? && Shared(t, r.session.value, r.blueprint.value, Policy.ToolScopeMap(key), scope);
      if Policy.ToolScopeMap(key).Some? {
        assert Policy.ToolScopeMap(key).value[0] in Policy.ToolScopeMap(key).value;
      }
    }
  }

  ghost predicate Shared(t: Token, session: Session, blueprint: Blueprint, required: Option<seq<string>>, scope: string) {
    && scope in t.scopes && scope in session.effectiveScopes && Policy.Listed(blueprint.maxScopes, scope)
    && required.Some? && scope in required.value
  }

  // What the Rego engine is asked.
  lemma RegoAllowedExactly(t: Token, issued: set<Token>, now: int, r: Reads, tool: string, operation: string)
    ensures
      var answer := Authorize(t, issued, now, r, tool, operation, RegoEngine);
      Recognized(t, issued, now, r) ==>
        && answer.Decided?
        && (answer.decision.Allow? <==>
              && r.agent.value.status.Active? && r.blueprint.value.status.BlueprintActive?
              && exists scope :: scope in t.scopes && Policy.RegoRule(Some(tool), Some(operation), scope))
  {
    if Recognized(t, issued, now, r) {
      var input := BuildInput(t, r.session.value, r.agent.value, r.blueprint.value, r.attestation, tool, operation);
      StatusTexts(r.agent.value.status, r.blueprint.value.status);
      Policy.RegoMeetsSpec(input);
      hide Policy.RegoEvaluate, Policy.RegoRule;
      assert forall scope :: Policy.Listed(input.requestedScopes, scope) <==> scope in t.scopes;
    }
  }
}
