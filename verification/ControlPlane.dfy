// The identity service as a transition system: its tables, the nonces each
// process has seen, the session creations in flight, the tokens handed out,
// and one clock.  Every handler is a function from state to state and status.
module ControlPlane {
  import opened Text
  import opened Json
  import opened Attestation
  import JsonParser
  import Policy

  // ---- identifiers and clock ----

  // `str(uuid)`: 36 characters; which ones they are plays no part.
  type Uuid = s: string | |s| == 36 witness "00000000-0000-0000-0000-000000000000"

  // Microseconds since the epoch.
  const SECOND := 1_000_000

  // `int(t.timestamp())`: towards zero.
  function TruncSeconds(t: int): int {
    if t >= 0 then t / SECOND else -(-t / SECOND)
  }

  // Whole seconds, and no farther from zero than the time itself.
  lemma TruncatesTowardsZero(t: int)
    ensures t >= 0 ==> TruncSeconds(t) * 1_000_000 <= t < (TruncSeconds(t) + 1) * 1_000_000
    ensures t <= 0 ==> (TruncSeconds(t) - 1) * 1_000_000 < t <= TruncSeconds(t) * 1_000_000
  {
  }

  // ---- rows ----

  datatype BlueprintStatus = BlueprintDraft | BlueprintActive | BlueprintInactive | BlueprintDeprecated {
    function Text(): string {
      match this
      case BlueprintDraft => "draft"
      case BlueprintActive => "active"
      case BlueprintInactive => "inactive"
      case BlueprintDeprecated => "deprecated"
    }
  }

  datatype AgentStatus = Draft | PendingApproval | Active | Suspended | Revoked | Decommissioned {
    function Text(): string {
      match this
      case Draft => "draft"
      case PendingApproval => "pending_approval"
      case Active => "active"
      case Suspended => "suspended"
      case Revoked => "revoked"
      case Decommissioned => "decommissioned"
    }
  }

  datatype Blueprint = Blueprint(
    slug: string,
    version: int,
    name: string,
    status: BlueprintStatus,
    approvedEnvironments: Policy.ListField,
    maxScopes: Policy.ListField,
    maxTtl: int)

  datatype Agent = Agent(
    principalUri: string,
    blueprintId: Uuid,
    status: AgentStatus,
    publicKey: Option<string>,
    activatedAt: Option<int>,
    suspendedAt: Option<int>,
    revokedAt: Option<int>)

  datatype Delegation = Delegation(agentId: Uuid, issuedAt: int, expiresAt: int, revokedAt: Option<int>)

  datatype AttestationRow = AttestationRow(agentId: Uuid, environment: string, nonce: string)

  datatype Session = Session(
    agentId: Uuid,
    actingUser: Option<string>,
    delegationId: Option<Uuid>,
    attestationId: Uuid,
    requestedScopes: seq<string>,
    effectiveScopes: seq<string>,
    traceId: string,
    issuedAt: int,
    expiresAt: int,
    revokedAt: Option<int>)

  datatype Tables = Tables(
    blueprints: map<Uuid, Blueprint>,
    agents: map<Uuid, Agent>,
    delegations: map<Uuid, Delegation>,
    attestations: map<Uuid, AttestationRow>,
    sessions: map<Uuid, Session>)

  // The claims of a session token; the token and its claims are one thing,
  // since only the service can sign.
  datatype Token = Token(
    jti: Uuid,
    agentId: Uuid,
    blueprint: string,
    actingUser: Option<string>,
    delegationId: Option<Uuid>,
    scopes: seq<string>,
    traceId: string,
    iat: int,
    exp: int)

  // ---- session creations in flight ----

  type Process = nat
  type RequestId = nat

  datatype Params = Params(
    agentId: Uuid,
    actingUser: Option<string>,
    delegationId: Option<Uuid>,
    scopes: seq<string>,
    ttl: int,
    attestation: Dict)

  // How far create_session has come.  From Flushed on, its attestation row is
  // in the open transaction; from Granted on, its session object exists.
  datatype Phase =
    | Arrived
    | Loaded
    | Attested(attestationId: Uuid)
    | Flushed(attestationId: Uuid, row: AttestationRow)
    | Consulted(attestationId: Uuid, row: AttestationRow, delegation: Option<Delegation>)
    | Cleared(attestationId: Uuid, row: AttestationRow)
    | Granted(attestationId: Uuid, row: AttestationRow, sessionId: Uuid, session: Session)
    | Issued(attestationId: Uuid, row: AttestationRow, sessionId: Uuid, session: Session)

  // The agent is read once, at the start, and its blueprint right after it;
  // what the handler later takes from them comes from those readings.
  datatype Request = Request(
    process: Process,
    params: Params,
    agent: Option<Agent>,
    blueprint: Option<Blueprint>,
    phase: Phase)

  datatype State = State(
    now: nat,
    db: Tables,
    seen: map<Process, set<Value>>,
    requests: map<RequestId, Request>,
    tokens: set<Token>,
    ids: set<Uuid>)  // every identifier handed out so far

  datatype Config = Config(env: Env, sessionMaxTtl: int)

  const EMPTY := State(0, Tables(map[], map[], map[], map[], map[]), map[], map[], {}, {})

  datatype Reply = Reply(state: State, status: int)

  function Lookup<K(==), V>(m: map<K, V>, k: K): Option<V> {
    if k in m then Some(m[k]) else None
  }

  // ---- blueprints: apps/identity_api/api/blueprints.py ----

  predicate FindSlug(blueprints: map<Uuid, Blueprint>, slug: string) {
    exists id | id in blueprints :: blueprints[id].slug == slug
  }

  function PutBlueprint(s: State, id: Uuid, b: Blueprint): State {
    s.(db := s.db.(blueprints := s.db.blueprints[id := b]))
  }

  function CreateBlueprint(s: State, id: Uuid, slug: string, name: string, environments: seq<string>,
                           maxScopes: seq<string>, maxTtl: int): Reply {
    if id in s.ids then Reply(s, 500)
    else if !(1 <= |slug| <= 128) || !(1 <= |name| <= 256) || !(60 <= maxTtl <= 86400) then Reply(s, 422)
    else if FindSlug(s.db.blueprints, slug) then Reply(s, 409)
    else
      var b := Blueprint(slug, 1, name, BlueprintDraft, Policy.Items(environments), Policy.Items(maxScopes), maxTtl);
      Reply(PutBlueprint(s, id, b).(ids := s.ids + {id}), 201)
  }

  // A field that the request sets, possibly to null.
  datatype Change =
    | SetName(name: Option<string>)
    | SetEnvironments(environments: Policy.ListField)
    | SetMaxScopes(scopes: Policy.ListField)
    | SetMaxTtl(ttl: Option<int>)

  // A column that must not be null refuses null; a JSON column stores it.
  predicate Storable(c: Change) {
    match c
    case SetName(name) => name.Some?
    case SetMaxTtl(ttl) => ttl.Some?
    case SetEnvironments(f) => !f.Absent?
    case SetMaxScopes(f) => !f.Absent?
  }

  function ApplyChange(b: Blueprint, c: Change): Blueprint
    requires Storable(c)
  {
    match c
    case SetName(name) => b.(name := name.value)
    case SetEnvironments(f) => b.(approvedEnvironments := f)
    case SetMaxScopes(f) => b.(maxScopes := f)
    case SetMaxTtl(ttl) => b.(maxTtl := ttl.value)
  }

  function ApplyChanges(b: Blueprint, changes: seq<Change>): Option<Blueprint>
    decreases |changes|
  {
    if changes == [] then Some(b)
    else if !Storable(changes[0]) then None
    else ApplyChanges(ApplyChange(b, changes[0]), changes[1..])
  }

  // The response model has no place for a null list: the handler has
  // committed by then, and fails on its answer.
  predicate Presentable(b: Blueprint) {
    b.maxScopes.Items? && b.approvedEnvironments.Items?
  }

  function UpdateBlueprint(s: State, id: Uuid, changes: seq<Change>): Reply {
    if id !in s.db.blueprints then Reply(s, 404)
    else
      match ApplyChanges(s.db.blueprints[id], changes)
      case None => Reply(s, 500)
      case Some(b) =>
        Reply(PutBlueprint(s, id, b.(version := b.version + 1)), if Presentable(b) then 200 else 500)
  }

  function SetBlueprintStatus(s: State, id: Uuid, status: BlueprintStatus): Reply {
    if id !in s.db.blueprints then Reply(s, 404)
    else Reply(PutBlueprint(s, id, s.db.blueprints[id].(status := status)), 200)
  }

  // ---- agents: apps/identity_api/api/agents.py ----

  function BuildPrincipalUri(agentId: Uuid, slug: string): string {
    "agent://local/" + slug + "/" + agentId
  }

  function PutAgent(s: State, id: Uuid, a: Agent): State {
    s.(db := s.db.(agents := s.db.agents[id := a]))
  }

  function CreateAgent(s: State, id: Uuid, blueprintId: Uuid, publicKey: Option<string>): Reply {
    if blueprintId !in s.db.blueprints then Reply(s, 404)
    else if !s.db.blueprints[blueprintId].status.BlueprintActive? then Reply(s, 400)
    else if id in s.ids then Reply(s, 500)
    else
      var uri := BuildPrincipalUri(id, s.db.blueprints[blueprintId].slug);
      var a := Agent(uri, blueprintId, Draft, publicKey, None, None, None);
      Reply(PutAgent(s, id, a).(ids := s.ids + {id}), 201)
  }

  function ActivateAgent(s: State, id: Uuid): Reply {
    if id !in s.db.agents then Reply(s, 404)
    else
      var a := s.db.agents[id];
      if !a.status.Draft? && !a.status.PendingApproval? && !a.status.Suspended? then Reply(s, 400)
      else Reply(PutAgent(s, id, a.(status := Active, activatedAt := Some(s.now))), 200)
  }

  function SuspendAgent(s: State, id: Uuid): Reply {
    if id !in s.db.agents then Reply(s, 404)
    else
      var a := s.db.agents[id];
      if !a.status.Active? then Reply(s, 400)
      else Reply(PutAgent(s, id, a.(status := Suspended, suspendedAt := Some(s.now))), 200)
  }

  function RevokeAgent(s: State, id: Uuid): Reply {
    if id !in s.db.agents then Reply(s, 404)
    else Reply(PutAgent(s, id, s.db.agents[id].(status := Revoked, revokedAt := Some(s.now))), 200)
  }

  function RotateKey(s: State, id: Uuid, publicKey: string): Reply {
    if id !in s.db.agents then Reply(s, 404)
    else Reply(PutAgent(s, id, s.db.agents[id].(publicKey := Some(publicKey))), 200)
  }

  // ---- delegations: apps/identity_api/api/delegations.py ----

  function PutDelegation(s: State, id: Uuid, d: Delegation): State {
    s.(db := s.db.(delegations := s.db.delegations[id := d]))
  }

  function CreateDelegation(s: State, id: Uuid, agentId: Uuid, ttl: int): Reply {
    if !(1 <= ttl <= 86400) then Reply(s, 422)
    else if agentId !in s.db.agents || id in s.ids then Reply(s, 500)
    else
      var d := Delegation(agentId, s.now, s.now + ttl * SECOND, None);
      Reply(PutDelegation(s, id, d).(ids := s.ids + {id}), 201)
  }

  function RevokeDelegation(s: State, id: Uuid): Reply {
    if id !in s.db.delegations then Reply(s, 404)
    else if s.db.delegations[id].revokedAt.Some? then Reply(s, 400)
    else Reply(PutDelegation(s, id, s.db.delegations[id].(revokedAt := Some(s.now))), 200)
  }

  // ---- session creation: apps/identity_api/services/session_service.py ----

  function SetRequest(s: State, id: RequestId, r: Request): State {
    s.(requests := s.requests[id := r])
  }

  // Rollback: the open transaction goes, its rows with it.
  function Drop(s: State, id: RequestId): State {
    s.(requests := s.requests - {id})
  }

  function SeenBy(s: State, p: Process): set<Value> {
    if p in s.seen then s.seen[p] else {}
  }

  // The range that SessionCreateRequest allows.
  predicate TtlInRange(params: Params) {
    1 <= params.ttl <= 1800
  }

  // The request arrives and reads the agent (line 41).
  function Load(s: State, id: RequestId, p: Process, params: Params): Reply {
    if id in s.requests then Reply(s, 500)
    else if !TtlInRange(params) then Reply(s, 422)
    else Reply(SetRequest(s, id, Request(p, params, Lookup(s.db.agents, params.agentId), None, Arrived)), 102)
  }

  function BlueprintOf(s: State, agent: Option<Agent>): Option<Blueprint> {
    if agent.Some? then Lookup(s.db.blueprints, agent.value.blueprintId) else None
  }

  // The second query of the same line: `lazy="selectin"` on agent.blueprint.
  function ReadBlueprint(s: State, id: RequestId): Reply {
    if id !in s.requests || !s.requests[id].phase.Arrived? then Reply(s, 500)
    else
      var r := s.requests[id];
      Reply(SetRequest(s, id, r.(blueprint := BlueprintOf(s, r.agent), phase := Loaded)), 102)
  }

  // Lines 42 to 49.
  predicate MayStart(r: Request) {
    && r.agent.Some? && r.agent.value.status.Active?
    && r.agent.value.publicKey.Some? && r.agent.value.publicKey.value != ""
    && r.blueprint.Some? && r.blueprint.value.status.BlueprintActive?
  }

  function VerifyRequest(cfg: Config, s: State, r: Request): Verdict
    requires MayStart(r)
  {
    Verify(cfg.env, PoppedData(r.params.attestation), PoppedSignature(r.params.attestation),
           r.agent.value.publicKey.value, r.params.agentId, s.now, SeenBy(s, r.process))
  }

  // Lines 42 to 76, without an await: status checks, verification, which may
  // consume the nonce, and the new attestation object.
  function Attest(cfg: Config, s: State, id: RequestId, attestationId: Uuid): Reply {
    if id !in s.requests || !s.requests[id].phase.Loaded? || attestationId in s.ids then Reply(s, 500)
    else
      var r := s.requests[id];
      if !MayStart(r) then Reply(Drop(s, id), 400)
      else
        var verdict := VerifyRequest(cfg, s, r);
        var s' := s.(seen := s.seen[r.process := verdict.seen]);
        match verdict.outcome
        case Rejected(_) => Reply(Drop(s', id), 400)
        case Raised => Reply(Drop(s', id), 500)
        case Verified =>
          var next := SetRequest(s', id, r.(phase := Attested(attestationId)));
          Reply(next.(ids := s.ids + {attestationId}), 102)
  }

  // The string columns of runtime_attestations.
  predicate Insertable(claims: Dict) {
    && Get(claims, "nonce").Some? && Get(claims, "nonce").value.Str?
    && Get(claims, "environment").Some? && Get(claims, "environment").value.Str?
    && forall c | c in REQUIRED :: Get(claims, c).Some? && Get(claims, c).value.Str?
  }

  predicate Holds(r: Request) {
    r.phase.Flushed? || r.phase.Consulted? || r.phase.Cleared? || r.phase.Granted? || r.phase.Issued?
  }

  // The row that line 77 inserts.
  function RowFor(params: Params): AttestationRow
    requires Insertable(PoppedData(params.attestation))
  {
    var claims := PoppedData(params.attestation);
    AttestationRow(params.agentId, Get(claims, "environment").value.s, Get(claims, "nonce").value.s)
  }

  predicate IsString(claims: Dict, c: string) {
    Get(claims, c).Some? && Get(claims, c).value.Str?
  }

  // The nonce and the required claims must be strings.
  lemma InsertableMeaning(claims: Dict)
    ensures Insertable(claims) <==> IsString(claims, "nonce") && forall c :: c in CLAIMS ==> IsString(claims, c)
  {
    assert "environment" in CLAIMS;
    forall c ensures c in REQUIRED <==> c in CLAIMS { RequiredAreThese(c); }
    hide REQUIRED, CLAIMS, Get;
    assert (forall c :: c in CLAIMS ==> IsString(claims, c)) <==> forall c :: c in REQUIRED ==> IsString(claims, c);
  }

  // Line 77: the insert.  The unique index on nonce refuses a committed
  // nonce, and makes the insert wait for an open transaction that holds it.
  function Flush(s: State, id: RequestId): Reply {
    if id !in s.requests || !s.requests[id].phase.Attested? then Reply(s, 500)
    else
      var r := s.requests[id];
      if !Insertable(PoppedData(r.params.attestation)) then Reply(Drop(s, id), 500)
      else
        var row := RowFor(r.params);
        if exists a | a in s.db.attestations :: s.db.attestations[a].nonce == row.nonce then Reply(Drop(s, id), 500)
        else if exists q | q in s.requests :: Holds(s.requests[q]) && s.requests[q].phase.row.nonce == row.nonce
        then Reply(s, 102)
        else Reply(SetRequest(s, id, r.(phase := Flushed(r.phase.attestationId, row))), 102)
  }

  function DelegationOf(s: State, params: Params): Option<Delegation> {
    if params.delegationId.Some? then Lookup(s.db.delegations, params.delegationId.value) else None
  }

  // Line 80: the delegation row, if the request names one.
  function ReadDelegation(s: State, id: RequestId): Reply {
    if id !in s.requests || !s.requests[id].phase.Flushed? then Reply(s, 500)
    else
      var r := s.requests[id];
      var phase := Consulted(r.phase.attestationId, r.phase.row, DelegationOf(s, r.params));
      Reply(SetRequest(s, id, r.(phase := phase)), 102)
  }

  // Lines 81 to 88, on the row as it was read, by the clock of line 85.
  predicate DelegationAllows(params: Params, delegation: Option<Delegation>, now: int) {
    params.delegationId.None? ||
    (&& delegation.Some?
     && delegation.value.revokedAt.None?
     && delegation.value.expiresAt >= now
     && delegation.value.agentId == params.agentId)
  }

  function Check(s: State, id: RequestId): Reply {
    if id !in s.requests || !s.requests[id].phase.Consulted? then Reply(s, 500)
    else
      var r := s.requests[id];
      if !DelegationAllows(r.params, r.phase.delegation, s.now) then Reply(Drop(s, id), 400)
      else Reply(SetRequest(s, id, r.(phase := Cleared(r.phase.attestationId, r.phase.row))), 102)
  }

  function Min(a: int, b: int): int { if a <= b then a else b }

  function SessionTtl(cfg: Config, params: Params, blueprint: Blueprint): int {
    Min(Min(params.ttl, cfg.sessionMaxTtl), blueprint.maxTtl)
  }

  function NewSession(cfg: Config, now: int, params: Params, blueprint: Blueprint, attestationId: Uuid,
                      traceId: string): Session {
    Session(params.agentId, params.actingUser, params.delegationId, attestationId, params.scopes, params.scopes,
            traceId, now, now + SessionTtl(cfg, params, blueprint) * SECOND, None)
  }

  // Lines 90 to 112: the new session object, by the clock of line 97.
  function Grant(cfg: Config, s: State, id: RequestId, sessionId: Uuid, traceId: string): Reply {
    if id !in s.requests || !s.requests[id].phase.Cleared? || s.requests[id].blueprint.None? || sessionId in s.ids
    then Reply(s, 500)
    else
      var r := s.requests[id];
      var session := NewSession(cfg, s.now, r.params, r.blueprint.value, r.phase.attestationId, traceId);
      var next := SetRequest(s, id, r.(phase := Granted(r.phase.attestationId, r.phase.row, sessionId, session)));
      Reply(next.(ids := s.ids + {sessionId}), 102)
  }

  // The blueprint as tokens name it: slug and version.
  function BlueprintTag(b: Blueprint): string {
    b.slug + ":v" + EmitInt(b.version)
  }

  // The name reads back: first the slug, then the mark, then the version.
  lemma BlueprintTagReads(b: Blueprint)
    ensures
      var tag, n := BlueprintTag(b), |b.slug|;
      && |tag| > n + 2 && tag[..n] == b.slug && tag[n..n + 2] == ":v"
      && JsonParser.Parse(tag[n + 2..]) == Some(Int(b.version))
  {
    hide EmitInt, JsonParser.Parse;
    var tag, n := BlueprintTag(b), |b.slug|;
    assert tag[n + 2..] == EmitInt(b.version) == Emit(Int(b.version), Compact);
    JsonParser.RoundTrip(Int(b.version), Compact);
    JsonParser.EmitHead(Int(b.version), Compact);
  }

  // packages/token_library/issuer.py, at its own reading of the clock.
  function IssueToken(id: Uuid, session: Session, tag: string, now: int): Token {
    Token(id, session.agentId, tag, session.actingUser, session.delegationId, session.effectiveScopes,
          session.traceId, TruncSeconds(now), TruncSeconds(session.expiresAt))
  }

  // Lines 113 to 120: the second flush and the token.
  function Issue(s: State, id: RequestId): Reply {
    if id !in s.requests || !s.requests[id].phase.Granted? || s.requests[id].blueprint.None? then Reply(s, 500)
    else
      var r := s.requests[id];
      var p := r.phase;
      var token := IssueToken(p.sessionId, p.session, BlueprintTag(r.blueprint.value), s.now);
      var next := SetRequest(s, id, r.(phase := Issued(p.attestationId, p.row, p.sessionId, p.session)));
      Reply(next.(tokens := s.tokens + {token}), 102)
  }

  // get_db commits after the handler (apps/identity_api/dependencies.py).
  function Commit(s: State, id: RequestId): Reply {
    if id !in s.requests || !s.requests[id].phase.Issued? then Reply(s, 500)
    else
      var p := s.requests[id].phase;
      var db := s.db.(attestations := s.db.attestations[p.attestationId := p.row],
                      sessions := s.db.sessions[p.sessionId := p.session]);
      Reply(Drop(s, id).(db := db), 201)
  }

  // ... or rolls back, whatever went wrong and whenever.
  function Abort(s: State, id: RequestId): Reply {
    Reply(Drop(s, id), 500)
  }

  function RevokeSession(s: State, id: Uuid): Reply {
    if id !in s.db.sessions || s.db.sessions[id].revokedAt.Some? then Reply(s, 400)
    else
      var session := s.db.sessions[id].(revokedAt := Some(s.now));
      Reply(s.(db := s.db.(sessions := s.db.sessions[id := session])), 200)
  }

  // ---- the environment ----

  // A process dies: what it had seen and what it was doing is gone.
  function Restart(s: State, p: Process): Reply {
    var kept := map id | id in s.requests && s.requests[id].process != p :: s.requests[id];
    Reply(s.(seen := s.seen - {p}, requests := kept), 200)
  }

  function Tick(s: State, micros: nat): Reply {
    Reply(s.(now := s.now + micros), 200)
  }

  // ---- runs ----

  datatype Step =
    | StepCreateBlueprint(blueprintId: Uuid, slug: string, name: string, environments: seq<string>,
                          maxScopes: seq<string>, maxTtl: int)
    | StepUpdateBlueprint(blueprintId: Uuid, changes: seq<Change>)
    | StepSetBlueprintStatus(blueprintId: Uuid, active: bool)
    | StepCreateAgent(agentId: Uuid, blueprintId: Uuid, publicKey: Option<string>)
    | StepActivateAgent(agentId: Uuid)
    | StepSuspendAgent(agentId: Uuid)
    | StepRevokeAgent(agentId: Uuid)
    | StepRotateKey(agentId: Uuid, key: string)
    | StepCreateDelegation(delegationId: Uuid, agentId: Uuid, ttl: int)
    | StepRevokeDelegation(delegationId: Uuid)
    | StepLoad(request: RequestId, process: Process, params: Params)
    | StepReadBlueprint(request: RequestId)
    | StepAttest(request: RequestId, attestationId: Uuid)
    | StepFlush(request: RequestId)
    | StepReadDelegation(request: RequestId)
    | StepCheck(request: RequestId)
    | StepGrant(request: RequestId, sessionId: Uuid, traceId: string)
    | StepIssue(request: RequestId)
    | StepCommit(request: RequestId)
    | StepAbort(request: RequestId)
    | StepRevokeSession(sessionId: Uuid)
    | StepRestart(process: Process)
    | StepTick(micros: nat)

  // Administration and the clock: steps that leave sessions alone.
  predicate Administrative(step: Step) {
    || step.StepCreateBlueprint? || step.StepUpdateBlueprint? || step.StepSetBlueprintStatus?
    || step.StepCreateAgent? || step.StepActivateAgent? || step.StepSuspendAgent? || step.StepRevokeAgent?
    || step.StepRotateKey? || step.StepCreateDelegation? || step.StepRevokeDelegation? || step.StepTick?
  }

  function Administer(s: State, step: Step): Reply
    requires Administrative(step)
  {
    match step
    case StepCreateBlueprint(id, slug, name, envs, scopes, ttl) => CreateBlueprint(s, id, slug, name, envs, scopes, ttl)
    case StepUpdateBlueprint(id, changes) => UpdateBlueprint(s, id, changes)
    case StepSetBlueprintStatus(id, active) =>
      SetBlueprintStatus(s, id, if active then BlueprintActive else BlueprintInactive)
    case StepCreateAgent(id, blueprintId, key) => CreateAgent(s, id, blueprintId, key)
    case StepActivateAgent(id) => ActivateAgent(s, id)
    case StepSuspendAgent(id) => SuspendAgent(s, id)
    case StepRevokeAgent(id) => RevokeAgent(s, id)
    case StepRotateKey(id, key) => RotateKey(s, id, key)
    case StepCreateDelegation(id, agentId, ttl) => CreateDelegation(s, id, agentId, ttl)
    case StepRevokeDelegation(id) => RevokeDelegation(s, id)
    case StepTick(micros) => Tick(s, micros)
  }

  function Serve(cfg: Config, s: State, step: Step): Reply
    requires !Administrative(step)
  {
    match step
    case StepLoad(id, p, params) => Load(s, id, p, params)
    case StepReadBlueprint(id) => ReadBlueprint(s, id)
    case StepAttest(id, attestationId) => Attest(cfg, s, id, attestationId)
    case StepFlush(id) => Flush(s, id)
    case StepReadDelegation(id) => ReadDelegation(s, id)
    case StepCheck(id) => Check(s, id)
    case StepGrant(id, sessionId, traceId) => Grant(cfg, s, id, sessionId, traceId)
    case StepIssue(id) => Issue(s, id)
    case StepCommit(id) => Commit(s, id)
    case StepAbort(id) => Abort(s, id)
    case StepRevokeSession(id) => RevokeSession(s, id)
    case StepRestart(p) => Restart(s, p)
  }

  function Do(cfg: Config, s: State, step: Step): Reply {
    if Administrative(step) then Administer(s, step) else Serve(cfg, s, step)
  }

  function Next(cfg: Config, s: State, step: Step): State {
    Do(cfg, s, step).state
  }

  // The state after the first n steps of a run.
  function At(cfg: Config, run: seq<Step>, n: nat): State
    requires n <= |run|
  {
    if n == 0 then EMPTY else Next(cfg, At(cfg, run, n - 1), run[n - 1])
  }

  // The state after some more steps.
  function After(cfg: Config, s: State, steps: seq<Step>): State
    decreases |steps|
  {
    if steps == [] then s else After(cfg, Next(cfg, s, steps[0]), steps[1..])
  }

  lemma {:induction false} AtPrefix(cfg: Config, run: seq<Step>, more: seq<Step>, n: nat)
    requires n <= |run|
    ensures At(cfg, run + more, n) == At(cfg, run, n)
  {
    if n > 0 {
      AtPrefix(cfg, run, more, n - 1);
    }
  }

  lemma AtExtended(cfg: Config, run: seq<Step>, step: Step)
    ensures At(cfg, run + [step], |run| + 1) == Next(cfg, At(cfg, run, |run|), step)
  {
    AtPrefix(cfg, run, [step], |run|);
  }

  // Where a run goes on.
  lemma {:induction false} AtAfter(cfg: Config, run: seq<Step>, more: seq<Step>)
    ensures At(cfg, run + more, |run + more|) == After(cfg, At(cfg, run, |run|), more)
    decreases |more|
  {
    hide Next;
    if more == [] {
      assert run + more == run;
    } else {
      AtExtended(cfg, run, more[0]);
      AtAfter(cfg, run + [more[0]], more[1..]);
      assert run + more == run + [more[0]] + more[1..];
    }
  }

  lemma {:induction false} AfterConcat(cfg: Config, s: State, a: seq<Step>, b: seq<Step>)
    ensures After(cfg, s, a + b) == After(cfg, After(cfg, s, a), b)
    decreases |a|
  {
    hide Next;
    if a == [] {
      assert a + b == b;
    } else {
      assert (a + b)[1..] == a[1..] + b;
      AfterConcat(cfg, Next(cfg, s, a[0]), a[1..], b);
    }
  }
}
