// Runs of the service, from the empty state, in which what one might expect
// fails; and with them the proof that no theorem about runs is empty.
module Witness {
  import opened Text
  import opened Json
  import opened Attestation
  import opened ControlPlane
  import opened Authorization
  import opened Creation
  import opened Client
  import opened EndToEnd
  import Lifecycle
  import Policy
  import Revocation

  // ---- one world ----

  const REQUEST: RequestId := 0
  const PROCESS: Process := 0

  datatype World = World(cfg: Config, signer: Signer, blueprint: Uuid, agent: Uuid, delegation: Uuid, attestation: Uuid,
                         session: Uuid) {
    ghost predicate Usable() {
      && Ideal(cfg.env, signer) && signer.publicKey != "" && Punctual(cfg.env, "now", 0) && cfg.sessionMaxTtl == 1800
      && blueprint != agent && blueprint != delegation && agent != delegation
      && attestation !in {blueprint, agent, delegation} && session !in {blueprint, agent, delegation, attestation}
    }

    function Claims(): Dict {
      OwnClaims(agent, "dev", "m", "v1", "now", "n")
    }

    function Request(delegationId: Option<Uuid>): Params {
      Posted(agent, None, delegationId, ["repo:read"], Signature(signer, Claims()))
    }

    // An active agent under an active blueprint, and a delegation.
    function Setup(maxTtl: int): seq<Step> {
      [StepCreateBlueprint(blueprint, "b", "b", [], ["repo:read"], 60),
       StepUpdateBlueprint(blueprint, [SetMaxTtl(Some(maxTtl))]),
       StepSetBlueprintStatus(blueprint, true),
       StepCreateAgent(agent, blueprint, Some(signer.publicKey)),
       StepActivateAgent(agent),
       StepCreateDelegation(delegation, agent, 60)]
    }

    function Ready(maxTtl: int): State {
      var b := Blueprint("b", 2, "b", BlueprintActive, Policy.Items([]), Policy.Items(["repo:read"]), maxTtl);
      var a := Agent(BuildPrincipalUri(agent, "b"), blueprint, Active, Some(signer.publicKey), Some(0), None, None);
      var d := Delegation(agent, 0, 60 * SECOND, None);
      State(0, Tables(map[blueprint := b], map[agent := a], map[delegation := d], map[], map[]), map[], map[], {},
            {blueprint, agent, delegation})
    }

    // The delegation is revoked, then its row checked; it expires, and then the
    // session begins.
    function LateEnd(): seq<Step> {
      [StepRevokeDelegation(delegation), StepCheck(REQUEST), StepTick(100 * SECOND), StepGrant(REQUEST, session, "t"),
       StepIssue(REQUEST), StepCommit(REQUEST)]
    }

    function Creation(delegationId: Option<Uuid>): seq<Step> {
      CreationSteps(REQUEST, PROCESS, Request(delegationId), attestation, session, "t")
    }
  }

  // There is such a world: texts are their own signatures, and the clock is
  // read as 0 always.
  lemma WorldExists()
    ensures exists w: World :: w.Usable()
  {
    var env := Env((key: string) => Rsa, (key: string, text: string, s: string) => key == "key" && s == text,
                   (text: string) => Aware(0));
    var signer := Signer("key", (text: string) => text);
    var w := World(Config(env, 1800), signer,
                   "00000000-0000-0000-0000-000000000001", "00000000-0000-0000-0000-000000000002",
                   "00000000-0000-0000-0000-000000000003", "00000000-0000-0000-0000-000000000004",
                   "00000000-0000-0000-0000-000000000005");
    assert w.blueprint[35] == '1' && w.agent[35] == '2' && w.delegation[35] == '3' && w.attestation[35] == '4'
        && w.session[35] == '5';
    assert w.Usable();
  }

  lemma BlueprintReady(w: World, maxTtl: int)
    requires w.Usable()
    ensures
      var s1 := Next(w.cfg, EMPTY, w.Setup(maxTtl)[0]);
      var s2 := Next(w.cfg, s1, w.Setup(maxTtl)[1]);
      var b := Blueprint("b", 2, "b", BlueprintActive, Policy.Items([]), Policy.Items(["repo:read"]), maxTtl);
      Next(w.cfg, s2, w.Setup(maxTtl)[2])
        == EMPTY.(db := EMPTY.db.(blueprints := map[w.blueprint := b]), ids := {w.blueprint})
  {
    hide Serve, Ideal;
    var b := Blueprint("b", 1, "b", BlueprintDraft, Policy.Items([]), Policy.Items(["repo:read"]), 60);
    assert [SetMaxTtl(Some(maxTtl))][1..] == [];
    assert ApplyChanges(b, [SetMaxTtl(Some(maxTtl))]) == Some(b.(maxTtl := maxTtl));
  }

  lemma AgentReady(w: World, maxTtl: int, s: State)
    requires w.Usable()
    requires
      var b := Blueprint("b", 2, "b", BlueprintActive, Policy.Items([]), Policy.Items(["repo:read"]), maxTtl);
      s == EMPTY.(db := EMPTY.db.(blueprints := map[w.blueprint := b]), ids := {w.blueprint})
    ensures
      var s1 := Next(w.cfg, s, w.Setup(maxTtl)[3]);
      var s2 := Next(w.cfg, s1, w.Setup(maxTtl)[4]);
      Next(w.cfg, s2, w.Setup(maxTtl)[5]) == w.Ready(maxTtl)
  {
    hide Serve, Ideal, BuildPrincipalUri;
  }

  lemma SetupReaches(w: World, maxTtl: int)
    requires w.Usable()
    ensures After(w.cfg, EMPTY, w.Setup(maxTtl)) == w.Ready(maxTtl)
  {
    var steps := w.Setup(maxTtl);
    BlueprintReady(w, maxTtl);
    hide Next, After;
    var s2 := Next(w.cfg, Next(w.cfg, EMPTY, steps[0]), steps[1]);
    var s3 := Next(w.cfg, s2, steps[2]);
    AgentReady(w, maxTtl, s3);
    var s4 := Next(w.cfg, s3, steps[3]);
    TwoSteps(w.cfg, EMPTY, steps);
    TwoSteps(w.cfg, s2, steps[2..]);
    TwoSteps(w.cfg, s4, steps[4..]);
    assert steps[2..][2..] == steps[4..] && steps[4..][2..] == [];
    NoSteps(w.cfg, w.Ready(maxTtl));
  }

  lemma NoSteps(cfg: Config, s: State)
    ensures After(cfg, s, []) == s
  {
  }

  // The state that the run reaches.
  lemma RunReaches(w: World, maxTtl: int, more: seq<Step>)
    requires w.Usable()
    ensures
      var run := w.Setup(maxTtl) + more;
      At(w.cfg, run, |run|) == After(w.cfg, w.Ready(maxTtl), more)
  {
    hide Next, After;
    var run := w.Setup(maxTtl) + more;
    AtAfter(w.cfg, [], run);
    assert [] + run == run;
    AfterConcat(w.cfg, EMPTY, w.Setup(maxTtl), more);
    SetupReaches(w, maxTtl);
  }

  lemma ReadyToCreate(w: World, maxTtl: int, delegationId: Option<Uuid>)
    requires w.Usable() && delegationId in {None, Some(w.delegation)}
    ensures Creatable(w.cfg, w.Ready(maxTtl), PROCESS, w.Request(delegationId))
    ensures Fresh(w.Ready(maxTtl), REQUEST, w.attestation, w.session)
  {
    hide Creatable, Punctual, BuildPrincipalUri, Signature, OwnClaims;
    var received := Signature(w.signer, w.Claims());
    SameReflexive(Obj(received));
    ClientIsCreatable(w.cfg, w.Ready(maxTtl), PROCESS, w.signer, w.agent, None, delegationId, ["repo:read"], "dev", "m",
                      "v1", "now", "n", received);
  }

  // What the creation leaves behind when nothing comes in between.
  lemma Created(w: World, maxTtl: int)
    requires w.Usable()
    ensures
      var s, s' := w.Ready(maxTtl), After(w.cfg, w.Ready(maxTtl), w.Creation(None));
      var blueprint := s.db.blueprints[w.blueprint];
      var session := NewSession(w.cfg, 0, w.Request(None), blueprint, w.attestation, "t");
      && s'.now == 0
      && s'.db == s.db.(attestations := s'.db.attestations, sessions := map[w.session := session])
      && s'.tokens == {IssueToken(w.session, session, BlueprintTag(blueprint), 0)}
  {
    ReadyToCreate(w, maxTtl, None);
    hide Creatable, After, CreationRun, RowFor, NewSession, IssueToken, BlueprintTag, BuildPrincipalUri, Ideal, Punctual;
    CreationSucceeds(w.cfg, w.Ready(maxTtl), REQUEST, PROCESS, w.Request(None), w.attestation, w.session, "t");
    CreationIsRun(w.cfg, w.Ready(maxTtl), REQUEST, PROCESS, w.Request(None), w.attestation, w.session, "t");
  }

  // ---- a revoked agent with a session ----

  // The agent is revoked between the two queries of line 41, and gets a session.
  lemma RevokedAgentHasSession(w: World)
    requires w.Usable()
    ensures
      var steps := w.Creation(None);
      var run := w.Setup(60) + ([steps[0]] + ([StepRevokeAgent(w.agent)] + steps[1..]));
      var db := At(w.cfg, run, |run|).db;
      && w.agent in db.agents && db.agents[w.agent].status.Revoked?
      && w.session in db.sessions && db.sessions[w.session].agentId == w.agent
  {
    var steps := w.Creation(None);
    hide At, Next, After, IssueToken, BlueprintTag, BuildPrincipalUri, Ideal, Punctual, SessionTtl;
    RunReaches(w, 60, [steps[0]] + ([StepRevokeAgent(w.agent)] + steps[1..]));
    Created(w, 60);
    CreationServes(REQUEST, PROCESS, w.Request(None), w.attestation, w.session, "t");
    hide CreationSteps;
    RevokedAfterLoad(w.cfg, w.Ready(60), w.agent, steps);
  }

  lemma CreationServes(q: RequestId, p: Process, params: Params, attestationId: Uuid, sessionId: Uuid, traceId: string)
    ensures
      var steps := CreationSteps(q, p, params, attestationId, sessionId, traceId);
      && steps != [] && steps[0].StepLoad?
      && forall step :: step in steps[1..] ==> Serves(step)
  {
    var steps := CreationSteps(q, p, params, attestationId, sessionId, traceId);
    forall step | step in steps[1..] ensures Serves(step) {
      var i :| 1 <= i < |steps| && steps[i] == step;
      hide Serves;
      EachServes(q, attestationId, sessionId, traceId);
    }
  }

  lemma EachServes(q: RequestId, attestationId: Uuid, sessionId: Uuid, traceId: string)
    ensures Serves(StepReadBlueprint(q)) && Serves(StepAttest(q, attestationId)) && Serves(StepFlush(q))
    ensures Serves(StepReadDelegation(q)) && Serves(StepCheck(q))
    ensures Serves(StepGrant(q, sessionId, traceId)) && Serves(StepIssue(q)) && Serves(StepCommit(q))
  {
  }

  predicate Serves(step: Step) {
    !Administrative(step) && !step.StepLoad?
  }

  lemma RevokedAfterLoad(cfg: Config, s: State, a: Uuid, steps: seq<Step>)
    requires a in s.db.agents && steps != [] && steps[0].StepLoad?
    requires forall step :: step in steps[1..] ==> Serves(step)
    ensures
      var revoked := s.db.agents[a].(status := Revoked, revokedAt := Some(s.now));
      After(cfg, s, [steps[0]] + ([StepRevokeAgent(a)] + steps[1..])) == PutAgent(After(cfg, s, steps), a, revoked)
  {
    var rest := steps[1..];
    var s1 := Next(cfg, s, steps[0]);
    Lifecycle.ServingKeeps(cfg, s, steps[0]);
    hide Next, After;
    FirstStep(cfg, s, steps[0], [StepRevokeAgent(a)] + rest);
    FirstStep(cfg, s1, StepRevokeAgent(a), rest);
    FirstStep(cfg, s, steps[0], rest);
    assert [steps[0]] + rest == steps;
    var revoked := s.db.agents[a].(status := Revoked, revokedAt := Some(s.now));
    CreationLeavesAgent(cfg, s1, rest, Revocation.AgentRow(a, revoked));
    Revocation.RevocationChangesOneRow(cfg, s1, a, rest);
  }

  lemma FirstStep(cfg: Config, s: State, step: Step, rest: seq<Step>)
    ensures After(cfg, s, [step] + rest) == After(cfg, Next(cfg, s, step), rest)
  {
    hide Next;
    assert ([step] + rest)[1..] == rest;
  }

  // Serving steps other than a load leave agents' rows alone.
  lemma {:induction false} CreationLeavesAgent(cfg: Config, s: State, steps: seq<Step>, e: Revocation.Edit)
    requires e.AgentRow? && forall step :: step in steps ==> Serves(step)
    ensures Revocation.LeavesAlone(cfg, s, steps, e)
    decreases |steps|
  {
    hide Next;
    if steps != [] {
      assert steps[0] in steps;
      CreationLeavesAgent(cfg, Next(cfg, s, steps[0]), steps[1..], e);
    }
  }

  // ---- a session without a lifetime ----

  // A blueprint update may set the lifetime to zero or less: the session is
  // stored, its token handed out, and never accepted.
  lemma LifelessSession(w: World, maxTtl: int, now: int)
    requires w.Usable() && maxTtl <= 0
    ensures
      var run := w.Setup(maxTtl) + w.Creation(None);
      var s := At(w.cfg, run, |run|);
      && w.session in s.db.sessions
      && s.db.sessions[w.session].expiresAt <= s.db.sessions[w.session].issuedAt
      && exists t :: t in s.tokens && t.jti == w.session && !ValidToken(t, s.tokens, now)
  {
    RunReaches(w, maxTtl, w.Creation(None));
    Created(w, maxTtl);
    hide At, Next, After, RowFor, BlueprintTag, BuildPrincipalUri, Ideal, Punctual;
    var blueprint := w.Ready(maxTtl).db.blueprints[w.blueprint];
    var session := NewSession(w.cfg, 0, w.Request(None), blueprint, w.attestation, "t");
    assert IssueToken(w.session, session, BlueprintTag(blueprint), 0).exp <= 0;
  }

  // ---- a blueprint with a null list ----

  // A blueprint update may set max_scopes to null: authorize then fails for a
  // session that was allowed everything it asked for.
  lemma NullScopesRaise(w: World)
    requires w.Usable()
    ensures
      var steps := w.Creation(None);
      var run := w.Setup(60) + (steps + [StepUpdateBlueprint(w.blueprint, [SetMaxScopes(Policy.Null)])]);
      var n := |run|;
      exists t :: AuthorizeAt(w.cfg, run, Moments(n, n, n, n, n), t, "github", "search_code", PythonEngine)
                    == Decided(Policy.Raise)
  {
    var steps, s := w.Creation(None), w.Ready(60);
    var update := StepUpdateBlueprint(w.blueprint, [SetMaxScopes(Policy.Null)]);
    RunReaches(w, 60, steps + [update]);
    Created(w, 60);
    AfterConcat(w.cfg, s, steps, [update]);
    OneStep(w.cfg, After(w.cfg, s, steps), [update]);
    hide At, After, RowFor, BlueprintTag, BuildPrincipalUri, Ideal, Punctual, Signature, OwnClaims;
    var blueprint := s.db.blueprints[w.blueprint];
    var session := NewSession(w.cfg, 0, w.Request(None), blueprint, w.attestation, "t");
    var t := IssueToken(w.session, session, BlueprintTag(blueprint), 0);
    var s' := Next(w.cfg, After(w.cfg, s, steps), update);
    NullStored(w.cfg, After(w.cfg, s, steps), w.blueprint);
    hide Next;
    NullRaises(t, {t}, 0, ReadFrom(s'.db, s'.db, s'.db, s'.db, t));
    var run := w.Setup(60) + (steps + [update]);
    var n := |run|;
    assert AuthorizeAt(w.cfg, run, Moments(n, n, n, n, n), t, "github", "search_code", PythonEngine)
        == Decided(Policy.Raise);
  }

  lemma NullStored(cfg: Config, s: State, id: Uuid)
    requires id in s.db.blueprints
    ensures
      var b, s' := s.db.blueprints[id], Next(cfg, s, StepUpdateBlueprint(id, [SetMaxScopes(Policy.Null)]));
      s' == PutBlueprint(s, id, b.(maxScopes := Policy.Null, version := b.version + 1))
  {
    hide Serve;
    assert [SetMaxScopes(Policy.Null)][1..] == [];
    assert ApplyChanges(s.db.blueprints[id], [SetMaxScopes(Policy.Null)])
        == Some(s.db.blueprints[id].(maxScopes := Policy.Null));
  }

  lemma NullRaises(t: Token, issued: set<Token>, now: int, rows: Reads)
    requires ValidToken(t, issued, now) && rows.session.Some? && rows.session.value.revokedAt.None?
    requires rows.agent.Some? && rows.agent.value.status.Active?
    requires rows.blueprint.Some? && rows.blueprint.value.status.BlueprintActive? && rows.blueprint.value.slug == "b"
    requires rows.blueprint.value.approvedEnvironments == Policy.Items([]) && rows.blueprint.value.maxScopes.Null?
    ensures Authorize(t, issued, now, rows, "github", "search_code", PythonEngine) == Decided(Policy.Raise)
  {
    assert Policy.ToolKey("github", "search_code") == "github.search_code";
  }

  // ---- a delegation that does not last ----

  // The first five steps of a creation end with reading the row.
  lemma DelegationEndsBeforeSession(w: World)
    requires w.Usable()
    ensures
      var run := w.Setup(60) + (w.Creation(Some(w.delegation))[..5] + w.LateEnd());
      var db := At(w.cfg, run, |run|).db;
      && w.delegation in db.delegations && db.delegations[w.delegation].revokedAt.Some?
      && w.session in db.sessions && db.sessions[w.session].delegationId == Some(w.delegation)
      && db.delegations[w.delegation].revokedAt.value < db.sessions[w.session].issuedAt
      && db.delegations[w.delegation].expiresAt < db.sessions[w.session].issuedAt
  {
    var steps, s := w.Creation(Some(w.delegation)), w.Ready(60);
    ReadyToCreate(w, 60, Some(w.delegation));
    ConsultedState(w.cfg, s, REQUEST, PROCESS, w.Request(Some(w.delegation)), w.attestation, w.session, "t");
    hide At, Next, After, CreationSteps, Creatable, RowFor, Ideal, Punctual, BuildPrincipalUri, Signature, OwnClaims;
    RunReaches(w, 60, steps[..5] + w.LateEnd());
    AfterConcat(w.cfg, s, steps[..5], w.LateEnd());
    EndsBeforeSession(w, After(w.cfg, s, steps[..5]), w.LateEnd());
  }

  lemma ConsultedState(cfg: Config, s: State, q: RequestId, p: Process, params: Params, attestationId: Uuid,
                       sessionId: Uuid, traceId: string)
    requires Fresh(s, q, attestationId, sessionId)
    ensures Creatable(cfg, s, p, params) ==>
      var s5 := After(cfg, s, CreationSteps(q, p, params, attestationId, sessionId, traceId)[..5]);
      && q in s5.requests && s5.db == s.db && s5.now == s.now && s5.tokens == s.tokens
      && s5.ids == s.ids + {attestationId}
      && s5.requests[q].params == params && s5.requests[q].blueprint.Some?
      && s5.requests[q].phase == Consulted(attestationId, RowFor(params), DelegationOf(s, params))
  {
    hide After, Do, Verify, Insertable, DelegationAllows, Attest, Flush, Load, ReadBlueprint;
    if Creatable(cfg, s, p, params) {
      var steps := CreationSteps(q, p, params, attestationId, sessionId, traceId)[..5];
      LoadPhase(s, q, p, params);
      var s1 := Load(s, q, p, params).state;
      var s2 := ReadBlueprint(s1, q).state;
      AttestPhase(cfg, s2, q, attestationId);
      var s3 := Attest(cfg, s2, q, attestationId).state;
      FlushPhase(s3, q);
      SameNonces(s, s3, q, RowFor(params).nonce);
      var s4 := Flush(s3, q).state;
      EarlySteps(cfg, s, q, p, params, attestationId);
      EarlySteps(cfg, s1, q, p, params, attestationId);
      EarlySteps(cfg, s2, q, p, params, attestationId);
      EarlySteps(cfg, s3, q, p, params, attestationId);
      LateSteps(cfg, s4, q, sessionId, traceId);
      TwoSteps(cfg, s, steps);
      TwoSteps(cfg, s2, steps[2..]);
      assert steps[2..][2..] == steps[4..];
      OneStep(cfg, s4, steps[4..]);
    }
  }

  lemma EndsBeforeSession(w: World, s: State, late: seq<Step>)
    requires w.Usable() && REQUEST in s.requests
    requires s.db == w.Ready(60).db && s.now == 0 && w.session !in s.ids
    requires late == w.LateEnd()
    requires
      var r := s.requests[REQUEST];
      && r.params.delegationId == Some(w.delegation) && r.params.agentId == w.agent && r.blueprint.Some?
      && r.phase.Consulted? && r.phase.delegation == Some(s.db.delegations[w.delegation])
    ensures
      var db := After(w.cfg, s, late).db;
      && w.delegation in db.delegations && db.delegations[w.delegation].revokedAt == Some(0)
      && w.session in db.sessions && db.sessions[w.session].delegationId == Some(w.delegation)
      && db.sessions[w.session].issuedAt == 100 * SECOND
      && db.delegations[w.delegation].expiresAt == 60 * SECOND
  {
    hide After, Do, Ideal, Punctual, BuildPrincipalUri;
    var s1 := RevokeDelegation(s, w.delegation).state;
    RevokeStep(w.cfg, s, w.delegation);
    var s2 := Check(s1, REQUEST).state;
    LateSteps(w.cfg, s1, REQUEST, w.session, "t");
    var s3 := Tick(s2, 100 * SECOND).state;
    TickStep(w.cfg, s2, 100 * SECOND);
    TwoSteps(w.cfg, s, late);
    TwoSteps(w.cfg, s2, late[2..]);
    assert late[2..][2..] == late[4..];
    LateSteps(w.cfg, s3, REQUEST, w.session, "t");
    BeginsLate(w, s3, late[4..]);
  }

  lemma RevokeStep(cfg: Config, s: State, d: Uuid)
    ensures Next(cfg, s, StepRevokeDelegation(d)) == RevokeDelegation(s, d).state
  {
    hide Serve, RevokeDelegation;
  }

  lemma TickStep(cfg: Config, s: State, micros: nat)
    ensures Next(cfg, s, StepTick(micros)) == Tick(s, micros).state
  {
    hide Serve;
  }

  lemma BeginsLate(w: World, s: State, late: seq<Step>)
    requires REQUEST in s.requests && w.session !in s.ids && late == [StepIssue(REQUEST), StepCommit(REQUEST)]
    requires s.requests[REQUEST].phase.Cleared? && s.requests[REQUEST].blueprint.Some?
    ensures
      var s' := After(w.cfg, Grant(w.cfg, s, REQUEST, w.session, "t").state, late);
      && s'.db.delegations == s.db.delegations
      && w.session in s'.db.sessions
      && s'.db.sessions[w.session].delegationId == s.requests[REQUEST].params.delegationId
      && s'.db.sessions[w.session].issuedAt == s.now
  {
    hide After, Do, SessionTtl, BlueprintTag, IssueToken;
    var s4 := Grant(w.cfg, s, REQUEST, w.session, "t").state;
    var s5 := Issue(s4, REQUEST).state;
    LateSteps(w.cfg, s4, REQUEST, w.session, "t");
    LateSteps(w.cfg, s5, REQUEST, w.session, "t");
    TwoSteps(w.cfg, s4, late);
    NoSteps(w.cfg, Commit(s5, REQUEST).state);
  }

  // ---- two statuses, the same timestamps ----

  lemma AmbiguousAgent(w: World)
    requires w.Usable()
    ensures
      var suspended := w.Setup(60) + [StepSuspendAgent(w.agent)];
      var active := w.Setup(60) + [StepSuspendAgent(w.agent), StepActivateAgent(w.agent)];
      var a := At(w.cfg, suspended, |suspended|).db.agents;
      var b := At(w.cfg, active, |active|).db.agents;
      && w.agent in a && w.agent in b && Lifecycle.Ambiguous(a[w.agent])
      && a[w.agent].status.Suspended? && b[w.agent] == a[w.agent].(status := Active)
  {
    RunReaches(w, 60, [StepSuspendAgent(w.agent)]);
    RunReaches(w, 60, [StepSuspendAgent(w.agent), StepActivateAgent(w.agent)]);
    var s := w.Ready(60);
    var s1 := Next(w.cfg, s, StepSuspendAgent(w.agent));
    assert s1 == SuspendAgent(s, w.agent).state by { hide Serve; }
    assert Next(w.cfg, s1, StepActivateAgent(w.agent)) == ActivateAgent(s1, w.agent).state by { hide Serve; }
    hide Next, After, At, BuildPrincipalUri, Ideal, Punctual;
    OneStep(w.cfg, s, [StepSuspendAgent(w.agent)]);
    TwoSteps(w.cfg, s, [StepSuspendAgent(w.agent), StepActivateAgent(w.agent)]);
    NoSteps(w.cfg, Next(w.cfg, s1, StepActivateAgent(w.agent)));
  }

  // ---- a signature of the claims' own ----

  // One override, and the client's own claims are rejected where they would
  // have been verified without it.
  lemma OwnSignatureIsRejected(w: World, text: string)
    requires w.Usable()
    ensures
      var plain, odd := w.Claims(), Update(w.Claims(), [Member("signature", Str(text))]);
      var a, b := Signature(w.signer, plain), Signature(w.signer, odd);
      && Verify(w.cfg.env, PoppedData(a), PoppedSignature(a), w.signer.publicKey, w.agent, 0, {}).outcome.Verified?
      && !Verify(w.cfg.env, PoppedData(b), PoppedSignature(b), w.signer.publicKey, w.agent, 0, {}).outcome.Verified?
  {
    hide Verify, OwnClaims, PoppedData, PoppedSignature, Signature, Punctual;
    IdealIsCorrect(w.cfg.env, w.signer);
    var overrides := [Member("signature", Str(text))];
    var a, b := Signature(w.signer, w.Claims()), Signature(w.signer, Update(w.Claims(), overrides));
    SameReflexive(Obj(a));
    SameReflexive(Obj(b));
    ClientIsVerified(w.cfg.env, w.signer, w.signer.publicKey, w.agent, "dev", "m", "v1", "now", "n", a, 0, {});
    assert Has(overrides, "signature");
    ClientIsAccepted(w.cfg.env, w.signer, w.agent, "dev", "m", "v1", overrides, "now", "n", b, 0, {});
  }
}
