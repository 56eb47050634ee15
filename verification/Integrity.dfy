// What every reachable state of the tables satisfies: no row points at nothing,
// and delegations have the lifetimes that were asked for.
module Integrity {
  import opened Text
  import opened ControlPlane
  import opened History
  import Lifecycle
  import Replay

  // ---- delegations ----

  ghost predicate DelegationOk(d: Delegation, s: State) {
    && d.agentId in s.db.agents
    && d.issuedAt <= s.now
    && d.issuedAt + SECOND <= d.expiresAt <= d.issuedAt + 86400 * SECOND
    && (d.revokedAt.Some? ==> d.issuedAt <= d.revokedAt.value <= s.now)
  }

  ghost predicate DelegationsOk(s: State) {
    forall id :: id in s.db.delegations ==> DelegationOk(s.db.delegations[id], s)
  }

  lemma DelegationsOkTouched(cfg: Config, s: State, step: Step)
    requires step.StepCreateDelegation? || step.StepRevokeDelegation?
    requires DelegationsOk(s)
    ensures DelegationsOk(Next(cfg, s, step))
  {
    hide Serve;
  }

  lemma DelegationsOkLater(s: State, s': State)
    requires DelegationsOk(s) && s'.db.delegations == s.db.delegations
    requires s.now <= s'.now && AgentsLast(s, s')
    ensures DelegationsOk(s')
  {
  }

  // Every delegation of every reachable state belongs to an agent, lives for
  // one second to one day, and was not revoked before it was issued.
  lemma {:induction false} RunKeepsDelegations(cfg: Config, run: seq<Step>, n: nat)
    requires n <= |run|
    ensures DelegationsOk(At(cfg, run, n))
  {
    hide Next;
    if n > 0 {
      var s, step := At(cfg, run, n - 1), run[n - 1];
      RunKeepsDelegations(cfg, run, n - 1);
      if step.StepCreateDelegation? || step.StepRevokeDelegation? {
        DelegationsOkTouched(cfg, s, step);
      } else {
        DelegationsFrame(cfg, s, step);
        Replay.RunKeepsInv(cfg, run, n - 1);
        LaterStep(cfg, s, step);
        DelegationsOkLater(s, Next(cfg, s, step));
      }
    }
  }

  // Where a delegation comes from: a command for an agent that exists, which
  // gives it the lifetime that was asked for.
  lemma NewDelegation(cfg: Config, s: State, step: Step, id: Uuid)
    requires id !in s.db.delegations && id in Next(cfg, s, step).db.delegations
    ensures step.StepCreateDelegation? && step.delegationId == id && step.agentId in s.db.agents
    ensures 1 <= step.ttl <= 86400
    ensures Next(cfg, s, step).db.delegations[id]
         == Delegation(step.agentId, s.now, s.now + step.ttl * 1_000_000, None)
  {
    if step.StepCreateDelegation? || step.StepRevokeDelegation? {
      hide Serve;
    } else {
      hide Next;
      DelegationsFrame(cfg, s, step);
    }
  }

  // ---- revocations, and nothing else ----

  // The clock at the first of these steps that revokes, unless it was done before.
  function FirstTime(cfg: Config, run: seq<Step>, m: nat, n: nat, revoke: Step, before: Option<int>): Option<int>
    requires m <= n <= |run|
    decreases n - m
  {
    if m == n then before
    else
      var earlier := FirstTime(cfg, run, m, n - 1, revoke, before);
      if earlier.None? && run[n - 1] == revoke then Some(At(cfg, run, n - 1).now) else earlier
  }

  lemma SessionStepExact(cfg: Config, s: State, step: Step, id: Uuid)
    requires Replay.IdInv(s) && id in s.db.sessions
    ensures
      var session, sessions := s.db.sessions[id], Next(cfg, s, step).db.sessions;
      && id in sessions
      && sessions[id] == session.(revokedAt :=
           if session.revokedAt.None? && step == StepRevokeSession(id) then Some(s.now) else session.revokedAt)
  {
    if step.StepCommit? || step.StepRevokeSession? {
      hide Administer;
    } else {
      hide Next;
      Replay.OnlyCommitInserts(cfg, s, step);
    }
  }

  // From any point of any run on, a session is what it was, except that it is
  // revoked at the first request to revoke it, if there is one.
  lemma {:induction false} SessionFollows(cfg: Config, run: seq<Step>, m: nat, n: nat, id: Uuid)
    requires m <= n <= |run| && id in At(cfg, run, m).db.sessions
    ensures
      var session, sessions := At(cfg, run, m).db.sessions[id], At(cfg, run, n).db.sessions;
      && id in sessions
      && sessions[id]
           == session.(revokedAt := FirstTime(cfg, run, m, n, StepRevokeSession(id), session.revokedAt))
    decreases n - m
  {
    hide Next;
    if m < n {
      SessionFollows(cfg, run, m, n - 1, id);
      Replay.RunKeepsInv(cfg, run, n - 1);
      SessionStepExact(cfg, At(cfg, run, n - 1), run[n - 1], id);
    }
  }

  lemma DelegationStepExact(cfg: Config, s: State, step: Step, id: Uuid)
    requires s.db.delegations.Keys <= s.ids && id in s.db.delegations
    ensures
      var d, delegations := s.db.delegations[id], Next(cfg, s, step).db.delegations;
      && id in delegations
      && delegations[id] == d.(revokedAt :=
           if d.revokedAt.None? && step == StepRevokeDelegation(id) then Some(s.now) else d.revokedAt)
  {
    if step.StepCreateDelegation? || step.StepRevokeDelegation? {
      hide Serve;
    } else {
      hide Next;
      DelegationsFrame(cfg, s, step);
    }
  }

  // The same of a delegation.
  lemma {:induction false} DelegationFollows(cfg: Config, run: seq<Step>, m: nat, n: nat, id: Uuid)
    requires m <= n <= |run| && id in At(cfg, run, m).db.delegations
    ensures
      var d, delegations := At(cfg, run, m).db.delegations[id], At(cfg, run, n).db.delegations;
      && id in delegations
      && delegations[id] == d.(revokedAt := FirstTime(cfg, run, m, n, StepRevokeDelegation(id), d.revokedAt))
    decreases n - m
  {
    hide Next;
    if m < n {
      DelegationFollows(cfg, run, m, n - 1, id);
      Replay.RunKeepsInv(cfg, run, n - 1);
      DelegationStepExact(cfg, At(cfg, run, n - 1), run[n - 1], id);
    }
  }

  // ---- requests, processes and the clock ----

  // A request in flight stays as it is unless a step is addressed to it, it is
  // committed or rolled back, or its process restarts.
  lemma RequestStays(cfg: Config, s: State, step: Step, q: RequestId)
    requires q in s.requests && !Addresses(step, q)
    requires step != StepCommit(q) && step != StepAbort(q) && step != StepRestart(s.requests[q].process)
    ensures q in Next(cfg, s, step).requests && Next(cfg, s, step).requests[q] == s.requests[q]
  {
    if Administrative(step) {
      hide Next;
      Replay.AdministrativeFrame(cfg, s, step);
    } else {
      hide Administer, Attestation.Verify, Insertable, DelegationAllows, MayStart, NewSession, IssueToken, BlueprintOf,
           DelegationOf, RowFor;
    }
  }

  // A rollback ends the request, and nothing else.
  lemma AbortEnds(cfg: Config, s: State, q: RequestId)
    ensures Next(cfg, s, StepAbort(q)) == s.(requests := Next(cfg, s, StepAbort(q)).requests)
    ensures forall other :: other in Next(cfg, s, StepAbort(q)).requests <==> other in s.requests && other != q
  {
    hide Administer;
  }

  // A restart ends the requests of its process.
  lemma RestartEnds(cfg: Config, s: State, p: Process, q: RequestId)
    ensures q in Next(cfg, s, StepRestart(p)).requests <==> q in s.requests && s.requests[q].process != p
  {
    hide Administer;
  }

  function Elapsed(steps: seq<Step>): nat
    decreases |steps|
  {
    if steps == [] then 0
    else
      var last := steps[|steps| - 1];
      Elapsed(steps[..|steps| - 1]) + if last.StepTick? then last.micros else 0
  }

  lemma ClockStep(cfg: Config, s: State, step: Step)
    ensures Next(cfg, s, step).now == s.now + if step.StepTick? then step.micros else 0
  {
    if step.StepTick? {
      hide Serve;
    } else if Administrative(step) {
      hide Serve, ApplyChanges, BuildPrincipalUri;
    } else {
      hide Next;
      Lifecycle.ServingKeeps(cfg, s, step);
    }
  }

  // The clock shows the time that has passed, and no request moves it.
  lemma {:induction false} ClockIsElapsed(cfg: Config, run: seq<Step>, n: nat)
    requires n <= |run|
    ensures At(cfg, run, n).now == Elapsed(run[..n])
  {
    hide Next;
    if n > 0 {
      ClockIsElapsed(cfg, run, n - 1);
      ClockStep(cfg, At(cfg, run, n - 1), run[n - 1]);
      assert run[..n][..n - 1] == run[..n - 1];
    }
  }

  // ---- tokens ----

  // Step k issued the token, for the session of a request in flight then, in
  // the second that the clock showed.
  ghost predicate IssuedAt(cfg: Config, run: seq<Step>, t: Token, k: nat) {
    && k < |run| && run[k].StepIssue?
    && var s, q := At(cfg, run, k), run[k].request;
       && q in s.requests && s.requests[q].phase.Granted? && s.requests[q].blueprint.Some?
       && var session := s.requests[q].phase.session;
          && t.jti == s.requests[q].phase.sessionId
          && t.agentId == session.agentId && t.actingUser == session.actingUser
          && t.delegationId == session.delegationId && t.scopes == session.effectiveScopes
          && t.traceId == session.traceId
          && t.blueprint == BlueprintTag(s.requests[q].blueprint.value)
          && t.iat * 1_000_000 <= s.now < (t.iat + 1) * 1_000_000
          && t.exp == TruncSeconds(session.expiresAt)
  }

  lemma IssueStep(cfg: Config, s: State, q: RequestId, t: Token)
    requires t in Next(cfg, s, StepIssue(q)).tokens && t !in s.tokens
    ensures q in s.requests && s.requests[q].phase.Granted? && s.requests[q].blueprint.Some?
    ensures
      var session := s.requests[q].phase.session;
      && t.jti == s.requests[q].phase.sessionId
      && t.agentId == session.agentId && t.actingUser == session.actingUser
      && t.delegationId == session.delegationId && t.scopes == session.effectiveScopes
      && t.traceId == session.traceId
      && t.blueprint == BlueprintTag(s.requests[q].blueprint.value)
      && t.iat * 1_000_000 <= s.now < (t.iat + 1) * 1_000_000
      && t.exp == TruncSeconds(session.expiresAt)
  {
    hide Administer, BlueprintTag;
  }

  // Every token of every reachable state was issued by such a step.
  lemma {:induction false} TokenOrigin(cfg: Config, run: seq<Step>, n: nat, t: Token) returns (k: nat)
    requires n <= |run| && t in At(cfg, run, n).tokens
    ensures k < n && IssuedAt(cfg, run, t, k)
  {
    hide Next, TruncSeconds;
    var s, step := At(cfg, run, n - 1), run[n - 1];
    if t in s.tokens {
      k := TokenOrigin(cfg, run, n - 1, t);
    } else {
      if !step.StepIssue? { Replay.TokensKept(cfg, s, step); }
      IssueStep(cfg, s, step.request, t);
      k := n - 1;
      hide At;
    }
  }

  // ---- foreign keys ----

  ghost predicate SessionRefers(db: Tables, session: Session) {
    && session.agentId in db.agents
    && (session.delegationId.Some? ==>
          && session.delegationId.value in db.delegations
          && db.delegations[session.delegationId.value].agentId == session.agentId)
    && session.attestationId in db.attestations
    && db.attestations[session.attestationId].agentId == session.agentId
  }

  ghost predicate NoDanglingRows(db: Tables) {
    && (forall id :: id in db.agents ==> db.agents[id].blueprintId in db.blueprints)
    && (forall id :: id in db.delegations ==> db.delegations[id].agentId in db.agents)
    && (forall id :: id in db.attestations ==> db.attestations[id].agentId in db.agents)
    && (forall id :: id in db.sessions ==> SessionRefers(db, db.sessions[id]))
  }

  lemma SessionRefersToRows(cfg: Config, run: seq<Step>, n: nat, id: Uuid)
    requires n <= |run| && id in At(cfg, run, n).db.sessions
    ensures SessionRefers(At(cfg, run, n).db, At(cfg, run, n).db.sessions[id])
  {
    hide At, Next, Attestation.Verify, SessionTtl;
    var o := SessionOrigin(cfg, run, n, id);
    RunLater(cfg, run, o.load, n);
    RunDelegations(cfg, run, o.delegation, n);
  }

  // In every reachable state every reference is to a row that is there, and a
  // session, its attestation and its delegation are one agent's.
  lemma ReferencesHold(cfg: Config, run: seq<Step>, n: nat)
    requires n <= |run|
    ensures NoDanglingRows(At(cfg, run, n).db)
  {
    hide At, Next, SessionRefers;
    var db := At(cfg, run, n).db;
    Lifecycle.RunKeepsNames(cfg, run, n);
    RunKeepsDelegations(cfg, run, n);
    forall id | id in db.sessions ensures SessionRefers(db, db.sessions[id]) {
      SessionRefersToRows(cfg, run, n, id);
    }
    forall id | id in db.attestations ensures db.attestations[id].agentId in db.agents {
      AttestationRefers(cfg, run, n, id);
    }
  }

  lemma AttestationRefers(cfg: Config, run: seq<Step>, n: nat, a: Uuid)
    requires n <= |run| && a in At(cfg, run, n).db.attestations
    ensures At(cfg, run, n).db.attestations[a].agentId in At(cfg, run, n).db.agents
  {
    hide At, Next;
    var session := Replay.SessionsPairWithAttestations(cfg, run, n, a);
    SessionRefersToRows(cfg, run, n, session);
  }
}
