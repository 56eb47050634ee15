// Replay protection and the books that session creation keeps, over all runs.
module Replay {
  import opened Json
  import opened Attestation
  import opened ControlPlane

  // ---- steps that leave sessions alone ----

  ghost predicate SessionSideKept(s: State, s': State) {
    && s'.requests == s.requests && s'.tokens == s.tokens && s'.seen == s.seen
    && s'.db.attestations == s.db.attestations && s'.db.sessions == s.db.sessions
    && s.ids <= s'.ids && s.now <= s'.now
  }

  lemma AdministrativeFrame(cfg: Config, s: State, step: Step)
    requires Administrative(step)
    ensures SessionSideKept(s, Next(cfg, s, step))
  {
    hide Serve, ApplyChanges, BuildPrincipalUri;
  }

  // Steps of a creation that touch nothing but the requests, and what else
  // only drops some.
  predicate Quiet(step: Step) {
    || step.StepLoad? || step.StepReadBlueprint? || step.StepFlush? || step.StepReadDelegation? || step.StepCheck?
    || step.StepAbort? || step.StepRestart?
  }

  ghost predicate QuietKept(s: State, s': State) {
    s'.db == s.db && s'.tokens == s.tokens && s'.ids == s.ids && s'.now == s.now
  }

  lemma QuietFrame(cfg: Config, s: State, step: Step)
    requires Quiet(step)
    ensures QuietKept(s, Next(cfg, s, step))
  {
    hide Administer, Insertable, DelegationAllows, BlueprintOf, DelegationOf;
  }

  // ---- nonces ----

  ghost predicate NoncesDistinct(m: map<Uuid, AttestationRow>) {
    forall a, b :: a in m && b in m && a != b ==> m[a].nonce != m[b].nonce
  }

  ghost predicate HeldApart(requests: map<RequestId, Request>) {
    forall p, q :: p in requests && q in requests && p != q && Holds(requests[p]) && Holds(requests[q]) ==>
      requests[p].phase.row.nonce != requests[q].phase.row.nonce
  }

  ghost predicate HeldUncommitted(m: map<Uuid, AttestationRow>, requests: map<RequestId, Request>) {
    forall a, q :: a in m && q in requests && Holds(requests[q]) ==> m[a].nonce != requests[q].phase.row.nonce
  }

  // No nonce is in two places, whether committed or in an open transaction.
  ghost predicate NonceInv(s: State) {
    && NoncesDistinct(s.db.attestations)
    && HeldApart(s.requests)
    && HeldUncommitted(s.db.attestations, s.requests)
  }

  // Nothing new is committed or held.
  ghost predicate HeldShrinks(s: State, s': State) {
    && s'.db.attestations == s.db.attestations
    && forall q :: q in s'.requests && Holds(s'.requests[q]) ==>
         q in s.requests && Holds(s.requests[q]) && s'.requests[q].phase.row == s.requests[q].phase.row
  }

  lemma HeldShrinksStepOther(cfg: Config, s: State, step: Step)
    requires !Administrative(step)
    requires !step.StepFlush? && !step.StepCommit?
    ensures HeldShrinks(s, Next(cfg, s, step))
  {
    hide Administer, Verify, Insertable, DelegationAllows, MayStart, BlueprintOf, DelegationOf, BlueprintTag, RowFor,
         SessionTtl;
  }

  lemma HeldShrinksStep(cfg: Config, s: State, step: Step)
    requires !step.StepFlush? && !step.StepCommit?
    ensures HeldShrinks(s, Next(cfg, s, step))
  {
    hide Next;
    if Administrative(step) {
      AdministrativeFrame(cfg, s, step);
    } else {
      HeldShrinksStepOther(cfg, s, step);
    }
  }

  lemma NonceShrinks(s: State, s': State)
    requires NonceInv(s) && HeldShrinks(s, s')
    ensures NonceInv(s')
  {
  }

  lemma NonceFlush(s: State, id: RequestId)
    requires NonceInv(s)
    ensures NonceInv(Flush(s, id).state)
  {
    hide Insertable;
  }

  lemma NonceCommit(s: State, id: RequestId)
    requires NonceInv(s)
    ensures NonceInv(Commit(s, id).state)
  {
  }

  lemma NonceStep(cfg: Config, s: State, step: Step)
    requires NonceInv(s)
    ensures NonceInv(Next(cfg, s, step))
  {
    hide NonceInv, Flush, Commit;
    match step
    case StepFlush(id) => NonceFlush(s, id);
    case StepCommit(id) => NonceCommit(s, id);
    case _ =>
      HeldShrinksStep(cfg, s, step);
      NonceShrinks(s, Next(cfg, s, step));
  }

  // ---- identifiers ----

  predicate HasAttestation(r: Request) {
    !r.phase.Arrived? && !r.phase.Loaded?
  }

  predicate HasSession(r: Request) {
    r.phase.Granted? || r.phase.Issued?
  }

  ghost predicate KeysKnown(s: State) {
    && s.db.blueprints.Keys <= s.ids
    && s.db.agents.Keys <= s.ids
    && s.db.delegations.Keys <= s.ids
    && s.db.attestations.Keys <= s.ids
    && s.db.sessions.Keys <= s.ids
    && forall t :: t in s.tokens ==> t.jti in s.ids
  }

  // An attestation in flight is not committed and belongs to one request.
  ghost predicate AttestationsInFlight(s: State) {
    && (forall q :: q in s.requests && HasAttestation(s.requests[q]) ==>
          s.requests[q].phase.attestationId in s.ids && s.requests[q].phase.attestationId !in s.db.attestations)
    && (forall p, q | p in s.requests && q in s.requests && p != q
                      && HasAttestation(s.requests[p]) && HasAttestation(s.requests[q]) ::
          s.requests[p].phase.attestationId != s.requests[q].phase.attestationId)
  }

  // So is a session in flight, which points at its own attestation.
  ghost predicate SessionsInFlight(s: State) {
    && (forall q :: q in s.requests && HasSession(s.requests[q]) ==>
          && s.requests[q].phase.sessionId in s.ids && s.requests[q].phase.sessionId !in s.db.sessions
          && s.requests[q].phase.session.attestationId == s.requests[q].phase.attestationId)
    && (forall p, q | p in s.requests && q in s.requests && p != q
                      && HasSession(s.requests[p]) && HasSession(s.requests[q]) ::
          s.requests[p].phase.sessionId != s.requests[q].phase.sessionId)
  }

  ghost predicate IdInv(s: State) {
    KeysKnown(s) && AttestationsInFlight(s) && SessionsInFlight(s)
  }

  // The handlers that create sessions, and the rest.
  predicate Creates(step: Step) {
    || step.StepLoad? || step.StepReadBlueprint? || step.StepAttest? || step.StepFlush? || step.StepReadDelegation?
    || step.StepCheck? || step.StepGrant? || step.StepIssue? || step.StepCommit?
  }

  lemma KeysKnownAttest(cfg: Config, s: State, id: RequestId, attestationId: Uuid)
    requires IdInv(s)
    ensures KeysKnown(Attest(cfg, s, id, attestationId).state) && s.ids <= Attest(cfg, s, id, attestationId).state.ids
  {
    hide Verify, MayStart;
  }

  lemma KeysKnownGrant(cfg: Config, s: State, id: RequestId, sessionId: Uuid, traceId: string)
    requires IdInv(s)
    ensures KeysKnown(Grant(cfg, s, id, sessionId, traceId).state)
    ensures s.ids <= Grant(cfg, s, id, sessionId, traceId).state.ids
  {
    hide DelegationAllows;
  }

  lemma KeysKnownCommit(s: State, id: RequestId)
    requires IdInv(s)
    ensures KeysKnown(Commit(s, id).state) && s.ids <= Commit(s, id).state.ids
  {
  }

  lemma KeysKnownCreates(cfg: Config, s: State, step: Step)
    requires Creates(step) && IdInv(s)
    ensures KeysKnown(Next(cfg, s, step)) && s.ids <= Next(cfg, s, step).ids
  {
    hide Administer, Attest, Grant, Commit, Insertable, DelegationAllows;
    if Quiet(step) {
      hide Next;
      QuietFrame(cfg, s, step);
    } else {
      match step
      case StepAttest(id, attestationId) => KeysKnownAttest(cfg, s, id, attestationId);
      case StepGrant(id, sessionId, traceId) => KeysKnownGrant(cfg, s, id, sessionId, traceId);
      case StepIssue(id) =>
      case StepCommit(id) => KeysKnownCommit(s, id);
    }
  }

  lemma KeysKnownOther(cfg: Config, s: State, step: Step)
    requires !Creates(step) && KeysKnown(s)
    ensures KeysKnown(Next(cfg, s, step)) && s.ids <= Next(cfg, s, step).ids
  {
    hide ApplyChanges, BuildPrincipalUri;
  }

  lemma KeysKnownStep(cfg: Config, s: State, step: Step)
    requires IdInv(s)
    ensures KeysKnown(Next(cfg, s, step)) && s.ids <= Next(cfg, s, step).ids
  {
    hide Next;
    if Creates(step) { KeysKnownCreates(cfg, s, step); } else { KeysKnownOther(cfg, s, step); }
  }

  ghost predicate AttestationsShrink(s: State, s': State) {
    && s'.db.attestations == s.db.attestations && s.ids <= s'.ids
    && forall q :: q in s'.requests && HasAttestation(s'.requests[q]) ==>
         && q in s.requests && HasAttestation(s.requests[q])
         && s'.requests[q].phase.attestationId == s.requests[q].phase.attestationId
  }

  lemma AttestationsShrinkStepOther(cfg: Config, s: State, step: Step)
    requires !Administrative(step)
    requires !step.StepAttest? && !step.StepCommit?
    ensures AttestationsShrink(s, Next(cfg, s, step))
  {
    hide Administer, Verify, Insertable, DelegationAllows, MayStart, BlueprintOf, DelegationOf, BlueprintTag, RowFor,
         NewSession, IssueToken;
  }

  lemma AttestationsShrinkStep(cfg: Config, s: State, step: Step)
    requires !step.StepAttest? && !step.StepCommit?
    ensures AttestationsShrink(s, Next(cfg, s, step))
  {
    hide Next;
    if Administrative(step) {
      AdministrativeFrame(cfg, s, step);
    } else {
      AttestationsShrinkStepOther(cfg, s, step);
    }
  }

  lemma AttestationsInFlightShrink(s: State, s': State)
    requires AttestationsInFlight(s) && AttestationsShrink(s, s')
    ensures AttestationsInFlight(s')
  {
  }

  lemma AttestationsInFlightAttest(cfg: Config, s: State, id: RequestId, attestationId: Uuid)
    requires IdInv(s)
    ensures AttestationsInFlight(Attest(cfg, s, id, attestationId).state)
  {
    hide Verify, MayStart;
  }

  lemma AttestationsInFlightCommit(s: State, id: RequestId)
    requires IdInv(s)
    ensures AttestationsInFlight(Commit(s, id).state)
  {
  }

  lemma AttestationsInFlightStep(cfg: Config, s: State, step: Step)
    requires IdInv(s)
    ensures AttestationsInFlight(Next(cfg, s, step))
  {
    hide Commit, Attest;
    match step
    case StepAttest(id, attestationId) => AttestationsInFlightAttest(cfg, s, id, attestationId);
    case StepCommit(id) => AttestationsInFlightCommit(s, id);
    case _ =>
      AttestationsShrinkStep(cfg, s, step);
      AttestationsInFlightShrink(s, Next(cfg, s, step));
  }

  // Nothing new is in flight or committed.
  ghost predicate SessionsShrink(s: State, s': State) {
    && s'.db.sessions.Keys == s.db.sessions.Keys && s.ids <= s'.ids
    && forall q :: q in s'.requests && HasSession(s'.requests[q]) ==>
         && q in s.requests && HasSession(s.requests[q])
         && s'.requests[q].phase.sessionId == s.requests[q].phase.sessionId
         && s'.requests[q].phase.session == s.requests[q].phase.session
         && s'.requests[q].phase.attestationId == s.requests[q].phase.attestationId
  }

  lemma SessionsShrinkStepOther(cfg: Config, s: State, step: Step)
    requires !Administrative(step)
    requires !step.StepGrant? && !step.StepCommit?
    ensures SessionsShrink(s, Next(cfg, s, step))
  {
    hide Administer, Verify, Insertable, DelegationAllows, MayStart, BlueprintOf, DelegationOf, BlueprintTag, RowFor,
         SessionTtl;
  }

  lemma SessionsShrinkStep(cfg: Config, s: State, step: Step)
    requires !step.StepGrant? && !step.StepCommit?
    ensures SessionsShrink(s, Next(cfg, s, step))
  {
    hide Next;
    if Administrative(step) {
      AdministrativeFrame(cfg, s, step);
    } else {
      SessionsShrinkStepOther(cfg, s, step);
    }
  }

  lemma SessionsInFlightGrant(cfg: Config, s: State, id: RequestId, sessionId: Uuid, traceId: string)
    requires IdInv(s)
    ensures SessionsInFlight(Grant(cfg, s, id, sessionId, traceId).state)
  {
    hide DelegationAllows;
  }

  lemma SessionsInFlightCommit(s: State, id: RequestId)
    requires IdInv(s)
    ensures SessionsInFlight(Commit(s, id).state)
  {
  }

  lemma SessionsInFlightStep(cfg: Config, s: State, step: Step)
    requires IdInv(s)
    ensures SessionsInFlight(Next(cfg, s, step))
  {
    hide Commit, Grant;
    match step
    case StepGrant(id, sessionId, traceId) => SessionsInFlightGrant(cfg, s, id, sessionId, traceId);
    case StepCommit(id) => SessionsInFlightCommit(s, id);
    case _ =>
      SessionsShrinkStep(cfg, s, step);
      SessionsInFlightShrink(s, Next(cfg, s, step));
  }

  lemma SessionsInFlightShrink(s: State, s': State)
    requires SessionsInFlight(s) && SessionsShrink(s, s')
    ensures SessionsInFlight(s')
  {
  }

  // ---- sessions and attestations pair up ----

  ghost predicate Paired(db: Tables) {
    && (forall id :: id in db.sessions ==> db.sessions[id].attestationId in db.attestations)
    && (forall i, j :: i in db.sessions && j in db.sessions && i != j ==>
          db.sessions[i].attestationId != db.sessions[j].attestationId)
    && (forall a :: a in db.attestations ==> exists id :: id in db.sessions && db.sessions[id].attestationId == a)
  }

  // No handler but the commit of a new session inserts into the two tables;
  // only a revocation changes a session.
  ghost predicate TablesKept(s: State, s': State) {
    && s'.db.attestations == s.db.attestations
    && s'.db.sessions.Keys == s.db.sessions.Keys
    && forall id :: id in s.db.sessions ==>
         s'.db.sessions[id] == s.db.sessions[id].(revokedAt := s'.db.sessions[id].revokedAt)
  }

  lemma OnlyCommitInsertsOther(cfg: Config, s: State, step: Step)
    requires !Administrative(step)
    requires !step.StepCommit?
    ensures TablesKept(s, Next(cfg, s, step))
    ensures !step.StepRevokeSession? ==> Next(cfg, s, step).db.sessions == s.db.sessions
  {
    if Quiet(step) {
      hide Next;
      QuietFrame(cfg, s, step);
    } else {
      hide Administer, Verify, Insertable, DelegationAllows, MayStart, BlueprintOf, DelegationOf, BlueprintTag, RowFor,
         SessionTtl;
    }
  }

  lemma OnlyCommitInserts(cfg: Config, s: State, step: Step)
    requires !step.StepCommit?
    ensures TablesKept(s, Next(cfg, s, step))
    ensures !step.StepRevokeSession? ==> Next(cfg, s, step).db.sessions == s.db.sessions
  {
    hide Next;
    if Administrative(step) {
      AdministrativeFrame(cfg, s, step);
    } else {
      OnlyCommitInsertsOther(cfg, s, step);
    }
  }

  // A session creation that is refused, fails or is rolled back leaves every
  // table as it was; one that commits adds one attestation and one session.
  lemma CreationIsAtomic(cfg: Config, s: State, step: Step)
    requires Creates(step) || step.StepAbort?
    requires IdInv(s)
    ensures
      var s' := Next(cfg, s, step);
      || s'.db == s.db
      || (&& step.StepCommit? && step.request in s.requests
          && var p := s.requests[step.request].phase;
             && p.Issued?
             && p.attestationId !in s.db.attestations && p.sessionId !in s.db.sessions
             && s'.db == s.db.(attestations := s.db.attestations[p.attestationId := p.row],
                               sessions := s.db.sessions[p.sessionId := p.session])
             && p.session.attestationId == p.attestationId)
  {
    if Quiet(step) {
      hide Next;
      QuietFrame(cfg, s, step);
    } else {
      hide Administer, Verify, MayStart, NewSession, IssueToken, KeysKnown;
    }
  }

  lemma PairedKept(s: State, s': State)
    requires Paired(s.db) && TablesKept(s, s')
    ensures Paired(s'.db)
  {
    forall a | a in s'.db.attestations
      ensures exists id :: id in s'.db.sessions && s'.db.sessions[id].attestationId == a
    {
      var id :| id in s.db.sessions && s.db.sessions[id].attestationId == a;
      assert s'.db.sessions[id].attestationId == a;
    }
  }

  lemma PairedInsert(db: Tables, a: Uuid, row: AttestationRow, id: Uuid, session: Session)
    requires Paired(db) && a !in db.attestations && id !in db.sessions && session.attestationId == a
    ensures Paired(db.(attestations := db.attestations[a := row], sessions := db.sessions[id := session]))
  {
    var db' := db.(attestations := db.attestations[a := row], sessions := db.sessions[id := session]);
    forall b | b in db'.attestations
      ensures exists i :: i in db'.sessions && db'.sessions[i].attestationId == b
    {
      if b == a {
        assert db'.sessions[id].attestationId == b;
      } else {
        var i :| i in db.sessions && db.sessions[i].attestationId == b;
        assert db'.sessions[i].attestationId == b;
      }
    }
  }

  lemma PairedCommit(s: State, id: RequestId)
    requires IdInv(s) && Paired(s.db)
    ensures Paired(Commit(s, id).state.db)
  {
    hide Paired, KeysKnown;
    if id in s.requests && s.requests[id].phase.Issued? {
      var p := s.requests[id].phase;
      PairedInsert(s.db, p.attestationId, p.row, p.sessionId, p.session);
    }
  }

  lemma PairedStep(cfg: Config, s: State, step: Step)
    requires IdInv(s) && Paired(s.db)
    ensures Paired(Next(cfg, s, step).db)
  {
    hide Commit, Paired;
    match step
    case StepCommit(id) => PairedCommit(s, id);
    case _ =>
      OnlyCommitInserts(cfg, s, step);
      PairedKept(s, Next(cfg, s, step));
  }

  // ---- tokens agree with the sessions they name ----

  predicate Matches(t: Token, session: Session) {
    && t.agentId == session.agentId
    && t.actingUser == session.actingUser
    && t.delegationId == session.delegationId
    && t.scopes == session.effectiveScopes == session.requestedScopes
    && t.traceId == session.traceId
    && t.exp == TruncSeconds(session.expiresAt)
    && session.issuedAt / SECOND <= t.iat
  }

  ghost predicate TokenInv(s: State) {
    && (forall t :: t in s.tokens && t.jti in s.db.sessions ==> Matches(t, s.db.sessions[t.jti]))
    && (forall t, q | t in s.tokens && q in s.requests && s.requests[q].phase.Issued?
                      && s.requests[q].phase.sessionId == t.jti :: Matches(t, s.requests[q].phase.session))
    && (forall t, q :: t in s.tokens && q in s.requests && s.requests[q].phase.Granted? ==>
          s.requests[q].phase.sessionId != t.jti)
    && (forall t :: t in s.tokens ==> t.iat * SECOND <= s.now)
  }

  // What a session object is from the moment it is built.
  ghost predicate SessionOk(session: Session, now: int) {
    0 <= session.issuedAt <= now && session.effectiveScopes == session.requestedScopes
  }

  ghost predicate SessionInv(s: State) {
    && (forall id :: id in s.db.sessions ==> SessionOk(s.db.sessions[id], s.now))
    && (forall q :: q in s.requests && HasSession(s.requests[q]) ==> SessionOk(s.requests[q].phase.session, s.now))
  }

  lemma SessionStepOther(cfg: Config, s: State, step: Step)
    requires !Administrative(step)
    requires SessionInv(s)
    ensures SessionInv(Next(cfg, s, step))
  {
    hide Administer, Verify, Insertable, DelegationAllows, MayStart, BlueprintOf, DelegationOf, BlueprintTag, RowFor,
         SessionTtl;
  }

  lemma SessionStep(cfg: Config, s: State, step: Step)
    requires SessionInv(s)
    ensures SessionInv(Next(cfg, s, step))
  {
    hide Next;
    if Administrative(step) {
      AdministrativeFrame(cfg, s, step);
    } else {
      SessionStepOther(cfg, s, step);
    }
  }

  lemma TokenIssue(s: State, id: RequestId)
    requires IdInv(s) && SessionInv(s) && TokenInv(s)
    ensures TokenInv(Issue(s, id).state)
  {
  }

  lemma TokenGrant(cfg: Config, s: State, id: RequestId, sessionId: Uuid, traceId: string)
    requires IdInv(s) && TokenInv(s)
    ensures TokenInv(Grant(cfg, s, id, sessionId, traceId).state)
  {
    hide DelegationAllows;
  }

  lemma TokenCommit(s: State, id: RequestId)
    requires IdInv(s) && TokenInv(s)
    ensures TokenInv(Commit(s, id).state)
  {
  }

  lemma TokensKeptOther(cfg: Config, s: State, step: Step)
    requires !Administrative(step)
    requires !step.StepIssue?
    ensures Next(cfg, s, step).tokens == s.tokens && Next(cfg, s, step).now >= s.now
  {
    if Quiet(step) {
      hide Next;
      QuietFrame(cfg, s, step);
    } else {
      hide Administer, Verify, Insertable, DelegationAllows, MayStart, BlueprintOf, DelegationOf, BlueprintTag, RowFor,
         SessionTtl;
    }
  }

  lemma TokensKept(cfg: Config, s: State, step: Step)
    requires !step.StepIssue?
    ensures Next(cfg, s, step).tokens == s.tokens && Next(cfg, s, step).now >= s.now
  {
    hide Next;
    if Administrative(step) {
      AdministrativeFrame(cfg, s, step);
    } else {
      TokensKeptOther(cfg, s, step);
    }
  }

  // No request reaches Granted or Issued.
  ghost predicate NoneAdvances(s: State, s': State) {
    forall q :: q in s'.requests && HasSession(s'.requests[q]) ==>
      q in s.requests && s'.requests[q].phase == s.requests[q].phase
  }

  lemma NoneAdvancesStepOther(cfg: Config, s: State, step: Step)
    requires !Administrative(step)
    requires !step.StepIssue? && !step.StepGrant?
    ensures NoneAdvances(s, Next(cfg, s, step))
  {
    hide Administer, Verify, Insertable, DelegationAllows, MayStart, BlueprintOf, DelegationOf, BlueprintTag, RowFor,
         SessionTtl;
  }

  lemma NoneAdvancesStep(cfg: Config, s: State, step: Step)
    requires !step.StepIssue? && !step.StepGrant?
    ensures NoneAdvances(s, Next(cfg, s, step))
  {
    hide Next;
    if Administrative(step) {
      AdministrativeFrame(cfg, s, step);
    } else {
      NoneAdvancesStepOther(cfg, s, step);
    }
  }

  lemma TokenKept(s: State, s': State)
    requires TokenInv(s) && s'.tokens == s.tokens && s'.now >= s.now
    requires TablesKept(s, s') && NoneAdvances(s, s')
    ensures TokenInv(s')
  {
  }

  lemma TokenStep(cfg: Config, s: State, step: Step)
    requires IdInv(s) && SessionInv(s) && TokenInv(s)
    ensures TokenInv(Next(cfg, s, step))
  {
    hide TokenInv, Issue, Grant, Commit;
    match step
    case StepIssue(id) => TokenIssue(s, id);
    case StepGrant(id, sessionId, traceId) => TokenGrant(cfg, s, id, sessionId, traceId);
    case StepCommit(id) => TokenCommit(s, id);
    case _ =>
      OnlyCommitInserts(cfg, s, step);
      TokensKept(cfg, s, step);
      NoneAdvancesStep(cfg, s, step);
      TokenKept(s, Next(cfg, s, step));
  }

  // ---- all of it, over every run ----

  ghost predicate Inv(s: State) {
    NonceInv(s) && IdInv(s) && Paired(s.db) && SessionInv(s) && TokenInv(s)
  }

  lemma {:induction false} RunKeepsInv(cfg: Config, run: seq<Step>, n: nat)
    requires n <= |run|
    ensures Inv(At(cfg, run, n))
  {
    hide Next;
    if n > 0 {
      var s := At(cfg, run, n - 1);
      RunKeepsInv(cfg, run, n - 1);
      NonceStep(cfg, s, run[n - 1]);
      KeysKnownStep(cfg, s, run[n - 1]);
      AttestationsInFlightStep(cfg, s, run[n - 1]);
      SessionsInFlightStep(cfg, s, run[n - 1]);
      PairedStep(cfg, s, run[n - 1]);
      SessionStep(cfg, s, run[n - 1]);
      TokenStep(cfg, s, run[n - 1]);
    }
  }

  // No nonce is used twice, over all runs with any number of processes,
  // interleavings, failures and restarts (which empty NONCE_SEEN).
  lemma NonceUsedOnce(cfg: Config, run: seq<Step>, n: nat, a: Uuid, b: Uuid)
    requires n <= |run|
    requires a in At(cfg, run, n).db.attestations && b in At(cfg, run, n).db.attestations
    ensures
      var attestations := At(cfg, run, n).db.attestations;
      attestations[a].nonce == attestations[b].nonce ==> a == b
  {
    RunKeepsInv(cfg, run, n);
  }

  // Committed sessions and committed attestations are in bijection.
  lemma SessionsPairWithAttestations(cfg: Config, run: seq<Step>, n: nat, a: Uuid) returns (session: Uuid)
    requires n <= |run| && a in At(cfg, run, n).db.attestations
    ensures
      var db := At(cfg, run, n).db;
      && session in db.sessions && db.sessions[session].attestationId == a
      && (forall other :: other in db.sessions && db.sessions[other].attestationId == a ==> other == session)
      && (forall id :: id in db.sessions ==> db.sessions[id].attestationId in db.attestations)
  {
    RunKeepsInv(cfg, run, n);
    hide At, Next;
    session :| session in At(cfg, run, n).db.sessions && At(cfg, run, n).db.sessions[session].attestationId == a;
  }

  // ---- what a process has seen ----

  // Step k brings the nonce to the lookup of process p.
  ghost predicate ReachesLookup(cfg: Config, run: seq<Step>, k: nat, p: Process, nonce: Value) {
    && k < |run| && run[k].StepAttest?
    && var s, q := At(cfg, run, k), run[k].request;
       && q in s.requests && s.requests[q].phase.Loaded? && run[k].attestationId !in s.ids
       && var r := s.requests[q];
          && r.process == p && MayStart(r)
          && Reaches(cfg.env, CallOf(s, r), nonce)
  }

  function CallOf(s: State, r: Request): Call
    requires MayStart(r)
  {
    Call(PoppedData(r.params.attestation), PoppedSignature(r.params.attestation), r.agent.value.publicKey.value,
         r.params.agentId, s.now)
  }

  lemma SeenFrame(cfg: Config, s: State, step: Step, p: Process)
    requires !step.StepAttest? && !step.StepRestart?
    ensures SeenBy(Next(cfg, s, step), p) == SeenBy(s, p)
  {
    if Administrative(step) {
      hide Next;
      AdministrativeFrame(cfg, s, step);
    } else {
      hide Administer, Insertable, DelegationAllows, NewSession, IssueToken, BlueprintOf, DelegationOf;
    }
  }

  lemma SeenRestart(cfg: Config, s: State, p: Process, other: Process)
    ensures SeenBy(Next(cfg, s, StepRestart(other)), p) == if p == other then {} else SeenBy(s, p)
  {
    hide Administer;
  }

  lemma SeenAttest(cfg: Config, s: State, q: RequestId, attestationId: Uuid, p: Process, nonce: Value)
    ensures
      var seen := SeenBy(Attest(cfg, s, q, attestationId).state, p);
      nonce in seen <==>
        || nonce in SeenBy(s, p)
        || (&& q in s.requests && s.requests[q].phase.Loaded? && attestationId !in s.ids
            && s.requests[q].process == p && MayStart(s.requests[q])
            && Reaches(cfg.env, CallOf(s, s.requests[q]), nonce))
  {
    hide Verify, InTime, NonceOf, Signed, MayStart;
    if q in s.requests && MayStart(s.requests[q]) {
      var r := s.requests[q];
      var c := CallOf(s, r);
      VerifyMeetsSpec(cfg.env, c.data, c.signature, c.publicKey, c.agentId, c.now, SeenBy(s, r.process));
    }
  }

  // What a process has seen is exactly the nonces that were brought to its
  // lookup since it was last started, accepted or not.
  lemma {:induction false} SeenSinceRestart(cfg: Config, run: seq<Step>, n: nat, p: Process, nonce: Value)
    requires n <= |run|
    ensures nonce in SeenBy(At(cfg, run, n), p) <==>
      exists k: nat :: k < n && ReachesLookup(cfg, run, k, p, nonce) && forall x :: k < x < n ==> run[x] != StepRestart(p)
  {
    hide Next, ReachesLookup, SeenBy;
    if n > 0 {
      var s, step := At(cfg, run, n - 1), run[n - 1];
      SeenSinceRestart(cfg, run, n - 1, p, nonce);
      SeenStep(cfg, run, n - 1, p, nonce);
    } else {
      assert SeenBy(EMPTY, p) == {} by { NothingSeen(p); }
    }
  }

  lemma NothingSeen(p: Process)
    ensures SeenBy(EMPTY, p) == {}
  {
  }

  lemma SeenStep(cfg: Config, run: seq<Step>, n: nat, p: Process, nonce: Value)
    requires n < |run|
    ensures nonce in SeenBy(Next(cfg, At(cfg, run, n), run[n]), p) <==>
      ReachesLookup(cfg, run, n, p, nonce) || (run[n] != StepRestart(p) && nonce in SeenBy(At(cfg, run, n), p))
  {
    hide At, SeenBy;
    var s := At(cfg, run, n);
    match run[n]
    case StepAttest(q, attestationId) =>
      SeenAttest(cfg, s, q, attestationId, p, nonce);
      assert Next(cfg, s, run[n]) == Attest(cfg, s, q, attestationId).state by { hide Administer, Attest; }
      hide Next, Attest, MayStart, Reaches;
    case StepRestart(other) =>
      hide Next;
      SeenRestart(cfg, s, p, other);
    case _ =>
      hide Next;
      SeenFrame(cfg, s, run[n], p);
  }
}
