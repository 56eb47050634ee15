// From the client's call to the committed session: what the client posts, put
// against what create_session asks for.
module EndToEnd {
  import opened Text
  import opened Json
  import opened Attestation
  import opened ControlPlane
  import opened Creation
  import opened Client

  predicate Accepts(env: Env, key: string, text: string, signature: string) {
    env.load(key) == Rsa && env.verify(key, text, signature)
  }

  // A registered key accepts exactly what this signer signed, and only if it
  // is the signer's own.
  ghost predicate Ideal(env: Env, signer: Signer) {
    forall key, text, other ::
      Accepts(env, key, text, signer.sign(other)) <==> key == signer.publicKey && text == other
  }

  lemma IdealIsCorrect(env: Env, signer: Signer)
    requires Ideal(env, signer)
    ensures Correct(env, signer) && Binding(env, signer)
  {
    assert Accepts(env, signer.publicKey, "", signer.sign(""));
    forall text ensures env.verify(signer.publicKey, text, signer.sign(text)) {
      assert Accepts(env, signer.publicKey, text, signer.sign(text));
    }
    forall text, other | env.verify(signer.publicKey, text, signer.sign(other)) ensures text == other {
      assert Accepts(env, signer.publicKey, text, signer.sign(other));
    }
  }

  // The request that the service receives for a call without overrides.
  function Posted(agentId: Uuid, actingUser: Option<string>, delegationId: Option<Uuid>, scopes: seq<string>,
                  received: Dict): Params {
    Params(agentId, actingUser, delegationId, scopes, 900, received)
  }

  // A claim that is a string arrives as that string.
  lemma StringClaim(d: Dict, e: Dict, key: string, s: string)
    requires SameDict(d, e) && Get(e, key) == Some(Str(s))
    ensures Get(d, key) == Some(Str(s))
  {
    SameLookup(d, e, key);
  }

  lemma OwnClaimsAreStrings(agentId: string, environment: string, modelId: string, promptVersion: string,
                            issuedAt: string, nonce: string)
    ensures
      var d := OwnClaims(agentId, environment, modelId, promptVersion, issuedAt, nonce);
      && Get(d, "environment") == Some(Str(environment))
      && forall c :: c in REQUIRED ==> Get(d, c).Some? && Get(d, c).value.Str?
  {
    var d := OwnClaims(agentId, environment, modelId, promptVersion, issuedAt, nonce);
    hide Find;
    FindIn(d, 3);
    forall i | 0 <= i < |REQUIRED| ensures Get(d, REQUIRED[i]).Some? && Get(d, REQUIRED[i]).value.Str? {
      assert d[i + 1].key == REQUIRED[i];
      FindIn(d, i + 1);
    }
  }

  lemma ReceivedRow(params: Params, agentId: string, environment: string, modelId: string, promptVersion: string,
                    issuedAt: string, nonce: string)
    requires SameDict(PoppedData(params.attestation),
                      OwnClaims(agentId, environment, modelId, promptVersion, issuedAt, nonce))
    ensures Insertable(PoppedData(params.attestation))
    ensures RowFor(params) == AttestationRow(params.agentId, environment, nonce)
  {
    hide Same, OwnClaims, PoppedData, Find;
    var data := PoppedData(params.attestation);
    var own := OwnClaims(agentId, environment, modelId, promptVersion, issuedAt, nonce);
    OwnClaimsLookup(agentId, environment, modelId, promptVersion, issuedAt, nonce);
    OwnClaimsAreStrings(agentId, environment, modelId, promptVersion, issuedAt, nonce);
    StringClaim(data, own, "nonce", nonce);
    StringClaim(data, own, "environment", environment);
    forall c | c in REQUIRED ensures Get(data, c).Some? && Get(data, c).value.Str? {
      StringClaim(data, own, c, Get(own, c).value.s);
    }
  }

  predicate Punctual(env: Env, issuedAt: string, now: int) {
    && issuedAt != "" && env.parse(issuedAt).Aware?
    && -MAX_SKEW_MICROS <= now - env.parse(issuedAt).micros <= MAX_SKEW_MICROS
  }

  lemma OwnClaimsInTime(env: Env, agentId: string, environment: string, modelId: string, promptVersion: string,
                        issuedAt: string, nonce: string, now: int)
    ensures
      var own := OwnClaims(agentId, environment, modelId, promptVersion, issuedAt, nonce);
      && (InTime(env, own, now) <==> Punctual(env, issuedAt, now))
      && NonceOf(own) == if nonce == "" then None else Some(Str(nonce))
  {
    OwnClaimsLookup(agentId, environment, modelId, promptVersion, issuedAt, nonce);
    hide OwnClaims, Get;
  }

  // The verifier on the client's own claims, under whatever key is registered.
  lemma ClientIsVerified(env: Env, signer: Signer, key: string, agentId: string, environment: string, modelId: string,
                         promptVersion: string, issuedAt: string, nonce: string, received: Dict, now: int,
                         seen: set<Value>)
    requires Ideal(env, signer)
    requires SameDict(received, Signature(signer, OwnClaims(agentId, environment, modelId, promptVersion, issuedAt, nonce)))
    ensures SameDict(PoppedData(received), OwnClaims(agentId, environment, modelId, promptVersion, issuedAt, nonce))
    ensures Verify(env, PoppedData(received), PoppedSignature(received), key, agentId, now, seen).outcome.Verified? <==>
      key == signer.publicKey && Punctual(env, issuedAt, now) && nonce != "" && Str(nonce) !in seen
  {
    hide Verify, Same, OwnClaims, InTime, NonceOf, Signature, PoppedData, PoppedSignature, Get, Find;
    var own := OwnClaims(agentId, environment, modelId, promptVersion, issuedAt, nonce);
    OwnClaimsLookup(agentId, environment, modelId, promptVersion, issuedAt, nonce);
    OwnClaimsInTime(env, agentId, environment, modelId, promptVersion, issuedAt, nonce, now);
    EndpointRecovers(signer, own, received);
    VerifySameDict(env, PoppedData(received), own, PoppedSignature(received), key, agentId, now, seen);
    VerifyMeetsSpec(env, own, PoppedSignature(received), key, agentId, now, seen);
    var text := Canonical(Obj(own), Spaced);
    assert Accepts(env, key, text, signer.sign(text)) <==> key == signer.publicKey;
  }

  // What the client posts without overrides, sent over the wire with its keys
  // in any order, meets everything create_session asks for exactly if the agent
  // and its blueprint are active, the key registered is the client's, the time
  // is in range, the nonce is new to this process and to the database, and the
  // delegation, if one is named, is good.
  lemma ClientIsCreatable(cfg: Config, s: State, p: Process, signer: Signer, agentId: Uuid, actingUser: Option<string>,
                          delegationId: Option<Uuid>, scopes: seq<string>, environment: string, modelId: string,
                          promptVersion: string, issuedAt: string, nonce: string, received: Dict)
    requires Ideal(cfg.env, signer)
    ensures
      var params := Posted(agentId, actingUser, delegationId, scopes, received);
      SameDict(received, Signature(signer, OwnClaims(agentId, environment, modelId, promptVersion, issuedAt, nonce))) ==>
        (Creatable(cfg, s, p, params) <==>
           && agentId in s.db.agents && s.db.agents[agentId].status.Active?
           && s.db.agents[agentId].publicKey == Some(signer.publicKey) && signer.publicKey != ""
           && s.db.agents[agentId].blueprintId in s.db.blueprints
           && s.db.blueprints[s.db.agents[agentId].blueprintId].status.BlueprintActive?
           && Punctual(cfg.env, issuedAt, s.now)
           && nonce != "" && Str(nonce) !in SeenBy(s, p) && NonceFree(s, nonce)
           && DelegationGood(s, params))
  {
    hide Verify, Same, OwnClaims, Signature, PoppedData, PoppedSignature, Insertable, RowFor, NonceFree, SeenBy, Punctual,
         DelegationGood;
    if SameDict(received, Signature(signer, OwnClaims(agentId, environment, modelId, promptVersion, issuedAt, nonce))) {
      var params := Posted(agentId, actingUser, delegationId, scopes, received);
      var key :=
        if agentId in s.db.agents && s.db.agents[agentId].publicKey.Some? then s.db.agents[agentId].publicKey.value else "";
      ClientIsVerified(cfg.env, signer, key, agentId, environment, modelId, promptVersion, issuedAt, nonce, received,
                       s.now, SeenBy(s, p));
      ReceivedRow(params, agentId, environment, modelId, promptVersion, issuedAt, nonce);
    }
  }
}
