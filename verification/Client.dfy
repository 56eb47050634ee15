// packages/common/client.py: the SDK builds, signs and posts the claims.
module Client {
  import opened Text
  import opened Json
  import opened Attestation

  // The body of POST /v1/sessions.
  datatype SessionBody = SessionBody(
    agentId: string,
    actingUser: Option<string>,
    scopes: seq<string>,
    ttl: int,
    modelId: string,
    promptVersion: string,
    attestation: Dict)

  // The claims of a call without overrides.
  function OwnClaims(agentId: string, environment: string, modelId: string, promptVersion: string,
                     issuedAt: string, nonce: string): Dict {
    [Member("agent_id", Str(agentId)),
     Member("container_digest", Str("sha256:dev")),
     Member("git_commit", Str("dev")),
     Member("environment", Str(environment)),
     Member("host_id", Str("localhost")),
     Member("framework", Str("hermes")),
     Member("framework_version", Str("0.4.0")),
     Member("model", Str(modelId)),
     Member("prompt_version", Str(promptVersion)),
     Member("issued_at", Str(issuedAt)),
     Member("nonce", Str(nonce))]
  }

  class AgentIdentityClient {
    var privateKey: Option<Signer>

    constructor ()
      ensures privateKey.None?
    {
      privateKey := None;
    }

    // The key pair is made elsewhere; the client keeps the private half.
    method GenerateKeypair(signer: Signer) returns (publicKey: string)
      modifies this
      ensures privateKey == Some(signer) && publicKey == signer.publicKey
    {
      privateKey := Some(signer);
      return signer.publicKey;
    }

    // None is the ValueError of a client without a key.
    method CreateSession(agentId: string, actingUser: Option<string>, scopes: seq<string>, modelId: string,
                         promptVersion: string, environment: string, overrides: Dict, issuedAt: string, nonce: string)
      returns (body: Option<SessionBody>)
      ensures body.None? <==> privateKey.None?
      ensures body.Some? ==>
        var claims := Update(OwnClaims(agentId, environment, modelId, promptVersion, issuedAt, nonce), overrides);
        body.value == SessionBody(agentId, actingUser, scopes, 900, modelId, promptVersion,
                                  Signature(privateKey.value, claims))
    {
      if privateKey.None? { return None; }
      var claims := OwnClaims(agentId, environment, modelId, promptVersion, issuedAt, nonce);
      if overrides != [] {
        claims := Update(claims, overrides);
      }
      var signature := SignAttestation(privateKey.value, claims);
      var attestation := Set(claims, "signature", Str(signature));
      return Some(SessionBody(agentId, actingUser, scopes, 900, modelId, promptVersion, attestation));
    }
  }

  lemma {:induction false} FindIn(d: Dict, i: nat)
    requires i < |d| && forall j :: i < j < |d| ==> d[j].key != d[i].key
    ensures Get(d, d[i].key) == Some(d[i].value)
  {
    FindUnique(d, d[i].key, i);
  }

  lemma OwnClaimsLookup(agentId: string, environment: string, modelId: string, promptVersion: string,
                        issuedAt: string, nonce: string)
    ensures
      var d := OwnClaims(agentId, environment, modelId, promptVersion, issuedAt, nonce);
      && Get(d, "agent_id") == Some(Str(agentId))
      && Get(d, "issued_at") == Some(Str(issuedAt))
      && Get(d, "nonce") == Some(Str(nonce))
      && Get(d, "environment") == Some(Str(environment))
      && Get(d, "model") == Some(Str(modelId))
      && Get(d, "prompt_version") == Some(Str(promptVersion))
      && !Has(d, "signature")
      && forall c :: c in REQUIRED ==> Has(d, c)
  {
    var d := OwnClaims(agentId, environment, modelId, promptVersion, issuedAt, nonce);
    hide Find;
    FindIn(d, 0);
    FindIn(d, 3);
    FindIn(d, 7);
    FindIn(d, 8);
    FindIn(d, 9);
    FindIn(d, 10);
    forall i | 0 <= i < |REQUIRED| ensures Has(d, REQUIRED[i]) {
      assert d[i + 1].key == REQUIRED[i];
      FindIn(d, i + 1);
    }
  }

  // The claims that are the same for every call.
  lemma FixedClaims(agentId: string, environment: string, modelId: string, promptVersion: string, issuedAt: string,
                    nonce: string)
    ensures
      var d := OwnClaims(agentId, environment, modelId, promptVersion, issuedAt, nonce);
      && Get(d, "container_digest") == Some(Str("sha256:dev"))
      && Get(d, "git_commit") == Some(Str("dev"))
      && Get(d, "host_id") == Some(Str("localhost"))
      && Get(d, "framework") == Some(Str("hermes"))
      && Get(d, "framework_version") == Some(Str("0.4.0"))
  {
    var d := OwnClaims(agentId, environment, modelId, promptVersion, issuedAt, nonce);
    hide Find;
    FindIn(d, 1);
    FindIn(d, 2);
    FindIn(d, 4);
    FindIn(d, 5);
    FindIn(d, 6);
  }

  // A body built by the client, sent over the wire with its keys in any order,
  // is accepted by the service exactly when the caller's overrides bring no
  // "signature" and leave the agent id, a usable nonce and a time in range.
  lemma ClientIsAccepted(env: Env, signer: Signer, agentId: string, environment: string, modelId: string,
                         promptVersion: string, overrides: Dict, issuedAt: string, nonce: string,
                         received: Dict, now: int, seen: set<Value>)
    requires Correct(env, signer) && Binding(env, signer)
    ensures
      var claims := Update(OwnClaims(agentId, environment, modelId, promptVersion, issuedAt, nonce), overrides);
      var verdict := Verify(env, PoppedData(received), PoppedSignature(received), signer.publicKey, agentId, now, seen);
      SameDict(received, Signature(signer, claims)) ==>
        (verdict.outcome.Verified? <==>
           && !Has(overrides, "signature")
           && Get(claims, "agent_id") == Some(Str(agentId))
           && InTime(env, claims, now)
           && NonceOf(claims).Some? && NonceOf(claims).value !in seen)
  {
    hide Verify, Same, Find, OwnClaims, InTime, NonceOf, Signature, PoppedData, PoppedSignature, Update;
    var claims := Update(OwnClaims(agentId, environment, modelId, promptVersion, issuedAt, nonce), overrides);
    ClientClaims(agentId, environment, modelId, promptVersion, overrides, issuedAt, nonce);
    if SameDict(received, Signature(signer, claims)) {
      if Has(claims, "signature") {
        OwnSignatureClaimFails(env, signer, claims, received, agentId, now, seen);
      } else {
        EndpointRecovers(signer, claims, received);
        VerifySameDict(env, PoppedData(received), claims, PoppedSignature(received), signer.publicKey, agentId, now, seen);
        VerifyMeetsSpec(env, claims, PoppedSignature(received), signer.publicKey, agentId, now, seen);
      }
    }
  }

  // Overrides cannot remove a required claim, and only they bring a signature.
  lemma ClientClaims(agentId: string, environment: string, modelId: string, promptVersion: string, overrides: Dict,
                     issuedAt: string, nonce: string)
    ensures
      var claims := Update(OwnClaims(agentId, environment, modelId, promptVersion, issuedAt, nonce), overrides);
      && (forall c :: c in REQUIRED ==> Has(claims, c))
      && (Has(claims, "signature") <==> Has(overrides, "signature"))
  {
    hide Find, OwnClaims, Update;
    var own := OwnClaims(agentId, environment, modelId, promptVersion, issuedAt, nonce);
    var claims := Update(own, overrides);
    OwnClaimsLookup(agentId, environment, modelId, promptVersion, issuedAt, nonce);
    forall c ensures Has(claims, c) <==> Has(own, c) || Has(overrides, c) {
      UpdateGet(own, overrides, c);
      HasGet(claims, c);
      HasGet(own, c);
      HasGet(overrides, c);
    }
  }
}
