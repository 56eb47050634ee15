// packages/attestation/verifier.py: signed runtime claims and the nonces seen
// by one process.
module Attestation {
  import opened Text
  import opened Json
  import opened JsonParser

  // ---- foreign code, as parameters ----

  datatype KeyKind = BadPem | NotRsa | Rsa
  datatype ParsedTime = Invalid | Naive | Aware(micros: int)

  // `verify(pub, text, sig)` is RSA verification of a hex signature; `parse`
  // is `fromisoformat` after "Z" has been replaced.
  datatype Env = Env(
    load: string -> KeyKind,
    verify: (string, string, string) -> bool,
    parse: string -> ParsedTime)

  datatype Signer = Signer(publicKey: string, sign: string -> string)

  // What the signer signs, the verifier accepts.
  ghost predicate Correct(env: Env, signer: Signer) {
    env.load(signer.publicKey) == Rsa && forall text :: env.verify(signer.publicKey, text, signer.sign(text))
  }

  // A signature of one text is no signature of another.
  ghost predicate Binding(env: Env, signer: Signer) {
    forall text, other :: env.verify(signer.publicKey, text, signer.sign(other)) ==> text == other
  }

  // ---- the verifier as a function ----

  const MAX_SKEW_MICROS := 300_000_000

  const REQUIRED: seq<string> := ["container_digest", "git_commit", "environment", "host_id",
                                  "framework", "framework_version", "model", "prompt_version"]

  datatype Rejection =
    | UnsupportedKey | BadSignature | MissingIssuedAt | InvalidIssuedAt | SkewTooLarge
    | MissingNonce | NonceAlreadySeen | AgentMismatch | MissingClaims(claims: seq<string>)

  // Raised stands for an exception that verify does not catch.
  datatype Outcome = Verified | Rejected(reason: Rejection) | Raised

  // Python's truth value of a JSON value.
  predicate Truthy(v: Value) {
    match v
    case Null => false
    case Bool(b) => b
    case Int(i) => i != 0
    case Str(s) => s != ""
    case Arr(xs) => xs != []
    case Obj(d) => d != []
  }

  // True and 1 are one element of a Python set.
  function NonceKey(v: Value): Value {
    if v == Bool(true) then Int(1) else v
  }

  datatype Stage = Stop(outcome: Outcome) | Reach(nonce: Value)

  function CheckSignature(env: Env, data: Dict, signature: Value, publicKey: string): Option<Outcome> {
    match env.load(publicKey)
    case BadPem => Some(Rejected(BadSignature))
    case NotRsa => Some(Rejected(UnsupportedKey))
    case Rsa =>
      if !signature.Str? then Some(Raised)
      else if env.verify(publicKey, Canonical(Obj(data), Spaced), signature.s) then None
      else Some(Rejected(BadSignature))
  }

  function CheckTime(env: Env, data: Dict, now: int): Option<Outcome> {
    var issuedAt := Get(data, "issued_at");
    if issuedAt.None? || !Truthy(issuedAt.value) then Some(Rejected(MissingIssuedAt))
    else if !issuedAt.value.Str? then Some(Raised)
    else
      match env.parse(issuedAt.value.s)
      case Invalid => Some(Rejected(InvalidIssuedAt))
      case Naive => Some(Raised)
      case Aware(t) =>
        if now - t > MAX_SKEW_MICROS || t - now > MAX_SKEW_MICROS then Some(Rejected(SkewTooLarge)) else None
  }

  // Everything in front of the nonce lookup.
  function ToNonce(env: Env, data: Dict, signature: Value, publicKey: string, now: int): Stage {
    var badSignature := CheckSignature(env, data, signature, publicKey);
    if badSignature.Some? then Stop(badSignature.value)
    else
      var badTime := CheckTime(env, data, now);
      if badTime.Some? then Stop(badTime.value)
      else
        var nonce := Get(data, "nonce");
        if nonce.None? || !Truthy(nonce.value) then Stop(Rejected(MissingNonce))
        else if nonce.value.Arr? || nonce.value.Obj? then Stop(Raised)
        else Reach(NonceKey(nonce.value))
  }

  function Missing(data: Dict, required: seq<string>): seq<string> {
    if required == [] then []
    else (if Has(data, required[0]) then [] else [required[0]]) + Missing(data, required[1..])
  }

  // Everything behind it.
  function AfterNonce(data: Dict, agentId: string): Outcome {
    if Get(data, "agent_id") != Some(Str(agentId)) then Rejected(AgentMismatch)
    else
      var missing := Missing(data, REQUIRED);
      if missing != [] then Rejected(MissingClaims(missing)) else Verified
  }

  datatype Verdict = Verdict(outcome: Outcome, seen: set<Value>)

  function Verify(env: Env, data: Dict, signature: Value, publicKey: string, agentId: string, now: int,
                  seen: set<Value>): Verdict {
    match ToNonce(env, data, signature, publicKey, now)
    case Stop(outcome) => Verdict(outcome, seen)
    case Reach(nonce) =>
      if nonce in seen then Verdict(Rejected(NonceAlreadySeen), seen)
      else Verdict(AfterNonce(data, agentId), seen + {nonce})
  }

  // The required claims that are not there, in order.
  method CollectMissing(data: Dict, required: seq<string>) returns (missing: seq<string>)
    ensures missing == Missing(data, required)
  {
    hide Has, Missing;
    missing := [];
    MissingNothing(data);
    for i := 0 to |required|
      invariant missing == Missing(data, required[..i])
    {
      MissingMore(data, required[..i], required[i]);
      assert required[..i + 1] == required[..i] + [required[i]];
      if !Has(data, required[i]) { missing := missing + [required[i]]; }
    }
    assert required[..|required|] == required;
  }

  lemma MissingNothing(data: Dict)
    ensures Missing(data, []) == []
  {
  }

  // The missing claims are those that are missing, in the order in which they
  // are required.
  lemma {:induction false} MissingConcat(data: Dict, a: seq<string>, b: seq<string>)
    ensures Missing(data, a + b) == Missing(data, a) + Missing(data, b)
  {
    hide Has;
    if a == [] {
      assert a + b == b;
    } else {
      assert (a + b)[1..] == a[1..] + b;
      MissingConcat(data, a[1..], b);
    }
  }

  lemma MissingOne(data: Dict, c: string)
    ensures Missing(data, [c]) == if exists i :: 0 <= i < |data| && data[i].key == c then [] else [c]
    ensures Has(data, c) <==> exists i :: 0 <= i < |data| && data[i].key == c
  {
    assert [c][1..] == [];
    if Has(data, c) {
      assert data[Find(data, c)].key == c;
    }
  }

  lemma MissingMore(data: Dict, a: seq<string>, c: string)
    ensures Missing(data, a + [c]) == Missing(data, a) + if Has(data, c) then [] else [c]
  {
    hide Missing, Has;
    MissingConcat(data, a, [c]);
    MissingOne(data, c);
  }

  // ---- NONCE_SEEN as the class-level set of a process ----

  class AttestationVerifier {
    const env: Env
    var seen: set<Value>

    // A freshly started process.
    constructor (env: Env)
      ensures this.env == env && seen == {}
    {
      this.env, seen := env, {};
    }

    method VerifyClaims(data: Dict, signature: Value, publicKey: string, agentId: string, now: int)
      returns (outcome: Outcome)
      modifies this`seen
      ensures Verdict(outcome, seen) == Verify(env, data, signature, publicKey, agentId, now, old(seen))
    {
      hide Canonical, Missing, Get;
      var canonical := Canonical(Obj(data), Spaced);
      var kind := env.load(publicKey);
      if kind == BadPem { return Rejected(BadSignature); }
      if kind == NotRsa { return Rejected(UnsupportedKey); }
      if !signature.Str? { return Raised; }
      if !env.verify(publicKey, canonical, signature.s) { return Rejected(BadSignature); }

      var issuedAt := Get(data, "issued_at");
      if issuedAt.None? || !Truthy(issuedAt.value) { return Rejected(MissingIssuedAt); }
      if !issuedAt.value.Str? { return Raised; }
      var time := env.parse(issuedAt.value.s);
      if time.Invalid? { return Rejected(InvalidIssuedAt); }
      if time.Naive? { return Raised; }
      var skew := if now >= time.micros then now - time.micros else time.micros - now;
      if skew > MAX_SKEW_MICROS { return Rejected(SkewTooLarge); }

      var nonce := Get(data, "nonce");
      if nonce.None? || !Truthy(nonce.value) { return Rejected(MissingNonce); }
      if nonce.value.Arr? || nonce.value.Obj? { return Raised; }
      if NonceKey(nonce.value) in seen { return Rejected(NonceAlreadySeen); }
      seen := seen + {NonceKey(nonce.value)};

      if Get(data, "agent_id") != Some(Str(agentId)) { return Rejected(AgentMismatch); }
      var missing := CollectMissing(data, REQUIRED);
      if missing != [] { return Rejected(MissingClaims(missing)); }
      return Verified;
    }
  }

  // ---- what a verdict means ----

  // Within 300 seconds, either way.
  ghost predicate InTime(env: Env, data: Dict, now: int) {
    exists s, t ::
      && Get(data, "issued_at") == Some(Str(s)) && s != ""
      && env.parse(s) == Aware(t) && -300 * 1_000_000 <= now - t <= 300 * 1_000_000
  }

  ghost predicate Signed(env: Env, data: Dict, signature: Value, publicKey: string) {
    env.load(publicKey) == Rsa && signature.Str? && env.verify(publicKey, Canonical(Obj(data), Spaced), signature.s)
  }

  // A usable nonce claim, as an element of NONCE_SEEN.
  function NonceOf(data: Dict): Option<Value> {
    var nonce := Get(data, "nonce");
    if nonce.None? || !Truthy(nonce.value) || nonce.value.Arr? || nonce.value.Obj? then None
    else Some(NonceKey(nonce.value))
  }

  // What counts as a missing claim, and which nonces are one to a Python set.
  lemma TruthMeaning(v: Value, w: Value)
    ensures Truthy(v) <==> v !in {Null, Bool(false), Int(0), Str(""), Arr([]), Obj([])}
    ensures NonceKey(v) == NonceKey(w) <==> v == w || {v, w} == {Bool(true), Int(1)}
  {
    if {v, w} == {Bool(true), Int(1)} {
      assert v in {v, w} && w in {v, w} && Bool(true) in {v, w} && Int(1) in {v, w};
    }
  }

  // The claims that must be there, and that must be strings to be stored.
  const CLAIMS := {"container_digest", "git_commit", "environment", "host_id", "framework", "framework_version",
                   "model", "prompt_version"}

  lemma RequiredAreThese(c: string)
    ensures c in REQUIRED <==> c in CLAIMS
  {
  }

  lemma MissingNone(data: Dict, required: seq<string>)
    ensures Missing(data, required) == [] <==> forall c :: c in required ==> Has(data, c)
  {
    if required != [] {
      MissingNone(data, required[1..]);
      assert required == [required[0]] + required[1..];
    }
  }

  lemma VerifyMeetsSpec(env: Env, data: Dict, signature: Value, publicKey: string, agentId: string, now: int,
                        seen: set<Value>)
    ensures
      var v := Verify(env, data, signature, publicKey, agentId, now, seen);
      var passes := Signed(env, data, signature, publicKey) && InTime(env, data, now) && NonceOf(data).Some?;
      && (v.outcome.Verified? <==>
            && passes && NonceOf(data).value !in seen
            && Get(data, "agent_id") == Some(Str(agentId))
            && forall c :: c in REQUIRED ==> Has(data, c))
      && v.seen == (if passes then seen + {NonceOf(data).value} else seen)
  {
    MissingNone(data, REQUIRED);
    assert CheckSignature(env, data, signature, publicKey).None? <==> Signed(env, data, signature, publicKey);
    assert CheckTime(env, data, now).None? <==> InTime(env, data, now);
  }

  // What is true when the verifier gives this reason.  The reasons exclude each
  // other, so that the reason is determined: the first check that fails.
  ghost predicate RejectedFor(env: Env, data: Dict, signature: Value, publicKey: string, agentId: string, now: int,
                              seen: set<Value>, reason: Rejection) {
    var issuedAt, nonce := Get(data, "issued_at"), NonceOf(data);
    var signed, inTime := Signed(env, data, signature, publicKey), InTime(env, data, now);
    match reason
    case UnsupportedKey => env.load(publicKey) == NotRsa
    case BadSignature => env.load(publicKey) == BadPem || (env.load(publicKey) == Rsa && signature.Str? && !signed)
    case MissingIssuedAt => signed && (issuedAt.None? || !Truthy(issuedAt.value))
    case InvalidIssuedAt =>
      && signed && issuedAt.Some? && Truthy(issuedAt.value) && issuedAt.value.Str?
      && env.parse(issuedAt.value.s).Invalid?
    case SkewTooLarge =>
      && signed && issuedAt.Some? && Truthy(issuedAt.value) && issuedAt.value.Str?
      && env.parse(issuedAt.value.s).Aware? && !inTime
    case MissingNonce => signed && inTime && (Get(data, "nonce").None? || !Truthy(Get(data, "nonce").value))
    case NonceAlreadySeen => signed && inTime && nonce.Some? && nonce.value in seen
    case AgentMismatch =>
      signed && inTime && nonce.Some? && nonce.value !in seen && Get(data, "agent_id") != Some(Str(agentId))
    case MissingClaims(claims) =>
      && signed && inTime && nonce.Some? && nonce.value !in seen && Get(data, "agent_id") == Some(Str(agentId))
      && claims != [] && claims == Missing(data, REQUIRED)
  }

  // An exception escapes for what is not of the type the code takes it for.
  ghost predicate Raises(env: Env, data: Dict, signature: Value, publicKey: string, now: int) {
    var issuedAt, nonce := Get(data, "issued_at"), Get(data, "nonce");
    || (env.load(publicKey) == Rsa && !signature.Str?)
    || (&& Signed(env, data, signature, publicKey) && issuedAt.Some? && Truthy(issuedAt.value)
        && (!issuedAt.value.Str? || env.parse(issuedAt.value.s).Naive?))
    || (&& Signed(env, data, signature, publicKey) && InTime(env, data, now)
        && nonce.Some? && Truthy(nonce.value) && (nonce.value.Arr? || nonce.value.Obj?))
  }

  lemma RejectionHasItsReason(env: Env, data: Dict, signature: Value, publicKey: string, agentId: string, now: int,
                              seen: set<Value>)
    ensures
      var outcome := Verify(env, data, signature, publicKey, agentId, now, seen).outcome;
      && (outcome.Rejected? ==> RejectedFor(env, data, signature, publicKey, agentId, now, seen, outcome.reason))
      && (outcome.Raised? ==> Raises(env, data, signature, publicKey, now))
  {
    hide Missing, Get, NonceKey;
    assert CheckSignature(env, data, signature, publicKey).None? <==> Signed(env, data, signature, publicKey);
    assert CheckTime(env, data, now).None? <==> InTime(env, data, now);
  }

  // A request without a signature is verified against an empty one.
  lemma WithoutSignature(received: Dict)
    requires !Has(received, "signature")
    ensures PoppedSignature(received) == Str("") && SameDict(PoppedData(received), received)
  {
    forall key
      ensures Has(PoppedData(received), key) <==> Has(received, key)
      ensures Get(PoppedData(received), key) == Get(received, key)
    {
      WithoutGet(received, "signature", key);
      HasGet(received, key);
      HasGet(PoppedData(received), key);
      HasGet(received, "signature");
    }
    SameDictByGet(PoppedData(received), received);
  }

  // ---- a sequence of calls in one process ----

  datatype Call = Call(data: Dict, signature: Value, publicKey: string, agentId: string, now: int)

  function CallVerdict(env: Env, c: Call, seen: set<Value>): Verdict {
    Verify(env, c.data, c.signature, c.publicKey, c.agentId, c.now, seen)
  }

  // NONCE_SEEN after the first n calls.
  function SeenAfter(env: Env, calls: seq<Call>, n: nat, start: set<Value>): set<Value>
    requires n <= |calls|
  {
    if n == 0 then start else CallVerdict(env, calls[n - 1], SeenAfter(env, calls, n - 1, start)).seen
  }

  function OutcomeAt(env: Env, calls: seq<Call>, i: nat, start: set<Value>): Outcome
    requires i < |calls|
  {
    CallVerdict(env, calls[i], SeenAfter(env, calls, i, start)).outcome
  }

  // The call got past signature and freshness with this nonce.
  ghost predicate Reaches(env: Env, c: Call, nonce: Value) {
    Signed(env, c.data, c.signature, c.publicKey) && InTime(env, c.data, c.now) && NonceOf(c.data) == Some(nonce)
  }

  // NONCE_SEEN is exactly the set of nonces that reached the lookup.
  lemma {:induction false} NonceAccounting(env: Env, calls: seq<Call>, n: nat, start: set<Value>, nonce: Value)
    requires n <= |calls|
    ensures nonce in SeenAfter(env, calls, n, start) <==>
      nonce in start || exists i :: 0 <= i < n && Reaches(env, calls[i], nonce)
  {
    if n > 0 {
      var c := calls[n - 1];
      NonceAccounting(env, calls, n - 1, start, nonce);
      VerifyMeetsSpec(env, c.data, c.signature, c.publicKey, c.agentId, c.now, SeenAfter(env, calls, n - 1, start));
      hide Verify, InTime, NonceOf, Signed;
      assert nonce in SeenAfter(env, calls, n, start) <==>
        nonce in SeenAfter(env, calls, n - 1, start) || Reaches(env, c, nonce);
    }
  }

  // A nonce is used up by the first call that reaches the lookup with it,
  // whether or not that call is then accepted.
  lemma NonceConsumed(env: Env, calls: seq<Call>, start: set<Value>, i: nat, j: nat, nonce: Value)
    requires i < j < |calls|
    requires Reaches(env, calls[i], nonce) && Reaches(env, calls[j], nonce)
    ensures OutcomeAt(env, calls, j, start) == Rejected(NonceAlreadySeen)
  {
    NonceAccounting(env, calls, j, start, nonce);
    var c := calls[j];
    assert CheckSignature(env, c.data, c.signature, c.publicKey).None?;
    assert CheckTime(env, c.data, c.now).None?;
  }

  lemma VerifiedOnce(env: Env, calls: seq<Call>, start: set<Value>, i: nat, j: nat)
    requires i < j < |calls|
    ensures OutcomeAt(env, calls, i, start).Verified? && OutcomeAt(env, calls, j, start).Verified? ==>
      NonceOf(calls[i].data) != NonceOf(calls[j].data)
  {
    var c, d := calls[i], calls[j];
    VerifyMeetsSpec(env, c.data, c.signature, c.publicKey, c.agentId, c.now, SeenAfter(env, calls, i, start));
    VerifyMeetsSpec(env, d.data, d.signature, d.publicKey, d.agentId, d.now, SeenAfter(env, calls, j, start));
    if OutcomeAt(env, calls, i, start).Verified? && OutcomeAt(env, calls, j, start).Verified?
       && NonceOf(c.data) == NonceOf(d.data) {
      NonceConsumed(env, calls, start, i, j, NonceOf(c.data).value);
    }
  }

  // ---- dict order does not matter ----

  lemma SameLookup(d: Dict, e: Dict, key: string)
    requires SameDict(d, e)
    ensures Has(d, key) <==> Has(e, key)
    ensures Has(d, key) ==> Same(Get(d, key).value, Get(e, key).value)
  {
  }

  lemma EmptyDict(d: Dict)
    ensures d == [] <==> forall key :: !Has(d, key)
  {
    if d != [] {
      assert Find(d, d[|d| - 1].key) == |d| - 1;
      assert Has(d, d[|d| - 1].key);
    }
  }

  lemma SameTruthy(v: Value, w: Value)
    requires Same(v, w)
    ensures Truthy(v) <==> Truthy(w)
  {
    if v.Obj? {
      EmptyDict(v.members);
      EmptyDict(w.members);
    }
  }

  lemma {:induction false} SameMissing(d: Dict, e: Dict, required: seq<string>)
    requires SameDict(d, e)
    ensures Missing(d, required) == Missing(e, required)
  {
    if required != [] {
      SameLookup(d, e, required[0]);
      SameMissing(d, e, required[1..]);
    }
  }

  lemma VerifySameDict(env: Env, d: Dict, e: Dict, signature: Value, publicKey: string, agentId: string, now: int,
                       seen: set<Value>)
    requires SameDict(d, e)
    ensures Verify(env, d, signature, publicKey, agentId, now, seen)
         == Verify(env, e, signature, publicKey, agentId, now, seen)
  {
    SameSignatureCheck(env, d, e, signature, publicKey);
    SameTimeCheck(env, d, e, now);
    SameClaim(d, e, "nonce");
    SameClaim(d, e, "agent_id");
    SameMissing(d, e, REQUIRED);
    hide Same, Missing, CheckSignature, CheckTime, Get;
    assert ToNonce(env, d, signature, publicKey, now) == ToNonce(env, e, signature, publicKey, now);
    assert AfterNonce(d, agentId) == AfterNonce(e, agentId);
  }

  lemma SameSignatureCheck(env: Env, d: Dict, e: Dict, signature: Value, publicKey: string)
    requires SameDict(d, e)
    ensures CheckSignature(env, d, signature, publicKey) == CheckSignature(env, e, signature, publicKey)
  {
    CanonicalFaithful(Obj(d), Obj(e), Spaced);
  }

  lemma SameTimeCheck(env: Env, d: Dict, e: Dict, now: int)
    requires SameDict(d, e)
    ensures CheckTime(env, d, now) == CheckTime(env, e, now)
  {
    SameClaim(d, e, "issued_at");
  }

  // Scalar claims agree; compound ones agree in kind and truth value.
  lemma SameClaim(d: Dict, e: Dict, key: string)
    requires SameDict(d, e)
    ensures
      var v, w := Get(d, key), Get(e, key);
      || v == w
      || (v.Some? && w.Some?
          && (Truthy(v.value) <==> Truthy(w.value))
          && ((v.value.Arr? && w.value.Arr?) || (v.value.Obj? && w.value.Obj?)))
  {
    SameLookup(d, e, key);
    if Has(d, key) { SameTruthy(Get(d, key).value, Get(e, key).value); }
  }

  // ---- from the client to the service ----

  // `sign_attestation`
  function SignAttestation(signer: Signer, claims: Dict): string {
    signer.sign(Canonical(Obj(claims), Spaced))
  }

  // The claims with their signature merged in.
  function Signature(signer: Signer, claims: Dict): Dict {
    Set(claims, "signature", Str(SignAttestation(signer, claims)))
  }

  // What the endpoint takes for the signature: the claim of that name, which it
  // removes, or an empty text.
  function PoppedSignature(received: Dict): Value {
    if Has(received, "signature") then Get(received, "signature").value else Str("")
  }

  function PoppedData(received: Dict): Dict {
    Without(received, "signature")
  }

  lemma HasGet(d: Dict, key: string)
    ensures Has(d, key) <==> Get(d, key).Some?
    ensures Has(d, key) ==> Get(d, key) == Some(d[Find(d, key)].value)
  {
  }

  // Whatever order the keys arrive in, the endpoint recovers the claims the
  // client started from, minus a "signature" claim of their own.
  lemma EndpointRecovers(signer: Signer, claims: Dict, received: Dict)
    requires SameDict(received, Signature(signer, claims))
    ensures PoppedSignature(received) == Str(SignAttestation(signer, claims))
    ensures SameDict(PoppedData(received), Without(claims, "signature"))
    ensures !Has(claims, "signature") ==> SameDict(PoppedData(received), claims)
  {
    var sent, data, clean := Signature(signer, claims), PoppedData(received), Without(claims, "signature");
    SetGet(claims, "signature", Str(SignAttestation(signer, claims)), "signature");
    HasGet(sent, "signature");
    SameLookup(received, sent, "signature");
    forall key
      ensures Has(data, key) <==> Has(clean, key)
      ensures Has(data, key) ==> Same(data[Find(data, key)].value, clean[Find(clean, key)].value)
      ensures !Has(claims, "signature") ==> (Has(clean, key) <==> Has(claims, key)) && Get(clean, key) == Get(claims, key)
    {
      WithoutGet(received, "signature", key);
      WithoutGet(claims, "signature", key);
      SetGet(claims, "signature", Str(SignAttestation(signer, claims)), key);
      HasGet(data, key);
      HasGet(clean, key);
      HasGet(claims, key);
      HasGet(received, key);
      HasGet(sent, key);
      SameLookup(received, sent, key);
    }
    if !Has(claims, "signature") {
      SameDictByGet(clean, claims);
      SameTransitive(Obj(data), Obj(clean), Obj(claims));
    }
  }

  // Claims that the verifier has no reason of its own to reject.
  ghost predicate Acceptable(env: Env, claims: Dict, agentId: string, now: int, seen: set<Value>) {
    && InTime(env, claims, now)
    && NonceOf(claims).Some? && NonceOf(claims).value !in seen
    && Get(claims, "agent_id") == Some(Str(agentId))
    && forall c :: c in REQUIRED ==> Has(claims, c)
  }

  // Sign, merge, transport, pop, verify: the round trip succeeds for all
  // acceptable claims, provided they bring no "signature" of their own ...
  lemma AttestationRoundTrip(env: Env, signer: Signer, claims: Dict, received: Dict,
                             agentId: string, now: int, seen: set<Value>)
    requires Correct(env, signer)
    requires Acceptable(env, claims, agentId, now, seen) && !Has(claims, "signature")
    requires SameDict(received, Signature(signer, claims))
    ensures Verify(env, PoppedData(received), PoppedSignature(received), signer.publicKey, agentId, now, seen)
         == Verdict(Verified, seen + {NonceOf(claims).value})
  {
    EndpointRecovers(signer, claims, received);
    VerifySameDict(env, PoppedData(received), claims, PoppedSignature(received), signer.publicKey, agentId, now, seen);
    VerifyMeetsSpec(env, claims, PoppedSignature(received), signer.publicKey, agentId, now, seen);
  }

  // ... and then it fails, so that this proviso is exact.
  lemma OwnSignatureClaimFails(env: Env, signer: Signer, claims: Dict, received: Dict,
                               agentId: string, now: int, seen: set<Value>)
    requires Binding(env, signer) && env.load(signer.publicKey) == Rsa
    requires Has(claims, "signature")
    requires SameDict(received, Signature(signer, claims))
    ensures Verify(env, PoppedData(received), PoppedSignature(received), signer.publicKey, agentId, now, seen)
         == Verdict(Rejected(BadSignature), seen)
  {
    EndpointRecovers(signer, claims, received);
    CanonicalFaithful(Obj(PoppedData(received)), Obj(claims), Spaced);
    if SameDict(PoppedData(received), claims) {
      WithoutGet(received, "signature", "signature");
      SameLookup(PoppedData(received), claims, "signature");
    }
  }

  // The transport itself: JSON text in the body, read back by the endpoint.
  lemma TransportKeepsClaims(signer: Signer, claims: Dict, st: Style)
    ensures
      var received := Parse(Emit(Obj(Signature(signer, claims)), st));
      received.Some? && received.value.Obj? && SameDict(received.value.members, Signature(signer, claims))
  {
    RoundTrip(Obj(Signature(signer, claims)), st);
    SameReflexive(Obj(Signature(signer, claims)));
  }

  // Nobody can make a signature vouch for other claims.
  lemma VerifiedMeansUntampered(env: Env, signer: Signer, claims: Dict, data: Dict,
                                agentId: string, now: int, seen: set<Value>)
    requires Binding(env, signer)
    requires Verify(env, data, Str(SignAttestation(signer, claims)), signer.publicKey, agentId, now, seen).outcome.Verified?
    ensures SameDict(data, claims)
  {
    CanonicalFaithful(Obj(data), Obj(claims), Spaced);
  }
}
