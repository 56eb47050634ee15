# Agent Identity Lab: a verified model

This project models three parts of Agent Identity Lab and proves what they are
for. `dafny verify dfyconfig.toml` checks all of it.

**The audit chain.** `Json` holds Python's JSON values and the sorted printer
behind `json.dumps(..., sort_keys=True)`; `JsonParser` reads such a text back,
by the grammar in sections 2 to 7 of RFC 8259, which makes the printer faithful.
`HashChain` has the hash link and the replay loop, `AuditLog` the writer and the
verify endpoint over an unordered table. SHA-256 is a parameter, any function
from texts to 64 hex digits. Tamper evidence is stated as a reduction: either
the histories agree, or two *different texts that were hashed while replaying
them* have one digest. (That some collision exists is true of every such
function, so a conclusion of that kind would say nothing.)

**The control plane.** `ControlPlane` is the identity service as a transition
system: blueprints, agents, delegations, attestations, sessions, issued tokens,
the nonces each process has seen, the session creations in flight, and a clock.
Creating a session is a step for each database query and each clock reading of
the handler: the agent's row, its blueprint's row, the attestation, the insert,
the delegation's row, the check of its expiry, the session with its own reading
of the clock, the token, the commit, with a rollback possible at any point. Any
number of creations, administrative requests, ticks and process restarts
interleave. `Services` is the same service as a class that updates its tables in
place; a ghost field keeps the run that led to its present state, so that what is
proved of runs holds of the object at any time. `Attestation` and `Client` are
the two ends of a signed runtime attestation, and `EndToEnd` puts one against the
other. `Replay`, `Lifecycle`, `History`, `Integrity`, `Authorization`, `Grants`,
`Revocation`, `Creation` and `Replies` prove what holds over all runs: no nonce is used
twice, no row points at nothing, tokens agree with the sessions they name, every
session has an origin that passed every check, what `authorize` grants is an
equation over the run, expiry and revocation are final, and an honest creation
does succeed. `Witness` has runs from the empty state for whatever fails.

**The policy.** `Policy` has the Python engine with a declarative
specification, the Rego engine, and the relation between the two; `Gateway`
relates the gateway's tool registry to the policy's.

## What was found

Each of these is shown at a run from the empty state or at an input, and comes
with its exact condition.

- The documented invariant "a revoked identity must never receive a valid session"
  (section 18.4 of the design document) does not hold of a creation that is in
  flight when the agent is revoked: the agent is read once, at the start
  (`Witness.RevokedAgentHasSession`). Over any run, the sessions that an agent
  receives after its revocation are exactly those whose creation was in flight at
  the revocation and commits later (`Revocation.RevokedAgentReceives`); and until
  the agent's row is read or written again, a creation in flight, in whatever phase
  it is and whatever it is interleaved with, goes on exactly as it would have
  without the revocation (`Revocation.RevocationChangesOneRow`). Such a session is
  never allowed anything (`Revocation.AgentRevocationIsFinal`).
- A session may begin after its delegation has been revoked, and after it has
  expired (`Witness.DelegationEndsBeforeSession`). Over any run, the sessions that
  begin under a delegation after its revocation are exactly those whose creation had
  read its row before (`Revocation.RevokedDelegationServes`); and every session's
  delegation was good as read, and not expired when checked
  (`Revocation.DelegationWasGood`).
- What the client posts is verified exactly if its overrides bring no "signature"
  of their own and keep agent id, nonce and time: the endpoint pops that claim, and
  what is verified is then not what was signed (`Client.ClientIsAccepted`,
  `Witness.OwnSignatureIsRejected`).
- The verify endpoint sees the append order exactly when timestamps are strictly
  increasing; on a tie the database may answer in an order that does not verify
  (`AuditLog.StrictClockIsExact`, `AuditLog.TieExists`).
- The status of an agent is a function of its timestamps exactly unless it was
  activated and suspended at one instant (`Lifecycle.StatusIsRecoverable`,
  `Witness.AmbiguousAgent`).
- An update may set `max_scopes` or `approved_environments` to null. The row is
  stored, the answer fails, and with a null `max_scopes` the Python engine raises
  where it would have compared scopes (`Policy.EvaluateMeetsSpec`,
  `Witness.NullScopesRaise`).
- An update may set `max_session_ttl_seconds` to zero or less. A session created
  under such a blueprint is stored, and its token is never accepted
  (`Grants.ExpiryBounds`, `Creation.NewSessionIsServed`, `Witness.LifelessSession`).
- The two engines differ: Rego also returns scopes that the tool does not need,
  and checks neither the environment nor that anything is granted at all
  (`Policy.RegoAllowsMore`, `Policy.RegoGrantsNothing`).

## Model

| member | source | states |
|---|---|---|
| Json.NormSame | packages/audit/chain.py:6 | what `sort_keys=True` makes of two values is equal exactly when the values are equal as Python data, dict order aside |
| Json.UpdateGet | packages/common/client.py:69-70 | `dict.update`: each key looks up to the new value if there is one, else to the old |
| Json.WithoutGet | apps/identity_api/api/sessions.py:49 | `dict.pop` removes one key and leaves every other lookup as it was |
| JsonParser.RoundTrip | packages/audit/chain.py:6 | for every JSON value, compact or spaced, parsing the printed text gives the value back |
| JsonParser.CanonicalParses | packages/audit/chain.py:6 | the canonical text of a value parses to a value equal to it up to dict order |
| JsonParser.CanonicalFaithful | packages/audit/chain.py:6 | two values have one canonical text if and only if they are equal up to dict order |
| Json.NormIsSorted | packages/audit/chain.py:6 | the keys of the printed object are those of the dict, each once, in increasing order |
| Text.LessMeaning | packages/policy_client/python_adapter.py:94 | the order of `sorted`: one text goes on where the other ends, or has the greater code point where they first differ |
| Json.EmitIsClean | packages/audit/chain.py:6 | the text is printable ASCII, and in the compact style has no blank that is not in one of the value's own strings |
| Json.StylesAreThese | packages/attestation/verifier.py:29 | one object in the compact style of the audit chain and in the spaced style of attestations |
| Json.ShortEscapes | packages/audit/chain.py:6 | the escapes of quote, backslash and the five control characters that have short ones; a slash has none |
| Json.LongEscapes | packages/audit/chain.py:6 | DEL and a letter beyond ASCII as four lower-case hex digits |
| Json.PairEscape | packages/audit/chain.py:6 | a character beyond the basic plane as a surrogate pair |
| HashChain.PreimageSplits | packages/audit/chain.py:7 | the concatenation of optional previous hash and canonical text splits in one way only |
| HashChain.PreimageReads | packages/audit/chain.py:6-7 | the hashed text is the previous hash, if any, followed by a compact text that reads back as the data |
| HashChain.StoredDataHashesTheSame | packages/audit/chain.py:5-8 | a payload read back with its keys in another order has the hash it was written with |
| HashChain.VerifyChain | packages/audit/chain.py:11-33 | valid exactly if every event is; otherwise `broken_at` is the first failing event, and the report gives the expected and the found value of the check that failed first |
| HashChain.BreakIsUnique | packages/audit/chain.py:11-33 | `broken_at` is determined: no list breaks at two positions, and no valid list breaks |
| HashChain.LastHashCommits | packages/audit/chain.py:5-33 | two valid non-empty chains with one last hash are the same history, or a collision among their own hashed texts is exhibited |
| HashChain.RecordHashesDistinct | packages/audit/models.py:30 | a valid chain has no record hash twice, or exhibits a collision |
| HashChain.ReadBackVerifiesTheSame | packages/audit/chain.py:24-25 | reading all events back with data in other key orders changes no check of the replay |
| HashChain.PrefixValid | packages/audit/chain.py:11-33 | every prefix of a valid chain is valid: removing the tail is the one edit the replay cannot see |
| HashChain.EditedFieldIsReported | packages/audit/chain.py:15-31 | on a valid chain, changing only the data, the record hash or the previous hash of event i is reported at i, exactly if it is a real change, or the old and new text collide |
| HashChain.RewrittenEventIsReported | packages/audit/chain.py:15-32 | rewriting event i with a recomputed hash is reported at i + 1, or a collision is exhibited |
| HashChain.DeletedEventIsReported | packages/audit/chain.py:15-32 | deleting an event other than the last is reported at its position, or a collision is exhibited |
| HashChain.AnyEditIsReported | packages/audit/chain.py:11-33 | any other history with the same last hash is reported, or a collision is exhibited |
| AuditLog.AuditTable.Write | packages/audit/writer.py:27-58 | the stored data has the event type and the time under their own keys and every other key as given; the head as previous hash, the hash, and the commit unless the hash is taken; under a moving clock the table stays a valid chain whose head was the last row written |
| AuditLog.AuditTable.Verify | apps/identity_api/api/audit.py:61-67 | the report describes the first failing event of a selection of all rows in timestamp order; on a table kept by the writer under a moving clock it is valid |
| AuditLog.SortRecoversOrder | apps/identity_api/api/audit.py:63-64 | under strictly increasing timestamps every possible sorted answer is the append order |
| AuditLog.StrictClockIsExact | apps/identity_api/api/audit.py:63-67 | with a tie there is a possible sorted answer that does not verify, or a collision; without one there is only the append order |
| AuditLog.TieExists | apps/identity_api/api/audit.py:63-67 | for every hash function there are two events of one instant that verify as written and break at 0 as selected |
| AuditLog.HeadIsLastWritten | packages/audit/writer.py:27-30 | the row with the latest timestamp is the last one written |
| AuditLog.AppendKeepsChain | packages/audit/writer.py:38-54 | appending a row linked to the head keeps a valid chain valid |
| Attestation.AttestationVerifier.VerifyClaims | packages/attestation/verifier.py:20-85 | outcome and new `NONCE_SEEN` for every input, exceptions included |
| Attestation.CollectMissing | packages/attestation/verifier.py:71-81 | the required claims that are absent, in order |
| Attestation.VerifyMeetsSpec | packages/attestation/verifier.py:20-85 | verified exactly if signed, in time, with an unseen nonce, for the expected agent and complete; the nonce is consumed exactly if signature, time and presence are in order |
| Attestation.RejectionHasItsReason | packages/attestation/verifier.py:29-85 | the reason of every rejection is the first check that fails; an exception escapes only for a signature, a time or a nonce of the wrong type |
| Attestation.TruthMeaning | packages/attestation/verifier.py:44-60 | which values count as a missing claim, and that true and 1 are one nonce |
| Attestation.RequiredAreThese | packages/attestation/verifier.py:71-80 | the eight required claims |
| Attestation.MissingConcat | packages/attestation/verifier.py:81 | the missing claims come in the order in which they are required |
| Attestation.MissingOne | packages/attestation/verifier.py:81 | a claim is missing exactly if no item of the data has its key |
| Attestation.WithoutSignature | apps/identity_api/api/sessions.py:48-49 | a request without a signature is verified as it is, against an empty one |
| Attestation.NonceAccounting | packages/attestation/verifier.py:57-62 | after any calls `NONCE_SEEN` is what it was plus exactly the nonces of calls that passed signature, freshness and presence |
| Attestation.NonceConsumed | packages/attestation/verifier.py:60-69 | a call with a nonce that an earlier call reached the lookup with is rejected, even if the earlier one was rejected for its agent or its claims |
| Attestation.VerifiedOnce | packages/attestation/verifier.py:60-62 | in one process a nonce is verified at most once |
| Attestation.VerifySameDict | packages/attestation/verifier.py:29-85 | the verdict does not depend on the order of the claims |
| Attestation.EndpointRecovers | apps/identity_api/api/sessions.py:48-49 | the endpoint recovers the signature and the claims the client merged, for every key order |
| Attestation.AttestationRoundTrip | packages/attestation/verifier.py:87-102 | signing, merging, transport and popping yields VERIFIED for all acceptable claims without a "signature" |
| Attestation.OwnSignatureClaimFails | packages/common/client.py:69-82 | claims with a "signature" of their own are always rejected |
| Attestation.TransportKeepsClaims | packages/common/client.py:73-84 | the claims survive being printed as JSON and parsed again |
| Attestation.VerifiedMeansUntampered | packages/attestation/verifier.py:29-41 | if the signature of some claims verifies for other claims, the two are equal |
| Client.AgentIdentityClient.CreateSession | packages/common/client.py:41-84 | the body posted: own claims updated by the overrides, signed and merged with the signature; an error exactly without a key |
| Client.OwnClaimsLookup | packages/common/client.py:56-68 | each claim that depends on the call, under its key; no signature; every required claim |
| Client.FixedClaims | packages/common/client.py:56-68 | the claims that are the same for every call |
| Client.ClientIsAccepted | packages/common/client.py:56-82 | what the client builds, sent in any key order, is verified exactly if the overrides bring no "signature" and leave the agent id, a usable unseen nonce and a time in range |
| Policy.EvaluateMeetsSpec | packages/policy_client/python_adapter.py:21-97 | allows exactly if the statuses are active, the tool is known, no research agent asks for a scope that ends in ":write", the environment is approved, and some scope is granted; the scopes are the granted ones, sorted, each once; raises exactly on a null list |
| Policy.EndsWithMeaning | packages/policy_client/python_adapter.py:55 | one text ends with another exactly if it is something followed by it |
| Policy.ToolTable | packages/policy_client/python_adapter.py:12-19 | the six known keys with the one scope each needs, and which of them are write scopes |
| Policy.ResearchNeverWrites | packages/policy_client/python_adapter.py:54-61 | a research agent is denied, for that reason, the two tools that write |
| Policy.ResearchReadsAlike | packages/policy_client/python_adapter.py:54-61 | with the four tools that read the blueprint's slug makes no difference |
| Policy.DenialHasItsReason | packages/policy_client/python_adapter.py:29-89 | the reason of every denial is the first rule that fails, with its parameters; no scopes come with it |
| Policy.AllowGrantsRequired | packages/policy_client/python_adapter.py:12-19 | an allow grants exactly the one scope the tool requires |
| Policy.EvaluateMonotone | packages/policy_client/python_adapter.py:72-80 | more requested, agent or blueprint scopes, or more of a non-empty set of user scopes, keep an allow and all it grants |
| Policy.EvaluateDependsOnSets | packages/policy_client/python_adapter.py:72-97 | the decision, its scopes and its reason depend on the sets of scopes only |
| Policy.RemovedIsRequested | packages/policy_client/python_adapter.py:82-89 | a denial for lack of scopes lists all requested scopes as removed, sorted |
| Policy.EvaluateIdempotent | packages/policy_client/python_adapter.py:76-97 | asking again for what was granted gives the same answer |
| Policy.PythonRefinesRego | policies/agent_access.rego:5-42 | of what Python allows with explicit requested scopes, Rego allows exactly its three (tool, operation) pairs, with at least the same scopes |
| Policy.RegoAllowsMore | policies/agent_access.rego:8-42 | of what Rego allows, Python allows exactly what also passes the environment rule and carries the rule's scope for agent, blueprint and user |
| Policy.RegoGrantsNothing | policies/agent_access.rego:8-42 | Rego may allow with no scope at all where Python denies |
| Policy.RegoPairs | policies/agent_access.rego:8-30 | the three (tool, operation) pairs that the rules cover |
| Policy.RegoMeetsSpec | policies/agent_access.rego:5-42 | when Rego allows, when its denial speaks of research, and which scopes come with either answer |
| Policy.RegoScopesInOrder | policies/agent_access.rego:38-42 | the scopes come in the order requested, repetitions included |
| EndToEnd.ClientIsCreatable | packages/common/client.py:41-84 | what the client posts without overrides, in any key order, meets all that create_session asks for exactly if agent and blueprint are active, the registered key is the client's, the time is in range, the nonce is new to process and database, and the delegation is good |
| ControlPlane.InsertableMeaning | apps/identity_api/services/session_service.py:60-75 | an attestation can be stored exactly if its nonce and its required claims are strings |
| ControlPlane.BlueprintTagReads | apps/identity_api/services/session_service.py:118 | the token's blueprint name reads back as slug and version |
| ControlPlane.TruncatesTowardsZero | packages/token_library/issuer.py:25-26 | times become the whole seconds next towards zero |
| Replies.BlueprintCreation | apps/identity_api/api/blueprints.py:31-43 | 422 exactly out of range, 409 exactly for a taken slug, else one blueprint more; a refusal changes nothing |
| Replies.BlueprintUpdate | apps/identity_api/api/blueprints.py:61-77 | 404 exactly for an unknown blueprint, 200 exactly if all can be stored and no list is null afterwards; what is stored in each case |
| Replies.StorableMeaning | packages/identity_models/schemas.py:21-29 | nulls are refused for name and lifetime only |
| Replies.BlueprintStatus | apps/identity_api/api/blueprints.py:80-109 | 404 exactly for an unknown blueprint |
| Replies.AgentCreation | apps/identity_api/api/agents.py:34-58 | 404 and 400 exactly for an unknown and an inactive blueprint |
| Replies.AgentCommands | apps/identity_api/api/agents.py:84-163 | from which statuses each command goes through, and what it answers otherwise |
| Replies.DelegationCreation | apps/identity_api/api/delegations.py:24-42 | 422 exactly out of range, an error exactly for an unknown agent |
| Replies.Revocations | apps/identity_api/api/delegations.py:61-74 | a delegation or a session is revoked once, at the time of the request; a refusal changes nothing |
| Services.IdentityService.UpdateBlueprint | apps/identity_api/api/blueprints.py:61-77 | every sent field set in turn and the version counted up, or nothing if a null is refused; the answer fails on a null list |
| Services.IdentityService.CreateSession | apps/identity_api/services/session_service.py:27-120 | one creation from the first query to the commit, stopping at the first refusal; 201 exactly if all conditions hold |
| Services.IdentityService.Authorize | apps/identity_api/api/authorization.py:61-149 | the answer on the present tables; scopes allowed by the Python engine are those requested in an earlier step of the object's own run that its blueprint lists now and the tool requires |
| Services.IdentityService.Consistent | apps/identity_api/dependencies.py:27-34 | at any time the object's tables have distinct nonces, sessions paired with attestations, no dangling row, tokens matching their sessions, distinct slugs, and statuses recoverable from timestamps |
| Replay.NonceUsedOnce | packages/attestation/models.py:30 | over all runs, processes, interleavings and restarts, two committed attestations never share a nonce |
| Replay.SessionsPairWithAttestations | apps/identity_api/services/session_service.py:98-113 | in every reachable state sessions and attestations are in bijection through `runtime_attestation_id` |
| Replay.OnlyCommitInserts | apps/identity_api/dependencies.py:27-34 | no step but a commit adds a session or an attestation; none but a revocation changes one |
| Replay.CreationIsAtomic | apps/identity_api/dependencies.py:27-34 | each step of a creation leaves every table as it was, or is the commit that adds exactly one attestation and one session |
| Replay.RunKeepsInv | apps/identity_api/services/session_service.py:51-120 | the invariant behind all this, kept by every step: nonces apart, identifiers fresh, rows paired, tokens matching their sessions |
| Replay.SeenSinceRestart | packages/attestation/verifier.py:17-62 | over any run, what a process has seen is exactly the nonces brought to its lookup since it last started, accepted or not |
| History.RunLater | apps/identity_api/services/session_service.py:122-131 | over any stretch of a run rows are never deleted, sessions change only by being revoked, revocations of agents and sessions are never undone, tokens stay issued |
| History.RunDelegations | apps/identity_api/api/delegations.py:61-74 | a delegation changes only by being revoked, once |
| Integrity.SessionFollows | apps/identity_api/services/session_service.py:122-131 | from any point of any run on, a session is what it was, revoked at the first request since to revoke it, and only by that |
| Integrity.DelegationFollows | apps/identity_api/api/delegations.py:61-74 | the same of a delegation |
| Integrity.NewDelegation | apps/identity_api/api/delegations.py:24-42 | a delegation comes from a request for an existing agent, and has the lifetime asked for |
| Integrity.TokenOrigin | packages/token_library/issuer.py:12-39 | every token was issued for a session in flight, with its claims, in the second the clock showed then, under the blueprint as read |
| Integrity.RequestStays | apps/identity_api/dependencies.py:27-34 | a request in flight stays as it is until a step of its own, its commit or rollback, or its process's restart |
| Integrity.AbortEnds | apps/identity_api/dependencies.py:32-34 | a rollback ends its request and changes nothing else |
| Integrity.RestartEnds | packages/attestation/verifier.py:17 | a restart ends the requests of its process and no others |
| History.RequestOrigin | apps/identity_api/services/session_service.py:40-113 | every creation in flight was made what it is by earlier steps in the handler's order, each on what it read at its own moment, and has been in flight since |
| History.SessionOrigin | apps/identity_api/services/session_service.py:40-113 | every session of every reachable state has six steps behind it, in order: agent read active, blueprint read active, attestation verified under the agent's key, delegation read good, its expiry checked, session granted with the scopes and the lifetime of its request; its attestation row holds the signed claims |
| Integrity.RunKeepsDelegations | apps/identity_api/api/delegations.py:24-74 | in every reachable state a delegation belongs to an agent, lives for one second to one day, and was not revoked before it was issued |
| Integrity.ReferencesHold | packages/identity_models/session.py:19-38 | in every reachable state every reference is to an existing row, and a session, its attestation and its delegation are one agent's |
| Grants.TokenNamesSession | packages/token_library/issuer.py:21-37 | a token's claims agree with its session row in every later state |
| Grants.GrantEquation | apps/identity_api/api/authorization.py:61-149 | scopes allowed by the Python engine = requested at creation ∩ listed by the blueprint row as read now ∩ required by the tool, sorted, with authorize's reads interleaved with any other steps |
| Grants.RegoGrantEquation | policies/agent_access.rego:38-42 | scopes allowed by the Rego engine = requested at creation ∩ listed by the blueprint now |
| Grants.EnvironmentWasSigned | packages/policy_client/python_adapter.py:63-70 | an allow means that the environment claim the agent signed is one the blueprint approves, or the blueprint approves any |
| Grants.ExpiryBounds | packages/token_library/issuer.py:19-26 | through two clock readings and truncation to seconds, an accepted token satisfies now < exp ≤ `expires_at`; the session's lifetime is one of the three and exceeds none of them; the token's is at least a second and no longer |
| Grants.CreatedSession | apps/identity_api/services/session_service.py:90-120 | the session and the token of an uninterrupted creation, field by field; the lifetime is one of the three and exceeds none |
| Grants.AcceptedUntil | packages/token_library/validator.py:18-48 | over any run, a session's token is unauthorized exactly from its expiry or its session's revocation on |
| Revocation.SessionRevocationIsFinal | apps/identity_api/api/authorization.py:83-87 | after its revocation a session is unauthorized for ever |
| Revocation.AgentRevocationIsFinal | apps/identity_api/api/agents.py:143-145 | after its revocation no session of an agent is allowed anything, by either engine |
| Revocation.InactiveAgentIsDenied | packages/policy_client/python_adapter.py:29-34 | the same for as long as the agent is suspended or otherwise not active |
| Revocation.RevokedAgentBeginsNothing | apps/identity_api/services/session_service.py:44-45 | every session of a revoked agent was requested before the revocation |
| Revocation.QuietRevocation | apps/identity_api/services/session_service.py:41-45 | an agent revoked with no creation in flight never receives another session |
| Revocation.RevokedAgentReceives | apps/identity_api/services/session_service.py:41-113 | over any run, a session of the agent is absent at its revocation and there later exactly if a creation in flight throughout commits it |
| Revocation.RunIgnores | apps/identity_api/services/session_service.py:40-120 | a change to one agent's or delegation's row commutes with every sequence of steps that neither reads nor writes that row |
| Revocation.RevocationChangesOneRow | apps/identity_api/api/agents.py:143-145 | from any state, revoking an agent changes its row and nothing else, until the row is read or written again |
| Revocation.DelegationRevocationChangesOneRow | apps/identity_api/api/delegations.py:70-73 | the same of a delegation |
| Revocation.DelegationWasGood | apps/identity_api/services/session_service.py:79-97 | a session's delegation was the agent's own and not revoked when its row was read, and not expired when that was checked, which was not after the session began |
| Revocation.RevokedDelegationServes | apps/identity_api/services/session_service.py:79-113 | over any run, a session under a delegation is absent at its revocation and there later exactly if a creation that read its row before, in flight throughout, commits it |
| Revocation.DelegationRevocationIsFinal | apps/identity_api/services/session_service.py:80-84 | a session under a revoked delegation has a creation that read the row before the revocation |
| Revocation.DeactivatedIsDenied | apps/identity_api/api/blueprints.py:96-109 | from a deactivation to the next activation, no session under the blueprint is allowed anything, by either engine |
| Revocation.DeactivatedBeginsNothing | apps/identity_api/services/session_service.py:48-49 | nor does a creation that reads the blueprint in that time ever commit |
| Authorization.AllowNeedsActive | apps/identity_api/api/authorization.py:68-101 | an allow needs a valid token, an unrevoked session, an active agent and an active blueprint, under either engine |
| Authorization.UnauthorizedExactly | apps/identity_api/api/authorization.py:68-101 | 401 exactly without a valid token, an unrevoked session, its agent or its blueprint |
| Authorization.AllowedExactly | apps/identity_api/api/authorization.py:103-149 | on any rows, exactly when the Python engine allows, with which scopes, and when it raises |
| Authorization.RegoAllowedExactly | apps/identity_api/api/authorization.py:103-149 | on any rows, exactly when the Rego engine allows |
| Creation.CreationSucceeds | apps/identity_api/services/session_service.py:27-120 | the status of an uninterrupted creation by its cause: 201 exactly if every condition holds, 400, 422 and 500 exactly for theirs, and waiting exactly for a nonce held elsewhere; it then adds exactly one attestation, one session and one token, and otherwise touches neither tables nor tokens; the request is over unless it waits |
| Creation.CreationIsRun | apps/identity_api/services/session_service.py:27-120 | a creation that answers 201 is a run of its nine steps |
| Creation.NewSessionIsServed | apps/identity_api/api/authorization.py:61-149 | the token of a new session is accepted exactly if its lifetime is positive, and then allowed exactly the tools whose scope was requested and is listed, under the research and environment rules |
| Lifecycle.StatusIsRecoverable | apps/identity_api/api/agents.py:95-145 | in every reachable state an agent's status is the decoding of its three timestamps, unless two of them are one instant; revoked if and only if `revoked_at` is set |
| Lifecycle.AmbiguityIsReal | apps/identity_api/api/agents.py:95-128 | at one instant, active and suspended leave the same timestamps |
| Lifecycle.StatusFollowsCommands | apps/identity_api/api/agents.py:84-163 | from any point of any run on, status and key are what the commands since then made them |
| Lifecycle.TimesFollowCommands | apps/identity_api/api/agents.py:104-145 | each timestamp of an agent is the clock at the last command of its kind that went through; blueprint and URI stay |
| Lifecycle.NewAgent | apps/identity_api/api/agents.py:42-58 | an agent comes from a request under an active blueprint, as a draft with the key given and no timestamp |
| Lifecycle.NewBlueprint | apps/identity_api/api/blueprints.py:31-43 | a blueprint comes from a request within its ranges and with a free slug, as a draft of version 1 with the values given |
| Lifecycle.BlueprintStatusFollows | apps/identity_api/api/blueprints.py:80-109 | from any point of any run on, a blueprint is what the last activation or deactivation since made it |
| Lifecycle.UpdateIsExact | apps/identity_api/api/blueprints.py:74-77 | an update fails exactly if it stores a null where none may be; otherwise name, lists and lifetime hold the last value sent, or what they held, and nothing else changes |
| Lifecycle.VersionCountsUpdates | apps/identity_api/api/blueprints.py:76 | a blueprint's version is 1 plus its number of updates in the run |
| Lifecycle.BlueprintStep | apps/identity_api/api/blueprints.py:61-109 | slugs never change, blueprints never vanish, versions count up only by updates, and the status changes only by activation and deactivation of this blueprint, to active and to inactive |
| Lifecycle.RunKeepsNames | apps/identity_api/api/blueprints.py:38-43 | in every reachable state slugs are unique and every agent's URI is built from its id and its blueprint's present slug |
| Lifecycle.UriRoundTrip | apps/identity_api/api/agents.py:30-31 | a URI decodes to its slug and id, whatever slashes the slug holds |
| Lifecycle.UrisDistinct | packages/identity_models/agent.py:20 | distinct agents have distinct URIs in every reachable state |
| Gateway.SplitAtDot | apps/mcp_gateway/tool_registry/registry.py:17 | a key with one dot comes from one pair of strings only |
| Gateway.SharedTools | packages/policy_client/python_adapter.py:12-52 | for all strings, the pairs known to registry and policy are six, with one key and one required scope on both sides |
| Gateway.RegistryIsExact | apps/mcp_gateway/tool_registry/registry.py:3-21 | for all strings, which pairs the registry knows and what it requires |
| Gateway.RefusalsByCause | apps/mcp_gateway/main.py:55-77 | for every token, or none, and every answer of the identity API, what is forwarded and the status of each refusal; without a token it is 401, whatever the answer |
| Gateway.ForwardedMeansAgreed | apps/mcp_gateway/main.py:55-77 | forwarded exactly if there is a token, it is valid, the pair is one of the six and the identity API allows; the scopes granted are those the registry requires |
| Gateway.ForwardedWasRequested | apps/mcp_gateway/main.py:55-77 | over a run, what is forwarded was requested at creation, is listed by the blueprint as read, and is all that the registry requires |
| Witness.WorldExists | packages/attestation/verifier.py:87-102 | ideal signing, with the rest of what the witnesses need, is possible |
| Witness.ReadyToCreate | apps/identity_api/services/session_service.py:42-49 | a run of six administrative requests reaches a state in which the client's request meets everything |
| Witness.RevokedAgentHasSession | apps/identity_api/services/session_service.py:41-49 | a run that ends with a revoked agent and its new session |
| Witness.DelegationEndsBeforeSession | apps/identity_api/services/session_service.py:80-97 | a run in which a session begins after its delegation was revoked and has expired |
| Witness.LifelessSession | packages/identity_models/schemas.py:28 | a run that stores a session of no lifetime, whose token is never accepted |
| Witness.NullScopesRaise | packages/identity_models/schemas.py:26 | a run after which authorize fails for want of a list |
| Witness.AmbiguousAgent | apps/identity_api/api/agents.py:104-128 | two runs that end in different statuses with the same timestamps |
| Witness.OwnSignatureIsRejected | packages/common/client.py:69-82 | the client's claims are verified without, and rejected with, one override |

## Assumptions

- The clock is one, counts microseconds, and may stand still but not run backwards.
- An identifier made by `uuid4` has never been handed out before. A step that
  would repeat one fails.
- Signing is ideal: only the service makes tokens, so a token is its claims. For
  attestations the two halves of that idealisation are the hypotheses `Correct`
  and `Binding` of the lemmas that use them, and `Ideal`, which adds that no other
  registered text accepts the signature. `iss` and `aud` have one value each.
- An administrative handler, a revocation of a session or a delegation, one audit
  write, and each row that `authorize` or a session creation reads are atomic. The
  reads of one request may lie any number of steps apart.
- A unique index refuses a committed duplicate and waits for an uncommitted one;
  a JSON column stores null, other columns refuse it.

## Left out

- Floats, lone surrogates, naive times in `data` and other values that reach `default=str`: the canonical form is not injective on them, or the code raises.
- SHA-256, RSA, PEM parsing, JWT encoding, `fromisoformat` and `isoformat`: parameters or idealised.
- Removing the tail of the audit chain, and the columns outside `data`, `previous_hash` and `record_hash`: not covered by the chain, as `HashChain.PrefixValid` shows for the tail.
- Overlapping audit writes: two writers that read one head are not modelled.
- Columns that no modelled decision reads: description, owner, sponsor, metadata, approved models, tool permissions, runtime requirements, model and prompt version, the other attestation columns, the user, scopes and constraints of a delegation.
- Column length limits: exceeding one is a failing insert, which is the rollback that may come at any time.
- The text of error messages, and pydantic's coercions in front of the handlers.
- Admin keys, bearer headers, CORS, logging and the read-only list and get endpoints.
- `OPAAdapter` health probing and HTTP failures: the engine is a parameter of `authorize`, and an unreachable server only denies.
- The forwarder, and the token broker, which issues a lease without consulting sessions or policy.
- Overflow of `datetime` for lifetimes of thousands of years.
- Revocation.DelegationWasGood: does not promise that a session begins before its delegation expires or is revoked, because the handler reads the row, checks it and takes the session's time at three moments (`Witness.DelegationEndsBeforeSession`).
- Revocation.DelegationRevocationIsFinal: does not promise that nothing is granted under a delegation after its revocation, for the same reason; it places the reading of the row before the revocation.
