// The two policy engines: packages/policy_client/python_adapter.py and
// policies/agent_access.rego, on one input type.
module Policy {
  import opened Text

  // A list under a dict key: the key may be absent, or hold null (a blueprint
  // update can store null in a JSON column).
  datatype ListField = Absent | Null | Items(items: seq<string>) {
    function Or(default: seq<string>): seq<string>
      requires !Null?
    {
      if Absent? then default else items
    }
  }

  datatype PolicyInput = PolicyInput(
    agentStatus: Option<string>,
    agentScopes: ListField,
    blueprintStatus: Option<string>,
    slug: Option<string>,
    maxScopes: ListField,
    approvedEnvironments: ListField,
    userScopes: ListField,
    environment: Option<string>,
    toolId: Option<string>,
    operation: Option<string>,
    requestedScopes: ListField)

  datatype Reason =
    | AgentNotActive
    | BlueprintNotActive
    | UnknownTool(key: string)
    | ResearchWrite
    | EnvironmentNotApproved(environment: string)
    | NoScopes(removed: seq<string>)
    | DeniedByDefault

  // Raise stands for the TypeError of `set(None)`.
  datatype Decision = Allow(scopes: seq<string>) | Deny(reason: Reason, denyScopes: seq<string>) | Raise

  function OrEmpty(s: Option<string>): string {
    if s.Some? then s.value else ""
  }

  predicate EndsWith(s: string, suffix: string) {
    |suffix| <= |s| && s[|s| - |suffix|..] == suffix
  }

  function Filter(xs: seq<string>, p: string -> bool): (r: seq<string>)
    ensures forall x :: x in r <==> x in xs && p(x)
  {
    if xs == [] then []
    else
      assert xs == [xs[0]] + xs[1..];
      (if p(xs[0]) then [xs[0]] else []) + Filter(xs[1..], p)
  }

  // ---- the Python engine ----

  function ToolScopeMap(key: string): Option<seq<string>> {
    if key == "github.search_code" then Some(["repo:read"])
    else if key == "github.create_issue" then Some(["issues:write"])
    else if key == "github.list_repos" then Some(["repo:read"])
    else if key == "github.list_issues" then Some(["issues:read"])
    else if key == "confluence.search" then Some(["pages:read"])
    else if key == "confluence.create_page" then Some(["pages:write"])
    else None
  }

  function ToolKey(toolId: string, operation: string): string {
    if toolId != "" && operation != "" then toolId + "." + operation else toolId
  }

  function Evaluate(input: PolicyInput): Decision {
    if input.agentStatus != Some("active") then Deny(AgentNotActive, [])
    else if input.blueprintStatus != Some("active") then Deny(BlueprintNotActive, [])
    else
      var key := ToolKey(OrEmpty(input.toolId), OrEmpty(input.operation));
      match ToolScopeMap(key)
      case None => Deny(UnknownTool(key), [])
      case Some(required) =>
        if input.slug == Some("research-agent") && exists s | s in required :: EndsWith(s, ":write")
        then Deny(ResearchWrite, [])
        else
          var env := OrEmpty(input.environment);
          if input.approvedEnvironments.Items? && input.approvedEnvironments.items != []
             && env !in input.approvedEnvironments.items
          then Deny(EnvironmentNotApproved(env), [])
          else Intersect(input, required)
  }

  // The part of evaluate that works on sets of scopes.
  function Intersect(input: PolicyInput, required: seq<string>): Decision {
    if input.agentScopes.Null? || input.maxScopes.Null? || input.userScopes.Null? || input.requestedScopes.Null?
    then Raise
    else
      var agent, max, user := input.agentScopes.Or([]), input.maxScopes.Or([]), input.userScopes.Or([]);
      var requested := input.requestedScopes.Or(required);
      var effective := Filter(requested, s =>
        s in agent && s in max && s in required && (user != [] ==> s in user));
      if effective == []
      then Deny(NoScopes(SortedSet(Filter(requested, s => s !in effective))), [])
      else Allow(SortedSet(effective))
  }

  // ---- what the Python engine promises ----

  ghost predicate IsWrite(s: string) {
    exists front: string :: s == front + ":write"
  }

  lemma EndsWithMeaning(s: string, suffix: string)
    ensures EndsWith(s, suffix) <==> exists front: string :: s == front + suffix
  {
    if EndsWith(s, suffix) {
      assert s == s[..|s| - |suffix|] + suffix;
    }
    if front: string :| s == front + suffix {
      assert s[|front|..] == suffix;
    }
  }

  // The tools that the engine knows, and those of them that write.
  const TOOLS := {"github.search_code", "github.create_issue", "github.list_repos", "github.list_issues",
                  "confluence.search", "confluence.create_page"}
  const WRITE_TOOLS := {"github.create_issue", "confluence.create_page"}

  // Each known tool needs one scope; it is a write scope for the write tools.
  lemma ToolTable(key: string)
    ensures ToolScopeMap(key).Some? <==> key in TOOLS
    ensures key in TOOLS ==>
      |ToolScopeMap(key).value| == 1 && (IsWrite(ToolScopeMap(key).value[0]) <==> key in WRITE_TOOLS)
    ensures ToolScopeMap("github.search_code") == ToolScopeMap("github.list_repos") == Some(["repo:read"])
    ensures ToolScopeMap("github.list_issues") == Some(["issues:read"])
    ensures ToolScopeMap("github.create_issue") == Some(["issues:write"])
    ensures ToolScopeMap("confluence.search") == Some(["pages:read"])
    ensures ToolScopeMap("confluence.create_page") == Some(["pages:write"])
  {
    ReadsAreNotWrites();
    WritesAreWrites();
    hide IsWrite;
  }

  // The key of a request, spelled out.
  ghost predicate IsKey(input: PolicyInput, key: string) {
    var tool := if input.toolId.Some? then input.toolId.value else "";
    key == if input.operation.None? || input.operation.value == "" || tool == "" then tool
           else tool + "." + input.operation.value
  }

  lemma KeyMeaning(input: PolicyInput)
    ensures IsKey(input, ToolKey(OrEmpty(input.toolId), OrEmpty(input.operation)))
  {
  }

  // The side conditions on statuses, tool, research writes and environment.
  ghost predicate Permits(input: PolicyInput) {
    var required := ToolScopeMap(ToolKey(OrEmpty(input.toolId), OrEmpty(input.operation)));
    && input.agentStatus == Some("active")
    && input.blueprintStatus == Some("active")
    && required.Some?
    && (input.slug == Some("research-agent") ==> forall s :: s in required.value ==> !IsWrite(s))
    && (input.approvedEnvironments.Items? && input.approvedEnvironments.items != [] ==>
          OrEmpty(input.environment) in input.approvedEnvironments.items)
  }

  ghost predicate Readable(input: PolicyInput) {
    !input.agentScopes.Null? && !input.maxScopes.Null? && !input.userScopes.Null? && !input.requestedScopes.Null?
  }

  // Absent requested scopes default to the required ones; absent or empty
  // user scopes do not restrict.
  ghost predicate Listed(f: ListField, s: string) {
    f.Items? && s in f.items
  }

  ghost predicate Granted(input: PolicyInput, s: string) {
    var required := ToolScopeMap(ToolKey(OrEmpty(input.toolId), OrEmpty(input.operation)));
    && required.Some? && s in required.value
    && (input.requestedScopes.Absent? || Listed(input.requestedScopes, s))
    && Listed(input.agentScopes, s)
    && Listed(input.maxScopes, s)
    && (input.userScopes.Items? && input.userScopes.items != [] ==> Listed(input.userScopes, s))
  }

  // The whole behaviour: when it allows, what it returns, and when it raises.
  lemma EvaluateMeetsSpec(input: PolicyInput)
    ensures Evaluate(input).Allow? <==>
      Permits(input) && Readable(input) && exists s :: Granted(input, s)
    ensures Evaluate(input).Raise? <==> Permits(input) && !Readable(input)
    ensures Evaluate(input).Allow? ==>
      && Increasing(Evaluate(input).scopes)
      && forall s :: s in Evaluate(input).scopes <==> Granted(input, s)
  {
    var key := ToolKey(OrEmpty(input.toolId), OrEmpty(input.operation));
    if ToolScopeMap(key).Some? { RequiredWrites(ToolScopeMap(key).value); }
    hide EndsWith, IsWrite;
    if Permits(input) && Readable(input) {
      var required := ToolScopeMap(ToolKey(OrEmpty(input.toolId), OrEmpty(input.operation))).value;
      var agent, max, user := input.agentScopes.Or([]), input.maxScopes.Or([]), input.userScopes.Or([]);
      var requested := input.requestedScopes.Or(required);
      var effective := Filter(requested, s =>
        s in agent && s in max && s in required && (user != [] ==> s in user));
      assert Evaluate(input) == Intersect(input, required) by { RequiredWrites(required); }
      assert forall s :: s in effective <==> Granted(input, s);
      if effective != [] { assert effective[0] in effective; }
    }
  }

  lemma RequiredWrites(required: seq<string>)
    ensures (exists s | s in required :: EndsWith(s, ":write")) <==> exists s :: s in required && IsWrite(s)
  {
    forall s | s in required ensures EndsWith(s, ":write") <==> IsWrite(s) { EndsWithMeaning(s, ":write"); }
    hide EndsWith, IsWrite;
  }

  lemma PermittedIsIntersected(input: PolicyInput)
    requires Permits(input)
    ensures Evaluate(input)
         == Intersect(input, ToolScopeMap(ToolKey(OrEmpty(input.toolId), OrEmpty(input.operation))).value)
  {
    RequiredWrites(ToolScopeMap(ToolKey(OrEmpty(input.toolId), OrEmpty(input.operation))).value);
    hide EndsWith, IsWrite, Intersect, ToolScopeMap, ToolKey;
  }

  // A research agent is never allowed to write ...
  lemma ResearchNeverWrites(input: PolicyInput)
    requires input.slug == Some("research-agent")
    requires (input.toolId == Some("github") && input.operation == Some("create_issue"))
          || (input.toolId == Some("confluence") && input.operation == Some("create_page"))
    ensures !Evaluate(input).Allow?
    ensures input.agentStatus == input.blueprintStatus == Some("active") ==> Evaluate(input) == Deny(ResearchWrite, [])
  {
    assert ToolKey("github", "create_issue") == "github.create_issue";
    assert ToolKey("confluence", "create_page") == "confluence.create_page";
    EndsWithMeaning("issues:write", ":write");
    EndsWithMeaning("pages:write", ":write");
    WritesAreWrites();
    hide EndsWith, IsWrite;
    var key := ToolKey(input.toolId.value, input.operation.value);
    assert ToolScopeMap(key).value[0] in ToolScopeMap(key).value;
  }

  // ... and with a tool that reads it is treated as any other.
  lemma ResearchReadsAlike(input: PolicyInput, slug: string, key: string)
    requires IsKey(input, key) && key in TOOLS - WRITE_TOOLS
    ensures Evaluate(input) == Evaluate(input.(slug := Some(slug)))
  {
    KeyMeaning(input);
    ToolTable(key);
    RequiredWrites(ToolScopeMap(key).value);
    hide EndsWith, IsWrite, Intersect, ToolScopeMap, ToolKey;
    SlugUnread(input, slug, ToolScopeMap(key).value);
  }

  lemma SlugUnread(input: PolicyInput, slug: string, required: seq<string>)
    ensures Intersect(input, required) == Intersect(input.(slug := Some(slug)), required)
  {
  }

  // What is true when a denial gives this reason.  The reasons exclude each
  // other, so that the reason of a denial is determined.
  ghost predicate ReasonHolds(input: PolicyInput, reason: Reason) {
    var active := input.agentStatus == input.blueprintStatus == Some("active");
    match reason
    case AgentNotActive => input.agentStatus != Some("active")
    case BlueprintNotActive => input.agentStatus == Some("active") && input.blueprintStatus != Some("active")
    case UnknownTool(key) => active && IsKey(input, key) && key !in TOOLS
    case ResearchWrite =>
      active && input.slug == Some("research-agent") && exists key :: IsKey(input, key) && key in WRITE_TOOLS
    case EnvironmentNotApproved(environment) =>
      && active && environment == (if input.environment.Some? then input.environment.value else "")
      && (exists key :: IsKey(input, key) && key in TOOLS && !(input.slug == Some("research-agent") && key in WRITE_TOOLS))
      && input.approvedEnvironments.Items? && input.approvedEnvironments.items != []
      && environment !in input.approvedEnvironments.items
    case NoScopes(removed) =>
      && Permits(input) && Readable(input) && (forall s :: !Granted(input, s))
      && Increasing(removed)
      && (forall s :: Listed(input.requestedScopes, s) ==> s in removed)
      && (input.requestedScopes.Items? ==> forall s :: s in removed ==> Listed(input.requestedScopes, s))
    case DeniedByDefault => false
  }

  lemma DenialHasItsReason(input: PolicyInput)
    requires Evaluate(input).Deny?
    ensures ReasonHolds(input, Evaluate(input).reason) && Evaluate(input).denyScopes == []
  {
    var key := ToolKey(OrEmpty(input.toolId), OrEmpty(input.operation));
    KeyMeaning(input);
    ToolTable(key);
    EvaluateMeetsSpec(input);
    if ToolScopeMap(key).Some? {
      var required := ToolScopeMap(key).value;
      RequiredWrites(required);
      hide EndsWith, IsWrite, ToolScopeMap, ToolKey, IsKey;
      assert required[0] in required;
      if Intersect(input, required).Deny? {
        RemovedIsRequested(input, required);
      }
      hide Intersect;
    }
  }

  // Every tool needs exactly one scope, so an allow grants exactly that scope.
  lemma AllowGrantsRequired(input: PolicyInput)
    requires Evaluate(input).Allow?
    ensures
      var required := ToolScopeMap(ToolKey(OrEmpty(input.toolId), OrEmpty(input.operation)));
      required.Some? && |required.value| == 1 && Evaluate(input).scopes == required.value
  {
    EvaluateMeetsSpec(input);
    hide Evaluate, ToolScopeMap, ToolKey;
    var key := ToolKey(OrEmpty(input.toolId), OrEmpty(input.operation));
    RequiresOne(key);
    var s :| Granted(input, s);
    OnlyRequired(Evaluate(input).scopes, ToolScopeMap(key).value);
  }

  lemma OnlyRequired(scopes: seq<string>, required: seq<string>)
    requires Increasing(scopes) && scopes != [] && |required| == 1
    requires forall s :: s in scopes ==> s in required
    ensures scopes == required
  {
    assert scopes[0] in scopes;
    if |scopes| > 1 {
      assert scopes[1] in scopes;
      LessIrreflexive(required[0]);
    }
  }

  lemma RequiresOne(key: string)
    ensures ToolScopeMap(key).Some? ==> |ToolScopeMap(key).value| == 1
  {
  }

  // f lists whatever e lists, and is null exactly when e is.
  ghost predicate Within(e: ListField, f: ListField) {
    (e.Null? <==> f.Null?) && forall s :: Listed(e, s) ==> Listed(f, s)
  }

  ghost predicate SameList(e: ListField, f: ListField) {
    (e.Absent? <==> f.Absent?) && Within(e, f) && Within(f, e)
  }

  // Growing the requested, agent or blueprint scopes, or a non-empty set of
  // user scopes, keeps an allow and every scope it grants.  The requested
  // scopes may also become absent, which means "all required ones".
  lemma EvaluateMonotone(a: PolicyInput, b: PolicyInput)
    requires b == a.(agentScopes := b.agentScopes, maxScopes := b.maxScopes,
                     userScopes := b.userScopes, requestedScopes := b.requestedScopes)
    requires Within(a.agentScopes, b.agentScopes) && Within(a.maxScopes, b.maxScopes)
    requires b.requestedScopes.Absent? || (!a.requestedScopes.Absent? && Within(a.requestedScopes, b.requestedScopes))
    requires
      || a.userScopes == b.userScopes
      || (a.userScopes.Items? && a.userScopes.items != [] && Within(a.userScopes, b.userScopes))
    requires Evaluate(a).Allow?
    ensures Evaluate(b).Allow?
    ensures forall s :: s in Evaluate(a).scopes ==> s in Evaluate(b).scopes
  {
    EvaluateMeetsSpec(a);
    EvaluateMeetsSpec(b);
    forall s | Granted(a, s) ensures Granted(b, s) {}
  }

  // Only the sets of scopes matter: order and repetitions do not.
  lemma EvaluateDependsOnSets(a: PolicyInput, b: PolicyInput)
    requires b == a.(agentScopes := b.agentScopes, maxScopes := b.maxScopes,
                     userScopes := b.userScopes, requestedScopes := b.requestedScopes)
    requires SameList(a.agentScopes, b.agentScopes) && SameList(a.maxScopes, b.maxScopes)
    requires SameList(a.userScopes, b.userScopes) && SameList(a.requestedScopes, b.requestedScopes)
    ensures Evaluate(a) == Evaluate(b)
  {
    EvaluateMeetsSpec(a);
    EvaluateMeetsSpec(b);
    if a.userScopes.Items? { SameEmptiness(a.userScopes, b.userScopes); }
    assert Permits(a) <==> Permits(b);
    assert forall s :: Granted(a, s) <==> Granted(b, s);
    if Evaluate(a).Allow? {
      IncreasingUnique(Evaluate(a).scopes, Evaluate(b).scopes);
    } else if Evaluate(a).Deny? && Permits(a) {
      assert Evaluate(b).Deny?;
      var required := ToolScopeMap(ToolKey(OrEmpty(a.toolId), OrEmpty(a.operation))).value;
      PermittedIsIntersected(a);
      PermittedIsIntersected(b);
      RemovedIsRequested(a, required);
      RemovedIsRequested(b, required);
      forall s ensures s in a.requestedScopes.Or(required) <==> s in b.requestedScopes.Or(required) {
        assert Listed(a.requestedScopes, s) <==> Listed(b.requestedScopes, s);
      }
      IncreasingUnique(Evaluate(a).reason.removed, Evaluate(b).reason.removed);
    }
  }

  lemma SameEmptiness(e: ListField, f: ListField)
    requires SameList(e, f) && e.Items?
    ensures f.Items? && (e.items == [] <==> f.items == [])
  {
    if e.items != [] { assert Listed(e, e.items[0]); }
    if f.Items? && f.items != [] { assert Listed(f, f.items[0]); }
  }

  // A denial for lack of scopes lists all requested scopes as removed.
  lemma RemovedIsRequested(input: PolicyInput, required: seq<string>)
    requires Intersect(input, required).Deny?
    ensures
      var d := Intersect(input, required);
      && d.reason.NoScopes? && d.denyScopes == [] && Increasing(d.reason.removed)
      && forall s :: s in d.reason.removed <==> s in input.requestedScopes.Or(required)
  {
  }

  // Asking again for what was granted changes nothing.
  lemma EvaluateIdempotent(input: PolicyInput)
    requires Evaluate(input).Allow?
    ensures Evaluate(input.(requestedScopes := Items(Evaluate(input).scopes))) == Evaluate(input)
  {
    var again := input.(requestedScopes := Items(Evaluate(input).scopes));
    EvaluateMeetsSpec(input);
    EvaluateMeetsSpec(again);
    assert forall s :: Granted(input, s) <==> Granted(again, s);
    var s :| Granted(input, s);
    assert Granted(again, s);
    IncreasingUnique(Evaluate(input).scopes, Evaluate(again).scopes);
  }

  // ---- the Rego engine ----

  // An undefined or null reference makes a rule body fail.
  predicate RegoAllow(input: PolicyInput) {
    && input.agentStatus == Some("active")
    && input.blueprintStatus == Some("active")
    && input.requestedScopes.Items?
    && exists s | s in input.requestedScopes.items :: RegoRule(input.toolId, input.operation, s)
  }

  // The three allow rules: tool, operation and the scope they look for.
  predicate RegoRule(toolId: Option<string>, operation: Option<string>, s: string) {
    || (toolId == Some("github") && operation == Some("search_code") && s == "repo:read")
    || (toolId == Some("github") && operation == Some("list_issues") && s == "issues:read")
    || (toolId == Some("confluence") && operation == Some("search") && s == "pages:read")
  }

  function RegoScopes(input: PolicyInput): seq<string> {
    if input.requestedScopes.Items? && input.agentScopes.Items? && input.maxScopes.Items?
    then Filter(input.requestedScopes.items, s => s in input.agentScopes.items && s in input.maxScopes.items)
    else []
  }

  function RegoDenyReason(input: PolicyInput): Reason {
    if input.slug == Some("research-agent") && input.requestedScopes.Items?
       && exists s | s in input.requestedScopes.items :: EndsWith(s, ":write")
    then ResearchWrite
    else DeniedByDefault
  }

  // OPAAdapter.evaluate on a reachable server.
  function RegoEvaluate(input: PolicyInput): Decision {
    if RegoAllow(input) then Allow(RegoScopes(input))
    else Deny(RegoDenyReason(input), RegoScopes(input))
  }

  ghost predicate RegoCovers(input: PolicyInput) {
    exists s :: RegoRule(input.toolId, input.operation, s)
  }

  // Among the requests the Python engine allows with explicit requested
  // scopes, Rego allows exactly those for one of its three (tool, operation)
  // pairs, and then grants at least the same scopes.
  lemma PythonRefinesRego(input: PolicyInput)
    requires Evaluate(input).Allow? && input.requestedScopes.Items?
    ensures RegoEvaluate(input).Allow? <==> RegoCovers(input)
    ensures forall s :: s in Evaluate(input).scopes ==> s in RegoScopes(input)
  {
    EvaluateMeetsSpec(input);
    RegoRuleScope(input.toolId, input.operation);
    var s :| Granted(input, s);
  }

  lemma RegoRuleScope(toolId: Option<string>, operation: Option<string>)
    ensures forall s :: RegoRule(toolId, operation, s) ==>
      ToolScopeMap(ToolKey(OrEmpty(toolId), OrEmpty(operation))) == Some([s])
  {
    assert ToolKey("github", "search_code") == "github.search_code";
    assert ToolKey("github", "list_issues") == "github.list_issues";
    assert ToolKey("confluence", "search") == "confluence.search";
  }

  // Conversely, on a Rego allow the Python engine allows exactly when it can
  // read the scopes, the environment is approved, and agent, blueprint and
  // user all carry the scope the rule looked for.
  lemma RegoAllowsMore(input: PolicyInput, s: string)
    requires RegoEvaluate(input).Allow? && RegoRule(input.toolId, input.operation, s)
    ensures Evaluate(input).Allow? <==>
      && Readable(input)
      && (input.approvedEnvironments.Items? && input.approvedEnvironments.items != [] ==>
            OrEmpty(input.environment) in input.approvedEnvironments.items)
      && Listed(input.agentScopes, s) && Listed(input.maxScopes, s)
      && (input.userScopes.Items? && input.userScopes.items != [] ==> Listed(input.userScopes, s))
  {
    EvaluateMeetsSpec(input);
    RegoRuleScope(input.toolId, input.operation);
    ReadsAreNotWrites();
    hide Evaluate, ToolScopeMap, ToolKey, IsWrite;
    assert Listed(input.requestedScopes, s) by { RegoScopeRequested(input, s); }
    var required := ToolScopeMap(ToolKey(OrEmpty(input.toolId), OrEmpty(input.operation)));
    assert required == Some([s]) && !IsWrite(s);
    assert Granted(input, s) <==>
      && Listed(input.agentScopes, s) && Listed(input.maxScopes, s)
      && (input.userScopes.Items? && input.userScopes.items != [] ==> Listed(input.userScopes, s));
    assert Evaluate(input).Allow? ==> Granted(input, s) by {
      if Evaluate(input).Allow? { var t :| Granted(input, t); }
    }
  }

  // So Rego may allow a request and grant it nothing, where Python denies.
  lemma RegoGrantsNothing(environment: string)
    ensures
      var input := PolicyInput(Some("active"), Items(["repo:read"]), Some("active"), Some("b"), Items([]), Items([]),
                               Items([]), Some(environment), Some("github"), Some("search_code"), Items(["repo:read"]));
      RegoEvaluate(input) == Allow([]) && Evaluate(input) == Deny(NoScopes(["repo:read"]), [])
  {
    var input := PolicyInput(Some("active"), Items(["repo:read"]), Some("active"), Some("b"), Items([]), Items([]),
                             Items([]), Some(environment), Some("github"), Some("search_code"), Items(["repo:read"]));
    assert ToolKey("github", "search_code") == "github.search_code";
    assert "repo:read" in input.requestedScopes.items && RegoRule(input.toolId, input.operation, "repo:read");
    assert RegoScopes(input) == [];
    RemovedIsRequested(input, ["repo:read"]);
    IncreasingUnique(Evaluate(input).reason.removed, ["repo:read"]);
  }

  lemma RegoScopeRequested(input: PolicyInput, s: string)
    requires RegoAllow(input) && RegoRule(input.toolId, input.operation, s)
    ensures Listed(input.requestedScopes, s)
  {
  }

  lemma ReadsAreNotWrites()
    ensures !IsWrite("repo:read") && !IsWrite("issues:read") && !IsWrite("pages:read")
  {
    EndsWithMeaning("repo:read", ":write");
    EndsWithMeaning("issues:read", ":write");
    EndsWithMeaning("pages:read", ":write");
  }

  lemma WritesAreWrites()
    ensures IsWrite("issues:write") && IsWrite("pages:write")
  {
    assert "issues:write" == "issues" + ":write" && "pages:write" == "pages" + ":write";
  }

  // ---- what the Rego engine promises ----

  // The pairs that Rego's three rules cover.
  lemma RegoPairs(input: PolicyInput)
    ensures RegoCovers(input) <==>
      (input.toolId, input.operation) in {(Some("github"), Some("search_code")), (Some("github"), Some("list_issues")),
                                          (Some("confluence"), Some("search"))}
  {
    if input.toolId == Some("github") && input.operation == Some("search_code") {
      assert RegoRule(input.toolId, input.operation, "repo:read");
    } else if input.toolId == Some("github") && input.operation == Some("list_issues") {
      assert RegoRule(input.toolId, input.operation, "issues:read");
    } else if input.toolId == Some("confluence") && input.operation == Some("search") {
      assert RegoRule(input.toolId, input.operation, "pages:read");
    }
  }

  // Rego allows exactly what is active and asks for the scope of its rule; a
  // denial speaks of research exactly if a research agent asked for a write;
  // either way it lists what was requested and both agent and blueprint carry.
  lemma RegoMeetsSpec(input: PolicyInput)
    ensures RegoEvaluate(input).Allow? <==>
      && input.agentStatus == input.blueprintStatus == Some("active")
      && exists s :: RegoRule(input.toolId, input.operation, s) && Listed(input.requestedScopes, s)
    ensures RegoEvaluate(input).Deny? <==> !RegoEvaluate(input).Allow?
    ensures
      var scopes := if RegoEvaluate(input).Allow? then RegoEvaluate(input).scopes else RegoEvaluate(input).denyScopes;
      forall s :: s in scopes <==>
        Listed(input.requestedScopes, s) && Listed(input.agentScopes, s) && Listed(input.maxScopes, s)
    ensures RegoEvaluate(input).Deny? ==>
      RegoEvaluate(input).reason ==
        if input.slug == Some("research-agent") && exists s :: Listed(input.requestedScopes, s) && IsWrite(s)
        then ResearchWrite else DeniedByDefault
  {
    if input.requestedScopes.Items? {
      RequiredWrites(input.requestedScopes.items);
    }
    hide EndsWith, IsWrite, RegoRule;
    if s :| RegoRule(input.toolId, input.operation, s) && Listed(input.requestedScopes, s) {
      assert s in input.requestedScopes.items;
    }
    if s :| Listed(input.requestedScopes, s) && IsWrite(s) {
      assert s in input.requestedScopes.items;
    }
  }

  lemma {:induction false} FilterConcat(xs: seq<string>, ys: seq<string>, p: string -> bool)
    ensures Filter(xs + ys, p) == Filter(xs, p) + Filter(ys, p)
  {
    if xs == [] {
      assert xs + ys == ys;
    } else {
      assert (xs + ys)[1..] == xs[1..] + ys;
      FilterConcat(xs[1..], ys, p);
    }
  }

  // Rego's scopes come in the order requested, repetitions included.
  lemma RegoScopesInOrder(input: PolicyInput, a: seq<string>, b: seq<string>, s: string)
    requires input.agentScopes.Items? && input.maxScopes.Items?
    ensures RegoScopes(input.(requestedScopes := Items(a + b)))
         == RegoScopes(input.(requestedScopes := Items(a))) + RegoScopes(input.(requestedScopes := Items(b)))
    ensures RegoScopes(input.(requestedScopes := Items([s])))
         == if s in input.agentScopes.items && s in input.maxScopes.items then [s] else []
  {
    FilterConcat(a, b, s => s in input.agentScopes.items && s in input.maxScopes.items);
    FilterOne(s, s => s in input.agentScopes.items && s in input.maxScopes.items);
  }

  lemma FilterOne(s: string, p: string -> bool)
    ensures Filter([s], p) == if p(s) then [s] else []
  {
    assert [s][1..] == [];
  }
}
