// The MCP gateway in front of the tools: apps/mcp_gateway.
module Gateway {
  import opened Text
  import opened ControlPlane
  import opened Authorization
  import opened History
  import Grants
  import Policy

  // apps/mcp_gateway/tool_registry/registry.py
  function ToolMappings(key: string): Option<seq<string>> {
    if key == "github.search_code" then Some(["repo:read"])
    else if key == "github.list_repos" then Some(["repo:read"])
    else if key == "github.create_issue" then Some(["issues:write"])
    else if key == "github.list_issues" then Some(["issues:read"])
    else if key == "github.read_file" then Some(["repo:read"])
    else if key == "confluence.search" then Some(["pages:read"])
    else if key == "confluence.create_page" then Some(["pages:write"])
    else if key == "confluence.update_page" then Some(["pages:write"])
    else None
  }

  function RequiredScopes(tool: string, operation: string): Option<seq<string>> {
    ToolMappings(tool + "." + operation)
  }

  // The gateway refuses with an HTTP status, or forwards the request.
  datatype Verdict = Refused(status: int) | Forwarded

  // proxy_mcp_request: validate the token, look the tool up, ask the identity
  // API, and only then forward.  The token is None when the header is missing
  // or holds no token.
  function Proxy(token: Option<Token>, issued: set<Token>, now: int, tool: string, operation: string,
                 answer: Answer): Verdict {
    if token.None? || !ValidToken(token.value, issued, now) then Refused(401)
    else if RequiredScopes(tool, operation).None? then Refused(403)
    else match answer
      case Unauthorized => Refused(401)
      case Decided(Raise) => Refused(502)
      case Decided(Deny(_, _)) => Refused(403)
      case Decided(Allow(_)) => Forwarded
  }

  // No string with one dot splits there in another way.
  lemma SplitAtDot(tool: string, operation: string, a: string, b: string, key: string)
    requires key == a + "." + b && '.' !in a && '.' !in b
    ensures tool + "." + operation == key <==> tool == a && operation == b
  {
    if tool + "." + operation == key {
      assert key[|tool|] == '.';
      assert forall i :: 0 <= i < |key| && key[i] == '.' ==> i == |a|;
      assert key[..|a|] == a && key[..|tool|] == tool;
      assert key[|a| + 1..] == b && key[|tool| + 1..] == operation;
    }
  }

  predicate KnownToBoth(tool: string, operation: string) {
    || (tool == "github" && operation == "search_code")
    || (tool == "github" && operation == "create_issue")
    || (tool == "github" && operation == "list_repos")
    || (tool == "github" && operation == "list_issues")
    || (tool == "confluence" && operation == "search")
    || (tool == "confluence" && operation == "create_page")
  }

  // What the registry knows is one of eight pairs, whatever strings are tried.
  lemma GithubKeys(tool: string, operation: string)
    ensures tool + "." + operation == "github.search_code" <==> tool == "github" && operation == "search_code"
    ensures tool + "." + operation == "github.list_repos" <==> tool == "github" && operation == "list_repos"
    ensures tool + "." + operation == "github.read_file" <==> tool == "github" && operation == "read_file"
  {
    SplitAtDot(tool, operation, "github", "search_code", "github.search_code");
    SplitAtDot(tool, operation, "github", "list_repos", "github.list_repos");
    SplitAtDot(tool, operation, "github", "read_file", "github.read_file");
  }

  lemma IssueKeys(tool: string, operation: string)
    ensures tool + "." + operation == "github.create_issue" <==> tool == "github" && operation == "create_issue"
    ensures tool + "." + operation == "github.list_issues" <==> tool == "github" && operation == "list_issues"
  {
    SplitAtDot(tool, operation, "github", "create_issue", "github.create_issue");
    SplitAtDot(tool, operation, "github", "list_issues", "github.list_issues");
  }

  lemma ConfluenceKeys(tool: string, operation: string)
    ensures tool + "." + operation == "confluence.search" <==> tool == "confluence" && operation == "search"
    ensures tool + "." + operation == "confluence.create_page" <==> tool == "confluence" && operation == "create_page"
    ensures tool + "." + operation == "confluence.update_page" <==> tool == "confluence" && operation == "update_page"
  {
    SplitAtDot(tool, operation, "confluence", "search", "confluence.search");
    SplitAtDot(tool, operation, "confluence", "create_page", "confluence.create_page");
    SplitAtDot(tool, operation, "confluence", "update_page", "confluence.update_page");
  }

  // The tools known to the registry and to the Python engine.
  lemma SharedTools(tool: string, operation: string)
    ensures RequiredScopes(tool, operation).Some? && Policy.ToolScopeMap(Policy.ToolKey(tool, operation)).Some?
       <==> KnownToBoth(tool, operation)
    ensures KnownToBoth(tool, operation) ==>
      && tool != "" && operation != ""
      && Policy.ToolKey(tool, operation) == tool + "." + operation
      && RequiredScopes(tool, operation) == Policy.ToolScopeMap(Policy.ToolKey(tool, operation))
  {
    GithubKeys(tool, operation);
    IssueKeys(tool, operation);
    ConfluenceKeys(tool, operation);
    hide Policy.ToolKey;
    if RequiredScopes(tool, operation).Some? || KnownToBoth(tool, operation) {
      RegistryKeysAreWhole(tool, operation);
    }
  }

  // A pair in the registry has two non-empty parts, so that the Python engine
  // forms the same key.
  lemma RegistryKeysAreWhole(tool: string, operation: string)
    requires RequiredScopes(tool, operation).Some? || KnownToBoth(tool, operation)
    ensures tool != "" && operation != "" && Policy.ToolKey(tool, operation) == tool + "." + operation
  {
    GithubKeys(tool, operation);
    IssueKeys(tool, operation);
    ConfluenceKeys(tool, operation);
  }

  // What the registry requires, pair by pair.
  lemma RegistryIsExact(tool: string, operation: string)
    ensures RequiredScopes(tool, operation) ==
      if tool == "github" && operation in {"search_code", "list_repos", "read_file"} then Some(["repo:read"])
      else if tool == "github" && operation == "create_issue" then Some(["issues:write"])
      else if tool == "github" && operation == "list_issues" then Some(["issues:read"])
      else if tool == "confluence" && operation == "search" then Some(["pages:read"])
      else if tool == "confluence" && operation in {"create_page", "update_page"} then Some(["pages:write"])
      else None
  {
    GithubKeys(tool, operation);
    IssueKeys(tool, operation);
    ConfluenceKeys(tool, operation);
  }

  // A token that the gateway accepts.
  predicate Authenticated(token: Option<Token>, issued: set<Token>, now: int) {
    && token.Some? && token.value in issued
    && token.value.iat * 1_000_000 <= now < token.value.exp * 1_000_000
  }

  // The status of every refusal, by its cause, whatever the identity API would
  // answer: a request without a token, or with one that is not accepted, gets
  // 401, and nothing is forwarded for it.
  lemma RefusalsByCause(token: Option<Token>, issued: set<Token>, now: int, tool: string, operation: string,
                        answer: Answer)
    ensures
      var verdict, ok := Proxy(token, issued, now, tool, operation, answer), Authenticated(token, issued, now);
      var known := RequiredScopes(tool, operation).Some?;
      && (verdict.Forwarded? <==> ok && known && Allows(answer))
      && (verdict == Refused(401) <==> !ok || (known && answer.Unauthorized?))
      && (verdict == Refused(403) <==> ok && (!known || (answer.Decided? && answer.decision.Deny?)))
      && (verdict == Refused(502) <==> ok && known && answer.Decided? && answer.decision.Raise?)
      && (token.None? ==> verdict == Refused(401))
  {
    hide RequiredScopes;
  }

  // A request is forwarded exactly when it has a token that the gateway
  // accepts, the pair is one both sides know, and the identity API allows; what
  // is then granted is exactly what the registry requires.  Without a token
  // there is no question to the API, and the answer may be anything.
  lemma ForwardedMeansAgreed(token: Option<Token>, issued: set<Token>, now: int, tool: string, operation: string,
                             issued': set<Token>, now': int, rows: Reads, answer: Answer)
    requires token.Some? ==> answer == Authorize(token.value, issued', now', rows, tool, operation, PythonEngine)
    ensures Proxy(token, issued, now, tool, operation, answer).Forwarded? <==>
      Authenticated(token, issued, now) && KnownToBoth(tool, operation) && Allows(answer)
    ensures Proxy(token, issued, now, tool, operation, answer).Forwarded? ==>
      && ValidToken(token.value, issued', now')
      && RequiredScopes(tool, operation) == Some(answer.decision.scopes)
  {
    hide Policy.Evaluate, Policy.ToolScopeMap, Policy.ToolKey, RequiredScopes, KnownToBoth;
    RefusalsByCause(token, issued, now, tool, operation, answer);
    SharedTools(tool, operation);
    if token.Some? && Allows(answer) {
      var input := BuildInput(token.value, rows.session.value, rows.agent.value, rows.blueprint.value,
                              rows.attestation, tool, operation);
      Policy.AllowGrantsRequired(input);
    }
  }

  // The scope was asked for when the session was created.
  ghost predicate Requested(run: seq<Step>, o: Origin, scope: string) {
    o.load < |run| && run[o.load].StepLoad? && scope in run[o.load].params.scopes
  }

  // Over a whole run, with the gateway's check at step k and the identity API
  // reading its rows in between other requests: what is forwarded was asked for
  // when the session was created, is listed by the blueprint as read, and is
  // all that the registry requires.
  lemma ForwardedWasRequested(cfg: Config, run: seq<Step>, k: nat, m: Moments, t: Token, tool: string, operation: string)
    returns (o: Origin)
    requires k <= |run| && m.Within(|run|)
    ensures
      var answer, rows := AuthorizeAt(cfg, run, m, t, tool, operation, PythonEngine), ReadRows(cfg, run, m, t);
      Proxy(Some(t), At(cfg, run, k).tokens, At(cfg, run, k).now, tool, operation, answer).Forwarded? ==>
        && Authenticated(Some(t), At(cfg, run, k).tokens, At(cfg, run, k).now)
        && Allows(answer) && rows.session.Some? && rows.blueprint.Some?
        && CreatedBy(cfg, run, t.jti, rows.session.value, o)
        && RequiredScopes(tool, operation) == Some(answer.decision.scopes)
        && forall scope :: scope in answer.decision.scopes ==>
             Requested(run, o, scope) && Grants.InMaxScopes(rows.blueprint.value, scope)
  {
    hide At, CreatedBy, Authorize, Policy.ToolScopeMap, Policy.ToolKey, RequiredScopes, KnownToBoth;
    o := Grants.GrantEquation(cfg, run, m, t, tool, operation);
    if Allows(AuthorizeAt(cfg, run, m, t, tool, operation, PythonEngine)) {
      Grants.OriginScopes(cfg, run, t.jti, ReadRows(cfg, run, m, t).session.value, o);
    }
    var s := At(cfg, run, m.token);
    ForwardedMeansAgreed(Some(t), At(cfg, run, k).tokens, At(cfg, run, k).now, tool, operation, s.tokens, s.now,
                         ReadRows(cfg, run, m, t), AuthorizeAt(cfg, run, m, t, tool, operation, PythonEngine));
  }
}
