/** The tracker client's pure parts: page size, API-key normalisation, the
    mapping of GraphQL issue nodes (null labels dropped) and the handling of
    a GraphQL response. The HTTP round trip is a parameter. */
module Linear {
  import opened Wrappers
  import opened Strings
  import opened Config
  import opened Errors

  const PageSize := 100
  const KeyVar := "LINEAR_API_KEY"
  const MissingKeyMessage := "Missing LINEAR_API_KEY. Add it to your environment to query Linear."

  /** `options?.first ?? PAGE_SIZE`: any given value, 0 included, wins. */
  function GetPageSize(first: Option<int>): (n: int)
    ensures first.Some? ==> n == first.value
    ensures first.None? ==> n == PageSize
  {
    first.GetOr(PageSize)
  }

  /** The raw key: the configured key, trimmed, if the config has one (even a
      blank one); otherwise the trimmed environment key, if set. */
  function RawApiKey(config: Option<ProjectConfig>, env: Env): Option<string> {
    if config.Some? && config.value.apiKey.Some? then Some(Trim(config.value.apiKey.value))
    else if KeyVar in env then Some(Trim(env[KeyVar]))
    else None
  }

  /** The raw key, unless it is empty or spells "undefined" or "null" in
      any letter case. */
  function GetLinearApiKey(config: Option<ProjectConfig>, env: Env): (r: Option<string>)
    ensures r.Some? ==> r == RawApiKey(config, env) && r.value != ""
    ensures r.Some? ==> ToLower(r.value) != "undefined" && ToLower(r.value) != "null"
    ensures (Truthy(RawApiKey(config, env)) && ToLower(RawApiKey(config, env).value) != "undefined"
             && ToLower(RawApiKey(config, env).value) != "null") ==> r == RawApiKey(config, env)
  {
    var raw := RawApiKey(config, env);
    if !Truthy(raw) then None
    else
      var normalized := ToLower(raw.value);
      if normalized == "undefined" || normalized == "null" then None else raw
  }

  /** A configured key takes precedence over the environment, even when it
      is blank (then there is no key at all); a key that spells "undefined"
      or "null" in any case is no key; any other non-blank key, configured
      or else from the environment, is the key returned, trimmed. */
  lemma ApiKeyPrecedence(config: Option<ProjectConfig>, env: Env, env': Env)
    ensures config.Some? && config.value.apiKey.Some? ==>
      GetLinearApiKey(config, env) == GetLinearApiKey(config, env')
    ensures config.Some? && config.value.apiKey.Some? && AllSpace(config.value.apiKey.value) ==>
      GetLinearApiKey(config, env).None?
    ensures (config.None? || config.value.apiKey.None?) && KeyVar !in env ==>
      GetLinearApiKey(config, env).None?
    ensures GetLinearApiKey(config, env).Some? ==> Trimmed(GetLinearApiKey(config, env).value)
    ensures config.Some? && config.value.apiKey.Some? && !AllSpace(config.value.apiKey.value)
            && ToLower(Trim(config.value.apiKey.value)) != "undefined" && ToLower(Trim(config.value.apiKey.value)) != "null" ==>
      GetLinearApiKey(config, env) == Some(Trim(config.value.apiKey.value))
    ensures (config.None? || config.value.apiKey.None?) && KeyVar in env && !AllSpace(env[KeyVar])
            && ToLower(Trim(env[KeyVar])) != "undefined" && ToLower(Trim(env[KeyVar])) != "null" ==>
      GetLinearApiKey(config, env) == Some(Trim(env[KeyVar]))
  {
    if config.Some? && config.value.apiKey.Some? {
      TrimEmptyIffAllSpace(config.value.apiKey.value);
      TrimIsTrimmed(config.value.apiKey.value);
    } else if KeyVar in env {
      TrimEmptyIffAllSpace(env[KeyVar]);
      TrimIsTrimmed(env[KeyVar]);
    }
  }

  /** Throws exactly when there is no key. */
  function RequireLinearApiKey(config: Option<ProjectConfig>, env: Env): (r: Result<string, Thrown>)
    ensures r.Ok? <==> GetLinearApiKey(config, env).Some?
    ensures r.Ok? ==> r.value == GetLinearApiKey(config, env).value
    ensures r.Err? ==> r.error == PlainError(MissingKeyMessage)
  {
    var key := GetLinearApiKey(config, env);
    if key.None? then Err(PlainError(MissingKeyMessage)) else Ok(key.value)
  }

  datatype Label = Label(id: string, name: string, color: Option<string>)
  datatype IssueState = IssueState(id: string, name: string, color: Option<string>)
  datatype Assignee = Assignee(id: string, name: string)

  /** The fields an issue node and an issue share. */
  datatype IssueFields = IssueFields(
    id: string,
    identifier: string,
    title: string,
    url: string,
    dueDate: Option<string>,
    priority: Option<int>,
    priorityLabel: Option<string>,
    completedAt: Option<string>,
    assignee: Option<Assignee>,
    state: IssueState)

  /** `labels?: { nodes?: (Label | null)[] | null } | null` */
  datatype LabelConnection = LabelConnection(nodes: Option<seq<Option<Label>>>)

  datatype IssueNode = IssueNode(fields: IssueFields, labels: Option<LabelConnection>)
  datatype Issue = Issue(fields: IssueFields, labels: seq<Label>)

  /** `filter(Boolean)` on label nodes: the null entries are dropped. */
  function PresentLabels(nodes: seq<Option<Label>>): (r: seq<Label>)
    ensures |r| <= |nodes|
    ensures forall l :: l in r ==> Some(l) in nodes
  {
    if nodes == [] then []
    else (if nodes[0].Some? then [nodes[0].value] else []) + PresentLabels(nodes[1..])
  }

  /** The filter keeps order: it distributes over concatenation, keeps a
      present label and drops a null. */
  lemma {:induction false} PresentLabelsAppend(a: seq<Option<Label>>, b: seq<Option<Label>>)
    ensures PresentLabels(a + b) == PresentLabels(a) + PresentLabels(b)
    ensures forall l :: PresentLabels([Some(l)]) == [l]
    ensures PresentLabels([None]) == []
  {
    if a == [] {
      assert a + b == b;
    } else {
      assert (a + b)[0] == a[0] && (a + b)[1..] == a[1..] + b;
      PresentLabelsAppend(a[1..], b);
      var h := if a[0].Some? then [a[0].value] else [];
      assert h + (PresentLabels(a[1..]) + PresentLabels(b)) == h + PresentLabels(a[1..]) + PresentLabels(b);
    }
    forall l ensures PresentLabels([Some(l)]) == [l] {
      assert [Some(l)][1..] == [];
    }
  }

  function IssueLabels(labels: Option<LabelConnection>): seq<Label> {
    if labels.Some? && labels.value.nodes.Some? then PresentLabels(labels.value.nodes.value) else []
  }

  /** `mapIssueNodes`: one issue per node, in order, with the node's fields
      and its present labels; a missing list yields no issues. */
  function MapIssueNodes(nodes: Option<seq<IssueNode>>): (r: seq<Issue>)
    ensures nodes.None? ==> r == []
    ensures nodes.Some? ==> |r| == |nodes.value|
    ensures nodes.Some? ==> forall i :: 0 <= i < |r| ==>
      r[i].fields == nodes.value[i].fields && r[i].labels == IssueLabels(nodes.value[i].labels)
  {
    if nodes.None? then []
    else seq(|nodes.value|, i requires 0 <= i < |nodes.value| =>
           Issue(nodes.value[i].fields, IssueLabels(nodes.value[i].labels)))
  }

  /** What the tracker's `fetch` is asked for. */
  datatype Query = ProjectIssuesQuery(projectId: string) | TeamIssuesQuery(teamId: string) | ProjectsQuery
  datatype Request = Request(authorization: string, query: Query, first: int)

  /** `issues.nodes` and `completedIssues?.nodes` of a project or team. */
  datatype IssuesNode = IssuesNode(id: string, name: string, url: Option<string>,
                                   issues: Option<seq<IssueNode>>, completedIssues: Option<seq<IssueNode>>)
  datatype ProjectSummary = ProjectSummary(id: string, name: string, slug: Option<string>, state: Option<string>,
                                           targetDate: Option<string>, url: Option<string>, color: Option<string>)

  /** The parsed body: `data.project`, `data.team` or `data.projects.nodes`,
      and the optional `errors` messages. */
  datatype Payload = Payload(node: Option<IssuesNode>, projects: Option<seq<ProjectSummary>>, errors: Option<seq<string>>)
  datatype Response = Response(ok: bool, status: int, payload: Payload)

  datatype ProjectIssues = ProjectIssues(projectId: string, projectName: string, projectUrl: Option<string>,
                                         issues: seq<Issue>, completedIssues: seq<Issue>)

  /** The checks every query shares, in order: HTTP status, then GraphQL
      errors (their messages joined by ", "). */
  function CheckResponse(resp: Response): (r: Option<Thrown>)
    ensures r.None? <==> resp.ok && (resp.payload.errors.None? || |resp.payload.errors.value| == 0)
  {
    if !resp.ok then Some(PlainError("Linear request failed with status " + IntToString(resp.status)))
    else if resp.payload.errors.Some? && |resp.payload.errors.value| > 0 then
      Some(PlainError(Join(resp.payload.errors.value, ", ")))
    else None
  }

  /** `fetchLinearProjectIssues` (`team` false) and `fetchLinearTeamIssues`
      (`team` true): the key is required first, then the response is
      checked, then the project or team must be present. */
  function FetchIssues(id: string, team: bool, first: Option<int>, config: Option<ProjectConfig>, env: Env,
                       fetch: Request -> Response): Result<ProjectIssues, Thrown>
  {
    match RequireLinearApiKey(config, env)
    case Err(e) => Err(e)
    case Ok(key) =>
      var query := if team then TeamIssuesQuery(id) else ProjectIssuesQuery(id);
      var resp := fetch(Request(key, query, GetPageSize(first)));
      var failure := CheckResponse(resp);
      if failure.Some? then Err(failure.value)
      else if resp.payload.node.None? then
        Err(PlainError((if team then "Linear team " else "Linear project ") + id + " not found"))
      else
        var n := resp.payload.node.value;
        Ok(ProjectIssues(n.id, n.name, if team then None else n.url,
                         MapIssueNodes(n.issues), MapIssueNodes(n.completedIssues)))
  }

  /** `fetchLinearProjects`: the summaries, or none when `projects` is absent. */
  function FetchProjects(first: Option<int>, config: Option<ProjectConfig>, env: Env,
                         fetch: Request -> Response): Result<seq<ProjectSummary>, Thrown>
  {
    match RequireLinearApiKey(config, env)
    case Err(e) => Err(e)
    case Ok(key) =>
      var resp := fetch(Request(key, ProjectsQuery, GetPageSize(first)));
      var failure := CheckResponse(resp);
      if failure.Some? then Err(failure.value)
      else Ok(resp.payload.projects.GetOr([]))
  }

  /** Without a key nothing is fetched: the fetch throws the missing-key error. */
  lemma FetchIssuesNeedsKey(id: string, team: bool, first: Option<int>, config: Option<ProjectConfig>, env: Env,
                            fetch: Request -> Response)
    requires GetLinearApiKey(config, env).None?
    ensures FetchIssues(id, team, first, config, env, fetch) == Err(PlainError(MissingKeyMessage))
  {
  }

  /** With a key, the request carries it and the page size; the fetch
      succeeds exactly when the response is OK, error-free and names the
      project or team. A non-OK status wins over GraphQL errors, and a
      missing project or team is reported by kind and id. */
  lemma FetchIssuesOutcome(id: string, team: bool, first: Option<int>, config: Option<ProjectConfig>, env: Env,
                           fetch: Request -> Response, key: string)
    requires GetLinearApiKey(config, env) == Some(key)
    ensures var r := FetchIssues(id, team, first, config, env, fetch);
      var resp := fetch(Request(key, if team then TeamIssuesQuery(id) else ProjectIssuesQuery(id), GetPageSize(first)));
      && (r.Ok? <==> CheckResponse(resp).None? && resp.payload.node.Some?)
      && (!resp.ok ==> r == Err(PlainError("Linear request failed with status " + IntToString(resp.status))))
      && (resp.ok && CheckResponse(resp).Some? ==> r == Err(CheckResponse(resp).value))
      && (CheckResponse(resp).None? && resp.payload.node.None? ==>
            r == Err(PlainError((if team then "Linear team " else "Linear project ") + id + " not found")))
  {
  }

  /** A successful fetch reports the node's id and name, one issue per node
      in order, and no URL for a team. */
  lemma FetchIssuesResult(id: string, team: bool, first: Option<int>, config: Option<ProjectConfig>, env: Env,
                          fetch: Request -> Response, key: string)
    requires GetLinearApiKey(config, env) == Some(key)
    requires FetchIssues(id, team, first, config, env, fetch).Ok?
    ensures var r := FetchIssues(id, team, first, config, env, fetch).value;
      var n := fetch(Request(key, if team then TeamIssuesQuery(id) else ProjectIssuesQuery(id), GetPageSize(first))).payload.node.value;
      && r.projectId == n.id && r.projectName == n.name
      && r.issues == MapIssueNodes(n.issues)
      && r.completedIssues == MapIssueNodes(n.completedIssues)
      && (team ==> r.projectUrl.None?) && (!team ==> r.projectUrl == n.url)
  {
  }

  /** Listing projects yields no summaries when the response has no
      `projects`, and fails exactly as the response checks say. */
  lemma FetchProjectsOutcome(first: Option<int>, config: Option<ProjectConfig>, env: Env, fetch: Request -> Response)
    ensures var r := FetchProjects(first, config, env, fetch);
      var key := GetLinearApiKey(config, env);
      var resp := fetch(Request(key.GetOr(""), ProjectsQuery, GetPageSize(first)));
      && (key.None? ==> r.Err?)
      && (key.Some? ==> (r.Ok? <==> CheckResponse(resp).None?))
      && (key.Some? && r.Ok? && resp.payload.projects.None? ==> r.value == [])
  {
  }
}
