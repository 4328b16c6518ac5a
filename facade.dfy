/**
 * The current request builders, class `Asana`. Each builder is a function
 * of the two defaults the constructor copies from the configuration and of
 * its arguments, giving the method, the path relative to the API endpoint
 * and the parameters that the class hands to the transport.
 */
module Facade {
  import opened Php
  import opened Http
  import opened Strings
  import opened Query
  import Json
  import Transport

  /** The default workspace and project; the constructor sets them and no operation changes them. */
  datatype Context = Context(defaultWorkspaceId: Value, defaultProjectId: Value)

  /** `$projectId ?: $this->defaultProjectId` */
  function ProjectOf(ctx: Context, projectId: Value): Value {
    Elvis(projectId, ctx.defaultProjectId)
  }

  /** `$workspaceId ?: $this->defaultWorkspaceId` */
  function WorkspaceOf(ctx: Context, workspaceId: Value): Value {
    Elvis(workspaceId, ctx.defaultWorkspaceId)
  }

  /** `['data' => $data]` */
  function Envelope(data: Entries): Entries {
    [(StrKey("data"), Arr(data))]
  }

  /** The `"{$k}={$v}"` texts of an array's entries, as pairs. */
  function TextPairs(es: Entries): (r: Pairs)
    ensures |r| == |es|
    ensures forall i :: 0 <= i < |es| ==> r[i] == (KeyText(es[i].0), Text(es[i].1))
  {
    seq(|es|, i requires 0 <= i < |es| => (KeyText(es[i].0), Text(es[i].1)))
  }

  // ---------------------------------------------------------------------------
  // Users and tasks
  // ---------------------------------------------------------------------------

  /** `getUsers($opt_fields)` */
  function GetUsers(optFields: Value): (r: Request)
    ensures r.verb == GET && r.params == []
    ensures !Truthy(optFields) ==> r.path == "users"
    ensures Truthy(optFields) && '&' !in Text(optFields) ==>
      ParseUrl(r.path) == ("users", [("opt_fields", Text(optFields))])
  {
    ParseOne("users", "opt_fields", Text(optFields));
    Request(GET, if Truthy(optFields) then "users" + "?" + "opt_fields" + "=" + Text(optFields) else "users", [])
  }

  const WorkspaceKey: Key := StrKey("workspace")
  const ProjectsKey: Key := StrKey("projects")

  /** The defaults `createTask` merges the caller's data over. */
  function TaskDefaults(ctx: Context): Entries {
    [(WorkspaceKey, ctx.defaultWorkspaceId), (ProjectsKey, ctx.defaultProjectId)]
  }

  /**
   * `createTask($data)`: `workspace` and `projects` come first, each the
   * caller's value when the caller gives one and the default otherwise;
   * then the caller's other fields, in the caller's order.
   */
  function CreateTask(ctx: Context, data: Entries): (r: Request)
    ensures r.verb == POST && r.path == "tasks"
    ensures AllStrKeys(data) && DistinctKeys(data) ==>
      r.params == Envelope(
        [(WorkspaceKey, if HasKey(data, WorkspaceKey) then Get(data, WorkspaceKey) else ctx.defaultWorkspaceId),
         (ProjectsKey, if HasKey(data, ProjectsKey) then Get(data, ProjectsKey) else ctx.defaultProjectId)]
        + Without(data, [WorkspaceKey, ProjectsKey]))
  {
    if AllStrKeys(data) && DistinctKeys(data) then
      MergeOverDefaults(TaskDefaults(ctx), data);
      OverlayAt(TaskDefaults(ctx), data);
      assert KeysOf(TaskDefaults(ctx)) == [WorkspaceKey, ProjectsKey];
      assert Overlay(TaskDefaults(ctx), data)
          == [(WorkspaceKey, if HasKey(data, WorkspaceKey) then Get(data, WorkspaceKey) else ctx.defaultWorkspaceId),
              (ProjectsKey, if HasKey(data, ProjectsKey) then Get(data, ProjectsKey) else ctx.defaultProjectId)];
      Request(POST, "tasks", Envelope(Merge(TaskDefaults(ctx), data)))
    else
      Request(POST, "tasks", Envelope(Merge(TaskDefaults(ctx), data)))
  }

  /** `addProjectToTask($taskId, $projectId)` */
  function AddProjectToTask(ctx: Context, taskId: Value, projectId: Value): (r: Request)
    ensures r.verb == POST
    ensures r.params == Envelope([(StrKey("project"), ProjectOf(ctx, projectId))])
    ensures '/' !in Text(taskId) ==> Split(r.path, '/') == ["tasks", Text(taskId), "addProject"]
  {
    Segments3("tasks", Text(taskId), "addProject");
    Request(POST, "tasks" + "/" + Text(taskId) + "/" + "addProject", Envelope([(StrKey("project"), ProjectOf(ctx, projectId))]))
  }

  /** `removeProjectToTask($taskId, $projectId)` */
  function RemoveProjectToTask(ctx: Context, taskId: Value, projectId: Value): (r: Request)
    ensures r.verb == POST
    ensures r.params == Envelope([(StrKey("project"), ProjectOf(ctx, projectId))])
    ensures '/' !in Text(taskId) ==> Split(r.path, '/') == ["tasks", Text(taskId), "removeProject"]
  {
    Segments3("tasks", Text(taskId), "removeProject");
    Request(POST, "tasks" + "/" + Text(taskId) + "/" + "removeProject", Envelope([(StrKey("project"), ProjectOf(ctx, projectId))]))
  }

  /**
   * `addTaskAttachment($taskId, $file)`: the only builder whose parameters
   * hold a `file` entry, so the only one the transport sends as an upload
   * (when the file is not null).
   */
  function AddTaskAttachment(taskId: Value, file: Value): (r: Request)
    ensures r.verb == POST && r.params == [(Transport.FileKey, file)]
    ensures Transport.IsUpload(r.params) <==> file != Null
    ensures '/' !in Text(taskId) ==> Split(r.path, '/') == ["tasks", Text(taskId), "attachments"]
  {
    Segments3("tasks", Text(taskId), "attachments");
    assert KeysOf([(Transport.FileKey, file)])[0] == Transport.FileKey;
    Request(POST, "tasks" + "/" + Text(taskId) + "/" + "attachments", [(Transport.FileKey, file)])
  }

  /**
   * A file name (not an array) is sent as a single `file` field holding its
   * upload part, or the upload fails because the file cannot be read.
   */
  lemma {:induction false} AttachmentSentAsFile(taskId: Value, file: Value, env: Env)
    ensures !file.Arr? ==>
      Transport.Flattened(AddTaskAttachment(taskId, file).params, 1, None, env)
        == match Transport.AddPostFile(file, env)
           case Failure(e) => Failure(e)
           case Success(part) => Success([(Transport.FileKey, part)])
  {
    var es := AddTaskAttachment(taskId, file).params;
    if !file.Arr? {
      assert Transport.Flattened(es, 0, None, env) == Success([]);
      assert Transport.FieldName(None, Transport.FileKey) == Transport.FileKey;
      match Transport.AddPostFile(file, env)
      case Failure(e) =>
      case Success(part) =>
        assert Php.Put([], Transport.FileKey, part) == [(Transport.FileKey, part)];
    }
  }

  const FilterKeys: seq<Key> := [StrKey("assignee"), StrKey("project"), StrKey("workspace")]

  /** The empty filter `getTasksByFilter` merges the caller's filter over. */
  const FilterDefaults: Entries := [(StrKey("assignee"), Str("")), (StrKey("project"), Str("")), (StrKey("workspace"), Str(""))]

  /**
   * The filter entries in the order the query lists them: assignee,
   * project and workspace as the caller gives them (null when absent),
   * then the caller's other entries in the caller's order.
   */
  function FilterOrder(filter: Entries): Entries {
    [(StrKey("assignee"), Get(filter, StrKey("assignee"))),
     (StrKey("project"), Get(filter, StrKey("project"))),
     (StrKey("workspace"), Get(filter, StrKey("workspace")))]
    + Without(filter, FilterKeys)
  }

  /**
   * `getTasksByFilter($filter)`: an all-empty filter gives `tasks?`; a
   * string-keyed filter gives `tasks` with the truthy entries of
   * `FilterOrder(filter)` as its query.
   */
  function GetTasksByFilter(filter: Entries): (r: Request)
    ensures r.verb == GET && r.params == []
    ensures AllFalsy(filter) ==> r.path == "tasks?"
    ensures AllStrKeys(filter) && DistinctKeys(filter) && Safe(TextPairs(FilterTruthy(FilterOrder(filter)))) ==>
      ParseUrl(r.path) == ("tasks", TextPairs(FilterTruthy(FilterOrder(filter))))
  {
    var kept := FilterTruthy(Merge(FilterDefaults, filter));
    FilterKept(filter);
    assert kept == [] ==> Encode(TextPairs(kept)) == "";
    if Safe(TextPairs(kept)) then
      ParseRendered("tasks", TextPairs(kept));
      Request(GET, "tasks" + "?" + Encode(TextPairs(kept)), [])
    else
      Request(GET, "tasks" + "?" + Encode(TextPairs(kept)), [])
  }

  /** The path `getTasksByFilter` builds, unfolded. */
  lemma {:induction false} FilterPath(filter: Entries)
    ensures GetTasksByFilter(filter).path == "tasks" + "?" + Encode(TextPairs(FilterTruthy(Merge(FilterDefaults, filter))))
  {
  }

  lemma {:induction false} FilterKept(filter: Entries)
    ensures AllFalsy(filter) ==> FilterTruthy(Merge(FilterDefaults, filter)) == []
    ensures AllStrKeys(filter) && DistinctKeys(filter) ==>
      FilterTruthy(Merge(FilterDefaults, filter)) == FilterTruthy(FilterOrder(filter))
  {
    if AllFalsy(filter) {
      MergeFromFalsy([], FilterDefaults);
      MergeFromFalsy(MergeFrom([], FilterDefaults), filter);
      FilterAllFalsy(Merge(FilterDefaults, filter));
    }
    if AllStrKeys(filter) && DistinctKeys(filter) {
      MergeOverDefaults(FilterDefaults, filter);
      assert KeysOf(FilterDefaults) == FilterKeys;
      var over := Overlay(FilterDefaults, filter);
      OverlayAt(FilterDefaults, filter);
      var picked := FilterOrder(filter)[..3];
      var rest := Without(filter, FilterKeys);
      assert FilterOrder(filter) == picked + rest;
      forall i | 0 <= i < 3
        ensures over[i].0 == picked[i].0 && Truthy(over[i].1) == Truthy(picked[i].1)
        ensures Truthy(over[i].1) ==> over[i].1 == picked[i].1
      {
        var k := FilterKeys[i];
        assert FilterDefaults[i] == (k, Str(""));
        assert over[i] == (k, if HasKey(filter, k) then Get(filter, k) else Str(""));
        assert picked[i] == (k, Get(filter, k));
        if !HasKey(filter, k) {
          GetMissing(filter, k);
        }
      }
      FilterSame(over, picked);
      FilterAppend(over, rest);
      FilterAppend(picked, rest);
    }
  }

  /** Called without a filter, `getTasksByFilter` asks for `tasks?` with an empty query. */
  lemma {:induction false} FilterByDefault()
    ensures GetTasksByFilter(FilterDefaults).path == "tasks?"
  {
    forall i | 0 <= i < |FilterDefaults|
      ensures !Truthy(FilterDefaults[i].1)
    {
      assert FilterDefaults[i].1 == Str("");
    }
  }

  // ---------------------------------------------------------------------------
  // Projects
  // ---------------------------------------------------------------------------

  /** `getProject($projectId)` */
  function GetProject(ctx: Context, projectId: Value): (r: Request)
    ensures r.verb == GET && r.params == []
    ensures '/' !in Text(ProjectOf(ctx, projectId)) ==> Split(r.path, '/') == ["projects", Text(ProjectOf(ctx, projectId))]
  {
    var id := Text(ProjectOf(ctx, projectId));
    Segments2("projects", id);
    Request(GET, "projects" + "/" + id, [])
  }

  /** `getProjects($archived, $opt_fields)`: opt_fields is listed only when it is not loosely equal to "". */
  function GetProjects(archived: Value, optFields: Value): (r: Request)
    ensures r.verb == GET && r.params == []
    ensures '&' !in Text(optFields) ==>
      ParseUrl(r.path) == ("projects", [("archived", if Truthy(archived) then "true" else "false")]
                                       + if LooselyEmpty(optFields) then [] else [("opt_fields", Text(optFields))])
  {
    var a := if Truthy(archived) then "true" else "false";
    assert SafePair(("archived", a));
    if LooselyEmpty(optFields) then
      ParseOne("projects", "archived", a);
      assert [("archived", a)] + [] == [("archived", a)];
      Request(GET, "projects" + "?" + "archived" + "=" + a, [])
    else
      ParseTwo("projects", "archived", a, "opt_fields", Text(optFields));
      assert [("archived", a)] + [("opt_fields", Text(optFields))] == [("archived", a), ("opt_fields", Text(optFields))];
      Request(GET, "projects" + "?" + "archived" + "=" + a + "&" + "opt_fields" + "=" + Text(optFields), [])
  }

  /** Called without arguments, `getProjects` lists the unarchived projects and no opt_fields. */
  lemma {:induction false} ProjectsByDefault()
    ensures ParseUrl(GetProjects(Bool(false), Str("")).path) == ("projects", [("archived", "false")])
  {
    assert LooselyEmpty(Str("")) && !Truthy(Bool(false));
    assert '&' !in Text(Str(""));
    assert [("archived", "false")] + [] == [("archived", "false")];
  }

  /** `getProjectsInWorkspace($workspaceId, $archived)`: archived reads 1 or 0. */
  function GetProjectsInWorkspace(ctx: Context, workspaceId: Value, archived: Value): (r: Request)
    ensures r.verb == GET && r.params == []
    ensures '&' !in Text(WorkspaceOf(ctx, workspaceId)) ==>
      ParseUrl(r.path) == ("projects", [("archived", if Truthy(archived) then "1" else "0"),
                                        ("workspace", Text(WorkspaceOf(ctx, workspaceId)))])
  {
    var a := if Truthy(archived) then "1" else "0";
    var ws := Text(WorkspaceOf(ctx, workspaceId));
    ParseTwo("projects", "archived", a, "workspace", ws);
    Request(GET, "projects" + "?" + "archived" + "=" + a + "&" + "workspace" + "=" + ws, [])
  }

  /** `updateProject($projectId, $data)` */
  function UpdateProject(ctx: Context, projectId: Value, data: Entries): (r: Request)
    ensures r.verb == PUT && r.params == Envelope(data)
    ensures '/' !in Text(ProjectOf(ctx, projectId)) ==> Split(r.path, '/') == ["projects", Text(ProjectOf(ctx, projectId))]
  {
    var id := Text(ProjectOf(ctx, projectId));
    Segments2("projects", id);
    Request(PUT, "projects" + "/" + id, Envelope(data))
  }

  /** `getProjectTasks($projectId)` */
  function GetProjectTasks(ctx: Context, projectId: Value): (r: Request)
    ensures r.verb == GET && r.params == []
    ensures '&' !in Text(ProjectOf(ctx, projectId)) ==>
      ParseUrl(r.path) == ("tasks", [("project", Text(ProjectOf(ctx, projectId)))])
  {
    var id := Text(ProjectOf(ctx, projectId));
    ParseOne("tasks", "project", id);
    Request(GET, "tasks" + "?" + "project" + "=" + id, [])
  }

  /** `getProjectStories($projectId)` */
  function GetProjectStories(ctx: Context, projectId: Value): (r: Request)
    ensures r.verb == GET && r.params == []
    ensures '/' !in Text(ProjectOf(ctx, projectId)) ==>
      Split(r.path, '/') == ["projects", Text(ProjectOf(ctx, projectId)), "stories"]
  {
    var id := Text(ProjectOf(ctx, projectId));
    Segments3("projects", id, "stories");
    Request(GET, "projects" + "/" + id + "/" + "stories", [])
  }

  /** `commentOnProject($projectId, $text)` */
  function CommentOnProject(ctx: Context, projectId: Value, text: Value): (r: Request)
    ensures r.verb == POST && r.params == Envelope([(StrKey("text"), text)])
    ensures '/' !in Text(ProjectOf(ctx, projectId)) ==>
      Split(r.path, '/') == ["projects", Text(ProjectOf(ctx, projectId)), "stories"]
  {
    var id := Text(ProjectOf(ctx, projectId));
    Segments3("projects", id, "stories");
    Request(POST, "projects" + "/" + id + "/" + "stories", Envelope([(StrKey("text"), text)]))
  }

  /** `getProjectEvents($projectId)` */
  function GetProjectEvents(ctx: Context, projectId: Value): (r: Request)
    ensures r.verb == GET && r.params == []
    ensures '/' !in Text(ProjectOf(ctx, projectId)) ==>
      Split(r.path, '/') == ["projects", Text(ProjectOf(ctx, projectId)), "events"]
  {
    var id := Text(ProjectOf(ctx, projectId));
    Segments3("projects", id, "events");
    Request(GET, "projects" + "/" + id + "/" + "events", [])
  }

  // ---------------------------------------------------------------------------
  // Workspaces
  // ---------------------------------------------------------------------------

  /** `updateWorkspace($workspaceId, $data)` */
  function UpdateWorkspace(ctx: Context, workspaceId: Value, data: Entries): (r: Request)
    ensures r.verb == PUT && r.params == Envelope(data)
    ensures '/' !in Text(WorkspaceOf(ctx, workspaceId)) ==>
      Split(r.path, '/') == ["workspaces", Text(WorkspaceOf(ctx, workspaceId))]
  {
    var id := Text(WorkspaceOf(ctx, workspaceId));
    Segments2("workspaces", id);
    Request(PUT, "workspaces" + "/" + id, Envelope(data))
  }

  /** The assignee `getWorkspaceTasks` lists when the caller names none. */
  const DefaultAssignee: Value := Str("me")

  /** `getWorkspaceTasks($workspaceId, $assignee)` */
  function GetWorkspaceTasks(ctx: Context, workspaceId: Value, assignee: Value): (r: Request)
    ensures r.verb == GET && r.params == []
    ensures '&' !in Text(WorkspaceOf(ctx, workspaceId)) && '&' !in Text(assignee) ==>
      ParseUrl(r.path) == ("tasks", [("workspace", Text(WorkspaceOf(ctx, workspaceId))), ("assignee", Text(assignee))])
  {
    var ws := Text(WorkspaceOf(ctx, workspaceId));
    ParseTwo("tasks", "workspace", ws, "assignee", Text(assignee));
    Request(GET, "tasks" + "?" + "workspace" + "=" + ws + "&" + "assignee" + "=" + Text(assignee), [])
  }

  /** Called without an assignee, `getWorkspaceTasks` lists the tasks assigned to the token's own user. */
  lemma {:induction false} WorkspaceTasksForMe(ctx: Context, workspaceId: Value)
    ensures '&' !in Text(WorkspaceOf(ctx, workspaceId)) ==>
      ParseUrl(GetWorkspaceTasks(ctx, workspaceId, DefaultAssignee).path)
        == ("tasks", [("workspace", Text(WorkspaceOf(ctx, workspaceId))), ("assignee", "me")])
  {
    assert Text(DefaultAssignee) == "me";
    assert '&' !in Text(DefaultAssignee);
  }

  /** `getWorkspaceTags($workspaceId)` */
  function GetWorkspaceTags(ctx: Context, workspaceId: Value): (r: Request)
    ensures r.verb == GET && r.params == []
    ensures '/' !in Text(WorkspaceOf(ctx, workspaceId)) ==>
      Split(r.path, '/') == ["workspaces", Text(WorkspaceOf(ctx, workspaceId)), "tags"]
  {
    var id := Text(WorkspaceOf(ctx, workspaceId));
    Segments3("workspaces", id, "tags");
    Request(GET, "workspaces" + "/" + id + "/" + "tags", [])
  }

  /** `getWorkspaceUsers($workspaceId)` */
  function GetWorkspaceUsers(ctx: Context, workspaceId: Value): (r: Request)
    ensures r.verb == GET && r.params == []
    ensures '/' !in Text(WorkspaceOf(ctx, workspaceId)) ==>
      Split(r.path, '/') == ["workspaces", Text(WorkspaceOf(ctx, workspaceId)), "users"]
  {
    var id := Text(WorkspaceOf(ctx, workspaceId));
    Segments3("workspaces", id, "users");
    Request(GET, "workspaces" + "/" + id + "/" + "users", [])
  }

  // ---------------------------------------------------------------------------
  // Sections
  // ---------------------------------------------------------------------------

  /**
   * `createSection($data, $projectId)`: the path names the resolved
   * project; in the body the caller's `projects` entry, when there is one,
   * replaces it.
   */
  function CreateSection(ctx: Context, data: Entries, projectId: Value): (r: Request)
    ensures r.verb == POST
    ensures '/' !in Text(ProjectOf(ctx, projectId)) ==>
      Split(r.path, '/') == ["projects", Text(ProjectOf(ctx, projectId)), "sections"]
    ensures AllStrKeys(data) && DistinctKeys(data) ==>
      r.params == Envelope([(ProjectsKey, if HasKey(data, ProjectsKey) then Get(data, ProjectsKey) else ProjectOf(ctx, projectId))]
                           + Without(data, [ProjectsKey]))
  {
    var p := ProjectOf(ctx, projectId);
    var id := Text(p);
    Segments3("projects", id, "sections");
    if AllStrKeys(data) && DistinctKeys(data) then
      MergeOverDefaults([(ProjectsKey, p)], data);
      OverlayAt([(ProjectsKey, p)], data);
      assert KeysOf([(ProjectsKey, p)]) == [ProjectsKey];
      assert Overlay([(ProjectsKey, p)], data)
          == [(ProjectsKey, if HasKey(data, ProjectsKey) then Get(data, ProjectsKey) else p)];
      Request(POST, "projects" + "/" + id + "/" + "sections", Envelope(Merge([(ProjectsKey, p)], data)))
    else
      Request(POST, "projects" + "/" + id + "/" + "sections", Envelope(Merge([(ProjectsKey, p)], data)))
  }

  /** `getProjectSections($projectId)` */
  function GetProjectSections(ctx: Context, projectId: Value): (r: Request)
    ensures r.verb == GET && r.params == []
    ensures '/' !in Text(ProjectOf(ctx, projectId)) ==>
      Split(r.path, '/') == ["projects", Text(ProjectOf(ctx, projectId)), "sections"]
  {
    var id := Text(ProjectOf(ctx, projectId));
    Segments3("projects", id, "sections");
    Request(GET, "projects" + "/" + id + "/" + "sections", [])
  }

  /** `moveSection($projectId, $data)` */
  function MoveSection(ctx: Context, projectId: Value, data: Entries): (r: Request)
    ensures r.verb == POST && r.params == Envelope(data)
    ensures '/' !in Text(ProjectOf(ctx, projectId)) ==>
      Split(r.path, '/') == ["projects", Text(ProjectOf(ctx, projectId)), "sections", "insert"]
  {
    var id := Text(ProjectOf(ctx, projectId));
    Segments4("projects", id, "sections", "insert");
    Request(POST, "projects" + "/" + id + "/" + "sections" + "/" + "insert", Envelope(data))
  }

  // ---------------------------------------------------------------------------
  // The class
  // ---------------------------------------------------------------------------

  const AccessTokenKey: Key := StrKey("accessToken")

  /** The defaults `new Asana($config)` copies; a missing key reads as null. */
  function ContextOf(config: Entries): Context {
    Context(Get(config, StrKey("workspaceId")), Get(config, StrKey("projectId")))
  }

  class Asana {
    const context: Context
    const curl: Transport.AsanaCurl

    /** `new Asana($config)` for a configuration with an access token. */
    constructor(config: Entries)
      requires Truthy(Get(config, AccessTokenKey))
      ensures context == ContextOf(config)
      ensures fresh(curl) && curl.Valid()
      ensures curl.errors == None && curl.syncKey == Json.JNull && curl.httpCode == 200
      ensures curl.headers == Transport.InitialHeaders
                + [(StrKey("Authorization"), Str("Authorization: Bearer " + Text(Get(config, AccessTokenKey))))]
    {
      curl := new Transport.AsanaCurl(Get(config, AccessTokenKey));
      context := ContextOf(config);
    }

    /** `new Asana($config)`: the transport refuses a configuration without an access token. */
    static method New(config: Entries) returns (r: Result<Asana>)
      ensures r.Failure? <==> !Truthy(Get(config, AccessTokenKey))
      ensures r.Failure? ==> r.error == ConfigurationError(Transport.TokenMissing)
      ensures r.Success? ==> fresh(r.value) && fresh(r.value.curl) && r.value.curl.Valid()
      ensures r.Success? ==> r.value.context == ContextOf(config)
      ensures r.Success? ==> r.value.curl.errors == None && r.value.curl.syncKey == Json.JNull && r.value.curl.httpCode == 200
      ensures r.Success? ==>
        r.value.curl.headers == Transport.InitialHeaders
          + [(StrKey("Authorization"), Str("Authorization: Bearer " + Text(Get(config, AccessTokenKey))))]
    {
      if !Truthy(Get(config, AccessTokenKey)) {
        return Failure(ConfigurationError(Transport.TokenMissing));
      }
      var a := new Asana(config);
      return Success(a);
    }

    /**
     * The last line of every builder: `$this->curl->get($path)`,
     * `post($path, $params)`, `put(...)` or `delete(...)`.
     */
    method Dispatch(req: Request, env: Env, net: Transport.Outcome) returns (sent: Option<CurlRequest>, r: Result<Json.Value>)
      requires req.verb != PATCH
      requires curl.Valid()
      modifies curl
      ensures curl.Valid()
      ensures Transport.Exchanged(curl.Snapshot(), sent, r)
           == Transport.Exchange(old(curl.Snapshot()), req.verb, req.path, if req.verb == GET then [] else req.params, env, net)
    {
      match req.verb
      case GET => sent, r := curl.Get(req.path, env, net);
      case POST => sent, r := curl.Post(req.path, req.params, env, net);
      case PUT => sent, r := curl.Put(req.path, req.params, env, net);
      case DELETE => sent, r := curl.Delete(req.path, req.params, env, net);
    }
  }

  // ---------------------------------------------------------------------------
  // Lemmas
  // ---------------------------------------------------------------------------

  /**
   * A falsy project id is the same as passing the default project; a truthy
   * one makes the request independent of the defaults.
   */
  lemma {:induction false} ProjectIdDefaults(ctx: Context, ctx': Context, projectId: Value, taskId: Value, data: Entries, text: Value)
    ensures !Truthy(projectId) ==>
      var d := ctx.defaultProjectId;
      GetProject(ctx, projectId) == GetProject(ctx, d)
      && UpdateProject(ctx, projectId, data) == UpdateProject(ctx, d, data)
      && GetProjectTasks(ctx, projectId) == GetProjectTasks(ctx, d)
      && GetProjectStories(ctx, projectId) == GetProjectStories(ctx, d)
      && CommentOnProject(ctx, projectId, text) == CommentOnProject(ctx, d, text)
      && GetProjectEvents(ctx, projectId) == GetProjectEvents(ctx, d)
      && AddProjectToTask(ctx, taskId, projectId) == AddProjectToTask(ctx, taskId, d)
      && RemoveProjectToTask(ctx, taskId, projectId) == RemoveProjectToTask(ctx, taskId, d)
      && CreateSection(ctx, data, projectId) == CreateSection(ctx, data, d)
      && GetProjectSections(ctx, projectId) == GetProjectSections(ctx, d)
      && MoveSection(ctx, projectId, data) == MoveSection(ctx, d, data)
    ensures Truthy(projectId) ==>
      GetProject(ctx, projectId) == GetProject(ctx', projectId)
      && UpdateProject(ctx, projectId, data) == UpdateProject(ctx', projectId, data)
      && GetProjectTasks(ctx, projectId) == GetProjectTasks(ctx', projectId)
      && GetProjectStories(ctx, projectId) == GetProjectStories(ctx', projectId)
      && CommentOnProject(ctx, projectId, text) == CommentOnProject(ctx', projectId, text)
      && GetProjectEvents(ctx, projectId) == GetProjectEvents(ctx', projectId)
      && AddProjectToTask(ctx, taskId, projectId) == AddProjectToTask(ctx', taskId, projectId)
      && RemoveProjectToTask(ctx, taskId, projectId) == RemoveProjectToTask(ctx', taskId, projectId)
      && CreateSection(ctx, data, projectId) == CreateSection(ctx', data, projectId)
      && GetProjectSections(ctx, projectId) == GetProjectSections(ctx', projectId)
      && MoveSection(ctx, projectId, data) == MoveSection(ctx', projectId, data)
  {
  }

  /**
   * A falsy workspace id is the same as passing the default workspace; a
   * truthy one makes the request independent of the defaults.
   */
  lemma {:induction false} WorkspaceIdDefaults(ctx: Context, ctx': Context, workspaceId: Value, archived: Value, assignee: Value, data: Entries)
    ensures !Truthy(workspaceId) ==>
      var d := ctx.defaultWorkspaceId;
      GetProjectsInWorkspace(ctx, workspaceId, archived) == GetProjectsInWorkspace(ctx, d, archived)
      && UpdateWorkspace(ctx, workspaceId, data) == UpdateWorkspace(ctx, d, data)
      && GetWorkspaceTasks(ctx, workspaceId, assignee) == GetWorkspaceTasks(ctx, d, assignee)
      && GetWorkspaceTags(ctx, workspaceId) == GetWorkspaceTags(ctx, d)
      && GetWorkspaceUsers(ctx, workspaceId) == GetWorkspaceUsers(ctx, d)
    ensures Truthy(workspaceId) ==>
      GetProjectsInWorkspace(ctx, workspaceId, archived) == GetProjectsInWorkspace(ctx', workspaceId, archived)
      && UpdateWorkspace(ctx, workspaceId, data) == UpdateWorkspace(ctx', workspaceId, data)
      && GetWorkspaceTasks(ctx, workspaceId, assignee) == GetWorkspaceTasks(ctx', workspaceId, assignee)
      && GetWorkspaceTags(ctx, workspaceId) == GetWorkspaceTags(ctx', workspaceId)
      && GetWorkspaceUsers(ctx, workspaceId) == GetWorkspaceUsers(ctx', workspaceId)
  {
  }

  /**
   * The path and the body of `createSection` can name different projects:
   * with default project 99 and data `['projects' => '42']`, the section is
   * posted under project 99 with `projects` 42 in its body.
   */
  lemma {:induction false} CreateSectionPathAndBodyDiffer()
    ensures var ctx := Context(Null, Str("99"));
      var r := CreateSection(ctx, [(ProjectsKey, Str("42"))], Null);
      Split(r.path, '/') == ["projects", "99", "sections"]
      && r.params == Envelope([(ProjectsKey, Str("42"))])
  {
    var ctx := Context(Null, Str("99"));
    var data := [(ProjectsKey, Str("42"))];
    assert KeysOf(data) == [ProjectsKey];
    assert HasKey(data, ProjectsKey) && Get(data, ProjectsKey) == Str("42");
    assert Without(data, [ProjectsKey]) == [] by {
      assert data[..0] == [];
    }
    assert AllStrKeys(data) && DistinctKeys(data);
    assert ProjectOf(ctx, Null) == Str("99");
    assert Text(Str("99")) == "99";
    var r := CreateSection(ctx, data, Null);
    assert [(ProjectsKey, Str("42"))] + [] == data;
    assert r.params == Envelope(data);
  }

  /**
   * Whatever the two defaults are, a task named "Hello World!" is posted with
   * workspace, projects and name in that order.
   */
  lemma {:induction false} HelloWorldTask(workspace: Value, project: Value)
    ensures CreateTask(Context(workspace, project), [(StrKey("name"), Str("Hello World!"))])
         == Request(POST, "tasks", Envelope([(WorkspaceKey, workspace), (ProjectsKey, project),
                                            (StrKey("name"), Str("Hello World!"))]))
  {
    var ctx := Context(workspace, project);
    var data := [(StrKey("name"), Str("Hello World!"))];
    HelloWorldData(data);
    NewFieldsTask(ctx, data);
    assert TaskDefaults(ctx) + data == [(WorkspaceKey, workspace), (ProjectsKey, project), data[0]];
  }

  lemma {:induction false} HelloWorldData(data: Entries)
    requires data == [(StrKey("name"), Str("Hello World!"))]
    ensures AllStrKeys(data) && DistinctKeys(data)
    ensures !HasKey(data, WorkspaceKey) && !HasKey(data, ProjectsKey)
    ensures Without(data, [WorkspaceKey, ProjectsKey]) == data
  {
    assert KeysOf(data) == [StrKey("name")];
    assert data[..0] == [];
  }

  /** A task whose data names neither a workspace nor projects gets both defaults ahead of its fields. */
  lemma {:induction false} NewFieldsTask(ctx: Context, data: Entries)
    requires AllStrKeys(data) && DistinctKeys(data)
    requires !HasKey(data, WorkspaceKey) && !HasKey(data, ProjectsKey)
    requires Without(data, [WorkspaceKey, ProjectsKey]) == data
    ensures CreateTask(ctx, data) == Request(POST, "tasks", Envelope(TaskDefaults(ctx) + data))
  {
    var r := CreateTask(ctx, data);
    assert r.params == Envelope(TaskDefaults(ctx) + data);
  }
}
