/**
 * The legacy request builders, class `Asana` of the Laravel package. Most
 * build exactly the request of the current builder of the same name; the
 * two that differ are `getUsers`, which takes no field list, and
 * `getTasksByFilter`, which assembles its query string by appending to a
 * variable and lists only assignee, project and workspace.
 */
module LegacyFacade {
  import opened Php
  import opened Http
  import opened Strings
  import opened Query
  import Json
  import Facade
  import LegacyTransport

  // ---------------------------------------------------------------------------
  // Builders that agree with the current version
  // ---------------------------------------------------------------------------

  /** `getUsers()`: the current `getUsers` without a field list. */
  function GetUsers(): (r: Request)
    ensures r == Facade.GetUsers(Null) && r.path == "users"
  {
    Request(GET, "users", [])
  }

  /** `createTask($data)` */
  function CreateTask(ctx: Facade.Context, data: Entries): (r: Request)
    ensures r == Facade.CreateTask(ctx, data)
  {
    var merged := Merge([(StrKey("workspace"), ctx.defaultWorkspaceId), (StrKey("projects"), ctx.defaultProjectId)], data);
    Request(POST, "tasks", [(StrKey("data"), Arr(merged))])
  }

  /** `addProjectToTask($taskId, $projectId)` */
  function AddProjectToTask(ctx: Facade.Context, taskId: Value, projectId: Value): (r: Request)
    ensures r == Facade.AddProjectToTask(ctx, taskId, projectId)
  {
    var data := [(StrKey("project"), Elvis(projectId, ctx.defaultProjectId))];
    Request(POST, "tasks" + "/" + Text(taskId) + "/" + "addProject", [(StrKey("data"), Arr(data))])
  }

  /** `removeProjectToTask($taskId, $projectId)` */
  function RemoveProjectToTask(ctx: Facade.Context, taskId: Value, projectId: Value): (r: Request)
    ensures r == Facade.RemoveProjectToTask(ctx, taskId, projectId)
  {
    var data := [(StrKey("project"), Elvis(projectId, ctx.defaultProjectId))];
    Request(POST, "tasks" + "/" + Text(taskId) + "/" + "removeProject", [(StrKey("data"), Arr(data))])
  }

  /** `getProject($projectId)` */
  function GetProject(ctx: Facade.Context, projectId: Value): (r: Request)
    ensures r == Facade.GetProject(ctx, projectId)
  {
    var p := Elvis(projectId, ctx.defaultProjectId);
    Request(GET, "projects" + "/" + Text(p), [])
  }

  /** `getProjects($archived, $opt_fields)` */
  function GetProjects(archived: Value, optFields: Value): (r: Request)
    ensures r == Facade.GetProjects(archived, optFields)
  {
    var a := if Truthy(archived) then "true" else "false";
    if LooselyEmpty(optFields) then
      Request(GET, "projects" + "?" + "archived" + "=" + a, [])
    else
      Request(GET, "projects" + "?" + "archived" + "=" + a + "&" + "opt_fields" + "=" + Text(optFields), [])
  }

  /** `getProjectsInWorkspace($workspaceId, $archived)` */
  function GetProjectsInWorkspace(ctx: Facade.Context, workspaceId: Value, archived: Value): (r: Request)
    ensures r == Facade.GetProjectsInWorkspace(ctx, workspaceId, archived)
  {
    var a := if Truthy(archived) then "1" else "0";
    var w := Elvis(workspaceId, ctx.defaultWorkspaceId);
    Request(GET, "projects" + "?" + "archived" + "=" + a + "&" + "workspace" + "=" + Text(w), [])
  }

  /** `updateProject($projectId, $data)` */
  function UpdateProject(ctx: Facade.Context, projectId: Value, data: Entries): (r: Request)
    ensures r == Facade.UpdateProject(ctx, projectId, data)
  {
    var p := Elvis(projectId, ctx.defaultProjectId);
    Request(PUT, "projects" + "/" + Text(p), [(StrKey("data"), Arr(data))])
  }

  /** `getProjectTasks($projectId)` */
  function GetProjectTasks(ctx: Facade.Context, projectId: Value): (r: Request)
    ensures r == Facade.GetProjectTasks(ctx, projectId)
  {
    var p := Elvis(projectId, ctx.defaultProjectId);
    Request(GET, "tasks" + "?" + "project" + "=" + Text(p), [])
  }

  /** `getProjectStories($projectId)` */
  function GetProjectStories(ctx: Facade.Context, projectId: Value): (r: Request)
    ensures r == Facade.GetProjectStories(ctx, projectId)
  {
    var p := Elvis(projectId, ctx.defaultProjectId);
    Request(GET, "projects" + "/" + Text(p) + "/" + "stories", [])
  }

  /** `commentOnProject($projectId, $text)` */
  function CommentOnProject(ctx: Facade.Context, projectId: Value, text: Value): (r: Request)
    ensures r == Facade.CommentOnProject(ctx, projectId, text)
  {
    var p := Elvis(projectId, ctx.defaultProjectId);
    Request(POST, "projects" + "/" + Text(p) + "/" + "stories", [(StrKey("data"), Arr([(StrKey("text"), text)]))])
  }

  /** `updateWorkspace($workspaceId, $data)` */
  function UpdateWorkspace(ctx: Facade.Context, workspaceId: Value, data: Entries): (r: Request)
    ensures r == Facade.UpdateWorkspace(ctx, workspaceId, data)
  {
    var w := Elvis(workspaceId, ctx.defaultWorkspaceId);
    Request(PUT, "workspaces" + "/" + Text(w), [(StrKey("data"), Arr(data))])
  }

  /** `getWorkspaceTasks($workspaceId, $assignee)` */
  function GetWorkspaceTasks(ctx: Facade.Context, workspaceId: Value, assignee: Value): (r: Request)
    ensures r == Facade.GetWorkspaceTasks(ctx, workspaceId, assignee)
  {
    var w := Elvis(workspaceId, ctx.defaultWorkspaceId);
    Request(GET, "tasks" + "?" + "workspace" + "=" + Text(w) + "&" + "assignee" + "=" + Text(assignee), [])
  }

  /** `getWorkspaceTags($workspaceId)` */
  function GetWorkspaceTags(ctx: Facade.Context, workspaceId: Value): (r: Request)
    ensures r == Facade.GetWorkspaceTags(ctx, workspaceId)
  {
    var w := Elvis(workspaceId, ctx.defaultWorkspaceId);
    Request(GET, "workspaces" + "/" + Text(w) + "/" + "tags", [])
  }

  /** `getWorkspaceUsers($workspaceId)` */
  function GetWorkspaceUsers(ctx: Facade.Context, workspaceId: Value): (r: Request)
    ensures r == Facade.GetWorkspaceUsers(ctx, workspaceId)
  {
    var w := Elvis(workspaceId, ctx.defaultWorkspaceId);
    Request(GET, "workspaces" + "/" + Text(w) + "/" + "users", [])
  }

  /** `getProjectEvents($projectId)` */
  function GetProjectEvents(ctx: Facade.Context, projectId: Value): (r: Request)
    ensures r == Facade.GetProjectEvents(ctx, projectId)
  {
    var p := Elvis(projectId, ctx.defaultProjectId);
    Request(GET, "projects" + "/" + Text(p) + "/" + "events", [])
  }

  // ---------------------------------------------------------------------------
  // getTasksByFilter
  // ---------------------------------------------------------------------------

  /** The pair for filter entry `name`, when its value is not loosely equal to "". */
  function Listed(f: Entries, name: string): Pairs {
    var v := Get(f, StrKey(name));
    if LooselyEmpty(v) then [] else [(name, Text(v))]
  }

  /** The pairs the legacy query lists: assignee, project and workspace, in that order, each when set. */
  function FilterPairs(f: Entries): Pairs {
    Listed(f, "assignee") + Listed(f, "project") + Listed(f, "workspace")
  }

  /** The query the legacy builder appends: none at all when no pair is listed. */
  function FilterQuery(f: Entries): string {
    var ps := FilterPairs(f);
    if ps == [] then "" else "?" + Encode(ps)
  }

  /** `&k=v` for each pair, as the successive `.=` steps write them. */
  function Amped(ps: Pairs): string {
    if ps == [] then "" else "&" + Pair(ps[0].0, ps[0].1) + Amped(ps[1..])
  }

  lemma {:induction false} AmpedAppend(a: Pairs, b: Pairs)
    ensures Amped(a + b) == Amped(a) + Amped(b)
  {
    if a != [] {
      assert (a + b)[0] == a[0] && (a + b)[1..] == a[1..] + b;
      AmpedAppend(a[1..], b);
      assert Amped(a + b) == "&" + Pair(a[0].0, a[0].1) + (Amped(a[1..]) + Amped(b));
    } else {
      assert a + b == b;
    }
  }

  /** Dropping the leading `&` of the appended pairs leaves their `&`-joined encoding. */
  lemma {:induction false} AmpedEncode(ps: Pairs)
    requires ps != []
    ensures Amped(ps) == "&" + Encode(ps)
  {
    if |ps| == 1 {
      assert Rendered(ps) == [Pair(ps[0].0, ps[0].1)];
      assert Amped(ps[1..]) == "";
    } else {
      AmpedEncode(ps[1..]);
      assert Rendered(ps)[1..] == Rendered(ps[1..]);
      assert Encode(ps) == Pair(ps[0].0, ps[0].1) + "&" + Encode(ps[1..]);
    }
  }

  /** The `.=` step for one filter entry. */
  lemma {:induction false} AmpedListed(f: Entries, name: string)
    ensures Amped(Listed(f, name))
         == if LooselyEmpty(Get(f, StrKey(name))) then "" else "&" + name + "=" + Text(Get(f, StrKey(name)))
  {
    var ps := Listed(f, name);
    if ps != [] {
      assert ps[1..] == [];
    }
  }

  /** The three `.=` steps together write the listed pairs. */
  lemma {:induction false} AmpedPairs(f: Entries)
    ensures Amped(FilterPairs(f)) == Amped(Listed(f, "assignee")) + Amped(Listed(f, "project")) + Amped(Listed(f, "workspace"))
  {
    AmpedAppend(Listed(f, "assignee"), Listed(f, "project"));
    AmpedAppend(Listed(f, "assignee") + Listed(f, "project"), Listed(f, "workspace"));
  }

  /**
   * `getTasksByFilter($filter)`: the filter is merged over empty
   * assignee, project and workspace; each of the three that is set adds
   * `&k=v`; a non-empty result has its first character replaced by `?`.
   */
  method GetTasksByFilter(filter: Entries) returns (r: Request)
    ensures r == Request(GET, "tasks" + FilterQuery(Merge(Facade.FilterDefaults, filter)), [])
  {
    var f := Merge(Facade.FilterDefaults, filter);
    var url := "";
    var a := Get(f, StrKey("assignee"));
    url := url + (if !LooselyEmpty(a) then "&" + "assignee" + "=" + Text(a) else "");
    AmpedListed(f, "assignee");
    assert url == Amped(Listed(f, "assignee"));
    var p := Get(f, StrKey("project"));
    url := url + (if !LooselyEmpty(p) then "&" + "project" + "=" + Text(p) else "");
    AmpedListed(f, "project");
    assert url == Amped(Listed(f, "assignee")) + Amped(Listed(f, "project"));
    var w := Get(f, StrKey("workspace"));
    url := url + (if !LooselyEmpty(w) then "&" + "workspace" + "=" + Text(w) else "");
    AmpedListed(f, "workspace");
    ghost var ps := FilterPairs(f);
    AmpedPairs(f);
    assert url == Amped(ps);
    if |url| > 0 {
      AmpedEncode(ps);
      url := "?" + url[1..];
    }
    r := Request(GET, "tasks" + url, []);
  }

  /** For a string-keyed filter the merge changes nothing the query reads. */
  lemma {:induction false} MergedFilterPairs(filter: Entries)
    requires AllStrKeys(filter) && DistinctKeys(filter)
    ensures FilterPairs(Merge(Facade.FilterDefaults, filter)) == FilterPairs(filter)
  {
    MergedListed(filter, 0);
    MergedListed(filter, 1);
    MergedListed(filter, 2);
  }

  /** Filter key `i` lists the same pair before and after the merge. */
  lemma {:induction false} MergedListed(filter: Entries, i: nat)
    requires AllStrKeys(filter) && DistinctKeys(filter) && i < 3
    ensures Listed(Merge(Facade.FilterDefaults, filter), Facade.FilterKeys[i].s) == Listed(filter, Facade.FilterKeys[i].s)
  {
    var k := Facade.FilterKeys[i];
    MergedGet(filter, i);
    if !HasKey(filter, k) {
      GetMissing(filter, k);
    }
  }

  /** After the merge, filter key `i` reads the caller's value, or "" when the caller has none. */
  lemma {:induction false} MergedGet(filter: Entries, i: nat)
    requires AllStrKeys(filter) && DistinctKeys(filter) && i < 3
    ensures Get(Merge(Facade.FilterDefaults, filter), Facade.FilterKeys[i])
         == if HasKey(filter, Facade.FilterKeys[i]) then Get(filter, Facade.FilterKeys[i]) else Str("")
  {
    var d := Facade.FilterDefaults;
    var k := Facade.FilterKeys[i];
    MergeOverDefaults(d, filter);
    assert KeysOf(d) == Facade.FilterKeys;
    var over := Overlay(d, filter);
    OverlayAt(d, filter);
    OverlayKeys(d, filter);
    assert over[i].0 == k;
    assert KeysOf(over)[i] == k;
    GetAt(over, i);
    GetAppend(over, Without(filter, KeysOf(d)), k);
  }

  /**
   * For a string-keyed filter the legacy path reads back as `tasks` with
   * exactly the set assignee, project and workspace entries, whatever other
   * keys the filter has; with none of them set it is plain `tasks`.
   */
  lemma {:induction false} LegacyFilterParsed(filter: Entries)
    requires AllStrKeys(filter) && DistinctKeys(filter)
    ensures FilterPairs(filter) == [] ==> "tasks" + FilterQuery(Merge(Facade.FilterDefaults, filter)) == "tasks"
    ensures Safe(FilterPairs(filter)) ==>
      ParseUrl("tasks" + FilterQuery(Merge(Facade.FilterDefaults, filter))) == ("tasks", FilterPairs(filter))
  {
    MergedFilterPairs(filter);
    QueryParsed("tasks", Merge(Facade.FilterDefaults, filter));
  }

  /** A resource followed by the legacy query of `f` reads back as the resource and the listed pairs. */
  lemma {:induction false} QueryParsed(resource: string, f: Entries)
    requires '?' !in resource
    ensures FilterPairs(f) == [] ==> resource + FilterQuery(f) == resource
    ensures Safe(FilterPairs(f)) ==> ParseUrl(resource + FilterQuery(f)) == (resource, FilterPairs(f))
  {
    var ps := FilterPairs(f);
    if ps == [] {
      assert resource + "" == resource;
      ParsePlain(resource);
    } else if Safe(ps) {
      ParseRendered(resource, ps);
      assert resource + ("?" + Encode(ps)) == resource + "?" + Encode(ps);
    }
  }

  // ---------------------------------------------------------------------------
  // The two versions of getTasksByFilter compared
  // ---------------------------------------------------------------------------

  /** An empty filter: the current version asks for `tasks?`, the legacy one for `tasks`. */
  lemma {:induction false} EmptyFilterDiffers()
    ensures Facade.GetTasksByFilter([]).path == "tasks?"
    ensures "tasks" + FilterQuery(Merge(Facade.FilterDefaults, [])) == "tasks"
  {
    LegacyFilterParsed([]);
  }

  /** A project of "0": the current version drops it as falsy, the legacy one lists it. */
  lemma {:induction false} ZeroProjectDiffers()
    ensures Facade.GetTasksByFilter([(StrKey("project"), Str("0"))]).path == "tasks?"
    ensures ParseUrl("tasks" + FilterQuery(Merge(Facade.FilterDefaults, [(StrKey("project"), Str("0"))])))
         == ("tasks", [("project", "0")])
  {
    var f: Entries := [(StrKey("project"), Str("0"))];
    assert AllFalsy(f);
    ZeroProjectListed(f);
    assert Safe([("project", "0")]) by {
      assert SafePair(("project", "0"));
    }
    LegacyFilterParsed(f);
  }

  lemma {:induction false} ZeroProjectListed(f: Entries)
    requires f == [(StrKey("project"), Str("0"))]
    ensures AllStrKeys(f) && DistinctKeys(f)
    ensures FilterPairs(f) == [("project", "0")]
  {
    assert KeysOf(f) == [StrKey("project")];
    GetMissing(f, StrKey("assignee"));
    GetMissing(f, StrKey("workspace"));
    assert Get(f, StrKey("project")) == Str("0");
    assert Listed(f, "assignee") == [] && Listed(f, "workspace") == [];
    assert Listed(f, "project") == [("project", "0")];
  }

  /**
   * An extra key with a truthy text value: the current version lists it,
   * the legacy one ignores it.
   */
  lemma {:induction false} ExtraKeyDiffers(tag: string, x: string)
    requires StrKey(tag) !in Facade.FilterKeys
    requires Truthy(Str(x)) && SafePair((tag, x))
    ensures ParseUrl(Facade.GetTasksByFilter([(StrKey(tag), Str(x))]).path) == ("tasks", [(tag, x)])
    ensures "tasks" + FilterQuery(Merge(Facade.FilterDefaults, [(StrKey(tag), Str(x))])) == "tasks"
  {
    var f: Entries := [(StrKey(tag), Str(x))];
    ExtraKeyAbsent(f);
    ExtraKeyKept(f);
    assert Listed(f, "assignee") == [] && Listed(f, "project") == [] && Listed(f, "workspace") == [];
    assert Safe([(tag, x)]) by {
      assert [(tag, x)][0] == (tag, x);
    }
    LegacyFilterParsed(f);
  }

  /** A one-entry filter on another key sets none of the filter keys. */
  lemma {:induction false} ExtraKeyAbsent(f: Entries)
    requires |f| == 1 && f[0].0 !in Facade.FilterKeys
    ensures AllStrKeys(f) == f[0].0.StrKey? && DistinctKeys(f)
    ensures Get(f, StrKey("assignee")) == Null && Get(f, StrKey("project")) == Null && Get(f, StrKey("workspace")) == Null
    ensures Without(f, Facade.FilterKeys) == f
  {
    assert f[1..] == [];
    assert f[..0] == [];
  }

  /** The current query of such a filter is its one pair, when the value is truthy. */
  lemma {:induction false} ExtraKeyKept(f: Entries)
    requires |f| == 1 && f[0].0 !in Facade.FilterKeys && Truthy(f[0].1)
    requires Get(f, StrKey("assignee")) == Null && Get(f, StrKey("project")) == Null && Get(f, StrKey("workspace")) == Null
    requires Without(f, Facade.FilterKeys) == f
    ensures Facade.TextPairs(FilterTruthy(Facade.FilterOrder(f))) == [(KeyText(f[0].0), Text(f[0].1))]
  {
    var order := Facade.FilterOrder(f);
    var blanks := [(StrKey("assignee"), Null), (StrKey("project"), Null), (StrKey("workspace"), Null)];
    assert order == blanks + f;
    calc {
      FilterTruthy(order);
      { FilterAppend(blanks, f); }
      FilterTruthy(blanks) + FilterTruthy(f);
      { FilterTruthyThree(blanks[0], blanks[1], blanks[2]); assert blanks == [blanks[0], blanks[1], blanks[2]]; }
      FilterTruthy(f);
      { assert f[1..] == []; }
      f;
    }
  }

  /** Names the legacy query can list. */
  predicate OnlyFilterKeys(filter: Entries) {
    forall i :: 0 <= i < |filter| ==> filter[i].0 in Facade.FilterKeys
  }

  /** Values on which "truthy" and "not loosely equal to \"\"" agree: anything but "0" and []. */
  predicate Unambiguous(filter: Entries) {
    forall i :: 0 <= i < |filter| ==> (Truthy(filter[i].1) || LooselyEmpty(filter[i].1))
  }

  lemma {:induction false} FilterTruthyThree(x: (Key, Value), y: (Key, Value), z: (Key, Value))
    ensures FilterTruthy([x, y, z])
         == (if Truthy(x.1) then [x] else []) + (if Truthy(y.1) then [y] else []) + (if Truthy(z.1) then [z] else [])
  {
    assert [x, y, z][1..] == [y, z];
    assert [y, z][1..] == [z];
    assert [z][1..] == [];
    assert FilterTruthy([z]) == (if Truthy(z.1) then [z] else []);
    assert FilterTruthy([y, z]) == (if Truthy(y.1) then [y] else []) + FilterTruthy([z]);
    assert FilterTruthy([x, y, z]) == (if Truthy(x.1) then [x] else []) + FilterTruthy([y, z]);
  }

  lemma {:induction false} TextPairsAppend(a: Entries, b: Entries)
    ensures Facade.TextPairs(a + b) == Facade.TextPairs(a) + Facade.TextPairs(b)
  {
  }

  /** One entry of the current order, kept when truthy, gives the legacy pair for its name. */
  lemma {:induction false} OneListed(filter: Entries, name: string, e: (Key, Value))
    requires e == (StrKey(name), Get(filter, StrKey(name)))
    requires Truthy(e.1) <==> !LooselyEmpty(e.1)
    ensures Facade.TextPairs(if Truthy(e.1) then [e] else []) == Listed(filter, name)
  {
  }

  /** A filter naming only the three keys leaves nothing after them in the current order. */
  lemma {:induction false} NoExtraKeys(filter: Entries)
    requires OnlyFilterKeys(filter)
    ensures Without(filter, Facade.FilterKeys) == []
  {
    if filter != [] {
      var n := |filter| - 1;
      assert filter[n].0 in Facade.FilterKeys;
      assert OnlyFilterKeys(filter[..n]) by {
        forall i | 0 <= i < n
          ensures filter[..n][i].0 in Facade.FilterKeys
        {
          assert filter[..n][i] == filter[i];
        }
      }
      NoExtraKeys(filter[..n]);
    }
  }

  /** On an unambiguous filter, a named entry is truthy exactly when it is not loosely "". */
  lemma {:induction false} UnambiguousGet(filter: Entries, name: string)
    requires DistinctKeys(filter) && Unambiguous(filter)
    ensures Truthy(Get(filter, StrKey(name))) <==> !LooselyEmpty(Get(filter, StrKey(name)))
  {
    LooselyEmptyIsFalsy(Get(filter, StrKey(name)));
    if HasKey(filter, StrKey(name)) {
      var j := IndexOf(filter, StrKey(name));
      GetAt(filter, j);
    } else {
      GetMissing(filter, StrKey(name));
    }
  }

  /** On such a filter the current version's kept pairs are the legacy version's listed pairs. */
  lemma {:induction false} KeptAreListed(filter: Entries)
    requires AllStrKeys(filter) && DistinctKeys(filter)
    requires OnlyFilterKeys(filter) && Unambiguous(filter)
    ensures Facade.TextPairs(FilterTruthy(Facade.FilterOrder(filter))) == FilterPairs(filter)
  {
    NoExtraKeys(filter);
    UnambiguousGet(filter, "assignee");
    UnambiguousGet(filter, "project");
    UnambiguousGet(filter, "workspace");
    var order := Facade.FilterOrder(filter);
    assert order == [order[0], order[1], order[2]] + [];
    FilterTruthyThree(order[0], order[1], order[2]);
    OneListed(filter, "assignee", order[0]);
    OneListed(filter, "project", order[1]);
    OneListed(filter, "workspace", order[2]);
    var o0 := if Truthy(order[0].1) then [order[0]] else [];
    var o1 := if Truthy(order[1].1) then [order[1]] else [];
    var o2 := if Truthy(order[2].1) then [order[2]] else [];
    TextPairsAppend(o0, o1);
    TextPairsAppend(o0 + o1, o2);
    assert order == [order[0], order[1], order[2]];
    assert FilterTruthy(order) == o0 + o1 + o2;
    assert Facade.TextPairs(o0 + o1 + o2) == Listed(filter, "assignee") + Listed(filter, "project") + Listed(filter, "workspace");
  }

  /**
   * On a string-keyed filter that names only assignee, project and
   * workspace, with no "0" or empty-array value, the two versions build the
   * same path exactly when at least one of the three is set.
   */
  lemma {:induction false} VersionsAgree(filter: Entries)
    requires AllStrKeys(filter) && DistinctKeys(filter)
    requires OnlyFilterKeys(filter) && Unambiguous(filter)
    ensures Facade.GetTasksByFilter(filter).path == "tasks" + FilterQuery(Merge(Facade.FilterDefaults, filter))
        <==> FilterPairs(filter) != []
  {
    MergedFilterPairs(filter);
    Facade.FilterKept(filter);
    KeptAreListed(filter);
    Facade.FilterPath(filter);
    SamePairsSamePath(FilterPairs(filter), Facade.GetTasksByFilter(filter).path,
                      "tasks" + FilterQuery(Merge(Facade.FilterDefaults, filter)));
  }

  /** `tasks?` followed by the encoding, against `tasks` followed by the legacy query of the same pairs. */
  lemma {:induction false} SamePairsSamePath(ps: Pairs, current: string, legacy: string)
    requires current == "tasks" + "?" + Encode(ps)
    requires legacy == "tasks" + (if ps == [] then "" else "?" + Encode(ps))
    ensures current == legacy <==> ps != []
  {
    if ps == [] {
      assert Encode(ps) == "";
      assert |current| == 6 && |legacy| == 5;
    } else {
      assert "tasks" + ("?" + Encode(ps)) == "tasks" + "?" + Encode(ps);
    }
  }

  // ---------------------------------------------------------------------------
  // The class
  // ---------------------------------------------------------------------------

  const KeyKey: Key := StrKey("key")
  const AccessTokenKey: Key := StrKey("accessToken")

  class Asana {
    const context: Facade.Context
    const curl: LegacyTransport.AsanaCurl

    /** `new Asana($config)`: the key and the token go to the transport, the defaults are copied. */
    constructor(config: Entries)
      requires Truthy(Get(config, KeyKey)) || Truthy(Get(config, AccessTokenKey))
      ensures context == Facade.ContextOf(config)
      ensures fresh(curl) && curl.Valid() && curl.errors == [] && curl.syncKey == Json.JNull
      ensures Truthy(Get(config, KeyKey)) ==> curl.apiKey == Get(config, KeyKey) && curl.accessToken == Null
      ensures !Truthy(Get(config, KeyKey)) ==> curl.apiKey == Null && curl.accessToken == Get(config, AccessTokenKey)
    {
      curl := new LegacyTransport.AsanaCurl(Get(config, KeyKey), Get(config, AccessTokenKey));
      context := Facade.ContextOf(config);
    }

    /** `new Asana($config)`: without a key or a token the transport throws. */
    static method New(config: Entries) returns (r: Result<Asana>)
      ensures r.Failure? <==> !Truthy(Get(config, KeyKey)) && !Truthy(Get(config, AccessTokenKey))
      ensures r.Failure? ==> r.error == ConfigurationError(LegacyTransport.CredentialsMissing)
      ensures r.Success? ==> fresh(r.value) && fresh(r.value.curl) && r.value.curl.Valid()
      ensures r.Success? ==> r.value.context == Facade.ContextOf(config)
      ensures r.Success? ==> r.value.curl.errors == [] && r.value.curl.syncKey == Json.JNull
      ensures r.Success? && Truthy(Get(config, KeyKey)) ==>
        r.value.curl.apiKey == Get(config, KeyKey) && r.value.curl.accessToken == Null
      ensures r.Success? && !Truthy(Get(config, KeyKey)) ==>
        r.value.curl.apiKey == Null && r.value.curl.accessToken == Get(config, AccessTokenKey)
    {
      if !Truthy(Get(config, KeyKey)) && !Truthy(Get(config, AccessTokenKey)) {
        return Failure(ConfigurationError(LegacyTransport.CredentialsMissing));
      }
      var a := new Asana(config);
      return Success(a);
    }

    /** The last line of every builder: `get($path)`, or `post`/`put`/`delete` with the parameters. */
    method Dispatch(req: Request, net: LegacyTransport.Outcome) returns (sent: CurlRequest, r: Result<Json.Value>)
      requires req.verb != PATCH
      requires curl.Valid()
      modifies curl
      ensures curl.Valid()
      ensures LegacyTransport.Exchanged(curl.Snapshot(), sent, r)
           == LegacyTransport.Exchange(old(curl.Snapshot()), req.verb, req.path, if req.verb == GET then None else Some(req.params), net)
    {
      match req.verb
      case GET => sent, r := curl.Get(req.path, net);
      case POST => sent, r := curl.Post(req.path, req.params, net);
      case PUT => sent, r := curl.Put(req.path, req.params, net);
      case DELETE => sent, r := curl.Delete(req.path, req.params, net);
    }
  }
}
