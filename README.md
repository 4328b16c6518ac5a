# Asana REST client — a Dafny model

This project models the core of a PHP client for the Asana REST API, which
ships in two versions:

- **The current client.**
  - `src/Asana.php`: the facade. It builds each API call from a path, a
    verb and a parameter array. Where the caller leaves the workspace or
    project out, it fills in the configured default.
  - `src/AsanaCurl.php`: the transport. It keeps a table of request headers
    and picks the request body: JSON, or a multipart form when a file is
    attached. It then classifies the decoded response and records the
    cURL error, the HTTP status and the event sync key.
- **The legacy Laravel client.**
  - `src/Torann/LaravelAsana/Asana.php`: the facade. It also has a
    hand-written filter query for tasks.
  - `src/Torann/LaravelAsana/AsanaCurl.php`: the transport. It works with
    either an API key (basic authentication) or an access token (Bearer
    header). It raises on an empty response as well as on API errors.

## Modules

- **`Php`**: the PHP values the client handles and the array semantics it
  relies on:
  - truthiness, `?:`, loose `!= ""` and string interpolation;
  - ordered arrays with `$a[$k] = $v`, `array_merge` and `array_filter`;
  - each array function comes with the lemmas that state its meaning.
- **`Strings`** and **`Query`**: `implode`/`explode`, and the `k=v&k=v`
  query strings the builders write. `Query.ParseUrl` reads a query string
  back. It is the partner against which every builder's path is stated.
- **`Json`**: decoded responses, their truthiness and `isset`, and the
  joined text of an `errors` array.
- **`Http`**: types the modules share:
  - the request a builder produces;
  - the settings handed to cURL;
  - the errors (configuration error, invalid argument, API error with HTTP
    status, transport error with errno);
  - the environment (which files are readable, whether
    `curl_file_create` exists).
- **`Transport`**: `src/AsanaCurl.php`.
  - The whole exchange is specified as one function over the client's
    state, `Exchange`.
  - `AsanaCurl` is a class whose methods update the header table, the
    errors, the HTTP code and the sync key. They are proved against that
    specification.
- **`Facade`**: `src/Asana.php`. The builders are pure functions over a
  `Context` (the two configured defaults). The class `Asana` owns the
  transport and dispatches a built request to it.
- **`LegacyTransport`** and **`LegacyFacade`**: the legacy files, modelled
  the same way.
  - Each legacy builder is proved equal to the current one.
  - The legacy filter query is an imperative method, proved against its
    own specification.
  - The two `getTasksByFilter` versions are compared. The proofs give the
    exact condition under which they produce the same path, and concrete
    inputs on which they do not.

The network is an input. cURL's outcome is a value: the HTTP code, errno,
error text and decoded body, plus, for the legacy client, an exception
thrown during the transfer. A constructor that throws is modelled twice:

- a static `New` method returning a `Result`, whose failure is the thrown
  error;
- a constructor whose `requires` excludes that failure.

**What a failed connection does.** The current transport
(`src/AsanaCurl.php`) does not raise on a cURL failure. It stores
`curl_error` in `errors` and returns the decoded body, which is null, as
`Transport.CurlFailureReturnsNull` states. The legacy transport does raise,
because its check treats a falsy response as an error.

## Model

| member | source | states |
|---|---|---|
| Php.LooselyEmptyIsFalsy | src/Torann/LaravelAsana/Asana.php:231-233 | a value that compares loosely equal to "" is falsy, so the legacy filter test drops at least what `array_filter` drops |
| Php.PutGet | src/AsanaCurl.php:83-86 | after `$a[$k] = $v`, key k reads v and every other key reads as before |
| Php.PutKeys | src/AsanaCurl.php:83-86 | assigning keeps the key order, appends a new key at the end, and keeps keys distinct |
| Php.FilterTruthyKeeps | src/Asana.php:278 | `array_filter` keeps exactly the truthy entries of the array, and only those |
| Php.FilterAppend | src/Asana.php:278 | filtering distributes over concatenation, keeping order |
| Php.MergeOverDefaults | src/Asana.php:104-107 | merging string-keyed defaults with data gives the defaults in their order (each replaced by the caller's value when the caller has that key), then the caller's other entries in the caller's order |
| Php.MergeDisjoint | src/Asana.php:104-107 | merging string-keyed arrays with disjoint keys is concatenation |
| Strings.SplitJoin | src/Asana.php:279-281 | splitting a join on a separator no part contains gives the parts back |
| Query.DecodeEncode | src/Asana.php:279-281 | the `k=v&k=v` string of pairs whose keys have no '&' or '=' and whose values have no '&' reads back as the same pairs |
| Query.ParseRendered | src/Asana.php:283 | `resource?query` reads back as the resource and the encoded pairs |
| Json.ErrorTextOfObjects | src/AsanaCurl.php:341-343 | the joined text of the `errors` objects is one message for one error, and splits on ',' back into the messages otherwise |
| Transport.SentLines | src/AsanaCurl.php:215 | a line is sent exactly when some entry of the table is a truthy header line with that text |
| Transport.AddPostFile | src/AsanaCurl.php:302-328 | an unreadable file fails with "Unable to open … for reading"; otherwise the part names the same readable path, and it is a `CURLFile` exactly when `curl_file_create` exists |
| Transport.FlattenedLeaves | src/AsanaCurl.php:272-292 | flattening nested parameters gives one field per leaf, named `parent[child]`, with file leaves turned into upload parts, when every file is readable |
| Transport.FlattenedFails | src/AsanaCurl.php:272-292 | flattening fails exactly when some file leaf is unreadable, and the failure is an invalid-argument error |
| Transport.FailureSticks | src/AsanaCurl.php:283-285 | once a file leaf fails, the rest of the walk does not change the failure |
| Transport.FollowersFlattened | src/AsanaCurl.php:272-292 | a task with two followers flattens to the fields `data[followers][0]` and `data[followers][1]` |
| Transport.PutWellFormed | src/AsanaCurl.php:83-86 | assigning a header line or null keeps every truthy table entry a string |
| Transport.AsanaCurl.constructor | src/AsanaCurl.php:56-63 | a new client has the feature-flag header and the Bearer header for its token, no errors, no sync key, and HTTP code 200 |
| Transport.AsanaCurl.New | src/AsanaCurl.php:56-63 | construction fails with "You need to specify an access token." exactly when the token is falsy |
| Transport.AsanaCurl.SetHeader | src/AsanaCurl.php:83-86 | the table gets `key: value` under the key (null when the value is falsy); nothing else changes |
| Transport.SetHeaderTable | src/AsanaCurl.php:83-86 | after setHeader the key reads its line, every other key reads as before, and a new key is appended |
| Transport.SetHeaderSent | src/AsanaCurl.php:83-86 | a new header's line is sent after all earlier lines |
| Transport.PutNullSent | src/AsanaCurl.php:256-258 | nulling a header sends the same lines as removing it |
| Transport.AsanaCurl.SetHeaders | src/AsanaCurl.php:70-75 | the table after setHeaders is every given header applied in turn |
| Transport.SetAllGet | src/AsanaCurl.php:70-75 | after setHeaders each given key reads its own header line and every other key reads as before |
| Transport.AsanaCurl.BuildQueryForCurl | src/AsanaCurl.php:272-292 | the loop computes the flattening specification of the parameters |
| Transport.AsanaCurl.BuildArrayForCurl | src/AsanaCurl.php:250-262 | an upload gets the flattened form and drops the content-type header; anything else gets the JSON body; the table changes only in that header |
| Transport.AsanaCurl.CheckForCurlErrors | src/AsanaCurl.php:337-352 | a truthy response with `errors` raises an API error with the joined messages and the HTTP code, and records its `sync`; anything else passes through |
| Transport.AsanaCurl.Request | src/AsanaCurl.php:171-241 | the new state, the request sent and the result are those of the exchange specification |
| Transport.AsanaCurl.Get | src/AsanaCurl.php:95-98 | a GET is the exchange with no parameters |
| Transport.AsanaCurl.Post | src/AsanaCurl.php:108-111 | a POST is the exchange with the given data |
| Transport.AsanaCurl.Put | src/AsanaCurl.php:121-124 | a PUT is the exchange with the given data |
| Transport.AsanaCurl.Delete | src/AsanaCurl.php:134-137 | a DELETE is the exchange with the given data |
| Transport.NoBodyWithoutPayload | src/AsanaCurl.php:194-212 | GET and DELETE send no body and their own verb, and ignore the parameters |
| Transport.BodyWithPayload | src/AsanaCurl.php:194-212 | POST and PUT send nothing exactly when an upload names an unreadable file; otherwise they send the form or the JSON of the parameters |
| Transport.RequestHeaders | src/AsanaCurl.php:176-215 | the request sets the JSON content type, removes it again for an upload, and sends the lines of the resulting table |
| Transport.JsonContentType | src/AsanaCurl.php:176 | every request that is not an upload sends the JSON content-type line |
| Transport.UploadContentType | src/AsanaCurl.php:250-262 | an upload sends the client's headers without any content type |
| Transport.Classification | src/AsanaCurl.php:218-234 | a sent request records the HTTP code and the cURL error; it succeeds with the body exactly when the body has no `errors`, and otherwise fails with the API error and the body's sync key |
| Transport.CurlFailureReturnsNull | src/AsanaCurl.php:224-240 | a cURL failure with nothing decoded returns null and records the cURL error text; it does not raise |
| Transport.FirstRequestHeaders | src/AsanaCurl.php:44-63 | a new client's first request without an upload sends exactly the feature flag, the Bearer token and the JSON content type, in that order, to the endpoint followed by the path |
| Facade.GetUsers | src/Asana.php:74-78 | GET users, with an `opt_fields` query exactly when fields are given |
| Facade.CreateTask | src/Asana.php:102-110 | POST tasks with `data` holding the workspace and projects (the caller's or the defaults) first, then the caller's other fields in order |
| Facade.HelloWorldTask | src/Asana.php:102-110 | a task named "Hello World!" posted with any defaults gets workspace, projects and name in that order |
| Facade.AddProjectToTask | src/Asana.php:231-237 | POST tasks/{id}/addProject with the project (or the default) as `data.project` |
| Facade.RemoveProjectToTask | src/Asana.php:249-255 | POST tasks/{id}/removeProject with the project (or the default) as `data.project` |
| Facade.AddTaskAttachment | src/Asana.php:169-174 | POST tasks/{id}/attachments with the file as the `file` parameter, which makes it an upload exactly when the file is not null |
| Facade.AttachmentSentAsFile | src/Asana.php:169-174 | a file name is sent as one `file` field holding its upload part, or the upload fails when the file cannot be read |
| Facade.GetTasksByFilter | src/Asana.php:276-284 | GET tasks with a query of the truthy filter entries: assignee, project and workspace first, then the caller's other keys; only "tasks?" when nothing is truthy |
| Facade.FilterByDefault | src/Asana.php:276-284 | called with its default filter, getTasksByFilter asks for just "tasks?" |
| Facade.FilterKept | src/Asana.php:278 | the kept entries are the truthy ones among the three filter keys in fixed order, then the caller's other truthy entries |
| Facade.GetProject | src/Asana.php:383-388 | GET projects/{id}, with the default project when none is given |
| Facade.GetProjects | src/Asana.php:398-404 | GET projects with archived=true or false, plus `opt_fields` exactly when the fields are not loosely empty |
| Facade.ProjectsByDefault | src/Asana.php:398-404 | called with its defaults, getProjects asks for archived=false and no opt_fields |
| Facade.GetProjectsInWorkspace | src/Asana.php:414-420 | GET projects with archived=1 or 0 and the workspace (or the default) |
| Facade.UpdateProject | src/Asana.php:431-436 | PUT projects/{id} with the data wrapped in `data` |
| Facade.GetProjectTasks | src/Asana.php:445-450 | GET tasks with the project (or the default) as the `project` query pair |
| Facade.GetProjectStories | src/Asana.php:463-468 | GET projects/{id}/stories |
| Facade.CommentOnProject | src/Asana.php:481-490 | POST projects/{id}/stories with the text as `data.text` |
| Facade.GetProjectEvents | src/Asana.php:632-637 | GET projects/{id}/events |
| Facade.UpdateWorkspace | src/Asana.php:573-578 | PUT workspaces/{id} with the data wrapped in `data` |
| Facade.GetWorkspaceTasks | src/Asana.php:590-595 | GET tasks with the workspace (or the default) and the assignee as query pairs |
| Facade.WorkspaceTasksForMe | src/Asana.php:590-595 | called without an assignee, getWorkspaceTasks lists the workspace's tasks assigned to "me" |
| Facade.GetWorkspaceTags | src/Asana.php:604-609 | GET workspaces/{id}/tags |
| Facade.GetWorkspaceUsers | src/Asana.php:618-623 | GET workspaces/{id}/users |
| Facade.CreateSection | src/Asana.php:782-791 | POST projects/{id}/sections, where the body's `projects` is the caller's, when given, ahead of the path's project, followed by the caller's other fields |
| Facade.CreateSectionPathAndBodyDiffer | src/Asana.php:782-791 | a section created with a `projects` field names one project in the path and another in the body |
| Facade.GetProjectSections | src/Asana.php:799-804 | GET projects/{id}/sections |
| Facade.MoveSection | src/Asana.php:868-873 | POST projects/{id}/sections/insert with the data wrapped in `data` |
| Facade.ProjectIdDefaults | src/Asana.php:383-388 | every project builder given a falsy project id builds the call for the default project; given a truthy id, it does not depend on the defaults |
| Facade.WorkspaceIdDefaults | src/Asana.php:573-578 | every workspace builder given a falsy workspace id builds the call for the default workspace; given a truthy id, it does not depend on the defaults |
| Facade.Asana.constructor | src/Asana.php:37-45 | the facade keeps the two configured defaults and a new transport for the token, with no errors, a null sync key and HTTP code 200 |
| Facade.Asana.New | src/Asana.php:37-45 | construction fails with the missing-token error exactly when the configured token is falsy; otherwise the transport has the feature-flag and Bearer headers, no errors, a null sync key and HTTP code 200 |
| Facade.Asana.Dispatch | src/AsanaCurl.php:95-137 | a built request is one exchange with its verb, path and (for all but GET) parameters |
| LegacyTransport.Classified | src/Torann/LaravelAsana/AsanaCurl.php:253-276 | success means a truthy response without `errors`, passed through; a falsy response is a transport error with the cURL error text and errno |
| LegacyTransport.AddPostFile | src/Torann/LaravelAsana/AsanaCurl.php:191-210 | an unreadable file (after dropping a leading '@') fails with "Unable to open … for reading"; otherwise it gives a `CURLFile` or the old `@path` form, depending on whether `curl_file_create` exists |
| LegacyTransport.Unprefixed | src/Torann/LaravelAsana/AsanaCurl.php:193-196 | one leading '@' is removed, and nothing else |
| LegacyTransport.AtPrefixIgnored | src/Torann/LaravelAsana/AsanaCurl.php:193-196 | `@path` and `path` give the same upload part |
| LegacyTransport.OneAtStripped | src/Torann/LaravelAsana/AsanaCurl.php:193-196 | only one '@' is stripped |
| LegacyTransport.OldStyleIdempotent | src/Torann/LaravelAsana/AsanaCurl.php:204-209 | feeding an old-style `@path` part back to addPostFile gives the same part |
| LegacyTransport.AsanaCurl.constructor | src/Torann/LaravelAsana/AsanaCurl.php:37-48 | a truthy API key wins and clears the token; otherwise the token is kept; no errors, no sync key |
| LegacyTransport.AsanaCurl.New | src/Torann/LaravelAsana/AsanaCurl.php:37-48 | construction fails with "You need to specify an API key or token." exactly when both credentials are falsy |
| LegacyTransport.AsanaCurl.CheckForCurlErrors | src/Torann/LaravelAsana/AsanaCurl.php:253-276 | the method records the sync key and returns the classification of the response |
| LegacyTransport.AsanaCurl.Request | src/Torann/LaravelAsana/AsanaCurl.php:131-181 | the new state, the request sent and the result are those of the legacy exchange specification |
| LegacyTransport.AsanaCurl.Get | src/Torann/LaravelAsana/AsanaCurl.php:57-60 | a GET is the exchange with no data |
| LegacyTransport.AsanaCurl.Post | src/Torann/LaravelAsana/AsanaCurl.php:70-73 | a POST is the exchange with the given data |
| LegacyTransport.AsanaCurl.Put | src/Torann/LaravelAsana/AsanaCurl.php:83-86 | a PUT is the exchange with the given data |
| LegacyTransport.AsanaCurl.Delete | src/Torann/LaravelAsana/AsanaCurl.php:96-99 | a DELETE is the exchange with the given data |
| LegacyTransport.CredentialHeaders | src/Torann/LaravelAsana/AsanaCurl.php:136-146 | key mode sends `key:` as the user and the JSON content type unless a file is attached; token mode sends the JSON content type and the Bearer header, and no user |
| LegacyTransport.BodyAndMethod | src/Torann/LaravelAsana/AsanaCurl.php:148-163 | a body is sent exactly for POST and PUT with data, as its JSON; only GET sends no custom verb |
| LegacyTransport.ReturnsTruthy | src/Torann/LaravelAsana/AsanaCurl.php:166-180 | a successful request returns the truthy, error-free body; a thrown transfer or a falsy body is a transport error |
| LegacyTransport.ApiErrors | src/Torann/LaravelAsana/AsanaCurl.php:256-270 | a body with `errors` fails with the joined messages and the HTTP code, and records its sync key |
| LegacyTransport.ErrorsOnlyOnThrow | src/Torann/LaravelAsana/AsanaCurl.php:166-172 | the error list becomes the exception message only when the transfer throws; the credentials never change |
| LegacyFacade.GetUsers | src/Torann/LaravelAsana/Asana.php:71-74 | the legacy call is the current one without fields: GET users |
| LegacyFacade.CreateTask | src/Torann/LaravelAsana/Asana.php:97-105 | the legacy call equals the current createTask |
| LegacyFacade.AddProjectToTask | src/Torann/LaravelAsana/Asana.php:186-193 | the legacy call equals the current addProjectToTask |
| LegacyFacade.RemoveProjectToTask | src/Torann/LaravelAsana/Asana.php:202-209 | the legacy call equals the current removeProjectToTask |
| LegacyFacade.GetProject | src/Torann/LaravelAsana/Asana.php:327-332 | the legacy call equals the current getProject |
| LegacyFacade.GetProjects | src/Torann/LaravelAsana/Asana.php:341-347 | the legacy call equals the current getProjects |
| LegacyFacade.GetProjectsInWorkspace | src/Torann/LaravelAsana/Asana.php:356-362 | the legacy call equals the current getProjectsInWorkspace |
| LegacyFacade.UpdateProject | src/Torann/LaravelAsana/Asana.php:371-376 | the legacy call equals the current updateProject |
| LegacyFacade.GetProjectTasks | src/Torann/LaravelAsana/Asana.php:384-389 | the legacy call equals the current getProjectTasks |
| LegacyFacade.GetProjectStories | src/Torann/LaravelAsana/Asana.php:401-406 | the legacy call equals the current getProjectStories |
| LegacyFacade.CommentOnProject | src/Torann/LaravelAsana/Asana.php:416-425 | the legacy call equals the current commentOnProject |
| LegacyFacade.UpdateWorkspace | src/Torann/LaravelAsana/Asana.php:499-504 | the legacy call equals the current updateWorkspace |
| LegacyFacade.GetWorkspaceTasks | src/Torann/LaravelAsana/Asana.php:515-520 | the legacy call equals the current getWorkspaceTasks |
| LegacyFacade.GetWorkspaceTags | src/Torann/LaravelAsana/Asana.php:528-533 | the legacy call equals the current getWorkspaceTags |
| LegacyFacade.GetWorkspaceUsers | src/Torann/LaravelAsana/Asana.php:541-546 | the legacy call equals the current getWorkspaceUsers |
| LegacyFacade.GetProjectEvents | src/Torann/LaravelAsana/Asana.php:554-559 | the legacy call equals the current getProjectEvents |
| LegacyFacade.GetTasksByFilter | src/Torann/LaravelAsana/Asana.php:227-237 | the appended `&k=v` pieces, with the first '&' turned into '?', are the filter query of the merged filter: no query at all when no pair is listed |
| LegacyFacade.AmpedEncode | src/Torann/LaravelAsana/Asana.php:231-234 | the `&k=v` pieces of a non-empty list are '&' followed by its `k=v&k=v` encoding |
| LegacyFacade.MergedFilterPairs | src/Torann/LaravelAsana/Asana.php:230 | merging the blank defaults does not change which filter pairs are listed |
| LegacyFacade.LegacyFilterParsed | src/Torann/LaravelAsana/Asana.php:227-237 | the path is exactly "tasks" when no pair is listed, and otherwise reads back as tasks with the assignee, project and workspace pairs that are not loosely empty |
| LegacyFacade.EmptyFilterDiffers | src/Torann/LaravelAsana/Asana.php:234 | with no filter the current client asks for "tasks?" and the legacy one for "tasks" |
| LegacyFacade.ZeroProjectDiffers | src/Torann/LaravelAsana/Asana.php:231-233 | project "0" is dropped by the current client and kept by the legacy one |
| LegacyFacade.ExtraKeyDiffers | src/Torann/LaravelAsana/Asana.php:230-233 | any key outside the three filter keys, with a truthy value, reaches the current query and not the legacy one |
| LegacyFacade.NoExtraKeys | src/Torann/LaravelAsana/Asana.php:230-233 | a filter of only the three filter keys leaves nothing once they are removed |
| LegacyFacade.KeptAreListed | src/Torann/LaravelAsana/Asana.php:230-233 | for a filter of only the three keys, with no "0" or array values, the current client keeps exactly the pairs the legacy one lists |
| LegacyFacade.VersionsAgree | src/Torann/LaravelAsana/Asana.php:227-237 | for such filters, the two versions produce the same path exactly when at least one pair is listed |
| LegacyFacade.Asana.constructor | src/Torann/LaravelAsana/Asana.php:35-43 | the facade keeps the configured defaults; its transport holds the key when the key is truthy and the token otherwise |
| LegacyFacade.Asana.New | src/Torann/LaravelAsana/Asana.php:35-43 | construction fails with the missing-credentials error exactly when both the key and the token are falsy; otherwise the transport holds the key when it is truthy (and no token), else the token, with no errors and a null sync key |
| LegacyFacade.Asana.Dispatch | src/Torann/LaravelAsana/AsanaCurl.php:57-99 | a built request is one legacy exchange: GET without data, the other verbs with their parameters |

## Left out

- The cURL transfer itself is an input value, not modelled: connection,
  TLS, timeouts, the verbose and return-transfer options, and closing the
  handle.
- JSON encoding and decoding are not modelled. A body is the encoded value
  as a term, a response is the decoded value, and `JSON_BIGINT_AS_STRING`
  is not represented. Floating-point numbers are not modelled.
- `is_readable` is an uninterpreted predicate in the environment, and
  `curl_file_create`'s presence is a flag.
- Moving an `UploadedFile` to a temporary path needs the file system. In
  the model, an uploaded file is already a path.
- The response event fired after a request in `src/AsanaCurl.php` uses the
  framework's event dispatcher and is not modelled.
- Not modelled, because they are framework wiring with no logic of the
  client: the service providers, the Laravel facade class, the console
  commands and the configuration files.
- `getErrors` and `getSyncKey` only read fields. The fields are in the
  model and the accessors are not.
- These builders, current and legacy alike, are not modelled one by one:
  `getUserInfo`, `getCurrentUser`, `getTask`, `getSubTasks`, `updateTask`,
  `deleteTask`, `getAllAttachments`, `getSingleAttachment`,
  `getProjectsForTask`, `getTaskStories`, `commentOnTask` (default text
  ""), `addTagToTask`, `removeTagFromTask`, `createProject`, `getTag`,
  `getTags`, `updateTag`, `getTasksWithTag`, `getSingleStory`,
  `getWorkspaces`, `getCustomFields`, `getCustomField`, `createWebhook`,
  `getWebhook`, `getWebhooks`, `deleteWebhook`, `getSection`,
  `updateSection` and `deleteSection`. Each one interpolates its arguments
  into a path. Some also send a `['data' => …]` body: `updateTask`,
  `commentOnTask`, `addTagToTask`, `removeTagFromTask`, `createProject`,
  `updateTag`, `createWebhook` and `updateSection`. `getWebhooks` puts its
  workspace in a `workspace=` query. Their bodies are what `Envelope`
  builds and `Transport.BuildArrayForCurl` encodes. The one builder with a
  `['file' => …]` body, `addTaskAttachment`, is modelled as
  `Facade.AddTaskAttachment`.
- An omitted argument is modelled by passing its PHP default explicitly:
  null for an omitted id, `false` and "" for `getProjects`, the empty
  filter `Facade.FilterDefaults` for `getTasksByFilter`,
  `Facade.DefaultAssignee` ("me") for `getWorkspaceTasks`, and
  `["name" => ""]` for `updateWorkspace`.
- Legacy `addTaskAttachment` is not modelled: it calls a transport method
  that does not exist, so it cannot build any request.
- PHP's normalisation of numeric-string array keys ("5" becoming 5) is not
  modelled. Keys are kept as the client writes them.
- The whole model follows PHP 7. `Php.LooselyEmpty` uses PHP 7's loose
  comparison with "". PHP 8's rules are not modelled.
- Json.ErrorText: when the response's `errors` is not a list, the model
  gives "", which is PHP 7's result after `array_map` warns. Under PHP 8,
  `array_map` raises a TypeError that escapes `checkForCurlErrors`; that
  error is not modelled.
- `Json.Text` of an object or array does not model PHP's error on
  converting one to a string. Nor does `Php.Text` of a `CURLFile`, which
  PHP refuses to convert to a string; the model gives "" there, and no
  builder puts a file into a path.
- The builders' query strings are written without percent-encoding, as the
  code writes them. `Query.ParseUrl` only reads back pairs with no '&' or
  '=' in their keys and no '&' in their values.
- PATCH is declared but no builder uses it.
  `Facade.Asana.Dispatch` and `LegacyFacade.Asana.Dispatch` require another
  verb.
- Facade.CreateTask: the contract on the body is stated for string-keyed
  data with distinct keys; integer keys, which `array_merge` renumbers, are
  left unstated.
- Facade.CreateSection: the contract on the body is stated for
  string-keyed data with distinct keys, for the same reason.
- Facade.GetTasksByFilter: the query contract is stated for string-keyed
  filters with distinct keys whose pairs read back unambiguously.
- LegacyFacade.VersionsAgree: the comparison is stated for filters of only
  the three filter keys without "0" or array values; the lemmas on
  differences cover the other cases by example.
