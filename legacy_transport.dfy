/**
 * The legacy transport, class `AsanaCurl` of the Laravel package: an API
 * key (sent as the basic-auth user) or an access token (sent as a Bearer
 * header), a JSON body for POST and PUT, and a response that must be
 * truthy and free of `errors` for the call to return.
 */
module LegacyTransport {
  import opened Php
  import opened Http
  import Json

  const CredentialsMissing: string := "You need to specify an API key or token."
  const JsonLine: string := "Content-Type: application/json"
  const FileKey: Key := StrKey("file")

  /**
   * What happens outside the process during one call: the status code and
   * the cURL error number and text that `curl_getinfo`, `curl_errno` and
   * `curl_error` report, the message of an exception caught around
   * `curl_exec`/`json_decode` (if one is thrown), and the decoded body.
   */
  datatype Outcome = Outcome(httpCode: int, errno: int, errorText: string, thrown: Option<string>, body: Json.Value)

  datatype State = State(apiKey: Value, accessToken: Value, errors: seq<string>, syncKey: Json.Value)

  datatype Exchanged = Exchanged(after: State, sent: CurlRequest, result: Result<Json.Value>)

  /** Exactly one credential is stored, and it is not empty. */
  predicate OneCredential(apiKey: Value, accessToken: Value) {
    (Truthy(apiKey) && accessToken == Null) || (apiKey == Null && Truthy(accessToken))
  }

  /**
   * The `CURLOPT_HTTPHEADER` list: in API-key mode the JSON content type
   * unless the data carries a non-empty `file`; in token mode the JSON
   * content type and the Bearer token.
   */
  function HeaderLines(apiKey: Value, accessToken: Value, data: Option<Entries>): seq<string> {
    if Truthy(apiKey) then
      if data.None? || !Truthy(Get(data.value, FileKey)) then [JsonLine] else []
    else if Truthy(accessToken) then [JsonLine, "Authorization: Bearer " + Text(accessToken)]
    else []
  }

  /** `CURLOPT_CUSTOMREQUEST`: named for POST, PUT and DELETE; left at cURL's default otherwise. */
  function CustomRequest(verb: Method): Option<string> {
    match verb
    case POST => Some("POST")
    case PUT => Some("PUT")
    case DELETE => Some("DELETE")
    case _ => None
  }

  /** A JSON body goes with a POST or a PUT that was given data. */
  predicate SendsBody(verb: Method, data: Option<Entries>) {
    data.Some? && (verb == POST || verb == PUT)
  }

  function Sent(apiKey: Value, accessToken: Value, verb: Method, url: string, data: Option<Entries>): CurlRequest {
    CurlRequest(
      Endpoint + url,
      CustomRequest(verb),
      SendsBody(verb, data),
      if SendsBody(verb, data) then Some(JsonEncoded(Arr(data.value))) else None,
      HeaderLines(apiKey, accessToken, data),
      if Truthy(apiKey) then Some(Text(apiKey) + ":") else None)
  }

  /**
   * `checkForCurlErrors($response)`: a truthy response with `errors` fails
   * with the joined messages and the status code, after capturing `sync`;
   * a falsy response fails with the cURL error; any other response is
   * returned. The first component is the sync key afterwards.
   */
  function Classified(response: Json.Value, net: Outcome, syncKey: Json.Value): (r: (Json.Value, Result<Json.Value>))
    ensures r.1.Success? ==> Json.Truthy(r.1.value) && r.1.value == response && !Json.Isset(response, "errors")
    ensures r.1.Success? ==> r.0 == syncKey
    ensures !Json.Truthy(response) ==> r == (syncKey, Failure(TransportError(net.errorText, net.errno)))
  {
    if Json.Truthy(response) && Json.Isset(response, "errors") then
      ((if Json.Isset(response, "sync") then Json.Field(response, "sync") else syncKey),
       Failure(ApiError(Json.ErrorText(Json.Field(response, "errors")), net.httpCode)))
    else if !Json.Truthy(response) then
      (syncKey, Failure(TransportError(net.errorText, net.errno)))
    else (syncKey, Success(response))
  }

  /**
   * One call of `request($method, $url, $data)` from state `s`: the
   * handle is configured from the credential, the method and the data;
   * an exception during the transfer is recorded in `errors` and leaves a
   * null response; the response is classified.
   */
  function Exchange(s: State, verb: Method, url: string, data: Option<Entries>, net: Outcome): Exchanged {
    var errors := if net.thrown.Some? then [net.thrown.value] else s.errors;
    var response := if net.thrown.Some? then Json.JNull else net.body;
    var (sync, result) := Classified(response, net, s.syncKey);
    Exchanged(State(s.apiKey, s.accessToken, errors, sync), Sent(s.apiKey, s.accessToken, verb, url, data), result)
  }

  /** The path `addPostFile` works on: the name with one leading `@` removed. */
  function Unprefixed(filename: string): (r: string)
    ensures |filename| > 0 && filename[0] == '@' ==> filename == "@" + r
    ensures !(|filename| > 0 && filename[0] == '@') ==> r == filename
  {
    if |filename| > 0 && filename[0] == '@' then filename[1..] else filename
  }

  /**
   * `addPostFile($filename)`: after stripping one leading `@`, an
   * unreadable path is rejected; a readable one becomes a `CURLFile` when
   * `curl_file_create` exists and `"@path"` otherwise.
   */
  function AddPostFile(filename: string, env: Env): (r: Result<Value>)
    ensures r.Failure? <==> !env.readable(Unprefixed(filename))
    ensures r.Failure? ==> r.error == InvalidArgument("Unable to open " + Unprefixed(filename) + " for reading")
    ensures r.Success? ==> r.value == if env.hasCurlFileCreate then CurlFile(Unprefixed(filename)) else Str("@" + Unprefixed(filename))
  {
    var path := if |filename| > 0 && filename[0] == '@' then filename[1..] else filename;
    if !env.readable(path) then Failure(InvalidArgument("Unable to open " + path + " for reading"))
    else if env.hasCurlFileCreate then Success(CurlFile(path))
    else Success(Str("@" + path))
  }

  // ---------------------------------------------------------------------------
  // The class
  // ---------------------------------------------------------------------------

  class AsanaCurl {
    const apiKey: Value
    const accessToken: Value
    var errors: seq<string>
    var syncKey: Json.Value

    ghost predicate Valid()
      reads this
    {
      OneCredential(apiKey, accessToken)
    }

    function Snapshot(): State
      reads this
    {
      State(apiKey, accessToken, errors, syncKey)
    }

    /** `new AsanaCurl($key, $token)` when at least one of them is not empty: a key wins over a token. */
    constructor(key: Value, token: Value)
      requires Truthy(key) || Truthy(token)
      ensures Valid()
      ensures Truthy(key) ==> apiKey == key && accessToken == Null
      ensures !Truthy(key) ==> apiKey == Null && accessToken == token
      ensures errors == [] && syncKey == Json.JNull
    {
      if Truthy(key) {
        apiKey := key;
        accessToken := Null;
      } else {
        apiKey := Null;
        accessToken := token;
      }
      errors := [];
      syncKey := Json.JNull;
    }

    /** `new AsanaCurl($key, $token)`: with neither credential the constructor throws. */
    static method New(key: Value, token: Value) returns (r: Result<AsanaCurl>)
      ensures r.Failure? <==> !Truthy(key) && !Truthy(token)
      ensures r.Failure? ==> r.error == ConfigurationError(CredentialsMissing)
      ensures r.Success? ==> fresh(r.value) && r.value.Valid() && r.value.errors == [] && r.value.syncKey == Json.JNull
      ensures r.Success? ==> (if Truthy(key) then r.value.apiKey == key && r.value.accessToken == Null
                              else r.value.apiKey == Null && r.value.accessToken == token)
    {
      if !Truthy(key) && !Truthy(token) {
        return Failure(ConfigurationError(CredentialsMissing));
      }
      var c := new AsanaCurl(key, token);
      return Success(c);
    }

    /** `checkForCurlErrors($response)`: Success when nothing is thrown. */
    method CheckForCurlErrors(response: Json.Value, net: Outcome) returns (r: Result<Json.Value>)
      modifies this
      ensures (syncKey, r) == Classified(response, net, old(syncKey))
      ensures errors == old(errors)
    {
      if Json.Truthy(response) && Json.Isset(response, "errors") {
        var text := Json.ErrorText(Json.Field(response, "errors"));
        if Json.Isset(response, "sync") {
          syncKey := Json.Field(response, "sync");
        }
        return Failure(ApiError(text, net.httpCode));
      } else if !Json.Truthy(response) {
        return Failure(TransportError(net.errorText, net.errno));
      }
      return Success(response);
    }

    /** `request($method, $url, $data)`; `sent` is what cURL is given. */
    method Request(verb: Method, url: string, data: Option<Entries>, net: Outcome)
      returns (sent: CurlRequest, r: Result<Json.Value>)
      requires Valid()
      modifies this
      ensures Valid()
      ensures Exchanged(Snapshot(), sent, r) == Exchange(old(Snapshot()), verb, url, data, net)
    {
      var header: seq<string> := [];
      var userPwd: Option<string> := None;
      if Truthy(apiKey) {
        userPwd := Some(Text(apiKey) + ":");
        if data.None? || !Truthy(Php.Get(data.value, FileKey)) {
          header := [JsonLine];
        }
      } else if Truthy(accessToken) {
        header := [JsonLine, "Authorization: Bearer " + Text(accessToken)];
      }
      var custom: Option<string> := None;
      match verb {
        case POST => custom := Some("POST");
        case PUT => custom := Some("PUT");
        case DELETE => custom := Some("DELETE");
        case _ =>
      }
      var post := false;
      var fields: Option<Body> := None;
      if data.Some? && (verb == POST || verb == PUT) {
        post := true;
        fields := Some(JsonEncoded(Arr(data.value)));
      }
      sent := CurlRequest(Endpoint + url, custom, post, fields, header, userPwd);
      var response := net.body;
      if net.thrown.Some? {
        errors := [net.thrown.value];
        response := Json.JNull;
      }
      r := CheckForCurlErrors(response, net);
    }

    /** `get($url)`: no data. */
    method Get(url: string, net: Outcome) returns (sent: CurlRequest, r: Result<Json.Value>)
      requires Valid()
      modifies this
      ensures Valid()
      ensures Exchanged(Snapshot(), sent, r) == Exchange(old(Snapshot()), GET, url, None, net)
    {
      sent, r := Request(GET, url, None, net);
    }

    /** `post($url, $data)` */
    method Post(url: string, data: Entries, net: Outcome) returns (sent: CurlRequest, r: Result<Json.Value>)
      requires Valid()
      modifies this
      ensures Valid()
      ensures Exchanged(Snapshot(), sent, r) == Exchange(old(Snapshot()), POST, url, Some(data), net)
    {
      sent, r := Request(POST, url, Some(data), net);
    }

    /** `put($url, $data)` */
    method Put(url: string, data: Entries, net: Outcome) returns (sent: CurlRequest, r: Result<Json.Value>)
      requires Valid()
      modifies this
      ensures Valid()
      ensures Exchanged(Snapshot(), sent, r) == Exchange(old(Snapshot()), PUT, url, Some(data), net)
    {
      sent, r := Request(PUT, url, Some(data), net);
    }

    /** `delete($url, $data)` */
    method Delete(url: string, data: Entries, net: Outcome) returns (sent: CurlRequest, r: Result<Json.Value>)
      requires Valid()
      modifies this
      ensures Valid()
      ensures Exchanged(Snapshot(), sent, r) == Exchange(old(Snapshot()), DELETE, url, Some(data), net)
    {
      sent, r := Request(DELETE, url, Some(data), net);
    }
  }

  // ---------------------------------------------------------------------------
  // Lemmas
  // ---------------------------------------------------------------------------

  /**
   * The headers follow the credential: an API key is sent as the basic-auth
   * user with the JSON content type unless a file is attached; a token is
   * sent as a Bearer header next to the JSON content type, always.
   */
  lemma {:induction false} CredentialHeaders(s: State, verb: Method, url: string, data: Option<Entries>, net: Outcome)
    requires OneCredential(s.apiKey, s.accessToken)
    ensures var sent := Exchange(s, verb, url, data, net).sent;
      Truthy(s.apiKey) ==>
        sent.userPwd == Some(Text(s.apiKey) + ":")
        && (JsonLine in sent.httpHeader <==> data.None? || !Truthy(Get(data.value, FileKey)))
        && |sent.httpHeader| <= 1
    ensures var sent := Exchange(s, verb, url, data, net).sent;
      !Truthy(s.apiKey) ==>
        sent.userPwd == None
        && sent.httpHeader == [JsonLine, "Authorization: Bearer " + Text(s.accessToken)]
  {
  }

  /**
   * Only a POST or a PUT given data carries a body, always the JSON
   * encoding of that data; POST, PUT and DELETE name their method, GET
   * leaves cURL's default.
   */
  lemma {:induction false} BodyAndMethod(s: State, verb: Method, url: string, data: Option<Entries>, net: Outcome)
    requires verb != PATCH
    ensures var sent := Exchange(s, verb, url, data, net).sent;
      (sent.postFields.Some? <==> data.Some? && (verb == POST || verb == PUT))
      && (sent.postFields.Some? ==> sent.post && sent.postFields.value == JsonEncoded(Arr(data.value)))
      && (sent.customRequest.None? <==> verb == GET)
      && (sent.customRequest.Some? ==> sent.customRequest.value == MethodName(verb))
      && sent.url == Endpoint + url
  {
  }

  /**
   * A call that returns gives back a truthy value, the decoded body itself,
   * which carries no `errors`; the sync key is then unchanged. A falsy or
   * missing response fails with the cURL error text and number.
   */
  lemma {:induction false} ReturnsTruthy(s: State, verb: Method, url: string, data: Option<Entries>, net: Outcome)
    ensures var x := Exchange(s, verb, url, data, net);
      x.result.Success? ==>
        net.thrown.None? && x.result.value == net.body && Json.Truthy(net.body)
        && !Json.Isset(net.body, "errors") && x.after.syncKey == s.syncKey
    ensures var x := Exchange(s, verb, url, data, net);
      (net.thrown.Some? || !Json.Truthy(net.body)) ==>
        x.result == Failure(TransportError(net.errorText, net.errno)) && x.after.syncKey == s.syncKey
  {
  }

  /** A response with `errors` fails with the joined messages and the status code, after capturing `sync`. */
  lemma {:induction false} ApiErrors(s: State, verb: Method, url: string, data: Option<Entries>, net: Outcome)
    requires net.thrown.None? && Json.Isset(net.body, "errors")
    ensures var x := Exchange(s, verb, url, data, net);
      x.result == Failure(ApiError(Json.ErrorText(Json.Field(net.body, "errors")), net.httpCode))
      && x.after.syncKey == if Json.Isset(net.body, "sync") then Json.Field(net.body, "sync") else s.syncKey
  {
  }

  /**
   * `errors` changes only when the transfer throws, and then holds that one
   * message; the credentials never change.
   */
  lemma {:induction false} ErrorsOnlyOnThrow(s: State, verb: Method, url: string, data: Option<Entries>, net: Outcome)
    ensures var after := Exchange(s, verb, url, data, net).after;
      after.errors == (if net.thrown.Some? then [net.thrown.value] else s.errors)
      && after.apiKey == s.apiKey && after.accessToken == s.accessToken
  {
  }

  /** A name with one `@` in front is the same upload as the name without it. */
  lemma {:induction false} AtPrefixIgnored(path: string, env: Env)
    requires !(|path| > 0 && path[0] == '@')
    ensures AddPostFile("@" + path, env) == AddPostFile(path, env)
  {
    assert ("@" + path)[1..] == path;
  }

  /** Only one `@` is stripped: `@@x` is looked up as `@x`. */
  lemma {:induction false} OneAtStripped(path: string, env: Env)
    ensures Unprefixed("@@" + path) == "@" + path
  {
    assert ("@@" + path)[1..] == "@" + path;
  }

  /** The old-style `"@path"` result names the same upload when it is given back to `addPostFile`. */
  lemma {:induction false} OldStyleIdempotent(filename: string, env: Env)
    requires !env.hasCurlFileCreate
    requires AddPostFile(filename, env).Success?
    ensures AddPostFile(AddPostFile(filename, env).value.s, env) == AddPostFile(filename, env)
  {
    var path := Unprefixed(filename);
    assert AddPostFile(filename, env).value.s == "@" + path;
    assert ("@" + path)[1..] == path;
  }
}
