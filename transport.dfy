/**
 * The current transport, class `AsanaCurl` (token authentication only).
 * It keeps a header table that `setHeader` edits, chooses between a JSON
 * body and a multipart upload, flattens nested parameters into bracketed
 * field names, and turns a decoded response that carries `errors` into an
 * exception. The cURL transfer itself is an input: its HTTP status, its
 * error number and text, and the decoded body.
 */
module Transport {
  import opened Php
  import opened Http
  import Json

  /** What one cURL transfer produced, as `curl_getinfo`, `curl_errno`, `curl_error` and `json_decode` report it. */
  datatype Outcome = Outcome(httpCode: int, errno: int, errorText: string, body: Json.Value)

  /** The four fields a request reads and writes. `syncKey` is `JNull` while unset. */
  datatype State = State(headers: Entries, errors: Option<string>, syncKey: Json.Value, httpCode: int)

  /** The state after a request, the cURL options it set (none when it failed before the transfer), and its outcome. */
  datatype Exchanged = Exchanged(after: State, sent: Option<CurlRequest>, result: Result<Json.Value>)

  const ContentType: Key := StrKey("Content-Type")
  const FileKey: Key := StrKey("file")

  /**
   * The header table of a new client. The class declares two `'Accept'`
   * entries; the second overwrites the first, so one entry remains.
   */
  const InitialHeaders: Entries := [(StrKey("Accept"), Str("Asana-Enable: new_rich_text"))]

  const TokenMissing: string := "You need to specify an access token."

  // ---------------------------------------------------------------------------
  // The header table
  // ---------------------------------------------------------------------------

  /** The entry `setHeader($key, $value)` writes: the header line for a truthy value, the value itself otherwise. */
  function HeaderValue(k: Key, v: Value): Value {
    if Truthy(v) then Str(KeyText(k) + ": " + Text(v)) else v
  }

  /** The header table after `setHeader` for each entry of `values`, in order. */
  function SetAll(h: Entries, values: Entries): Entries
    decreases |values|
  {
    if values == [] then h
    else
      var e := values[|values| - 1];
      Put(SetAll(h, values[..|values| - 1]), e.0, HeaderValue(e.0, e.1))
  }

  /** `array_filter(array_values($headers))`: the header lines cURL is given. */
  function SentHeaders(h: Entries): seq<string> {
    if h == [] then []
    else (if Truthy(h[0].1) then [Text(h[0].1)] else []) + SentHeaders(h[1..])
  }

  /** A line is sent exactly when some truthy entry of the table has that text. */
  lemma {:induction false} SentLines(h: Entries)
    ensures forall line :: line in SentHeaders(h) <==> exists i :: 0 <= i < |h| && Truthy(h[i].1) && Text(h[i].1) == line
  {
    if h != [] {
      var t := h[1..];
      SentLines(t);
      var head := if Truthy(h[0].1) then [Text(h[0].1)] else [];
      assert SentHeaders(h) == head + SentHeaders(t);
      forall line
        ensures line in SentHeaders(h) <==> exists i :: 0 <= i < |h| && Truthy(h[i].1) && Text(h[i].1) == line
      {
        if line in head {
          assert 0 < |h| && Truthy(h[0].1) && Text(h[0].1) == line;
        } else if line in SentHeaders(t) {
          var i :| 0 <= i < |t| && Truthy(t[i].1) && Text(t[i].1) == line;
          assert h[i + 1] == t[i];
        }
      }
    }
  }

  /** A table is well formed when every key occurs once and every header that is sent is a string. */
  predicate WellFormed(h: Entries) {
    DistinctKeys(h) && forall i :: 0 <= i < |h| ==> Truthy(h[i].1) ==> h[i].1.Str?
  }

  // ---------------------------------------------------------------------------
  // File uploads and flattening
  // ---------------------------------------------------------------------------

  /** The path a file part refers to: a `CURLFile`'s own, or the text after the `@` of the old syntax. */
  function UploadPath(part: Value): string {
    match part
    case CurlFile(p) => p
    case Str(s) => if |s| > 0 && s[0] == '@' then s[1..] else s
    case _ => ""
  }

  /**
   * `addPostFile($filename)`: an unreadable path is rejected; a readable
   * one becomes a `CURLFile` when `curl_file_create` exists, and `"@path"`
   * otherwise.
   */
  function AddPostFile(filename: Value, env: Env): (r: Result<Value>)
    ensures r.Failure? <==> !env.readable(Text(filename))
    ensures r.Failure? ==> r.error == InvalidArgument("Unable to open " + Text(filename) + " for reading")
    ensures r.Success? ==> UploadPath(r.value) == Text(filename) && env.readable(UploadPath(r.value))
    ensures r.Success? ==> (r.value.CurlFile? <==> env.hasCurlFileCreate)
  {
    var path := Text(filename);
    if !env.readable(path) then Failure(InvalidArgument("Unable to open " + path + " for reading"))
    else if env.hasCurlFileCreate then Success(CurlFile(path))
    else
      assert ("@" + path)[1..] == path;
      Success(Str("@" + path))
  }

  /** The part a readable file leaf becomes. */
  function FilePart(filename: Value, env: Env): Value {
    if env.hasCurlFileCreate then CurlFile(Text(filename)) else Str("@" + Text(filename))
  }

  /** PHP truthiness of a key used as a prefix: `0` and `""` are falsy. */
  predicate KeyTruthy(k: Key) {
    match k
    case IntKey(i) => i != 0
    case StrKey(s) => s != "" && s != "0"
  }

  /** `$prefix ? $prefix . '[' . $key . ']' : $key` */
  function FieldName(prefix: Option<Key>, key: Key): Key {
    if prefix.Some? && KeyTruthy(prefix.value) then StrKey(KeyText(prefix.value) + "[" + KeyText(key) + "]")
    else key
  }

  /**
   * What `http_build_query_for_curl` returns after its loop has visited the
   * first `n` entries: a nested array is flattened under its name and merged
   * in with `array_merge`; a leaf is stored under its name, and a leaf whose
   * key is exactly `'file'` goes through `addPostFile` first.
   */
  function Flattened(es: Entries, n: nat, prefix: Option<Key>, env: Env): Result<Entries>
    requires n <= |es|
    decreases Arr(es), n
  {
    if n == 0 then Success([])
    else
      match Flattened(es, n - 1, prefix, env)
      case Failure(e) => Failure(e)
      case Success(acc) =>
        var key := es[n - 1].0;
        var value := es[n - 1].1;
        var name := FieldName(prefix, key);
        if value.Arr? then
          match Flattened(value.entries, |value.entries|, Some(name), env)
          case Failure(e) => Failure(e)
          case Success(inner) => Success(Merge(acc, inner))
        else if key == FileKey then
          match AddPostFile(value, env)
          case Failure(e) => Failure(e)
          case Success(part) => Success(Php.Put(acc, name, part))
        else Success(Php.Put(acc, name, value))
  }

  /** A turn of the loop at a nested array: its flattening is merged in, or its failure ends the loop. */
  lemma {:induction false} ArrStep(es: Entries, n: nat, prefix: Option<Key>, env: Env, acc: Entries, sub: Result<Entries>)
    requires n < |es| && Flattened(es, n, prefix, env) == Success(acc) && es[n].1.Arr?
    requires sub == Flattened(es[n].1.entries, |es[n].1.entries|, Some(FieldName(prefix, es[n].0)), env)
    ensures sub.Failure? ==> Flattened(es, |es|, prefix, env) == Failure(sub.error)
    ensures sub.Success? ==> Flattened(es, n + 1, prefix, env) == Success(Merge(acc, sub.value))
  {
    if sub.Failure? {
      FailureSticks(es, n + 1, |es|, prefix, env);
    }
  }

  /** A turn of the loop at a `'file'` leaf whose part cannot be made: the loop ends with that failure. */
  lemma {:induction false} FileFails(es: Entries, n: nat, prefix: Option<Key>, env: Env, acc: Entries)
    requires n < |es| && Flattened(es, n, prefix, env) == Success(acc) && !es[n].1.Arr? && es[n].0 == FileKey
    requires AddPostFile(es[n].1, env).Failure?
    ensures Flattened(es, |es|, prefix, env) == Failure(AddPostFile(es[n].1, env).error)
  {
    FailureSticks(es, n + 1, |es|, prefix, env);
  }

  /**
   * A turn of the loop at a leaf: it is stored under its name, a `'file'`
   * leaf as its file part.
   */
  lemma {:induction false} LeafStep(es: Entries, n: nat, prefix: Option<Key>, env: Env, acc: Entries, v: Value)
    requires n < |es| && Flattened(es, n, prefix, env) == Success(acc) && !es[n].1.Arr?
    requires if es[n].0 == FileKey then AddPostFile(es[n].1, env) == Success(v) else v == es[n].1
    ensures Flattened(es, n + 1, prefix, env) == Success(Php.Put(acc, FieldName(prefix, es[n].0), v))
  {
  }

  /**
   * The reference reading of flattening: one entry per non-array leaf, in
   * depth-first order, named by the bracketed path to it, file leaves
   * replaced by their file part.
   */
  function Leaves(es: Entries, n: nat, prefix: Option<Key>, env: Env): Entries
    requires n <= |es|
    decreases Arr(es), n
  {
    if n == 0 then []
    else
      var key := es[n - 1].0;
      var value := es[n - 1].1;
      var name := FieldName(prefix, key);
      Leaves(es, n - 1, prefix, env)
      + if value.Arr? then Leaves(value.entries, |value.entries|, Some(name), env)
        else [(name, if key == FileKey then FilePart(value, env) else value)]
  }

  /** Every leaf under the key `'file'` among the first `n` entries names a readable path. */
  predicate FilesReadable(es: Entries, n: nat, env: Env)
    requires n <= |es|
    decreases Arr(es), n
  {
    n == 0 ||
    (FilesReadable(es, n - 1, env) &&
     var key := es[n - 1].0;
     var value := es[n - 1].1;
     if value.Arr? then FilesReadable(value.entries, |value.entries|, env)
     else key == FileKey ==> env.readable(Text(value)))
  }

  /** `buildArrayForCurl`'s choice: a set top-level `'file'` means a multipart upload. */
  predicate IsUpload(params: Entries) {
    IsSet(params, FileKey)
  }

  /** The header table and the body after `buildArrayForCurl($params)`. */
  function Encoded(h: Entries, params: Entries, env: Env): (Entries, Result<Body>) {
    if IsUpload(params) then
      var body := match Flattened(params, |params|, None, env)
        case Success(fields) => Success(Form(fields))
        case Failure(e) => Failure(e);
      (Php.Put(h, ContentType, HeaderValue(ContentType, Null)), body)
    else (h, Success(JsonEncoded(Arr(params))))
  }

  // ---------------------------------------------------------------------------
  // A request
  // ---------------------------------------------------------------------------

  /** Only PUT, PATCH and POST attach a body. */
  predicate AttachesBody(verb: Method) {
    verb == PUT || verb == PATCH || verb == POST
  }

  /**
   * `checkForCurlErrors($json)`: a truthy response with `errors` becomes an
   * exception with the joined messages and the status code, after `sync`
   * (when set) is captured; any other response is returned as it is. The
   * first component is the sync key afterwards.
   */
  function Classified(json: Json.Value, httpCode: int, syncKey: Json.Value): (Json.Value, Result<Json.Value>) {
    if Json.Truthy(json) && Json.Isset(json, "errors") then
      ((if Json.Isset(json, "sync") then Json.Field(json, "sync") else syncKey),
       Failure(ApiError(Json.ErrorText(Json.Field(json, "errors")), httpCode)))
    else (syncKey, Success(json))
  }

  /**
   * The header table and the body once a request has set the JSON content
   * type and, for a method with a body, encoded the params.
   */
  function Prepared(h: Entries, verb: Method, params: Entries, env: Env): (Entries, Result<Option<Body>>) {
    var h1 := Php.Put(h, ContentType, HeaderValue(ContentType, Str("application/json")));
    if AttachesBody(verb) then
      var (h2, b) := Encoded(h1, params, env);
      (h2, match b case Success(x) => Success(Some(x)) case Failure(e) => Failure(e))
    else (h1, Success(None))
  }

  /**
   * One call of `request($verb, $url, $params)` from state `s` when the
   * transfer gives `net`. `errors` is reset; Content-Type is set to JSON;
   * a method with a body encodes the params (an unreadable upload fails
   * here, before any transfer); the custom request is the method's name;
   * the status code and the cURL error text are recorded; the response is
   * classified.
   */
  function Exchange(s: State, verb: Method, url: string, params: Entries, env: Env, net: Outcome): Exchanged {
    var (h2, body) := Prepared(s.headers, verb, params, env);
    if body.Failure? then
      Exchanged(State(h2, None, s.syncKey, s.httpCode), None, Failure(body.error))
    else
      var sent := CurlRequest(Endpoint + url, Some(MethodName(verb)), AttachesBody(verb), body.value, SentHeaders(h2), None);
      var errors := if net.errno != 0 then Some(net.errorText) else None;
      var (sync, result) := Classified(net.body, net.httpCode, s.syncKey);
      Exchanged(State(h2, errors, sync, net.httpCode), Some(sent), result)
  }

  // ---------------------------------------------------------------------------
  // The class
  // ---------------------------------------------------------------------------

  class AsanaCurl {
    var headers: Entries
    var errors: Option<string>
    var syncKey: Json.Value
    var httpCode: int

    ghost predicate Valid()
      reads this
    {
      WellFormed(headers)
    }

    function Snapshot(): State
      reads this
    {
      State(headers, errors, syncKey, httpCode)
    }

    /** `new AsanaCurl($token)` for a token that is not empty. */
    constructor(token: Value)
      requires Truthy(token)
      ensures Valid()
      ensures headers == InitialHeaders + [(StrKey("Authorization"), Str("Authorization: Bearer " + Text(token)))]
      ensures errors == None && syncKey == Json.JNull && httpCode == 200
    {
      headers := InitialHeaders + [(StrKey("Authorization"), Str("Authorization: Bearer " + Text(token)))];
      errors := None;
      syncKey := Json.JNull;
      httpCode := 200;
    }

    /** `new AsanaCurl($token)`: an empty token is refused. */
    static method New(token: Value) returns (r: Result<AsanaCurl>)
      ensures r.Failure? <==> !Truthy(token)
      ensures r.Failure? ==> r.error == ConfigurationError(TokenMissing)
      ensures r.Success? ==> fresh(r.value) && r.value.Valid()
      ensures r.Success? ==> r.value.headers == InitialHeaders + [(StrKey("Authorization"), Str("Authorization: Bearer " + Text(token)))]
      ensures r.Success? ==> r.value.errors == None && r.value.syncKey == Json.JNull && r.value.httpCode == 200
    {
      if !Truthy(token) {
        return Failure(ConfigurationError(TokenMissing));
      }
      var c := new AsanaCurl(token);
      return Success(c);
    }

    /** `setHeader($key, $value)` */
    method SetHeader(k: Key, v: Value)
      requires Valid()
      modifies this
      ensures Valid()
      ensures headers == Php.Put(old(headers), k, HeaderValue(k, v))
      ensures errors == old(errors) && syncKey == old(syncKey) && httpCode == old(httpCode)
    {
      PutWellFormed(headers, k, HeaderValue(k, v));
      headers := Php.Put(headers, k, HeaderValue(k, v));
    }

    /** `setHeaders($values)`: `setHeader` for each entry, in order. */
    method SetHeaders(values: Entries)
      requires Valid()
      modifies this
      ensures Valid()
      ensures headers == SetAll(old(headers), values)
      ensures errors == old(errors) && syncKey == old(syncKey) && httpCode == old(httpCode)
    {
      var i := 0;
      while i < |values|
        invariant 0 <= i <= |values|
        invariant Valid()
        invariant headers == SetAll(old(headers), values[..i])
        invariant errors == old(errors) && syncKey == old(syncKey) && httpCode == old(httpCode)
      {
        SetHeader(values[i].0, values[i].1);
        assert values[..i + 1][..i] == values[..i];
        i := i + 1;
      }
      assert values[..i] == values;
    }

    /** `http_build_query_for_curl($var, $prefix)`, where `$var` is the array `arr` */
    method BuildQueryForCurl(arr: Value, prefix: Option<Key>, env: Env) returns (r: Result<Entries>)
      requires arr.Arr?
      ensures r == Flattened(arr.entries, |arr.entries|, prefix, env)
      decreases arr
    {
      var input := arr.entries;
      var ret: Entries := [];
      for i := 0 to |input|
        invariant Flattened(input, i, prefix, env) == Success(ret)
      {
        var key := input[i].0;
        var value := input[i].1;
        var name := FieldName(prefix, key);
        if value.Arr? {
          var inner := BuildQueryForCurl(value, Some(name), env);
          ArrStep(input, i, prefix, env, ret, inner);
          if inner.Failure? {
            return Failure(inner.error);
          }
          ret := Merge(ret, inner.value);
        } else {
          var v := value;
          if key == FileKey {
            var file := AddPostFile(value, env);
            if file.Failure? {
              FileFails(input, i, prefix, env, ret);
              return Failure(file.error);
            }
            v := file.value;
          }
          LeafStep(input, i, prefix, env, ret, v);
          ret := Php.Put(ret, name, v);
        }
      }
      return Success(ret);
    }

    /** `buildArrayForCurl($params)` */
    method BuildArrayForCurl(params: Entries, env: Env) returns (r: Result<Body>)
      requires Valid()
      modifies this
      ensures Valid()
      ensures (headers, r) == Encoded(old(headers), params, env)
      ensures errors == old(errors) && syncKey == old(syncKey) && httpCode == old(httpCode)
    {
      if IsSet(params, FileKey) {
        SetHeader(ContentType, Null);
        var fields := BuildQueryForCurl(Arr(params), None, env);
        if fields.Failure? {
          return Failure(fields.error);
        }
        return Success(Form(fields.value));
      }
      return Success(JsonEncoded(Arr(params)));
    }

    /** `checkForCurlErrors($json)`: Success when nothing is thrown. */
    method CheckForCurlErrors(json: Json.Value) returns (r: Result<Json.Value>)
      modifies this
      ensures (syncKey, r) == Classified(json, httpCode, old(syncKey))
      ensures headers == old(headers) && errors == old(errors) && httpCode == old(httpCode)
    {
      if Json.Truthy(json) && Json.Isset(json, "errors") {
        var text := Json.ErrorText(Json.Field(json, "errors"));
        if Json.Isset(json, "sync") {
          syncKey := Json.Field(json, "sync");
        }
        return Failure(ApiError(text, httpCode));
      }
      return Success(json);
    }

    /** `request($verb, $url, $params)`; `sent` is what cURL is given, none when encoding fails. */
    method Request(verb: Method, url: string, params: Entries, env: Env, net: Outcome)
      returns (sent: Option<CurlRequest>, r: Result<Json.Value>)
      requires Valid()
      modifies this
      ensures Valid()
      ensures Exchanged(Snapshot(), sent, r) == Exchange(old(Snapshot()), verb, url, params, env, net)
    {
      errors := None;
      SetHeader(ContentType, Str("application/json"));
      var body: Option<Body> := None;
      if verb == PUT || verb == PATCH || verb == POST {
        var b := BuildArrayForCurl(params, env);
        if b.Failure? {
          return None, Failure(b.error);
        }
        body := Some(b.value);
      }
      sent := Some(CurlRequest(Endpoint + url, Some(MethodName(verb)), AttachesBody(verb), body, SentHeaders(headers), None));
      httpCode := net.httpCode;
      if net.errno != 0 {
        errors := Some(net.errorText);
      }
      r := CheckForCurlErrors(net.body);
    }

    /** `get($url)`: a GET with no parameters. */
    method Get(url: string, env: Env, net: Outcome) returns (sent: Option<CurlRequest>, r: Result<Json.Value>)
      requires Valid()
      modifies this
      ensures Valid()
      ensures Exchanged(Snapshot(), sent, r) == Exchange(old(Snapshot()), GET, url, [], env, net)
    {
      sent, r := Request(GET, url, [], env, net);
    }

    /** `post($url, $data)` */
    method Post(url: string, data: Entries, env: Env, net: Outcome) returns (sent: Option<CurlRequest>, r: Result<Json.Value>)
      requires Valid()
      modifies this
      ensures Valid()
      ensures Exchanged(Snapshot(), sent, r) == Exchange(old(Snapshot()), POST, url, data, env, net)
    {
      sent, r := Request(POST, url, data, env, net);
    }

    /** `put($url, $data)` */
    method Put(url: string, data: Entries, env: Env, net: Outcome) returns (sent: Option<CurlRequest>, r: Result<Json.Value>)
      requires Valid()
      modifies this
      ensures Valid()
      ensures Exchanged(Snapshot(), sent, r) == Exchange(old(Snapshot()), PUT, url, data, env, net)
    {
      sent, r := Request(PUT, url, data, env, net);
    }

    /** `delete($url, $data)` */
    method Delete(url: string, data: Entries, env: Env, net: Outcome) returns (sent: Option<CurlRequest>, r: Result<Json.Value>)
      requires Valid()
      modifies this
      ensures Valid()
      ensures Exchanged(Snapshot(), sent, r) == Exchange(old(Snapshot()), DELETE, url, data, env, net)
    {
      sent, r := Request(DELETE, url, data, env, net);
    }
  }

  // ---------------------------------------------------------------------------
  // Lemmas
  // ---------------------------------------------------------------------------

  lemma {:induction false} PutWellFormed(h: Entries, k: Key, v: Value)
    requires WellFormed(h)
    requires Truthy(v) ==> v.Str?
    ensures WellFormed(Php.Put(h, k, v))
  {
    PutKeys(h, k, v);
    PutEffect(h, k, v);
  }

  /** Once the loop of `http_build_query_for_curl` has failed, the call fails with that error. */
  lemma {:induction false} FailureSticks(es: Entries, i: nat, n: nat, prefix: Option<Key>, env: Env)
    requires i <= n <= |es|
    requires Flattened(es, i, prefix, env).Failure?
    ensures Flattened(es, n, prefix, env) == Flattened(es, i, prefix, env)
    decreases n
  {
    if i < n {
      FailureSticks(es, i, n - 1, prefix, env);
    }
  }

  // ---------------------------------------------------------------------------
  // The header table
  // ---------------------------------------------------------------------------

  /** The line one entry contributes to the sent headers. */
  function Line(v: Value): seq<string> {
    if Truthy(v) then [Text(v)] else []
  }

  lemma {:induction false} SentAppend(a: Entries, b: Entries)
    ensures SentHeaders(a + b) == SentHeaders(a) + SentHeaders(b)
  {
    if a == [] {
      assert a + b == b;
    } else {
      assert (a + b)[1..] == a[1..] + b;
      SentAppend(a[1..], b);
    }
  }

  /** `setHeader` writes the entry for `k` and leaves every other entry, and the order of keys, as it was. */
  lemma {:induction false} SetHeaderTable(h: Entries, k: Key, v: Value)
    ensures Get(Php.Put(h, k, HeaderValue(k, v)), k) == HeaderValue(k, v)
    ensures forall k' :: k' != k ==> Get(Php.Put(h, k, HeaderValue(k, v)), k') == Get(h, k')
    ensures KeysOf(Php.Put(h, k, HeaderValue(k, v))) == if HasKey(h, k) then KeysOf(h) else KeysOf(h) + [k]
  {
    var hv := HeaderValue(k, v);
    PutGet(h, k, hv, k);
    forall k' | k' != k
      ensures Get(Php.Put(h, k, hv), k') == Get(h, k')
    {
      PutGet(h, k, hv, k');
    }
    PutKeys(h, k, hv);
  }

  /**
   * `setHeader` changes the sent header list in one place: the line of a
   * key already in the table is replaced where it stands (and dropped for a
   * falsy value); a new key's line is appended.
   */
  lemma {:induction false} SetHeaderSent(h: Entries, k: Key, v: Value)
    ensures HasKey(h, k) ==>
      SentHeaders(Php.Put(h, k, HeaderValue(k, v)))
        == SentHeaders(h[..IndexOf(h, k)]) + Line(HeaderValue(k, v)) + SentHeaders(h[IndexOf(h, k) + 1..])
    ensures !HasKey(h, k) ==> SentHeaders(Php.Put(h, k, HeaderValue(k, v))) == SentHeaders(h) + Line(HeaderValue(k, v))
  {
    var hv := HeaderValue(k, v);
    if HasKey(h, k) {
      var j := IndexOf(h, k);
      calc {
        SentHeaders(Php.Put(h, k, hv));
        { PutPresent(h, k, hv); }
        SentHeaders(h[j := (k, hv)]);
        { UpdateSplice(h, j, (k, hv)); }
        SentHeaders(h[..j] + [(k, hv)] + h[j + 1..]);
        { SentSplice(h[..j], (k, hv), h[j + 1..]); }
        SentHeaders(h[..j]) + Line(hv) + SentHeaders(h[j + 1..]);
      }
    } else {
      calc {
        SentHeaders(Php.Put(h, k, hv));
        { PutAbsent(h, k, hv); }
        SentHeaders(h + [(k, hv)]);
        { SentAppend(h, [(k, hv)]); }
        SentHeaders(h) + SentHeaders([(k, hv)]);
        SentHeaders(h) + Line(hv);
      }
    }
  }

  /** Updating position `j` is splicing a new entry in between the entries before and after it. */
  lemma {:induction false} UpdateSplice(h: Entries, j: nat, e: (Key, Value))
    requires j < |h|
    ensures h[j := e] == h[..j] + [e] + h[j + 1..]
  {
  }

  lemma {:induction false} SentSplice(before: Entries, e: (Key, Value), after: Entries)
    ensures SentHeaders(before + [e] + after) == SentHeaders(before) + Line(e.1) + SentHeaders(after)
  {
    SentAppend(before + [e], after);
    SentAppend(before, [e]);
    assert SentHeaders([e]) == Line(e.1);
  }

  /** After `setHeaders($values)` each of its keys holds its header entry; other keys are untouched. */
  lemma {:induction false} SetAllGet(h: Entries, values: Entries, k: Key)
    requires DistinctKeys(values)
    ensures Get(SetAll(h, values), k) == if HasKey(values, k) then HeaderValue(k, Get(values, k)) else Get(h, k)
    decreases |values|
  {
    if values != [] {
      var p, e := values[..|values| - 1], values[|values| - 1];
      assert values == p + [e];
      DistinctLast(values);
      SetAllGet(h, p, k);
      PutGet(SetAll(h, p), e.0, HeaderValue(e.0, e.1), k);
      SnocGet(p, e, k);
    }
  }

  /** The entries before the last of a table with distinct keys have distinct keys, none the last's. */
  lemma {:induction false} DistinctLast(values: Entries)
    requires DistinctKeys(values) && values != []
    ensures DistinctKeys(values[..|values| - 1])
    ensures !HasKey(values[..|values| - 1], values[|values| - 1].0)
  {
    var p := values[..|values| - 1];
    forall i | 0 <= i < |p|
      ensures KeysOf(p)[i] != values[|values| - 1].0
    {
      assert values[i] == p[i];
    }
  }

  lemma {:induction false} SnocGet(p: Entries, e: (Key, Value), k: Key)
    ensures HasKey(p + [e], k) <==> HasKey(p, k) || k == e.0
    ensures Get(p + [e], k) == if HasKey(p, k) then Get(p, k) else if k == e.0 then e.1 else Null
  {
    KeysOfAppend(p, [e]);
    GetAppend(p, [e], k);
    assert KeysOf([e]) == [e.0];
    assert [e][1..] == [];
  }

  /** Leaving out a key that occurs once removes its one entry. */
  lemma {:induction false} WithoutAt(h: Entries, k: Key)
    requires DistinctKeys(h) && HasKey(h, k)
    ensures Without(h, [k]) == h[..IndexOf(h, k)] + h[IndexOf(h, k) + 1..]
  {
    var j := IndexOf(h, k);
    Splice(h, j);
    BeforeFree(h, k, h[..j]);
    AfterFree(h, j, k, h[j + 1..]);
    WithoutRemoves(h[..j], h[j], h[j + 1..], k);
  }

  lemma {:induction false} WithoutRemoves(before: Entries, e: (Key, Value), after: Entries, k: Key)
    requires e.0 == k
    requires forall i :: 0 <= i < |before| ==> before[i].0 !in [k]
    requires forall i :: 0 <= i < |after| ==> after[i].0 !in [k]
    ensures Without(before + [e] + after, [k]) == before + after
  {
    calc {
      Without(before + [e] + after, [k]);
      { WithoutAppend(before + [e], after, [k]); }
      Without(before + [e], [k]) + Without(after, [k]);
      { WithoutAppend(before, [e], [k]); }
      Without(before, [k]) + Without([e], [k]) + Without(after, [k]);
      { WithoutSingle(e, [k]); WithoutNone(before, [k]); WithoutNone(after, [k]); }
      before + [] + after;
      before + after;
    }
  }

  lemma {:induction false} BeforeFree(h: Entries, k: Key, before: Entries)
    requires HasKey(h, k) && before == h[..IndexOf(h, k)]
    ensures forall i :: 0 <= i < |before| ==> before[i].0 !in [k]
  {
    forall i | 0 <= i < |before|
      ensures before[i].0 !in [k]
    {
      assert before[i] == h[i];
    }
  }

  lemma {:induction false} AfterFree(h: Entries, j: nat, k: Key, after: Entries)
    requires DistinctKeys(h) && j < |h| && h[j].0 == k && after == h[j + 1..]
    ensures forall i :: 0 <= i < |after| ==> after[i].0 !in [k]
  {
    forall i | 0 <= i < |after|
      ensures after[i].0 !in [k]
    {
      assert after[i] == h[j + 1 + i];
    }
  }

  lemma {:induction false} WithoutSingle(e: (Key, Value), ks: seq<Key>)
    ensures Without([e], ks) == if e.0 in ks then [] else [e]
  {
    assert [e][..0] == [];
  }

  /** Clearing an entry removes its line: what is sent is the other entries' lines, in order. */
  lemma {:induction false} PutNullSent(h: Entries, k: Key)
    requires DistinctKeys(h)
    ensures SentHeaders(Php.Put(h, k, Null)) == SentHeaders(Without(h, [k]))
  {
    if HasKey(h, k) {
      NullPresentSent(h, k);
    } else {
      NullAbsentSent(h, k);
    }
  }

  lemma {:induction false} NullPresentSent(h: Entries, k: Key)
    requires DistinctKeys(h) && HasKey(h, k)
    ensures SentHeaders(Php.Put(h, k, Null)) == SentHeaders(Without(h, [k]))
  {
    var j := IndexOf(h, k);
    assert HeaderValue(k, Null) == Null;
    calc {
      SentHeaders(Php.Put(h, k, Null));
      { SetHeaderSent(h, k, Null); }
      SentHeaders(h[..j]) + Line(Null) + SentHeaders(h[j + 1..]);
      { assert Line(Null) == []; }
      SentHeaders(h[..j]) + SentHeaders(h[j + 1..]);
      { SentAppend(h[..j], h[j + 1..]); }
      SentHeaders(h[..j] + h[j + 1..]);
      { WithoutAt(h, k); }
      SentHeaders(Without(h, [k]));
    }
  }

  lemma {:induction false} NullAbsentSent(h: Entries, k: Key)
    requires !HasKey(h, k)
    ensures SentHeaders(Php.Put(h, k, Null)) == SentHeaders(Without(h, [k]))
  {
    assert HeaderValue(k, Null) == Null;
    calc {
      SentHeaders(Php.Put(h, k, Null));
      { SetHeaderSent(h, k, Null); }
      SentHeaders(h) + Line(Null);
      SentHeaders(h);
      { AbsentNone(h, k); }
      SentHeaders(Without(h, [k]));
    }
  }

  lemma {:induction false} AbsentNone(h: Entries, k: Key)
    requires !HasKey(h, k)
    ensures Without(h, [k]) == h
  {
    forall i | 0 <= i < |h|
      ensures h[i].0 !in [k]
    {
      assert KeysOf(h)[i] == h[i].0;
    }
    WithoutNone(h, [k]);
  }

  /** Writing `k` and then leaving `k` out is leaving `k` out. */
  lemma {:induction false} PutWithout(h: Entries, k: Key, v: Value)
    ensures Without(Php.Put(h, k, v), [k]) == Without(h, [k])
  {
    PutEffect(h, k, v);
    WithoutSingle((k, v), [k]);
    if HasKey(h, k) {
      var j := IndexOf(h, k);
      PutWithoutAt(h, j, k, v);
    } else {
      WithoutAppend(h, [(k, v)], [k]);
    }
  }

  lemma {:induction false} PutWithoutAt(h: Entries, j: nat, k: Key, v: Value)
    requires j < |h| && h[j].0 == k
    ensures Without(h[j := (k, v)], [k]) == Without(h, [k])
  {
    var before, after := h[..j], h[j + 1..];
    calc {
      Without(h[j := (k, v)], [k]);
      { UpdateSplice(h, j, (k, v)); }
      Without(before + [(k, v)] + after, [k]);
      { WithoutSplice(before, (k, v), after, [k]); WithoutSingle((k, v), [k]); }
      Without(before, [k]) + Without(after, [k]);
      { WithoutSplice(before, h[j], after, [k]); WithoutSingle(h[j], [k]); }
      Without(before + [h[j]] + after, [k]);
      { Splice(h, j); }
      Without(h, [k]);
    }
  }

  // ---------------------------------------------------------------------------
  // Flattening
  // ---------------------------------------------------------------------------

  lemma {:induction false} SplitKeys(a: Entries, b: Entries)
    requires DistinctKeys(a + b) && AllStrKeys(a + b)
    ensures DistinctKeys(a) && DistinctKeys(b) && AllStrKeys(a) && AllStrKeys(b)
    ensures forall i :: 0 <= i < |b| ==> !HasKey(a, b[i].0)
  {
    forall i | 0 <= i < |b|
      ensures !HasKey(a, b[i].0)
    {
      forall j | 0 <= j < |a|
        ensures KeysOf(a)[j] != b[i].0
      {
        assert (a + b)[j] == a[j] && (a + b)[|a| + i] == b[i];
      }
    }
    forall i | 0 <= i < |a| ensures (a + b)[i] == a[i] { }
    forall i | 0 <= i < |b| ensures (a + b)[|a| + i] == b[i] { }
  }

  /**
   * With readable files and leaf names that are distinct strings,
   * flattening gives exactly one entry per non-array leaf, in depth-first
   * order, under its bracketed name.
   */
  lemma {:induction false} FlattenedLeaves(es: Entries, n: nat, prefix: Option<Key>, env: Env)
    requires n <= |es|
    requires FilesReadable(es, n, env)
    requires AllStrKeys(Leaves(es, n, prefix, env)) && DistinctKeys(Leaves(es, n, prefix, env))
    ensures Flattened(es, n, prefix, env) == Success(Leaves(es, n, prefix, env))
    decreases Arr(es), n
  {
    if n > 0 {
      var key, value := es[n - 1].0, es[n - 1].1;
      var name := FieldName(prefix, key);
      var acc := Leaves(es, n - 1, prefix, env);
      var part := if value.Arr? then Leaves(value.entries, |value.entries|, Some(name), env)
        else [(name, if key == FileKey then FilePart(value, env) else value)];
      assert Leaves(es, n, prefix, env) == acc + part;
      SplitKeys(acc, part);
      FlattenedLeaves(es, n - 1, prefix, env);
      if value.Arr? {
        FlattenedLeaves(value.entries, |value.entries|, Some(name), env);
        MergeDisjoint(acc, part);
      } else {
        PutEffect(acc, name, part[0].1);
      }
    }
  }

  /** Flattening fails exactly when some `'file'` leaf names an unreadable path, and then with `InvalidArgument`. */
  lemma {:induction false} FlattenedFails(es: Entries, n: nat, prefix: Option<Key>, env: Env)
    requires n <= |es|
    ensures Flattened(es, n, prefix, env).Failure? <==> !FilesReadable(es, n, env)
    ensures Flattened(es, n, prefix, env).Failure? ==> Flattened(es, n, prefix, env).error.InvalidArgument?
    decreases Arr(es), n
  {
    if n > 0 {
      FlattenedFails(es, n - 1, prefix, env);
      var key, value := es[n - 1].0, es[n - 1].1;
      var name := FieldName(prefix, key);
      if Flattened(es, n - 1, prefix, env).Failure? {
        assert Flattened(es, n, prefix, env) == Flattened(es, n - 1, prefix, env);
      } else if value.Arr? {
        FlattenedFails(value.entries, |value.entries|, Some(name), env);
      } else if key == FileKey {
        var file := AddPostFile(value, env);
        assert file.Failure? <==> !env.readable(Text(value));
      } else {
        assert Flattened(es, n, prefix, env).Success?;
      }
    }
  }

  /** `['data' => ['followers' => ['37136', '59083']]]` */
  const FollowersParams: Entries :=
    [(StrKey("data"), Arr([(StrKey("followers"), Arr([(IntKey(0), Str("37136")), (IntKey(1), Str("59083"))]))]))]

  lemma {:induction false} FollowerNames()
    ensures FieldName(None, StrKey("data")) == StrKey("data")
    ensures FieldName(Some(StrKey("data")), StrKey("followers")) == StrKey("data[followers]")
    ensures FieldName(Some(StrKey("data[followers]")), IntKey(0)) == StrKey("data[followers][0]")
    ensures FieldName(Some(StrKey("data[followers]")), IntKey(1)) == StrKey("data[followers][1]")
  {
    assert IntText(0) == "0" && IntText(1) == "1";
  }

  lemma {:induction false} FollowersLeaves(env: Env)
    ensures Leaves(FollowersParams, 1, None, env)
         == [(StrKey("data[followers][0]"), Str("37136")), (StrKey("data[followers][1]"), Str("59083"))]
    ensures FilesReadable(FollowersParams, 1, env)
  {
    FollowerNames();
    var followers := [(IntKey(0), Str("37136")), (IntKey(1), Str("59083"))];
    var data := [(StrKey("followers"), Arr(followers))];
    var pre := Some(StrKey("data[followers]"));
    assert Leaves(followers, 1, pre, env) == [(StrKey("data[followers][0]"), Str("37136"))];
    assert Leaves(followers, 2, pre, env) == Leaves(followers, 1, pre, env) + [(StrKey("data[followers][1]"), Str("59083"))];
    assert Leaves(data, 1, Some(StrKey("data")), env) == Leaves(followers, 2, pre, env);
    assert FilesReadable(followers, 2, env);
    assert FilesReadable(data, 1, env);
  }

  /** The followers list flattens to `data[followers][0]` and `data[followers][1]`. */
  lemma {:induction false} FollowersFlattened(env: Env)
    ensures Flattened(FollowersParams, 1, None, env)
         == Success([(StrKey("data[followers][0]"), Str("37136")), (StrKey("data[followers][1]"), Str("59083"))])
  {
    FollowersLeaves(env);
    FlattenedLeaves(FollowersParams, 1, None, env);
  }

  // ---------------------------------------------------------------------------
  // A request
  // ---------------------------------------------------------------------------

  /** GET and DELETE send no body whatever params they are given, and always reach the transfer. */
  lemma {:induction false} NoBodyWithoutPayload(s: State, verb: Method, url: string, params: Entries, params': Entries, env: Env, net: Outcome)
    requires verb == GET || verb == DELETE
    ensures Exchange(s, verb, url, params, env, net).sent.Some?
    ensures Exchange(s, verb, url, params, env, net).sent.value.postFields == None
    ensures !Exchange(s, verb, url, params, env, net).sent.value.post
    ensures Exchange(s, verb, url, params, env, net).sent.value.customRequest == Some(MethodName(verb))
    ensures Exchange(s, verb, url, params, env, net) == Exchange(s, verb, url, params', env, net)
  {
  }

  /**
   * PUT, PATCH and POST send a body: the flattened fields for an upload,
   * the JSON-encoded params otherwise. They stop before the transfer
   * exactly when an upload names an unreadable file, and then fail with
   * `InvalidArgument`, record no cURL error and keep the status code and
   * sync key.
   */
  lemma {:induction false} BodyWithPayload(s: State, verb: Method, url: string, params: Entries, env: Env, net: Outcome)
    requires AttachesBody(verb)
    ensures var x := Exchange(s, verb, url, params, env, net);
      x.sent.None? <==> IsUpload(params) && !FilesReadable(params, |params|, env)
    ensures var x := Exchange(s, verb, url, params, env, net);
      x.sent.None? ==>
        (x.result.Failure? && x.result.error.InvalidArgument?
         && x.after.errors == None && x.after.httpCode == s.httpCode && x.after.syncKey == s.syncKey)
    ensures var x := Exchange(s, verb, url, params, env, net);
      x.sent.Some? ==>
        (x.sent.value.post && x.sent.value.customRequest == Some(MethodName(verb))
         && x.sent.value.postFields == Some(if IsUpload(params) then Form(Flattened(params, |params|, None, env).value)
                                            else JsonEncoded(Arr(params))))
  {
    FlattenedFails(params, |params|, None, env);
  }

  /** The table after a request's header edits, and the lines it sends. */
  lemma {:induction false} RequestHeaders(s: State, verb: Method, url: string, params: Entries, env: Env, net: Outcome)
    ensures var h1 := Php.Put(s.headers, ContentType, Str("Content-Type: application/json"));
      Exchange(s, verb, url, params, env, net).after.headers
        == if AttachesBody(verb) && IsUpload(params) then Php.Put(h1, ContentType, Null) else h1
    ensures var x := Exchange(s, verb, url, params, env, net);
      x.sent.Some? ==> x.sent.value.httpHeader == SentHeaders(x.after.headers)
  {
    PreparedTable(s.headers, verb, params, env);
    var x := Exchange(s, verb, url, params, env, net);
    assert x.after.headers == Prepared(s.headers, verb, params, env).0;
  }

  lemma {:induction false} PreparedTable(h: Entries, verb: Method, params: Entries, env: Env)
    ensures var h1 := Php.Put(h, ContentType, Str("Content-Type: application/json"));
      Prepared(h, verb, params, env).0 == if AttachesBody(verb) && IsUpload(params) then Php.Put(h1, ContentType, Null) else h1
  {
    JsonLine();
    var h1 := Php.Put(h, ContentType, Str("Content-Type: application/json"));
    assert Prepared(h, verb, params, env).0 == if AttachesBody(verb) then Encoded(h1, params, env).0 else h1;
    EncodedTable(h1, params, env);
  }

  lemma {:induction false} JsonLine()
    ensures HeaderValue(ContentType, Str("application/json")) == Str("Content-Type: application/json")
  {
    var t := Str("application/json");
    assert Truthy(t);
    assert KeyText(ContentType) + ": " + Text(t) == "Content-Type: application/json";
  }

  lemma {:induction false} EncodedTable(h: Entries, params: Entries, env: Env)
    ensures Encoded(h, params, env).0 == if IsUpload(params) then Php.Put(h, ContentType, Null) else h
  {
    assert HeaderValue(ContentType, Null) == Null;
  }

  lemma {:induction false} ContentTypeLineSent(h: Entries)
    ensures "Content-Type: application/json" in SentHeaders(Php.Put(h, ContentType, Str("Content-Type: application/json")))
  {
    var line := Str("Content-Type: application/json");
    var h1 := Php.Put(h, ContentType, line);
    PutEffect(h, ContentType, line);
    var j := if HasKey(h, ContentType) then IndexOf(h, ContentType) else |h|;
    assert j < |h1| && h1[j] == (ContentType, line);
    SentLines(h1);
  }

  /** A request without an upload sends `Content-Type: application/json`. */
  lemma {:induction false} JsonContentType(s: State, verb: Method, url: string, params: Entries, env: Env, net: Outcome)
    requires !(AttachesBody(verb) && IsUpload(params))
    ensures Exchange(s, verb, url, params, env, net).sent.Some?
    ensures "Content-Type: application/json" in Exchange(s, verb, url, params, env, net).sent.value.httpHeader
  {
    RequestHeaders(s, verb, url, params, env, net);
    ContentTypeLineSent(s.headers);
  }

  /**
   * An upload leaves the Content-Type entry null and sends the lines of
   * every other header entry, in table order.
   */
  lemma {:induction false} UploadContentType(s: State, verb: Method, url: string, params: Entries, env: Env, net: Outcome)
    requires DistinctKeys(s.headers)
    requires AttachesBody(verb) && IsUpload(params)
    ensures var x := Exchange(s, verb, url, params, env, net);
      x.sent.Some? ==>
        (Get(x.after.headers, ContentType) == Null
         && x.sent.value.httpHeader == SentHeaders(Without(s.headers, [ContentType])))
  {
    RequestHeaders(s, verb, url, params, env, net);
    var h := s.headers;
    var line := Str("Content-Type: application/json");
    var h1 := Php.Put(h, ContentType, line);
    PutKeys(h, ContentType, line);
    PutGet(h1, ContentType, Null, ContentType);
    PutNullSent(h1, ContentType);
    PutWithout(h, ContentType, line);
  }

  /**
   * Once the transfer has happened: the status code is recorded, `errors`
   * holds the cURL error text exactly when `curl_errno` is non-zero
   * (whatever it held before), the decoded body is returned exactly when it
   * carries no `errors`, and otherwise the call fails with the joined
   * messages and the status code. The sync key changes only on that
   * failure, and then only when the body sets `sync`.
   */
  lemma {:induction false} Classification(s: State, verb: Method, url: string, params: Entries, env: Env, net: Outcome)
    requires Exchange(s, verb, url, params, env, net).sent.Some?
    ensures Exchange(s, verb, url, params, env, net).after.httpCode == net.httpCode
    ensures Exchange(s, verb, url, params, env, net).after.errors == if net.errno != 0 then Some(net.errorText) else None
    ensures Exchange(s, verb, url, params, env, net).result.Success? <==> !Json.Isset(net.body, "errors")
    ensures var x := Exchange(s, verb, url, params, env, net);
      x.result.Success? ==> x.result.value == net.body && x.after.syncKey == s.syncKey
    ensures var x := Exchange(s, verb, url, params, env, net);
      x.result.Failure? ==>
        x.result.error == ApiError(Json.ErrorText(Json.Field(net.body, "errors")), net.httpCode)
        && x.after.syncKey == if Json.Isset(net.body, "sync") then Json.Field(net.body, "sync") else s.syncKey
  {
  }

  /**
   * A failed transfer is recorded but not raised: when cURL reports an
   * error and nothing decodes, the request returns null.
   */
  lemma {:induction false} CurlFailureReturnsNull(s: State, verb: Method, url: string, params: Entries, env: Env, net: Outcome)
    requires net.errno != 0 && net.body == Json.JNull
    requires !(AttachesBody(verb) && IsUpload(params) && !FilesReadable(params, |params|, env))
    ensures Exchange(s, verb, url, params, env, net).result == Success(Json.JNull)
    ensures Exchange(s, verb, url, params, env, net).after.errors == Some(net.errorText)
  {
    FlattenedFails(params, |params|, None, env);
  }

  /** A new client's first request without an upload sends the feature flag, the Bearer token and the JSON content type, in that order. */
  lemma {:induction false} FirstRequestHeaders(token: Value, verb: Method, url: string, params: Entries, env: Env, net: Outcome)
    requires Truthy(token)
    requires !(AttachesBody(verb) && IsUpload(params))
    ensures var s := State(InitialHeaders + [(StrKey("Authorization"), Str("Authorization: Bearer " + Text(token)))], None, Json.JNull, 200);
      Exchange(s, verb, url, params, env, net).sent
        == Some(CurlRequest(Endpoint + url, Some(MethodName(verb)), AttachesBody(verb),
                            if AttachesBody(verb) then Some(JsonEncoded(Arr(params))) else None,
                            ["Asana-Enable: new_rich_text", "Authorization: Bearer " + Text(token), "Content-Type: application/json"],
                            None))
  {
    var s := State(InitialHeaders + [(StrKey("Authorization"), Str("Authorization: Bearer " + Text(token)))], None, Json.JNull, 200);
    RequestHeaders(s, verb, url, params, env, net);
    FirstTable(token);
  }

  /** The lines a new client's table sends once the JSON content type is set. */
  lemma {:induction false} FirstTable(token: Value)
    requires Truthy(token)
    ensures SentHeaders(Php.Put(InitialHeaders + [(StrKey("Authorization"), Str("Authorization: Bearer " + Text(token)))],
                                ContentType, Str("Content-Type: application/json")))
         == ["Asana-Enable: new_rich_text", "Authorization: Bearer " + Text(token), "Content-Type: application/json"]
  {
    var h := InitialHeaders + [(StrKey("Authorization"), Str("Authorization: Bearer " + Text(token)))];
    var line := Str("Content-Type: application/json");
    assert KeysOf(h) == [StrKey("Accept"), StrKey("Authorization")];
    assert !HasKey(h, ContentType);
    PutAbsent(h, ContentType, line);
    var h1 := h + [(ContentType, line)];
    assert h1 == [h[0], h[1], (ContentType, line)];
    var auth := "Authorization: Bearer " + Text(token);
    assert |auth| > 1;
    assert SentHeaders([(ContentType, line)]) == ["Content-Type: application/json"];
    assert SentHeaders([h[1], (ContentType, line)]) == [auth, "Content-Type: application/json"];
    assert SentHeaders(h1) == ["Asana-Enable: new_rich_text", auth, "Content-Type: application/json"];
  }
}
