/**
 * What the request builders hand to a transport, what a transport hands to
 * cURL, and how a call can fail. Everything outside the process (the
 * network, the file system, the PHP build) enters as a value.
 */
module Http {
  import opened Php
  import Json

  datatype Option<T> = None | Some(value: T)

  datatype Result<T> = Success(value: T) | Failure(error: Error)

  /** The exceptions the client throws, with their message and code. */
  datatype Error =
      /** `Exception` thrown by a constructor that received no credential */
    | ConfigurationError(message: string)
      /** `InvalidArgumentException` from `addPostFile` */
    | InvalidArgument(message: string)
      /** `Exception($errors, $http_code)` for a response that carries `errors` */
    | ApiError(message: string, code: int)
      /** `Exception(curl_error, curl_errno)` for a failed transfer */
    | TransportError(message: string, code: int)

  /** The request methods, as the transports' `METHOD_*` constants name them. */
  datatype Method = GET | POST | PUT | PATCH | DELETE

  function MethodName(m: Method): string {
    match m
    case GET => "GET"
    case POST => "POST"
    case PUT => "PUT"
    case PATCH => "PATCH"
    case DELETE => "DELETE"
  }

  /** A call `$this->curl->get|post|put|delete($path, $params)` made by a request builder. */
  datatype Request = Request(verb: Method, path: string, params: Entries)

  /** The body cURL is given: `json_encode($params)` (kept symbolic) or a multipart field array. */
  datatype Body = JsonEncoded(data: Php.Value) | Form(fields: Entries)

  /** The options a transport sets on the cURL handle that carry request data. */
  datatype CurlRequest = CurlRequest(
    url: string,
    customRequest: Option<string>,
    post: bool,
    postFields: Option<Body>,
    httpHeader: seq<string>,
    userPwd: Option<string>)

  /**
   * The world outside: which paths `is_readable` accepts, and whether this
   * PHP has `curl_file_create`.
   */
  datatype Env = Env(readable: string -> bool, hasCurlFileCreate: bool)

  const Endpoint: string := "https://app.asana.com/api/1.0/"
}
