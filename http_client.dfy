/** The HTTP client base: URL composition, timeout and method checks, error wrapping,
    and the token-bearing client's authorisation header. The transport itself is
    outside the model: what the server (or the network) answered is an input. */
module HttpClient {
  import opened Wrappers
  import opened Strings
  import opened OrderedMaps
  import opened Exceptions
  import Constants

  datatype HttpMethod = GET | POST | PUT | DELETE

  /** A request as it would be handed to the session. */
  datatype RequestPlan = RequestPlan(verb: HttpMethod, url: string, headers: Dict<string, string>, timeout: int)

  /** What the transport answered: a response with its status, reason and final URL
      (the requested one with its encoded query parameters, after any redirect), or a
      transport error (a `requests` exception). */
  datatype Reply<B> = Replied(status: int, reason: string, url: string, body: B) | TransportFailed(error: Error)

  /** `f"{base}/{endpoint.lstrip('/')}"`. */
  function JoinUrl(base: string, endpoint: string): string {
    base + "/" + LStripChar(endpoint, '/')
  }

  /** With a base without trailing slash, exactly one slash joins base and endpoint. */
  lemma JoinUrlOneSlash(base: string, endpoint: string)
    ensures var url := JoinUrl(RStripChar(base, '/'), endpoint);
      var b := RStripChar(base, '/');
      && url[..|b|] == b && url[|b|] == '/'
      && (|b| > 0 ==> url[|b| - 1] != '/')
      && (|url| > |b| + 1 ==> url[|b| + 1] != '/')
  {
    var b := RStripChar(base, '/');
    var e := LStripChar(endpoint, '/');
    var url := JoinUrl(b, endpoint);
    assert url == b + "/" + e;
    if |url| > |b| + 1 {
      assert url[|b| + 1] == e[0];
    }
  }

  /** The method name upper-cased and checked. */
  function ParseMethod(verb: string): Result<HttpMethod, Error> {
    var m := Upper(verb);
    if m == "GET" then Ok(GET)
    else if m == "POST" then Ok(POST)
    else if m == "PUT" then Ok(PUT)
    else if m == "DELETE" then Ok(DELETE)
    else Err(Error(PlexAPIError, "Unsupported HTTP method: " + m))
  }

  /** The four methods are accepted in any letter case; nothing else is. */
  lemma ParseMethodAccepts(verb: string)
    ensures ParseMethod(verb).Ok? <==> Upper(verb) in ["GET", "POST", "PUT", "DELETE"]
    ensures ParseMethod("get") == Ok(GET) && ParseMethod("Put") == Ok(PUT)
  {
    assert Upper("get") == "GET";
    assert Upper("Put") == "PUT";
  }

  /** The requests library's `raise_for_status` message. */
  function StatusErrorMessage(status: int, reason: string, url: string): string {
    var code := if status < 0 then "-" + NatToString(-status) else NatToString(status);
    code + (if status < 500 then " Client Error: " else " Server Error: ") + reason + " for url: " + url
  }

  /** A client holding a bearer token (`AuthenticatedHTTPClient`); without a token it
      behaves as the plain client, which sends no headers. */
  class AuthenticatedClient {
    var baseUrl: string
    var timeout: int
    var token: Option<string>
    var headerName: string
    var headerPrefix: string

    /** `AuthenticatedHTTPClient(base_url, token, name, prefix, timeout=...)`: trailing
        slashes of the base URL are dropped. */
    constructor(base: string, initialToken: Option<string>, name: string, prefix: string, defaultTimeout: int)
      ensures baseUrl == RStripChar(base, '/')
      ensures baseUrl == [] || baseUrl[|baseUrl| - 1] != '/'
      ensures timeout == defaultTimeout && token == initialToken
      ensures headerName == name && headerPrefix == prefix
    {
      baseUrl := RStripChar(base, '/');
      timeout := defaultTimeout;
      token := initialToken;
      headerName := name;
      headerPrefix := prefix;
    }

    /** `_get_headers()`: the authorisation header iff the token is truthy. */
    function Headers(): (h: Dict<string, string>)
      reads this
      ensures h != [] <==> token.Some? && token.value != ""
      ensures h != [] ==> h == [(headerName, headerPrefix + token.value)]
    {
      if token.Some? && token.value != "" then [(headerName, headerPrefix + token.value)] else []
    }

    /** The request `_make_request(method, endpoint, timeout=t)` sends: the joined URL,
        `t or self.timeout`, and the current headers; an unknown method raises. */
    function PlanRequest(verb: string, endpoint: string, requestTimeout: Option<int>): (r: Result<RequestPlan, Error>)
      reads this
      ensures r.Ok? <==> ParseMethod(verb).Ok?
      ensures r.Err? ==> r.error == Error(PlexAPIError, "Unsupported HTTP method: " + Upper(verb))
      ensures r.Ok? ==> r.value.url == JoinUrl(baseUrl, endpoint) && r.value.headers == Headers()
      ensures r.Ok? ==> r.value.timeout == if requestTimeout.Some? && requestTimeout.value != 0 then requestTimeout.value else timeout
    {
      var t := if requestTimeout.Some? && requestTimeout.value != 0 then requestTimeout.value else timeout;
      match ParseMethod(verb)
      case Err(e) => Err(e)
      case Ok(m) => Ok(RequestPlan(m, JoinUrl(baseUrl, endpoint), Headers(), t))
    }

    /** `_make_request` given the transport's answer: a status from 400 to 599 raises an
        `HTTPError` naming the response's URL, and every `requests` error comes back as
        `PlexAPIError`. */
    function MakeRequest<B>(verb: string, endpoint: string, requestTimeout: Option<int>, reply: Reply<B>): (r: Result<B, Error>)
      reads this
      ensures ParseMethod(verb).Err? ==> r == Err(ParseMethod(verb).error)
      ensures ParseMethod(verb).Ok? && reply.Replied? && !(400 <= reply.status < 600) ==> r == Ok(reply.body)
      ensures ParseMethod(verb).Ok? && reply.Replied? && 400 <= reply.status < 600 ==>
        r == Err(Error(PlexAPIError, "Request failed: " + StatusErrorMessage(reply.status, reply.reason, reply.url)))
      ensures ParseMethod(verb).Ok? && reply.TransportFailed? && IsA(reply.error.kind, RequestException) ==>
        r == Err(Error(PlexAPIError, "Request failed: " + reply.error.message))
      ensures r.Err? ==> r.error.kind == PlexAPIError || (reply.TransportFailed? && r.error == reply.error)
    {
      match PlanRequest(verb, endpoint, requestTimeout)
      case Err(e) => Err(e)
      case Ok(plan) =>
        match reply
        case Replied(status, reason, url, body) =>
          if 400 <= status < 600 then
            Err(Error(PlexAPIError, "Request failed: " + StatusErrorMessage(status, reason, url)))
          else Ok(body)
        case TransportFailed(e) =>
          if IsA(e.kind, RequestException) then Err(Error(PlexAPIError, "Request failed: " + e.message))
          else Err(e)
    }

    /** `set_token(t)`: only the token changes. */
    method SetToken(t: string)
      modifies this
      ensures token == Some(t)
      ensures baseUrl == old(baseUrl) && timeout == old(timeout)
      ensures headerName == old(headerName) && headerPrefix == old(headerPrefix)
      ensures Headers() == if t != "" then [(headerName, headerPrefix + t)] else []
    {
      token := Some(t);
    }

    /** `clear_token()`: only the token changes, and no header is sent afterwards. */
    method ClearToken()
      modifies this
      ensures token == None
      ensures baseUrl == old(baseUrl) && timeout == old(timeout)
      ensures headerName == old(headerName) && headerPrefix == old(headerPrefix)
      ensures Headers() == []
    {
      token := None;
    }
  }

  /** The default client timeout is ten seconds. */
  const DefaultTimeout: int := Constants.DefaultRequestTimeout
}
