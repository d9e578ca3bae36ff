/** The OpenSubtitles provider: its token cache, its request wrapper with the
    once-only re-authentication, the search query and result filter, and the
    retried download.

    The clock is the parameter `now` (seconds). What the login endpoint, the API
    and the file host answer is given as input. */
module OpenSubtitles {
  import opened Wrappers
  import opened Strings
  import opened Exceptions
  import opened ProviderBase
  import opened HttpClient
  import opened Retry
  import Constants

  const ApiBaseUrl: string := "https://api.opensubtitles.com/api/v1"

  /** A failed API request as `_make_request`'s handler sees it: the error, and the status
      of the HTTP response attached to it, if any. */
  datatype Failure = Failure(error: Error, responseStatus: Option<int>)

  /** Errors raised by the base client never carry a response: it raises a fresh
      `PlexAPIError` built from a message. */
  function FromBaseClient<B>(r: Result<B, Error>): (f: Result<B, Failure>)
    ensures f.Err? ==> f.error.responseStatus.None?
  {
    match r
    case Ok(b) => Ok(b)
    case Err(e) => Err(Failure(e, None))
  }

  /** As written, a failure of the base client can never meet the `status_code == 401`
      guard of the re-authentication branch, so an expired or revoked token is never
      replaced by a second login. */
  lemma BaseClientHidesUnauthorized<B>(r: Result<B, Error>)
    ensures FromBaseClient(r).Err? ==> FromBaseClient(r).error.responseStatus != Some(401)
  {
  }

  /** The base client as evidently intended: the failed HTTP response stays attached
      to the error it raises, so its status reaches the provider's handler. */
  function FromHttpResponse<B>(r: Result<B, Error>, status: Option<int>): (f: Result<B, Failure>)
    ensures f.Ok? <==> r.Ok?
    ensures f.Ok? ==> f.value == r.value
    ensures f.Err? ==> f.error.error == r.error && f.error.responseStatus == status
  {
    match r
    case Ok(b) => Ok(b)
    case Err(e) => Err(Failure(e, status))
  }

  /** With the response kept, a 401 reply meets the guard of the re-authentication branch. */
  lemma UnauthorizedReachesGuard<B>(e: Error)
    ensures var f := FromHttpResponse<B>(Err(e), Some(401)); f.Err? && f.error.responseStatus == Some(401)
  {
  }

  /** A login that fails in transport is reported as `OpenSubtitlesError`. */
  function AuthFailure(e: Error): Error {
    if IsA(e.kind, RequestException) then Error(OpenSubtitlesError, "Authentication failed: " + e.message) else e
  }

  /** One file of a search hit. A missing `file_id` reads as `JNull`. */
  datatype FileInfo = FileInfo(fileId: JsonScalar, fileName: Option<string>)

  /** The `attributes` of a search hit; a missing field is `None` (no files: `[]`). */
  datatype Attributes = Attributes(language: Option<string>, files: seq<FileInfo>, release: Option<string>, downloadCount: Option<int>)

  /** The search reply; `data` may be missing. */
  datatype SearchBody = SearchBody(data: Option<seq<Attributes>>)

  /** The download-link reply; `link` may be missing. */
  datatype LinkBody = LinkBody(link: Option<string>)

  /** The query parameters of a search: `languages`, then the IMDB id if one is given,
      otherwise the title and, if truthy, the year. */
  function SearchParams(title: string, year: Option<int>, imdbId: Option<string>, language: string): (params: seq<(string, JsonScalar)>)
    ensures 2 <= |params| <= 3 && params[0] == ("languages", JStr(language))
    ensures imdbId.Some? && imdbId.value != "" ==> params == [("languages", JStr(language)), ("imdb_id", JStr(imdbId.value))]
    ensures !(imdbId.Some? && imdbId.value != "") ==>
      params[..2] == [("languages", JStr(language)), ("query", JStr(title))]
      && (year.Some? && year.value != 0 <==> |params| == 3)
      && (|params| == 3 ==> params[2] == ("year", JInt(year.value)))
  {
    var base := [("languages", JStr(language))];
    if imdbId.Some? && imdbId.value != "" then base + [("imdb_id", JStr(imdbId.value))]
    else base + [("query", JStr(title))] + (if year.Some? && year.value != 0 then [("year", JInt(year.value))] else [])
  }

  /** The filter: an entry is kept iff its lower-cased language is allowed and it has files. */
  predicate Keep(a: Attributes, allowed: set<string>) {
    Lower(a.language.GetOr("")) in allowed && |a.files| > 0
  }

  /** The record built from a kept entry: first file only, the requested language. */
  function ToResult(a: Attributes, language: string, name: string): (r: SubtitleResult)
    requires |a.files| > 0
    ensures r.language == language && r.provider == name
    ensures r.id == PyStr(a.files[0].fileId)
    ensures r.downloadParams == Some(map["file_id" := a.files[0].fileId])
    ensures r.downloadCount == a.downloadCount.GetOr(0)
    ensures !r.isPerfectMatch && Numerator(r.score) == 0
  {
    var f := a.files[0];
    SubtitleResult(PyStr(f.fileId), language, a.release.GetOr(""), f.fileName.GetOr(""),
                   None, Some(map["file_id" := f.fileId]), false, name, Score(0, 0), a.downloadCount.GetOr(0))
  }

  /** The kept entries, converted, in reply order. */
  function Filtered(entries: seq<Attributes>, language: string, allowed: set<string>, name: string): seq<SubtitleResult> {
    if entries == [] then []
    else
      var last := entries[|entries| - 1];
      Filtered(entries[..|entries| - 1], language, allowed, name)
        + (if Keep(last, allowed) then [ToResult(last, language, name)] else [])
  }

  /** The result loop of `search`. */
  method FilterResults(entries: seq<Attributes>, language: string, allowed: set<string>, name: string)
    returns (results: seq<SubtitleResult>)
    ensures results == Filtered(entries, language, allowed, name)
  {
    results := [];
    var i := 0;
    while i < |entries|
      invariant 0 <= i <= |entries|
      invariant results == Filtered(entries[..i], language, allowed, name)
    {
      assert entries[..i + 1][..i] == entries[..i];
      var attrs := entries[i];
      var subLang := Lower(attrs.language.GetOr(""));
      if subLang in allowed && |attrs.files| > 0 {
        results := results + [ToResult(attrs, language, name)];
      }
      i := i + 1;
    }
    assert entries[..i] == entries;
  }

  /** Filtering distributes over concatenation, so reply order is kept. */
  lemma {:induction false} FilteredAppend(a: seq<Attributes>, b: seq<Attributes>, language: string, allowed: set<string>, name: string)
    ensures Filtered(a + b, language, allowed, name) == Filtered(a, language, allowed, name) + Filtered(b, language, allowed, name)
  {
    if b != [] {
      var b' := b[..|b| - 1];
      assert (a + b)[..|a + b| - 1] == a + b';
      assert (a + b)[|a + b| - 1] == b[|b| - 1];
      FilteredAppend(a, b', language, allowed, name);
    } else {
      assert a + b == a;
    }
  }

  /** Exactly the kept entries appear, each converted; all carry the requested language. */
  lemma {:induction false} FilteredMembers(entries: seq<Attributes>, language: string, allowed: set<string>, name: string)
    ensures forall r :: r in Filtered(entries, language, allowed, name) ==>
      r.language == language && r.provider == name
      && exists i :: 0 <= i < |entries| && Keep(entries[i], allowed) && r == ToResult(entries[i], language, name)
    ensures forall i :: 0 <= i < |entries| && Keep(entries[i], allowed) ==>
      ToResult(entries[i], language, name) in Filtered(entries, language, allowed, name)
    ensures |Filtered(entries, language, allowed, name)| <= |entries|
  {
    if entries != [] {
      var init := entries[..|entries| - 1];
      FilteredMembers(init, language, allowed, name);
      forall r | r in Filtered(init, language, allowed, name)
        ensures exists i :: 0 <= i < |entries| && Keep(entries[i], allowed) && r == ToResult(entries[i], language, name)
      {
        var i :| 0 <= i < |init| && Keep(init[i], allowed) && r == ToResult(init[i], language, name);
        assert entries[i] == init[i];
      }
      forall i | 0 <= i < |entries| && Keep(entries[i], allowed)
        ensures ToResult(entries[i], language, name) in Filtered(entries, language, allowed, name)
      {
        if i < |init| {
          assert entries[i] == init[i];
        }
      }
    }
  }

  /** `subtitle.download_params or {"file_id": subtitle.id}`. */
  function DownloadPayload(s: SubtitleResult): (payload: map<string, JsonScalar>)
    ensures s.downloadParams.Some? && s.downloadParams.value != map[] ==> payload == s.downloadParams.value
    ensures !(s.downloadParams.Some? && s.downloadParams.value != map[]) ==> payload == map["file_id" := JStr(s.id)]
  {
    if s.downloadParams.Some? && s.downloadParams.value != map[] then s.downloadParams.value else map["file_id" := JStr(s.id)]
  }

  /** What one `_download_with_retry` attempt meets: the download-link request's outcome
      (its authentication included) and, if a link came back, the file fetch. */
  datatype AttemptScript = AttemptScript(link: Result<LinkBody, Error>, fetch: Result<(), Error>)

  /** One attempt: a falsy link gives False, a fetched file True; errors are raised. */
  function AttemptOutcome(s: AttemptScript): Outcome<bool> {
    match s.link
    case Err(e) => Err(e)
    case Ok(body) =>
      if body.link.None? || body.link.value == "" then Ok(false)
      else match s.fetch
        case Err(e) => Err(e)
        case Ok(_) => Ok(true)
  }

  /** The retry policy of `download`: three attempts, base delay 2 s, HTTP and transport errors. */
  const DownloadPolicy := Policy(Constants.ProviderDownloadRetries, Constants.ProviderDownloadBaseDelayMs,
                                 [HTTPError, RequestException], true)

  /** `download(subtitle, path, token)`: the retried attempt; every exception gives False. */
  method Download(attempts: nat -> AttemptScript) returns (ok: bool, run: RetryRun<bool>)
    ensures run == Run((i: nat) => AttemptOutcome(attempts(i)), DownloadPolicy, false)
    ensures ok <==> run.outcome == Ok(true)
    ensures run.calls <= 3
  {
    run := RetryWithBackoff((i: nat) => AttemptOutcome(attempts(i)), DownloadPolicy, false);
    ok := run.outcome.Ok? && run.outcome.value;
    CallsAtMost(attempts);
  }

  lemma CallsAtMost(attempts: nat -> AttemptScript)
    ensures Run((i: nat) => AttemptOutcome(attempts(i)), DownloadPolicy, false).calls <= 3
  {
    RunEndsWithLastCall((i: nat) => AttemptOutcome(attempts(i)), DownloadPolicy, false);
  }

  /** A failing link request (an `OpenSubtitlesError`) is not retried: one call, False. */
  lemma LinkErrorNotRetried(attempts: nat -> AttemptScript)
    requires attempts(0).link.Err? && attempts(0).link.error.kind == OpenSubtitlesError
    ensures Run((i: nat) => AttemptOutcome(attempts(i)), DownloadPolicy, false).calls == 1
    ensures Run((i: nat) => AttemptOutcome(attempts(i)), DownloadPolicy, false).outcome != Ok(true)
  {
    assert !IsInstance(OpenSubtitlesError, [HTTPError, RequestException]) by {
      assert !IsA(OpenSubtitlesError, HTTPError) && !IsA(OpenSubtitlesError, RequestException);
    }
  }

  /** A file fetch that keeps failing in transport is tried three times, then gives False. */
  lemma FetchFailuresExhaust(attempts: nat -> AttemptScript)
    requires forall i :: 0 <= i < 3 ==>
      (attempts(i).link.Ok? && attempts(i).link.value.link.Some? && attempts(i).link.value.link.value != ""
       && attempts(i).fetch.Err? && attempts(i).fetch.error.kind == HTTPError)
    ensures Run((i: nat) => AttemptOutcome(attempts(i)), DownloadPolicy, false).calls == 3
    ensures Run((i: nat) => AttemptOutcome(attempts(i)), DownloadPolicy, false).outcome.Err?
  {
    var op := (i: nat) => AttemptOutcome(attempts(i));
    assert IsInstance(HTTPError, [HTTPError, RequestException]) by {
      assert IsA(HTTPError, [HTTPError, RequestException][0]);
    }
    PersistentFailure(op, DownloadPolicy, false);
  }

  /** The provider object: its constructor state, the HTTP client it is, the credentials
      and the token expiry. */
  class OpenSubtitlesProvider {
    const provider: Provider
    const client: AuthenticatedClient
    const username: string
    const password: string
    const apiKey: Option<string>
    var tokenExpiry: int

    constructor(user: string, pass: string, key: Option<string>, enabled: bool)
      ensures provider == NewProvider("OpenSubtitlesProvider", enabled)
      ensures fresh(client)
      ensures client.baseUrl == ApiBaseUrl && client.token == None
      ensures client.headerName == "Authorization" && client.headerPrefix == "Bearer "
      ensures client.timeout == Constants.DefaultRequestTimeout
      ensures username == user && password == pass && apiKey == key && tokenExpiry == 0
    {
      provider := NewProvider("OpenSubtitlesProvider", enabled);
      client := new AuthenticatedClient(ApiBaseUrl, None, "Authorization", "Bearer ",
                                        Constants.DefaultRequestTimeout);
      username := user;
      password := pass;
      apiKey := key;
      tokenExpiry := 0;
      assert RStripChar(ApiBaseUrl, '/') == ApiBaseUrl;
    }

    /** The cached token may be used at time `now`. */
    predicate TokenFresh(now: int)
      reads this, client
    {
      client.token.Some? && client.token.value != "" && now < tokenExpiry
    }

    /** `_authenticate()`: the cached token while it is fresh, otherwise a login, whose
        reply (`data.get("token")`) becomes the token, valid for 23 hours from `now`. */
    method Authenticate(now: int, login: Result<Option<string>, Error>) returns (r: Result<Option<string>, Error>, loggedIn: bool)
      modifies this, client
      ensures loggedIn <==> !old(TokenFresh(now))
      ensures !loggedIn ==> r == Ok(old(client.token))
      ensures loggedIn && login.Ok? ==>
        (r == Ok(login.value) && client.token == login.value && tokenExpiry == now + Constants.TokenExpirySeconds)
      ensures loggedIn && login.Err? ==> r == Err(AuthFailure(login.error))
      ensures !(loggedIn && login.Ok?) ==> client.token == old(client.token) && tokenExpiry == old(tokenExpiry)
      ensures client.baseUrl == old(client.baseUrl) && client.timeout == old(client.timeout)
      ensures client.headerName == old(client.headerName) && client.headerPrefix == old(client.headerPrefix)
    {
      if TokenFresh(now) {
        return Ok(client.token), false;
      }
      loggedIn := true;
      match login {
        case Err(e) =>
          r := Err(AuthFailure(e));
        case Ok(tok) =>
          client.token := tok;
          tokenExpiry := now + Constants.TokenExpirySeconds;
          r := Ok(tok);
      }
    }

    /** `_make_request(..., retry_on_auth_error)`: authenticate, send (the `index`-th
        request's outcome is `replies(index)`), and on a 401 response clear the token,
        log in again and resend once with re-authentication switched off. Any other
        failure becomes `OpenSubtitlesError("Request failed: ...")`. */
    method MakeRequest<B>(now: int, login: Result<Option<string>, Error>, replies: nat -> Result<B, Failure>,
                          index: nat, retryOnAuth: bool)
      returns (r: Result<B, Error>, sends: nat)
      modifies this, client
      ensures sends <= (if retryOnAuth then 2 else 1)
      ensures !old(TokenFresh(now)) && login.Err? ==> sends == 0 && r == Err(AuthFailure(login.error))
      ensures old(TokenFresh(now)) || login.Ok? ==> sends >= 1
      ensures sends == 2 ==> replies(index).Err? && replies(index).error.responseStatus == Some(401)
      ensures sends >= 1 && replies(index).Ok? ==> r == Ok(replies(index).value) && sends == 1
      ensures sends >= 1 && replies(index).Err? && !(retryOnAuth && replies(index).error.responseStatus == Some(401)) ==>
        r == Err(Error(OpenSubtitlesError, "Request failed: " + replies(index).error.error.message)) && sends == 1
      ensures sends >= 1 && retryOnAuth && replies(index).Err? && replies(index).error.responseStatus == Some(401)
              && login.Err? ==>
        sends == 1 && r == Err(AuthFailure(login.error))
      ensures login.Ok? ==> (client.token == old(client.token) || client.token == login.value)
      ensures login.Ok? && retryOnAuth && replies(index).Err? && replies(index).error.responseStatus == Some(401) ==>
        sends == 2 && client.token == login.value
        && (replies(index + 1).Ok? ==> r == Ok(replies(index + 1).value))
        && (replies(index + 1).Err? ==>
              r == Err(Error(OpenSubtitlesError, "Request failed: " + replies(index + 1).error.error.message)))
      decreases if retryOnAuth then 1 else 0
    {
      var auth, _ := Authenticate(now, login);
      if auth.Err? {
        return Err(auth.error), 0;
      }
      var reply := replies(index);
      match reply {
        case Ok(body) =>
          return Ok(body), 1;
        case Err(f) =>
          if f.responseStatus == Some(401) && retryOnAuth {
            client.ClearToken();
            var again, _ := Authenticate(now, login);
            if again.Err? {
              return Err(again.error), 1;
            }
            var more;
            r, more := MakeRequest(now, login, replies, index + 1, false);
            sends := 1 + more;
          } else {
            return Err(Error(OpenSubtitlesError, "Request failed: " + f.error.message)), 1;
          }
      }
    }

    /** `_make_request` over the base client as written: since its failures carry no
        response, a 401 from the server ends as "Request failed: ..." and is never resent. */
    method MakeRequestThroughBaseClient<B>(now: int, login: Result<Option<string>, Error>,
                                           replies: nat -> Result<B, Error>, index: nat)
      returns (r: Result<B, Error>, sends: nat)
      modifies this, client
      ensures sends <= 1
      ensures (old(TokenFresh(now)) || login.Ok?) && replies(index).Err? ==>
        sends == 1 && r == Err(Error(OpenSubtitlesError, "Request failed: " + replies(index).error.message))
    {
      BaseClientHidesUnauthorized(replies(index));
      r, sends := MakeRequest(now, login, (i: nat) => FromBaseClient(replies(i)), index, true);
    }

    /** `search(title, year, imdb_id, language)`: nothing when disabled; otherwise an
        authentication (its error propagates), one GET of `/subtitles` with the query
        parameters returned in `params`, and the filtered results with the token. A failure
        of the request, including a failed second login, becomes "Search failed: ...". */
    method Search(title: string, year: Option<int>, imdbId: Option<string>, language: string,
                  now: int, login: Result<Option<string>, Error>, replies: nat -> Result<SearchBody, Failure>,
                  allowed: set<string>)
      returns (r: Result<(seq<SubtitleResult>, Option<string>), Error>, params: Option<seq<(string, JsonScalar)>>)
      modifies this, client
      ensures !provider.enabled ==>
        (r == Ok(([], None)) && params == None && client.token == old(client.token) && tokenExpiry == old(tokenExpiry))
      ensures params.Some? ==> provider.enabled && params.value == SearchParams(title, year, imdbId, language)
      ensures provider.enabled && !old(TokenFresh(now)) && login.Err? ==>
        r == Err(AuthFailure(login.error)) && params.None?
      ensures provider.enabled && (old(TokenFresh(now)) || login.Ok?) ==> params.Some?
      ensures r.Ok? && provider.enabled ==> r.value.1 == client.token
      ensures provider.enabled && (old(TokenFresh(now)) || login.Ok?) ==>
        var resent := replies(0).Err? && replies(0).error.responseStatus == Some(401);
        var last := if resent then 1 else 0;
        && (resent && login.Err? ==>
              r == Err(Error(OpenSubtitlesError, "Search failed: " + AuthFailure(login.error).message)))
        && (!resent || login.Ok? ==>
              && (replies(last).Ok? ==>
                    r.Ok? && r.value.0 == Filtered(replies(last).value.data.GetOr([]), language, allowed, provider.name))
              && (replies(last).Err? ==>
                    r == Err(Error(OpenSubtitlesError, "Search failed: " + ("Request failed: " + replies(last).error.error.message)))))
    {
      if !provider.enabled {
        return Ok(([], None)), None;
      }
      var auth, _ := Authenticate(now, login);
      if auth.Err? {
        return Err(auth.error), None;
      }
      params := Some(SearchParams(title, year, imdbId, language));
      var data, _ := MakeRequest(now, login, replies, 0, true);
      if data.Err? {
        return Err(Error(OpenSubtitlesError, "Search failed: " + data.error.message)), params;
      }
      var subtitles := data.value.data.GetOr([]);
      if subtitles == [] {
        assert [] == Filtered([], language, allowed, provider.name);
        return Ok(([], client.token)), params;
      }
      var results := FilterResults(subtitles, language, allowed, provider.name);
      r := Ok((results, client.token));
    }
  }
}
