/** `WebhookHandler`: the answer to one Plex webhook and the Plex calls it makes.

    The collaborators are inputs: what `get_media_info` and `download_subtitles` answer,
    what each attempt of `set_active_session_subtitle` does, and what
    `set_subtitle_stream` does. The handler's reply comes with the calls it made, in
    order, so "called once" and "never called" can be stated. */
module Webhook {
  import opened Wrappers
  import opened Exceptions
  import opened Retry
  import Constants
  import PlexClient
  import SubtitleManager

  /** The parts of the JSON body the handler reads: `event` and `Metadata.ratingKey`. */
  datatype Payload = Payload(event: Option<string>, ratingKey: Option<string>)

  /** The response dictionaries. */
  datatype Body =
    | ErrorBody(message: string)
    | Ignored(event: Option<string>)
    | NotFoundBody
    | SuccessBody(subtitle: string, language: string, provider: string, upgraded: bool)

  /** A `(response, status)` pair, or an exception that leaves `handle_event`. */
  datatype Reply = Reply(body: Body, status: int) | Escaped(error: Error)

  /** A call into the Plex client or the subtitle manager. */
  datatype Call =
    | GetMediaInfo(ratingKey: string)
    | DownloadSubtitles(filePath: string)
    | RefreshMetadata(ratingKey: string)
    | SetSessionSubtitle(ratingKey: string, languageCode: string)
    | SetSubtitleStream(ratingKey: string, languageCode: string)

  /** What the collaborators answer: `get_media_info`, `download_subtitles`, attempt `i` of
      `set_active_session_subtitle`, and `set_subtitle_stream`. */
  datatype Plex = Plex(
    mediaInfo: Result<Option<PlexClient.MediaInfo>, Error>,
    acquisition: Result<SubtitleManager.Acquisition, Error>,
    session: nat -> Outcome<bool>,
    defaultStream: Outcome<bool>)

  /** The handler's reply and the calls it made, in order. */
  datatype Handled = Handled(reply: Reply, calls: seq<Call>)

  // ---------------------------------------------------------------- session activation

  /** The exception a False answer is turned into. */
  function SessionFailure(ratingKey: string, languageCode: string): Error {
    Error(GenericError, "Failed to set subtitle " + languageCode + " for " + ratingKey)
  }

  /** One call of `_try_set_session_subtitle`. */
  function SessionAttempt(reply: Outcome<bool>, ratingKey: string, languageCode: string): Outcome<bool> {
    match reply
    case Ok(success) => if success then Ok(true) else Err(SessionFailure(ratingKey, languageCode))
    case Err(e) => Err(e)
  }

  function SessionOp(plex: Plex, ratingKey: string, languageCode: string): nat -> Outcome<bool> {
    (i: nat) => SessionAttempt(plex.session(i), ratingKey, languageCode)
  }

  /** `@retry_with_backoff(max_retries=MAX_SESSION_RETRIES, base_delay=BASE_RETRY_WAIT_SECONDS,
      exceptions=(Exception,))` on a coroutine. */
  const SessionPolicy: Policy := Policy(Constants.MaxSessionRetries, Constants.BaseRetryWaitMs, [GenericError], false)

  function SessionRun(plex: Plex, ratingKey: string, languageCode: string): RetryRun<bool> {
    Run(SessionOp(plex, ratingKey, languageCode), SessionPolicy, true)
  }

  /** What `_try_set_session_subtitle_with_retry` returns. */
  predicate SessionActivated(plex: Plex, ratingKey: string, languageCode: string) {
    SessionRun(plex, ratingKey, languageCode).outcome.Ok?
  }

  /** Every exception is caught, so every attempt that does not answer True is retried. */
  lemma AttemptsRetry(plex: Plex, ratingKey: string, languageCode: string, i: nat)
    requires plex.session(i) != Ok(true)
    ensures Retryable(SessionOp(plex, ratingKey, languageCode)(i), SessionPolicy.catches)
  {
    var o := SessionOp(plex, ratingKey, languageCode)(i);
    EveryKindIsAnException(o.error.kind);
    assert IsA(o.error.kind, SessionPolicy.catches[0]);
  }

  /** Session activation makes one to three attempts; it succeeds iff one of the first
      three answers True, and then it stops at the first such answer. A success always
      carries True. */
  lemma {:induction false} SessionActivation(plex: Plex, ratingKey: string, languageCode: string)
    ensures var run := SessionRun(plex, ratingKey, languageCode);
      && 1 <= run.calls <= 3
      && (run.outcome.Ok? ==> run.outcome.value)
      && (run.outcome.Ok? <==> exists i :: 0 <= i < 3 && plex.session(i) == Ok(true))
      && (run.outcome.Ok? ==> plex.session(run.calls - 1) == Ok(true))
      && (forall i :: 0 <= i < run.calls - 1 ==> plex.session(i) != Ok(true))
  {
    var run := SessionRun(plex, ratingKey, languageCode);
    SessionRunSteps(plex, ratingKey, languageCode);
    if run.outcome.Ok? {
      assert plex.session(run.calls - 1) == Ok(true);
    }
  }

  /** The run's shape in terms of the attempts' answers: every attempt but the last did
      not answer True, the outcome is the last attempt's, and a failure before the third
      attempt is impossible. */
  lemma SessionRunSteps(plex: Plex, ratingKey: string, languageCode: string)
    ensures var run := SessionRun(plex, ratingKey, languageCode);
      && 1 <= run.calls <= 3
      && run.outcome == SessionAttempt(plex.session(run.calls - 1), ratingKey, languageCode)
      && (forall i :: 0 <= i < run.calls - 1 ==> plex.session(i) != Ok(true))
      && (run.calls < 3 ==> run.outcome.Ok?)
  {
    var op := SessionOp(plex, ratingKey, languageCode);
    var run := SessionRun(plex, ratingKey, languageCode);
    RunEndsWithLastCall(op, SessionPolicy, true);
    forall i | 0 <= i < run.calls - 1
      ensures plex.session(i) != Ok(true)
    {
      assert Retryable(op(i), SessionPolicy.catches);
    }
    if !run.outcome.Ok? && run.calls < 3 {
      AttemptsRetry(plex, ratingKey, languageCode, run.calls - 1);
    }
  }

  /** `_try_set_session_subtitle_with_retry(rating_key, language_code)`: the retried
      activation, with exhaustion turned into False. */
  method TrySetSessionSubtitleWithRetry(plex: Plex, ratingKey: string, languageCode: string)
    returns (success: bool, attempts: nat)
    ensures success == SessionActivated(plex, ratingKey, languageCode)
    ensures attempts == SessionRun(plex, ratingKey, languageCode).calls
  {
    var run := RetryWithBackoff(SessionOp(plex, ratingKey, languageCode), SessionPolicy, true);
    SessionActivation(plex, ratingKey, languageCode);
    attempts := run.calls;
    match run.outcome {
      case Ok(v) => success := v;
      case Err(_) => success := false;
    }
  }

  /** Three attempts that do not answer True exhaust the activation, which then returns
      False without raising, after waiting 3 s and then 6 s. */
  lemma SessionExhaustion(plex: Plex, ratingKey: string, languageCode: string)
    requires forall i :: 0 <= i < 3 ==> plex.session(i) != Ok(true)
    ensures !SessionActivated(plex, ratingKey, languageCode)
    ensures SessionRun(plex, ratingKey, languageCode).calls == 3
    ensures SessionRun(plex, ratingKey, languageCode).pauses == [Awaited(3000), Awaited(6000)]
  {
    var op := SessionOp(plex, ratingKey, languageCode);
    forall i | 0 <= i < 3 ensures Retryable(op(i), SessionPolicy.catches) {
      AttemptsRetry(plex, ratingKey, languageCode, i);
    }
    RunFromShape(op, SessionPolicy, true, 0, 3);
  }

  // ---------------------------------------------------------------- handle_event

  /** `n` copies of one call. */
  function Repeat(c: Call, n: nat): (cs: seq<Call>)
    ensures |cs| == n && multiset(cs)[c] == n
    ensures forall d :: d != c ==> multiset(cs)[d] == 0
  {
    if n == 0 then [] else Repeat(c, n - 1) + [c]
  }

  /** `except PlexSubtitleError as e: return {"status": "error", "message": str(e)}, 500`;
      any other exception leaves the handler. */
  function Caught(e: Error): Reply {
    if IsA(e.kind, PlexSubtitleError) then Reply(ErrorBody(e.message), 500) else Escaped(e)
  }

  /** The steps after a successful download: refresh, then the two-tier activation. */
  function AfterSuccess(plex: Plex, autoSelect: bool, ratingKey: string, a: SubtitleManager.Acquisition,
                        calls: seq<Call>): Handled
    requires a.Acquired?
  {
    var ok := Reply(SuccessBody(a.path, a.language, a.provider, a.upgraded), 200);
    var refreshed := calls + [RefreshMetadata(ratingKey)];
    if !autoSelect then Handled(ok, refreshed)
    else
      var code := a.languageCode;
      var tried := refreshed + Repeat(SetSessionSubtitle(ratingKey, code), SessionRun(plex, ratingKey, code).calls);
      if SessionActivated(plex, ratingKey, code) then Handled(ok, tried)
      else
        var fallback := tried + [SetSubtitleStream(ratingKey, code)];
        match plex.defaultStream
        case Ok(_) => Handled(ok, fallback)
        case Err(e) => Handled(Caught(e), fallback)
  }

  /** `handle_event(payload_str)`, where `None` stands for a body that is not JSON. */
  function HandleEvent(payload: Option<Payload>, autoSelect: bool, plex: Plex): Handled {
    if payload.None? then Handled(Reply(ErrorBody("Invalid JSON"), 400), [])
    else
      var p := payload.value;
      if p.event.None? || p.event.value !in Constants.ProcessableEvents then Handled(Reply(Ignored(p.event), 200), [])
      else if !Truthy(p.ratingKey) then Handled(Reply(ErrorBody("No rating key"), 400), [])
      else
        var key := p.ratingKey.value;
        var asked := [GetMediaInfo(key)];
        match plex.mediaInfo
        case Err(e) => Handled(Caught(e), asked)
        case Ok(None) => Handled(Reply(ErrorBody("Could not get media info"), 500), asked)
        case Ok(Some(info)) =>
          if !Truthy(info.filePath) then Handled(Reply(ErrorBody("Could not get file path"), 500), asked)
          else
            var downloading := asked + [DownloadSubtitles(info.filePath.value)];
            match plex.acquisition
            case Err(e) => Handled(Caught(e), downloading)
            case Ok(a) =>
              if a.Acquired? then AfterSuccess(plex, autoSelect, key, a, downloading)
              else Handled(Reply(NotFoundBody, 404), downloading)
  }

  /** A body that is not JSON, an event other than play or resume, or a missing rating
      key is answered without any call: 400 "Invalid JSON", 200 "ignored" with the event,
      or 400 "No rating key". */
  lemma EarlyReplies(payload: Option<Payload>, autoSelect: bool, plex: Plex)
    ensures payload.None? ==> HandleEvent(payload, autoSelect, plex) == Handled(Reply(ErrorBody("Invalid JSON"), 400), [])
    ensures payload.Some? && payload.value.event != Some("media.play") && payload.value.event != Some("media.resume") ==>
      HandleEvent(payload, autoSelect, plex) == Handled(Reply(Ignored(payload.value.event), 200), [])
    ensures payload.Some? && payload.value.event in {Some("media.play"), Some("media.resume")}
            && (payload.value.ratingKey.None? || payload.value.ratingKey == Some("")) ==>
      HandleEvent(payload, autoSelect, plex) == Handled(Reply(ErrorBody("No rating key"), 400), [])
  {
  }

  /** The calls a request with a rating key makes first. */
  predicate Accepted(payload: Option<Payload>) {
    payload.Some? && payload.value.event.Some? && payload.value.event.value in Constants.ProcessableEvents
    && Truthy(payload.value.ratingKey)
  }

  /** A failing `get_media_info`, no media info or no file path gives 500 (or lets a
      non-PlexSubtitleError escape), and the subtitle manager is not called. */
  lemma MediaInfoFailures(payload: Option<Payload>, autoSelect: bool, plex: Plex)
    requires Accepted(payload)
    requires plex.mediaInfo.Err? || plex.mediaInfo == Ok(None) || (plex.mediaInfo.Ok? && plex.mediaInfo.value.Some? && !Truthy(plex.mediaInfo.value.value.filePath))
    ensures var h := HandleEvent(payload, autoSelect, plex);
      && h.calls == [GetMediaInfo(payload.value.ratingKey.value)]
      && (h.reply.Reply? ==> h.reply.status == 500)
      && (h.reply.Escaped? ==> plex.mediaInfo.Err? && !IsA(plex.mediaInfo.error.kind, PlexSubtitleError))
  {
  }

  /** The request that reaches the subtitle manager. */
  predicate Downloads(payload: Option<Payload>, plex: Plex) {
    Accepted(payload) && plex.mediaInfo.Ok? && plex.mediaInfo.value.Some? && Truthy(plex.mediaInfo.value.value.filePath)
  }

  /** A failed acquisition gives 404 "not_found" with no refresh and no activation. */
  lemma NotFoundNoRefresh(payload: Option<Payload>, autoSelect: bool, plex: Plex)
    requires Downloads(payload, plex) && plex.acquisition.Ok? && !plex.acquisition.value.Acquired?
    ensures var h := HandleEvent(payload, autoSelect, plex);
      && h.reply == Reply(NotFoundBody, 404)
      && h.calls == [GetMediaInfo(payload.value.ratingKey.value), DownloadSubtitles(plex.mediaInfo.value.value.filePath.value)]
  {
  }

  /** After a successful acquisition: one refresh; with auto-select on, up to three
      session attempts, and the default-stream call exactly once iff session activation
      returned False; with it off, neither. The reply is 200 with the subtitle's path,
      language, provider and `upgraded`, whatever activation did, unless the default-stream
      call itself raised. */
  lemma SuccessPath(payload: Option<Payload>, autoSelect: bool, plex: Plex)
    requires Downloads(payload, plex) && plex.acquisition.Ok? && plex.acquisition.value.Acquired?
    ensures var h := HandleEvent(payload, autoSelect, plex);
      var key := payload.value.ratingKey.value;
      var a := plex.acquisition.value;
      var code := a.languageCode;
      var fallback := autoSelect && !SessionActivated(plex, key, code);
      && multiset(h.calls)[RefreshMetadata(key)] == 1
      && multiset(h.calls)[SetSessionSubtitle(key, code)] == (if autoSelect then SessionRun(plex, key, code).calls else 0)
      && multiset(h.calls)[SetSessionSubtitle(key, code)] <= 3
      && multiset(h.calls)[SetSubtitleStream(key, code)] == (if fallback then 1 else 0)
      && (!(fallback && plex.defaultStream.Err?) ==>
            h.reply == Reply(SuccessBody(a.path, a.language, a.provider, a.upgraded), 200))
  {
    var key := payload.value.ratingKey.value;
    var a := plex.acquisition.value;
    var downloading := [GetMediaInfo(key)] + [DownloadSubtitles(plex.mediaInfo.value.value.filePath.value)];
    AfterSuccessCalls(plex, autoSelect, key, a, downloading);
  }

  /** The calls `AfterSuccess` adds to calls that hold none of its own. */
  lemma AfterSuccessCalls(plex: Plex, autoSelect: bool, key: string, a: SubtitleManager.Acquisition, calls: seq<Call>)
    requires a.Acquired?
    requires forall c :: c in calls ==> c.GetMediaInfo? || c.DownloadSubtitles?
    ensures var h := AfterSuccess(plex, autoSelect, key, a, calls);
      var code := a.languageCode;
      var fallback := autoSelect && !SessionActivated(plex, key, code);
      && multiset(h.calls)[RefreshMetadata(key)] == 1
      && multiset(h.calls)[SetSessionSubtitle(key, code)] == (if autoSelect then SessionRun(plex, key, code).calls else 0)
      && multiset(h.calls)[SetSessionSubtitle(key, code)] <= 3
      && multiset(h.calls)[SetSubtitleStream(key, code)] == (if fallback then 1 else 0)
      && (!(fallback && plex.defaultStream.Err?) ==>
            h.reply == Reply(SuccessBody(a.path, a.language, a.provider, a.upgraded), 200))
  {
    var code := a.languageCode;
    var n := SessionRun(plex, key, code).calls;
    assert n <= 3 by {
      SessionActivation(plex, key, code);
    }
    var refreshed := calls + [RefreshMetadata(key)];
    RefreshedCounts(calls, key, code);
    if autoSelect {
      var tried := refreshed + Repeat(SetSessionSubtitle(key, code), n);
      TriedCounts(refreshed, key, code, n);
      if !SessionActivated(plex, key, code) {
        FallbackCounts(tried, key, code, n);
      }
    }
  }

  /** The refresh is the only call of its kind after calls of other kinds. */
  lemma RefreshedCounts(calls: seq<Call>, key: string, code: string)
    requires forall c :: c in calls ==> c.GetMediaInfo? || c.DownloadSubtitles?
    ensures var t := multiset(calls + [RefreshMetadata(key)]);
      t[RefreshMetadata(key)] == 1 && t[SetSessionSubtitle(key, code)] == 0 && t[SetSubtitleStream(key, code)] == 0
  {
    assert RefreshMetadata(key) !in calls;
    assert SetSessionSubtitle(key, code) !in calls;
    assert SetSubtitleStream(key, code) !in calls;
  }

  /** `n` session attempts add `n` activation calls and nothing else. */
  lemma TriedCounts(refreshed: seq<Call>, key: string, code: string, n: nat)
    requires var t := multiset(refreshed);
      t[RefreshMetadata(key)] == 1 && t[SetSessionSubtitle(key, code)] == 0 && t[SetSubtitleStream(key, code)] == 0
    ensures var t := multiset(refreshed + Repeat(SetSessionSubtitle(key, code), n));
      t[RefreshMetadata(key)] == 1 && t[SetSessionSubtitle(key, code)] == n && t[SetSubtitleStream(key, code)] == 0
  {
    var r := Repeat(SetSessionSubtitle(key, code), n);
    assert multiset(refreshed + r) == multiset(refreshed) + multiset(r);
  }

  /** The default-stream call comes once, after the others. */
  lemma FallbackCounts(tried: seq<Call>, key: string, code: string, n: nat)
    requires var t := multiset(tried);
      t[RefreshMetadata(key)] == 1 && t[SetSessionSubtitle(key, code)] == n && t[SetSubtitleStream(key, code)] == 0
    ensures var t := multiset(tried + [SetSubtitleStream(key, code)]);
      t[RefreshMetadata(key)] == 1 && t[SetSessionSubtitle(key, code)] == n && t[SetSubtitleStream(key, code)] == 1
  {
    assert multiset(tried + [SetSubtitleStream(key, code)]) == multiset(tried) + multiset{SetSubtitleStream(key, code)};
  }
}
