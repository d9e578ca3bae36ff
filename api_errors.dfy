/** How an API endpoint turns an exception into a JSON error response: the exact-type
    table, the keyword rules that pick a status from a message, and which registered
    handler an exception reaches. */
module ApiErrors {
  import opened Wrappers
  import opened Strings
  import opened OrderedMaps
  import opened Exceptions

  /** The `ErrorResponse` body as dumped with `exclude_none`: `details` is present only when given. */
  datatype ErrorBody = ErrorBody(error: string, code: string, details: Option<Dict<string, string>>)

  datatype JsonResponse = JsonResponse(status: int, content: ErrorBody)

  /** `EXCEPTION_HANDLERS`: exact exception class to (status, code); a dictionary lookup
      on `type(exc)`, so a subclass never inherits its base class's entry. */
  function ExceptionHandler(k: ErrorKind): Option<(int, string)> {
    match k
    case ConfigurationError => Some((500, "CONFIGURATION_ERROR"))
    case PlexAPIError => Some((503, "PLEX_API_ERROR"))
    case ProviderError => Some((503, "PROVIDER_ERROR"))
    case OpenSubtitlesError => Some((503, "OPENSUBTITLES_ERROR"))
    case SubtitleNotFoundError => Some((404, "SUBTITLE_NOT_FOUND"))
    case DownloadError => Some((500, "DOWNLOAD_ERROR"))
    case LanguageDetectionError => Some((500, "LANGUAGE_DETECTION_ERROR"))
    case ReleaseMatchingError => Some((500, "RELEASE_MATCHING_ERROR"))
    case _ => None
  }

  /** The keyword rules of `_get_status_code_from_message`, in the order they are tried:
      a rule fires when any of its keywords occurs in the lower-cased message. */
  const StatusRules: seq<(seq<string>, int)> := [
    (["not found", "no suitable"], 404),
    (["unauthorized", "authentication"], 401),
    (["invalid", "bad request"], 400),
    (["timeout"], 504)
  ]

  predicate MentionsAny(text: string, keywords: seq<string>) {
    exists i :: 0 <= i < |keywords| && Contains(text, keywords[i])
  }

  /** A reference reading of the rules: the status of the first rule that fires, else 500. */
  function FirstRuleStatus(text: string, rules: seq<(seq<string>, int)>): int {
    if rules == [] then 500
    else if MentionsAny(text, rules[0].0) then rules[0].1
    else FirstRuleStatus(text, rules[1..])
  }

  /** `_get_status_code_from_message(message)`. */
  function StatusFromMessage(message: string): (status: int)
    ensures status in {400, 401, 404, 500, 504}
  {
    var m := Lower(message);
    if Contains(m, "not found") || Contains(m, "no suitable") then 404
    else if Contains(m, "unauthorized") || Contains(m, "authentication") then 401
    else if Contains(m, "invalid") || Contains(m, "bad request") then 400
    else if Contains(m, "timeout") then 504
    else 500
  }

  lemma MentionsEither(text: string, a: string, b: string)
    ensures MentionsAny(text, [a, b]) <==> Contains(text, a) || Contains(text, b)
  {
    if Contains(text, a) {
      assert [a, b][0] == a;
    }
    if Contains(text, b) {
      assert [a, b][1] == b;
    }
  }

  lemma MentionsOne(text: string, a: string)
    ensures MentionsAny(text, [a]) <==> Contains(text, a)
  {
    if Contains(text, a) {
      assert [a][0] == a;
    }
  }

  /** The if/elif chain is exactly the first-match reading of the rule table: the rules
      are tried in order and the first that fires decides, 500 when none does. */
  lemma StatusIsFirstRule(message: string)
    ensures StatusFromMessage(message) == FirstRuleStatus(Lower(message), StatusRules)
    ensures StatusFromMessage(message) == 500 <==>
      forall i :: 0 <= i < |StatusRules| ==> !MentionsAny(Lower(message), StatusRules[i].0)
  {
    var m := Lower(message);
    MentionsEither(m, "not found", "no suitable");
    MentionsEither(m, "unauthorized", "authentication");
    MentionsEither(m, "invalid", "bad request");
    MentionsOne(m, "timeout");
    var r1 := StatusRules[1..];
    var r2 := r1[1..];
    var r3 := r2[1..];
    assert r1[0] == StatusRules[1] && r2[0] == StatusRules[2] && r3[0] == StatusRules[3];
    assert r3[1..] == [];
    assert FirstRuleStatus(m, r3) == if MentionsAny(m, ["timeout"]) then 504 else 500;
    assert FirstRuleStatus(m, r2) == if MentionsAny(m, ["invalid", "bad request"]) then 400 else FirstRuleStatus(m, r3);
    assert FirstRuleStatus(m, r1) == if MentionsAny(m, ["unauthorized", "authentication"]) then 401 else FirstRuleStatus(m, r2);
  }

  lemma LowerUpperChar(c: char)
    ensures LowerChar(UpperChar(c)) == LowerChar(c)
  {
  }

  /** Lower-casing forgets any earlier change of case. */
  lemma LowerForgetsCase(s: string)
    ensures Lower(Upper(s)) == Lower(s)
    ensures Lower(Lower(s)) == Lower(s)
  {
    forall i | 0 <= i < |s|
      ensures Lower(Upper(s))[i] == Lower(s)[i]
    {
      LowerUpperChar(s[i]);
    }
  }

  /** The keywords are matched without regard to case. */
  lemma StatusIgnoresCase(message: string)
    ensures StatusFromMessage(Upper(message)) == StatusFromMessage(message)
    ensures StatusFromMessage(Lower(message)) == StatusFromMessage(message)
  {
    LowerForgetsCase(message);
  }

  /** `create_error_response(message, code, details)`: the status comes from the message. */
  function CreateErrorResponse(message: string, code: string, details: Option<Dict<string, string>>): (r: JsonResponse)
    ensures r.content == ErrorBody(message, code, details)
    ensures r.status in {400, 401, 404, 500, 504}
  {
    JsonResponse(StatusFromMessage(message), ErrorBody(message, code, details))
  }

  /** The status of a created response depends on the message only, never on the code. */
  lemma CreatedStatusIgnoresCode(message: string, c1: string, c2: string, d1: Option<Dict<string, string>>, d2: Option<Dict<string, string>>)
    ensures CreateErrorResponse(message, c1, d1).status == CreateErrorResponse(message, c2, d2).status
  {
  }

  /** `handle_exception(exc, operation)`: an exact-type table hit, else a generic code;
      the body's `error` is `str(exc)`. The operation only changes the log line. */
  function HandleException(exc: Error): (r: JsonResponse)
    ensures r.content.error == exc.message && r.content.details.None?
    ensures ExceptionHandler(exc.kind).Some? ==>
      (r.status, r.content.code) == ExceptionHandler(exc.kind).value
    ensures ExceptionHandler(exc.kind).None? ==>
      r.status == 500 && r.content.code == (if IsA(exc.kind, PlexSubtitleError) then "PLEXSUBS_ERROR" else "INTERNAL_ERROR")
  {
    var (status, code) :=
      match ExceptionHandler(exc.kind)
      case Some(entry) => entry
      case None => if IsA(exc.kind, PlexSubtitleError) then (500, "PLEXSUBS_ERROR") else (500, "INTERNAL_ERROR");
    JsonResponse(status, ErrorBody(exc.message, code, None))
  }

  /** Only the built-in kinds and the base class itself lie outside the table. */
  lemma OutsideHierarchy(k: ErrorKind)
    ensures IsA(k, PlexSubtitleError) <==> !(k in {GenericError, ValueError, TypeError, RuntimeError, KeyError,
      OSError, RequestException, HTTPError})
  {
    match k
    case HTTPError =>
      assert !IsA(OSError, PlexSubtitleError);
      assert !IsA(RequestException, PlexSubtitleError);
    case RequestException =>
      assert !IsA(OSError, PlexSubtitleError);
    case OpenSubtitlesError =>
      assert IsA(ProviderError, PlexSubtitleError);
    case _ =>
  }

  /** The table lists exactly the strict subclasses of `PlexSubtitleError`. */
  lemma TableCoversSubclasses(k: ErrorKind)
    ensures ExceptionHandler(k).Some? <==> IsA(k, PlexSubtitleError) && k != PlexSubtitleError
  {
    OutsideHierarchy(k);
  }

  /** The lookup is by exact type: an `OpenSubtitlesError` keeps its own entry rather than
      its base class's. */
  lemma OpenSubtitlesExact(message: string)
    ensures HandleException(Error(OpenSubtitlesError, message)) == JsonResponse(503, ErrorBody(message, "OPENSUBTITLES_ERROR", None))
    ensures HandleException(Error(ProviderError, message)) == JsonResponse(503, ErrorBody(message, "PROVIDER_ERROR", None))
  {
  }

  /** The base class itself gets the generic project code; everything outside the
      hierarchy is an internal error. */
  lemma GenericCodes(exc: Error)
    ensures exc.kind == PlexSubtitleError ==> HandleException(exc) == JsonResponse(500, ErrorBody(exc.message, "PLEXSUBS_ERROR", None))
    ensures !IsA(exc.kind, PlexSubtitleError) ==> HandleException(exc) == JsonResponse(500, ErrorBody(exc.message, "INTERNAL_ERROR", None))
  {
    TableCoversSubclasses(exc.kind);
  }

  /** The class followed by its bases, most specific first (Python's `__mro__`). */
  function Mro(k: ErrorKind): (chain: seq<ErrorKind>)
    ensures chain != [] && chain[0] == k
    ensures forall i :: 0 <= i < |chain| ==> IsA(k, chain[i])
    decreases Depth(k)
  {
    match Parent(k)
    case None => [k]
    case Some(p) => [k] + Mro(p)
  }

  /** `register_exception_handlers`: each registered class with the operation its handler
      reports (the generic `PlexSubtitleError` handler reports none). */
  function RegisteredOperation(k: ErrorKind): Option<string> {
    match k
    case PlexAPIError => Some("Plex API communication")
    case ProviderError | OpenSubtitlesError => Some("subtitle provider")
    case SubtitleNotFoundError => Some("subtitle search")
    case ConfigurationError => Some("configuration validation")
    case PlexSubtitleError => Some("")
    case _ => None
  }

  /** The handler the application dispatches to: the first class along the exception's
      MRO that has one registered. */
  function HandlerFor(chain: seq<ErrorKind>): (r: Option<string>)
    ensures r.None? <==> forall i :: 0 <= i < |chain| ==> RegisteredOperation(chain[i]).None?
  {
    if chain == [] then None
    else match RegisteredOperation(chain[0])
      case Some(op) => Some(op)
      case None => HandlerFor(chain[1..])
  }

  lemma {:induction false} ChainOfSubclass(k: ErrorKind)
    requires IsA(k, PlexSubtitleError)
    ensures PlexSubtitleError in Mro(k)
    decreases Depth(k)
  {
    if k != PlexSubtitleError {
      ChainOfSubclass(Parent(k).value);
    }
  }

  lemma {:induction false} ChainOutsideHierarchy(k: ErrorKind)
    requires !IsA(k, PlexSubtitleError)
    ensures forall i :: 0 <= i < |Mro(k)| ==> !IsA(Mro(k)[i], PlexSubtitleError)
    decreases Depth(k)
  {
    if Parent(k).Some? {
      ChainOutsideHierarchy(Parent(k).value);
    }
  }

  /** Returns the response an uncaught exception gets from the application: the table answer
      when any registered handler applies, none otherwise. */
  function Dispatch(exc: Error): (r: Option<JsonResponse>)
    ensures r.Some? ==> r.value == HandleException(exc)
  {
    match HandlerFor(Mro(exc.kind))
    case Some(_) => Some(HandleException(exc))
    case None => None
  }

  /** Every project exception reaches a registered handler, and nothing else does. */
  lemma DispatchCoversHierarchy(exc: Error)
    ensures Dispatch(exc).Some? <==> IsA(exc.kind, PlexSubtitleError)
  {
    var chain := Mro(exc.kind);
    if IsA(exc.kind, PlexSubtitleError) {
      ChainOfSubclass(exc.kind);
      var i :| 0 <= i < |chain| && chain[i] == PlexSubtitleError;
      assert RegisteredOperation(chain[i]).Some?;
    } else {
      ChainOutsideHierarchy(exc.kind);
      forall i | 0 <= i < |chain|
        ensures RegisteredOperation(chain[i]).None?
      {
        OutsideHierarchy(chain[i]);
      }
    }
  }

  /** What an endpoint wrapped by `api_error_handler` answers. */
  datatype EndpointReply<T> = Returned(value: T) | ErrorReply(response: JsonResponse)

  /** `api_error_handler(operation)` around an endpoint: every exception becomes the
      standard error response, a result passes through (both the sync and async wrapper). */
  function Guarded<T>(outcome: Result<T, Error>): (r: EndpointReply<T>)
    ensures outcome.Ok? <==> r.Returned?
    ensures outcome.Ok? ==> r.value == outcome.value
    ensures outcome.Err? ==> r.response == HandleException(outcome.error)
  {
    match outcome
    case Ok(v) => Returned(v)
    case Err(e) => ErrorReply(HandleException(e))
  }
}
