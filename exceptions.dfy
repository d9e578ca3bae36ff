/** The exception classes the system raises and catches, with Python's subclass relation.

    `GenericError` stands for Python's built-in `Exception`, the root every other kind
    descends from; `RequestException` and `HTTPError` are the `requests` library's
    transport errors (a `RequestException` is an `OSError`). */
module Exceptions {
  import opened Wrappers

  datatype ErrorKind =
    | GenericError
    | ValueError
    | TypeError
    | RuntimeError
    | KeyError
    | OSError
    | RequestException
    | HTTPError
    | PlexSubtitleError
    | ConfigurationError
    | PlexAPIError
    | ProviderError
    | OpenSubtitlesError
    | SubtitleNotFoundError
    | DownloadError
    | LanguageDetectionError
    | ReleaseMatchingError

  /** An exception instance: its class and `str(exc)`. */
  datatype Error = Error(kind: ErrorKind, message: string)

  /** The direct base class of each kind; `Exception` has none in this model. */
  function Parent(k: ErrorKind): Option<ErrorKind> {
    match k
    case GenericError => None
    case ValueError | TypeError | RuntimeError | KeyError | OSError | PlexSubtitleError => Some(GenericError)
    case RequestException => Some(OSError)
    case HTTPError => Some(RequestException)
    case OpenSubtitlesError => Some(ProviderError)
    case ConfigurationError | PlexAPIError | ProviderError | SubtitleNotFoundError
      | DownloadError | LanguageDetectionError | ReleaseMatchingError => Some(PlexSubtitleError)
  }

  /** The number of steps from `k` up to `Exception`. */
  function Depth(k: ErrorKind): nat {
    match k
    case GenericError => 0
    case ValueError | TypeError | RuntimeError | KeyError | OSError | PlexSubtitleError => 1
    case RequestException => 2
    case HTTPError => 3
    case OpenSubtitlesError => 3
    case ConfigurationError | PlexAPIError | ProviderError | SubtitleNotFoundError
      | DownloadError | LanguageDetectionError | ReleaseMatchingError => 2
  }

  /** `issubclass(k, base)`. */
  function IsA(k: ErrorKind, base: ErrorKind): bool
    decreases Depth(k)
  {
    k == base || (Parent(k).Some? && IsA(Parent(k).value, base))
  }

  /** `isinstance(exc, catches)` for an `except catches:` clause given as a tuple of classes. */
  predicate IsInstance(k: ErrorKind, catches: seq<ErrorKind>) {
    exists i :: 0 <= i < |catches| && IsA(k, catches[i])
  }

  /** Every kind descends from `Exception`, so `except Exception` catches them all. */
  lemma {:induction false} EveryKindIsAnException(k: ErrorKind)
    ensures IsA(k, GenericError)
    decreases Depth(k)
  {
    if k != GenericError {
      EveryKindIsAnException(Parent(k).value);
    }
  }
}
