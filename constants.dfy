/** Application-wide constants. Durations in seconds become naturals; the retry
    delays, which the system keeps as fractional seconds, are in milliseconds. */
module Constants {

  /** The path mapping used when none is configured. */
  const DefaultPathMappings: seq<(string, string)> := [("/media", "/mnt/library")]

  /** Mount points probed when a path mapping is suggested, in probing order. */
  const CommonMediaMounts: seq<string> := ["/mnt", "/media", "/data", "/volume", "/srv"]

  /** Subtitle file extensions, in the order existing subtitles are looked for. */
  const SubtitleExtensions: seq<string> := [".srt", ".ass", ".ssa", ".vtt"]

  /** The Plex webhook events that trigger subtitle acquisition. */
  const ProcessableEvents: set<string> := {"media.play", "media.resume"}

  const DefaultRequestTimeout: nat := 10
  const DownloadTimeout: nat := 30

  const DefaultMaxRetries: nat := 3
  /** `DEFAULT_BASE_RETRY_DELAY` (1.0 s) in milliseconds. */
  const DefaultBaseRetryDelayMs: nat := 1000

  const TokenExpiryHours: nat := 23
  const TokenExpirySeconds: nat := TokenExpiryHours * 3600

  /** Session activation retries: three attempts, base delay 3 s (in milliseconds). */
  const MaxSessionRetries: nat := 3
  const BaseRetryWaitMs: nat := 3000

  /** The OpenSubtitles download retry: three attempts, base delay 2.0 s (in milliseconds). */
  const ProviderDownloadRetries: nat := 3
  const ProviderDownloadBaseDelayMs: nat := 2000

}
