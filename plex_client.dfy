/** The Plex client above the HTTP layer: what it reads out of the metadata and session
    XML, and the conditions under which it sends a subtitle-selection PUT. Each GET is an
    input: the base client's error, or the parsed document (`None` when the body did not
    parse). A PUT is returned as a plan together with the transport's answer to it. */
module PlexClient {
  import opened Wrappers
  import opened Strings
  import opened OrderedMaps
  import opened Exceptions
  import opened Xml
  import PathUtils
  import Retry
  import Constants

  /** A GET as the client sees it. */
  type Fetched = Result<Option<Element>, Error>

  /** `PartStreamInfo`. */
  datatype PartStreamInfo = PartStreamInfo(partId: Option<string>, subtitleId: Option<string>)

  /** The index of the first stream in `streams` whose `languageCode` is `language`. */
  function FirstInLanguage(streams: seq<Element>, language: string): (r: Option<nat>)
    ensures r.None? <==> forall i :: 0 <= i < |streams| ==> Attr(streams[i], "languageCode") != Some(language)
    ensures r.Some? ==>
      (r.value < |streams| && Attr(streams[r.value], "languageCode") == Some(language)
       && forall j :: 0 <= j < r.value ==> Attr(streams[j], "languageCode") != Some(language))
  {
    if streams == [] then None
    else if Attr(streams[0], "languageCode") == Some(language) then Some(0)
    else
      match FirstInLanguage(streams[1..], language)
      case None => None
      case Some(i) => Some(i + 1)
  }

  /** `_find_subtitle_stream_id(part, language)`: the `id` of the first subtitle Stream
      child of the Part in that language (the attribute may itself be missing). */
  function FindSubtitleStreamId(part: Element, language: string): (r: Option<string>)
    ensures (forall x :: x in part.children && IsSubtitleStream(x) ==> Attr(x, "languageCode") != Some(language))
      ==> r.None?
    ensures r.Some? ==>
      (exists x :: x in part.children && IsSubtitleStream(x) && Attr(x, "languageCode") == Some(language)
        && r == Attr(x, "id"))
  {
    var streams := SubtitleStreamsIn(part.children);
    match FirstInLanguage(streams, language)
    case None => None
    case Some(i) =>
      assert streams[i] in streams;
      Attr(streams[i], "id")
  }

  /** The first matching stream wins, even over a later one with the same language. */
  lemma FirstStreamWins(part: Element, language: string, k: nat)
    requires k < |SubtitleStreamsIn(part.children)|
    requires Attr(SubtitleStreamsIn(part.children)[k], "languageCode") == Some(language)
    requires forall j :: 0 <= j < k ==> Attr(SubtitleStreamsIn(part.children)[j], "languageCode") != Some(language)
    ensures FindSubtitleStreamId(part, language) == Attr(SubtitleStreamsIn(part.children)[k], "id")
  {
    var streams := SubtitleStreamsIn(part.children);
    var r := FirstInLanguage(streams, language);
    assert r.Some?;
    if r.value < k {
    } else if r.value > k {
    }
  }

  /** What `_get_part_stream_info(video, language)` returns. */
  function PartStreamInfoOf(video: Element, language: string): (r: PartStreamInfo)
    ensures !Truthy(PartIdOf(video)) ==> r == PartStreamInfo(None, None)
    ensures Truthy(PartIdOf(video)) ==> r.partId == PartIdOf(video) && PartOf(video).Some?
    ensures Truthy(PartIdOf(video)) ==> r.subtitleId == FindSubtitleStreamId(PartOf(video).value, language)
  {
    var id := PartIdOf(video);
    if !Truthy(id) then PartStreamInfo(None, None)
    else PartStreamInfo(id, FindSubtitleStreamId(PartOf(video).value, language))
  }

  /** `_get_part_stream_info` through the navigator. */
  method GetPartStreamInfo(video: Element, language: string) returns (info: PartStreamInfo)
    ensures info == PartStreamInfoOf(video, language)
  {
    var nav := new MediaPartNavigator(video);
    var partId := nav.GetPartId();
    if !Truthy(partId) {
      return PartStreamInfo(None, None);
    }
    var subtitleId := None;
    var part := nav.GetPartElement();
    if part.Some? {
      subtitleId := FindSubtitleStreamId(part.value, language);
    }
    info := PartStreamInfo(partId, subtitleId);
  }

  /** `MediaInfo`. */
  datatype MediaInfo = MediaInfo(ratingKey: string, title: string, mediaType: string,
                                 year: Option<int>, imdbId: Option<string>, filePath: Option<string>)

  /** The title shown for `video`: an episode is named after its show. */
  function TitleOf(video: Element): (t: string)
    ensures AttrOr(video, "type", "") != "episode" ==> t == AttrOr(video, "title", "")
    ensures AttrOr(video, "type", "") == "episode" && Attr(video, "grandparentTitle").Some? ==>
      t == Attr(video, "grandparentTitle").value
    ensures AttrOr(video, "type", "") == "episode" && Attr(video, "grandparentTitle").None? ==>
      t == AttrOr(video, "title", "")
  {
    var title := AttrOr(video, "title", "");
    if AttrOr(video, "type", "") == "episode" then AttrOr(video, "grandparentTitle", title) else title
  }

  /** `int(year) if year and year.isdigit() else None`. */
  function YearOf(year: Option<string>): (y: Option<int>)
    ensures y.Some? <==> year.Some? && IsDecimal(year.value)
    ensures y.Some? ==> y.value >= 0
  {
    if year.Some? && IsDecimal(year.value) then Some(DigitsValue(year.value) as int) else None
  }

  /** A year written without leading zeros reads back as itself. */
  lemma YearRoundTrip(n: nat)
    ensures YearOf(Some(NatToString(n))) == Some(n as int)
  {
    NatToStringRoundTrip(n);
  }

  /** The fields `get_media_info` reads out of a parsed document; no Video gives `None`. */
  function MediaInfoOf(ratingKey: string, root: Element, mappings: Dict<string, string>): (r: Option<MediaInfo>)
    ensures r.None? <==> FindVideo(root).None?
    ensures r.Some? ==>
      var video := FindVideo(root).value;
      && r.value.ratingKey == ratingKey
      && r.value.title == TitleOf(video)
      && r.value.mediaType == AttrOr(video, "type", "")
      && r.value.year == YearOf(Attr(video, "year"))
      && r.value.imdbId == FindImdbId(root)
      && (Truthy(FilePathOf(video)) ==> r.value.filePath == Some(PathUtils.ApplyPathMappings(FilePathOf(video).value, mappings)))
      && (!Truthy(FilePathOf(video)) ==> r.value.filePath.None?)
  {
    match FindVideo(root)
    case None => None
    case Some(video) =>
      var raw := FilePathOf(video);
      var path := if Truthy(raw) then Some(PathUtils.ApplyPathMappings(raw.value, mappings)) else None;
      Some(MediaInfo(ratingKey, TitleOf(video), AttrOr(video, "type", ""), YearOf(Attr(video, "year")),
                     FindImdbId(root), path))
  }

  const MediaInfoPrefix: string := "Failed to get media info: "
  const ParseFailure: string := "Failed to parse Plex XML response"

  /** One undecorated call of `get_media_info`: a failed GET and an unparseable body
      both come out as `PlexAPIError("Failed to get media info: ...")`. */
  function MediaInfoAttempt(ratingKey: string, fetched: Fetched, mappings: Dict<string, string>): (r: Result<Option<MediaInfo>, Error>)
    ensures r.Err? <==> fetched.Err? || fetched.value.None?
    ensures r.Err? ==> r.error.kind == PlexAPIError && StartsWith(r.error.message, MediaInfoPrefix)
    ensures fetched.Ok? && fetched.value.None? ==> r == Err(Error(PlexAPIError, MediaInfoPrefix + ParseFailure))
    ensures fetched.Ok? && fetched.value.Some? ==> r == Ok(MediaInfoOf(ratingKey, fetched.value.value, mappings))
  {
    match fetched
    case Err(e) => Err(Error(PlexAPIError, MediaInfoPrefix + e.message))
    case Ok(None) => Err(Error(PlexAPIError, MediaInfoPrefix + ParseFailure))
    case Ok(Some(root)) => Ok(MediaInfoOf(ratingKey, root, mappings))
  }

  /** `@retry_with_backoff(max_retries=3, exceptions=(PlexAPIError,))` on `get_media_info`. */
  const MediaInfoPolicy: Retry.Policy :=
    Retry.Policy(Constants.DefaultMaxRetries, Constants.DefaultBaseRetryDelayMs, [PlexAPIError], false)

  /** `get_media_info(rating_key)`, with `fetches(i)` the GET of the i-th attempt. */
  method GetMediaInfo(ratingKey: string, fetches: nat -> Fetched, mappings: Dict<string, string>)
    returns (run: Retry.RetryRun<Option<MediaInfo>>)
    ensures run == Retry.Run((i: nat) => MediaInfoAttempt(ratingKey, fetches(i), mappings), MediaInfoPolicy, false)
    ensures 1 <= run.calls <= 3
  {
    var op := (i: nat) => MediaInfoAttempt(ratingKey, fetches(i), mappings);
    run := Retry.RetryWithBackoff(op, MediaInfoPolicy, false);
    MediaInfoCalls(op);
  }

  /** Whatever the GETs do, the decorated call makes one to three attempts. */
  lemma MediaInfoCalls(op: nat -> Result<Option<MediaInfo>, Error>)
    ensures 1 <= Retry.Run(op, MediaInfoPolicy, false).calls <= 3
  {
    Retry.RunEndsWithLastCall(op, MediaInfoPolicy, false);
  }

  /** Three failed GETs exhaust the retries and raise the third attempt's error. */
  lemma MediaInfoGivesUp(ratingKey: string, fetches: nat -> Fetched, mappings: Dict<string, string>)
    requires forall i :: 0 <= i < 3 ==> fetches(i).Err?
    ensures var run := Retry.Run((i: nat) => MediaInfoAttempt(ratingKey, fetches(i), mappings), MediaInfoPolicy, false);
      && run.calls == 3
      && run.outcome == Err(Error(PlexAPIError, MediaInfoPrefix + fetches(2).error.message))
  {
    var op := (i: nat) => MediaInfoAttempt(ratingKey, fetches(i), mappings);
    forall i | 0 <= i < 3 ensures Retry.Retryable(op(i), MediaInfoPolicy.catches) {
      assert IsA(PlexAPIError, MediaInfoPolicy.catches[0]);
    }
    Retry.PersistentFailure(op, MediaInfoPolicy, false);
  }

  /** `SubtitleStream`. */
  datatype SubtitleStream = SubtitleStream(id: string, languageCode: string, language: string, codec: string, selected: bool)

  /** The record built for one subtitle Stream element. */
  function StreamOf(e: Element): (s: SubtitleStream)
    ensures s.selected <==> Attr(e, "selected") == Some("1")
    ensures Attr(e, "id").None? ==> s.id == ""
    ensures Attr(e, "id").Some? ==> s.id == Attr(e, "id").value
    ensures s.languageCode == AttrOr(e, "languageCode", "") && s.language == AttrOr(e, "language", "")
    ensures s.codec == AttrOr(e, "codec", "")
  {
    SubtitleStream(AttrOr(e, "id", ""), AttrOr(e, "languageCode", ""), AttrOr(e, "language", ""),
                   AttrOr(e, "codec", ""), AttrOr(e, "selected", "0") == "1")
  }

  /** `get_subtitle_streams(rating_key)`: one record per subtitle stream of the document,
      in document order; a failed GET or an unparseable body gives `[]`. */
  method GetSubtitleStreams(fetched: Fetched) returns (streams: seq<SubtitleStream>)
    ensures fetched.Err? || fetched.value.None? ==> streams == []
    ensures fetched.Ok? && fetched.value.Some? ==>
      var found := FindSubtitleStreams(fetched.value.value);
      |streams| == |found| && forall i :: 0 <= i < |found| ==> streams[i] == StreamOf(found[i])
  {
    if fetched.Err? || fetched.value.None? {
      return [];
    }
    var found := FindSubtitleStreams(fetched.value.value);
    streams := [];
    var i := 0;
    while i < |found|
      invariant 0 <= i <= |found|
      invariant |streams| == i
      invariant forall j :: 0 <= j < i ==> streams[j] == StreamOf(found[j])
    {
      streams := streams + [StreamOf(found[i])];
      i := i + 1;
    }
  }

  /** One entry of `get_active_sessions()`. */
  datatype Session = Session(ratingKey: Option<string>, sessionKey: string, title: Option<string>, player: Option<string>)

  /** The entry a Video contributes: only one with a Session child whose id is non-empty. */
  function SessionOf(video: Element): (r: Option<Session>)
    ensures r.Some? <==> FindSession(video).Some? && Truthy(Attr(FindSession(video).value, "id"))
    ensures r.Some? ==> Some(r.value.sessionKey) == Attr(FindSession(video).value, "id")
    ensures r.Some? ==> r.value.ratingKey == Attr(video, "ratingKey") && r.value.title == Attr(video, "title")
    ensures r.Some? && FindPlayer(video).None? ==> r.value.player.None?
    ensures r.Some? && FindPlayer(video).Some? ==> r.value.player == Attr(FindPlayer(video).value, "title")
  {
    match FindSession(video)
    case None => None
    case Some(session) =>
      var id := Attr(session, "id");
      if !Truthy(id) then None
      else
        var player := match FindPlayer(video) case None => None case Some(p) => Attr(p, "title");
        Some(Session(Attr(video, "ratingKey"), id.value, Attr(video, "title"), player))
  }

  /** The sessions of a sequence of Videos, in order. */
  function SessionsOf(videos: seq<Element>): (r: seq<Session>)
    ensures |r| <= |videos|
    ensures forall s :: s in r ==> s.sessionKey != ""
  {
    if videos == [] then []
    else
      var init := SessionsOf(videos[..|videos| - 1]);
      match SessionOf(videos[|videos| - 1])
      case None => init
      case Some(s) => init + [s]
  }

  /** The last Video's session, if any, is appended after the earlier ones. */
  lemma SessionsOfSnoc(videos: seq<Element>)
    requires videos != []
    ensures SessionsOf(videos) == SessionsOf(videos[..|videos| - 1]) + OptionToSeq(SessionOf(videos[|videos| - 1]))
  {
  }

  function OptionToSeq<T>(o: Option<T>): seq<T> {
    if o.Some? then [o.value] else []
  }

  /** A session is listed iff some Video contributes it. */
  lemma {:induction false} SessionsOfMembers(videos: seq<Element>, s: Session)
    ensures s in SessionsOf(videos) <==> exists i :: 0 <= i < |videos| && SessionOf(videos[i]) == Some(s)
  {
    if videos != [] {
      var n := |videos| - 1;
      var init := videos[..n];
      SessionsOfMembers(init, s);
      SessionsOfSnoc(videos);
      assert s in SessionsOf(videos) <==> s in SessionsOf(init) || SessionOf(videos[n]) == Some(s);
      assert forall i :: 0 <= i < n ==> init[i] == videos[i];
    }
  }

  /** The Videos `root.findall(".//Video")` returns. */
  function VideosOf(root: Element): seq<Element> {
    AllTagged(Descendants(root), "Video")
  }

  /** `get_active_sessions()`: every error, and an unparseable body, gives `[]`. */
  method GetActiveSessions(fetched: Fetched) returns (sessions: seq<Session>)
    ensures fetched.Err? || fetched.value.None? ==> sessions == []
    ensures fetched.Ok? && fetched.value.Some? ==> sessions == SessionsOf(VideosOf(fetched.value.value))
  {
    if fetched.Err? || fetched.value.None? {
      return [];
    }
    var videos := VideosOf(fetched.value.value);
    sessions := [];
    var i := 0;
    while i < |videos|
      invariant 0 <= i <= |videos|
      invariant sessions == SessionsOf(videos[..i])
    {
      assert videos[..i + 1][..i] == videos[..i];
      var s := SessionOf(videos[i]);
      if s.Some? {
        sessions := sessions + [s.value];
      }
      i := i + 1;
    }
    assert videos[..i] == videos;
  }

  /** The PUT that selects a subtitle stream: `/library/parts/{part}` with `subtitleStreamID`. */
  datatype PutPlan = PutPlan(endpoint: string, subtitleStreamId: string)

  function PartPut(partId: string, subtitleId: string): (p: PutPlan)
    ensures StartsWith(p.endpoint, "/library/parts/") && p.endpoint[|"/library/parts/"|..] == partId
    ensures p.subtitleStreamId == subtitleId
  {
    assert ("/library/parts/" + partId)[..|"/library/parts/"|] == "/library/parts/";
    assert ("/library/parts/" + partId)[|"/library/parts/"|..] == partId;
    PutPlan("/library/parts/" + partId, subtitleId)
  }

  /** What a selection call did: its result (an error other than `PlexAPIError` escapes),
      and the PUT it sent, if it got that far. */
  datatype Selection = Selection(result: Result<bool, Error>, sent: Option<PutPlan>)

  /** A PUT's answer: `PlexAPIError` becomes `False`, anything else escapes. */
  function PutAnswer(reply: Result<(), Error>): (r: Result<bool, Error>)
    ensures r == Ok(true) <==> reply.Ok?
    ensures r == Ok(false) <==> reply.Err? && reply.error.kind == PlexAPIError
  {
    match reply
    case Ok(_) => Ok(true)
    case Err(e) => if e.kind == PlexAPIError then Ok(false) else Err(e)
  }

  /** The PUT the part/stream lookup of `video` justifies, if any. */
  function PlanFor(video: Element, language: string): (r: Option<PutPlan>)
    ensures r.Some? <==> Truthy(PartStreamInfoOf(video, language).partId) && Truthy(PartStreamInfoOf(video, language).subtitleId)
    ensures r.Some? ==> r.value == PartPut(PartIdOf(video).value, FindSubtitleStreamId(PartOf(video).value, language).value)
  {
    var info := PartStreamInfoOf(video, language);
    if Truthy(info.partId) && Truthy(info.subtitleId) then Some(PartPut(info.partId.value, info.subtitleId.value))
    else None
  }

  /** `set_subtitle_stream(rating_key, language)`. */
  function SetSubtitleStream(fetched: Fetched, language: string, reply: Result<(), Error>): (s: Selection)
    ensures s.sent.Some? <==>
      fetched.Ok? && fetched.value.Some? && FindVideo(fetched.value.value).Some?
      && PlanFor(FindVideo(fetched.value.value).value, language).Some?
    ensures s.sent.Some? ==> s.sent == PlanFor(FindVideo(fetched.value.value).value, language) && s.result == PutAnswer(reply)
    ensures s.sent.None? && fetched.Err? && fetched.error.kind != PlexAPIError ==> s.result == Err(fetched.error)
    ensures s.sent.None? && !(fetched.Err? && fetched.error.kind != PlexAPIError) ==> s.result == Ok(false)
  {
    match fetched
    case Err(e) => Selection(if e.kind == PlexAPIError then Ok(false) else Err(e), None)
    case Ok(None) => Selection(Ok(false), None)
    case Ok(Some(root)) =>
      match FindVideo(root)
      case None => Selection(Ok(false), None)
      case Some(video) =>
        match PlanFor(video, language)
        case None => Selection(Ok(false), None)
        case Some(plan) => Selection(PutAnswer(reply), Some(plan))
  }

  /** The first listed session on `ratingKey`. */
  function SessionFor(sessions: seq<Session>, ratingKey: string): (r: Option<Session>)
    ensures r.None? <==> forall i :: 0 <= i < |sessions| ==> sessions[i].ratingKey != Some(ratingKey)
    ensures r.Some? ==> r.value in sessions && r.value.ratingKey == Some(ratingKey)
    ensures r.Some? ==>
      exists k :: 0 <= k < |sessions| && sessions[k] == r.value && forall j :: 0 <= j < k ==> sessions[j].ratingKey != Some(ratingKey)
  {
    if sessions == [] then None
    else if sessions[0].ratingKey == Some(ratingKey) then Some(sessions[0])
    else SessionFor(sessions[1..], ratingKey)
  }

  /** The first Video of the session document playing `ratingKey`. */
  function VideoFor(videos: seq<Element>, ratingKey: string): (r: Option<Element>)
    ensures r.None? <==> forall i :: 0 <= i < |videos| ==> Attr(videos[i], "ratingKey") != Some(ratingKey)
    ensures r.Some? ==> r.value in videos && Attr(r.value, "ratingKey") == Some(ratingKey)
    ensures r.Some? ==>
      exists k :: 0 <= k < |videos| && videos[k] == r.value && forall j :: 0 <= j < k ==> Attr(videos[j], "ratingKey") != Some(ratingKey)
  {
    if videos == [] then None
    else if Attr(videos[0], "ratingKey") == Some(ratingKey) then Some(videos[0])
    else VideoFor(videos[1..], ratingKey)
  }

  /** The PUT a session Video justifies: it needs a Player with a machine identifier, a
      part id and a matching stream. */
  function SessionPlan(video: Element, language: string): (r: Option<PutPlan>)
    ensures r.Some? ==> FindPlayer(video).Some? && Truthy(Attr(FindPlayer(video).value, "machineIdentifier"))
    ensures r.Some? <==>
      FindPlayer(video).Some? && Truthy(Attr(FindPlayer(video).value, "machineIdentifier")) && PlanFor(video, language).Some?
  {
    match FindPlayer(video)
    case None => None
    case Some(player) =>
      if !Truthy(Attr(player, "machineIdentifier")) then None else PlanFor(video, language)
  }

  /** `set_active_session_subtitle(rating_key, language)`: `listed` is the GET inside
      `get_active_sessions`, `details` the second GET of `/status/sessions`. */
  function SetActiveSessionSubtitle(listed: Fetched, details: Fetched, ratingKey: string, language: string,
                                    reply: Result<(), Error>): (s: Selection)
    ensures s.sent.Some? ==>
      var sessions := if listed.Ok? && listed.value.Some? then SessionsOf(VideosOf(listed.value.value)) else [];
      && SessionFor(sessions, ratingKey).Some?
      && details.Ok? && details.value.Some?
      && VideoFor(VideosOf(details.value.value), ratingKey).Some?
      && s.sent == SessionPlan(VideoFor(VideosOf(details.value.value), ratingKey).value, language)
      && s.result == PutAnswer(reply)
    ensures s.sent.None? ==> s.result == Ok(false) || (details.Err? && s.result == Err(details.error) && details.error.kind != PlexAPIError)
    ensures s.result == Ok(true) ==> s.sent.Some?
    ensures
      var sessions := if listed.Ok? && listed.value.Some? then SessionsOf(VideosOf(listed.value.value)) else [];
      s.sent.Some? <==>
        && SessionFor(sessions, ratingKey).Some?
        && details.Ok? && details.value.Some?
        && VideoFor(VideosOf(details.value.value), ratingKey).Some?
        && SessionPlan(VideoFor(VideosOf(details.value.value), ratingKey).value, language).Some?
    ensures
      var sessions := if listed.Ok? && listed.value.Some? then SessionsOf(VideosOf(listed.value.value)) else [];
      s.sent.None? ==>
        if SessionFor(sessions, ratingKey).Some? && details.Err? && details.error.kind != PlexAPIError
        then s.result == Err(details.error)
        else s.result == Ok(false)
  {
    var sessions := if listed.Ok? && listed.value.Some? then SessionsOf(VideosOf(listed.value.value)) else [];
    if SessionFor(sessions, ratingKey).None? then Selection(Ok(false), None)
    else
      match details
      case Err(e) => Selection(if e.kind == PlexAPIError then Ok(false) else Err(e), None)
      case Ok(None) => Selection(Ok(false), None)
      case Ok(Some(root)) =>
        match VideoFor(VideosOf(root), ratingKey)
        case None => Selection(Ok(false), None)
        case Some(video) =>
          match SessionPlan(video, language)
          case None => Selection(Ok(false), None)
          case Some(plan) => Selection(PutAnswer(reply), Some(plan))
  }

  /** Without an active session for the item, nothing is asked of the server again. */
  lemma NoSessionNoPut(listed: Fetched, details: Fetched, ratingKey: string, language: string, reply: Result<(), Error>)
    requires listed.Err? || listed.value.None?
    ensures SetActiveSessionSubtitle(listed, details, ratingKey, language, reply) == Selection(Ok(false), None)
  {
  }
}
