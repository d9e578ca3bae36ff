# plexsubs, modelled in Dafny

plexsubs is a service that Plex calls through a webhook when playback starts or
resumes. It looks for subtitles for the media file being played. It asks every
configured subtitle provider (OpenSubtitles) for candidates and ranks them. It
decides whether a subtitle already next to the file may be replaced, downloads and
language-checks the winner with retries, and then makes Plex pick the new subtitle.

This project models the decision logic of plexsubs and proves what that logic
promises. Each source file of the core becomes one Dafny module:

- `SubtitleManager` (`subtitle_manager.dfy`) is the acquisition pipeline:
  - the probe for existing subtitles and the first-language skip;
  - pooling the providers' candidates;
  - the stable ranking by perfect match, download count and score;
  - the upgrade gates;
  - eligibility of candidates once a subtitle exists;
  - the retried download-and-verify unit and the success record;
  - the loop over the configured languages.
- `ReleaseMatcher` (`release_matcher.dfy`): the release fingerprint and the substring-count match score. A score is a pair (matches, total).
- `Retry` (`retry.dfy`): `retry_with_backoff`, a bounded attempt loop with exponential backoff and delays in milliseconds.
- `Webhook` (`webhook.dfy`): the reply to one webhook event, the Plex calls it makes, and the two-tier subtitle activation (the active session first, retried; otherwise the default stream once).
- `PlexClient` (`plex_client.dfy`) and `Xml` (`xml.dfy`): the XML element tree, the `find_*` queries, the lazily initialised `MediaPartNavigator` class, and what the Plex client reads from metadata and session documents before it sends a subtitle-selection PUT.
- `ProviderBase`, `OpenSubtitles` and `ProviderRegistry` (`providers_base.dfy`, `opensubtitles.dfy`, `registry.dfy`), each with its own rules:
  - the `SubtitleResult` record and the provider-name rule;
  - the OpenSubtitles token cache, a class with the token and its expiry, where the clock is a parameter;
  - the request wrapper with its single re-authentication;
  - the search query and the result filter;
  - the retried download;
  - the provider registry, a class over an ordered dictionary.
- `HttpClient` (`http_client.dfy`): base-URL normalisation, URL joining, the timeout and method checks, error wrapping, and the token-bearing client (a class).
- `Validators` and `PathUtils` (`validators.dfy`, `path_utils.dfy`): the configuration validators and the path-mapping rules. Prefix matching of path mappings ignores path component boundaries, exactly as the code does; `PathUtils.PrefixWithoutBoundary` exhibits it.
- `Discovery` (`discovery.dfy`): the path-validation report, its advice, and the mapping suggestions.
- `ApiErrors` (`api_errors.dfy`): how an exception becomes an HTTP status and error code.
- `LoggingConfig` (`logging_config.dfy`): the package tag of a logger name and the console line format. Because "plexsubs" is the first key of the tag table, every unlisted logger name of the package resolves to CORE; `LoggingConfig.ValidatorsModuleIsCore` proves this for the validators module.
- Shared modules:
  - `Wrappers`: Option and Result.
  - `Strings`: ASCII string operations.
  - `OrderedMaps`: Python's insertion-ordered `dict`, as a sequence of pairs.
  - `Exceptions`: the exception classes and their subclass relation.
  - `PosixPath`: the `os.path` operations on media paths.
  - `Constants`.

Collaborators are inputs, not code. These include:
- each provider's search answer and what every download attempt does;
- the language detector's verdict;
- the filesystem, as the set of existing paths;
- the filename guesser's fields;
- the Plex server's replies;
- the HTTP transport's answer;
- whether the process runs in a container.

Operations that update state in place are methods of classes, with `modifies` clauses:
- the registry;
- the navigator;
- the authenticated client;
- the OpenSubtitles provider.

Loops are methods proved equal to a specification function. Lemmas then prove what the source promises about that function.

The model follows the code throughout. For instance, when `_try_download` keeps an existing subtitle because a gate refuses the upgrade, it reports failure, and `download_subtitles` then goes on to the next configured language. `SubtitleManager.GatedLanguageFallsThrough` proves this.

## Model

| member | source | states |
|---|---|---|
| ApiErrors.StatusFromMessage | plexsubs/api/errors.py:62-75 | the status picked from a message is always one of 400, 401, 404, 500 or 504 |
| ApiErrors.StatusIsFirstRule | plexsubs/api/errors.py:62-75 | the status is that of the first keyword rule (not found / no suitable, unauthorized / authentication, invalid / bad request, timeout) that the lower-cased message mentions, and it is 500 exactly when no rule fires |
| ApiErrors.StatusIgnoresCase | plexsubs/api/errors.py:64 | upper-casing or lower-casing the message never changes the chosen status |
| ApiErrors.CreateErrorResponse | plexsubs/api/errors.py:42-59 | the body carries the message, the code and the details as given, and the status is one of the five keyword statuses |
| ApiErrors.CreatedStatusIgnoresCode | plexsubs/api/errors.py:42-59 | the status depends on the message only, never on the error code or the details |
| ApiErrors.HandleException | plexsubs/api/errors.py:78-110 | an exception whose exact class is in the handler table gets that table's status and code; any other gets 500 with PLEXSUBS_ERROR when it belongs to the project's hierarchy and INTERNAL_ERROR otherwise; the body always carries the exception's message and no details |
| ApiErrors.TableCoversSubclasses | plexsubs/api/errors.py:30-39 | the table has an entry for exactly the strict subclasses of the project's base error |
| ApiErrors.OpenSubtitlesExact | plexsubs/api/errors.py:93-95 | an OpenSubtitles error is answered with its own 503 OPENSUBTITLES_ERROR entry, not its base class's PROVIDER_ERROR entry, because the lookup is on the exact class |
| ApiErrors.GenericCodes | plexsubs/api/errors.py:92-110 | the base project error gets 500 PLEXSUBS_ERROR and a foreign exception gets 500 INTERNAL_ERROR |
| ApiErrors.OutsideHierarchy | plexsubs/utils/exceptions.py:4-58 | an exception kind belongs to the project's hierarchy exactly when it is not one of the built-in or library kinds |
| ApiErrors.Mro | plexsubs/utils/exceptions.py:4-58 | the class chain of an exception starts with its own class and lists only classes it is an instance of |
| ApiErrors.HandlerFor | plexsubs/api/errors.py:181-197 | no handler is found exactly when no class on the chain has one registered |
| ApiErrors.ChainOfSubclass | plexsubs/api/errors.py:194-197 | every exception of the project's hierarchy has the base project error on its class chain, so the generic handler can catch it |
| ApiErrors.ChainOutsideHierarchy | plexsubs/api/errors.py:181-197 | a foreign exception's class chain contains no class of the project's hierarchy |
| ApiErrors.Dispatch | plexsubs/api/errors.py:161-197 | whenever a registered handler catches an exception, the reply is the one handle_exception builds for it |
| ApiErrors.DispatchCoversHierarchy | plexsubs/api/errors.py:181-197 | the registered handlers catch exactly the exceptions of the project's hierarchy |
| ApiErrors.Guarded | plexsubs/api/errors.py:113-155 | a wrapped endpoint returns its value when it succeeds and otherwise answers with handle_exception's response for the raised error |
| Discovery.TestSinglePath | plexsubs/core/discovery.py:128-160 | the result records the Plex path and its mapped local path; a probe that answers copies its five flags and sets an error exactly when the path does not exist; a probe that raises gives all flags false and an "Error testing path" message |
| Discovery.Count | plexsubs/core/discovery.py:104-114 | a tally of the tests with one flag never exceeds the number of tests |
| Discovery.CountExtremes | plexsubs/core/discovery.py:104-119 | the tally equals the number of tests exactly when every test has the flag, and is zero exactly when none has it |
| Discovery.UnixPrefix | plexsubs/core/discovery.py:225-227 | the prefix taken from a Plex path is a slash followed by one slash-free component |
| Discovery.AddNew | plexsubs/core/discovery.py:222-227 | adding a prefix to the collected set yields exactly the old members plus the new one |
| Discovery.Dedup | plexsubs/core/discovery.py:222-227 | the collected prefixes hold no duplicates |
| Discovery.DedupMembers | plexsubs/core/discovery.py:222-227 | collecting keeps exactly the members of the input |
| Discovery.PlexPrefixes | plexsubs/core/discovery.py:223-227 | one prefix per missing test, taken from that test's Plex path |
| Discovery.PlexPrefixesMembers | plexsubs/core/discovery.py:223-227 | a prefix is listed exactly when some test's Plex path has it |
| Discovery.NotFoundMembers | plexsubs/core/discovery.py:213 | the not-found list holds exactly the tests whose path does not exist, and is empty exactly when every path exists |
| Discovery.MissingPrefixesExact | plexsubs/core/discovery.py:213-234 | the prefixes named in the advice are exactly the prefixes of the Plex paths that were not found |
| Discovery.AdviceForPrefixesKinds | plexsubs/core/discovery.py:229-241 | advice for missing paths starts with the prefix list, holds the container hint exactly when running in a container, and never says all is working |
| Discovery.WithAccessAdvice | plexsubs/core/discovery.py:243-267 | the unreadable hint is added exactly when some existing path is unreadable, the unwritable hint exactly when some existing path is unwritable, the all-working note exactly when every path exists and is readable; earlier advice is kept in front |
| Discovery.CollectPrefixes | plexsubs/core/discovery.py:222-227 | the loop collects the deduplicated prefixes of the missing tests |
| Discovery.MissingSuggestions | plexsubs/core/discovery.py:221-241 | the loop produces the missing-path advice |
| Discovery.GenerateSuggestions | plexsubs/core/discovery.py:208-269 | the method produces the advice list the reference definition gives for the tests |
| Discovery.MissingAdviceShape | plexsubs/core/discovery.py:221-241 | no missing path gives no advice; otherwise the prefix list comes first, and the container hint appears exactly when running in a container |
| Discovery.AccessAdviceAllPassed | plexsubs/core/discovery.py:249-267 | when every path exists and is readable, the advice is the optional unwritable hint, then the all-working note, then whether all paths are writable |
| Discovery.AllWorkingIff | plexsubs/core/discovery.py:208-269 | for a non-empty test list the all-working note appears exactly when every path exists and is readable, and the whole advice list is then fixed |
| Discovery.MissingPrefixesAdvice | plexsubs/core/discovery.py:213-241 | when some path is missing, the advice opens with the missing prefixes and holds the container hint exactly when running in a container |
| Discovery.FirstThree | plexsubs/core/discovery.py:179 | the samples taken from one library are its first items: exactly three of them, or all of them when there are fewer than three |
| Discovery.SamplePathsFromLibraries | plexsubs/core/discovery.py:162-186 | the loop gathers the sample paths of the reference definition, and none when listing the libraries fails |
| Discovery.SamplesOrigin | plexsubs/core/discovery.py:169-179 | at most three samples per library, each among the first three items of a movie or show library |
| Discovery.TestsFor | plexsubs/core/discovery.py:99-101 | one test per path, in order, each the single-path test of that path |
| Discovery.TestEach | plexsubs/core/discovery.py:99-101 | the loop tests every path in order |
| Discovery.ValidatePathMappings | plexsubs/core/discovery.py:67-126 | the report is the one the reference definition gives for the given paths, or for the library samples when none are given |
| Discovery.NothingToTest | plexsubs/core/discovery.py:85-96 | with nothing to test the report is invalid, has no tests, a zero total/passed/failed summary and the no-media advice |
| Discovery.SummaryCounts | plexsubs/core/discovery.py:103-114 | the summary keys come in the source's order; total is the number of tests, passed counts the existing readable ones, failed is the rest, and every count is at most the total |
| Discovery.ReportCounts | plexsubs/core/discovery.py:98-126 | with paths to test, the report has one test per path in order and is valid exactly when every test passed |
| Discovery.LocationPrefix | plexsubs/core/discovery.py:289-297 | an absolute path gives "/" and its first component; otherwise a path with a colon gives exactly the text up to and including its first colon, as `path.split(":")[0] + ":"`; anything else gives no prefix |
| Discovery.PathsOf | plexsubs/core/discovery.py:286-287 | the paths of a library's locations, in order |
| Discovery.PresentPrefixesMembers | plexsubs/core/discovery.py:284-297 | a prefix is collected exactly when some location path yields it |
| Discovery.PrefixesOf | plexsubs/core/discovery.py:284-297 | the collected location prefixes hold no duplicates |
| Discovery.PrefixesOfMembers | plexsubs/core/discovery.py:284-297 | the collected set is exactly the prefixes that the location paths yield |
| Discovery.FirstMount | plexsubs/core/discovery.py:325-326 | the chosen mount is a directory among the common mounts, and none is chosen exactly when no common mount is a directory |
| Discovery.MappingSuggestion | plexsubs/core/discovery.py:312-372 | a suggestion is always for the prefix asked about |
| Discovery.MappingSuggestionCases | plexsubs/core/discovery.py:312-372 | an already mapped prefix gets nothing; in a container there is always a suggestion and never a high-confidence one; outside one there is a suggestion exactly when the prefix or a common mount is a local directory; high confidence exactly for an unmapped, local, existing prefix outside a container; the suggested local prefix is the prefix itself, the container default or an existing common mount |
| Discovery.SuggestionsOf | plexsubs/core/discovery.py:302-305 | at most one suggestion per prefix, each for a listed prefix and the one the single-prefix rule gives |
| Discovery.AddLocationPrefixes | plexsubs/core/discovery.py:286-297 | the loop adds the prefixes of one library's locations to the collected set |
| Discovery.CollectLocationPrefixes | plexsubs/core/discovery.py:284-297 | the loops collect the prefixes of every library location |
| Discovery.SuggestEach | plexsubs/core/discovery.py:302-305 | the loop keeps the suggestions the single-prefix rule gives |
| Discovery.SuggestPathMappings | plexsubs/core/discovery.py:271-310 | the method returns the suggestions the reference definition gives |
| Discovery.SuggestionsAreForUnmappedPrefixes | plexsubs/core/discovery.py:271-310 | a failed library listing gives no suggestions; every suggestion is for an unmapped prefix that some library location yields |
| Discovery.MappedPrefixSkipped | plexsubs/core/discovery.py:318-320 | no suggestion is ever made for a prefix that is already mapped |
| Exceptions.EveryKindIsAnException | plexsubs/utils/exceptions.py:4-58 | every exception kind of the model, the project's and the foreign ones, is an instance of the base exception class |
| OrderedMaps.GetSpec | plexsubs/providers/registry.py:58 | a dictionary lookup finds nothing exactly when the key is absent, and what it finds is stored under that key |
| OrderedMaps.PutGet | plexsubs/providers/registry.py:42 | after storing a value under a key, that key reads back the value and every other key reads as before |
| OrderedMaps.PutKeys | plexsubs/providers/registry.py:42 | storing under an existing key keeps the key order; a new key is appended at the end, as Python dictionaries keep insertion order |
| OrderedMaps.PutUnique | plexsubs/providers/registry.py:42 | storing keeps the keys distinct |
| OrderedMaps.RemoveGet | plexsubs/providers/registry.py:79-80 | after deleting a key it reads as absent and every other key reads as before |
| OrderedMaps.RemoveKeys | plexsubs/providers/registry.py:79-80 | deleting a key leaves the other keys in their order |
| HttpClient.JoinUrlOneSlash | plexsubs/utils/http_client.py:89 | joining the stripped base URL with an endpoint puts exactly one slash between them: the base keeps its text, no slash precedes the join and none follows it |
| HttpClient.ParseMethodAccepts | plexsubs/utils/http_client.py:94-116 | a method name is accepted exactly when its upper-cased form is GET, POST, PUT or DELETE, whatever its case |
| HttpClient.AuthenticatedClient.constructor | plexsubs/utils/http_client.py:172-192 | the base URL is stored without trailing slashes, the timeout, token and header settings as given |
| HttpClient.AuthenticatedClient.Headers | plexsubs/utils/http_client.py:194-199 | there is an authentication header exactly when the token is set and non-empty, and it is the header name with the prefixed token |
| HttpClient.AuthenticatedClient.PlanRequest | plexsubs/utils/http_client.py:89-116 | an unsupported method is refused with its upper-cased name; otherwise the request goes to the joined URL with the client's headers and the given timeout, or the client's when none or zero is given |
| HttpClient.AuthenticatedClient.MakeRequest | plexsubs/utils/http_client.py:63-123 | a bad method is refused; a reply with a 4xx or 5xx status becomes a PlexAPIError "Request failed" with the status line naming the reply's final URL; a transport failure from the request library becomes a PlexAPIError with its message; any other reply is returned; every failure is a PlexAPIError unless a foreign error passes through |
| HttpClient.AuthenticatedClient.SetToken | plexsubs/utils/http_client.py:201-203 | the token is replaced and nothing else changes; the headers then carry that token unless it is empty |
| HttpClient.AuthenticatedClient.ClearToken | plexsubs/utils/http_client.py:205-207 | the token is cleared and nothing else changes; no authentication header is sent any more |
| ProviderRegistry.Registry.constructor | plexsubs/providers/registry.py:17 | the registry starts empty |
| ProviderRegistry.Registry.GetProviderClass | plexsubs/providers/registry.py:49-58 | the lookup finds nothing exactly when the name is not registered, and otherwise the class registered under it |
| ProviderRegistry.Registry.Register | plexsubs/providers/registry.py:38-46 | the class is returned and registered under the name; a warning is given exactly when the name was already taken, in which case the name order is kept, and otherwise the name is appended; every other name keeps its class |
| ProviderRegistry.Registry.GetAllProviderClasses | plexsubs/providers/registry.py:61-67 | the copy holds the same entries in the same order |
| ProviderRegistry.Registry.Unregister | plexsubs/providers/registry.py:70-83 | the answer is true exactly when the name was registered; afterwards it is not, and every other name keeps its class |
| ProviderRegistry.Registry.Clear | plexsubs/providers/registry.py:86-89 | the registry is empty and lists no names |
| ProviderRegistry.Registry.ListedNames | plexsubs/providers/registry.py:118 | the listed names are the registered names in registration order |
| ProviderRegistry.Registry.ListProviders | plexsubs/providers/registry.py:112-118 | returns the registered names in registration order |
| ProviderRegistry.Registry.CreateProvider | plexsubs/providers/registry.py:92-109 | an unregistered name is refused with a ValueError naming it; a registered one gives an instance of its class |
| ProviderRegistry.RemoveKeepsUnique | plexsubs/providers/registry.py:79-80 | deleting keeps the names distinct and adds no entry |
| ProviderRegistry.RemoveAbsent | plexsubs/providers/registry.py:79-83 | deleting a name that is not registered changes nothing |
| LoggingConfig.GetPackageName | plexsubs/utils/logging_config.py:31-35 | a logger name listed in the package table gets that entry's tag |
| LoggingConfig.PackageNameIsTableTag | plexsubs/utils/logging_config.py:31-43 | the tag of any logger name is one of the tags of the package table |
| LoggingConfig.KeysUnderPackage | plexsubs/utils/logging_config.py:20-28 | every key of the package table starts with the first key, the bare package name |
| LoggingConfig.PrefixSearchFindsCore | plexsubs/utils/logging_config.py:38-40 | whenever the prefix search hits, it hits the bare package entry first and yields CORE |
| LoggingConfig.PackageNameRule | plexsubs/utils/logging_config.py:31-43 | the tag is the exact table entry when the name is a key and CORE otherwise |
| LoggingConfig.ValidatorsModuleIsCore | plexsubs/utils/logging_config.py:31-43 | a module below the config package that is not itself a key, such as the validators module, is tagged CORE and not CONFIG |
| LoggingConfig.EveryPackageHasColour | plexsubs/utils/logging_config.py:58 | the colour lookup for any logger's tag always finds an entry of the colour table |
| LoggingConfig.PackageTagsHaveColours | plexsubs/utils/logging_config.py:8-28 | every tag of the package table has an entry in the colour table |
| LoggingConfig.ColourOf | plexsubs/utils/logging_config.py:58 | a tag with a colour gets it, any other tag gets the CORE colour |
| LoggingConfig.Paint | plexsubs/utils/logging_config.py:62-65 | without colours the text is left unchanged |
| LoggingConfig.FormatLine | plexsubs/utils/logging_config.py:53-82 | the formatted line always ends with the message, after a non-empty prefix |
| LoggingConfig.PlainLines | plexsubs/utils/logging_config.py:65-80 | without colours a line is the bracketed tag and the message, with an [ERROR] marker from the error level up and a [WARN] marker from the warning level up to the error level |
| LoggingConfig.StripAnsi | plexsubs/utils/logging_config.py:8-17 | removing terminal colour codes never lengthens a string |
| LoggingConfig.StripCode | plexsubs/utils/logging_config.py:8-17 | a colour code in front of a string is removed entirely |
| LoggingConfig.StripPlain | plexsubs/utils/logging_config.py:8-17 | text without an escape character passes through unchanged |
| LoggingConfig.TableHoldsCodes | plexsubs/utils/logging_config.py:8-17 | every value of the colour table is a terminal colour code |
| LoggingConfig.ColoursAreCodes | plexsubs/utils/logging_config.py:58 | the colour chosen for any tag is a terminal colour code |
| LoggingConfig.StripPaint | plexsubs/utils/logging_config.py:63 | removing the codes from painted text gives back the text |
| LoggingConfig.StripTaggedLine | plexsubs/utils/logging_config.py:71-78 | removing the codes from a coloured warning or error line gives the plain line |
| LoggingConfig.StripUntaggedLine | plexsubs/utils/logging_config.py:79-80 | removing the codes from a coloured line below the warning level gives the plain line |
| LoggingConfig.ColoursOnlyDecorate | plexsubs/utils/logging_config.py:53-82 | a coloured line with its colour codes removed is exactly the line formatted without colours |
| LoggingConfig.LogRecord.constructor | plexsubs/utils/logging_config.py:68 | a record holds its logger name, level and rendered message, and no formatted message yet |
| LoggingConfig.ColoredFormatter.constructor | plexsubs/utils/logging_config.py:49-51 | colours are used only when asked for and standard output is a terminal |
| LoggingConfig.ColoredFormatter.Format | plexsubs/utils/logging_config.py:53-82 | the record's message is set to its rendered text, and the result is the line for the record's tag, level and message |
| OpenSubtitles.FromBaseClient | plexsubs/utils/http_client.py:121-123 | an error raised by the base client never carries an HTTP response status |
| OpenSubtitles.BaseClientHidesUnauthorized | plexsubs/providers/opensubtitles.py:162-179 | as written, no failure of the base client meets the 401 guard, so the re-authentication branch never runs |
| OpenSubtitles.OpenSubtitlesProvider.MakeRequestThroughBaseClient | plexsubs/providers/opensubtitles.py:162-179 | as written, behind the base client every failed request is sent once only and ends as "Request failed: " followed by the base client's message, with no second login |
| OpenSubtitles.FromHttpResponse | plexsubs/providers/opensubtitles.py:162-165 | the corrected client keeps the value of a success and, on failure, both the error and the status of the failed response |
| OpenSubtitles.UnauthorizedReachesGuard | plexsubs/providers/opensubtitles.py:164-165 | with the response kept, a 401 failure meets the guard of the re-authentication branch |
| OpenSubtitles.SearchParams | plexsubs/providers/opensubtitles.py:197-206 | the query always starts with the language; a non-empty IMDB id is the only other parameter; otherwise the title follows and the year is added exactly when it is set and non-zero |
| OpenSubtitles.ToResult | plexsubs/providers/opensubtitles.py:232-242 | a hit becomes a result in the requested language from this provider, with the first file's id as id and download parameter, the download count or 0, no perfect match and a zero score |
| OpenSubtitles.FilterResults | plexsubs/providers/opensubtitles.py:220-243 | the loop keeps the results the reference filter gives |
| OpenSubtitles.FilteredAppend | plexsubs/providers/opensubtitles.py:220-243 | filtering two lists one after the other is filtering their concatenation |
| OpenSubtitles.FilteredMembers | plexsubs/providers/opensubtitles.py:220-243 | every result comes from a hit in an allowed language with at least one file, every such hit gives a result, and there are never more results than hits |
| OpenSubtitles.DownloadPayload | plexsubs/providers/opensubtitles.py:262 | the stored download parameters are sent when present and non-empty, otherwise the result's id as file id |
| OpenSubtitles.Download | plexsubs/providers/opensubtitles.py:289-314 | the answer is true exactly when the retried download ends in success; it never makes more than three attempts |
| OpenSubtitles.CallsAtMost | plexsubs/providers/opensubtitles.py:306-311 | the download is attempted at most three times |
| OpenSubtitles.LinkErrorNotRetried | plexsubs/providers/opensubtitles.py:306-311 | a provider error while asking for the link is not among the retried exceptions: one attempt, and the download fails |
| OpenSubtitles.FetchFailuresExhaust | plexsubs/providers/opensubtitles.py:274-275 | when every fetch of the file fails with an HTTP error, all three attempts are made and the download fails |
| OpenSubtitles.OpenSubtitlesProvider.constructor | plexsubs/providers/opensubtitles.py:37-64 | the provider starts enabled as asked, with the API base URL, a bearer authorization header, no token, the default timeout, the given credentials and an expired token clock |
| OpenSubtitles.OpenSubtitlesProvider.Authenticate | plexsubs/providers/opensubtitles.py:81-122 | a fresh non-empty token is reused without a login; otherwise the login's token is stored with an expiry 23 hours on, or a transport failure is reported as an authentication failure and the state is kept |
| OpenSubtitles.OpenSubtitlesProvider.MakeRequest | plexsubs/providers/opensubtitles.py:124-179 | a request is sent at most twice, a second time only after a 401; a failed first login sends nothing and raises the authentication error; a success is returned; any other failure becomes "Request failed"; on a 401 a failed second login raises its error after one send, and a working one replaces the token and resends once, returning the second reply or its failure as "Request failed" |
| OpenSubtitles.OpenSubtitlesProvider.Search | plexsubs/providers/opensubtitles.py:181-250 | a disabled provider returns nothing and touches nothing; a failed first login raises before any query; otherwise the query parameters are those of the title, year, IMDB id and language, a success returns the filtered hits of the reply that answered (the resent one after a 401) with the current token, and a failed request, a failed re-login included, becomes "Search failed: " with the request's message |
| PathUtils.FirstMatch | plexsubs/utils/path_utils.py:19-20 | the chosen mapping is the first, in dictionary order, whose source is a prefix of the path; none is chosen exactly when no source is a prefix |
| PathUtils.ApplyPathMappings | plexsubs/utils/path_utils.py:9-22 | a path no mapping matches is returned unchanged; otherwise the first matching source is replaced by its target and the rest of the path kept |
| PathUtils.PrefixWithoutBoundary | plexsubs/utils/path_utils.py:20-21 | the prefix test ignores component boundaries: a mapping of /media also rewrites /mediaextra |
| PathUtils.OnlyLeadingReplaced | plexsubs/utils/path_utils.py:21 | only the leading occurrence of the source is replaced, even when it occurs again later in the path |
| PathUtils.ParsePathMappings | plexsubs/utils/path_utils.py:25-45 | the loop gives the reference parse, which is never empty and has distinct keys |
| PathUtils.CollectDropsNoColon | plexsubs/utils/path_utils.py:41 | an entry without a colon adds nothing |
| PathUtils.CollectLastWins | plexsubs/utils/path_utils.py:42-43 | the last entry for a source decides its target, both stripped of surrounding blanks |
| PathUtils.FirstColonAt | plexsubs/utils/path_utils.py:42 | an entry is split at its first colon, so a target may itself contain colons |
| PathUtils.DefaultWhenNothingParsed | plexsubs/utils/path_utils.py:36-45 | a value without any colon gives the default mappings |
| PathUtils.CollectNoColons | plexsubs/utils/path_utils.py:40-43 | entries cut from a value without colons yield no mapping |
| PosixPath.LastIndex | plexsubs/core/subtitle_manager.py:129-130 | the index found holds the character and no later position does; none is found exactly when the character is absent |
| PosixPath.TailStart | plexsubs/core/subtitle_manager.py:129-130 | the file name starts just after the last slash, or at the start when there is none |
| PosixPath.Basename | plexsubs/core/subtitle_manager.py:130 | the base name holds no slash and is what follows the directory part |
| PosixPath.Dirname | plexsubs/core/subtitle_manager.py:129 | the directory is the part up to the last slash, with trailing slashes removed unless it is made of slashes only |
| PosixPath.StripExtension | plexsubs/core/subtitle_manager.py:130 | the root is a prefix of the name and is the whole name when it has no dot |
| PosixPath.Join | plexsubs/core/subtitle_manager.py:109 | an absolute second part replaces the first; otherwise the parts are concatenated, with one slash between them exactly when the first is non-empty and does not already end in one |
| PosixPath.BasenameOfJoin | plexsubs/core/subtitle_manager.py:109 | the base name of a directory joined with a file name is that file name |
| PosixPath.StripExtensionOfSuffixed | plexsubs/core/subtitle_manager.py:130 | dropping the extension of a stem plus a dot and an extension gives back the stem |
| PlexClient.FirstInLanguage | plexsubs/plex/client.py:167-168 | the stream chosen is the first whose language code matches, and none is chosen exactly when no stream matches |
| PlexClient.FindSubtitleStreamId | plexsubs/plex/client.py:165-170 | no matching subtitle stream gives no id; an id found is that of a subtitle stream of the part in the requested language |
| PlexClient.FirstStreamWins | plexsubs/plex/client.py:167-169 | when several subtitle streams match, the id of the first one in document order is returned |
| PlexClient.PartStreamInfoOf | plexsubs/plex/client.py:137-163 | a video without a usable part id gives neither id; otherwise the part id and the subtitle stream id found in that part |
| PlexClient.GetPartStreamInfo | plexsubs/plex/client.py:137-163 | the method returns the part and stream ids of the reference definition |
| PlexClient.TitleOf | plexsubs/plex/client.py:188-193 | a movie is named by its title; an episode by its show's title when present, else by its own title |
| PlexClient.YearOf | plexsubs/plex/client.py:203-204 | a year is read exactly when the attribute is present and all digits, and it is never negative |
| PlexClient.YearRoundTrip | plexsubs/plex/client.py:203-204 | a year written as digits is read back as the same number |
| PlexClient.MediaInfoOf | plexsubs/plex/client.py:183-216 | no video element gives no media info; otherwise the info carries the rating key, the title rule, the type, the year, the IMDB id and the mapped file path when there is one |
| PlexClient.MediaInfoAttempt | plexsubs/plex/client.py:175-220 | one attempt fails exactly when the fetch fails or the XML does not parse, always as a PlexAPIError starting with "Failed to get media info: "; otherwise it gives the media info of the document |
| PlexClient.GetMediaInfo | plexsubs/plex/client.py:172-220 | the call is the retry of single attempts under the policy of three tries on PlexAPIError, making one to three calls |
| PlexClient.MediaInfoCalls | plexsubs/plex/client.py:172 | the retry policy makes between one and three calls |
| PlexClient.MediaInfoGivesUp | plexsubs/plex/client.py:172-220 | when every fetch fails, three calls are made and the last attempt's error is raised |
| PlexClient.StreamOf | plexsubs/plex/client.py:233-239 | a stream record copies the id (empty when absent), language code, language and codec, and is selected exactly when the attribute is "1" |
| PlexClient.GetSubtitleStreams | plexsubs/plex/client.py:222-247 | a failed fetch or an unparsable reply gives no streams; otherwise one record per subtitle stream of the document, in order |
| PlexClient.SessionOf | plexsubs/plex/client.py:329-341 | a video gives a session exactly when it has a session element with a non-empty id; the record holds that id, the video's rating key and title, and the player's title when there is a player |
| PlexClient.SessionsOf | plexsubs/plex/client.py:327-344 | at most one session per video, each with a non-empty session key |
| PlexClient.SessionsOfMembers | plexsubs/plex/client.py:327-344 | a session is listed exactly when some video yields it |
| PlexClient.GetActiveSessions | plexsubs/plex/client.py:318-348 | a failed fetch or an unparsable reply gives no sessions; otherwise the sessions of every video in the document |
| PlexClient.PartPut | plexsubs/plex/client.py:275 | the update goes to "/library/parts/" followed by exactly the part id, with the chosen subtitle stream id |
| PlexClient.PutAnswer | plexsubs/plex/client.py:275-316 | a successful update answers true, a PlexAPIError answers false |
| PlexClient.PlanFor | plexsubs/plex/client.py:302-312 | an update is planned exactly when the video has a part id and a subtitle stream in the language, for that part and stream |
| PlexClient.SetSubtitleStream | plexsubs/plex/client.py:281-316 | an update is sent exactly when the document parses, has a video and a part with a stream in the language; its answer is then the update's; otherwise the answer is false, unless a foreign error from the fetch propagates |
| PlexClient.SessionFor | plexsubs/plex/client.py:365-369 | the session chosen is the first listed one playing the rating key, and none is chosen exactly when no session does |
| PlexClient.VideoFor | plexsubs/plex/client.py:383-384 | the video chosen is the first in document order with the rating key, and none is chosen exactly when no video has it |
| PlexClient.SessionPlan | plexsubs/plex/client.py:385-410 | an update is planned for a session video exactly when it has a player with a machine identifier and a part with a stream in the language |
| PlexClient.SetActiveSessionSubtitle | plexsubs/plex/client.py:350-416 | an update is sent exactly when an active session plays the rating key, the session details parse, the first video with the key has a player with a machine identifier, a part id and a matching stream; it is the update that video justifies and the answer is the update's; otherwise the answer is false, except that a foreign error from the second fetch propagates |
| PlexClient.NoSessionNoPut | plexsubs/plex/client.py:371-373 | when no session can be listed, nothing is sent and the answer is false |
| ProviderBase.NewSubtitleResult | plexsubs/providers/base.py:8-21 | a new result holds the given id, language, release and file name, and the field defaults: no URL or parameters, no perfect match, no provider, no downloads and a zero score |
| ProviderBase.SameFieldsIsEquivalence | plexsubs/providers/base.py:8-21 | dataclass equality on results is reflexive, symmetric and transitive |
| ProviderBase.ScoreEqTransitive | plexsubs/providers/base.py:20 | equality of scores as numbers is transitive, whatever fraction represents them |
| ProviderBase.SameFieldsIsNotIdentity | plexsubs/providers/base.py:20 | two results differing only in score compare equal exactly when the scores are the same number, even when they are different fractions such as 1/2 and 2/4 |
| ProviderBase.NewProvider | plexsubs/providers/base.py:33-35 | a provider keeps its enabled flag and is named after its class, lower-cased and never longer than the class name |
| ProviderBase.AvailableAsConstructed | plexsubs/providers/base.py:33-80 | a freshly constructed provider is available exactly when it was constructed enabled |
| ProviderBase.OpenSubtitlesName | plexsubs/providers/base.py:35 | the OpenSubtitles provider class is named "opensubtitles" |
| ProviderBase.RemoveAllKeepsPrefix | plexsubs/providers/base.py:35 | removing every occurrence of the suffix from a name that ends in it, and does not otherwise contain its first letter, leaves the rest of the name |
| ReleaseMatcher.UpperAll | plexsubs/core/release_matcher.py:35 | every source name of a list is upper-cased, in order |
| ReleaseMatcher.ExtractReleaseInfo | plexsubs/core/release_matcher.py:10-56 | a file name the parser cannot read gives no tokens; otherwise the deduplicated upper-cased release group, screen size, sources and codec |
| ReleaseMatcher.RemoveDuplicates | plexsubs/core/release_matcher.py:43-49 | the loop gives the order-preserving deduplication of the tokens |
| ReleaseMatcher.IndexOf | plexsubs/core/release_matcher.py:43-49 | the first position of a token in the list |
| ReleaseMatcher.DedupSpec | plexsubs/core/release_matcher.py:43-49 | deduplication leaves no duplicates, keeps exactly the tokens of the input, and keeps them in the order of their first occurrence |
| ReleaseMatcher.FingerprintIsUpper | plexsubs/core/release_matcher.py:24-41 | every extracted token is upper case |
| ReleaseMatcher.FingerprintContents | plexsubs/core/release_matcher.py:24-49 | the tokens are distinct and include the upper-cased release group and codec when present and every source of a source list |
| ReleaseMatcher.CountFound | plexsubs/core/release_matcher.py:77-80 | the number of groups found never exceeds the number of groups |
| ReleaseMatcher.CalculateMatchScore | plexsubs/core/release_matcher.py:59-86 | no groups give a zero score and no perfect match; otherwise the score is the number of groups found in the upper-cased release and file name over the number of groups, and the match is perfect exactly when all are found |
| ReleaseMatcher.AllFoundIff | plexsubs/core/release_matcher.py:77-84 | every group is counted exactly when every upper-cased group occurs in the combined text |
| ReleaseMatcher.NoneFound | plexsubs/core/release_matcher.py:77-80 | when no group occurs the count is zero |
| ReleaseMatcher.CountFoundUpToCase | plexsubs/core/release_matcher.py:79 | groups that differ only in case are counted alike |
| ReleaseMatcher.MatchIgnoresCase | plexsubs/core/release_matcher.py:75-80 | the count does not depend on the case of the release, the file name or the groups |
| Retry.Pow2 | plexsubs/utils/retry.py:44 | the backoff factor is at least one |
| Retry.UnfoldRetry | plexsubs/utils/retry.py:56-64 | a retryable failure before the last attempt is followed by the callback, when there is one, a pause of the base delay times two to the attempt number, and the next attempt |
| Retry.RetryWithBackoff | plexsubs/utils/retry.py:54-69 | the loop produces the run of the reference definition: outcome, number of calls, callbacks and pauses |
| Retry.RunFromShape | plexsubs/utils/retry.py:56-66 | when the attempts up to some point fail retryably and the next one does not or is the last, the run ends with that attempt's outcome, after one callback and one pause for each earlier attempt |
| Retry.RunDependsOnOutcomes | plexsubs/utils/retry.py:54-69 | the run depends only on what each attempt returns or raises |
| Retry.FirstStop | plexsubs/utils/retry.py:56-66 | the first attempt that is not a retryable failure, within a bound |
| Retry.RunEndsWithLastCall | plexsubs/utils/retry.py:54-69 | with at least one allowed attempt, the run makes between one and that many calls, returns or raises what the last call did, every earlier call failed retryably, and stopping early means the last call was not a retryable failure |
| Retry.SuccessReturnsAtOnce | plexsubs/utils/retry.py:58 | a success after retryable failures is returned at once, after one pause per failure |
| Retry.PersistentFailure | plexsubs/utils/retry.py:59-66 | when every attempt fails retryably, all are made, the last error is raised, and the callback is told of every attempt but the last |
| Retry.UncaughtPropagates | plexsubs/utils/retry.py:59 | an exception of a kind not caught propagates from the first call, with no callback and no pause |
| Retry.NoAttempts | plexsubs/utils/retry.py:68-69 | with no allowed attempt the wrapper raises its RuntimeError without calling the function |
| Retry.OneAttempt | plexsubs/utils/retry.py:56-66 | with one allowed attempt the function is called once and its result or exception is passed on |
| Retry.EventsAt | plexsubs/utils/retry.py:60-63 | the callback receives, for each retried attempt, its number, the delay base times two to that number, and the exception |
| Retry.PausesLength | plexsubs/utils/retry.py:64 | there is one pause per retried attempt |
| Retry.AsyncMatchesSync | plexsubs/utils/retry.py:37-69 | the asynchronous wrapper behaves as the synchronous one, with awaited pauses where the synchronous one sleeps |
| Strings.Lower | plexsubs/api/errors.py:64 | lower-casing keeps the length and maps each character on its own |
| Strings.Upper | plexsubs/core/release_matcher.py:75 | upper-casing keeps the length and maps each character on its own |
| Strings.UpperConcat | plexsubs/core/release_matcher.py:75 | upper-casing a concatenation upper-cases each part |
| Strings.LowerConcat | plexsubs/api/errors.py:64 | lower-casing a concatenation lower-cases each part |
| Strings.UpperIsUpper | plexsubs/core/release_matcher.py:25-41 | an upper-cased string has no lower-case letter, and upper-casing it again changes nothing |
| Strings.LStripShape | plexsubs/utils/path_utils.py:43 | stripping leading blanks removes a prefix made only of blanks and leaves a suffix that does not start with one |
| Strings.RStripShape | plexsubs/utils/path_utils.py:43 | stripping trailing blanks removes a suffix made only of blanks and leaves a prefix that does not end with one |
| Strings.StripShape | plexsubs/utils/path_utils.py:43 | a stripped string neither starts nor ends with a blank and occurs in the original |
| Strings.StripEmptyIffAllSpace | plexsubs/config/validators.py:301-324 | stripping gives the empty string exactly when the string is all blanks |
| Strings.StripUnchanged | plexsubs/utils/path_utils.py:43 | a string that neither starts nor ends with a blank is left as it is |
| Strings.LStripChar | plexsubs/utils/http_client.py:89 | stripping a leading character leaves a suffix that does not start with it, and everything removed is copies of that character |
| Strings.RStripChar | plexsubs/utils/http_client.py:49 | stripping a trailing character removes a suffix made only of it and leaves a prefix that does not end with it |
| Strings.ContainsIff | plexsubs/api/errors.py:66-72 | the substring test holds exactly when the needle occurs at some position |
| Strings.FirstIndex | plexsubs/utils/path_utils.py:42 | the position found is the first holding the character, or the length when there is none |
| Strings.Split | plexsubs/utils/path_utils.py:40 | splitting always gives at least one piece |
| Strings.SplitJoin | plexsubs/utils/path_utils.py:40 | joining the pieces with the separator gives back the string |
| Strings.SplitPieces | plexsubs/utils/path_utils.py:40 | no piece contains the separator |
| Strings.SplitFirst | plexsubs/utils/path_utils.py:42 | splitting once at the first separator gives the text before it, which has none, and the text after it |
| Strings.RemoveAll | plexsubs/providers/base.py:35 | removing every occurrence never lengthens the string |
| Strings.RemoveAllAbsent | plexsubs/providers/base.py:35 | a string without the pattern is left unchanged |
| Strings.RemoveAllLeading | plexsubs/providers/base.py:35 | a pattern at the front is removed and the rest is processed alike |
| Strings.DigitChar | plexsubs/plex/client.py:204 | each digit value is written as the digit character of that value |
| Strings.NatToStringRoundTrip | plexsubs/plex/client.py:204 | a number written in decimal is all digits and reads back as the same number |
| Validators.ValidateUrl | plexsubs/config/validators.py:19-38 | a URL is accepted exactly when it starts with http:// or https://, and returned unchanged; a missing or empty one is reported as required |
| Validators.ValidateToken | plexsubs/config/validators.py:41-61 | a token is accepted exactly when it is non-empty and at least the minimum length, and returned unchanged; a short one is reported with the minimum |
| Validators.ValidateLanguageCode | plexsubs/config/validators.py:64-84 | a code is accepted exactly when, stripped and lower-cased, it is non-empty and a supported code, and that normalised form is returned |
| Validators.FirstInvalidCode | plexsubs/config/validators.py:103-107 | the position found is the first code that fails validation, and none is found exactly when all pass |
| Validators.FirstInvalidIs | plexsubs/config/validators.py:103-107 | the first failing code is the one reported |
| Validators.ValidateLanguageCodes | plexsubs/config/validators.py:87-109 | an empty list is refused; the first invalid code is reported in the list message; otherwise every code is returned normalised, in order |
| Validators.ParseLanguageCodes | plexsubs/config/validators.py:112-134 | the loop gives the reference parse, which is never empty |
| Validators.KeptCodesMembers | plexsubs/config/validators.py:128-132 | a code is kept exactly when it is non-empty, supported and the normalised form of some entry |
| Validators.KeptCodesAppend | plexsubs/config/validators.py:128-132 | the kept codes of two lists of entries are those of the first followed by those of the second |
| Validators.NoDeduplication | plexsubs/config/validators.py:128-132 | a code given twice is kept twice |
| Validators.ParseIntRoundTrip | plexsubs/config/validators.py:152 | the decimal text of any integer reads back as that integer |
| Validators.UnderscoreIgnored | plexsubs/config/validators.py:152 | `int()` reads "1_000" as 1000: an underscore between digits is ignored |
| Validators.MisplacedUnderscoreRejected | plexsubs/config/validators.py:152 | a doubled underscore or a leading one makes `int()` fail |
| Validators.ValidatePort | plexsubs/config/validators.py:137-159 | a port is accepted exactly when it reads as an integer from 1 to 65535, and that integer is returned; a value that does not read as one is reported as not an integer |
| Validators.ValidatePositiveInteger | plexsubs/config/validators.py:162-184 | a value is accepted exactly when it reads as an integer of at least 1, and that integer is returned |
| Validators.PortFromText | plexsubs/config/validators.py:150-157 | a port given as decimal text is accepted exactly when its number lies from 1 to 65535 |
| Validators.CheckedErrorStays | plexsubs/config/validators.py:203-218 | once an entry is rejected, later entries do not change the error |
| Validators.ValidatePathMappings | plexsubs/config/validators.py:187-220 | a missing or empty value gives no mappings; otherwise the loop gives the reference check of the comma-separated entries, whose keys are distinct |
| Validators.NoColonRejected | plexsubs/config/validators.py:208-209 | a non-blank entry without a colon is rejected, naming it |
| Validators.EmptySideRejected | plexsubs/config/validators.py:211-216 | an entry with a blank source or target is rejected, naming it |
| Validators.BlankSkipped | plexsubs/config/validators.py:204-206 | a blank entry is skipped |
| Validators.LaterEntryOverwrites | plexsubs/config/validators.py:211-218 | an accepted entry sets its stripped source to its stripped target, and every other source keeps its target |
| Validators.ValidateLogLevel | plexsubs/config/validators.py:223-242 | a level is accepted exactly when, upper-cased and stripped, it is one of the five levels, and that form is returned |
| Validators.ValidateBoolean | plexsubs/config/validators.py:245-274 | a boolean is returned as is; a string is true for true/1/yes/on and false for false/0/no/off, whatever its case and surrounding blanks; an integer is true when non-zero; anything else is refused as not a boolean |
| Validators.ValidateRegexPattern | plexsubs/config/validators.py:277-298 | a pattern is accepted exactly when it is non-empty and compiles, and returned unchanged; an empty one and one that does not compile are refused with their messages |
| Validators.ValidateNonEmptyString | plexsubs/config/validators.py:301-324 | a value is accepted exactly when it is a string with something besides blanks, and returned stripped; a missing value is required and a non-string is refused as not a string |
| Webhook.AttemptsRetry | plexsubs/plex/webhook.py:37-64 | every session attempt that does not answer true fails with an exception the retry catches |
| Webhook.SessionRunSteps | plexsubs/plex/webhook.py:37-64 | the session retry makes one to three attempts, ends with the last attempt's outcome, no earlier attempt answered true, and stopping before the third means success |
| Webhook.SessionActivation | plexsubs/plex/webhook.py:66-85 | activation succeeds exactly when one of the first three attempts answers true, its success is true, it stops at the first such attempt, and it makes one to three attempts |
| Webhook.TrySetSessionSubtitleWithRetry | plexsubs/plex/webhook.py:66-85 | the method answers whether the retried activation succeeded and reports how many attempts were made |
| Webhook.SessionExhaustion | plexsubs/plex/webhook.py:37-85 | when no attempt answers true, activation fails after three attempts with waits of 3 and 6 seconds between them |
| Webhook.Repeat | plexsubs/plex/webhook.py:163-165 | n copies of one call contain that call n times and no other |
| Webhook.EarlyReplies | plexsubs/plex/webhook.py:106-126 | a body that is not JSON gets 400 "Invalid JSON", an event other than play or resume gets 200 "ignored" with the event, and a missing or empty rating key gets 400 "No rating key", all without any call |
| Webhook.MediaInfoFailures | plexsubs/plex/webhook.py:130-141 | when the media info fails, is missing or has no file path, only the media info is fetched and the reply is a 500, unless a foreign exception escapes |
| Webhook.NotFoundNoRefresh | plexsubs/plex/webhook.py:196-200 | when no subtitle is found the reply is 404 and nothing is refreshed or selected |
| Webhook.SuccessPath | plexsubs/plex/webhook.py:156-195 | after a download the metadata is refreshed exactly once; with auto-select, the session activation is tried as often as its retry attempts, at most three times, and the default stream is set once exactly when activation failed; the reply is 200 with the subtitle's path, language, provider and upgrade flag unless the fallback raised |
| Webhook.AfterSuccessCalls | plexsubs/plex/webhook.py:156-195 | the same call counts and reply for the steps that follow a successful download |
| Webhook.RefreshedCounts | plexsubs/plex/webhook.py:158 | after the refresh there is one refresh call and no selection call |
| Webhook.TriedCounts | plexsubs/plex/webhook.py:161-165 | the activation attempts add that many session calls and nothing else |
| Webhook.FallbackCounts | plexsubs/plex/webhook.py:167-177 | the fallback adds one default-stream call and nothing else |
| Xml.ForestMembers | plexsubs/utils/xml_utils.py:32-41 | the elements a `.//` search visits are exactly the trees and everything below them |
| Xml.ChildDescendants | plexsubs/utils/xml_utils.py:32-41 | a child and everything below it are below the parent |
| Xml.FirstTagged | plexsubs/utils/xml_utils.py:44-65 | the index found holds the tag and no earlier element does; none is found exactly when no element has the tag |
| Xml.FindFirst | plexsubs/utils/xml_utils.py:44-65 | `find` answers an element with the tag taken from the candidates, and nothing exactly when no candidate has the tag |
| Xml.FindVideoIsFirst | plexsubs/utils/xml_utils.py:32-41 | the Video found is the first Video below the root in document order, and none is found exactly when there is no Video below the root |
| Xml.SubtitleStreamsIn | plexsubs/utils/xml_utils.py:68-77 | the selection holds exactly the candidates whose streamType is "3" and is no longer than the candidates |
| Xml.SubtitleStreamsAppend | plexsubs/utils/xml_utils.py:68-77 | selecting subtitle streams keeps document order: selecting from two parts concatenates the selections |
| Xml.FindSubtitleStreams | plexsubs/utils/xml_utils.py:68-77 | the streams found are exactly the elements below the root with streamType "3" |
| Xml.AllTagged | plexsubs/utils/xml_utils.py:89 | `findall` of a tag holds exactly the candidates with that tag |
| Xml.FirstImdb | plexsubs/utils/xml_utils.py:80-93 | the ID comes from the first Guid whose id starts with "imdb://", with every occurrence of the prefix removed, and there is none exactly when no Guid id has the prefix |
| Xml.ImdbPrefixDropped | plexsubs/utils/xml_utils.py:91-92 | for an ID that does not otherwise contain the prefix, removing the prefix gives the bare ID back |
| Xml.PartNeedsMedia | plexsubs/utils/xml_utils.py:166-175 | a Part is found only under the first Media child, and that Media is the first child tagged Media |
| Xml.MediaPartNavigator.constructor | plexsubs/utils/xml_utils.py:155-164 | a new navigator keeps its Video and caches nothing yet |
| Xml.MediaPartNavigator.Initialize | plexsubs/utils/xml_utils.py:166-175 | after initialisation the cache holds the first Media child and its first Part, and a second initialisation changes nothing |
| Xml.MediaPartNavigator.GetMediaElement | plexsubs/utils/xml_utils.py:177-184 | answers the Video's first Media child |
| Xml.MediaPartNavigator.GetPartElement | plexsubs/utils/xml_utils.py:186-193 | answers the Part under the first Media child |
| Xml.MediaPartNavigator.GetFilePath | plexsubs/utils/xml_utils.py:195-204 | answers nothing without a Part, otherwise the Part's file attribute |
| Xml.MediaPartNavigator.GetPartId | plexsubs/utils/xml_utils.py:206-215 | answers nothing without a Part, otherwise the Part's id attribute |
| Xml.MediaPartNavigator.GetAllData | plexsubs/utils/xml_utils.py:217-229 | the Media and Part as the single getters answer them; the file path and part ID as the getters answer them when the Part exists and has children, and none otherwise, since an element without children is false in Python |
| Xml.ChildlessPartIsFalse | plexsubs/utils/xml_utils.py:225-226 | a Part that has a file attribute but no children is found and has a file path, yet counts as false, so `get_all_data` reports neither its path nor its ID |
| Xml.MediaPartNavigator.HasMedia | plexsubs/utils/xml_utils.py:231-238 | true exactly when the Video has a Media child |
| Xml.MediaPartNavigator.HasPart | plexsubs/utils/xml_utils.py:240-247 | true exactly when a Part is found, which needs a Media child |
| Xml.NavigateTwice | plexsubs/utils/xml_utils.py:166-169 | the lazily cached Part is the same on every use |
| Xml.GetFilePathFromVideo | plexsubs/utils/xml_utils.py:250-261 | the file path a fresh navigator finds |
| Xml.GetPartIdFromVideo | plexsubs/utils/xml_utils.py:264-275 | the part ID a fresh navigator finds |
| SubtitleManager.FirstExt | plexsubs/core/subtitle_manager.py:108-112 | the extension chosen is the first in order whose subtitle file exists, and none is chosen exactly when none exists |
| SubtitleManager.FirstExisting | plexsubs/core/subtitle_manager.py:107-112 | an existing subtitle reported for a language is a file that exists |
| SubtitleManager.GetExistingSubtitles | plexsubs/core/subtitle_manager.py:97-114 | the loop builds the language-to-path dictionary of the first existing extension per configured language, with each language once |
| SubtitleManager.ExistingLookup | plexsubs/core/subtitle_manager.py:97-114 | looking a language up answers its first existing subtitle when it is configured and nothing otherwise |
| SubtitleManager.SrtPreferred | plexsubs/core/subtitle_manager.py:108-112 | an existing .srt file wins over every other extension |
| SubtitleManager.SkipChecks | plexsubs/core/subtitle_manager.py:28-81 | the per-language check repeats the first-language skip; it skips exactly when the first language has a subtitle and release matching or perfect-match upgrading is off; it never skips a later language |
| SubtitleManager.Tagged | plexsubs/core/subtitle_manager.py:215-216 | each result of a provider is tagged with that provider, its token and its position, in order |
| SubtitleManager.Pool | plexsubs/core/subtitle_manager.py:201-220 | the pooled results are numbered in order, each names the provider it came from, and providers appear in their configured order |
| SubtitleManager.PoolMembers | plexsubs/core/subtitle_manager.py:201-220 | every pooled result comes from a provider whose search succeeded, with that search's token, and every result of every successful search is pooled |
| SubtitleManager.EmptyPool | plexsubs/core/subtitle_manager.py:218-224 | when every search fails nothing is pooled |
| SubtitleManager.EmptyPoolNotFound | plexsubs/core/subtitle_manager.py:222-224 | when every search fails the language is not found and no file changes |
| SubtitleManager.ScoreChain | plexsubs/core/subtitle_manager.py:227-229 | comparing scores is transitive, also across ties |
| SubtitleManager.RankedOrder | plexsubs/core/subtitle_manager.py:227-229 | the sort order is irreflexive and transitive |
| SubtitleManager.RankPermutes | plexsubs/core/subtitle_manager.py:227-229 | sorting keeps every result exactly as often as before |
| SubtitleManager.RankSorted | plexsubs/core/subtitle_manager.py:227-229 | the sorted results have no pair out of order |
| SubtitleManager.RankIsStableSort | plexsubs/core/subtitle_manager.py:227-229 | sorting is a permutation ordered by perfect match first, then downloads descending, then score descending, and equal keys keep their pooled order |
| SubtitleManager.RankMembers | plexsubs/core/subtitle_manager.py:227-232 | sorting keeps the same results and so the same answer to whether a perfect match exists |
| SubtitleManager.BestFirst | plexsubs/core/subtitle_manager.py:232-233 | the best result is a perfect match exactly when one exists, and without one no result has more downloads |
| SubtitleManager.CheckGates | plexsubs/core/subtitle_manager.py:235-265 | with an existing subtitle, the early returns keep it when no perfect match exists and the best is not popular enough for popular upgrading, or when a perfect match exists but perfect-match upgrading is off; otherwise the download proceeds |
| SubtitleManager.PopularityGate | plexsubs/core/subtitle_manager.py:235-257 | with an existing subtitle and no perfect match, a download is attempted only when popular upgrading is on and the best has at least the threshold of downloads; otherwise the existing subtitle is kept with nothing changed |
| SubtitleManager.PerfectMatchGate | plexsubs/core/subtitle_manager.py:259-265 | with an existing subtitle, a perfect match and perfect-match upgrading off, the existing subtitle is kept with nothing changed |
| SubtitleManager.FsAfterTouchesOnlyOut | plexsubs/core/subtitle_manager.py:314-323 | download attempts create or remove only the output file |
| SubtitleManager.DownloadWithRetry | plexsubs/core/subtitle_manager.py:327-366 | the method computes the download unit's result and files, and it succeeds exactly when the retried download and verification succeed |
| SubtitleManager.UnitFalseNotRetried | plexsubs/core/subtitle_manager.py:314-317 | a download answering false is not retried and gives not found with no file changed |
| SubtitleManager.UnitRetriesEveryError | plexsubs/core/subtitle_manager.py:300-323 | when every attempt raises, three attempts are made, the result is not found, and a file that failed verification on the last attempt is gone |
| SubtitleManager.SuccessFetched | plexsubs/core/subtitle_manager.py:314-325 | a successful unit ends with a download whose detected language verifies |
| SubtitleManager.UnitSuccess | plexsubs/core/subtitle_manager.py:349-358 | success reports the output path, language, Plex code, provider name, and an upgrade flag that is true exactly when a subtitle existed and the result is a perfect match; the output file exists |
| SubtitleManager.UnitSuccessFiles | plexsubs/core/subtitle_manager.py:340-347 | an old subtitle at another path is removed exactly when the result is a perfect match and the removal does not fail; no other file but the output changes |
| SubtitleManager.RemovalFailureIgnored | plexsubs/core/subtitle_manager.py:343-347 | a failing removal of the old subtitle does not change the reported result |
| SubtitleManager.UnitFailure | plexsubs/core/subtitle_manager.py:360-366 | a failed unit reports not found and changes no file but the output |
| SubtitleManager.DownloadWithRetrySucceeds | plexsubs/core/subtitle_manager.py:338-358 | a successful unit reports the success record of its candidate |
| SubtitleManager.Searches | plexsubs/core/subtitle_manager.py:203-220 | every configured provider is searched once, in order |
| SubtitleManager.SearchProviders | plexsubs/core/subtitle_manager.py:200-220 | the loop builds the pool of the searches' results |
| SubtitleManager.TryCandidates | plexsubs/core/subtitle_manager.py:267-298 | the loop over sorted results computes the specification's outcome and files |
| SubtitleManager.EligiblePositions | plexsubs/core/subtitle_manager.py:268-279 | the positions listed are exactly those of results the skip rules let through |
| SubtitleManager.EligibleIncreasing | plexsubs/core/subtitle_manager.py:268-279 | the eligible positions are visited in increasing order |
| SubtitleManager.CandidatesTried | plexsubs/core/subtitle_manager.py:267-298 | the results attempted are a prefix of the eligible ones, and all of them when nothing succeeded |
| SubtitleManager.CandidatesStopAtSuccess | plexsubs/core/subtitle_manager.py:294-295 | the attempts stop at the first success: every earlier attempt failed, and a failure means every attempt failed |
| SubtitleManager.CandidatesRecord | plexsubs/core/subtitle_manager.py:285-295 | a success is the success record of the last result attempted |
| SubtitleManager.FirstSuccessInPrefix | plexsubs/core/subtitle_manager.py:267-298 | a success among the attempts is the first eligible result whose download succeeds, and there is one exactly when some eligible result succeeds |
| SubtitleManager.FirstEligibleSuccessWins | plexsubs/core/subtitle_manager.py:267-298 | the download succeeds exactly when some eligible result's download succeeds, and then the record is that of the first such result |
| SubtitleManager.CandidatesFiles | plexsubs/core/subtitle_manager.py:267-298 | only the output file and the old subtitle can change, and the old one disappears exactly when an upgrade removed it |
| SubtitleManager.OnlyEligibleAttempted | plexsubs/core/subtitle_manager.py:269-279 | with an existing subtitle, only perfect matches are attempted, or with popular upgrading the best result itself |
| SubtitleManager.TryDownload | plexsubs/core/subtitle_manager.py:187-298 | the method computes the specification's outcome and files for one language |
| SubtitleManager.TryDownloadNames | plexsubs/core/subtitle_manager.py:281 | a downloaded subtitle is for that language and lies at the media's name, the language and ".srt" |
| SubtitleManager.TryDownloadAttemptNames | plexsubs/core/subtitle_manager.py:169-178 | every attempt for a language names that language's output path |
| SubtitleManager.LanguagesUnfold | plexsubs/core/subtitle_manager.py:157-181 | each language is skipped by the check, succeeds and stops, or falls through to the next |
| SubtitleManager.TryLanguage | plexsubs/core/subtitle_manager.py:157-181 | one language's step stops with the loop's answer or goes on without a success, to the same answer |
| SubtitleManager.TryLanguages | plexsubs/core/subtitle_manager.py:157-185 | the loop over languages computes the specification's outcome and files |
| SubtitleManager.DownloadSubtitles | plexsubs/core/subtitle_manager.py:116-185 | the method computes the specification's outcome and files for a media file |
| SubtitleManager.NoLanguages | plexsubs/core/subtitle_manager.py:136-138 | without configured languages nothing is found and no file changes |
| SubtitleManager.LanguagesTried | plexsubs/core/subtitle_manager.py:157-185 | languages are attempted in configured order, each at most once |
| SubtitleManager.LanguagesShape | plexsubs/core/subtitle_manager.py:157-185 | keeping the existing subtitle happens only at the first language without an attempt; a success is for the last language attempted at its output path; not found means every language was attempted |
| SubtitleManager.FirstLanguageKept | plexsubs/core/subtitle_manager.py:140-147 | an existing first-language subtitle with release matching or perfect-match upgrading off is kept with nothing changed |
| SubtitleManager.DownloadOutcomes | plexsubs/core/subtitle_manager.py:116-185 | kept means the first language's existing subtitle with nothing attempted; a download is for a configured language at its output path; not found means every language was attempted |
| SubtitleManager.GatedLanguageFallsThrough | plexsubs/core/subtitle_manager.py:180-181 | a language whose download keeps the existing subtitle does not stop the loop: the next language is attempted |

## Left out

- LoggingConfig.GetPackageName: its own contract covers only an exact table hit; the prefix and CORE cases are proved in `LoggingConfig.PackageNameRule`.
- Discovery.MappingSuggestion: its own contract says only that a suggestion names the prefix asked about; the full case analysis is in `Discovery.MappingSuggestionCases`.
- Concurrency: the webhook's thread pool and the asyncio executor hop, and the double-checked `_token_lock` of the OpenSubtitles provider. Everything is modelled sequentially, so the token check before and after the lock is one check.
- Real I/O is an input, never performed: HTTP requests and their transport, Plex GET and PUT calls, OpenSubtitles logins and file fetches, file reads and writes, `os.path.exists`, `os.path.isdir`, `os.remove`, and the container probe.
- The filesystem is a set of existing paths. Writing a file adds its path, removing it takes the path out; file contents are not modelled.
- `parse_xml_response`: parsing text into elements is outside the model, and a parse is an optional element.
- The filename guesser (guessit), the language detector (langdetect with its text cleaning) and the ISO 639 name table are oracles given as inputs. The rule that undetectable text counts as a match is kept.
- Floating point: retry delays are natural numbers of milliseconds, and scores are (matches, total) pairs compared by cross-multiplication instead of a float division.
- The sort in `_try_download` is Python's Timsort; it is modelled as a stable insertion sort whose result is the same stable order.
- Case conversion, `strip` and `isdigit` are ASCII-only; Unicode case mapping and Unicode digits are not modelled.
- Validators.ValidatePort: a `bool` is already an `int` in Python, so `validate_port(True)` returns `True` itself; the model answers the equal integer 1. The same holds for `Validators.ValidatePositiveInteger`.
- Validators.ValidateLogLevel: the error message lists the valid levels in the fixed order DEBUG, INFO, WARNING, ERROR, CRITICAL; the source joins a Python set, whose order depends on the string hash seed, so only the set of names in the message is faithful.
- Validators.ParseInt: the digits of a literal are ASCII; Unicode digits and other bases are not modelled.
- The query parameters and JSON body of an HTTP request are handed to the transport unchanged; only the final URL the reply reports, which includes the encoded query, is modelled.
- Validators.ValidatePort: a non-`int` value goes through `int()` as well, so a float is truncated by the source; the model's `OtherValue` case rejects it, and floats are not modelled.
- Validators.ValidatePositiveInteger: other values that `int()` converts, such as a float (truncated) or bytes, are one `OtherValue` case and are rejected; floats are not modelled.
- The token argument of the OpenSubtitles `download` is not used by the provider and is not modelled.
- The result of `refresh_metadata` is ignored by the webhook and is modelled as never raising.
- The webhook assumes its JSON body is an object; a body that parses to another JSON value is not modelled.
- `get_library_sections` and `discover_libraries` are pass-throughs of the server's answer; `_get_library_items`, `check_file_permissions` and `is_running_in_docker` are inputs.
- The iteration order of Python sets of path prefixes is taken to be insertion order.
- The logging handlers, `setup_logging`, `get_logger`, `JSONFormatter`, the `fmt` argument of `ColoredFormatter` and the `%` arguments of log messages are left out; only the package tag and the console line are modelled.
- The operation name given to `api_error_handler` affects only the log line and is left out. The exception handlers are a match over exception kinds, not a registration order.
- `_init_providers` (construction of providers from the settings) is left out; the pipeline receives its providers' answers.
- The details of an error response are typed as strings.
- The advice texts of path discovery and the reasons of mapping suggestions are datatypes rendered to their strings by `Text` and `ReasonText`.
- `SubtitleResult.__repr__` and the HTTP clients' `close` and context-manager methods are left out.
- FastAPI routing, the Pydantic models and the loading of settings from the environment are left out; `Settings` is a plain record.

## Findings

| source | as written | input that shows it | evidently intended | confidence | as-written member | corrected member |
|---|---|---|---|---|---|---|
| plexsubs/providers/opensubtitles.py:162-179 | the base client (plexsubs/utils/http_client.py:121-123) re-raises every transport or HTTP status failure as a new `PlexAPIError` without a `response`, so the guard `e.response.status_code == 401` is never met and the re-authentication branch never runs | a token the server rejects with 401 before its local 23-hour expiry: the request fails with "Request failed: Request failed: 401 Client Error ..." and no new login is made | on a 401, clear the token, log in again and resend the request once | not executed | OpenSubtitles.OpenSubtitlesProvider.MakeRequestThroughBaseClient | OpenSubtitles.FromHttpResponse |

`OpenSubtitles.OpenSubtitlesProvider.MakeRequestThroughBaseClient` runs the provider's request logic behind the base client as written and proves the consequence: a failed request is sent once, with no second login. `OpenSubtitles.BaseClientHidesUnauthorized` is the step it rests on: no failure of the base client meets the 401 guard. The provider's `MakeRequest` and `Search` take failures that carry the HTTP status, as the corrected client gives them. `OpenSubtitles.OpenSubtitlesProvider.MakeRequest` then proves the intended behaviour: a 401 with a working login clears the token, logs in once more and resends exactly once.
