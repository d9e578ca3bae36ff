/** The subtitle acquisition pipeline of `SubtitleManager`.

    Collaborators are inputs: each provider's search answer, what every download attempt
    does (the provider's `download` and the language check after it), whether removing an
    old file fails, and the Plex language code of a language. The filesystem is the set of
    paths that exist; the pipeline returns the set it leaves behind. */
module SubtitleManager {
  import opened Wrappers
  import opened OrderedMaps
  import opened Exceptions
  import opened ProviderBase
  import opened Retry
  import ReleaseMatcher
  import PosixPath
  import Constants

  /** The settings the pipeline reads. */
  datatype Settings = Settings(
    languages: seq<string>,
    useReleaseMatching: bool,
    upgradeOnPerfectMatch: bool,
    upgradeOnPopular: bool,
    popularThreshold: int)

  /** The result dictionary: `{"success": False}`, `{"success": False, "existing": path}`,
      or a success with its path, language, Plex language code, provider and `upgraded`. */
  datatype Acquisition =
    | NotFound
    | KeptExisting(existing: string)
    | Acquired(path: string, language: string, languageCode: string, provider: string, upgraded: bool)

  /** One call of the provider's `download`: it wrote the file and the detector made
      `detected` of it (`None` when the text is too short or detection fails), it
      answered False, or it raised. */
  datatype DownloadStep = Fetched(detected: Option<string>) | NotFetched | Raised(error: Error)

  /** A provider's `search` answer: its results and token, or the error it raised. */
  type SearchOutcome = Result<(seq<SubtitleResult>, Option<string>), Error>

  /** The collaborators of one `download_subtitles` call. `search(i, language, groups)` is
      what provider `i` answers (title, year, IMDB id and file name are fixed for the call);
      `download(language, k, i)` is attempt `i` on the `k`-th ranked candidate for
      `language`; `sameLanguage(detected, expected)` is the language-code comparison;
      `removeFails(p)` says whether `os.remove(p)` raises; `plexCode` maps a language to
      Plex's code. */
  datatype Env = Env(
    providers: seq<string>,
    guess: Option<ReleaseMatcher.Guess>,
    search: (nat, string, Option<seq<string>>) -> SearchOutcome,
    download: (string, nat, nat) -> DownloadStep,
    sameLanguage: (string, string) -> bool,
    removeFails: string -> bool,
    plexCode: string -> string)

  // ---------------------------------------------------------------- existing subtitles

  /** `os.path.join(media_dir, f"{media_name}.{lang}{ext}")`. */
  function SubtitlePath(dir: string, name: string, lang: string, ext: string): string {
    PosixPath.Join(dir, name + "." + lang + ext)
  }

  /** The index of the first extension whose subtitle file exists. */
  function FirstExt(dir: string, name: string, lang: string, exts: seq<string>, fs: set<string>): (r: Option<nat>)
    ensures r.None? <==> forall i :: 0 <= i < |exts| ==> SubtitlePath(dir, name, lang, exts[i]) !in fs
    ensures r.Some? ==>
      (r.value < |exts| && SubtitlePath(dir, name, lang, exts[r.value]) in fs
       && forall j :: 0 <= j < r.value ==> SubtitlePath(dir, name, lang, exts[j]) !in fs)
  {
    if exts == [] then None
    else if SubtitlePath(dir, name, lang, exts[0]) in fs then Some(0)
    else
      match FirstExt(dir, name, lang, exts[1..], fs)
      case None => None
      case Some(i) => Some(i + 1)
  }

  /** The first existing subtitle file of `lang`, in extension order. */
  function FirstExisting(dir: string, name: string, lang: string, fs: set<string>): (r: Option<string>)
    ensures r.Some? ==> r.value in fs
  {
    match FirstExt(dir, name, lang, Constants.SubtitleExtensions, fs)
    case None => None
    case Some(i) => Some(SubtitlePath(dir, name, lang, Constants.SubtitleExtensions[i]))
  }

  /** What `_get_existing_subtitles` builds, language after language. */
  function ExistingSubtitles(languages: seq<string>, dir: string, name: string, fs: set<string>): Dict<string, string> {
    if languages == [] then []
    else
      var acc := ExistingSubtitles(languages[..|languages| - 1], dir, name, fs);
      var lang := languages[|languages| - 1];
      match FirstExisting(dir, name, lang, fs)
      case None => acc
      case Some(p) => Put(acc, lang, p)
  }

  /** `_get_existing_subtitles(media_dir, media_name)`: the nested probe loops. */
  method GetExistingSubtitles(languages: seq<string>, dir: string, name: string, fs: set<string>)
    returns (existing: Dict<string, string>)
    ensures existing == ExistingSubtitles(languages, dir, name, fs)
    ensures UniqueKeys(existing)
  {
    existing := [];
    var i := 0;
    while i < |languages|
      invariant 0 <= i <= |languages|
      invariant existing == ExistingSubtitles(languages[..i], dir, name, fs)
      invariant UniqueKeys(existing)
    {
      assert languages[..i + 1][..i] == languages[..i];
      var lang := languages[i];
      var exts := Constants.SubtitleExtensions;
      var j := 0;
      while j < |exts| && SubtitlePath(dir, name, lang, exts[j]) !in fs
        invariant 0 <= j <= |exts|
        invariant forall k :: 0 <= k < j ==> SubtitlePath(dir, name, lang, exts[k]) !in fs
      {
        j := j + 1;
      }
      if j < |exts| {
        assert FirstExt(dir, name, lang, exts, fs) == Some(j);
        PutUnique(existing, lang, SubtitlePath(dir, name, lang, exts[j]));
        existing := Put(existing, lang, SubtitlePath(dir, name, lang, exts[j]));
      }
      i := i + 1;
    }
    assert languages[..i] == languages;
  }

  /** The map holds exactly the configured languages that have a subtitle file, each with
      its first existing file in extension order. */
  lemma {:induction false} ExistingLookup(languages: seq<string>, dir: string, name: string, fs: set<string>, lang: string)
    ensures Get(ExistingSubtitles(languages, dir, name, fs), lang) ==
      (if lang in languages then FirstExisting(dir, name, lang, fs) else None)
  {
    if languages != [] {
      var init := languages[..|languages| - 1];
      var last := languages[|languages| - 1];
      ExistingLookup(init, dir, name, fs, lang);
      assert languages == init + [last];
      assert lang in languages <==> lang in init || lang == last;
      match FirstExisting(dir, name, last, fs)
      case None =>
      case Some(p) => PutGet(ExistingSubtitles(init, dir, name, fs), last, p, lang);
    }
  }

  /** The extensions are probed in the order .srt, .ass, .ssa, .vtt. */
  lemma SrtPreferred(dir: string, name: string, lang: string, fs: set<string>)
    requires SubtitlePath(dir, name, lang, ".srt") in fs
    ensures FirstExisting(dir, name, lang, fs) == Some(SubtitlePath(dir, name, lang, ".srt"))
  {
    assert Constants.SubtitleExtensions[0] == ".srt";
    assert FirstExt(dir, name, lang, Constants.SubtitleExtensions, fs) == Some(0);
  }

  // ---------------------------------------------------------------- skip checks

  /** `_should_skip_first_language(existing, first_lang)`. */
  function ShouldSkipFirstLanguage(existing: Dict<string, string>, firstLang: string, s: Settings): Option<Acquisition> {
    match Get(existing, firstLang)
    case None => None
    case Some(p) => if !s.useReleaseMatching then Some(KeptExisting(p)) else None
  }

  /** `_should_skip_language_check(is_first, first_lang, existing, lang)`. */
  function ShouldSkipLanguageCheck(isFirst: bool, firstLang: string, existing: Dict<string, string>, s: Settings): Option<Acquisition> {
    if isFirst && Get(existing, firstLang).Some? then
      if !s.useReleaseMatching || !s.upgradeOnPerfectMatch then Some(KeptExisting(Get(existing, firstLang).value))
      else None
    else None
  }

  /** The per-language check repeats the first-language check and adds the upgrade flag;
      it never fires after the first language. */
  lemma SkipChecks(existing: Dict<string, string>, firstLang: string, s: Settings)
    ensures ShouldSkipFirstLanguage(existing, firstLang, s).Some? ==>
      ShouldSkipLanguageCheck(true, firstLang, existing, s) == ShouldSkipFirstLanguage(existing, firstLang, s)
    ensures ShouldSkipLanguageCheck(true, firstLang, existing, s).Some? <==>
      Get(existing, firstLang).Some? && (!s.useReleaseMatching || !s.upgradeOnPerfectMatch)
    ensures ShouldSkipLanguageCheck(false, firstLang, existing, s).None?
  {
  }

  // ---------------------------------------------------------------- the candidate pool

  /** An entry of `all_results`: the provider (index and name), the result, the
      provider's token, and the entry's position in discovery order. */
  datatype Candidate = Candidate(provider: nat, providerName: string, result: SubtitleResult, token: Option<string>, pos: nat)

  function Tagged(provider: nat, name: string, results: seq<SubtitleResult>, token: Option<string>, start: nat): (cs: seq<Candidate>)
    ensures |cs| == |results|
    ensures forall j :: 0 <= j < |results| ==> cs[j] == Candidate(provider, name, results[j], token, start + j)
  {
    seq(|results|, j requires 0 <= j < |results| => Candidate(provider, name, results[j], token, start + j))
  }

  /** `all_results` after the provider loop: every provider's results in provider order;
      a provider whose search raised adds nothing. */
  function Pool(names: seq<string>, outcomes: seq<SearchOutcome>): (pool: seq<Candidate>)
    requires |names| == |outcomes|
    ensures forall i :: 0 <= i < |pool| ==> pool[i].pos == i && pool[i].provider < |names|
    ensures forall i :: 0 <= i < |pool| ==> pool[i].providerName == names[pool[i].provider]
    ensures forall i, j :: 0 <= i < j < |pool| ==> pool[i].provider <= pool[j].provider
  {
    if names == [] then []
    else
      var n := |names| - 1;
      var acc := Pool(names[..n], outcomes[..n]);
      match outcomes[n]
      case Err(_) => acc
      case Ok((results, token)) => acc + Tagged(n, names[n], results, token, |acc|)
  }

  /** Every candidate comes from a provider whose search answered, and every result of
      such a provider is a candidate. */
  lemma {:induction false} PoolMembers(names: seq<string>, outcomes: seq<SearchOutcome>)
    requires |names| == |outcomes|
    ensures forall c :: c in Pool(names, outcomes) ==>
      outcomes[c.provider].Ok? && c.result in outcomes[c.provider].value.0 && c.token == outcomes[c.provider].value.1
    ensures forall i, r :: 0 <= i < |names| && outcomes[i].Ok? && r in outcomes[i].value.0 ==>
      exists c :: c in Pool(names, outcomes) && c.provider == i && c.result == r
  {
    if names != [] {
      var n := |names| - 1;
      var acc := Pool(names[..n], outcomes[..n]);
      PoolMembers(names[..n], outcomes[..n]);
      assert forall i :: 0 <= i < n ==> outcomes[..n][i] == outcomes[i];
      match outcomes[n]
      case Err(_) =>
      case Ok((results, token)) =>
        var tail := Tagged(n, names[n], results, token, |acc|);
        forall r | r in results
          ensures exists c :: c in Pool(names, outcomes) && c.provider == n && c.result == r
        {
          var j :| 0 <= j < |results| && results[j] == r;
          assert tail[j] in Pool(names, outcomes);
        }
    }
  }

  // ---------------------------------------------------------------- ranking

  /** The sort key `(not is_perfect_match, -download_count, -score)`: `a` sorts strictly before `b`. */
  predicate KeyBefore(a: SubtitleResult, b: SubtitleResult) {
    || (a.isPerfectMatch && !b.isPerfectMatch)
    || (a.isPerfectMatch == b.isPerfectMatch
        && (a.downloadCount > b.downloadCount
            || (a.downloadCount == b.downloadCount && ScoreLess(b.score, a.score))))
  }

  /** Equal sort keys. */
  predicate KeyTie(a: SubtitleResult, b: SubtitleResult) {
    a.isPerfectMatch == b.isPerfectMatch && a.downloadCount == b.downloadCount && ScoreEq(a.score, b.score)
  }

  /** The order a stable sort produces: by key, ties in discovery order. */
  predicate Ranked(a: Candidate, b: Candidate) {
    KeyBefore(a.result, b.result) || (KeyTie(a.result, b.result) && a.pos < b.pos)
  }

  /** No later entry should have come before an earlier one. */
  predicate NoInversion(cs: seq<Candidate>) {
    forall i, j :: 0 <= i < j < |cs| ==> !Ranked(cs[j], cs[i])
  }

  /** `x/dx <= y/dy <= z/dz` gives `x/dx <= z/dz`, strictly if either step is strict. */
  lemma CrossChain(x: int, dx: int, y: int, dy: int, z: int, dz: int)
    requires dx > 0 && dy > 0 && dz > 0
    requires x * dy <= y * dx && y * dz <= z * dy
    ensures x * dz <= z * dx
    ensures (x * dy < y * dx || y * dz < z * dy) ==> x * dz < z * dx
  {
    MulMonotone(x * dy, y * dx, dz);
    MulMonotone(y * dz, z * dy, dx);
    SwapFactors(x, dy, dz);
    SwapFactors(y, dx, dz);
    SwapFactors(z, dy, dx);
    MulMonotoneBack(x * dz, z * dx, dy);
  }

  lemma SwapFactors(a: int, b: int, c: int)
    ensures (a * b) * c == (a * c) * b
  {
  }

  lemma MulMonotone(a: int, b: int, d: int)
    requires d > 0 && a <= b
    ensures a * d <= b * d
    ensures a < b ==> a * d < b * d
  {
    assert b * d - a * d == (b - a) * d;
  }

  lemma MulMonotoneBack(a: int, b: int, d: int)
    requires d > 0 && a * d <= b * d
    ensures a <= b
    ensures a * d < b * d ==> a < b
  {
    if a > b {
      MulMonotone(b, a, d);
    }
  }

  lemma ScoreChain(a: Score, b: Score, c: Score)
    ensures ScoreLess(a, b) && ScoreLess(b, c) ==> ScoreLess(a, c)
    ensures ScoreLess(a, b) && ScoreEq(b, c) ==> ScoreLess(a, c)
    ensures ScoreEq(a, b) && ScoreLess(b, c) ==> ScoreLess(a, c)
  {
    if (ScoreLess(a, b) || ScoreEq(a, b)) && (ScoreLess(b, c) || ScoreEq(b, c)) {
      CrossChain(Numerator(a), Denominator(a), Numerator(b), Denominator(b), Numerator(c), Denominator(c));
    }
  }

  /** The ranking is a strict order. */
  lemma RankedOrder(a: Candidate, b: Candidate, c: Candidate)
    ensures !Ranked(a, a)
    ensures Ranked(a, b) && Ranked(b, c) ==> Ranked(a, c)
  {
    ScoreChain(c.result.score, b.result.score, a.result.score);
    if KeyTie(a.result, b.result) && KeyTie(b.result, c.result) {
      ScoreEqTransitive(a.result.score, b.result.score, c.result.score);
    }
  }

  /** Insertion into a ranked sequence, after everything that ranks first. */
  function Insert(c: Candidate, cs: seq<Candidate>): (r: seq<Candidate>)
    ensures |r| == |cs| + 1
  {
    if cs == [] || Ranked(c, cs[0]) then [c] + cs
    else [cs[0]] + Insert(c, cs[1..])
  }

  /** Insertion adds exactly one entry. */
  lemma {:induction false} InsertPermutes(c: Candidate, cs: seq<Candidate>)
    ensures multiset(Insert(c, cs)) == multiset(cs) + multiset{c}
  {
    if cs != [] {
      assert cs == [cs[0]] + cs[1..];
      if !Ranked(c, cs[0]) {
        InsertPermutes(c, cs[1..]);
      }
    }
  }

  /** `all_results.sort(key=...)`: Python's sort is stable, so its result is the pool
      ordered by key with ties in discovery order. */
  function Rank(cs: seq<Candidate>): (r: seq<Candidate>)
    ensures |r| == |cs|
  {
    if cs == [] then []
    else Insert(cs[0], Rank(cs[1..]))
  }

  /** Ranking is a permutation of the pool. */
  lemma {:induction false} RankPermutes(cs: seq<Candidate>)
    ensures multiset(Rank(cs)) == multiset(cs)
  {
    if cs != [] {
      RankPermutes(cs[1..]);
      InsertPermutes(cs[0], Rank(cs[1..]));
      assert cs == [cs[0]] + cs[1..];
    }
  }

  /** An entry that ranks before the head of a sequence without inversions can go in front. */
  lemma InsertFrontKeepsOrder(c: Candidate, cs: seq<Candidate>)
    requires cs != [] && Ranked(c, cs[0]) && NoInversion(cs)
    ensures NoInversion([c] + cs)
  {
    var r := [c] + cs;
    forall i, j | 0 <= i < j < |r| ensures !Ranked(r[j], r[i]) {
      if i == 0 {
        RankedOrder(cs[j - 1], c, cs[0]);
        if j - 1 > 0 {
          assert !Ranked(cs[j - 1], cs[0]);
        }
      } else {
        assert r[i] == cs[i - 1] && r[j] == cs[j - 1];
      }
    }
  }

  /** Every entry of an insertion is the inserted one or an old one. */
  lemma InsertMembers(c: Candidate, cs: seq<Candidate>, x: Candidate)
    requires x in Insert(c, cs)
    ensures x == c || x in cs
  {
    InsertPermutes(c, cs);
    assert x in multiset(Insert(c, cs));
  }

  lemma {:induction false} InsertKeepsOrder(c: Candidate, cs: seq<Candidate>)
    requires NoInversion(cs)
    ensures NoInversion(Insert(c, cs))
  {
    if cs != [] {
      if Ranked(c, cs[0]) {
        InsertFrontKeepsOrder(c, cs);
      } else {
        var r := Insert(c, cs);
        var rest := Insert(c, cs[1..]);
        assert r == [cs[0]] + rest;
        InsertKeepsOrder(c, cs[1..]);
        forall i, j | 0 <= i < j < |r| ensures !Ranked(r[j], r[i]) {
          if i == 0 {
            assert r[j] == rest[j - 1];
            InsertMembers(c, cs[1..], r[j]);
            if r[j] != c {
              var k :| 0 <= k < |cs[1..]| && cs[1..][k] == r[j];
              assert cs[k + 1] == r[j];
            }
          } else {
            assert r[i] == rest[i - 1] && r[j] == rest[j - 1];
          }
        }
      }
    }
  }

  /** The ranked pool is a permutation of the pool with no inversion. */
  lemma {:induction false} RankSorted(cs: seq<Candidate>)
    ensures NoInversion(Rank(cs))
  {
    if cs != [] {
      RankSorted(cs[1..]);
      InsertKeepsOrder(cs[0], Rank(cs[1..]));
    }
  }

  /** Stability and key order: an earlier entry never has a strictly later key, and
      entries with equal keys keep their discovery order. */
  lemma RankIsStableSort(cs: seq<Candidate>)
    ensures multiset(Rank(cs)) == multiset(cs)
    ensures forall i, j :: 0 <= i < j < |Rank(cs)| ==> !KeyBefore(Rank(cs)[j].result, Rank(cs)[i].result)
    ensures forall i, j :: 0 <= i < j < |Rank(cs)| && KeyTie(Rank(cs)[i].result, Rank(cs)[j].result) ==>
      Rank(cs)[i].pos <= Rank(cs)[j].pos
  {
    RankSorted(cs);
    RankPermutes(cs);
  }

  predicate HasPerfect(cs: seq<Candidate>) {
    exists c :: c in cs && c.result.isPerfectMatch
  }

  /** Ranking keeps exactly the pool's entries. */
  lemma RankMembers(cs: seq<Candidate>)
    ensures forall c :: c in Rank(cs) <==> c in cs
    ensures HasPerfect(Rank(cs)) <==> HasPerfect(cs)
  {
    var r := Rank(cs);
    RankPermutes(cs);
    forall c ensures c in r <==> c in cs {
      assert c in r <==> c in multiset(r);
      assert c in cs <==> c in multiset(cs);
    }
  }

  /** The top-ranked entry is a perfect match iff any is; without one, it has the most downloads. */
  lemma BestFirst(cs: seq<Candidate>)
    requires cs != []
    ensures var r := Rank(cs);
      && (HasPerfect(cs) <==> r[0].result.isPerfectMatch)
      && (!HasPerfect(cs) ==> forall c :: c in cs ==> c.result.downloadCount <= r[0].result.downloadCount)
  {
    var r := Rank(cs);
    RankSorted(cs);
    RankPermutes(cs);
    if HasPerfect(cs) {
      var c :| c in cs && c.result.isPerfectMatch;
      assert c in multiset(r);
      var j :| 0 <= j < |r| && r[j] == c;
      if j > 0 {
        assert !Ranked(r[j], r[0]);
      }
    } else {
      assert r[0] in multiset(cs);
      forall c | c in cs ensures c.result.downloadCount <= r[0].result.downloadCount {
        assert c in multiset(r);
        var j :| 0 <= j < |r| && r[j] == c;
        if j > 0 {
          assert !Ranked(r[j], r[0]);
        }
      }
    }
  }

  // ---------------------------------------------------------------- gates and eligibility

  /** The early returns of `_try_download` once candidates exist: with an existing file,
      no perfect match and no popular enough best, or a perfect match the settings do not
      allow to replace it, the existing file is kept and nothing is downloaded. */
  function Gate(s: Settings, existingPath: Option<string>, ranked: seq<Candidate>): Option<Acquisition>
    requires ranked != []
  {
    var best := ranked[0].result;
    if Truthy(existingPath) && !HasPerfect(ranked) then
      if s.upgradeOnPopular && best.downloadCount >= s.popularThreshold then None
      else Some(KeptExisting(existingPath.value))
    else if Truthy(existingPath) && HasPerfect(ranked) && !s.upgradeOnPerfectMatch then
      Some(KeptExisting(existingPath.value))
    else None
  }

  /** Whether the candidate loop attempts `r`: without an existing file, always; with one,
      a non-perfect `r` only in upgrade-on-popular mode and only if it equals `best`. */
  predicate Eligible(s: Settings, existingPath: Option<string>, best: SubtitleResult, r: SubtitleResult) {
    !(Truthy(existingPath) && !r.isPerfectMatch) || (s.upgradeOnPopular && SameFields(r, best))
  }

  // ---------------------------------------------------------------- the retried download unit

  const VerificationFailure: Error := Error(GenericError, "Language verification failed")

  /** `@retry_with_backoff(max_retries=3, exceptions=(Exception,), on_retry=None)`. */
  const VerifyPolicy: Policy := Policy(3, Constants.DefaultBaseRetryDelayMs, [GenericError], false)

  /** `verify_language(path, language)`: text whose language cannot be detected passes. */
  predicate Verified(env: Env, detected: Option<string>, language: string) {
    !Truthy(detected) || env.sameLanguage(detected.value, language)
  }

  /** One call of `_download_and_verify`: False is returned, a failed check raises. */
  function StepOutcome(env: Env, language: string, step: DownloadStep): Outcome<bool> {
    match step
    case Fetched(detected) => if Verified(env, detected, language) then Ok(true) else Err(VerificationFailure)
    case NotFetched => Ok(false)
    case Raised(e) => Err(e)
  }

  /** The wrapped function seen by the decorator for the `k`-th candidate. */
  function StepOp(env: Env, language: string, k: nat): nat -> Outcome<bool> {
    (i: nat) => StepOutcome(env, language, env.download(language, k, i))
  }

  function UnitRun(env: Env, language: string, k: nat): RetryRun<bool> {
    Run(StepOp(env, language, k), VerifyPolicy, false)
  }

  /** The retried unit returns True for the `k`-th candidate. */
  predicate UnitSucceeds(env: Env, language: string, k: nat) {
    UnitRun(env, language, k).outcome == Ok(true)
  }

  /** The filesystem after one attempt: a fetched file exists, and is removed again when
      its language check fails. */
  function StepFs(env: Env, language: string, fs: set<string>, step: DownloadStep, out: string): set<string> {
    match step
    case Fetched(detected) => if Verified(env, detected, language) then fs + {out} else fs - {out}
    case _ => fs
  }

  /** The filesystem after attempts `0 .. n - 1` on the `k`-th candidate. */
  function FsAfter(env: Env, language: string, k: nat, fs: set<string>, out: string, n: nat): set<string> {
    if n == 0 then fs
    else StepFs(env, language, FsAfter(env, language, k, fs, out, n - 1), env.download(language, k, n - 1), out)
  }

  lemma {:induction false} FsAfterTouchesOnlyOut(env: Env, language: string, k: nat, fs: set<string>, out: string, n: nat, p: string)
    requires p != out
    ensures p in FsAfter(env, language, k, fs, out, n) <==> p in fs
  {
    if n > 0 {
      FsAfterTouchesOnlyOut(env, language, k, fs, out, n - 1, p);
    }
  }

  /** What `_download_with_retry` returns, and the filesystem it leaves. */
  datatype UnitResult = UnitResult(acquisition: Acquisition, fs: set<string>)

  /** Whether a successful download removes the old file: it existed, it is another
      file, and the winner is a perfect match. */
  predicate RemovesOld(existingPath: Option<string>, out: string, r: SubtitleResult) {
    Truthy(existingPath) && existingPath.value != out && r.isPerfectMatch
  }

  /** The success record of the `k`-th candidate `c`. */
  function SuccessRecord(env: Env, c: Candidate, out: string, language: string, existingPath: Option<string>): Acquisition {
    Acquired(out, language, env.plexCode(language), c.providerName, existingPath.Some? && c.result.isPerfectMatch)
  }

  function DownloadUnit(env: Env, language: string, k: nat, c: Candidate, out: string,
                        existingPath: Option<string>, fs: set<string>): UnitResult
  {
    var run := UnitRun(env, language, k);
    var fs1 := FsAfter(env, language, k, fs, out, run.calls);
    if run.outcome == Ok(true) then
      var fs2 := if RemovesOld(existingPath, out, c.result) && !env.removeFails(existingPath.value)
        then fs1 - {existingPath.value} else fs1;
      UnitResult(SuccessRecord(env, c, out, language, existingPath), fs2)
    else UnitResult(NotFound, fs1)
  }

  /** `_download_with_retry(provider, subtitle, output_path, token, language, existing_path)`
      for the `k`-th ranked candidate `c`. */
  method DownloadWithRetry(env: Env, language: string, k: nat, c: Candidate, out: string,
                           existingPath: Option<string>, fs: set<string>)
    returns (result: Acquisition, fs': set<string>)
    ensures UnitResult(result, fs') == DownloadUnit(env, language, k, c, out, existingPath, fs)
    ensures result.Acquired? <==> UnitSucceeds(env, language, k)
  {
    var run := RetryWithBackoff(StepOp(env, language, k), VerifyPolicy, false);
    fs' := FsAfter(env, language, k, fs, out, run.calls);
    if run.outcome == Ok(true) {
      if RemovesOld(existingPath, out, c.result) {
        if !env.removeFails(existingPath.value) {
          fs' := fs' - {existingPath.value};
        }
      }
      return Acquired(out, language, env.plexCode(language), c.providerName,
                      existingPath.Some? && c.result.isPerfectMatch), fs';
    }
    result := NotFound;
  }

  /** Download answering False fails the candidate at once: one call, no retry, no change. */
  lemma UnitFalseNotRetried(env: Env, language: string, k: nat, c: Candidate, out: string,
                            existingPath: Option<string>, fs: set<string>)
    requires env.download(language, k, 0) == NotFetched
    ensures UnitRun(env, language, k).calls == 1
    ensures DownloadUnit(env, language, k, c, out, existingPath, fs) == UnitResult(NotFound, fs)
  {
    RunFromShape(StepOp(env, language, k), VerifyPolicy, false, 0, 0);
    assert FsAfter(env, language, k, fs, out, 1) ==
      StepFs(env, language, FsAfter(env, language, k, fs, out, 0), env.download(language, k, 0), out);
  }

  /** An attempt that raises: the provider raised (a `ProviderError` among others), or the
      file's language did not check out. */
  predicate Raises(env: Env, language: string, step: DownloadStep) {
    step.Raised? || (step.Fetched? && !Verified(env, step.detected, language))
  }

  /** Every exception is retried, `ProviderError` and a failed language check included:
      three raising attempts exhaust the unit, which then reports failure; when the last
      one was a failed check, the file it wrote is gone. */
  lemma UnitRetriesEveryError(env: Env, language: string, k: nat, c: Candidate, out: string,
                              existingPath: Option<string>, fs: set<string>)
    requires forall i :: 0 <= i < 3 ==> Raises(env, language, env.download(language, k, i))
    ensures UnitRun(env, language, k).calls == 3
    ensures DownloadUnit(env, language, k, c, out, existingPath, fs).acquisition == NotFound
    ensures env.download(language, k, 2).Fetched? ==> out !in DownloadUnit(env, language, k, c, out, existingPath, fs).fs
  {
    var op := StepOp(env, language, k);
    forall i | 0 <= i < 3 ensures Retryable(op(i), VerifyPolicy.catches) {
      EveryKindIsAnException(op(i).error.kind);
      assert IsA(op(i).error.kind, VerifyPolicy.catches[0]);
    }
    PersistentFailure(op, VerifyPolicy, false);
  }

  /** On success the run's last attempt fetched a file that passed its check. */
  lemma SuccessFetched(env: Env, language: string, k: nat)
    requires UnitSucceeds(env, language, k)
    ensures var n := UnitRun(env, language, k).calls;
      n >= 1 && env.download(language, k, n - 1).Fetched?
      && Verified(env, env.download(language, k, n - 1).detected, language)
  {
    RunEndsWithLastCall(StepOp(env, language, k), VerifyPolicy, false);
  }

  /** A success reports the new file, its language and Plex code, the provider, and
      `upgraded` as "an existing file was replaced by a perfect match"; the new file exists. */
  lemma UnitSuccess(env: Env, language: string, k: nat, c: Candidate, out: string,
                    existingPath: Option<string>, fs: set<string>)
    requires UnitSucceeds(env, language, k)
    ensures DownloadUnit(env, language, k, c, out, existingPath, fs).acquisition ==
      Acquired(out, language, env.plexCode(language), c.providerName, existingPath.Some? && c.result.isPerfectMatch)
    ensures out in DownloadUnit(env, language, k, c, out, existingPath, fs).fs
  {
    SuccessFetched(env, language, k);
    var n := UnitRun(env, language, k).calls;
    assert out in FsAfter(env, language, k, fs, out, n);
  }

  /** A success removes the old file only when `RemovesOld` holds and the removal works,
      and touches no other path besides the new file. */
  lemma UnitSuccessFiles(env: Env, language: string, k: nat, c: Candidate, out: string,
                         existingPath: Option<string>, fs: set<string>)
    requires UnitSucceeds(env, language, k)
    ensures var u := DownloadUnit(env, language, k, c, out, existingPath, fs);
      && (Truthy(existingPath) && existingPath.value != out ==>
            (existingPath.value in u.fs <==>
               existingPath.value in fs && !(c.result.isPerfectMatch && !env.removeFails(existingPath.value))))
      && (forall p :: p != out && (existingPath.None? || p != existingPath.value) ==> (p in u.fs <==> p in fs))
  {
    var n := UnitRun(env, language, k).calls;
    forall p | p != out ensures p in FsAfter(env, language, k, fs, out, n) <==> p in fs {
      FsAfterTouchesOnlyOut(env, language, k, fs, out, n, p);
    }
  }

  /** Whether removing the old file fails does not change the result. */
  lemma RemovalFailureIgnored(env: Env, language: string, k: nat, c: Candidate, out: string,
                              existingPath: Option<string>, fs: set<string>)
    ensures DownloadUnit(env.(removeFails := _ => false), language, k, c, out, existingPath, fs).acquisition ==
            DownloadUnit(env.(removeFails := _ => true), language, k, c, out, existingPath, fs).acquisition
  {
    var e1 := env.(removeFails := _ => false);
    var e2 := env.(removeFails := _ => true);
    forall i: nat ensures StepOp(e1, language, k)(i) == StepOp(e2, language, k)(i) {
      var step := env.download(language, k, i);
      assert StepOutcome(e1, language, step) == StepOutcome(e2, language, step);
    }
    RunDependsOnOutcomes(StepOp(e1, language, k), StepOp(e2, language, k), VerifyPolicy, false, 0);
  }

  /** A failed unit touches only the output path. */
  lemma UnitFailure(env: Env, language: string, k: nat, c: Candidate, out: string,
                    existingPath: Option<string>, fs: set<string>)
    requires !UnitSucceeds(env, language, k)
    ensures var u := DownloadUnit(env, language, k, c, out, existingPath, fs);
      && u.acquisition == NotFound
      && forall p :: p != out ==> (p in u.fs <==> p in fs)
  {
    var n := UnitRun(env, language, k).calls;
    forall p | p != out ensures p in FsAfter(env, language, k, fs, out, n) <==> p in fs {
      FsAfterTouchesOnlyOut(env, language, k, fs, out, n, p);
    }
  }

  // ---------------------------------------------------------------- one language: `_try_download`

  /** What a stage of the pipeline produced: its result, the filesystem it leaves, and
      the entries it attempted in order (ranked positions, or language indices). */
  datatype Progress = Progress(acquisition: Acquisition, fs: set<string>, tried: seq<nat>)

  /** `os.path.join(media_dir, f"{media_name}.{language}.srt")`. */
  function OutputPath(dir: string, name: string, language: string): string {
    SubtitlePath(dir, name, language, ".srt")
  }

  /** Every provider's search answer, in provider order. */
  function Searches(env: Env, language: string, groups: Option<seq<string>>): (outs: seq<SearchOutcome>)
    ensures |outs| == |env.providers|
    ensures forall i :: 0 <= i < |outs| ==> outs[i] == env.search(i, language, groups)
  {
    seq(|env.providers|, i requires 0 <= i < |env.providers| => env.search(i, language, groups))
  }

  /** The candidate loop from ranked position `k` on, over the filesystem `fs`. */
  function CandidatesFrom(env: Env, s: Settings, language: string, ranked: seq<Candidate>, k: nat, out: string,
                          existingPath: Option<string>, fs: set<string>): Progress
    requires ranked != []
    decreases |ranked| - k
  {
    if k >= |ranked| then Progress(NotFound, fs, [])
    else if !Eligible(s, existingPath, ranked[0].result, ranked[k].result) then
      CandidatesFrom(env, s, language, ranked, k + 1, out, existingPath, fs)
    else
      var u := DownloadUnit(env, language, k, ranked[k], out, existingPath, fs);
      if u.acquisition.Acquired? then Progress(u.acquisition, u.fs, [k])
      else
        var rest := CandidatesFrom(env, s, language, ranked, k + 1, out, existingPath, u.fs);
        Progress(rest.acquisition, rest.fs, [k] + rest.tried)
  }

  /** `_try_download` for `language`. */
  function TryDownloadResult(env: Env, s: Settings, dir: string, name: string, language: string,
                             groups: Option<seq<string>>, existingPath: Option<string>, fs: set<string>): Progress
  {
    var pool := Pool(env.providers, Searches(env, language, groups));
    if pool == [] then Progress(NotFound, fs, [])
    else
      var ranked := Rank(pool);
      match Gate(s, existingPath, ranked)
      case Some(a) => Progress(a, fs, [])
      case None => CandidatesFrom(env, s, language, ranked, 0, OutputPath(dir, name, language), existingPath, fs)
  }

  /** The provider loop of `_try_download`: `all_results`, with a provider whose search
      raises skipped. */
  method SearchProviders(env: Env, language: string, groups: Option<seq<string>>) returns (all: seq<Candidate>)
    ensures all == Pool(env.providers, Searches(env, language, groups))
  {
    ghost var outcomes := Searches(env, language, groups);
    all := [];
    var i := 0;
    while i < |env.providers|
      invariant 0 <= i <= |env.providers|
      invariant all == Pool(env.providers[..i], outcomes[..i])
    {
      assert env.providers[..i + 1][..i] == env.providers[..i];
      assert outcomes[..i + 1][..i] == outcomes[..i];
      var answer := env.search(i, language, groups);
      match answer {
        case Err(_) =>
        case Ok((results, token)) =>
          all := all + Tagged(i, env.providers[i], results, token, |all|);
      }
      i := i + 1;
    }
    assert env.providers[..i] == env.providers && outcomes[..i] == outcomes;
  }

  /** The two early returns after sorting, as the source writes them. */
  method CheckGates(s: Settings, existingPath: Option<string>, ranked: seq<Candidate>) returns (gate: Option<Acquisition>)
    requires ranked != []
    ensures gate == Gate(s, existingPath, ranked)
  {
    var hasPerfect := exists j :: 0 <= j < |ranked| && ranked[j].result.isPerfectMatch;
    assert hasPerfect <==> HasPerfect(ranked);
    var best := ranked[0].result;
    if Truthy(existingPath) && !hasPerfect {
      if s.upgradeOnPopular {
        if best.downloadCount < s.popularThreshold {
          return Some(KeptExisting(existingPath.value));
        }
      } else {
        return Some(KeptExisting(existingPath.value));
      }
    }
    if Truthy(existingPath) && hasPerfect && !s.upgradeOnPerfectMatch {
      return Some(KeptExisting(existingPath.value));
    }
    gate := None;
  }

  /** The candidate loop of `_try_download`, with its skips and early return. */
  method TryCandidates(env: Env, s: Settings, language: string, ranked: seq<Candidate>, out: string,
                       existingPath: Option<string>, fs: set<string>)
    returns (result: Acquisition, fs': set<string>)
    requires ranked != []
    ensures result == CandidatesFrom(env, s, language, ranked, 0, out, existingPath, fs).acquisition
    ensures fs' == CandidatesFrom(env, s, language, ranked, 0, out, existingPath, fs).fs
  {
    var best := ranked[0].result;
    fs' := fs;
    ghost var tried: seq<nat> := [];
    var k := 0;
    while k < |ranked|
      invariant 0 <= k <= |ranked|
      invariant var rest := CandidatesFrom(env, s, language, ranked, k, out, existingPath, fs');
        CandidatesFrom(env, s, language, ranked, 0, out, existingPath, fs) == Progress(rest.acquisition, rest.fs, tried + rest.tried)
      decreases |ranked| - k
    {
      var c := ranked[k];
      var skip := false;
      if Truthy(existingPath) && !c.result.isPerfectMatch {
        if !s.upgradeOnPopular {
          skip := true;
        } else if !SameFields(c.result, best) {
          skip := true;
        }
      }
      assert skip <==> !Eligible(s, existingPath, best, c.result);
      if !skip {
        var r, fs2 := DownloadWithRetry(env, language, k, c, out, existingPath, fs');
        if r.Acquired? {
          return r, fs2;
        }
        ghost var rest := CandidatesFrom(env, s, language, ranked, k + 1, out, existingPath, fs2);
        assert CandidatesFrom(env, s, language, ranked, k, out, existingPath, fs')
          == Progress(rest.acquisition, rest.fs, [k] + rest.tried);
        assert (tried + [k]) + rest.tried == tried + ([k] + rest.tried);
        tried := tried + [k];
        fs' := fs2;
      }
      k := k + 1;
    }
    result := NotFound;
  }

  /** `_try_download(media_dir, media_name, ..., language, release_groups, existing_path)`:
      pool every provider's results, rank them, apply the gates, then attempt the eligible
      candidates in order until one succeeds. */
  method TryDownload(env: Env, s: Settings, dir: string, name: string, language: string,
                     groups: Option<seq<string>>, existingPath: Option<string>, fs: set<string>)
    returns (result: Acquisition, fs': set<string>)
    ensures result == TryDownloadResult(env, s, dir, name, language, groups, existingPath, fs).acquisition
    ensures fs' == TryDownloadResult(env, s, dir, name, language, groups, existingPath, fs).fs
  {
    var all := SearchProviders(env, language, groups);
    if all == [] {
      return NotFound, fs;
    }
    all := Rank(all);
    var gate := CheckGates(s, existingPath, all);
    if gate.Some? {
      return gate.value, fs;
    }
    result, fs' := TryCandidates(env, s, language, all, OutputPath(dir, name, language), existingPath, fs);
  }

  /** No result from any provider (none listed, or every search raised): nothing is
      downloaded and the filesystem is unchanged. */
  lemma EmptyPoolNotFound(env: Env, s: Settings, dir: string, name: string, language: string,
                          groups: Option<seq<string>>, existingPath: Option<string>, fs: set<string>)
    requires forall i :: 0 <= i < |env.providers| ==> env.search(i, language, groups).Err?
    ensures TryDownloadResult(env, s, dir, name, language, groups, existingPath, fs) == Progress(NotFound, fs, [])
  {
    EmptyPool(env.providers, Searches(env, language, groups));
  }

  lemma {:induction false} EmptyPool(names: seq<string>, outcomes: seq<SearchOutcome>)
    requires |names| == |outcomes| && forall i :: 0 <= i < |outcomes| ==> outcomes[i].Err?
    ensures Pool(names, outcomes) == []
  {
    if names != [] {
      EmptyPool(names[..|names| - 1], outcomes[..|outcomes| - 1]);
    }
  }

  /** Is some entry downloaded at least `threshold` times? */
  predicate HasPopular(cs: seq<Candidate>, threshold: int) {
    exists c :: c in cs && c.result.downloadCount >= threshold
  }

  /** The popularity gate: with an existing file and no perfect match among the pooled
      results, a download is attempted only in upgrade-on-popular mode and only when some
      result reaches the threshold; otherwise the existing file is kept, untouched. */
  lemma PopularityGate(env: Env, s: Settings, dir: string, name: string, language: string,
                       groups: Option<seq<string>>, existingPath: Option<string>, fs: set<string>)
    requires var pool := Pool(env.providers, Searches(env, language, groups));
      pool != [] && Truthy(existingPath) && !HasPerfect(pool)
    ensures var pool := Pool(env.providers, Searches(env, language, groups));
      var t := TryDownloadResult(env, s, dir, name, language, groups, existingPath, fs);
      && (t.tried != [] ==> s.upgradeOnPopular && HasPopular(pool, s.popularThreshold))
      && (!(s.upgradeOnPopular && HasPopular(pool, s.popularThreshold)) ==>
            t == Progress(KeptExisting(existingPath.value), fs, []))
  {
    var pool := Pool(env.providers, Searches(env, language, groups));
    var ranked := Rank(pool);
    RankMembers(pool);
    BestFirst(pool);
    assert ranked[0] in pool by {
      assert ranked[0] in ranked;
    }
    assert HasPopular(pool, s.popularThreshold) <==> ranked[0].result.downloadCount >= s.popularThreshold;
  }

  /** The perfect-match gate: with an existing file, a perfect match among the pooled
      results and upgrade-on-perfect-match off, the existing file is kept, untouched. */
  lemma PerfectMatchGate(env: Env, s: Settings, dir: string, name: string, language: string,
                         groups: Option<seq<string>>, existingPath: Option<string>, fs: set<string>)
    requires var pool := Pool(env.providers, Searches(env, language, groups));
      Truthy(existingPath) && HasPerfect(pool) && !s.upgradeOnPerfectMatch
    ensures TryDownloadResult(env, s, dir, name, language, groups, existingPath, fs) ==
      Progress(KeptExisting(existingPath.value), fs, [])
  {
    RankMembers(Pool(env.providers, Searches(env, language, groups)));
  }

  /** The ranked positions from `k` on that the candidate loop would attempt, in order. */
  function EligiblePositions(s: Settings, existingPath: Option<string>, ranked: seq<Candidate>, k: nat): (ps: seq<nat>)
    requires ranked != []
    ensures forall m :: m in ps <==> k <= m < |ranked| && Eligible(s, existingPath, ranked[0].result, ranked[m].result)
    decreases |ranked| - k
  {
    if k >= |ranked| then []
    else if Eligible(s, existingPath, ranked[0].result, ranked[k].result) then [k] + EligiblePositions(s, existingPath, ranked, k + 1)
    else EligiblePositions(s, existingPath, ranked, k + 1)
  }

  predicate Increasing(ps: seq<nat>) {
    forall i, j :: 0 <= i < j < |ps| ==> ps[i] < ps[j]
  }

  /** The eligible positions come in increasing order. */
  lemma {:induction false} EligibleIncreasing(s: Settings, existingPath: Option<string>, ranked: seq<Candidate>, k: nat)
    requires ranked != []
    ensures Increasing(EligiblePositions(s, existingPath, ranked, k))
    decreases |ranked| - k
  {
    if k < |ranked| {
      EligibleIncreasing(s, existingPath, ranked, k + 1);
      var ps := EligiblePositions(s, existingPath, ranked, k);
      var rest := EligiblePositions(s, existingPath, ranked, k + 1);
      if Eligible(s, existingPath, ranked[0].result, ranked[k].result) {
        assert ps == [k] + rest;
        forall i, j | 0 <= i < j < |ps| ensures ps[i] < ps[j] {
          assert ps[j] == rest[j - 1] && rest[j - 1] in rest;
          if i > 0 {
            assert ps[i] == rest[i - 1];
            assert rest[i - 1] < rest[j - 1];
          }
        }
      } else {
        assert ps == rest;
      }
    }
  }

  /** The candidate loop attempts a prefix of the eligible positions, in rank order, and
      when nothing succeeds it has attempted them all. */
  lemma {:induction false} CandidatesTried(env: Env, s: Settings, language: string, ranked: seq<Candidate>, k: nat, out: string,
                                           existingPath: Option<string>, fs: set<string>)
    requires ranked != []
    ensures var p := CandidatesFrom(env, s, language, ranked, k, out, existingPath, fs);
      var ps := EligiblePositions(s, existingPath, ranked, k);
      && |p.tried| <= |ps| && p.tried == ps[..|p.tried|]
      && (!p.acquisition.Acquired? ==> p.acquisition.NotFound? && p.tried == ps)
    decreases |ranked| - k
  {
    if k < |ranked| {
      if !Eligible(s, existingPath, ranked[0].result, ranked[k].result) {
        CandidatesTried(env, s, language, ranked, k + 1, out, existingPath, fs);
      } else if !UnitSucceeds(env, language, k) {
        var u := DownloadUnit(env, language, k, ranked[k], out, existingPath, fs);
        CandidatesTried(env, s, language, ranked, k + 1, out, existingPath, u.fs);
        var rest := CandidatesFrom(env, s, language, ranked, k + 1, out, existingPath, u.fs);
        var ps := EligiblePositions(s, existingPath, ranked, k + 1);
        assert ([k] + ps)[..1 + |rest.tried|] == [k] + ps[..|rest.tried|];
      } else {
        DownloadWithRetrySucceeds(env, language, k, ranked[k], out, existingPath, fs);
      }
    }
  }

  /** Every attempt but the last failed; the loop stops at the first success, and when it
      finds none every attempt failed. */
  lemma {:induction false} CandidatesStopAtSuccess(env: Env, s: Settings, language: string, ranked: seq<Candidate>, k: nat,
                                                   out: string, existingPath: Option<string>, fs: set<string>)
    requires ranked != []
    ensures var p := CandidatesFrom(env, s, language, ranked, k, out, existingPath, fs);
      && (forall j :: 0 <= j < |p.tried| - 1 ==> !UnitSucceeds(env, language, p.tried[j]))
      && (p.acquisition.Acquired? ==> (p.tried != [] && UnitSucceeds(env, language, p.tried[|p.tried| - 1])))
      && (!p.acquisition.Acquired? ==> forall j :: 0 <= j < |p.tried| ==> !UnitSucceeds(env, language, p.tried[j]))
    decreases |ranked| - k
  {
    if k < |ranked| {
      if !Eligible(s, existingPath, ranked[0].result, ranked[k].result) {
        CandidatesStopAtSuccess(env, s, language, ranked, k + 1, out, existingPath, fs);
      } else if !UnitSucceeds(env, language, k) {
        var u := DownloadUnit(env, language, k, ranked[k], out, existingPath, fs);
        CandidatesStopAtSuccess(env, s, language, ranked, k + 1, out, existingPath, u.fs);
      } else {
        DownloadWithRetrySucceeds(env, language, k, ranked[k], out, existingPath, fs);
      }
    }
  }

  lemma DownloadWithRetrySucceeds(env: Env, language: string, k: nat, c: Candidate, out: string,
                                  existingPath: Option<string>, fs: set<string>)
    requires UnitSucceeds(env, language, k)
    ensures DownloadUnit(env, language, k, c, out, existingPath, fs).acquisition == SuccessRecord(env, c, out, language, existingPath)
  {
  }

  /** A success of the candidate loop is the success record of the last candidate it
      attempted. */
  lemma {:induction false} CandidatesRecord(env: Env, s: Settings, language: string, ranked: seq<Candidate>, k: nat, out: string,
                                            existingPath: Option<string>, fs: set<string>)
    requires ranked != []
    ensures var p := CandidatesFrom(env, s, language, ranked, k, out, existingPath, fs);
      p.acquisition.Acquired? ==>
        (p.tried != [] && p.tried[|p.tried| - 1] < |ranked|
         && p.acquisition == SuccessRecord(env, ranked[p.tried[|p.tried| - 1]], out, language, existingPath))
    decreases |ranked| - k
  {
    if k < |ranked| {
      if !Eligible(s, existingPath, ranked[0].result, ranked[k].result) {
        CandidatesRecord(env, s, language, ranked, k + 1, out, existingPath, fs);
      } else if !UnitSucceeds(env, language, k) {
        var u := DownloadUnit(env, language, k, ranked[k], out, existingPath, fs);
        CandidatesRecord(env, s, language, ranked, k + 1, out, existingPath, u.fs);
      }
    }
  }

  /** The order argument behind the next lemma, about a prefix `t` of the eligible
      positions whose attempts all fail except perhaps the last: success comes from the
      first eligible position whose unit succeeds. */
  lemma FirstSuccessInPrefix(env: Env, s: Settings, language: string, ranked: seq<Candidate>,
                             existingPath: Option<string>, t: seq<nat>, acquired: bool)
    requires ranked != []
    requires var ps := EligiblePositions(s, existingPath, ranked, 0); |t| <= |ps| && t == ps[..|t|]
    requires forall j :: 0 <= j < |t| - 1 ==> !UnitSucceeds(env, language, t[j])
    requires acquired ==> t != [] && UnitSucceeds(env, language, t[|t| - 1])
    requires !acquired ==> t == EligiblePositions(s, existingPath, ranked, 0) && forall j :: 0 <= j < |t| ==> !UnitSucceeds(env, language, t[j])
    ensures acquired <==>
      exists m :: 0 <= m < |ranked| && Eligible(s, existingPath, ranked[0].result, ranked[m].result) && UnitSucceeds(env, language, m)
    ensures acquired ==>
      var w := t[|t| - 1];
      && w < |ranked| && Eligible(s, existingPath, ranked[0].result, ranked[w].result) && UnitSucceeds(env, language, w)
      && forall m :: 0 <= m < w && Eligible(s, existingPath, ranked[0].result, ranked[m].result) ==> !UnitSucceeds(env, language, m)
  {
    var ps := EligiblePositions(s, existingPath, ranked, 0);
    var best := ranked[0].result;
    EligibleIncreasing(s, existingPath, ranked, 0);
    if acquired {
      var w := t[|t| - 1];
      assert w in ps by {
        assert ps[|t| - 1] == w;
      }
      forall m | 0 <= m < w && Eligible(s, existingPath, best, ranked[m].result)
        ensures !UnitSucceeds(env, language, m)
      {
        assert m in ps;
        var j :| 0 <= j < |ps| && ps[j] == m;
        assert t[j] == m;
      }
    } else {
      forall m | 0 <= m < |ranked| && Eligible(s, existingPath, best, ranked[m].result)
        ensures !UnitSucceeds(env, language, m)
      {
        assert m in ps;
        var j :| 0 <= j < |ps| && ps[j] == m;
        assert t[j] == m;
      }
    }
  }

  /** The candidate loop succeeds iff some eligible candidate's unit succeeds, and then
      with the first such candidate in rank order. */
  lemma FirstEligibleSuccessWins(env: Env, s: Settings, language: string, ranked: seq<Candidate>, out: string,
                                 existingPath: Option<string>, fs: set<string>)
    requires ranked != []
    ensures var p := CandidatesFrom(env, s, language, ranked, 0, out, existingPath, fs);
      var best := ranked[0].result;
      && (p.acquisition.Acquired? <==>
            exists m :: 0 <= m < |ranked| && Eligible(s, existingPath, best, ranked[m].result) && UnitSucceeds(env, language, m))
      && (p.acquisition.Acquired? ==>
            exists w :: (0 <= w < |ranked|
              && Eligible(s, existingPath, best, ranked[w].result) && UnitSucceeds(env, language, w)
              && p.acquisition == SuccessRecord(env, ranked[w], out, language, existingPath)
              && forall m :: 0 <= m < w && Eligible(s, existingPath, best, ranked[m].result) ==> !UnitSucceeds(env, language, m)))
  {
    var p := CandidatesFrom(env, s, language, ranked, 0, out, existingPath, fs);
    CandidatesTried(env, s, language, ranked, 0, out, existingPath, fs);
    CandidatesStopAtSuccess(env, s, language, ranked, 0, out, existingPath, fs);
    CandidatesRecord(env, s, language, ranked, 0, out, existingPath, fs);
    FirstSuccessInPrefix(env, s, language, ranked, existingPath, p.tried, p.acquisition.Acquired?);
  }

  /** The candidate loop changes only the output path and the old file, and the old file
      (when it is another path) disappears iff the result reports an upgrade and removing
      it works. A popularity upgrade therefore keeps the old file and reports no upgrade. */
  lemma {:induction false} CandidatesFiles(env: Env, s: Settings, language: string, ranked: seq<Candidate>, k: nat, out: string,
                                           existingPath: Option<string>, fs: set<string>)
    requires ranked != []
    ensures var p := CandidatesFrom(env, s, language, ranked, k, out, existingPath, fs);
      && (forall q :: q != out && (existingPath.None? || q != existingPath.value) ==> (q in p.fs <==> q in fs))
      && (Truthy(existingPath) && existingPath.value != out ==>
            (existingPath.value in p.fs <==>
               (existingPath.value in fs && !(p.acquisition.Acquired? && p.acquisition.upgraded && !env.removeFails(existingPath.value)))))
    decreases |ranked| - k
  {
    if k < |ranked| {
      var best := ranked[0].result;
      if !Eligible(s, existingPath, best, ranked[k].result) {
        CandidatesFiles(env, s, language, ranked, k + 1, out, existingPath, fs);
      } else if UnitSucceeds(env, language, k) {
        UnitSuccessFiles(env, language, k, ranked[k], out, existingPath, fs);
      } else {
        UnitFailure(env, language, k, ranked[k], out, existingPath, fs);
        var u := DownloadUnit(env, language, k, ranked[k], out, existingPath, fs);
        CandidatesFiles(env, s, language, ranked, k + 1, out, existingPath, u.fs);
      }
    }
  }

  /** With an existing file, only a perfect match or the top-ranked result itself (in
      upgrade-on-popular mode) is ever attempted. */
  lemma OnlyEligibleAttempted(env: Env, s: Settings, language: string, ranked: seq<Candidate>, out: string,
                              existingPath: Option<string>, fs: set<string>)
    requires ranked != [] && Truthy(existingPath)
    ensures var p := CandidatesFrom(env, s, language, ranked, 0, out, existingPath, fs);
      forall j :: 0 <= j < |p.tried| ==>
        (p.tried[j] < |ranked|
         && (ranked[p.tried[j]].result.isPerfectMatch
             || (s.upgradeOnPopular && SameFields(ranked[p.tried[j]].result, ranked[0].result))))
  {
    CandidatesTried(env, s, language, ranked, 0, out, existingPath, fs);
    var p := CandidatesFrom(env, s, language, ranked, 0, out, existingPath, fs);
    var ps := EligiblePositions(s, existingPath, ranked, 0);
    forall j | 0 <= j < |p.tried| ensures p.tried[j] in ps {
      assert p.tried[j] == ps[j];
    }
  }

  // ---------------------------------------------------------------- all languages: `download_subtitles`

  /** The `release_groups` argument: the fingerprint when release matching is on, else None. */
  function ReleaseGroups(env: Env, s: Settings): Option<seq<string>> {
    if s.useReleaseMatching then
      Some(if env.guess.None? then [] else ReleaseMatcher.Dedup(ReleaseMatcher.RawTokens(env.guess.value)))
    else None
  }

  /** `_try_download` for one language of the loop, as a function of the language, its
      existing subtitle and the filesystem. */
  type Attempt = (string, Option<string>, set<string>) -> Progress

  function TryDownloadAttempt(env: Env, s: Settings, dir: string, name: string, groups: Option<seq<string>>): Attempt {
    (lang: string, existingPath: Option<string>, fs: set<string>) =>
      TryDownloadResult(env, s, dir, name, lang, groups, existingPath, fs)
  }

  /** Every success of `attempt` names the language it was asked for and that language's
      output path. */
  ghost predicate NamesItsLanguage(attempt: Attempt, dir: string, name: string) {
    forall lang, existingPath, fs :: attempt(lang, existingPath, fs).acquisition.Acquired? ==>
      && attempt(lang, existingPath, fs).acquisition.language == lang
      && attempt(lang, existingPath, fs).acquisition.path == OutputPath(dir, name, lang)
  }

  /** The language loop from index `i` on, `attempt` being `_try_download`. A "kept
      existing" answer of `_try_download` does not count as success, so the loop moves on
      to the next language. */
  function LanguagesFrom(s: Settings, attempt: Attempt, existing: Dict<string, string>, i: nat, fs: set<string>): Progress
    decreases |s.languages| - i
  {
    if i >= |s.languages| then Progress(NotFound, fs, [])
    else
      match ShouldSkipLanguageCheck(i == 0, s.languages[0], existing, s)
      case Some(a) => Progress(a, fs, [])
      case None =>
        var lang := s.languages[i];
        var r := attempt(lang, Get(existing, lang), fs);
        if r.acquisition.Acquired? then Progress(r.acquisition, r.fs, [i])
        else
          var rest := LanguagesFrom(s, attempt, existing, i + 1, r.fs);
          Progress(rest.acquisition, rest.fs, [i] + rest.tried)
  }

  /** `os.path.dirname(media_path)` and `os.path.splitext(os.path.basename(media_path))[0]`. */
  function MediaDir(mediaPath: string): string {
    PosixPath.Dirname(mediaPath)
  }

  function MediaName(mediaPath: string): string {
    PosixPath.StripExtension(PosixPath.Basename(mediaPath))
  }

  /** `download_subtitles(media_path, ...)`; `tried` lists the languages searched. */
  function DownloadResult(env: Env, s: Settings, mediaPath: string, fs: set<string>): Progress {
    var dir := MediaDir(mediaPath);
    var name := MediaName(mediaPath);
    if s.languages == [] then Progress(NotFound, fs, [])
    else
      var existing := ExistingSubtitles(s.languages, dir, name, fs);
      match ShouldSkipFirstLanguage(existing, s.languages[0], s)
      case Some(a) => Progress(a, fs, [])
      case None => LanguagesFrom(s, TryDownloadAttempt(env, s, dir, name, ReleaseGroups(env, s)), existing, 0, fs)
  }

  /** One step of the language loop. */
  lemma LanguagesUnfold(s: Settings, attempt: Attempt, existing: Dict<string, string>, i: nat, fs: set<string>)
    requires i < |s.languages|
    ensures var skip := ShouldSkipLanguageCheck(i == 0, s.languages[0], existing, s);
      var t := attempt(s.languages[i], Get(existing, s.languages[i]), fs);
      var p := LanguagesFrom(s, attempt, existing, i, fs);
      var next := LanguagesFrom(s, attempt, existing, i + 1, t.fs);
      && (skip.Some? ==> p == Progress(skip.value, fs, []))
      && (skip.None? && t.acquisition.Acquired? ==> p == Progress(t.acquisition, t.fs, [i]))
      && (skip.None? && !t.acquisition.Acquired? ==> p == Progress(next.acquisition, next.fs, [i] + next.tried))
  {
  }

  /** One language of the loop in `download_subtitles`: the skip check, then
      `_try_download`; `stop` says the loop returns here. */
  method TryLanguage(env: Env, s: Settings, dir: string, name: string, groups: Option<seq<string>>,
                     existing: Dict<string, string>, i: nat, fs: set<string>)
    returns (stop: bool, result: Acquisition, fs': set<string>)
    requires i < |s.languages|
    ensures var p := LanguagesFrom(s, TryDownloadAttempt(env, s, dir, name, groups), existing, i, fs);
      && (stop ==> result == p.acquisition && fs' == p.fs)
      && (!stop ==> !result.Acquired?)
    ensures !stop ==>
      var p := LanguagesFrom(s, TryDownloadAttempt(env, s, dir, name, groups), existing, i, fs);
      var next := LanguagesFrom(s, TryDownloadAttempt(env, s, dir, name, groups), existing, i + 1, fs');
      p.acquisition == next.acquisition && p.fs == next.fs
  {
    LanguagesUnfold(s, TryDownloadAttempt(env, s, dir, name, groups), existing, i, fs);
    var lang := s.languages[i];
    var skipCheck := ShouldSkipLanguageCheck(i == 0, s.languages[0], existing, s);
    if skipCheck.Some? {
      return true, skipCheck.value, fs;
    }
    result, fs' := TryDownload(env, s, dir, name, lang, groups, Get(existing, lang), fs);
    stop := result.Acquired?;
  }

  /** The language loop of `download_subtitles`. */
  method TryLanguages(env: Env, s: Settings, dir: string, name: string, groups: Option<seq<string>>,
                      existing: Dict<string, string>, fs: set<string>)
    returns (result: Acquisition, fs': set<string>)
    ensures result == LanguagesFrom(s, TryDownloadAttempt(env, s, dir, name, groups), existing, 0, fs).acquisition
    ensures fs' == LanguagesFrom(s, TryDownloadAttempt(env, s, dir, name, groups), existing, 0, fs).fs
  {
    fs' := fs;
    ghost var attempt := TryDownloadAttempt(env, s, dir, name, groups);
    ghost var whole := LanguagesFrom(s, attempt, existing, 0, fs);
    var i := 0;
    while i < |s.languages|
      invariant 0 <= i <= |s.languages|
      invariant whole.acquisition == LanguagesFrom(s, attempt, existing, i, fs').acquisition
      invariant whole.fs == LanguagesFrom(s, attempt, existing, i, fs').fs
      decreases |s.languages| - i
    {
      var stop, r, fs2 := TryLanguage(env, s, dir, name, groups, existing, i, fs');
      if stop {
        return r, fs2;
      }
      fs' := fs2;
      i := i + 1;
    }
    result := NotFound;
  }

  /** `download_subtitles(media_path, title, year, imdb_id, rating_key)`. */
  method DownloadSubtitles(env: Env, s: Settings, mediaPath: string, fs: set<string>)
    returns (result: Acquisition, fs': set<string>)
    ensures result == DownloadResult(env, s, mediaPath, fs).acquisition
    ensures fs' == DownloadResult(env, s, mediaPath, fs).fs
  {
    var dir := PosixPath.Dirname(mediaPath);
    var name := PosixPath.StripExtension(PosixPath.Basename(mediaPath));
    var languages := s.languages;
    if |languages| == 0 {
      return NotFound, fs;
    }
    var existing := GetExistingSubtitles(languages, dir, name, fs);
    var skipResult := ShouldSkipFirstLanguage(existing, languages[0], s);
    if skipResult.Some? {
      return skipResult.value, fs;
    }
    var groups: Option<seq<string>> := None;
    if s.useReleaseMatching {
      var info := ReleaseMatcher.ExtractReleaseInfo(env.guess);
      groups := Some(info);
    }
    result, fs' := TryLanguages(env, s, dir, name, groups, existing, fs);
  }

  /** No configured language: `{"success": False}`, no search, nothing written. */
  lemma NoLanguages(env: Env, s: Settings, mediaPath: string, fs: set<string>)
    requires s.languages == []
    ensures DownloadResult(env, s, mediaPath, fs) == Progress(NotFound, fs, [])
  {
  }

  /** The language loop tries consecutive languages from `i` on. */
  lemma {:induction false} LanguagesTried(s: Settings, attempt: Attempt, existing: Dict<string, string>, i: nat, fs: set<string>)
    requires i <= |s.languages|
    ensures var p := LanguagesFrom(s, attempt, existing, i, fs);
      && i + |p.tried| <= |s.languages|
      && (forall j :: 0 <= j < |p.tried| ==> p.tried[j] == i + j)
    decreases |s.languages| - i
  {
    if i < |s.languages| {
      var r := attempt(s.languages[i], Get(existing, s.languages[i]), fs);
      if ShouldSkipLanguageCheck(i == 0, s.languages[0], existing, s).None? && !r.acquisition.Acquired? {
        LanguagesTried(s, attempt, existing, i + 1, r.fs);
      }
    }
  }

  /** The loop stops at the first language whose `_try_download` succeeds, and the result
      names that language and its output path. A "kept existing" result can only come
      from the first-language check, before any search. When nothing is found, every
      remaining language was tried. */
  lemma {:induction false} LanguagesShape(s: Settings, attempt: Attempt, dir: string, name: string,
                                          existing: Dict<string, string>, i: nat, fs: set<string>)
    requires i <= |s.languages|
    requires NamesItsLanguage(attempt, dir, name)
    ensures var p := LanguagesFrom(s, attempt, existing, i, fs);
      && i + |p.tried| <= |s.languages|
      && (p.acquisition.KeptExisting? ==>
            i == 0 && p.tried == [] && p.fs == fs
            && Some(p.acquisition) == ShouldSkipLanguageCheck(true, s.languages[0], existing, s))
      && (p.acquisition.Acquired? ==>
            && p.tried != [] && p.acquisition.language == s.languages[i + |p.tried| - 1]
            && p.acquisition.path == OutputPath(dir, name, p.acquisition.language))
      && (p.acquisition.NotFound? ==> i + |p.tried| == |s.languages|)
    decreases |s.languages| - i
  {
    if i < |s.languages| && ShouldSkipLanguageCheck(i == 0, s.languages[0], existing, s).None? {
      var r := attempt(s.languages[i], Get(existing, s.languages[i]), fs);
      if !r.acquisition.Acquired? {
        LanguagesShape(s, attempt, dir, name, existing, i + 1, r.fs);
      }
    }
  }

  /** A success of `_try_download` names the language it searched and the output path. */
  lemma TryDownloadNames(env: Env, s: Settings, dir: string, name: string, language: string,
                         groups: Option<seq<string>>, existingPath: Option<string>, fs: set<string>)
    ensures var t := TryDownloadResult(env, s, dir, name, language, groups, existingPath, fs);
      t.acquisition.Acquired? ==> t.acquisition.language == language && t.acquisition.path == OutputPath(dir, name, language)
  {
    var pool := Pool(env.providers, Searches(env, language, groups));
    if pool != [] && Gate(s, existingPath, Rank(pool)).None? {
      CandidatesRecord(env, s, language, Rank(pool), 0, OutputPath(dir, name, language), existingPath, fs);
    }
  }

  /** So `_try_download`, as the language loop calls it, names its language and path. */
  lemma TryDownloadAttemptNames(env: Env, s: Settings, dir: string, name: string, groups: Option<seq<string>>)
    ensures NamesItsLanguage(TryDownloadAttempt(env, s, dir, name, groups), dir, name)
  {
    forall lang, existingPath, fs {
      TryDownloadNames(env, s, dir, name, lang, groups, existingPath, fs);
    }
  }

  /** The first language already has a subtitle and release matching or
      upgrade-on-perfect-match is off: that file is kept, no provider is searched and no
      other language is tried. */
  lemma FirstLanguageKept(env: Env, s: Settings, mediaPath: string, fs: set<string>)
    requires s.languages != []
    requires FirstExisting(MediaDir(mediaPath), MediaName(mediaPath), s.languages[0], fs).Some?
    requires !s.useReleaseMatching || !s.upgradeOnPerfectMatch
    ensures DownloadResult(env, s, mediaPath, fs) ==
      Progress(KeptExisting(FirstExisting(MediaDir(mediaPath), MediaName(mediaPath), s.languages[0], fs).value), fs, [])
  {
    ExistingLookup(s.languages, MediaDir(mediaPath), MediaName(mediaPath), fs, s.languages[0]);
  }

  /** The pipeline's result is one of three: nothing found, the first language's existing
      file kept, or a download in one of the configured languages to
      `{dir}/{name}.{language}.srt`. */
  lemma DownloadOutcomes(env: Env, s: Settings, mediaPath: string, fs: set<string>)
    ensures var p := DownloadResult(env, s, mediaPath, fs);
      var dir := MediaDir(mediaPath);
      var name := MediaName(mediaPath);
      && (p.acquisition.KeptExisting? ==>
            s.languages != [] && p.tried == [] && p.fs == fs
            && Some(p.acquisition.existing) == FirstExisting(dir, name, s.languages[0], fs))
      && (p.acquisition.Acquired? ==>
            p.acquisition.language in s.languages && p.acquisition.path == OutputPath(dir, name, p.acquisition.language))
      && (p.acquisition.NotFound? && s.languages != [] ==> |p.tried| == |s.languages|)
  {
    var dir := MediaDir(mediaPath);
    var name := MediaName(mediaPath);
    if s.languages != [] {
      var existing := ExistingSubtitles(s.languages, dir, name, fs);
      ExistingLookup(s.languages, dir, name, fs, s.languages[0]);
      if ShouldSkipFirstLanguage(existing, s.languages[0], s).None? {
        var attempt := TryDownloadAttempt(env, s, dir, name, ReleaseGroups(env, s));
        TryDownloadAttemptNames(env, s, dir, name, ReleaseGroups(env, s));
        LanguagesShape(s, attempt, dir, name, existing, 0, fs);
      }
    }
  }

  /** A language whose `_try_download` keeps its existing file is not the end: the next
      language is searched. */
  lemma GatedLanguageFallsThrough(s: Settings, attempt: Attempt, existing: Dict<string, string>, i: nat, fs: set<string>)
    requires i + 1 < |s.languages|
    requires ShouldSkipLanguageCheck(i == 0, s.languages[0], existing, s).None?
    requires attempt(s.languages[i], Get(existing, s.languages[i]), fs).acquisition.KeptExisting?
    ensures var p := LanguagesFrom(s, attempt, existing, i, fs);
      |p.tried| >= 2 && p.tried[0] == i && p.tried[1] == i + 1
  {
    var r := attempt(s.languages[i], Get(existing, s.languages[i]), fs);
    assert ShouldSkipLanguageCheck(false, s.languages[0], existing, s).None?;
    assert LanguagesFrom(s, attempt, existing, i + 1, r.fs).tried[0] == i + 1;
  }
}
