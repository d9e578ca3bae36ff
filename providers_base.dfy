/** The provider interface: the `SubtitleResult` record every provider returns,
    and the state a provider is constructed with. */
module ProviderBase {
  import opened Wrappers
  import opened Strings

  /** A JSON scalar as it comes out of a provider's reply (`None`, a number or a string). */
  datatype JsonScalar = JNull | JInt(i: int) | JStr(s: string)

  /** Python's `str(x)` on a JSON scalar. */
  function PyStr(x: JsonScalar): string {
    match x
    case JNull => "None"
    case JInt(i) => IntToString(i)
    case JStr(s) => s
  }

  /** A match score `matches / total`, kept as the exact fraction; a zero total is the
      score 0.0 (the record's default and the score of an empty fingerprint). */
  datatype Score = Score(matches: nat, total: nat)

  function Numerator(s: Score): nat { if s.total == 0 then 0 else s.matches }

  function Denominator(s: Score): nat { if s.total == 0 then 1 else s.total }

  /** `a < b` on the scores' values. */
  predicate ScoreLess(a: Score, b: Score) {
    Numerator(a) * Denominator(b) < Numerator(b) * Denominator(a)
  }

  /** `a == b` on the scores' values: 1/2 equals 2/4, and 0/0 equals 0/3. */
  predicate ScoreEq(a: Score, b: Score) {
    Numerator(a) * Denominator(b) == Numerator(b) * Denominator(a)
  }

  /** A found subtitle. `downloadParams` is the provider's keyword map (a `dict`,
      equal to another one regardless of insertion order). */
  datatype SubtitleResult = SubtitleResult(
    id: string,
    language: string,
    release: string,
    filename: string,
    downloadUrl: Option<string>,
    downloadParams: Option<map<string, JsonScalar>>,
    isPerfectMatch: bool,
    provider: string,
    score: Score,
    downloadCount: int)

  /** `SubtitleResult(id, language, release, filename)` with every other field at its default. */
  function NewSubtitleResult(id: string, language: string, release: string, filename: string): (r: SubtitleResult)
    ensures r.id == id && r.language == language && r.release == release && r.filename == filename
    ensures r.downloadUrl == None && r.downloadParams == None
    ensures !r.isPerfectMatch && r.provider == "" && r.downloadCount == 0
    ensures Numerator(r.score) == 0
  {
    SubtitleResult(id, language, release, filename, None, None, false, "", Score(0, 0), 0)
  }

  /** The dataclass `==`: every field equal, the float score by value. */
  predicate SameFields(a: SubtitleResult, b: SubtitleResult) {
    && a.id == b.id && a.language == b.language && a.release == b.release && a.filename == b.filename
    && a.downloadUrl == b.downloadUrl && a.downloadParams == b.downloadParams
    && a.isPerfectMatch == b.isPerfectMatch && a.provider == b.provider
    && ScoreEq(a.score, b.score) && a.downloadCount == b.downloadCount
  }

  /** Dataclass equality is an equivalence that identical records satisfy, and that can hold
      between records built from different fractions of the same score. */
  lemma SameFieldsIsEquivalence(a: SubtitleResult, b: SubtitleResult, c: SubtitleResult)
    ensures SameFields(a, a)
    ensures SameFields(a, b) ==> SameFields(b, a)
    ensures SameFields(a, b) && SameFields(b, c) ==> SameFields(a, c)
  {
    if SameFields(a, b) && SameFields(b, c) {
      ScoreEqTransitive(a.score, b.score, c.score);
    }
  }

  lemma ScoreEqTransitive(a: Score, b: Score, c: Score)
    requires ScoreEq(a, b) && ScoreEq(b, c)
    ensures ScoreEq(a, c)
  {
    var na, da, nb, db, nc, dc := Numerator(a), Denominator(a), Numerator(b), Denominator(b), Numerator(c), Denominator(c);
    assert na * db == nb * da;
    assert nb * dc == nc * db;
    assert (na * dc) * db == (na * db) * dc;
    assert (nc * da) * db == (nb * dc) * da by {
      assert nc * db == nb * dc;
    }
    assert (na * db) * dc == (nb * da) * dc;
    assert (na * dc) * db == (nc * da) * db;
    MultiplyCancel(na * dc, nc * da, db);
  }

  lemma MultiplyCancel(x: int, y: int, d: int)
    requires d > 0 && x * d == y * d
    ensures x == y
  {
    assert (x - y) * d == 0;
  }

  /** Two records that differ only in their score are field-equal exactly when the scores
      are equal as numbers, yet they are different values whenever the fractions differ,
      as 1/2 and 2/4 do. */
  lemma SameFieldsIsNotIdentity(a: SubtitleResult, x: Score, y: Score)
    ensures SameFields(a.(score := x), a.(score := y)) <==> ScoreEq(x, y)
    ensures x != y ==> a.(score := x) != a.(score := y)
    ensures ScoreEq(Score(1, 2), Score(2, 4)) && Score(1, 2) != Score(2, 4)
  {
  }

  /** A provider's constructor state: `enabled`, and `name` derived from its class name. */
  datatype Provider = Provider(enabled: bool, name: string)

  /** The provider-name rule: the class name with every "Provider" removed, lower-cased. */
  function ProviderName(className: string): string {
    Lower(RemoveAll(className, "Provider"))
  }

  /** `BaseProvider.__init__(enabled)` on an instance of class `className`. */
  function NewProvider(className: string, enabled: bool): (p: Provider)
    ensures p.enabled == enabled
    ensures p.name == ProviderName(className)
    ensures NoUpperLetter(p.name) && |p.name| <= |className|
  {
    Provider(enabled, ProviderName(className))
  }

  /** `is_available()`. */
  function IsAvailable(p: Provider): bool {
    p.enabled
  }

  /** A provider is available exactly when it was constructed enabled. */
  lemma AvailableAsConstructed(className: string, enabled: bool)
    ensures IsAvailable(NewProvider(className, enabled)) <==> enabled
  {
  }

  /** The OpenSubtitles provider is named "opensubtitles". */
  lemma OpenSubtitlesName()
    ensures ProviderName("OpenSubtitlesProvider") == "opensubtitles"
  {
    StripOpenSubtitles();
    LowerOpenSubtitles();
  }

  lemma StripOpenSubtitles()
    ensures RemoveAll("OpenSubtitlesProvider", "Provider") == "OpenSubtitles"
  {
    var pre := "OpenSubtitles";
    assert "OpenSubtitlesProvider" == pre + "Provider";
    assert forall i :: 0 <= i < |pre| ==> pre[i] != 'P';
    RemoveAllKeepsPrefix(pre, "Provider");
  }

  lemma LowerOpenSubtitles()
    ensures Lower("OpenSubtitles") == "opensubtitles"
  {
    var low := Lower("OpenSubtitles");
    forall i | 0 <= i < 13 ensures low[i] == "opensubtitles"[i] {
    }
  }

  /** Removing a pattern from `x + p`, where `x` holds no trace of `p`, leaves `x`. */
  lemma {:induction false} RemoveAllKeepsPrefix(x: string, p: string)
    requires p != []
    requires forall i :: 0 <= i < |x| ==> x[i] != p[0]
    ensures RemoveAll(x + p, p) == x
    decreases |x|
  {
    if x == [] {
      assert p + [] == p;
      RemoveAllLeading(p, []);
    } else {
      assert (x + p)[..|p|][0] == x[0];
      assert (x + p)[1..] == x[1..] + p;
      RemoveAllKeepsPrefix(x[1..], p);
    }
  }
}
