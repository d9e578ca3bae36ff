/** Release fingerprints and match scores.

    The filename guesser is outside the model: its answer for a media name is an input,
    `None` when it raised, otherwise a record of the fields it may have found. */
module ReleaseMatcher {
  import opened Wrappers
  import opened Strings
  import opened ProviderBase

  /** The guessed `source`: absent, one value, or a list of values. */
  datatype Source = NoSource | OneSource(name: string) | SourceList(names: seq<string>)

  /** The guesser's fields that the fingerprint uses. */
  datatype Guess = Guess(releaseGroup: Option<string>, screenSize: Option<string>, source: Source, videoCodec: Option<string>)

  function FieldTokens(f: Option<string>): seq<string> {
    if Truthy(f) then [Upper(f.value)] else []
  }

  function UpperAll(xs: seq<string>): (ys: seq<string>)
    ensures |ys| == |xs| && forall i :: 0 <= i < |xs| ==> ys[i] == Upper(xs[i])
  {
    seq(|xs|, i requires 0 <= i < |xs| => Upper(xs[i]))
  }

  function SourceTokens(s: Source): seq<string> {
    match s
    case NoSource => []
    case OneSource(n) => if n != "" then [Upper(n)] else []
    case SourceList(ns) => UpperAll(ns)
  }

  /** The fingerprint before deduplication: release group, screen size, source
      (a list flattened in order) and video codec, each upper-cased, truthy ones only. */
  function RawTokens(g: Guess): seq<string> {
    FieldTokens(g.releaseGroup) + FieldTokens(g.screenSize) + SourceTokens(g.source) + FieldTokens(g.videoCodec)
  }

  /** Drops every element already seen, scanning left to right. */
  function Dedup(xs: seq<string>): seq<string> {
    if xs == [] then []
    else
      var d := Dedup(xs[..|xs| - 1]);
      if xs[|xs| - 1] in d then d else d + [xs[|xs| - 1]]
  }

  /** `extract_release_info(filename)`, given what the guesser made of `filename`. */
  method ExtractReleaseInfo(guess: Option<Guess>) returns (info: seq<string>)
    ensures guess.None? ==> info == []
    ensures guess.Some? ==> info == Dedup(RawTokens(guess.value))
  {
    if guess.None? {
      return [];
    }
    var g := guess.value;
    var releaseInfo: seq<string> := [];
    if Truthy(g.releaseGroup) {
      releaseInfo := releaseInfo + [Upper(g.releaseGroup.value)];
    }
    if Truthy(g.screenSize) {
      releaseInfo := releaseInfo + [Upper(g.screenSize.value)];
    }
    match g.source {
      case NoSource =>
      case OneSource(n) =>
        if n != "" {
          releaseInfo := releaseInfo + [Upper(n)];
        }
      case SourceList(ns) =>
        releaseInfo := releaseInfo + UpperAll(ns);
    }
    if Truthy(g.videoCodec) {
      releaseInfo := releaseInfo + [Upper(g.videoCodec.value)];
    }
    assert releaseInfo == RawTokens(g);
    info := RemoveDuplicates(releaseInfo);
  }

  /** The order-preserving deduplication loop over a `seen` set. */
  method RemoveDuplicates(items: seq<string>) returns (unique: seq<string>)
    ensures unique == Dedup(items)
  {
    var seen: set<string> := {};
    unique := [];
    var i := 0;
    while i < |items|
      invariant 0 <= i <= |items|
      invariant unique == Dedup(items[..i])
      invariant forall x :: x in seen <==> x in unique
    {
      assert items[..i + 1][..i] == items[..i];
      var item := items[i];
      if item !in seen {
        seen := seen + {item};
        unique := unique + [item];
      }
      i := i + 1;
    }
    assert items[..i] == items;
  }

  predicate NoDuplicates(xs: seq<string>) {
    forall i, j :: 0 <= i < j < |xs| ==> xs[i] != xs[j]
  }

  /** The index of the first occurrence of `x` in `xs`. */
  function IndexOf(xs: seq<string>, x: string): (k: nat)
    requires x in xs
    ensures k < |xs| && xs[k] == x && x !in xs[..k]
  {
    if xs[0] == x then 0 else 1 + IndexOf(xs[1..], x)
  }

  lemma IndexOfExtend(xs: seq<string>, y: string, x: string)
    requires x in xs
    ensures IndexOf(xs + [y], x) == IndexOf(xs, x)
  {
    var k := IndexOf(xs, x);
    var k' := IndexOf(xs + [y], x);
    assert (xs + [y])[..k] == xs[..k];
    assert (xs + [y])[k] == x;
  }

  /** Deduplication keeps exactly the elements of its input, each once, in the order of
      their first occurrences. */
  lemma {:induction false} DedupSpec(xs: seq<string>)
    ensures NoDuplicates(Dedup(xs))
    ensures forall x :: x in Dedup(xs) <==> x in xs
    ensures forall i, j :: 0 <= i < j < |Dedup(xs)| ==> IndexOf(xs, Dedup(xs)[i]) < IndexOf(xs, Dedup(xs)[j])
  {
    if xs != [] {
      var init, last := xs[..|xs| - 1], xs[|xs| - 1];
      assert xs == init + [last];
      DedupSpec(init);
      var d := Dedup(init);
      forall x | x in init ensures IndexOf(xs, x) == IndexOf(init, x) {
        IndexOfExtend(init, last, x);
      }
      if last !in d {
        assert last !in init;
        assert IndexOf(xs, last) == |init| by {
          assert xs[..|init|] == init;
        }
      }
    }
  }

  /** Every token of a fingerprint is upper-case. */
  lemma FingerprintIsUpper(g: Guess)
    ensures forall t :: t in Dedup(RawTokens(g)) ==> NoLowerLetter(t)
  {
    DedupSpec(RawTokens(g));
    forall t | t in RawTokens(g) ensures NoLowerLetter(t) {
      var raw := RawTokens(g);
      var k :| 0 <= k < |raw| && raw[k] == t;
      var a := FieldTokens(g.releaseGroup);
      var b := FieldTokens(g.screenSize);
      var c := SourceTokens(g.source);
      var e := FieldTokens(g.videoCodec);
      assert raw == a + b + c + e;
      if k < |a| {
        UpperIsUpper(g.releaseGroup.value);
      } else if k < |a| + |b| {
        UpperIsUpper(g.screenSize.value);
      } else if k < |a| + |b| + |c| {
        match g.source {
          case OneSource(n) => UpperIsUpper(n);
          case SourceList(ns) => UpperIsUpper(ns[k - |a| - |b|]);
        }
      } else {
        UpperIsUpper(g.videoCodec.value);
      }
    }
  }

  /** The fingerprint of a successful guess has no duplicates and holds every truthy field. */
  lemma FingerprintContents(g: Guess)
    ensures NoDuplicates(Dedup(RawTokens(g)))
    ensures Truthy(g.releaseGroup) ==> Upper(g.releaseGroup.value) in Dedup(RawTokens(g))
    ensures Truthy(g.videoCodec) ==> Upper(g.videoCodec.value) in Dedup(RawTokens(g))
    ensures g.source.SourceList? ==> forall s :: s in g.source.names ==> Upper(s) in Dedup(RawTokens(g))
  {
    DedupSpec(RawTokens(g));
    if g.source.SourceList? {
      forall s | s in g.source.names ensures Upper(s) in RawTokens(g) {
        var k :| 0 <= k < |g.source.names| && g.source.names[k] == s;
        assert Upper(s) in SourceTokens(g.source) by {
          assert SourceTokens(g.source)[k] == Upper(s);
        }
      }
    }
  }

  /** The text the fingerprint is looked for in: `f"{release} {filename}".upper()`. */
  function Combined(release: string, filename: string): string {
    Upper(release + " " + filename)
  }

  /** The number of tokens found, upper-cased, as substrings of `combined`. */
  function CountFound(groups: seq<string>, combined: string): (n: nat)
    ensures n <= |groups|
  {
    if groups == [] then 0
    else CountFound(groups[..|groups| - 1], combined) + (if Contains(combined, Upper(groups[|groups| - 1])) then 1 else 0)
  }

  /** `calculate_match_score(release, filename, groups)`: the score `matches / len(groups)`
      and whether it is perfect. */
  method CalculateMatchScore(release: string, filename: string, groups: seq<string>) returns (score: Score, isPerfect: bool)
    ensures groups == [] ==> score == Score(0, 0) && !isPerfect
    ensures score == Score(CountFound(groups, Combined(release, filename)), |groups|)
    ensures isPerfect <==> score.matches == |groups| && |groups| > 0
  {
    if groups == [] {
      return Score(0, 0), false;
    }
    var combined := Combined(release, filename);
    var matches := 0;
    var i := 0;
    while i < |groups|
      invariant 0 <= i <= |groups|
      invariant matches == CountFound(groups[..i], combined)
    {
      assert groups[..i + 1][..i] == groups[..i];
      if Contains(combined, Upper(groups[i])) {
        matches := matches + 1;
      }
      i := i + 1;
    }
    assert groups[..i] == groups;
    score := Score(matches, |groups|);
    isPerfect := matches == |groups| && matches > 0;
  }

  /** A score is perfect exactly when every token is found. */
  lemma {:induction false} AllFoundIff(groups: seq<string>, combined: string)
    ensures CountFound(groups, combined) == |groups| <==>
      forall i :: 0 <= i < |groups| ==> Contains(combined, Upper(groups[i]))
  {
    if groups != [] {
      var init := groups[..|groups| - 1];
      AllFoundIff(init, combined);
      assert forall i :: 0 <= i < |init| ==> init[i] == groups[i];
    }
  }

  /** No token found gives the score 0. */
  lemma {:induction false} NoneFound(groups: seq<string>, combined: string)
    requires forall i :: 0 <= i < |groups| ==> !Contains(combined, Upper(groups[i]))
    ensures CountFound(groups, combined) == 0
  {
    if groups != [] {
      NoneFound(groups[..|groups| - 1], combined);
    }
  }

  lemma UpperOfLower(s: string)
    ensures Upper(Lower(s)) == Upper(s)
  {
  }

  lemma {:induction false} CountFoundUpToCase(groups: seq<string>, groups': seq<string>, combined: string)
    requires |groups| == |groups'|
    requires forall i :: 0 <= i < |groups| ==> Upper(groups[i]) == Upper(groups'[i])
    ensures CountFound(groups, combined) == CountFound(groups', combined)
  {
    if groups != [] {
      CountFoundUpToCase(groups[..|groups| - 1], groups'[..|groups'| - 1], combined);
    }
  }

  /** Matching ignores case: inputs that agree once upper-cased score the same. */
  lemma MatchIgnoresCase(release: string, filename: string, groups: seq<string>,
                         release': string, filename': string, groups': seq<string>)
    requires Upper(release) == Upper(release') && Upper(filename) == Upper(filename')
    requires |groups| == |groups'| && forall i :: 0 <= i < |groups| ==> Upper(groups[i]) == Upper(groups'[i])
    ensures CountFound(groups, Combined(release, filename)) == CountFound(groups', Combined(release', filename'))
  {
    UpperConcat(release, " " + filename);
    UpperConcat(release', " " + filename');
    UpperConcat(" ", filename);
    UpperConcat(" ", filename');
    assert Combined(release, filename) == Combined(release', filename');
    CountFoundUpToCase(groups, groups', Combined(release, filename));
  }
}
