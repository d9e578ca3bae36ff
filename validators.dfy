/** Configuration validators: each returns the normalised value or a `ValueError`.

    A configuration value may be of any Python type; `Value` keeps the cases the
    validators tell apart. The set of supported ISO 639-1 codes comes from a language
    library and is the parameter `valid`. */
module Validators {
  import opened Wrappers
  import opened Strings
  import opened OrderedMaps
  import opened Exceptions

  /** A configuration value: `None`, a `bool`, an `int`, a `str`, or anything else. */
  datatype Value = NoneValue | BoolValue(b: bool) | IntValue(i: int) | StrValue(s: string) | OtherValue

  function Invalid<T>(message: string): Result<T, Error> {
    Err(Error(ValueError, message))
  }

  /** `validate_url(url, field)`: present, and starting with `http://` or `https://`. */
  function ValidateUrl(url: Option<string>, field: string): (r: Result<string, Error>)
    ensures r.Ok? <==> url.Some? && (StartsWith(url.value, "http://") || StartsWith(url.value, "https://"))
    ensures r.Ok? ==> r.value == url.value
    ensures url.None? || url.value == "" ==> r == Invalid(field + " is required")
  {
    if url.None? || url.value == "" then Invalid(field + " is required")
    else if !(StartsWith(url.value, "http://") || StartsWith(url.value, "https://")) then
      Invalid(field + " must start with http:// or https://")
    else Ok(url.value)
  }

  /** `validate_token(token, field, min_length)`. */
  function ValidateToken(token: Option<string>, field: string, minLength: int): (r: Result<string, Error>)
    ensures r.Ok? <==> token.Some? && token.value != "" && |token.value| >= minLength
    ensures r.Ok? ==> r.value == token.value
    ensures token.Some? && token.value != "" && |token.value| < minLength ==>
      r == Invalid(field + " must be at least " + IntToString(minLength) + " characters")
  {
    if token.None? || token.value == "" then Invalid(field + " is required")
    else if |token.value| < minLength then Invalid(field + " must be at least " + IntToString(minLength) + " characters")
    else Ok(token.value)
  }

  /** `validate_language_code(code)`: stripped, lower-cased, and a supported code. */
  function ValidateLanguageCode(code: string, valid: set<string>): (r: Result<string, Error>)
    ensures r.Ok? <==> Lower(Strip(code)) != "" && Lower(Strip(code)) in valid
    ensures r.Ok? ==> r.value == Lower(Strip(code))
  {
    var c := Lower(Strip(code));
    if c == "" then Invalid("Language code cannot be empty")
    else if c !in valid then Invalid("Invalid language code: " + c)
    else Ok(c)
  }

  /** The first code of `languages` that does not validate. */
  function FirstInvalidCode(languages: seq<string>, valid: set<string>): (r: Option<nat>)
    ensures r.None? <==> forall i :: 0 <= i < |languages| ==> ValidateLanguageCode(languages[i], valid).Ok?
    ensures r.Some? ==>
      (r.value < |languages| && ValidateLanguageCode(languages[r.value], valid).Err?
       && forall j :: 0 <= j < r.value ==> ValidateLanguageCode(languages[j], valid).Ok?)
  {
    if languages == [] then None
    else if ValidateLanguageCode(languages[0], valid).Err? then Some(0)
    else
      match FirstInvalidCode(languages[1..], valid)
      case None => None
      case Some(i) => Some(i + 1)
  }

  lemma FirstInvalidIs(languages: seq<string>, valid: set<string>, i: nat)
    requires i < |languages| && ValidateLanguageCode(languages[i], valid).Err?
    requires forall j :: 0 <= j < i ==> ValidateLanguageCode(languages[j], valid).Ok?
    ensures FirstInvalidCode(languages, valid) == Some(i)
  {
    assert FirstInvalidCode(languages, valid).Some?;
  }

  /** `validate_language_codes(languages)`: non-empty, every code valid (the first invalid
      one is reported), the normalised codes in order. */
  method ValidateLanguageCodes(languages: seq<string>, valid: set<string>) returns (r: Result<seq<string>, Error>)
    ensures languages == [] ==> r == Invalid("At least one language code is required")
    ensures languages != [] && FirstInvalidCode(languages, valid).Some? ==>
      r == Invalid("Invalid language in list: "
                   + ValidateLanguageCode(languages[FirstInvalidCode(languages, valid).value], valid).error.message)
    ensures r.Ok? <==> languages != [] && FirstInvalidCode(languages, valid).None?
    ensures r.Ok? ==>
      |r.value| == |languages|
      && forall i :: 0 <= i < |languages| ==> r.value[i] == Lower(Strip(languages[i])) && r.value[i] in valid
  {
    if languages == [] {
      return Invalid("At least one language code is required");
    }
    var validated: seq<string> := [];
    var i := 0;
    while i < |languages|
      invariant 0 <= i <= |languages|
      invariant |validated| == i
      invariant forall j :: 0 <= j < i ==> ValidateLanguageCode(languages[j], valid).Ok?
      invariant forall j :: 0 <= j < i ==> validated[j] == Lower(Strip(languages[j])) && validated[j] in valid
    {
      var c := ValidateLanguageCode(languages[i], valid);
      if c.Err? {
        FirstInvalidIs(languages, valid, i);
        return Invalid("Invalid language in list: " + c.error.message);
      }
      validated := validated + [c.value];
      i := i + 1;
    }
    return Ok(validated);
  }

  /** The codes `parse_language_codes` keeps from the comma-separated pieces: stripped,
      lower-cased, non-empty and supported, in order, duplicates included. */
  function KeptCodes(pieces: seq<string>, valid: set<string>): seq<string> {
    if pieces == [] then []
    else
      var c := Lower(Strip(pieces[|pieces| - 1]));
      KeptCodes(pieces[..|pieces| - 1], valid) + (if c != "" && c in valid then [c] else [])
  }

  /** What `parse_language_codes(value)` returns. */
  function ParsedLanguageCodes(value: Option<string>, valid: set<string>): seq<string> {
    if value.None? || Strip(value.value) == "" then ["en"]
    else
      var kept := KeptCodes(Split(value.value, ','), valid);
      if kept == [] then ["en"] else kept
  }

  /** `parse_language_codes(value)`: never empty; `["en"]` when nothing usable is given. */
  method ParseLanguageCodes(value: Option<string>, valid: set<string>) returns (languages: seq<string>)
    ensures languages == ParsedLanguageCodes(value, valid)
    ensures languages != []
  {
    if value.None? || Strip(value.value) == "" {
      return ["en"];
    }
    var pieces := Split(value.value, ',');
    languages := [];
    var i := 0;
    while i < |pieces|
      invariant 0 <= i <= |pieces|
      invariant languages == KeptCodes(pieces[..i], valid)
    {
      assert pieces[..i + 1][..i] == pieces[..i];
      var lang := Lower(Strip(pieces[i]));
      if lang != "" && lang in valid {
        languages := languages + [lang];
      }
      i := i + 1;
    }
    assert pieces[..i] == pieces;
    if languages == [] {
      languages := ["en"];
    }
  }

  /** A kept code is exactly a normalised, supported piece. */
  lemma {:induction false} KeptCodesMembers(pieces: seq<string>, valid: set<string>)
    ensures forall c :: c in KeptCodes(pieces, valid) <==>
      c != "" && c in valid && exists i :: 0 <= i < |pieces| && Lower(Strip(pieces[i])) == c
  {
    if pieces != [] {
      var init := pieces[..|pieces| - 1];
      KeptCodesMembers(init, valid);
      assert forall i :: 0 <= i < |init| ==> init[i] == pieces[i];
      forall c | c != "" && c in valid && (exists i :: 0 <= i < |pieces| && Lower(Strip(pieces[i])) == c)
        ensures c in KeptCodes(pieces, valid)
      {
        var i :| 0 <= i < |pieces| && Lower(Strip(pieces[i])) == c;
        if i < |init| {
          assert Lower(Strip(init[i])) == c;
        }
      }
    }
  }

  /** Keeping is done piece by piece, so input order is kept and nothing is deduplicated. */
  lemma {:induction false} KeptCodesAppend(a: seq<string>, b: seq<string>, valid: set<string>)
    ensures KeptCodes(a + b, valid) == KeptCodes(a, valid) + KeptCodes(b, valid)
  {
    if b == [] {
      assert a + b == a;
    } else {
      assert (a + b)[..|a + b| - 1] == a + b[..|b| - 1];
      assert (a + b)[|a + b| - 1] == b[|b| - 1];
      KeptCodesAppend(a, b[..|b| - 1], valid);
    }
  }

  /** Two pieces naming the same supported code are both kept. */
  lemma NoDeduplication(p: string, q: string, valid: set<string>)
    requires Lower(Strip(p)) == Lower(Strip(q)) && Lower(Strip(p)) != "" && Lower(Strip(p)) in valid
    ensures KeptCodes([p, q], valid) == [Lower(Strip(p)), Lower(Strip(p))]
  {
    assert [p, q][..1] == [p];
    assert [p][..0] == [];
    assert KeptCodes([p], valid) == KeptCodes([], valid) + [Lower(Strip(p))];
    assert KeptCodes([p, q], valid) == KeptCodes([p], valid) + [Lower(Strip(q))];
  }

  predicate DigitsOrUnderscores(s: string) {
    forall i :: 0 <= i < |s| ==> IsDigit(s[i]) || s[i] == '_'
  }

  /** The digits of an `int()` literal: decimal digits, with single underscores allowed
      between two digits, as in "1_000". */
  predicate IsIntLiteral(s: string) {
    && s != [] && IsDigit(s[0]) && IsDigit(s[|s| - 1])
    && forall i {:trigger s[i]} :: 0 <= i < |s| ==>
         IsDigit(s[i]) || (s[i] == '_' && 0 < i < |s| - 1 && IsDigit(s[i - 1]) && IsDigit(s[i + 1]))
  }

  /** A literal's digits without its underscores. */
  function DropUnderscores(s: string): (r: string)
    ensures DigitsOrUnderscores(s) ==> AllDigits(r)
    ensures AllDigits(s) ==> r == s
  {
    if s == [] then []
    else
      assert DigitsOrUnderscores(s) ==> DigitsOrUnderscores(s[1..]) by {
        if DigitsOrUnderscores(s) {
          forall i | 0 <= i < |s[1..]| ensures IsDigit(s[1..][i]) || s[1..][i] == '_' {
            assert s[1..][i] == s[i + 1];
          }
        }
      }
      assert AllDigits(s) ==> AllDigits(s[1..]) by {
        if AllDigits(s) {
          forall i | 0 <= i < |s[1..]| ensures IsDigit(s[1..][i]) {
            assert s[1..][i] == s[i + 1];
          }
        }
      }
      (if s[0] == '_' then [] else [s[0]]) + DropUnderscores(s[1..])
  }

  /** The number an `int()` literal denotes. */
  function LiteralValue(s: string): nat
    requires IsIntLiteral(s)
  {
    assert DigitsOrUnderscores(s) by {
      forall i | 0 <= i < |s| ensures IsDigit(s[i]) || s[i] == '_' {
      }
    }
    DigitsValue(DropUnderscores(s))
  }

  /** Python's `int(s)` on ASCII: surrounding white space, an optional sign, and the
      digits of a literal. */
  function ParseInt(s: string): Option<int> {
    var t := Strip(s);
    if t != [] && (t[0] == '-' || t[0] == '+') && IsIntLiteral(t[1..]) then
      Some(if t[0] == '-' then -(LiteralValue(t[1..]) as int) else LiteralValue(t[1..]))
    else if IsIntLiteral(t) then Some(LiteralValue(t))
    else None
  }

  /** Decimal digits are a literal that denotes their value. */
  lemma DecimalIsLiteral(d: string)
    requires IsDecimal(d)
    ensures IsIntLiteral(d) && LiteralValue(d) == DigitsValue(d)
  {
  }

  /** Underscores between digits are accepted and ignored. */
  lemma UnderscoreIgnored()
    ensures ParseInt("1_000") == Some(1000)
  {
    var t := "1_000";
    StripUnchanged(t);
    assert IsIntLiteral(t);
    assert DropUnderscores(t) == "1000" by {
      assert t[1..] == "_000" && t[1..][1..] == "000";
    }
    assert DigitsValue("1000") == 1000 by {
      assert "1000"[..3] == "100" && "100"[..2] == "10" && "10"[..1] == "1";
    }
  }

  /** A doubled underscore or a leading one is not part of a literal. */
  lemma MisplacedUnderscoreRejected()
    ensures ParseInt("1__0").None? && ParseInt("_1").None?
  {
    StripUnchanged("1__0");
    StripUnchanged("_1");
    assert !IsIntLiteral("1__0") by {
      assert "1__0"[1] == '_' && "1__0"[2] == '_';
    }
  }

  /** Decimal digits parse to their value. */
  lemma ParseDecimal(d: string)
    requires IsDecimal(d)
    ensures ParseInt(d) == Some(DigitsValue(d))
  {
    DecimalIsLiteral(d);
    assert IsDigit(d[0]) && IsDigit(d[|d| - 1]);
    StripUnchanged(d);
  }

  /** A minus sign before decimal digits negates their value. */
  lemma ParseNegated(d: string)
    requires IsDecimal(d)
    ensures ParseInt("-" + d) == Some(-(DigitsValue(d) as int))
  {
    DecimalIsLiteral(d);
    var s := "-" + d;
    assert s[1..] == d && s[0] == '-';
    assert IsDigit(d[|d| - 1]) && s[|s| - 1] == d[|d| - 1];
    StripUnchanged(s);
  }

  /** `int(str(i)) == i`. */
  lemma ParseIntRoundTrip(i: int)
    ensures ParseInt(IntToString(i)) == Some(i)
  {
    var n: nat := if i < 0 then -i else i;
    NatToStringRoundTrip(n);
    if i < 0 {
      ParseNegated(NatToString(n));
    } else {
      ParseDecimal(NatToString(n));
    }
  }

  /** The conversion `validate_port` applies: a `bool` is an `int` already; a string goes
      through `int()`; anything else fails. */
  function AsInt(v: Value): Option<int> {
    match v
    case BoolValue(b) => Some(if b then 1 else 0)
    case IntValue(i) => Some(i)
    case StrValue(s) => ParseInt(s)
    case _ => None
  }

  /** `validate_port(port, field)`: exactly the integers 1 .. 65535. */
  function ValidatePort(port: Value, field: string): (r: Result<int, Error>)
    ensures r.Ok? <==> AsInt(port).Some? && 1 <= AsInt(port).value <= 65535
    ensures r.Ok? ==> r.value == AsInt(port).value
    ensures AsInt(port).None? ==> r == Invalid(field + " must be a valid integer")
  {
    match AsInt(port)
    case None => Invalid(field + " must be a valid integer")
    case Some(n) => if n < 1 || n > 65535 then Invalid(field + " must be between 1 and 65535") else Ok(n)
  }

  /** `validate_positive_integer(value, field)`: exactly the integers from 1. */
  function ValidatePositiveInteger(value: Value, field: string): (r: Result<int, Error>)
    ensures r.Ok? <==> AsInt(value).Some? && AsInt(value).value >= 1
    ensures r.Ok? ==> r.value == AsInt(value).value
    ensures AsInt(value).None? ==> r == Invalid(field + " must be a valid integer")
  {
    match AsInt(value)
    case None => Invalid(field + " must be a valid integer")
    case Some(n) => if n < 1 then Invalid(field + " must be a positive integer") else Ok(n)
  }

  /** A port given as text is accepted iff its number is. */
  lemma PortFromText(n: nat)
    ensures ValidatePort(StrValue(NatToString(n)), "port").Ok? <==> 1 <= n <= 65535
  {
    ParseIntRoundTrip(n);
  }

  /** One entry of `validate_path_mappings`, added to `acc`: a blank entry is skipped; an
      entry without a colon, or with an empty side, is an error. */
  function MappingStep(acc: Dict<string, string>, entry: string): Result<Dict<string, string>, Error> {
    var m := Strip(entry);
    if m == "" then Ok(acc)
    else if ':' !in m then Invalid("Invalid path mapping format: " + m)
    else
      var (src, dst) := SplitFirst(m, ':');
      if Strip(src) == "" || Strip(dst) == "" then Invalid("Invalid path mapping (empty path): " + m)
      else Ok(Put(acc, Strip(src), Strip(dst)))
  }

  /** The entries processed in order; the first error stops everything. */
  function CheckedMappings(entries: seq<string>): Result<Dict<string, string>, Error> {
    if entries == [] then Ok([])
    else
      match CheckedMappings(entries[..|entries| - 1])
      case Err(e) => Err(e)
      case Ok(acc) => MappingStep(acc, entries[|entries| - 1])
  }

  /** An error stays an error once more entries follow. */
  lemma {:induction false} CheckedErrorStays(entries: seq<string>, i: nat)
    requires i <= |entries| && CheckedMappings(entries[..i]).Err?
    ensures CheckedMappings(entries) == CheckedMappings(entries[..i])
    decreases |entries| - i
  {
    if i < |entries| {
      assert entries[..i + 1][..i] == entries[..i];
      CheckedErrorStays(entries, i + 1);
    } else {
      assert entries[..i] == entries;
    }
  }

  /** `validate_path_mappings(value)`. */
  method ValidatePathMappings(value: Option<string>) returns (r: Result<Dict<string, string>, Error>)
    ensures value.None? || value.value == "" ==> r == Ok([])
    ensures value.Some? && value.value != "" ==> r == CheckedMappings(Split(value.value, ','))
    ensures r.Ok? ==> UniqueKeys(r.value)
  {
    if value.None? || value.value == "" {
      return Ok([]);
    }
    var entries := Split(value.value, ',');
    var mappings: Dict<string, string> := [];
    var i := 0;
    while i < |entries|
      invariant 0 <= i <= |entries|
      invariant CheckedMappings(entries[..i]) == Ok(mappings)
      invariant UniqueKeys(mappings)
    {
      assert entries[..i + 1][..i] == entries[..i];
      var mapping := Strip(entries[i]);
      if mapping == "" {
        i := i + 1;
        continue;
      }
      if ':' !in mapping {
        CheckedErrorStays(entries, i + 1);
        return Invalid("Invalid path mapping format: " + mapping);
      }
      var (src, dst) := SplitFirst(mapping, ':');
      if Strip(src) == "" || Strip(dst) == "" {
        CheckedErrorStays(entries, i + 1);
        return Invalid("Invalid path mapping (empty path): " + mapping);
      }
      PutUnique(mappings, Strip(src), Strip(dst));
      mappings := Put(mappings, Strip(src), Strip(dst));
      i := i + 1;
    }
    assert entries[..i] == entries;
    return Ok(mappings);
  }

  /** A non-blank entry without a colon is rejected. */
  lemma NoColonRejected(entries: seq<string>, entry: string)
    requires CheckedMappings(entries).Ok?
    requires Strip(entry) != "" && ':' !in Strip(entry)
    ensures CheckedMappings(entries + [entry]) == Invalid("Invalid path mapping format: " + Strip(entry))
  {
    assert (entries + [entry])[..|entries|] == entries;
  }

  /** An entry whose source or target is blank is rejected. */
  lemma EmptySideRejected(entries: seq<string>, entry: string)
    requires CheckedMappings(entries).Ok? && ':' in Strip(entry)
    requires Strip(SplitFirst(Strip(entry), ':').0) == "" || Strip(SplitFirst(Strip(entry), ':').1) == ""
    ensures CheckedMappings(entries + [entry]) == Invalid("Invalid path mapping (empty path): " + Strip(entry))
  {
    assert (entries + [entry])[..|entries|] == entries;
  }

  /** A blank entry is skipped. */
  lemma BlankSkipped(entries: seq<string>, entry: string)
    requires Strip(entry) == ""
    ensures CheckedMappings(entries + [entry]) == CheckedMappings(entries)
  {
    assert (entries + [entry])[..|entries|] == entries;
  }

  /** A later entry for a key overwrites it, every other key reads as before. */
  lemma LaterEntryOverwrites(entries: seq<string>, entry: string, k: string)
    requires CheckedMappings(entries + [entry]).Ok? && Strip(entry) != ""
    ensures var m := Strip(entry);
      var (src, dst) := SplitFirst(m, ':');
      Get(CheckedMappings(entries + [entry]).value, k)
        == if k == Strip(src) then Some(Strip(dst)) else Get(CheckedMappings(entries).value, k)
  {
    assert (entries + [entry])[..|entries|] == entries;
    var m := Strip(entry);
    var (src, dst) := SplitFirst(m, ':');
    PutGet(CheckedMappings(entries).value, Strip(src), Strip(dst), k);
  }

  const LogLevels: set<string> := {"DEBUG", "INFO", "WARNING", "ERROR", "CRITICAL"}

  /** `validate_log_level(level)`: upper-cased, stripped, and one of the five levels. */
  function ValidateLogLevel(level: string): (r: Result<string, Error>)
    ensures r.Ok? <==> Strip(Upper(level)) in LogLevels
    ensures r.Ok? ==> r.value == Strip(Upper(level))
  {
    var l := Strip(Upper(level));
    if l !in LogLevels then
      Invalid("Invalid log level: " + l + ". Must be one of: DEBUG, INFO, WARNING, ERROR, CRITICAL")
    else Ok(l)
  }

  const TrueWords: set<string> := {"true", "1", "yes", "on"}
  const FalseWords: set<string> := {"false", "0", "no", "off"}

  /** `validate_boolean(value, field)`. */
  function ValidateBoolean(value: Value, field: string): (r: Result<bool, Error>)
    ensures value.BoolValue? ==> r == Ok(value.b)
    ensures value.StrValue? ==> (r == Ok(true) <==> Strip(Lower(value.s)) in TrueWords)
    ensures value.StrValue? && Strip(Lower(value.s)) !in TrueWords && Strip(Lower(value.s)) in FalseWords ==>
      r == Ok(false)
    ensures value.IntValue? ==> r == Ok(value.i != 0)
    ensures r.Err? <==>
      (value.NoneValue? || value.OtherValue?
       || (value.StrValue? && Strip(Lower(value.s)) !in TrueWords && Strip(Lower(value.s)) !in FalseWords))
    ensures r.Err? ==> r == Invalid(field + " must be a boolean value")
  {
    match value
    case BoolValue(b) => Ok(b)
    case StrValue(s) =>
      var t := Strip(Lower(s));
      if t in TrueWords then Ok(true)
      else if t in FalseWords then Ok(false)
      else Invalid(field + " must be a boolean value")
    case IntValue(i) => Ok(i != 0)
    case _ => Invalid(field + " must be a boolean value")
  }

  /** `validate_regex_pattern(pattern, field)`. Compiling a pattern is Python's `re`
      module; `compileError(p)` is the message of the `re.error` it raises, if any. */
  function ValidateRegexPattern(pattern: string, field: string, compileError: string -> Option<string>)
    : (r: Result<string, Error>)
    ensures r.Ok? <==> pattern != "" && compileError(pattern).None?
    ensures r.Ok? ==> r.value == pattern
    ensures pattern == "" ==> r == Invalid(field + " cannot be empty")
    ensures pattern != "" && compileError(pattern).Some? ==>
      r == Invalid("Invalid regex pattern: " + compileError(pattern).value)
  {
    if pattern == "" then Invalid(field + " cannot be empty")
    else match compileError(pattern)
      case Some(e) => Invalid("Invalid regex pattern: " + e)
      case None => Ok(pattern)
  }

  /** `validate_non_empty_string(value, field)`: a string with something besides white
      space, returned stripped. */
  function ValidateNonEmptyString(value: Value, field: string): (r: Result<string, Error>)
    ensures r.Ok? <==> value.StrValue? && Strip(value.s) != ""
    ensures r.Ok? ==> r.value == Strip(value.s)
    ensures value.NoneValue? ==> r == Invalid(field + " is required")
    ensures !value.NoneValue? && !value.StrValue? ==> r == Invalid(field + " must be a string")
  {
    match value
    case NoneValue => Invalid(field + " is required")
    case StrValue(s) => if Strip(s) == "" then Invalid(field + " cannot be empty") else Ok(Strip(s))
    case _ => Invalid(field + " must be a string")
  }
}
