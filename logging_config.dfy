/** Console logging: the package tag a logger name gets, and the line `ColoredFormatter`
    writes (package prefix, a level tag from WARNING up, the message), with ANSI colours
    only when they were asked for and standard output is a terminal. */
module LoggingConfig {
  import opened Wrappers
  import opened Strings
  import opened OrderedMaps
  import PathUtils

  const Esc: char := '\U{1B}'

  /** The entries of `COLORS` the formatter reads by fixed key; the table below holds them
      under those keys. */
  const CoreColour: string := "\U{1B}[37m"
  const ErrorColour: string := "\U{1B}[31m"
  const WarningColour: string := "\U{1B}[33m"
  const Reset: string := "\U{1B}[0m"

  /** `COLORS`: package or level tag to its ANSI escape sequence. */
  const Colors: Dict<string, string> := [
    ("WEBHOOK", "\U{1B}[36m"),
    ("PLEX", "\U{1B}[34m"),
    ("OPENSUBTITLES", "\U{1B}[32m"),
    ("CORE", CoreColour),
    ("CONFIG", "\U{1B}[90m"),
    ("ERROR", ErrorColour),
    ("WARNING", WarningColour),
    ("RESET", Reset)
  ]

  /** `PACKAGE_NAMES`: logger name (or name prefix) to package tag, in table order. */
  const PackageNames: Dict<string, string> := [
    ("plexsubs", "CORE"),
    ("plexsubs.main", "WEBHOOK"),
    ("plexsubs.config", "CONFIG"),
    ("plexsubs.providers.opensubtitles", "OPENSUBTITLES"),
    ("plexsubs.plex.client", "PLEX"),
    ("plexsubs.plex.webhook", "WEBHOOK"),
    ("plexsubs.core", "CORE")
  ]

  /** The standard `logging` level numbers the formatter compares against. */
  const WarningLevel: int := 30
  const ErrorLevel: int := 40

  /** `get_package_name(logger_name)`: an exact table entry first, then the first key in
      table order that the name starts with, else CORE. */
  function GetPackageName(loggerName: string): (pkg: string)
    ensures Get(PackageNames, loggerName).Some? ==> pkg == Get(PackageNames, loggerName).value
  {
    match Get(PackageNames, loggerName)
    case Some(pkg) => pkg
    case None =>
      match PathUtils.FirstMatch(loggerName, PackageNames)
      case Some(i) => PackageNames[i].1
      case None => "CORE"
  }

  /** Every name gets one of the table's tags. */
  lemma PackageNameIsTableTag(loggerName: string)
    ensures exists i :: 0 <= i < |PackageNames| && GetPackageName(loggerName) == PackageNames[i].1
  {
    GetSpec(PackageNames, loggerName);
    if Get(PackageNames, loggerName).None? && PathUtils.FirstMatch(loggerName, PackageNames).None? {
      assert GetPackageName(loggerName) == PackageNames[0].1;
    }
  }

  lemma StartsWithTrans(s: string, p: string, q: string)
    requires StartsWith(s, p) && StartsWith(p, q)
    ensures StartsWith(s, q)
  {
    assert s[..|q|] == s[..|p|][..|q|];
  }

  /** Every key of the table starts with the first one, the bare package name. */
  lemma KeysUnderPackage()
    ensures forall i :: 0 <= i < |PackageNames| ==> StartsWith(PackageNames[i].0, PackageNames[0].0)
  {
  }

  /** The prefix search can only stop at the first key, whose tag is CORE. */
  lemma PrefixSearchFindsCore(loggerName: string)
    ensures PathUtils.FirstMatch(loggerName, PackageNames).Some? ==>
      PackageNames[PathUtils.FirstMatch(loggerName, PackageNames).value].1 == "CORE"
  {
    match PathUtils.FirstMatch(loggerName, PackageNames)
    case None =>
    case Some(i) =>
      KeysUnderPackage();
      StartsWithTrans(loggerName, PackageNames[i].0, PackageNames[0].0);
      assert i == 0;
  }

  /** Because the bare package name is the first key and prefixes every other key, the
      prefix search can only ever answer CORE: a name gets a tag other than CORE only
      through an exact entry. */
  lemma PackageNameRule(loggerName: string)
    ensures GetPackageName(loggerName) == Get(PackageNames, loggerName).GetOr("CORE")
    ensures Get(PackageNames, loggerName).Some? <==> loggerName in Keys(PackageNames)
  {
    PrefixSearchFindsCore(loggerName);
    GetSpec(PackageNames, loggerName);
  }

  /** An unlisted module under the configuration package is tagged CORE, not CONFIG. */
  lemma ValidatorsModuleIsCore()
    ensures GetPackageName("plexsubs.config.validators") == "CORE"
  {
    var name := "plexsubs.config.validators";
    assert name !in Keys(PackageNames) by {
      forall i | 0 <= i < |PackageNames|
        ensures PackageNames[i].0 != name
      {
        assert |PackageNames[i].0| != |name|;
      }
    }
    PackageNameRule(name);
  }

  /** Every tag `get_package_name` can return has a colour, so the CORE fallback of the
      colour lookup is never taken. */
  lemma EveryPackageHasColour(loggerName: string)
    ensures Get(Colors, GetPackageName(loggerName)).Some?
  {
    PackageNameIsTableTag(loggerName);
    var i :| 0 <= i < |PackageNames| && GetPackageName(loggerName) == PackageNames[i].1;
    PackageTagsHaveColours(i);
  }

  lemma PackageTagsHaveColours(i: nat)
    requires i < |PackageNames|
    ensures Get(Colors, PackageNames[i].1).Some?
  {
    var pkg := PackageNames[i].1;
    assert pkg in Keys(Colors) by {
      var ks := Keys(Colors);
      assert ks[0] == "WEBHOOK" && ks[1] == "PLEX" && ks[2] == "OPENSUBTITLES" && ks[3] == "CORE" && ks[4] == "CONFIG";
    }
    GetSpec(Colors, pkg);
  }

  /** `COLORS.get(key, COLORS["CORE"])`. */
  function ColourOf(key: string): (c: string)
    ensures Get(Colors, key).Some? ==> c == Get(Colors, key).value
    ensures Get(Colors, key).None? ==> c == CoreColour
  {
    Get(Colors, key).GetOr(CoreColour)
  }

  /** Wraps `text` in a colour and the reset sequence when colours are on. */
  function Paint(colour: string, text: string, useColors: bool): (r: string)
    ensures !useColors ==> r == text
  {
    if useColors then colour + text + Reset else text
  }

  /** The "[PKG]" prefix, in the package's colour. */
  function PackagePrefix(package: string, useColors: bool): string {
    Paint(ColourOf(package), "[" + package + "]", useColors)
  }

  /** The level tag of a record at WARNING or above. */
  function LevelTag(level: int, useColors: bool): string {
    if level >= ErrorLevel then Paint(ErrorColour, "[ERROR]", useColors)
    else Paint(WarningColour, "[WARN]", useColors)
  }

  /** The line `ColoredFormatter.format` builds for a record of `package` at `level` whose
      rendered message is `message`. */
  function FormatLine(package: string, level: int, message: string, useColors: bool): (line: string)
    ensures |line| > |message| && line[|line| - |message|..] == message
  {
    var prefix := PackagePrefix(package, useColors);
    if level >= WarningLevel then
      var line := prefix + " " + LevelTag(level, useColors) + " " + message;
      assert line[|line| - |message|..] == message;
      line
    else
      var line := prefix + " " + message;
      assert line[|line| - |message|..] == message;
      line
  }

  /** Without colours a line is "[PKG] msg" below WARNING, "[PKG] [WARN] msg" up to ERROR
      and "[PKG] [ERROR] msg" from ERROR up. */
  lemma PlainLines(package: string, level: int, message: string)
    ensures level < WarningLevel ==> FormatLine(package, level, message, false) == "[" + package + "] " + message
    ensures WarningLevel <= level < ErrorLevel ==>
      FormatLine(package, level, message, false) == "[" + package + "] [WARN] " + message
    ensures ErrorLevel <= level ==> FormatLine(package, level, message, false) == "[" + package + "] [ERROR] " + message
  {
    var head := "[" + package + "]";
    assert PackagePrefix(package, false) == head;
    if level >= WarningLevel {
      var tagText := if level >= ErrorLevel then "[ERROR]" else "[WARN]";
      assert LevelTag(level, false) == tagText;
      assert head + " " + tagText + " " + message == "[" + package + "] " + tagText[..] + " " + message;
    }
  }

  /** `s` with every ANSI sequence (escape up to the next `m`) removed. */
  function StripAnsi(s: string): (r: string)
    ensures |r| <= |s|
  {
    if s == [] then []
    else if s[0] == Esc then
      var k := FirstIndex(s, 'm');
      if k < |s| then StripAnsi(s[k + 1..]) else []
    else [s[0]] + StripAnsi(s[1..])
  }

  /** An escape sequence as `COLORS` holds them: escape, then no `m` until the final one. */
  predicate IsCode(c: string) {
    |c| >= 2 && c[0] == Esc && c[|c| - 1] == 'm' && forall j :: 0 <= j < |c| - 1 ==> c[j] != 'm'
  }

  lemma StripCode(code: string, rest: string)
    requires IsCode(code)
    ensures StripAnsi(code + rest) == StripAnsi(rest)
  {
    var s := code + rest;
    assert s[|code| - 1] == 'm';
    assert FirstIndex(s, 'm') == |code| - 1;
    assert s[|code|..] == rest;
  }

  lemma {:induction false} StripPlain(a: string, rest: string)
    requires Esc !in a
    ensures StripAnsi(a + rest) == a + StripAnsi(rest)
  {
    if a != [] {
      assert (a + rest)[0] == a[0] != Esc;
      assert a == [a[0]] + a[1..];
      assert (a + rest)[1..] == a[1..] + rest;
      assert StripAnsi(a + rest) == [a[0]] + StripAnsi(a[1..] + rest);
      assert Esc !in a[1..] by {
        forall j | 0 <= j < |a[1..]|
          ensures a[1..][j] != Esc
        {
          assert a[1..][j] == a[j + 1];
        }
      }
      StripPlain(a[1..], rest);
      assert [a[0]] + (a[1..] + StripAnsi(rest)) == a + StripAnsi(rest);
    } else {
      assert a + rest == rest;
    }
  }

  lemma TableHoldsCodes()
    ensures forall i :: 0 <= i < |Colors| ==> IsCode(Colors[i].1)
  {
  }

  lemma ColoursAreCodes(key: string)
    ensures IsCode(ColourOf(key))
  {
    TableHoldsCodes();
    GetSpec(Colors, key);
    if Get(Colors, key).Some? {
      var i :| 0 <= i < |Colors| && Colors[i] == (key, ColourOf(key));
    }
  }

  /** Removing the escape sequences from one painted piece leaves its text, provided the
      text holds no escape character. */
  lemma StripPaint(colour: string, text: string, rest: string)
    requires IsCode(colour) && Esc !in text
    ensures StripAnsi(Paint(colour, text, true) + rest) == text + StripAnsi(rest)
  {
    assert IsCode(Reset);
    assert Paint(colour, text, true) + rest == colour + (text + (Reset + rest));
    StripCode(colour, text + (Reset + rest));
    StripPlain(text, Reset + rest);
    StripCode(Reset, rest);
  }

  lemma Regroup(a: string, b: string, c: string, d: string, e: string)
    ensures a + b + c + d + e == a + (b + (c + (d + e)))
  {
  }

  lemma StripTaggedLine(prefixColour: string, head: string, tagColour: string, tagText: string, message: string)
    requires IsCode(prefixColour) && IsCode(tagColour)
    requires Esc !in head && Esc !in tagText && Esc !in message
    ensures StripAnsi(Paint(prefixColour, head, true) + " " + Paint(tagColour, tagText, true) + " " + message)
      == head + " " + tagText + " " + message
  {
    var p := Paint(prefixColour, head, true);
    var t := Paint(tagColour, tagText, true);
    var tail := " " + message;
    StripPlain(tail, []);
    assert tail + [] == tail;
    Regroup(p, " ", t, " ", message);
    StripPaint(prefixColour, head, " " + (t + tail));
    StripPlain(" ", t + tail);
    StripPaint(tagColour, tagText, tail);
    Regroup(head, " ", tagText, " ", message);
  }

  lemma StripUntaggedLine(prefixColour: string, head: string, message: string)
    requires IsCode(prefixColour)
    requires Esc !in head && Esc !in message
    ensures StripAnsi(Paint(prefixColour, head, true) + " " + message) == head + " " + message
  {
    var p := Paint(prefixColour, head, true);
    var tail := " " + message;
    assert StripAnsi(tail) == tail by {
      StripPlain(tail, []);
      assert tail + [] == tail;
    }
    assert StripAnsi(p + tail) == head + tail by {
      StripPaint(prefixColour, head, tail);
    }
    assert p + " " + message == p + tail;
    assert head + tail == head + " " + message;
  }

  /** The colours are pure decoration: removing the escape sequences from a coloured line
      gives the plain line, as long as the tag and the message hold no escape character. */
  lemma ColoursOnlyDecorate(package: string, level: int, message: string)
    requires Esc !in package && Esc !in message
    ensures StripAnsi(FormatLine(package, level, message, true)) == FormatLine(package, level, message, false)
  {
    ColoursAreCodes(package);
    var head := "[" + package + "]";
    assert Esc !in head;
    if level >= WarningLevel {
      var code := if level >= ErrorLevel then ErrorColour else WarningColour;
      var tagText := if level >= ErrorLevel then "[ERROR]" else "[WARN]";
      assert IsCode(code) && Esc !in tagText;
      StripTaggedLine(ColourOf(package), head, code, tagText, message);
    } else {
      StripUntaggedLine(ColourOf(package), head, message);
    }
  }

  /** A `logging.LogRecord`: `rendered` is what `getMessage()` yields (the message with its
      arguments substituted); `message` is set by formatting. */
  class LogRecord {
    const name: string
    const levelno: int
    const rendered: string
    var message: Option<string>

    constructor(name: string, levelno: int, rendered: string)
      ensures this.name == name && this.levelno == levelno && this.rendered == rendered
      ensures message.None?
    {
      this.name := name;
      this.levelno := levelno;
      this.rendered := rendered;
      message := None;
    }
  }

  class ColoredFormatter {
    const useColors: bool

    /** Colours are used only when requested and standard output is a terminal. */
    constructor(useColors: bool, stdoutIsTty: bool)
      ensures this.useColors == (useColors && stdoutIsTty)
    {
      this.useColors := useColors && stdoutIsTty;
    }

    /** `format(record)`: stores the rendered message on the record and returns the line. */
    method Format(record: LogRecord) returns (formatted: string)
      modifies record
      ensures record.message == Some(record.rendered)
      ensures formatted == FormatLine(GetPackageName(record.name), record.levelno, record.rendered, useColors)
    {
      var package := GetPackageName(record.name);
      var prefix := PackagePrefix(package, useColors);
      record.message := Some(record.rendered);
      if record.levelno >= ErrorLevel {
        var levelName := LevelTag(record.levelno, useColors);
        formatted := prefix + " " + levelName + " " + record.rendered;
      } else if record.levelno >= WarningLevel {
        var levelName := LevelTag(record.levelno, useColors);
        formatted := prefix + " " + levelName + " " + record.rendered;
      } else {
        formatted := prefix + " " + record.rendered;
      }
    }
  }
}
