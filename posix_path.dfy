/** The POSIX `os.path` operations the pipeline applies to a media path: splitting it
    into directory and file name, dropping the file name's extension, and joining. */
module PosixPath {
  import opened Wrappers
  import opened Strings

  /** The index of the last `c` in `s`. */
  function LastIndex(s: string, c: char): (r: Option<nat>)
    ensures r.None? <==> c !in s
    ensures r.Some? ==> r.value < |s| && s[r.value] == c && c !in s[r.value + 1..]
  {
    if s == [] then None
    else if s[|s| - 1] == c then
      assert s[|s|..] == [];
      Some(|s| - 1)
    else
      var init := s[..|s| - 1];
      assert s == init + [s[|s| - 1]];
      match LastIndex(init, c)
      case None => None
      case Some(i) =>
        assert s[i + 1..] == init[i + 1..] + [s[|s| - 1]];
        Some(i)
  }

  /** Where the last component starts: just after the last slash. */
  function TailStart(p: string): (k: nat)
    ensures k <= |p| && '/' !in p[k..]
    ensures k > 0 ==> p[k - 1] == '/'
    ensures '/' !in p ==> k == 0
  {
    match LastIndex(p, '/')
    case None => 0
    case Some(i) => i + 1
  }

  /** `os.path.basename(p)`. */
  function Basename(p: string): (b: string)
    ensures '/' !in b
    ensures p == p[..TailStart(p)] + b
  {
    p[TailStart(p)..]
  }

  predicate AllSlashes(s: string) {
    forall i :: 0 <= i < |s| ==> s[i] == '/'
  }

  /** `os.path.dirname(p)`: the part before the last component, trailing slashes
      dropped unless it is made of slashes only. */
  function Dirname(p: string): (d: string)
    ensures AllSlashes(p[..TailStart(p)]) ==> d == p[..TailStart(p)]
    ensures !AllSlashes(p[..TailStart(p)]) ==> d == RStripChar(p[..TailStart(p)], '/')
  {
    var head := p[..TailStart(p)];
    if AllSlashes(head) then head else RStripChar(head, '/')
  }

  /** `os.path.splitext(name)[0]` for a name without slashes: the text before the last
      dot, unless only dots precede it (a leading-dot name has no extension). */
  function StripExtension(name: string): (root: string)
    ensures |root| <= |name| && root == name[..|root|]
    ensures '.' !in name ==> root == name
  {
    match LastIndex(name, '.')
    case None => name
    case Some(d) =>
      if exists k :: 0 <= k < d && name[k] != '.' then name[..d] else name
  }

  /** `os.path.join(a, b)`. */
  function Join(a: string, b: string): (p: string)
    ensures |b| > 0 && b[0] == '/' ==> p == b
    ensures !(|b| > 0 && b[0] == '/') && (a == [] || a[|a| - 1] == '/') ==> p == a + b
    ensures !(|b| > 0 && b[0] == '/') && a != [] && a[|a| - 1] != '/' ==> p == a + "/" + b
  {
    if |b| > 0 && b[0] == '/' then b
    else if a == [] || a[|a| - 1] == '/' then a + b
    else a + "/" + b
  }

  /** Joining a name without slashes gives a path whose last component is that name. */
  lemma BasenameOfJoin(a: string, b: string)
    requires b != [] && '/' !in b
    ensures Basename(Join(a, b)) == b
  {
    var p := Join(a, b);
    var k := TailStart(p);
    var pre := p[..|p| - |b|];
    assert p == pre + b;
    assert pre == [] || pre[|pre| - 1] == '/';
    assert k == |pre|;
  }

  /** Dropping a ".ext" suffix without dots gives back the stem, if it has a non-dot. */
  lemma StripExtensionOfSuffixed(stem: string, ext: string)
    requires '.' !in ext && exists k :: 0 <= k < |stem| && stem[k] != '.'
    ensures StripExtension(stem + "." + ext) == stem
  {
    var name := stem + "." + ext;
    assert name[|stem|] == '.';
    var d := LastIndex(name, '.').value;
    assert d == |stem|;
    var k :| 0 <= k < |stem| && stem[k] != '.';
    assert name[k] == stem[k];
    assert name[..d] == stem;
  }
}
