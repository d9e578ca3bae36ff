/** Path mappings: rewriting a Plex path into a local one, and parsing the
    `src:dst,src:dst` configuration value. */
module PathUtils {
  import opened Wrappers
  import opened Strings
  import opened OrderedMaps
  import Constants

  /** The index of the first mapping, in insertion order, whose key is a prefix of `path`. */
  function FirstMatch(path: string, mappings: Dict<string, string>): (r: Option<nat>)
    ensures r.None? <==> forall i :: 0 <= i < |mappings| ==> !StartsWith(path, mappings[i].0)
    ensures r.Some? ==>
      (r.value < |mappings| && StartsWith(path, mappings[r.value].0)
       && forall j :: 0 <= j < r.value ==> !StartsWith(path, mappings[j].0))
  {
    if mappings == [] then None
    else if StartsWith(path, mappings[0].0) then Some(0)
    else
      match FirstMatch(path, mappings[1..])
      case None => None
      case Some(i) => Some(i + 1)
  }

  /** `apply_path_mappings(path, mappings)`: the first matching key, as a bare string prefix
      (no path-component boundary), is replaced once by its value. */
  function ApplyPathMappings(path: string, mappings: Dict<string, string>): (r: string)
    ensures FirstMatch(path, mappings).None? ==> r == path
    ensures FirstMatch(path, mappings).Some? ==>
      var m := mappings[FirstMatch(path, mappings).value];
      r == m.1 + path[|m.0|..]
  {
    if mappings == [] then path
    else if StartsWith(path, mappings[0].0) then mappings[0].1 + path[|mappings[0].0|..]
    else ApplyPathMappings(path, mappings[1..])
  }

  /** The prefix rule has no component boundary: "/media" also rewrites "/mediaextra". */
  lemma PrefixWithoutBoundary()
    ensures ApplyPathMappings("/mediaextra/a.mkv", [("/media", "/mnt")]) == "/mntextra/a.mkv"
  {
    assert StartsWith("/mediaextra/a.mkv", "/media");
  }

  /** Only the leading occurrence is replaced, whatever else the path holds. */
  lemma OnlyLeadingReplaced(k: string, v: string, rest: string)
    ensures ApplyPathMappings(k + rest, [(k, v)]) == v + rest
  {
    assert StartsWith(k + rest, k) by {
      assert (k + rest)[..|k|] == k;
    }
    assert (k + rest)[|k|..] == rest;
  }

  /** Entries of one configuration string, added to the mapping one after the other:
      those with a colon are split at the first one, both sides stripped, and a repeated
      key is overwritten in place. */
  function Collect(entries: seq<string>): Dict<string, string> {
    if entries == [] then []
    else
      var acc := Collect(entries[..|entries| - 1]);
      var e := entries[|entries| - 1];
      if ':' in e then
        var (src, dst) := SplitFirst(e, ':');
        Put(acc, Strip(src), Strip(dst))
      else acc
  }

  /** What `parse_path_mappings(value)` returns. */
  function ParsedMappings(value: Option<string>): Dict<string, string> {
    if value.None? || value.value == [] then Constants.DefaultPathMappings
    else
      var m := Collect(Split(value.value, ','));
      if m == [] then Constants.DefaultPathMappings else m
  }

  /** `parse_path_mappings(value)`: the loop over the comma-separated entries. */
  method ParsePathMappings(value: Option<string>) returns (mappings: Dict<string, string>)
    ensures mappings == ParsedMappings(value)
    ensures mappings != [] && UniqueKeys(mappings)
  {
    if value.None? || value.value == [] {
      return Constants.DefaultPathMappings;
    }
    var entries := Split(value.value, ',');
    mappings := [];
    var i := 0;
    while i < |entries|
      invariant 0 <= i <= |entries|
      invariant mappings == Collect(entries[..i])
      invariant UniqueKeys(mappings)
    {
      assert entries[..i + 1][..i] == entries[..i];
      var mapping := entries[i];
      if ':' in mapping {
        var (src, dst) := SplitFirst(mapping, ':');
        PutUnique(mappings, Strip(src), Strip(dst));
        mappings := Put(mappings, Strip(src), Strip(dst));
      }
      i := i + 1;
    }
    assert entries[..i] == entries;
    if mappings == [] {
      mappings := Constants.DefaultPathMappings;
    }
  }

  /** An entry without a colon is dropped. */
  lemma CollectDropsNoColon(entries: seq<string>, e: string)
    requires ':' !in e
    ensures Collect(entries + [e]) == Collect(entries)
  {
    assert (entries + [e])[..|entries|] == entries;
  }

  /** The last entry for a key decides its value. */
  lemma CollectLastWins(entries: seq<string>, src: string, dst: string)
    requires ':' !in src
    ensures Get(Collect(entries + [src + ":" + dst]), Strip(src)) == Some(Strip(dst))
  {
    var e := src + ":" + dst;
    assert (entries + [e])[..|entries|] == entries;
    assert e[|src|] == ':';
    FirstColonAt(src, dst);
    assert e[..|src|] == src && e[|src| + 1..] == dst;
    PutGet(Collect(entries), Strip(src), Strip(dst), Strip(src));
  }

  /** The first colon of `src + ":" + dst`, where `src` has none, is the one in between. */
  lemma {:induction false} FirstColonAt(src: string, dst: string)
    requires ':' !in src
    ensures FirstIndex(src + ":" + dst, ':') == |src|
  {
    if src != [] {
      assert (src + ":" + dst)[1..] == src[1..] + ":" + dst;
      assert src[0] in src;
      assert forall c :: c in src[1..] ==> c in src;
      FirstColonAt(src[1..], dst);
    }
  }

  /** An empty value, or one without any entry with a colon, gives the default mapping. */
  lemma DefaultWhenNothingParsed(value: string)
    requires forall i :: 0 <= i < |value| ==> value[i] != ':'
    ensures ParsedMappings(Some(value)) == Constants.DefaultPathMappings
  {
    if value != [] {
      SplitPiecesWithin(value, ',');
      CollectNoColons(Split(value, ','), value);
    }
  }

  /** Every character of a piece of a split comes from the split string. */
  lemma {:induction false} SplitPiecesWithin(s: string, sep: char)
    ensures forall e :: e in Split(s, sep) ==> forall c :: c in e ==> c in s
  {
    if s != [] {
      SplitPiecesWithin(s[1..], sep);
      var rest := Split(s[1..], sep);
      assert forall c :: c in s[1..] ==> c in s;
      if s[0] != sep {
        forall e | e in Split(s, sep) ensures forall c :: c in e ==> c in s {
          assert rest[0] in rest;
          if e != [s[0]] + rest[0] {
            assert e in rest[1..];
            assert e in rest;
          }
        }
      }
    }
  }

  lemma {:induction false} CollectNoColons(entries: seq<string>, value: string)
    requires forall i :: 0 <= i < |value| ==> value[i] != ':'
    requires forall e :: e in entries ==> forall c :: c in e ==> c in value
    ensures Collect(entries) == []
  {
    if entries != [] {
      var init := entries[..|entries| - 1];
      assert forall e :: e in init ==> e in entries;
      CollectNoColons(init, value);
      var e := entries[|entries| - 1];
      assert e in entries;
    }
  }
}
