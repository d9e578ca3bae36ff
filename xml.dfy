/** Parsed Plex XML: elements with ordered attributes and children, the `find*`
    queries the client uses, and the lazily initialised Video -> Media -> Part navigator.
    Parsing text into elements is outside the model: a parse is an `Option<Element>`. */
module Xml {
  import opened Wrappers
  import opened Strings
  import opened OrderedMaps

  datatype Element = Element(tag: string, attrs: Dict<string, string>, children: seq<Element>)

  /** `e.get(key)`. */
  function Attr(e: Element, key: string): Option<string> {
    Get(e.attrs, key)
  }

  /** `e.get(key, default)`. */
  function AttrOr(e: Element, key: string, default: string): string {
    Attr(e, key).GetOr(default)
  }

  /** The elements of a forest in document order: each tree's root, then its
      descendants, tree after tree. */
  function Forest(trees: seq<Element>): seq<Element>
    decreases trees
  {
    if trees == [] then []
    else [trees[0]] + Forest(trees[0].children) + Forest(trees[1..])
  }

  /** Everything strictly below `e`, in document order: what `.//` searches. */
  function Descendants(e: Element): seq<Element> {
    Forest(e.children)
  }

  /** A forest holds its trees and everything below them, and nothing else. */
  lemma {:induction false} ForestMembers(trees: seq<Element>, x: Element)
    ensures x in Forest(trees) <==> exists i :: 0 <= i < |trees| && (x == trees[i] || x in Descendants(trees[i]))
    decreases trees
  {
    if trees != [] {
      ForestMembers(trees[0].children, x);
      ForestMembers(trees[1..], x);
      if exists i :: 0 <= i < |trees| && (x == trees[i] || x in Descendants(trees[i])) {
        var i :| 0 <= i < |trees| && (x == trees[i] || x in Descendants(trees[i]));
        if i > 0 {
          assert trees[1..][i - 1] == trees[i];
        }
      }
      if x in Forest(trees[1..]) {
        var i :| 0 <= i < |trees[1..]| && (x == trees[1..][i] || x in Descendants(trees[1..][i]));
        assert trees[i + 1] == trees[1..][i];
      }
    }
  }

  /** The descendants of a child are descendants of its parent, and so is the child. */
  lemma ChildDescendants(e: Element, i: nat, x: Element)
    requires i < |e.children|
    ensures e.children[i] in Descendants(e)
    ensures x in Descendants(e.children[i]) ==> x in Descendants(e)
  {
    ForestMembers(e.children, x);
    ForestMembers(e.children, e.children[i]);
  }

  /** The index of the first element of `xs` with tag `tag`. */
  function FirstTagged(xs: seq<Element>, tag: string): (r: Option<nat>)
    ensures r.None? <==> forall i :: 0 <= i < |xs| ==> xs[i].tag != tag
    ensures r.Some? ==>
      (r.value < |xs| && xs[r.value].tag == tag && forall j :: 0 <= j < r.value ==> xs[j].tag != tag)
  {
    if xs == [] then None
    else if xs[0].tag == tag then Some(0)
    else
      match FirstTagged(xs[1..], tag)
      case None => None
      case Some(i) => Some(i + 1)
  }

  /** `parent.find(path)` when the first element of `xs` tagged `tag` is wanted. */
  function FindFirst(xs: seq<Element>, tag: string): (r: Option<Element>)
    ensures r.None? <==> forall i :: 0 <= i < |xs| ==> xs[i].tag != tag
    ensures r.Some? ==> r.value.tag == tag && r.value in xs
  {
    match FirstTagged(xs, tag)
    case None => None
    case Some(i) => Some(xs[i])
  }

  /** `find_video_element(root)`: `root.find(".//Video")`. */
  function FindVideo(root: Element): Option<Element> {
    FindFirst(Descendants(root), "Video")
  }

  /** `find_media_element(video)` and its siblings look at direct children only. */
  function FindChild(e: Element, tag: string): Option<Element> {
    FindFirst(e.children, tag)
  }

  function FindMedia(video: Element): Option<Element> { FindChild(video, "Media") }
  function FindPart(media: Element): Option<Element> { FindChild(media, "Part") }
  function FindPlayer(video: Element): Option<Element> { FindChild(video, "Player") }
  function FindSession(video: Element): Option<Element> { FindChild(video, "Session") }

  /** The first Video below the root is found, in document order. */
  lemma FindVideoIsFirst(root: Element)
    ensures FindVideo(root).None? <==> forall x :: x in Descendants(root) ==> x.tag != "Video"
    ensures FindVideo(root).Some? ==>
      var d := Descendants(root);
      var k := FirstTagged(d, "Video").value;
      FindVideo(root).value == d[k] && forall j :: 0 <= j < k ==> d[j].tag != "Video"
  {
  }

  /** `[@streamType='3']` on a Stream element. */
  predicate IsSubtitleStream(e: Element) {
    e.tag == "Stream" && Attr(e, "streamType") == Some("3")
  }

  /** The subtitle streams among `xs`, in order. */
  function SubtitleStreamsIn(xs: seq<Element>): (r: seq<Element>)
    ensures forall x :: x in r <==> x in xs && IsSubtitleStream(x)
    ensures |r| <= |xs|
  {
    if xs == [] then []
    else (if IsSubtitleStream(xs[0]) then [xs[0]] else []) + SubtitleStreamsIn(xs[1..])
  }

  /** The filter keeps order: it distributes over concatenation. */
  lemma {:induction false} SubtitleStreamsAppend(a: seq<Element>, b: seq<Element>)
    ensures SubtitleStreamsIn(a + b) == SubtitleStreamsIn(a) + SubtitleStreamsIn(b)
  {
    if a != [] {
      assert (a + b)[1..] == a[1..] + b;
      SubtitleStreamsAppend(a[1..], b);
    } else {
      assert a + b == b;
    }
  }

  /** `find_subtitle_streams(root)`: `root.findall(".//Stream[@streamType='3']")`. */
  function FindSubtitleStreams(root: Element): (r: seq<Element>)
    ensures forall x :: x in r <==> x in Descendants(root) && IsSubtitleStream(x)
  {
    SubtitleStreamsIn(Descendants(root))
  }

  /** The elements among `xs` tagged `tag`, in order: `findall` with a bare tag. */
  function AllTagged(xs: seq<Element>, tag: string): (r: seq<Element>)
    ensures forall x :: x in r <==> x in xs && x.tag == tag
    ensures |r| <= |xs|
  {
    if xs == [] then []
    else (if xs[0].tag == tag then [xs[0]] else []) + AllTagged(xs[1..], tag)
  }

  const ImdbPrefix: string := "imdb://"

  /** The loop of `find_imdb_id` over the Guids: the first id starting with "imdb://",
      with every "imdb://" in it removed. */
  function FirstImdb(guids: seq<Element>): (r: Option<string>)
    ensures r.None? <==> forall i :: 0 <= i < |guids| ==> !StartsWith(AttrOr(guids[i], "id", ""), ImdbPrefix)
    ensures r.Some? ==>
      (exists i :: 0 <= i < |guids| && StartsWith(AttrOr(guids[i], "id", ""), ImdbPrefix)
        && r.value == RemoveAll(AttrOr(guids[i], "id", ""), ImdbPrefix)
        && forall j :: 0 <= j < i ==> !StartsWith(AttrOr(guids[j], "id", ""), ImdbPrefix))
  {
    if guids == [] then None
    else
      var id := AttrOr(guids[0], "id", "");
      if StartsWith(id, ImdbPrefix) then Some(RemoveAll(id, ImdbPrefix))
      else
        var r := FirstImdb(guids[1..]);
        if r.Some? then
          var i :| 0 <= i < |guids[1..]| && StartsWith(AttrOr(guids[1..][i], "id", ""), ImdbPrefix)
            && r.value == RemoveAll(AttrOr(guids[1..][i], "id", ""), ImdbPrefix)
            && forall j :: 0 <= j < i ==> !StartsWith(AttrOr(guids[1..][j], "id", ""), ImdbPrefix);
          assert guids[i + 1] == guids[1..][i];
          r
        else r
  }

  /** `find_imdb_id(root)`. */
  function FindImdbId(root: Element): Option<string> {
    FirstImdb(AllTagged(Descendants(root), "Guid"))
  }

  /** An id "imdb://tt..." gives "tt...". */
  lemma ImdbPrefixDropped(rest: string)
    requires !Contains(rest, ImdbPrefix)
    ensures RemoveAll(ImdbPrefix + rest, ImdbPrefix) == rest
  {
    RemoveAllLeading(ImdbPrefix, rest);
    RemoveAllAbsent(rest, ImdbPrefix);
  }

  /** The Part under the first Media child, if both exist. */
  function PartOf(video: Element): Option<Element> {
    match FindMedia(video)
    case None => None
    case Some(m) => FindPart(m)
  }

  /** What `get_file_path()` answers: `None` without a Part, else its `file` attribute. */
  function FilePathOf(video: Element): (r: Option<string>)
    ensures PartOf(video).None? ==> r.None?
    ensures PartOf(video).Some? ==> r == Attr(PartOf(video).value, "file")
  {
    if PartOf(video).None? then None else Attr(PartOf(video).value, "file")
  }

  /** What `get_part_id()` answers: `None` without a Part, else its `id` attribute. */
  function PartIdOf(video: Element): (r: Option<string>)
    ensures PartOf(video).None? ==> r.None?
    ensures PartOf(video).Some? ==> r == Attr(PartOf(video).value, "id")
  {
    if PartOf(video).None? then None else Attr(PartOf(video).value, "id")
  }

  /** A Part is only ever found under a Media element, the first one. */
  lemma PartNeedsMedia(video: Element)
    ensures PartOf(video).Some? ==> FindMedia(video).Some? && PartOf(video) == FindPart(FindMedia(video).value)
    ensures FindMedia(video).Some? ==>
      exists k :: 0 <= k < |video.children| && FindMedia(video).value == video.children[k]
        && forall j :: 0 <= j < k ==> video.children[j].tag != "Media"
  {
    if FindMedia(video).Some? {
      var k := FirstTagged(video.children, "Media").value;
      assert FindMedia(video).value == video.children[k];
    }
  }

  /** The truth value of an element, which is its number of children being non-zero. */
  predicate ElementIsTrue(e: Element) {
    |e.children| > 0
  }

  /** `MediaPartData`. */
  datatype MediaPartData = MediaPartData(filePath: Option<string>, partId: Option<string>,
                                         mediaElement: Option<Element>, partElement: Option<Element>)

  /** `MediaPartNavigator(video)`: looks its Media and Part up on first use only. */
  class MediaPartNavigator {
    const video: Element
    var media: Option<Element>
    var part: Option<Element>
    var initialized: bool

    /** Before the first use nothing is cached; after it, the lookups' answers are. */
    ghost predicate Valid()
      reads this
    {
      && (initialized ==> media == FindMedia(video) && part == PartOf(video))
      && (!initialized ==> media.None? && part.None?)
    }

    constructor(v: Element)
      ensures video == v && !initialized && media.None? && part.None? && Valid()
    {
      video := v;
      media := None;
      part := None;
      initialized := false;
    }

    /** `_initialize()`: a no-op once initialised. */
    method Initialize()
      requires Valid()
      modifies this
      ensures Valid() && initialized
      ensures media == FindMedia(video) && part == PartOf(video)
      ensures old(initialized) ==> media == old(media) && part == old(part)
    {
      if initialized {
        return;
      }
      media := FindMedia(video);
      if media.Some? {
        part := FindPart(media.value);
      }
      initialized := true;
    }

    method GetMediaElement() returns (m: Option<Element>)
      requires Valid()
      modifies this
      ensures Valid() && initialized && m == media
      ensures m == FindMedia(video)
    {
      Initialize();
      m := media;
    }

    method GetPartElement() returns (p: Option<Element>)
      requires Valid()
      modifies this
      ensures Valid() && initialized && p == part
      ensures p == PartOf(video)
    {
      Initialize();
      p := part;
    }

    method GetFilePath() returns (path: Option<string>)
      requires Valid()
      modifies this
      ensures Valid() && initialized
      ensures path == FilePathOf(video)
    {
      Initialize();
      if part.None? {
        return None;
      }
      path := Attr(part.value, "file");
    }

    method GetPartId() returns (id: Option<string>)
      requires Valid()
      modifies this
      ensures Valid() && initialized
      ensures id == PartIdOf(video)
    {
      Initialize();
      if part.None? {
        return None;
      }
      id := Attr(part.value, "id");
    }

    /** `get_all_data()`. It tests the Part's truth value (`if self._part`), and an
        element without children is false, so a childless Part gives neither its file
        path nor its ID, unlike `get_file_path()` and `get_part_id()`. */
    method GetAllData() returns (data: MediaPartData)
      requires Valid()
      modifies this
      ensures Valid() && initialized
      ensures data.mediaElement == FindMedia(video) && data.partElement == PartOf(video)
      ensures PartOf(video).Some? && ElementIsTrue(PartOf(video).value) ==>
        data.filePath == FilePathOf(video) && data.partId == PartIdOf(video)
      ensures !(PartOf(video).Some? && ElementIsTrue(PartOf(video).value)) ==> data.filePath.None? && data.partId.None?
    {
      Initialize();
      var path := if part.Some? && ElementIsTrue(part.value) then Attr(part.value, "file") else None;
      var id := if part.Some? && ElementIsTrue(part.value) then Attr(part.value, "id") else None;
      data := MediaPartData(path, id, media, part);
    }

    method HasMedia() returns (b: bool)
      requires Valid()
      modifies this
      ensures Valid() && initialized
      ensures b <==> FindMedia(video).Some?
    {
      Initialize();
      b := media.Some?;
    }

    method HasPart() returns (b: bool)
      requires Valid()
      modifies this
      ensures Valid() && initialized
      ensures b <==> PartOf(video).Some?
      ensures b ==> FindMedia(video).Some?
    {
      Initialize();
      b := part.Some?;
    }
  }

  /** A Part with a file path but no children: `get_file_path()` finds the path,
      while `get_all_data()` reports none, because the Part is false. */
  lemma ChildlessPartIsFalse()
    ensures var part := Element("Part", [("file", "/m.mkv")], []);
      var video := Element("Video", [], [Element("Media", [], [part])]);
      PartOf(video) == Some(part) && FilePathOf(video) == Some("/m.mkv") && !ElementIsTrue(part)
  {
    var part := Element("Part", [("file", "/m.mkv")], []);
    var media := Element("Media", [], [part]);
    var video := Element("Video", [], [media]);
    assert FirstTagged(video.children, "Media") == Some(0);
    assert FirstTagged(media.children, "Part") == Some(0);
  }

  /** Looking twice gives the cached answer again, and the cache does not move. */
  method NavigateTwice(video: Element) returns (first: Option<Element>, second: Option<Element>)
    ensures first == second == PartOf(video)
  {
    var nav := new MediaPartNavigator(video);
    first := nav.GetPartElement();
    var cached := nav.part;
    second := nav.GetPartElement();
    assert nav.part == cached;
  }

  /** `get_file_path_from_video(video)`. */
  method GetFilePathFromVideo(video: Element) returns (path: Option<string>)
    ensures path == FilePathOf(video)
  {
    var nav := new MediaPartNavigator(video);
    path := nav.GetFilePath();
  }

  /** `get_part_id_from_video(video)`. */
  method GetPartIdFromVideo(video: Element) returns (id: Option<string>)
    ensures id == PartIdOf(video)
  {
    var nav := new MediaPartNavigator(video);
    id := nav.GetPartId();
  }
}
