/**
 * Track titles and artists: `os.path.splitext` for file names, the tag
 * reader's fallback (`extract_metadata`) and the defaulting of a stored
 * track's metadata record (main.py).
 */
module Metadata {
  import opened Wrappers
  import opened Text

  /** The artist used whenever none is known. */
  const DefaultArtist := "$SQUONK"

  /** The title used for an upload that carries no file name. */
  const UnknownTitle := "Unknown"

  datatype Meta = Meta(title: string, artist: string)

  /** Some character of `p[lo..hi]` is not a dot. */
  predicate HasNonDot(p: string, lo: int, hi: int)
    requires 0 <= lo && hi <= |p|
  {
    exists k :: lo <= k < hi && p[k] != '.'
  }

  /** `os.path.splitext(p)` on POSIX paths: split before the last `.` of the
      last path component, unless every character of that component before
      the dot is itself a dot (so `.mp3` and `..mp3` have no extension). */
  function SplitExt(p: string): (string, string)
  {
    var sep := LastIndexOf(p, '/');
    var dot := LastIndexOf(p, '.');
    if dot > sep && HasNonDot(p, sep + 1, dot) then (p[..dot], p[dot..]) else (p, "")
  }

  /** The two parts put back together give the path; a non-empty extension
      is one dot and then neither dot nor separator, with something other
      than dots before it in the last component; an empty extension means no
      dot of the last component has such a prefix. */
  lemma SplitExtSpec(p: string)
    ensures var r := SplitExt(p);
      && r.0 + r.1 == p
      && (r.1 != [] ==> r.1[0] == '.' && '.' !in r.1[1..] && '/' !in r.1[1..])
      && (r.1 != [] ==> HasNonDot(p, LastIndexOf(p, '/') + 1, |r.0|))
      && (r.1 == [] ==> forall d :: LastIndexOf(p, '/') < d < |p| && p[d] == '.' ==>
           !HasNonDot(p, LastIndexOf(p, '/') + 1, d))
  {
    var sep := LastIndexOf(p, '/');
    var dot := LastIndexOf(p, '.');
    if dot > sep && HasNonDot(p, sep + 1, dot) {
      assert forall k :: dot < k < |p| ==> p[k] != '.' && p[k] != '/';
      assert p[..dot] + p[dot..] == p;
    } else {
      assert forall d :: sep < d < |p| && p[d] == '.' ==> d <= dot;
    }
  }

  /** `os.path.splitext(p)[0]`. */
  function Root(p: string): string
  {
    SplitExt(p).0
  }

  /** The names the bot stores, `<id>.mp3` with `<id>` a plain name, lose exactly their `.mp3`. */
  lemma RootOfMp3(name: string)
    requires '/' !in name && '.' !in name && name != []
    ensures SplitExt(name + ".mp3") == (name, ".mp3")
  {
    var p := name + ".mp3";
    assert p[|name|] == '.';
    assert forall k :: |name| < k < |p| ==> p[k] != '.' && p[k] != '/';
    assert LastIndexOf(p, '.') == |name|;
    assert p[0] == name[0];
  }

  /** A name without a dot has no extension. */
  lemma RootWithoutDot(p: string)
    requires '.' !in p
    ensures SplitExt(p) == (p, "")
  {
  }

  /** A file name that only starts with dots (`.mp3`, `..mp3`) has no extension. */
  lemma RootOfDotName(dots: string, rest: string)
    requires dots != [] && forall k :: 0 <= k < |dots| ==> dots[k] == '.'
    requires '.' !in rest && '/' !in rest
    ensures SplitExt(dots + rest) == (dots + rest, "")
  {
    var p := dots + rest;
    assert forall k :: |dots| <= k < |p| ==> p[k] == rest[k - |dots|];
    assert p[|dots| - 1] == '.';
    assert LastIndexOf(p, '.') == |dots| - 1;
    assert forall k :: 0 <= k < |dots| ==> p[k] == '.';
    assert LastIndexOf(p, '/') == -1;
  }

  /** The fallback title of an upload: `splitext(file_name or "Unknown")[0]`;
      an absent or empty name counts as `Unknown`. */
  function FallbackTitle(fileName: Option<string>): (t: string)
    ensures fileName.None? || fileName == Some("") ==> t == UnknownTitle
    ensures fileName.Some? && fileName.value != "" ==> t == Root(fileName.value)
  {
    var name := if fileName.Some? && fileName.value != "" then fileName.value else UnknownTitle;
    RootWithoutDot(UnknownTitle);
    Root(name)
  }

  /** The tag reader's view of an audio file: None when the file cannot be
      parsed, otherwise a list of values per tag name. */
  type Tags = Option<map<string, seq<string>>>

  /** The first element of `t[key]`, or of `[default]` when the tag is absent;
      None where Python's `[0]` would raise on an empty list. */
  function FirstTag(t: map<string, seq<string>>, key: string, default: string): (r: Option<string>)
    ensures key !in t ==> r == Some(default)
    ensures key in t ==> (r.None? <==> t[key] == [])
    ensures key in t && r.Some? ==> r.value == t[key][0]
  {
    var values := if key in t then t[key] else [default];
    if values == [] then None else Some(values[0])
  }

  /** `extract_metadata`: never fails. A file that cannot be parsed, or a
      tag list that is empty, gives the fallback title and the default
      artist for both fields; otherwise each field is the first value of its
      tag, or that field's default. */
  function ExtractMetadata(tags: Tags, fallback: string): (m: Meta)
    ensures tags.None? ==> m == Meta(fallback, DefaultArtist)
    ensures tags.Some? && (("title" in tags.value && tags.value["title"] == [])
                           || ("artist" in tags.value && tags.value["artist"] == []))
      ==> m == Meta(fallback, DefaultArtist)
    ensures tags.Some? && ("title" in tags.value ==> tags.value["title"] != [])
                       && ("artist" in tags.value ==> tags.value["artist"] != [])
      ==> (&& m.title == (if "title" in tags.value then tags.value["title"][0] else fallback)
           && m.artist == (if "artist" in tags.value then tags.value["artist"][0] else DefaultArtist))
  {
    match tags
    case None => Meta(fallback, DefaultArtist)
    case Some(t) =>
      var title := FirstTag(t, "title", fallback);
      var artist := FirstTag(t, "artist", DefaultArtist);
      if title.None? || artist.None? then Meta(fallback, DefaultArtist)
      else Meta(title.value, artist.value)
  }

  /** With both tags present and non-empty, their first values are taken. */
  lemma ExtractMetadataTagged(t: map<string, seq<string>>, fallback: string)
    requires "title" in t && t["title"] != [] && "artist" in t && t["artist"] != []
    ensures ExtractMetadata(Some(t), fallback) == Meta(t["title"][0], t["artist"][0])
  {
  }

  /** Tags other than `title` and `artist` never influence the result. */
  lemma ExtractMetadataOnlyTwoTags(t1: map<string, seq<string>>, t2: map<string, seq<string>>, fallback: string)
    requires ("title" in t1 <==> "title" in t2) && ("title" in t1 ==> t1["title"] == t2["title"])
    requires ("artist" in t1 <==> "artist" in t2) && ("artist" in t1 ==> t1["artist"] == t2["artist"])
    ensures ExtractMetadata(Some(t1), fallback) == ExtractMetadata(Some(t2), fallback)
  {
  }

  /** The JSON record stored beside a track, as a map from field name to string value. */
  type Sidecar = map<string, string>

  /** The metadata the playback handlers show for file `f`: the record's
      `title` if it has one, else the file name without its extension; the
      record's `artist` if it has one, else the default artist. */
  function TrackMeta(f: string, sidecar: Option<Sidecar>): (m: Meta)
    ensures sidecar.Some? && "title" in sidecar.value ==> m.title == sidecar.value["title"]
    ensures (sidecar.None? || "title" !in sidecar.value) ==> m.title == Root(f)
    ensures sidecar.Some? && "artist" in sidecar.value ==> m.artist == sidecar.value["artist"]
    ensures (sidecar.None? || "artist" !in sidecar.value) ==> m.artist == DefaultArtist
  {
    var base := Root(f);
    match sidecar
    case None => Meta(base, DefaultArtist)
    case Some(s) =>
      Meta(if "title" in s then s["title"] else base,
           if "artist" in s then s["artist"] else DefaultArtist)
  }

  /** Fields of the record other than `title` and `artist` never influence the result. */
  lemma TrackMetaOnlyTwoFields(f: string, s1: Sidecar, s2: Sidecar)
    requires ("title" in s1 <==> "title" in s2) && ("title" in s1 ==> s1["title"] == s2["title"])
    requires ("artist" in s1 <==> "artist" in s2) && ("artist" in s1 ==> s1["artist"] == s2["artist"])
    ensures TrackMeta(f, Some(s1)) == TrackMeta(f, Some(s2))
  {
  }
}
