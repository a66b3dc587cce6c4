/**
 * The per-group song folders: which directory entries count as songs, where
 * a song's metadata record lives, what an upload adds, and how a song is
 * chosen (`play`, `playlist`, `callback_buttons`, `handle_audio`, main.py).
 */
module Catalog {
  import opened Wrappers
  import opened Text
  import opened Metadata

  const Mp3Suffix := ".mp3"
  const SidecarSuffix := ".json"

  /** One group's folder under `songs/`: its directory listing, in listing
      order, and the contents of the metadata records in it, keyed by their
      own file names. */
  datatype Folder = Folder(entries: seq<string>, sidecars: map<string, Sidecar>)

  /** All group folders, keyed by folder name; a group without a key has no folder. */
  type Library = map<string, Folder>

  /** The metadata record of audio file `f` is the file `f + ".json"` beside it. */
  function SidecarName(f: string): string
  {
    f + SidecarSuffix
  }

  /** The record for `f`, if that file exists. */
  function SidecarOf(folder: Folder, f: string): Option<Sidecar>
  {
    if SidecarName(f) in folder.sidecars then Some(folder.sidecars[SidecarName(f)]) else None
  }

  /** `[f for f in entries if f.endswith(".mp3")]`: the songs of a listing. */
  function Mp3Files(entries: seq<string>): (songs: seq<string>)
    ensures forall f :: f in songs <==> f in entries && EndsWith(f, Mp3Suffix)
    ensures |songs| <= |entries|
    decreases |entries|
  {
    if entries == [] then []
    else
      var last := entries[|entries| - 1];
      assert entries == entries[..|entries| - 1] + [last];
      Mp3Files(entries[..|entries| - 1]) + (if EndsWith(last, Mp3Suffix) then [last] else [])
  }

  /** The filter keeps listing order: it distributes over concatenation. */
  lemma {:induction false} Mp3FilesAppend(a: seq<string>, b: seq<string>)
    ensures Mp3Files(a + b) == Mp3Files(a) + Mp3Files(b)
    decreases |b|
  {
    if b == [] {
      assert a + b == a;
    } else {
      var init := b[..|b| - 1];
      var last := b[|b| - 1];
      var tail := if EndsWith(last, Mp3Suffix) then [last] else [];
      assert (a + b)[..|a + b| - 1] == a + init && (a + b)[|a + b| - 1] == last;
      assert Mp3Files(a + b) == Mp3Files(a + init) + tail;
      assert Mp3Files(b) == Mp3Files(init) + tail;
      Mp3FilesAppend(a, init);
      assert (Mp3Files(a) + Mp3Files(init)) + tail == Mp3Files(a) + (Mp3Files(init) + tail);
    }
  }

  /** Each `.mp3` entry is kept as often as it is listed, every other entry is dropped. */
  lemma {:induction false} Mp3FilesCount(entries: seq<string>, f: string)
    ensures multiset(Mp3Files(entries))[f] == if EndsWith(f, Mp3Suffix) then multiset(entries)[f] else 0
    decreases |entries|
  {
    if entries != [] {
      var init := entries[..|entries| - 1];
      assert entries == init + [entries[|entries| - 1]];
      Mp3FilesCount(init, f);
    }
  }

  /** A metadata record is never taken for a song: `X.json` does not end in `.mp3`. */
  lemma SidecarNeverListed(f: string)
    ensures !EndsWith(SidecarName(f), Mp3Suffix)
  {
    var s := SidecarName(f);
    assert s[|s| - 1] == 'n';
  }

  /** Adds a name to a listing unless it is already there (a rewritten file
      keeps its place). A new name goes at the end: that order is the model's,
      since `os.listdir` promises none. */
  function AddEntry(entries: seq<string>, f: string): (r: seq<string>)
    ensures f in r
    ensures forall x :: x in entries ==> x in r
    ensures forall x :: x in r ==> x in entries || x == f
    ensures |entries| <= |r| && r[..|entries|] == entries
    ensures f in entries ==> r == entries
    ensures f !in entries ==> |r| == |entries| + 1
  {
    if f in entries then entries
    else
      assert (entries + [f])[..|entries|] == entries;
      entries + [f]
  }

  /** The name is listed once more only if it was not listed before; no other name's count changes. */
  lemma AddEntryCounts(entries: seq<string>, f: string)
    ensures multiset(AddEntry(entries, f))[f] == if f in entries then multiset(entries)[f] else 1
    ensures forall x :: x != f ==> multiset(AddEntry(entries, f))[x] == multiset(entries)[x]
  {
    if f !in entries {
      assert AddEntry(entries, f) == entries + [f];
      assert multiset(entries)[f] == 0;
    }
  }

  /** What an upload writes: the audio file `file` and its record in group
      `group`'s folder, creating the folder if needed (`os.makedirs(...,
      exist_ok=True)`) and overwriting a file of the same name. */
  function AddTrack(lib: Library, group: string, file: string, sidecar: Sidecar): (lib': Library)
    ensures group in lib'
    ensures forall g :: g in lib' <==> g in lib || g == group
    ensures forall g :: g in lib && g != group ==> lib'[g] == lib[g]
  {
    var folder := if group in lib then lib[group] else Folder([], map[]);
    var entries := AddEntry(AddEntry(folder.entries, file), SidecarName(file));
    lib[group := Folder(entries, folder.sidecars[SidecarName(file) := sidecar])]
  }

  /** After an upload the new file is one of the group's songs, every earlier
      song still is, no record became a song, and the file's record is the
      one just written. */
  lemma AddTrackLists(lib: Library, group: string, file: string, sidecar: Sidecar)
    requires EndsWith(file, Mp3Suffix)
    ensures var folder' := AddTrack(lib, group, file, sidecar)[group];
      && file in Mp3Files(folder'.entries)
      && (group in lib ==> forall f :: f in Mp3Files(lib[group].entries) ==> f in Mp3Files(folder'.entries))
      && (forall f :: f in Mp3Files(folder'.entries) ==> f == file || (group in lib && f in lib[group].entries))
      && SidecarOf(folder', file) == Some(sidecar)
  {
    SidecarNeverListed(file);
  }

  /** Nothing else in the group's folder changes: every earlier entry is
      still listed (at the front, in the model's order), every other record
      is kept as it was, and nothing but the file and its record is added. */
  lemma AddTrackKeeps(lib: Library, group: string, file: string, sidecar: Sidecar)
    requires group in lib
    ensures var folder' := AddTrack(lib, group, file, sidecar)[group];
      && folder'.entries[..|lib[group].entries|] == lib[group].entries
      && (forall x :: x in lib[group].sidecars && x != SidecarName(file) ==>
            x in folder'.sidecars && folder'.sidecars[x] == lib[group].sidecars[x])
      && (forall x :: x in folder'.entries ==> x in lib[group].entries || x == file || x == SidecarName(file))
      && (forall x :: x in folder'.sidecars ==> x in lib[group].sidecars || x == SidecarName(file))
  {
    var e0 := lib[group].entries;
    var e1 := AddEntry(e0, file);
    var e2 := AddEntry(e1, SidecarName(file));
    assert e2[..|e0|] == e1[..|e1|][..|e0|];
  }

  /** An upload to a group without a folder creates it holding exactly the
      audio file and its record. */
  lemma AddTrackNewFolder(lib: Library, group: string, file: string, sidecar: Sidecar)
    requires group !in lib
    ensures AddTrack(lib, group, file, sidecar)[group]
      == Folder([file, SidecarName(file)], map[SidecarName(file) := sidecar])
  {
    assert |SidecarName(file)| > |file|;
    assert [] + [file] == [file];
  }

  /** The folders the bot's filesystem gives: the records are exactly the
      listed `.json` files, since `os.path.exists` and `os.listdir` look at the
      same directory. */
  predicate Consistent(folder: Folder)
  {
    && (forall x :: x in folder.sidecars ==> x in folder.entries && EndsWith(x, SidecarSuffix))
    && (forall x :: x in folder.entries && EndsWith(x, SidecarSuffix) ==> x in folder.sidecars)
  }

  /** In a consistent folder, a record is found exactly when `f + ".json"`
      is listed, as `os.path.exists(meta_path)` decides. */
  lemma SidecarOfListed(folder: Folder, f: string)
    requires Consistent(folder)
    ensures SidecarOf(folder, f).Some? <==> SidecarName(f) in folder.entries
  {
    var s := SidecarName(f);
    assert s[|s| - |SidecarSuffix|..] == SidecarSuffix;
  }

  /** An upload of an `.mp3` file keeps its group's folder consistent. */
  lemma AddTrackConsistent(lib: Library, group: string, file: string, sidecar: Sidecar)
    requires EndsWith(file, Mp3Suffix)
    requires group in lib ==> Consistent(lib[group])
    ensures Consistent(AddTrack(lib, group, file, sidecar)[group])
  {
    var s := SidecarName(file);
    assert s[|s| - |SidecarSuffix|..] == SidecarSuffix;
    assert file[|file| - 1] == '3';
    assert !EndsWith(file, SidecarSuffix);
  }

  /** The navigation intents of the inline keyboard. */
  datatype Intent = Next | Replay

  /** `random.choice(songs)`: some element, nothing said about which. */
  method RandomChoice(songs: seq<string>) returns (chosen: string)
    requires songs != []
    ensures chosen in songs
  {
    var i :| 0 <= i < |songs|;
    chosen := songs[i];
  }

  /** The song the handlers play: none from an empty list; for `Next` any
      member; for `Replay` always the first in listing order, whatever was
      played before. */
  method Select(songs: seq<string>, intent: Intent) returns (chosen: Option<string>)
    ensures chosen.None? <==> songs == []
    ensures chosen.Some? ==> chosen.value in songs
    ensures chosen.Some? && intent == Replay ==> chosen.value == songs[0]
  {
    if songs == [] {
      return None;
    }
    match intent
    case Next =>
      var f := RandomChoice(songs);
      chosen := Some(f);
    case Replay =>
      chosen := Some(songs[0]);
  }
}
