/**
 * The bot's message and button handlers (main.py), each reduced to what it
 * decides: the reply or audio it sends, and the state it writes. Sending is
 * modelled by the returned `Response`; the transport itself is not modelled.
 */
module Handlers {
  import opened Wrappers
  import opened Text
  import opened GroupIds
  import opened Metadata
  import opened Catalog
  import opened Bindings

  /** An inline button: its text and the callback data it sends when pressed. */
  datatype Button = Button(text: string, data: string)

  /** An inline keyboard, row by row. */
  type Keyboard = seq<seq<Button>>

  /** What a handler sends back. `Unhandled` stands for an exception that
      escapes the handler, after which nothing is sent. */
  datatype Response =
    | Reply(text: string)
    | ReplyWithKeyboard(text: string, keyboard: Keyboard)
    | SendAudio(group: string, file: string, title: string, performer: string, caption: string, keyboard: Keyboard)
    | Alert(text: string)
    | Unhandled

  const NextData := "next"
  const ReplayData := "replay"
  const PlayPrefix := "play:"

  const InvalidGroupIdReply := "❌ Invalid group ID format. Use `GroupID: 123456789`"
  const NeedGroupIdReply := "❗ Please first send `GroupID: <your_group_id>` in this private chat."
  const NoSongsForGroupReply := "❌ No songs found for this group."
  const NoAudioReply := "❌ No audio files found."
  const NoSongsReply := "❌ No songs found."
  const EmptyPlaylistReply := "❌ Playlist is empty."
  const NoSongsAlert := "❌ No songs available."
  const PlaylistHeader := "🎵 Playlist:\n"
  const PlayCaption := "🎶 Squonking time!"
  const SelectedCaption := "🎧 Playing selected track!"
  const NextCaption := "▶️ Next beat!"
  const ReplayCaption := "🔁 Replay mode!"
  const SongsFolder := "songs"

  /** `get_keyboard`: one row with a Next and a Replay button. */
  function GetKeyboard(): Keyboard
  {
    [[Button("▶️ Next", NextData), Button("🔁 Replay", ReplayData)]]
  }

  // ---------------------------------------------------------------- routing

  /** The callback handler that takes a button press: the `play:` handler is
      registered first, the Next/Replay handler second, and data matching
      neither is dropped. */
  datatype Route = ToPlaySpecific | ToButtons | Dropped

  function RouteCallback(data: string): (r: Route)
    ensures r == ToPlaySpecific <==> StartsWith(data, PlayPrefix)
    ensures r == ToButtons <==> !StartsWith(data, PlayPrefix) && (data == NextData || data == ReplayData)
  {
    if StartsWith(data, PlayPrefix) then ToPlaySpecific
    else if data == NextData || data == ReplayData then ToButtons
    else Dropped
  }

  /** The fixed keyboard's buttons always reach the Next/Replay handler. */
  lemma KeyboardRoutesToButtons()
    ensures forall row, b :: row in GetKeyboard() && b in row ==> RouteCallback(b.data) == ToButtons
  {
    assert ReplayData[..|PlayPrefix|][0] != PlayPrefix[0];
  }

  /** Callback data `play:` + f reaches the pick handler, and `split(":", 1)[1]`
      gives back exactly f, even when f itself contains colons. */
  lemma PlayDataRoundTrip(f: string)
    ensures RouteCallback(PlayPrefix + f) == ToPlaySpecific
    ensures AfterFirst(PlayPrefix + f, ':') == Some(f)
  {
    assert (PlayPrefix + f)[..|PlayPrefix|] == PlayPrefix;
    assert PlayPrefix + f == "play" + [':'] + f;
    AfterFirstPrefix("play", ':', f);
  }

  // --------------------------------------------------------------- binding

  function SavedGroupReply(group: string): string
  {
    "✅ Group ID `" + group + "` saved. Now send me .mp3 files!"
  }

  /** `receive_group_id`: an accepted id overwrites the sender's record and is
      confirmed; a rejected one leaves every record as it was. */
  method ReceiveGroupId(store: BindingStore, user: UserId, text: string) returns (reply: string)
    modifies store
    ensures match ParseGroupId(text)
      case Some(g) => store.groupOf == old(store.groupOf)[user := g] && reply == SavedGroupReply(g)
      case None => store.groupOf == old(store.groupOf) && reply == InvalidGroupIdReply
    ensures old(store.Valid()) ==> store.Valid()
  {
    var parsed := ParseGroupId(text);
    match parsed
    case None =>
      reply := InvalidGroupIdReply;
    case Some(g) =>
      store.Bind(user, g);
      reply := SavedGroupReply(g);
  }

  /** A rejected id leaves the user's earlier binding in place; an accepted
      one is what the next lookup returns. */
  method BindThenResolve(store: BindingStore, user: UserId, text: string) returns (before: Option<string>, after: Option<string>)
    modifies store
    ensures ParseGroupId(text).None? ==> after == before
    ensures ParseGroupId(text).Some? ==> after == Some(Candidate(text))
  {
    before := store.Resolve(user);
    var _ := ReceiveGroupId(store, user, text);
    after := store.Resolve(user);
  }

  // ---------------------------------------------------------------- upload

  /** An incoming audio message: the platform's unique file id and the
      uploader's file name, if any. */
  datatype AudioMessage = AudioMessage(fileUniqueId: string, fileName: Option<string>)

  /** `os.path.join(SONGS_FOLDER, group, file)`. */
  function TrackPath(group: string, file: string): string
  {
    SongsFolder + "/" + group + "/" + file
  }

  /** The record `handle_audio` writes beside the audio file. */
  function UploadRecord(group: string, file: string, m: Meta): Sidecar
  {
    map["file" := TrackPath(group, file), "title" := m.title, "artist" := m.artist]
  }

  function SavedTrackReply(title: string, group: string): string
  {
    "✅ Saved `" + title + "` for group " + group
  }

  /** `handle_audio`: without a (non-empty) binding the upload is refused and
      nothing is written; otherwise `<file_unique_id>.mp3` and its record go
      into the bound group's folder, with the tag reader's metadata. `tags` is
      what the tag reader makes of the downloaded file. */
  method HandleAudio(store: BindingStore, lib: Library, user: UserId, audio: AudioMessage, tags: Tags)
    returns (reply: string, lib': Library)
    ensures user !in store.groupOf || store.groupOf[user] == "" ==> reply == NeedGroupIdReply && lib' == lib
    ensures user in store.groupOf && store.groupOf[user] != "" ==>
      var g := store.groupOf[user];
      var file := audio.fileUniqueId + Mp3Suffix;
      var m := ExtractMetadata(tags, FallbackTitle(audio.fileName));
      lib' == AddTrack(lib, g, file, UploadRecord(g, file, m)) && reply == SavedTrackReply(m.title, g)
  {
    var bound := store.Resolve(user);
    if bound.None? || bound.value == "" {
      return NeedGroupIdReply, lib;
    }
    var g := bound.value;
    var file := audio.fileUniqueId + Mp3Suffix;
    var m := ExtractMetadata(tags, FallbackTitle(audio.fileName));
    lib' := AddTrack(lib, g, file, UploadRecord(g, file, m));
    reply := SavedTrackReply(m.title, g);
  }

  /** What an upload stores is what playback later shows: the new file is a
      song of the group, and its title and artist are the ones extracted at
      upload time. */
  lemma UploadPlaysBack(lib: Library, g: string, id: string, m: Meta)
    ensures var file := id + Mp3Suffix;
      var folder := AddTrack(lib, g, file, UploadRecord(g, file, m))[g];
      file in Mp3Files(folder.entries) && TrackMeta(file, SidecarOf(folder, file)) == m
  {
    var file := id + Mp3Suffix;
    assert EndsWith(file, Mp3Suffix) by { assert file[|file| - |Mp3Suffix|..] == Mp3Suffix; }
    AddTrackLists(lib, g, file, UploadRecord(g, file, m));
  }

  // -------------------------------------------------------------- playback

  /** The audio message for song `f` of `folder`: its resolved metadata and the fixed keyboard. */
  function AudioFor(folder: Folder, group: string, f: string, caption: string): Response
  {
    var m := TrackMeta(f, SidecarOf(folder, f));
    SendAudio(group, f, m.title, m.artist, caption, GetKeyboard())
  }

  /** `/play`: a missing folder and a folder without songs are reported;
      otherwise some song of the folder is sent. */
  method Play(lib: Library, chatId: int) returns (r: Response)
    ensures IntString(chatId) !in lib ==> r == Reply(NoSongsForGroupReply)
    ensures IntString(chatId) in lib && Mp3Files(lib[IntString(chatId)].entries) == [] ==> r == Reply(NoAudioReply)
    ensures IntString(chatId) in lib && Mp3Files(lib[IntString(chatId)].entries) != [] ==>
      r.SendAudio? && r.file in Mp3Files(lib[IntString(chatId)].entries)
      && r == AudioFor(lib[IntString(chatId)], IntString(chatId), r.file, PlayCaption)
  {
    var g := IntString(chatId);
    if g !in lib {
      return Reply(NoSongsForGroupReply);
    }
    var songs := Mp3Files(lib[g].entries);
    if songs == [] {
      return Reply(NoAudioReply);
    }
    var chosen := RandomChoice(songs);
    r := AudioFor(lib[g], g, chosen, PlayCaption);
  }

  /** Next/Replay (`callback_buttons`). The folder's existence is not checked
      first, so a missing folder makes the listing raise: `Unhandled`. An
      empty folder gives an alert; `next` sends some song, anything else
      (only `replay` is routed here) the first song in listing order. */
  method CallbackButtons(lib: Library, chatId: int, data: string) returns (r: Response)
    ensures IntString(chatId) !in lib ==> r == Unhandled
    ensures IntString(chatId) in lib && Mp3Files(lib[IntString(chatId)].entries) == [] ==> r == Alert(NoSongsAlert)
    ensures IntString(chatId) in lib && Mp3Files(lib[IntString(chatId)].entries) != [] ==>
      r.SendAudio? && r.file in Mp3Files(lib[IntString(chatId)].entries)
      && r == AudioFor(lib[IntString(chatId)], IntString(chatId), r.file,
                       if data == NextData then NextCaption else ReplayCaption)
    ensures IntString(chatId) in lib && Mp3Files(lib[IntString(chatId)].entries) != [] && data != NextData ==>
      r.file == Mp3Files(lib[IntString(chatId)].entries)[0]
  {
    var g := IntString(chatId);
    if g !in lib {
      return Unhandled;
    }
    var songs := Mp3Files(lib[g].entries);
    var chosen := Select(songs, if data == NextData then Next else Replay);
    if chosen.None? {
      return Alert(NoSongsAlert);
    }
    r := AudioFor(lib[g], g, chosen.value, if data == NextData then NextCaption else ReplayCaption);
  }

  /** The pick handler (`callback_play_specific`): the file named after the
      first colon is sent with its metadata. It is not checked against the
      listing, so a name that does not exist (or a missing folder) makes
      opening it raise: `Unhandled`; so does data without a colon. */
  function CallbackPlaySpecific(lib: Library, chatId: int, data: string): (r: Response)
    ensures r != Unhandled <==>
      AfterFirst(data, ':').Some? && IntString(chatId) in lib
      && AfterFirst(data, ':').value in lib[IntString(chatId)].entries
    ensures r != Unhandled ==>
      r == AudioFor(lib[IntString(chatId)], IntString(chatId), AfterFirst(data, ':').value, SelectedCaption)
  {
    var g := IntString(chatId);
    match AfterFirst(data, ':')
    case None => Unhandled
    case Some(f) =>
      if g in lib && f in lib[g].entries then AudioFor(lib[g], g, f, SelectedCaption) else Unhandled
  }

  // -------------------------------------------------------------- playlist

  /** The title the playlist shows for `f`: the record's `title`, else the name without extension. */
  function ListedTitle(folder: Folder, f: string): string
  {
    TrackMeta(f, SidecarOf(folder, f)).title
  }

  function PlayButton(folder: Folder, f: string): Button
  {
    Button("▶️ " + ListedTitle(folder, f), PlayPrefix + f)
  }

  /** The playlist line of one song. */
  function PlaylistLine(folder: Folder, f: string): string
  {
    "• " + ListedTitle(folder, f) + "\n"
  }

  /** The playlist text after the header: one line per song, in order. */
  function PlaylistLines(folder: Folder, songs: seq<string>): string
    decreases |songs|
  {
    if songs == [] then ""
    else PlaylistLines(folder, songs[..|songs| - 1]) + PlaylistLine(folder, songs[|songs| - 1])
  }

  /** The playlist keyboard: a row of one button per song, in order. */
  function PlaylistKeyboard(folder: Folder, songs: seq<string>): (kb: Keyboard)
    ensures |kb| == |songs|
    decreases |songs|
  {
    if songs == [] then []
    else PlaylistKeyboard(folder, songs[..|songs| - 1]) + [[PlayButton(folder, songs[|songs| - 1])]]
  }

  /** Exactly one button per song, in listing order, labelled with its title
      and carrying `play:` + its file name. */
  lemma {:induction false} PlaylistKeyboardShape(folder: Folder, songs: seq<string>)
    ensures forall i :: 0 <= i < |songs| ==> PlaylistKeyboard(folder, songs)[i] == [PlayButton(folder, songs[i])]
    decreases |songs|
  {
    if songs != [] {
      PlaylistKeyboardShape(folder, songs[..|songs| - 1]);
    }
  }

  /** Appending a song appends its line. */
  lemma PlaylistLinesSnoc(folder: Folder, songs: seq<string>, f: string)
    ensures PlaylistLines(folder, songs + [f]) == PlaylistLines(folder, songs) + PlaylistLine(folder, f)
  {
    var s := songs + [f];
    assert s[..|s| - 1] == songs && s[|s| - 1] == f;
  }

  /** Appending a song appends its row. */
  lemma PlaylistKeyboardSnoc(folder: Folder, songs: seq<string>, f: string)
    ensures PlaylistKeyboard(folder, songs + [f]) == PlaylistKeyboard(folder, songs) + [[PlayButton(folder, f)]]
  {
    var s := songs + [f];
    assert s[..|s| - 1] == songs && s[|s| - 1] == f;
  }

  /** The loop of `playlist`: the header and then, song by song, its line
      appended to the text and its button added as a row of its own. */
  method RenderPlaylist(folder: Folder, songs: seq<string>) returns (text: string, kb: Keyboard)
    ensures text == PlaylistHeader + PlaylistLines(folder, songs)
    ensures kb == PlaylistKeyboard(folder, songs)
  {
    kb := [];
    text := PlaylistHeader;
    for i := 0 to |songs|
      invariant text == PlaylistHeader + PlaylistLines(folder, songs[..i])
      invariant kb == PlaylistKeyboard(folder, songs[..i])
    {
      var f := songs[i];
      var line := PlaylistLine(folder, f);
      assert songs[..i + 1] == songs[..i] + [f];
      PlaylistLinesSnoc(folder, songs[..i], f);
      PlaylistKeyboardSnoc(folder, songs[..i], f);
      AppendAssoc(PlaylistHeader, PlaylistLines(folder, songs[..i]), line);
      text := text + line;
      kb := kb + [[PlayButton(folder, f)]];
    }
    assert songs[..|songs|] == songs;
  }

  /** `/playlist`: a missing folder and an empty one are reported; otherwise
      the header with one line per song, and one pick button per song. */
  method Playlist(lib: Library, chatId: int) returns (r: Response)
    ensures IntString(chatId) !in lib ==> r == Reply(NoSongsReply)
    ensures IntString(chatId) in lib && Mp3Files(lib[IntString(chatId)].entries) == [] ==> r == Reply(EmptyPlaylistReply)
    ensures IntString(chatId) in lib && Mp3Files(lib[IntString(chatId)].entries) != [] ==>
      var folder := lib[IntString(chatId)];
      var songs := Mp3Files(folder.entries);
      r == ReplyWithKeyboard(PlaylistHeader + PlaylistLines(folder, songs), PlaylistKeyboard(folder, songs))
  {
    var g := IntString(chatId);
    if g !in lib {
      return Reply(NoSongsReply);
    }
    var folder := lib[g];
    var songs := Mp3Files(folder.entries);
    if songs == [] {
      return Reply(EmptyPlaylistReply);
    }
    var text, kb := RenderPlaylist(folder, songs);
    r := ReplyWithKeyboard(text, kb);
  }

  /** Pressing the i-th playlist button plays the i-th song, sent with the
      same title the playlist showed for it. */
  lemma PickFromPlaylist(lib: Library, chatId: int, i: nat)
    requires IntString(chatId) in lib
    requires i < |Mp3Files(lib[IntString(chatId)].entries)|
    ensures var folder := lib[IntString(chatId)];
      var songs := Mp3Files(folder.entries);
      var b := PlayButton(folder, songs[i]);
      PlaylistKeyboard(folder, songs)[i] == [b]
      && RouteCallback(b.data) == ToPlaySpecific
      && CallbackPlaySpecific(lib, chatId, b.data) == AudioFor(folder, IntString(chatId), songs[i], SelectedCaption)
      && CallbackPlaySpecific(lib, chatId, b.data).title == ListedTitle(folder, songs[i])
  {
    var folder := lib[IntString(chatId)];
    var songs := Mp3Files(folder.entries);
    PlaylistKeyboardShape(folder, songs);
    PlayDataRoundTrip(songs[i]);
  }
}
