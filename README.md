# Squonk Radio bot: decision logic

This project models the decision logic of the Squonk Radio chat-bot (`main.py`). It also proves properties of that logic. Curators bind themselves to a group by sending `GroupID: <id>` in a private chat. They then upload `.mp3` files, which land in that group's folder with a JSON metadata record beside each file. Group members play the songs with `/play`, list them with `/playlist`, pick one from the list, or step through them with the Next and Replay buttons.

The model has seven modules:

- `Text`: the Python string operations the handlers use, for ASCII.
- `GroupIds`: group-id validation.
- `Metadata`: `os.path.splitext`, the tag-reader fallback, and metadata-record defaulting.
- `Catalog`: group folders, the `.mp3` filter, what an upload writes, and song selection.
- `Bindings`: the per-user binding store, a class whose map field is overwritten on each bind.
- `Handlers`: each message and button handler, reduced to the response it sends and the state it writes.
- `Wrappers`: `Option`.

A few modelling choices:

- The filesystem is a `Library` value: a map from folder name to `Folder(entries, sidecars)`.
  - `entries` is the directory listing, in listing order.
  - `sidecars` is the contents of each JSON record, keyed by its file name.
  - A group without a key has no folder.
- An exception that escapes a handler is the response `Unhandled`.
- `random.choice` is a nondeterministic pick: any element may be chosen.

## Model

| member | source | states |
|---|---|---|
| `Text.StartsWith` | main.py:150 | `str.startswith`: the prefix is the string's first characters |
| `Text.EndsWith` | main.py:105 | `str.endswith`: the suffix is the string's last characters |
| `Text.IsSpace` | main.py:71 | the whitespace `strip()` removes, for ASCII only (see "## Left out") |
| `Text.IsDigit` | main.py:72 | a decimal digit, for ASCII only (see "## Left out") |
| `Text.IsDigits` | main.py:72 | `str.isdigit()` for ASCII: non-empty and digits only; see `GroupIds.DashDigits` |
| `Text.RemoveAll` | main.py:71 | `replace(pat, "")`: occurrences removed left to right without overlap; its behaviour is stated by `Text.RemoveAllSkip`, `Text.RemoveAllAbsent` and `Text.RemoveAllFront` |
| `Text.RemoveAllSkip` | main.py:71 | `replace("GroupID:", "")` keeps, unchanged, a prefix that does not contain the marker's first letter |
| `Text.RemoveAllAbsent` | main.py:71 | a string without the marker's first letter is left as it is |
| `Text.RemoveAllFront` | main.py:71 | an occurrence of the marker at the front is removed |
| `Text.TrimLeft` | main.py:71 | the result is a suffix of the input; everything cut off is whitespace; the result does not start with whitespace |
| `Text.TrimRight` | main.py:71 | the result is a prefix of the input; everything cut off is whitespace; the result does not end with whitespace |
| `Text.Strip` | main.py:71 | `strip()`: `lstrip` then `rstrip`; what it returns is stated by `Text.StripSpec` |
| `Text.StripSpec` | main.py:71 | `strip()` returns a contiguous piece of the input, with only whitespace outside it and no whitespace at its ends |
| `Text.TrimLeftSpaces` | main.py:71 | `lstrip()` removes exactly the leading whitespace in front of a string that does not start with whitespace |
| `Text.StripAfterSpaces` | main.py:71 | `strip()` of whitespace followed by a string with no whitespace at its ends gives that string |
| `Text.LStrip` | main.py:72 | `lstrip("-")` removes exactly the leading `-` characters and nothing else |
| `Text.LastIndexOf` | main.py:91 | `rfind`: -1 or the index of the last occurrence, with none after it |
| `Text.AfterFirst` | main.py:153 | `split(":", 1)[1]`: None exactly when there is no colon; otherwise the text after the first colon |
| `Text.AfterFirstPrefix` | main.py:153 | with no colon before the separator, everything after it comes back whole, later colons included |
| `Text.NatString` | main.py:101 | `str(n)` of a natural number is digits only, with no leading zero |
| `Text.IntString` | main.py:101 | `str(n)` is digits, preceded by a single `-` only when `n` is negative |
| `Text.NatStringValue` | main.py:101 | reading the decimal rendering back gives `n` again |
| `GroupIds.Candidate` | main.py:71 | the candidate id: every marker removed, then whitespace stripped; see `GroupIds.CandidateOf` |
| `GroupIds.DashDigits` | main.py:72 | `g.lstrip("-").isdigit()` holds if and only if `g` is a run of `-` followed by at least one digit |
| `GroupIds.ParseGroupId` | main.py:70-75 | an id is accepted if and only if the trimmed, marker-free candidate is well formed; the stored value is that candidate, leading `-` included |
| `GroupIds.CandidateOf` | main.py:71 | the candidate of `GroupID:`, then spaces, then an id is that id |
| `GroupIds.ParseOf` | main.py:71-72 | the decision for such a message depends only on whether the id is well formed |
| `GroupIds.SignedDigitsWellFormed` | main.py:72 | a run of `-` (possibly none) followed by digits has the accepted shape |
| `GroupIds.AcceptsSignedDigits` | main.py:72 | `123`, `-123`, `--5` and every other run of signs followed by digits is accepted |
| `GroupIds.RejectsBlank` | main.py:72 | an empty or all-whitespace id is rejected |
| `GroupIds.RejectsDashesOnly` | main.py:72 | `-`, `--` and other runs of signs with no digit are rejected |
| `GroupIds.RejectsOtherCharacters` | main.py:72 | an id with a letter, inner space or inner sign (`abc`, `12a`) is rejected |
| `GroupIds.EveryChatIdAccepted` | main.py:72 | `GroupID:` followed by `str(chat_id)` is accepted for every chat id and stores exactly `str(chat_id)` |
| `GroupIds.IntStringShape` | main.py:101 | `str(chat_id)` never starts with `--` or with a zero followed by more digits |
| `GroupIds.AcceptsDoubleSign` | main.py:72 | ids such as `--5` are accepted although no chat's `str(chat_id)` equals them |
| `GroupIds.AcceptsLeadingZero` | main.py:72 | ids such as `007` are accepted although no chat's `str(chat_id)` equals them |
| `GroupIds.MarkerRemovedEverywhere` | main.py:71 | the marker is removed wherever it occurs: `GroupID:` x `GroupID:` y is decided as x y is |
| `Metadata.SplitExt` | main.py:91 | `os.path.splitext` for POSIX paths; what it returns is stated by `Metadata.SplitExtSpec` |
| `Metadata.Root` | main.py:110 | `splitext(p)[0]` |
| `Metadata.SplitExtSpec` | main.py:91 | `splitext`: root + extension is the path; a non-empty extension starts with `.` and holds no other `.` or `/`; a dot counts only if a non-dot character comes before it in the last path component |
| `Metadata.RootOfMp3` | main.py:110 | `<id>.mp3` splits into `<id>` and `.mp3` |
| `Metadata.RootWithoutDot` | main.py:91 | a name without a dot has no extension |
| `Metadata.RootOfDotName` | main.py:141 | a name that only starts with dots (`.mp3`) keeps them in its root |
| `Metadata.FallbackTitle` | main.py:91 | an absent or empty file name gives `Unknown`; otherwise the name's root |
| `Metadata.FirstTag` | main.py:50-51 | the first value of a present tag (None if that list is empty); the default if the tag is absent |
| `Metadata.ExtractMetadata` | main.py:47-54 | total: a parse failure or an empty tag list gives `(fallback, "$SQUONK")`; otherwise each field is the first value of its own tag, or that field's default when the tag is absent |
| `Metadata.ExtractMetadataTagged` | main.py:50-51 | with both tags non-empty, their first values are returned |
| `Metadata.ExtractMetadataOnlyTwoTags` | main.py:49-51 | tags other than `title` and `artist` never affect the result |
| `Metadata.TrackMeta` | main.py:110-117 | title = the record's `title` if present, else the file name without extension; artist = the record's `artist` if present, else `$SQUONK` |
| `Metadata.TrackMetaOnlyTwoFields` | main.py:113-117 | record fields other than `title` and `artist` never affect the result |
| `Catalog.SidecarName` | main.py:94 | the record of `f` is the file `f + ".json"`; see `Catalog.SidecarNeverListed` |
| `Catalog.SidecarOf` | main.py:112-115 | the record of `f` is the one stored as `f + ".json"`, if there is one; see `Catalog.SidecarOfListed` |
| `Catalog.Mp3Files` | main.py:105 | the songs are exactly the listing's entries that end in `.mp3` |
| `Catalog.Mp3FilesAppend` | main.py:105 | the filter keeps listing order: it distributes over concatenation |
| `Catalog.Mp3FilesCount` | main.py:105 | each `.mp3` entry is kept as many times as it is listed; every other entry is dropped |
| `Catalog.SidecarNeverListed` | main.py:94 | a metadata record `X.mp3.json` is never taken for a song |
| `Catalog.AddEntry` | main.py:89 | writing a file lists its name; a name already there is not listed again and the listing is unchanged; a new name is placed at the end (the model's order, see "## Left out") |
| `Catalog.AddEntryCounts` | main.py:89 | the written name is listed once if it was new, as often as before otherwise; no other name's count changes |
| `Catalog.AddTrack` | main.py:84-95 | an upload creates the group's folder if needed and leaves every other group's folder untouched |
| `Catalog.AddTrackLists` | main.py:84-95 | after an upload, the file is a song; earlier songs remain songs; no record became a song; the file's record is the one just written |
| `Catalog.AddTrackKeeps` | main.py:84-95 | an upload changes nothing else in its group's folder: every earlier entry is still listed (in front, in the model's order; see "## Left out"), every other record is unchanged, and no name or record other than the file and `file + ".json"` is added |
| `Catalog.AddTrackNewFolder` | main.py:84-95 | an upload to a group without a folder creates the folder holding exactly the file and its record |
| `Catalog.Consistent` | main.py:105-113 | records are exactly the listed `.json` files, since both are read from one directory |
| `Catalog.SidecarOfListed` | main.py:112-113 | in a consistent folder, a record is found exactly when `f + ".json"` is listed, as `os.path.exists` decides |
| `Catalog.AddTrackConsistent` | main.py:84-95 | an upload of an `.mp3` file keeps its group's folder consistent |
| `Catalog.RandomChoice` | main.py:109 | `random.choice` returns a member of the list |
| `Catalog.Select` | main.py:179-182 | no song from an empty list; `next` gives a member of the list; `replay` gives `songs[0]` |
| `Bindings.BindingStore.constructor` | main.py:23 | no user has a record at the start |
| `Bindings.BindingStore.Bind` | main.py:36-38 | the user's record becomes the given id; every other record is unchanged |
| `Bindings.BindingStore.Resolve` | main.py:40-45 | the recorded id, or None when the user has no record |
| `Handlers.GetKeyboard` | main.py:25-31 | one row with Next (`next`) and Replay (`replay`); see `Handlers.KeyboardRoutesToButtons` |
| `Handlers.RouteCallback` | main.py:150-174 | `play:`-prefixed data goes to the pick handler; otherwise `next` and `replay` go to the Next/Replay handler |
| `Handlers.KeyboardRoutesToButtons` | main.py:25-31 | both buttons of the fixed keyboard reach the Next/Replay handler, never the pick handler |
| `Handlers.PlayDataRoundTrip` | main.py:147-153 | `play:` + f routes to the pick handler, and parsing it gives back f even when f contains colons |
| `Handlers.ReceiveGroupId` | main.py:69-75 | an accepted id overwrites the sender's record and is confirmed; a rejected one changes no record; every stored id stays well formed |
| `Handlers.SavedGroupReply` | main.py:75 | the confirmation ``✅ Group ID `<id>` saved. Now send me .mp3 files!``; see `Handlers.ReceiveGroupId` |
| `Handlers.BindThenResolve` | main.py:74-82 | after a rejected id, lookup gives the earlier binding; after an accepted one, it gives exactly the stored candidate |
| `Handlers.TrackPath` | main.py:88 | `os.path.join("songs", group, file)` |
| `Handlers.UploadRecord` | main.py:95 | the record written beside an upload holds its path, title and artist; `Handlers.UploadPlaysBack` shows playback reads the title and artist back |
| `Handlers.SavedTrackReply` | main.py:97 | the upload reply ``✅ Saved `<title>` for group <id>``; see `Handlers.HandleAudio` |
| `Handlers.HandleAudio` | main.py:77-97 | with no non-empty binding, the upload is refused and nothing is written; otherwise `<id>.mp3` and its record go into the bound group's folder |
| `Handlers.UploadPlaysBack` | main.py:94-117 | an uploaded file is a song of its group, and playback shows the title and artist extracted at upload |
| `Handlers.AudioFor` | main.py:110-125 | the audio sent for a song carries its resolved title and artist (`Metadata.TrackMeta`), the caption and the fixed keyboard |
| `Handlers.Play` | main.py:99-125 | a missing or song-less folder is reported; otherwise some song of the folder is sent with its resolved metadata |
| `Handlers.CallbackButtons` | main.py:174-200 | a missing folder raises; an empty folder gives an alert; `next` sends some song; `replay` sends the first song |
| `Handlers.CallbackPlaySpecific` | main.py:150-172 | the file named after the first colon is sent if it exists in the group's folder; otherwise the handler raises |
| `Handlers.ListedTitle` | main.py:140-145 | the title the playlist shows: the record's `title`, else the name without extension (`Metadata.TrackMeta`) |
| `Handlers.PlaylistLine` | main.py:146 | one `• title` line; see `Handlers.PlaylistLinesSnoc` |
| `Handlers.PlayButton` | main.py:147 | `▶️ title` with data `play:` + the file name; see `Handlers.PlaylistKeyboardShape` |
| `Handlers.PlaylistLines` | main.py:137-146 | the text after the header: one `• title` line per song, in order; see `Handlers.PlaylistLinesSnoc` |
| `Handlers.PlaylistKeyboard` | main.py:137-147 | the playlist keyboard has one row per song |
| `Handlers.PlaylistKeyboardShape` | main.py:137-147 | row i is the single button for song i, with data `play:` + its file name |
| `Handlers.PlaylistLinesSnoc` | main.py:146 | each further song appends its own `• title` line |
| `Handlers.PlaylistKeyboardSnoc` | main.py:147 | each further song appends its own button row |
| `Handlers.RenderPlaylist` | main.py:137-147 | the loop builds exactly the header plus one line per song, and exactly one button row per song |
| `Handlers.Playlist` | main.py:127-148 | a missing or empty folder is reported; otherwise the reply is the header, one line per song in order, and one pick button per song |
| `Handlers.PickFromPlaylist` | main.py:147-171 | pressing the i-th playlist button plays the i-th song, with the title the playlist showed for it |

## Left out

- Transport (aiogram's `Bot`, `Dispatcher`, replies, `send_audio`, `call.answer`, polling, async): network I/O and event scheduling. The model returns a `Response` value instead.
- Filesystem and JSON (`os.makedirs`, `os.listdir`, `open`, `json.load`/`dump`, the audio download) are not modelled as I/O. Folder contents and metadata records are plain sequences and maps passed in. Record values are strings.
- Audio files and the listing: an audio file is taken to exist exactly when its name is in the folder listing.
- `Catalog.AddEntry`, `Catalog.AddTrackKeeps`: a newly written file is placed at the end of the listing. That order is the model's choice: `os.listdir` returns entries in an arbitrary filesystem order, so after an upload the real bot may list the songs in any order. In particular `replay`'s "first song" may change after an upload, which the model does not capture. Only membership and counts (`Catalog.AddEntryCounts`, `Catalog.AddTrackLists`) are what the program itself guarantees.
- Records and the listing: `Catalog.SidecarOf` reads only `sidecars` and does not look at the listing. A record is found listed exactly when the folder is `Catalog.Consistent` (records = listed `.json` files; see `Catalog.SidecarOfListed`). Uploads keep a folder consistent (`Catalog.AddTrackConsistent`). The handlers do not require consistency, so for an inconsistent `Folder` value they may use a record that `os.path.exists` would not find.
- Unreadable records: a record that `json.load` cannot parse makes `play`, `playlist` and both callbacks raise (main.py:115, 144, 160, 188). The model has no such record: every record is an already parsed map, so that exception path is not modelled.
- Tag parsing by mutagen is a foreign library. Only its outcome is modelled: None when parsing fails, otherwise a map from tag to a list of values.
- `random.choice`: only membership is modelled, not uniformity.
- Logging, `.env` and bot-token loading.
- The `/start` and `/setup` handlers: they send fixed replies and take no decisions beyond the private-chat check in `/setup`.
- The dispatcher's text filter in front of `receive_group_id` (the text must start with `GroupID:`) is not modelled. `ReceiveGroupId` is stated for any text, so it also covers the texts that pass the filter.
- Path joining is modelled only as `songs/<group>/<file>`. A file name in callback data that holds `/` is treated as a plain listing name.
- Radio mode, now-playing message handles and Idle/Radio session transitions: these do not exist in `main.py`.
- `Text.IsSpace` and `Text.IsDigit`: Python's `str.strip()` and `str.isdigit()` also accept non-ASCII whitespace and digits. The model accepts only the ASCII ones (tab through carriage return, 0x1C-0x1F, space; `0`-`9`).
- `Bindings.BindingStore.constructor`: the store starts empty. It does not model records that survive a restart on disk.
