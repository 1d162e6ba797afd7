# bgm_web lyric and player logic, modelled in Dafny

bgm_web is an Electron/React music client. This project models the parts of
its renderer that make decisions, and proves what they promise:

- **`parseSRT`** (`Utils.ts`): a line scanner over `split(/\r?\n/)` that reads
  numbered SRT blocks into `{time, text}` lyric lines and recovers from
  malformed blocks by skipping lines. Next to it are the dotted-path lookup
  `getNestedValue` and the value-or-key fallback of `parseStrToLocale`.
- **The older lyrics player** (`ProfilePopup.tsx`):
  - each word is classified as passed, future or current, with a guarded wipe
    progress;
  - each line gets a status (active, past, upcoming);
  - the two `React.memo` comparators;
  - the song-change transition;
  - the active-line search effect.
- **The adlib-aware lyrics player** (`LyricsPlayer.tsx`): `clamp`, the
  unguarded word progress, the line window (an adlib ends at its last word or
  two seconds after it starts, a main line at `nextMainLineTime`), and the
  index the view scrolls to (a main line only).
- **The player card** (`MusicPlayer.tsx`): `formatTime`'s `m:ss` text, the
  `trackInfo` defaults, and the search bar's submit gate.
- **The playlist panel** (`PlaylistsUi.tsx`):
  - the command strings it sends over the socket;
  - the trim and current-track gates on them;
  - the selection toggle with its details request;
  - the search overlay;
  - the "playing" mark on a row.

Modules, one per file:

- **Wrappers**: `Option`.
- **Text**: JavaScript's `trim`, `indexOf`, `lastIndexOf`, `split`, `join` and
  `split(/\r?\n/)`.
- **Digits**: digit strings, `parseInt` and `toString` of integers, `padStart`.
- **Lyrics**: `WordTiming`, `LyricLine`, `song_id` and the line window
  `[time[i], time[i+1])`.
- **Srt**: `parseSRT`.
- **SrtRender**: the SRT text of a list of blocks, and the proof that parsing
  it gives the blocks back.
- **Locale**: `getNestedValue` and `parseStrToLocale`.
- **PopupPlayer**: `ProfilePopup.tsx`.
- **LyricsPlayer**: `LyricsPlayer.tsx`.
- **MusicPlayer**: `MusicPlayer.tsx`.
- **Playlists**: `PlaylistsUi.tsx`.

How the JavaScript is represented:

- Times are `real`.
- `undefined`, and JavaScript's `Infinity` as an upper edge, are `None`.
- `%` on integers is JavaScript's truncating remainder (`MusicPlayer.JsRem`).
- The one division that can reach `0 / 0` (the new player's word progress) is
  modelled over `Num`, a number that can also be `±Infinity` or `NaN`.
- React state updates are pure functions from the old state to the new state.
- Calls to `sendMessage` and `onGetPlaylistDetails` become returned `Effect`
  values.
- The two `setTimeout` callbacks of the song transition are separate events.

Where the code's own comments or the older player promise one thing and the
code does another, the model follows the code and records the gap under
"## Findings":

- **Main-line windows.** The comments at `LyricsPlayer.tsx:53` and `:57` say a
  main line lasts until the next main line starts. `Line` ends it at
  `nextMainLineTime`, but the list at `LyricsPlayer.tsx:111-113` never passes
  that value, so a started main line never ends (finding 2).
- **Zero-duration words.** `ProfilePopup.tsx:67-68` guards the wipe of a word
  without positive duration. `LyricsPlayer.tsx:28-29` divides by the duration
  unguarded, which gives `NaN` at the word's instant (finding 1).
- **Memo comparators.** The comparators of `ProfilePopup.tsx` never compare the
  word or the line they are handed, so a re-keyed instance can keep drawing an
  earlier song's text (findings 3 and 4).

## Model

| member | source | states |
|---|---|---|
| Text.Trim | renderer/pages/utils/Utils.ts:24 | `trim()` is empty exactly for an all-whitespace string, otherwise starts and ends with non-whitespace |
| Text.TrimIsInfix | renderer/pages/utils/Utils.ts:60 | the trimmed text is a slice of the input with only whitespace cut on either side |
| Text.TrimIdempotent | renderer/pages/components/MusicPlayer/MusicPlayer.tsx:232-233 | trimming twice equals trimming once |
| Text.IndexOfSpec | renderer/pages/utils/Utils.ts:39 | `indexOf` is -1 iff the pattern occurs nowhere, otherwise it is the first occurrence |
| Text.SplitLinesJoin | renderer/pages/utils/Utils.ts:18 | `split(/\r?\n/)` of lines joined with `\n` gives the lines back when they hold no `\r` or `\n` |
| Text.JoinSplit | renderer/pages/utils/Utils.ts:67 | joining the pieces of a split with the separator rebuilds the string |
| Text.SplitJoin | renderer/pages/utils/Utils.ts:67 | splitting a join of separator-free pieces gives the pieces back |
| Digits.IntToString | renderer/pages/components/MusicPlayer/MusicPlayer.tsx:60 | the decimal text of an integer reads back as that integer and starts with `-` iff it is negative |
| Digits.PadStart | renderer/pages/components/MusicPlayer/MusicPlayer.tsx:60 | `padStart` keeps the string as a suffix, fills only in front, and reaches the width |
| Srt.FindTimestampSpec | renderer/pages/utils/Utils.ts:45 | the match found is the leftmost place where `(\d+):(\d+):(\d+),(\d+)` matches; none is found iff it matches nowhere |
| Srt.MatchAtSound | renderer/pages/utils/Utils.ts:45 | the captured groups are four numerals separated by `:`, `:`, `,` at that position, the last not followed by a digit |
| Srt.MatchAtComplete | renderer/pages/utils/Utils.ts:45 | any stamp the pattern describes at a position is the one captured there |
| Srt.StepAt | renderer/pages/utils/Utils.ts:22-70 | each pass of the loop moves the cursor strictly forward |
| Srt.StepEmitsIff | renderer/pages/utils/Utils.ts:31-49 | a pass emits a line iff the line is an index line, the next line holds `-->` and a start time, and a non-blank line follows |
| Srt.StepEmitShape | renderer/pages/utils/Utils.ts:51-69 | an emitted line has time `H*3600 + M*60 + S + ms/1000` from the first match on the time line, and the trimmed text run joined with `\n`; the cursor lands after the run |
| Srt.StepSkipsNonIndex | renderer/pages/utils/Utils.ts:24-34 | a blank or non-index line moves the cursor by one and emits nothing |
| Srt.StepSkipsBadTimeLine | renderer/pages/utils/Utils.ts:38-42 | an index line with no following line holding `-->` moves the cursor by two |
| Srt.StepSkipQuirk | renderer/pages/utils/Utils.ts:43-48 | a time line with `-->` but no timestamp moves the cursor by three, past the line after it |
| Srt.StepSkipsEmptyText | renderer/pages/utils/Utils.ts:58-64 | a valid time line with no text after it emits nothing and moves the cursor by two |
| Srt.ReadTextLines | renderer/pages/utils/Utils.ts:58-62 | the inner loop stops at the first blank line or the end, and collects the trimmed lines before it |
| Srt.LoopBody | renderer/pages/utils/Utils.ts:24-69 | the loop body as a method computes exactly one step |
| Srt.ScanLines | renderer/pages/utils/Utils.ts:19-72 | the loop computes the scan of the whole line list |
| Srt.ParseSrt | renderer/pages/utils/Utils.ts:15-73 | absent or empty text gives `[]`; no more lines come out than index lines go in; every line is well formed |
| Srt.CountBound | renderer/pages/utils/Utils.ts:31-35 | the scan emits at most one line per index line |
| Srt.CuesWellFormed | renderer/pages/utils/Utils.ts:58-68 | every emitted text splits at `\n` into non-empty, trimmed lines, and carries no words and no adlib flag |
| Srt.CueTextClean | renderer/pages/utils/Utils.ts:60-67 | trimmed non-blank lines joined with `\n` split back into non-empty trimmed lines |
| Srt.ScanSame | renderer/pages/utils/Utils.ts:22-70 | what the scanner emits from a cursor depends only on the lines from there on |
| Srt.QuirkSkipsLine | renderer/pages/utils/Utils.ts:43-48 | after a time line without a timestamp the scan resumes three lines on |
| Srt.MalformedTimeLineSwallowsNextBlock | renderer/pages/utils/Utils.ts:43-48 | `1`, `-->`, then a complete block yields nothing, though the complete block alone yields a line |
| Srt.BlockEmits | renderer/pages/utils/Utils.ts:31-69 | a well-shaped block at the start always produces output |
| SrtRender.ParseRenderedSrt | renderer/pages/utils/Utils.ts:15-73 | parsing the SRT text of well-formed blocks gives one line per block: its start time and its text lines joined |
| SrtRender.ScanRender | renderer/pages/utils/Utils.ts:22-70 | scanning the rendered lines of the blocks gives their cues in order |
| SrtRender.TimeLineMatches | renderer/pages/utils/Utils.ts:38-49 | a rendered time line passes the `-->` test and its timestamp match is the start stamp at 0; the end stamp is ignored |
| SrtRender.CuesSorted | renderer/pages/utils/Utils.ts:64-72 | blocks in start-time order give lyric lines in time order; nothing is sorted |
| SrtRender.CuesTimes | renderer/pages/utils/Utils.ts:51-55 | the k-th line's time is the k-th block's start in seconds |
| Locale.Property | renderer/pages/utils/Utils.ts:78 | `acc[part]` is defined on an object iff the key is present; numbers, booleans and null have no own keys |
| Locale.WalkAbsent | renderer/pages/utils/Utils.ts:78 | once a step gives `undefined`, every later step does too |
| Locale.MissingStep | renderer/pages/utils/Utils.ts:77-79 | a missing step anywhere along the path makes the whole lookup absent |
| Locale.WalkAppend | renderer/pages/utils/Utils.ts:78 | the reduce over a concatenated path is the reduce over the second part from the result of the first |
| Locale.PlainKey | renderer/pages/utils/Utils.ts:77-79 | a key without dots is a single property lookup |
| Locale.DottedKey | renderer/pages/utils/Utils.ts:77-79 | `a.b` is `b` looked up in the value of `a` |
| Locale.NestedFields | renderer/pages/utils/Utils.ts:77-79 | `a.b` in `{a: {b: v}}` is `v` |
| Locale.Localize | renderer/pages/utils/Utils.ts:101-104 | a truthy value is returned as is; otherwise the key is; the result is the key iff the value is falsy or is the key itself |
| Lyrics.WindowsDisjoint | renderer/pages/components/ProfilePopup/ProfilePopup.tsx:268-270 | in time-sorted lyrics no instant lies in two line windows |
| PopupPlayer.PhaseExclusive | renderer/pages/components/ProfilePopup/ProfilePopup.tsx:40-42 | for a word with start <= end, it is passed, future or current, and never passed and future at once |
| PopupPlayer.InvertedWordBoth | renderer/pages/components/ProfilePopup/ProfilePopup.tsx:40-42 | a word ending before it starts is both passed and future between its ends, and so never current |
| PopupPlayer.WipeProgress | renderer/pages/components/ProfilePopup/ProfilePopup.tsx:67-68 | the wipe lies in [0, 100] and is 0 for a word of no positive duration |
| PopupPlayer.WipeMonotone | renderer/pages/components/ProfilePopup/ProfilePopup.tsx:67-68 | the wipe never shrinks as time advances |
| PopupPlayer.WipeEnds | renderer/pages/components/ProfilePopup/ProfilePopup.tsx:67-68 | for positive duration the wipe is 0 at or before the start and 100 at or after the end |
| PopupPlayer.ViewWord | renderer/pages/components/ProfilePopup/ProfilePopup.tsx:48-68 | the word is drawn with its own text; an inactive line shows it dim; otherwise it is lit iff passed, wiped iff current (by exactly the wipe width), dim iff future |
| PopupPlayer.WordMemoSound | renderer/pages/components/ProfilePopup/ProfilePopup.tsx:98-114 | for an unchanged word, when the word comparator skips a re-render, the word would look the same |
| PopupPlayer.StaleWordKept | renderer/pages/components/ProfilePopup/ProfilePopup.tsx:98-114 | the comparator skips the re-render of an inactive word handed a different word, which keeps showing the old text |
| PopupPlayer.FixedWordMemoSound | renderer/pages/components/ProfilePopup/ProfilePopup.tsx:98-114 | with the word itself also compared, every skipped re-render would have drawn the same view |
| PopupPlayer.Status | renderer/pages/components/ProfilePopup/ProfilePopup.tsx:135-137 | a line is active, past or upcoming exactly as its index equals, is below or is above the active index |
| PopupPlayer.StatusOrdered | renderer/pages/components/ProfilePopup/ProfilePopup.tsx:135-137 | along the list statuses go past, active, upcoming, with at most one active line |
| PopupPlayer.ViewLine | renderer/pages/components/ProfilePopup/ProfilePopup.tsx:153-201 | a line is drawn word by word iff it has words; every word of an inactive line is dim |
| PopupPlayer.StatusChangeRerenders | renderer/pages/components/ProfilePopup/ProfilePopup.tsx:209-216 | the line comparator always re-renders when the line's status changes |
| PopupPlayer.LineMemoSound | renderer/pages/components/ProfilePopup/ProfilePopup.tsx:209-227 | for an unchanged line at the same position, when the line comparator skips a re-render, the line would look the same |
| PopupPlayer.StaleLineAfterSwap | renderer/pages/components/ProfilePopup/ProfilePopup.tsx:204-227 | an upcoming line that stays upcoming when the index drops to -1 is not re-rendered, though it was handed another line's text |
| PopupPlayer.FixedLineMemoSound | renderer/pages/components/ProfilePopup/ProfilePopup.tsx:204-227 | with the line and its position also compared, every skipped re-render would have drawn the same view |
| PopupPlayer.UndefinedIndexShowsFirstLine | renderer/pages/components/ProfilePopup/ProfilePopup.tsx:311 | with no active index from the parent, line 0 is drawn as active |
| PopupPlayer.FindActiveSpec | renderer/pages/components/ProfilePopup/ProfilePopup.tsx:266-274 | the search gives -1 iff no line's window holds t, otherwise the first line whose window does |
| PopupPlayer.SortedFindsLastStarted | renderer/pages/components/ProfilePopup/ProfilePopup.tsx:266-274 | for sorted lines: -1 iff there are none or t is before the first; otherwise a started line after which every line starts later than t |
| PopupPlayer.FindActiveMonotone | renderer/pages/components/ProfilePopup/ProfilePopup.tsx:266-274 | for sorted lines the found index never decreases as time advances |
| PopupPlayer.SearchActive | renderer/pages/components/ProfilePopup/ProfilePopup.tsx:266-274 | the loop with its `break` computes the search |
| PopupPlayer.ActiveLineWrite | renderer/pages/components/ProfilePopup/ProfilePopup.tsx:262-279 | nothing is written for empty lyrics or during a transition; a write carries the search result and only when it differs from the current index |
| PopupPlayer.WriteSettles | renderer/pages/components/ProfilePopup/ProfilePopup.tsx:276-278 | after at most one write the index equals the search result and the effect writes nothing more |
| PopupPlayer.OnLyricsProps | renderer/pages/components/ProfilePopup/ProfilePopup.tsx:248-260 | a new song id after a defined one starts the transition and queues the lyrics; otherwise they are shown at once; the id is remembered |
| PopupPlayer.Swap | renderer/pages/components/ProfilePopup/ProfilePopup.tsx:251-253 | the first timer shows the queued lyrics and resets the index to -1; the transition flag and the song id are kept |
| PopupPlayer.EndTransition | renderer/pages/components/ProfilePopup/ProfilePopup.tsx:254 | the second timer ends the transition and counts one pending timer done; the display, the index, the queued lyrics and the song id are kept |
| PopupPlayer.SongChangeSequence | renderer/pages/components/ProfilePopup/ProfilePopup.tsx:248-260 | a song change, then both timers, end with the new lyrics, index -1 and no transition |
| PopupPlayer.NoSearchWhileTransitioning | renderer/pages/components/ProfilePopup/ProfilePopup.tsx:248-263 | from the render after a song change on, while the fade is on, the active-line effect writes nothing |
| PopupPlayer.SongChangeCommitSearchesOldLyrics | renderer/pages/components/ProfilePopup/ProfilePopup.tsx:248-279 | in the commit that carries the new song id the fade has only been requested, and the effect writes the old lyrics' active line whenever it differs from the index |
| PopupPlayer.SongChangeCommitWritesOldIndex | renderer/pages/components/ProfilePopup/ProfilePopup.tsx:262-279 | old lines at 0 s and 2 s with no index: at 0.5 s that commit writes 0 |
| LyricsPlayer.Clamp | renderer/pages/components/LyricsPlayer/LyricsPlayer.tsx:25 | within [lo, hi] when lo <= hi; the value itself when in range; lo below, hi above |
| LyricsPlayer.Divide | renderer/pages/components/LyricsPlayer/LyricsPlayer.tsx:29 | division by a non-zero number is the quotient; the result is NaN iff it is 0 / 0 |
| LyricsPlayer.WordProgressAsWritten | renderer/pages/components/LyricsPlayer/LyricsPlayer.tsx:28-29 | the progress is a number in [0, 100] or NaN, and NaN iff the word has no duration and t is its start |
| LyricsPlayer.ZeroDurationIsNaN | renderer/pages/components/LyricsPlayer/LyricsPlayer.tsx:28-29 | a zero-length word at its start time gets progress NaN |
| LyricsPlayer.WordProgress | renderer/pages/components/LyricsPlayer/LyricsPlayer.tsx:28-29 | the corrected progress lies in [0, 100]; a word of no positive duration is 0 until it has passed and 100 afterwards |
| LyricsPlayer.WordProgressMatchesOlderView | renderer/pages/components/ProfilePopup/ProfilePopup.tsx:48-68 | on every word at every time the corrected progress is what the older player shows on an active line: 0 when dim, 100 when lit, the wipe width when current |
| LyricsPlayer.ZeroDurationAgrees | renderer/pages/components/LyricsPlayer/LyricsPlayer.tsx:28-29 | for a zero-length word at any time but its instant the code as written gives the corrected progress |
| LyricsPlayer.WordProgressAgrees | renderer/pages/components/LyricsPlayer/LyricsPlayer.tsx:28-29 | for end > start the code as written, the guarded progress and the older player's wipe agree, 0 at or before start and 100 at or after end |
| LyricsPlayer.LineEnd | renderer/pages/components/LyricsPlayer/LyricsPlayer.tsx:55-57 | an adlib always has an end; a main line ends where the caller says, if anywhere |
| LyricsPlayer.ActiveWindow | renderer/pages/components/LyricsPlayer/LyricsPlayer.tsx:55-60 | active implies started; an adlib is active from its time to its last word's end, or for two seconds without words; a main line with no next time is active iff started |
| LyricsPlayer.StartedMainLineStaysActive | renderer/pages/components/LyricsPlayer/LyricsPlayer.tsx:111-113 | as the list renders it, a main line is active iff it has started |
| LyricsPlayer.TwoMainLinesActive | renderer/pages/components/LyricsPlayer/LyricsPlayer.tsx:111-113 | main lines at 0 s and 1 s are both active at 1.5 s |
| LyricsPlayer.NextMainFromSpec | renderer/pages/components/LyricsPlayer/LyricsPlayer.tsx:53-57 | the next main line is the first non-adlib line after the given position; only adlibs come before it |
| LyricsPlayer.AtMostOneMainLineActive | renderer/pages/components/LyricsPlayer/LyricsPlayer.tsx:53-59 | with `nextMainLineTime` passed, no two main lines of sorted lyrics are active at once |
| LyricsPlayer.CorrectedWithoutAdlibs | renderer/pages/components/LyricsPlayer/LyricsPlayer.tsx:53-59 | without adlibs the corrected window is active exactly for the line the older player's search picks |
| LyricsPlayer.MainIndexSpec | renderer/pages/components/LyricsPlayer/LyricsPlayer.tsx:99 | the scroll index is -1 iff no main line's window holds t, otherwise the first main line whose window holds t; never an adlib |
| LyricsPlayer.MainIndexSorted | renderer/pages/components/LyricsPlayer/LyricsPlayer.tsx:99-100 | for sorted lyrics the scroll index is the older player's active line when that is a main line, else -1 (no scrolling) |
| LyricsPlayer.MainIndexWithoutAdlibs | renderer/pages/components/LyricsPlayer/LyricsPlayer.tsx:99 | without adlibs the scroll search and the older active-line search agree |
| MusicPlayer.JsRem | renderer/pages/components/MusicPlayer/MusicPlayer.tsx:59 | `%` gives the remainder of truncating division: below the divisor in size and of the dividend's sign |
| MusicPlayer.FormatTimeReads | renderer/pages/components/MusicPlayer/MusicPlayer.tsx:56-61 | for every input the text reads back as the floored minutes and the remainder, around the first colon |
| MusicPlayer.FormatTimeRoundTrip | renderer/pages/components/MusicPlayer/MusicPlayer.tsx:56-61 | for s >= 0 the text ends in `:` and two digits; minutes >= 0, seconds in [0, 59], and minutes*60 + seconds is floor(s) |
| MusicPlayer.FormatTimeInjective | renderer/pages/components/MusicPlayer/MusicPlayer.tsx:56-61 | non-negative times with different whole seconds give different texts |
| MusicPlayer.NegativeTimeShape | renderer/pages/components/MusicPlayer/MusicPlayer.tsx:57-60 | -5 seconds shows as `-1:-5`: the padding does not apply and the remainder keeps its sign |
| MusicPlayer.TrackOf | renderer/pages/components/MusicPlayer/MusicPlayer.tsx:46-54 | with no track every field takes its default; each of the seven fields is kept when given and takes its default when missing |
| MusicPlayer.TrackOfComplete | renderer/pages/components/MusicPlayer/MusicPlayer.tsx:46-54 | an object with every key present, `lyrics` included, comes through unchanged |
| MusicPlayer.NoTrackShowsZero | renderer/pages/components/MusicPlayer/MusicPlayer.tsx:46-61 | with no track the length label reads `0:00` |
| MusicPlayer.HandleSubmit | renderer/pages/components/MusicPlayer/MusicPlayer.tsx:230-236 | nothing is searched iff the query is all whitespace, and then the query is kept; otherwise the trimmed, non-empty query is searched and the input cleared |
| MusicPlayer.SubmitTwice | renderer/pages/components/MusicPlayer/MusicPlayer.tsx:232-234 | submitting right after a search sends nothing |
| Playlists.DecodeEncode | renderer/pages/components/Playlists/PlaylistsUi.tsx:127-160 | every command string reads back as the command that built it, even with `|` inside a playlist name |
| Playlists.EncodeInjective | renderer/pages/components/Playlists/PlaylistsUi.tsx:127-160 | no two commands share a string |
| Playlists.HandleCreatePlaylist | renderer/pages/components/Playlists/PlaylistsUi.tsx:127-132 | an all-whitespace name sends nothing and keeps the input; otherwise it sends `CreatePlaylist` with the trimmed name and clears the input |
| Playlists.CreatedNameClean | renderer/pages/components/Playlists/PlaylistsUi.tsx:128-129 | a created name is non-empty and already trimmed |
| Playlists.HandleAddTrackToPlaylist | renderer/pages/components/Playlists/PlaylistsUi.tsx:134-142 | the menu closes in every case; a message is sent iff there is a current track with a numeric id, and it names that playlist and id |
| Playlists.HandleRemoveTrack | renderer/pages/components/Playlists/PlaylistsUi.tsx:144-152 | removal is sent iff the id is a number, and names that playlist and id |
| Playlists.HandlePlayPlaylist | renderer/pages/components/Playlists/PlaylistsUi.tsx:154-156 | sends `PlayPlaylist` for that name |
| Playlists.HandleDeletePlaylist | renderer/pages/components/Playlists/PlaylistsUi.tsx:158-160 | sends `DeletePlaylist` for that name |
| Playlists.HandleSelectPlaylist | renderer/pages/components/Playlists/PlaylistsUi.tsx:162-172 | re-selecting clears the selection and requests nothing; another name becomes selected, and details are requested iff its playlist is missing or empty |
| Playlists.SelectTwiceClears | renderer/pages/components/Playlists/PlaylistsUi.tsx:162-172 | selecting a name twice leaves nothing selected and requests nothing the second time |
| Playlists.SelectSearchResult | renderer/pages/components/Playlists/PlaylistsUi.tsx:363-366 | picking a search result only closes the overlay |
| Playlists.HandleSearch | renderer/pages/components/Playlists/PlaylistsUi.tsx:26-36 | an all-whitespace query sends nothing; otherwise `Search` with the untrimmed query is sent and the results are emptied and loading is off |
| Playlists.SearchEndsWithNoResults | renderer/pages/components/Playlists/PlaylistsUi.tsx:26-73 | after any real search the overlay shows "No results found." |
| Playlists.AtMostOnePlayingRow | renderer/pages/components/Playlists/PlaylistsUi.tsx:377 | with distinct ids at most one row is marked playing, and none when no track is current |

## Left out

- TTML parsing, span merging, adlib detection and the playback clock are not
  part of this model. The lyric model and the players' time input stand in for them.
- Locale I/O: `getLocaleFromRegistry`, `loadLocaleData` and `fetch` are I/O.
  Locale data is a parameter of `Locale.Localize`.
- Other I/O and platform code is not modelled: Electron IPC, the settings page,
  the title bar and the WebSocket client in `home.tsx`. They hold no decisions
  beyond success checks.
- Rendering is not modelled: CSS classes, animations, and the DOM arithmetic of
  the scroll position.
- The progress-bar width in `MusicPlayer.tsx:97` is not modelled.
- Of `React.memo`, only the two comparators of `ProfilePopup.tsx` are modelled.
  The component machinery is not.
- The timer delays (300 ms and 250 ms) are not modelled. Their callbacks are the
  events `PopupPlayer.Swap` and `PopupPlayer.EndTransition`, and any
  interleaving of props and events can be applied.
- `console.log` and `console.error` calls are not modelled.
- Floating point: times are exact reals, and lyric-file integers are unbounded.
  Rounding, `parseInt` precision and a `NaN` playback time are not modelled.
- `song_id` is either an integer or a string. A non-integer number id is not
  modelled.
- Locale.Property: members a JavaScript value inherits (`toString`,
  `constructor`, `String.prototype` methods) are treated as undefined, because
  locale files are plain data and inherited members are functions, never strings.
- PopupPlayer.NoSearchWhileTransitioning: holds from the render after the song
  change on. The commit that carries the change still runs the active-line
  effect with the fade off and the old lyrics, and may write their active line
  (`PopupPlayer.SongChangeCommitSearchesOldLyrics`).
- Playlists.SearchEndsWithNoResults: the overlay's state lives only until the
  panel re-renders. `SearchOverlay` is declared inside `PlaylistsUi`
  (`PlaylistsUi.tsx:21`), so each render of the panel remounts it with an empty
  query. It is also rendered once per playlist, and the copies open together.
  Neither is modelled.
- `Playlists.Decode` also reads ids with leading zeros (`x|007`). The handlers'
  contracts state the exact canonical payload (`Playlists.Sends`), so this
  leniency matters only to a reader of the messages.
- Playlist names are map keys. JavaScript's inherited object keys (`playlists["constructor"]`) are not modelled.
- The backend's command reader is not part of this model. `Playlists.Decode`
  is the inverse any such reader has to compute, and the round trip is proved
  against it.
- Scrolling on `PopupPlayer.ActiveLineWrite` and `LyricsPlayer.MainIndex` is
  not modelled. They stop at the index: the scroll does nothing for -1 or a
  missing element.
- SrtRender.CuesSorted: the ordering property is stated for the SRT text of
  well-formed blocks, not for arbitrary text. For arbitrary text,
  `Srt.ScanSame` and the step lemmas give document order step by step.
- MusicPlayer.FormatTimeRoundTrip: stated for `seconds >= 0`, the range the
  player shows. `MusicPlayer.FormatTimeReads` covers every input, and
  `MusicPlayer.NegativeTimeShape` shows the negative case.
- LyricsPlayer.WordProgressAgrees: requires `end > start`, because as written
  the code divides by zero otherwise (finding 1). `LyricsPlayer.ZeroDurationAgrees`
  covers a zero-length word away from its instant. For a word that ends before
  it starts the code as written and the corrected progress differ.
- LyricsPlayer.WordProgress: no longer promises 0 for a zero-length word after
  its end. It is 100 there, as the older player lights a passed word.
- PopupPlayer.WordMemoSound: requires an unchanged word, which the comparator
  does not check (finding 4). `PopupPlayer.FixedWordMemoSound` has no such
  requirement.
- PopupPlayer.LineMemoSound: requires an unchanged line and position, which the
  comparator does not check (finding 3). `PopupPlayer.FixedLineMemoSound` has
  no such requirement.

## Findings

| source | as written | input that shows it | evidently intended | confidence | as-written member | corrected member |
|---|---|---|---|---|---|---|
| renderer/pages/components/LyricsPlayer/LyricsPlayer.tsx:28-29 | progress is `clamp((t - start) / (end - start), 0, 1) * 100` with no guard for a zero-length word | a word with `start == end == 5`, at `t == 5`: `0 / 0` is `NaN`, and `Math.max`/`Math.min` pass `NaN` through to the clip path | no `NaN`: the word is 0 before it has passed and 100 afterwards, the same as the older player draws it (`ProfilePopup.tsx:48-68`) | not executed; high (`NaN` propagation through `Math.min`/`Math.max` is standard) | LyricsPlayer.ZeroDurationIsNaN | LyricsPlayer.WordProgressMatchesOlderView |
| renderer/pages/components/LyricsPlayer/LyricsPlayer.tsx:111-113 | `Line` ends a main line at `nextMainLineTime ?? Infinity`, but the list renders `Line` without `nextMainLineTime` | main lines at 0 s and 1 s: at 1.5 s both are active, and every started main line stays lit to the end of the song | a main line stays active until the next main line starts, as the comment at line 53 says | not executed; medium (the intent is read from the comment) | LyricsPlayer.TwoMainLinesActive | LyricsPlayer.AtMostOneMainLineActive |
| renderer/pages/components/ProfilePopup/ProfilePopup.tsx:204-227 | the `Line` comparator compares the active index, status, `slideDuration` and, for the active line, the time, but never `line` | a song change: lines are keyed `${song_id}-${i}` (line 308), so the lines of the new song reach the instances that drew the old one; line 7, upcoming at index 5 and again at index -1, keeps the old text | a line re-renders whenever it is handed a different line | not executed; medium (depends on the index left before the 300 ms timer fires) | PopupPlayer.StaleLineAfterSwap | PopupPlayer.FixedLineMemoSound |
| renderer/pages/components/ProfilePopup/ProfilePopup.tsx:98-114 | the `Word` comparator returns true for two inactive props without comparing `word` | an inactive word slot (key at line 173) handed the word "new" after "old" keeps drawing "old" | a word re-renders whenever it is handed a different word | not executed; low (needs its line to re-render while the word stays inactive) | PopupPlayer.StaleWordKept | PopupPlayer.FixedWordMemoSound |
