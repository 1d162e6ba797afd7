/**
 * The playlist panel (`PlaylistsUi.tsx`): the command strings it sends to the
 * backend, the gates in front of each, the selected-playlist toggle with its
 * details request, the search overlay, and which track row is marked as playing.
 */
module Playlists {
  import opened Wrappers
  import opened Text
  import opened Digits
  import opened Lyrics

  // ---------------------------------------------------------------------------
  // Commands on the wire
  // ---------------------------------------------------------------------------

  /** The requests the panel sends through `sendMessage`. */
  datatype Command =
    | CreatePlaylist(name: string)
    | AddSongToPlaylist(playlist: string, songId: int)
    | RemoveSongFromPlaylist(playlist: string, songId: int)
    | PlayPlaylist(name: string)
    | DeletePlaylist(name: string)
    | Search(query: string)

  const CreatePrefix := "CreatePlaylist: "
  const AddPrefix := "AddSongToPlaylist: "
  const RemovePrefix := "RemoveSongFromPlaylist: "
  const PlayPrefix := "PlayPlaylist: "
  const DeletePrefix := "DeletePlaylist: "
  const SearchPrefix := "Search: "

  /** The template literal each handler builds. */
  function Encode(c: Command): string {
    match c
    case CreatePlaylist(name) => CreatePrefix + name
    case AddSongToPlaylist(pl, id) => AddPrefix + pl + "|" + IntToString(id)
    case RemoveSongFromPlaylist(pl, id) => RemovePrefix + pl + "|" + IntToString(id)
    case PlayPlaylist(name) => PlayPrefix + name
    case DeletePlaylist(name) => DeletePrefix + name
    case Search(q) => SearchPrefix + q
  }

  predicate StartsWith(s: string, p: string) {
    |p| <= |s| && s[..|p|] == p
  }

  /** `playlist|id`, split at the last bar so that a bar inside the playlist name does no harm. */
  function ReadPair(rest: string): Option<(string, int)> {
    match LastIndexOf(rest, '|')
    case None => None
    case Some(k) =>
      match ReadInt(rest[k + 1..])
      case None => None
      case Some(n) => Some((rest[..k], n))
  }

  /** A reader for the payloads: the inverse the backend has to implement. */
  function Decode(s: string): Option<Command> {
    if StartsWith(s, CreatePrefix) then Some(CreatePlaylist(s[|CreatePrefix|..]))
    else if StartsWith(s, AddPrefix) then
      match ReadPair(s[|AddPrefix|..])
      case None => None
      case Some(p) => Some(AddSongToPlaylist(p.0, p.1))
    else if StartsWith(s, RemovePrefix) then
      match ReadPair(s[|RemovePrefix|..])
      case None => None
      case Some(p) => Some(RemoveSongFromPlaylist(p.0, p.1))
    else if StartsWith(s, PlayPrefix) then Some(PlayPlaylist(s[|PlayPrefix|..]))
    else if StartsWith(s, DeletePrefix) then Some(DeletePlaylist(s[|DeletePrefix|..]))
    else if StartsWith(s, SearchPrefix) then Some(Search(s[|SearchPrefix|..]))
    else None
  }

  lemma AfterPrefix(p: string, rest: string)
    ensures StartsWith(p + rest, p) && (p + rest)[|p|..] == rest
  {
    assert (p + rest)[..|p|] == p;
  }

  /** Prefixes that differ in their first character never both start one string. */
  lemma OtherPrefix(p: string, q: string, rest: string)
    requires |p| > 0 && |q| > 0 && p[0] != q[0]
    ensures !StartsWith(q + rest, p)
  {
    assert (q + rest)[0] == q[0];
  }

  /** The id after the last bar reads back, whatever the playlist name holds. */
  lemma ReadPairOf(pl: string, n: int)
    ensures ReadPair(pl + "|" + IntToString(n)) == Some((pl, n))
  {
    var id := IntToString(n);
    var s := pl + "|" + id;
    IntToStringChars(n);
    assert s[|pl|] == '|';
    assert forall i :: |pl| < i < |s| ==> s[i] == id[i - |pl| - 1];
    var k := LastIndexOf(s, '|');
    assert k == Some(|pl|);
    assert s[..|pl|] == pl;
    assert s[|pl| + 1..] == id;
  }

  /** Every command the panel can send reads back as itself. */
  lemma DecodeEncode(c: Command)
    ensures Decode(Encode(c)) == Some(c)
  {
    match c
    case CreatePlaylist(name) => DecodeCreate(Encode(c), name);
    case AddSongToPlaylist(pl, id) => DecodeAdd(Encode(c), pl, id);
    case RemoveSongFromPlaylist(pl, id) => DecodeRemove(Encode(c), pl, id);
    case PlayPlaylist(name) => DecodePlay(Encode(c), name);
    case DeletePlaylist(name) => DecodeDelete(Encode(c), name);
    case Search(q) => DecodeSearch(Encode(c), q);
  }

  lemma DecodeCreate(s: string, name: string)
    requires s == CreatePrefix + name
    ensures Decode(s) == Some(CreatePlaylist(name))
  {
    AfterPrefix(CreatePrefix, name);
  }

  lemma DecodeAdd(s: string, pl: string, id: int)
    requires s == AddPrefix + pl + "|" + IntToString(id)
    ensures Decode(s) == Some(AddSongToPlaylist(pl, id))
  {
    var rest := pl + "|" + IntToString(id);
    assert s == AddPrefix + rest;
    OtherPrefix(CreatePrefix, AddPrefix, rest);
    AfterPrefix(AddPrefix, rest);
    ReadPairOf(pl, id);
  }

  lemma DecodeRemove(s: string, pl: string, id: int)
    requires s == RemovePrefix + pl + "|" + IntToString(id)
    ensures Decode(s) == Some(RemoveSongFromPlaylist(pl, id))
  {
    var rest := pl + "|" + IntToString(id);
    assert s == RemovePrefix + rest;
    OtherPrefix(CreatePrefix, RemovePrefix, rest);
    OtherPrefix(AddPrefix, RemovePrefix, rest);
    AfterPrefix(RemovePrefix, rest);
    ReadPairOf(pl, id);
  }

  lemma DecodePlay(s: string, name: string)
    requires s == PlayPrefix + name
    ensures Decode(s) == Some(PlayPlaylist(name))
  {
    OtherPrefix(CreatePrefix, PlayPrefix, name);
    OtherPrefix(AddPrefix, PlayPrefix, name);
    OtherPrefix(RemovePrefix, PlayPrefix, name);
    AfterPrefix(PlayPrefix, name);
  }

  lemma DecodeDelete(s: string, name: string)
    requires s == DeletePrefix + name
    ensures Decode(s) == Some(DeletePlaylist(name))
  {
    OtherPrefix(CreatePrefix, DeletePrefix, name);
    OtherPrefix(AddPrefix, DeletePrefix, name);
    OtherPrefix(RemovePrefix, DeletePrefix, name);
    OtherPrefix(PlayPrefix, DeletePrefix, name);
    AfterPrefix(DeletePrefix, name);
  }

  lemma DecodeSearch(s: string, q: string)
    requires s == SearchPrefix + q
    ensures Decode(s) == Some(Search(q))
  {
    OtherPrefix(CreatePrefix, SearchPrefix, q);
    OtherPrefix(AddPrefix, SearchPrefix, q);
    OtherPrefix(RemovePrefix, SearchPrefix, q);
    OtherPrefix(PlayPrefix, SearchPrefix, q);
    OtherPrefix(DeletePrefix, SearchPrefix, q);
    AfterPrefix(SearchPrefix, q);
  }

  /** Different commands never share a payload. */
  lemma EncodeInjective(c: Command, d: Command)
    requires Encode(c) == Encode(d)
    ensures c == d
  {
    DecodeEncode(c);
    DecodeEncode(d);
  }

  // ---------------------------------------------------------------------------
  // Handlers
  // ---------------------------------------------------------------------------

  /** A track as the panel sees it; `song_id` is checked with `typeof` before use. */
  datatype Track = Track(songId: SongId, songName: string)

  /** What a handler hands to the outside: a `sendMessage` payload or an `onGetPlaylistDetails` call. */
  datatype Effect = Send(payload: string) | RequestDetails(playlist: string)

  /** The panel's own state. */
  datatype Panel = Panel(newPlaylistName: string, showAddSong: bool, selected: Option<string>, showSearchOverlay: bool)

  datatype Handled = Handled(panel: Panel, effects: seq<Effect>)

  /**
   * A payload that is the template text of `c` and reads back as `c`. The
   * template writes the id as canonical decimal; `Decode` alone would also
   * read a numeral with leading zeros.
   */
  predicate Sends(e: Effect, c: Command) {
    e.Send? && e.payload == Encode(c) && Decode(e.payload) == Some(c)
  }

  function HandleCreatePlaylist(p: Panel): (r: Handled)
    ensures AllWhitespace(p.newPlaylistName) ==> r == Handled(p, [])
    ensures !AllWhitespace(p.newPlaylistName) ==>
      r.panel == p.(newPlaylistName := "") && |r.effects| == 1
      && Sends(r.effects[0], CreatePlaylist(Trim(p.newPlaylistName)))
  {
    var name := Trim(p.newPlaylistName);
    if name != "" then
      DecodeEncode(CreatePlaylist(name));
      Handled(p.(newPlaylistName := ""), [Send(Encode(CreatePlaylist(name)))])
    else Handled(p, [])
  }

  /** A created playlist's name is never blank and carries no surrounding whitespace. */
  lemma CreatedNameClean(p: Panel)
    requires HandleCreatePlaylist(p).effects != []
    ensures Sends(HandleCreatePlaylist(p).effects[0], CreatePlaylist(Trim(p.newPlaylistName)))
    ensures Trim(p.newPlaylistName) != "" && Trim(Trim(p.newPlaylistName)) == Trim(p.newPlaylistName)
  {
    TrimIdempotent(p.newPlaylistName);
  }

  function HandleAddTrackToPlaylist(p: Panel, currentTrack: Option<Track>, playlistName: string): (r: Handled)
    ensures r.panel == p.(showAddSong := false)
    ensures r.effects != [] <==> currentTrack.Some? && currentTrack.value.songId.NumId?
    ensures r.effects != [] ==>
      |r.effects| == 1 && Sends(r.effects[0], AddSongToPlaylist(playlistName, currentTrack.value.songId.n))
  {
    if currentTrack.Some? && currentTrack.value.songId.NumId? then
      var c := AddSongToPlaylist(playlistName, currentTrack.value.songId.n);
      DecodeEncode(c);
      Handled(p.(showAddSong := false), [Send(Encode(c))])
    else Handled(p.(showAddSong := false), [])
  }

  function HandleRemoveTrack(playlistName: string, songId: SongId): (r: seq<Effect>)
    ensures r != [] <==> songId.NumId?
    ensures r != [] ==> |r| == 1 && Sends(r[0], RemoveSongFromPlaylist(playlistName, songId.n))
  {
    if songId.NumId? then
      var c := RemoveSongFromPlaylist(playlistName, songId.n);
      DecodeEncode(c);
      [Send(Encode(c))]
    else []
  }

  function HandlePlayPlaylist(name: string): (e: Effect)
    ensures Sends(e, PlayPlaylist(name))
  {
    DecodeEncode(PlayPlaylist(name));
    Send(Encode(PlayPlaylist(name)))
  }

  function HandleDeletePlaylist(name: string): (e: Effect)
    ensures Sends(e, DeletePlaylist(name))
  {
    DecodeEncode(DeletePlaylist(name));
    Send(Encode(DeletePlaylist(name)))
  }

  /** `!playlist || !playlist.length`: no entry, or an entry without tracks. */
  predicate NeedsDetails(playlists: map<string, seq<Track>>, name: string) {
    name !in playlists || |playlists[name]| == 0
  }

  function HandleSelectPlaylist(p: Panel, playlists: map<string, seq<Track>>, name: string): (r: Handled)
    ensures r.panel == p.(selected := r.panel.selected)
    ensures p.selected == Some(name) ==> r.panel.selected.None? && r.effects == []
    ensures p.selected != Some(name) ==> r.panel.selected == Some(name)
    ensures p.selected != Some(name) ==>
      (r.effects != [] <==> NeedsDetails(playlists, name)) && (r.effects == [] || r.effects == [RequestDetails(name)])
  {
    if p.selected == Some(name) then Handled(p.(selected := None), [])
    else if NeedsDetails(playlists, name) then Handled(p.(selected := Some(name)), [RequestDetails(name)])
    else Handled(p.(selected := Some(name)), [])
  }

  /** Selecting a playlist twice in a row leaves nothing selected, and the second click requests nothing. */
  lemma SelectTwiceClears(p: Panel, playlists: map<string, seq<Track>>, name: string)
    ensures var once := HandleSelectPlaylist(p, playlists, name);
      var twice := HandleSelectPlaylist(once.panel, playlists, name);
      p.selected != Some(name) ==> twice.panel == p.(selected := None) && twice.effects == []
  {
  }

  /** Choosing a result in the search overlay only closes the overlay. */
  function SelectSearchResult(p: Panel, track: Track): (r: Handled)
    ensures r.panel.showSearchOverlay == false && r.effects == []
    ensures r.panel.(showSearchOverlay := p.showSearchOverlay) == p
  {
    Handled(p.(showSearchOverlay := false), [])
  }

  // ---------------------------------------------------------------------------
  // Search overlay
  // ---------------------------------------------------------------------------

  datatype Overlay = Overlay(query: string, results: seq<Track>, isLoading: bool)

  datatype Searched = Searched(overlay: Overlay, effects: seq<Effect>)

  function HandleSearch(o: Overlay): (r: Searched)
    ensures AllWhitespace(o.query) ==> r == Searched(o, [])
    ensures !AllWhitespace(o.query) ==>
      r.overlay == Overlay(o.query, [], false) && |r.effects| == 1 && Sends(r.effects[0], Search(o.query))
  {
    if Trim(o.query) == "" then Searched(o, [])
    else
      DecodeEncode(Search(o.query));
      Searched(Overlay(o.query, [], false), [Send(Encode(Search(o.query)))])
  }

  /** The "No results found." line of the overlay. */
  predicate ShowsNoResults(o: Overlay) {
    !o.isLoading && |o.results| == 0 && Trim(o.query) != ""
  }

  /** A search for anything but blanks always ends on "No results found.": nothing fills the results. */
  lemma SearchEndsWithNoResults(o: Overlay)
    requires !AllWhitespace(o.query)
    ensures ShowsNoResults(HandleSearch(o).overlay)
    ensures HandleSearch(o).overlay.query == o.query
  {
  }

  // ---------------------------------------------------------------------------
  // Track rows
  // ---------------------------------------------------------------------------

  /** `currentTrack?.song_id === track.song_id`; a number and a string never compare equal. */
  predicate IsPlaying(currentTrack: Option<Track>, track: Track) {
    currentTrack.Some? && currentTrack.value.songId == track.songId
  }

  predicate DistinctIds(tracks: seq<Track>) {
    forall i, j :: 0 <= i < j < |tracks| ==> tracks[i].songId != tracks[j].songId
  }

  /** In a playlist without repeated ids at most one row is marked as playing; none with no current track. */
  lemma AtMostOnePlayingRow(currentTrack: Option<Track>, tracks: seq<Track>, i: int, j: int)
    requires DistinctIds(tracks) && 0 <= i < |tracks| && 0 <= j < |tracks|
    requires IsPlaying(currentTrack, tracks[i]) && IsPlaying(currentTrack, tracks[j])
    ensures i == j && currentTrack.Some?
  {
  }
}
