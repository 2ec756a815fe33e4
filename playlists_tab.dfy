/**
 * The playlists page (`PlaylistsTab`): an overview grid of playlist cards,
 * four to a row, and a detail view of the playlist open, whose id the page
 * keeps (`None` on the overview). The answers of the name and confirmation
 * dialogs are inputs.
 */
module PlaylistsTab {
  import opened Wrappers
  import opened Catalog
  import opened Events

  /** Cards per grid row. */
  const Columns := 4

  /** A playlist card at its place in the grid. */
  datatype Card = Card(playlist: PlaylistInfo, row: int, col: int)

  /** The grid the overview shows for a listing: card k at row k / 4, column k % 4. */
  function Grid(listing: seq<PlaylistInfo>): (g: seq<Card>)
    ensures |g| == |listing|
    ensures forall k :: 0 <= k < |g| ==> g[k] == Card(listing[k], k / Columns, k % Columns)
  {
    seq(|listing|, k requires 0 <= k < |listing| => Card(listing[k], k / Columns, k % Columns))
  }

  /** No two cards share a cell, and no row holds more than four. */
  lemma GridCellsDistinct(listing: seq<PlaylistInfo>)
    ensures var g := Grid(listing);
      && (forall k :: 0 <= k < |g| ==> 0 <= g[k].col < Columns)
      && forall i, j :: 0 <= i < j < |g| ==> (g[i].row, g[i].col) != (g[j].row, g[j].col)
  {
    var g := Grid(listing);
    forall i, j | 0 <= i < j < |g| ensures (g[i].row, g[i].col) != (g[j].row, g[j].col) {
      assert i == (i / Columns) * Columns + i % Columns;
      assert j == (j / Columns) * Columns + j % Columns;
    }
  }

  /** The text shown for an open playlist without songs. */
  const EmptyPlaylistText := "Empty Playlist. Right click songs in Library to add here."
  const DuplicateNameWarning := "Playlist already exists."
  const NameTakenWarning := "Name already taken."

  class PlaylistsView {
    const db: Database
    const bus: EventBus
    var currentPlaylistId: Option<int>
    var title: string
    /** The cards of the overview. */
    var cards: seq<Card>
    /** The songs shown in the detail view, and the placeholder text when it has none. */
    var rows: seq<Song>
    var placeholder: string
    /** The list play requests from the detail view refer to. */
    var currentSongList: seq<Song>
    /** The requests sent by `play_requested`, oldest first. */
    var playRequests: seq<PlayRequest>

    ghost predicate Valid()
      reads this, db
    {
      db.Valid()
    }

    /** The page opens on the overview. */
    constructor (db: Database, bus: EventBus)
      requires db.Valid()
      ensures this.db == db && this.bus == bus && Valid()
      ensures currentPlaylistId == None && title == "My Playlists"
      ensures cards == Grid(PlaylistListing(db.Snapshot()))
      ensures rows == [] && placeholder == [] && currentSongList == [] && playRequests == []
    {
      this.db := db;
      this.bus := bus;
      currentPlaylistId := None;
      title := "My Playlists";
      var listing := db.GetPlaylists();
      cards := Grid(listing);
      rows, placeholder, currentSongList, playRequests := [], [], [], [];
    }

    /** `load_playlists`: one card per playlist, filling rows of four from the left. */
    method LoadPlaylists()
      modifies this
      ensures cards == Grid(PlaylistListing(db.Snapshot()))
      ensures currentPlaylistId == old(currentPlaylistId) && title == old(title)
      ensures rows == old(rows) && placeholder == old(placeholder)
      ensures currentSongList == old(currentSongList) && playRequests == old(playRequests)
    {
      var playlists := db.GetPlaylists();
      var placed: seq<Card> := [];
      var row, col := 0, 0;
      var k := 0;
      while k < |playlists|
        invariant 0 <= k <= |playlists|
        invariant row == k / Columns && col == k % Columns
        invariant |placed| == k
        invariant forall i :: 0 <= i < k ==> placed[i] == Card(playlists[i], i / Columns, i % Columns)
      {
        placed := placed + [Card(playlists[k], row, col)];
        col := col + 1;
        if col > 3 {
          col := 0;
          row := row + 1;
        }
        k := k + 1;
      }
      cards := placed;
    }

    /** `show_overview`: no playlist open, and the grid reloaded. */
    method ShowOverview()
      modifies this
      ensures currentPlaylistId == None && title == "My Playlists"
      ensures cards == Grid(PlaylistListing(db.Snapshot()))
      ensures rows == old(rows) && placeholder == old(placeholder)
      ensures currentSongList == old(currentSongList) && playRequests == old(playRequests)
    {
      currentPlaylistId := None;
      title := "My Playlists";
      LoadPlaylists();
    }

    /**
     * `load_playlist_songs`: the playlist's songs as rows; with none, the
     * placeholder instead, and the list play requests refer to is kept as it was.
     */
    method LoadPlaylistSongs(playlistId: int)
      modifies this
      ensures var songs := PlaylistSongs(db.Snapshot(), playlistId);
        && rows == songs
        && (songs == [] ==> placeholder == EmptyPlaylistText && currentSongList == old(currentSongList))
        && (songs != [] ==> placeholder == [] && currentSongList == songs)
      ensures currentPlaylistId == old(currentPlaylistId) && title == old(title) && cards == old(cards)
      ensures playRequests == old(playRequests)
    {
      var songs := db.GetPlaylistSongs(playlistId);
      rows := songs;
      if songs == [] {
        placeholder := EmptyPlaylistText;
        return;
      }
      placeholder := [];
      currentSongList := songs;
    }

    /** `open_playlist`: the playlist becomes the open one, titled by its name, its songs shown. */
    method OpenPlaylist(p: PlaylistInfo)
      modifies this
      ensures currentPlaylistId == Some(p.id) && title == p.name
      ensures rows == PlaylistSongs(db.Snapshot(), p.id)
      ensures rows == [] ==> placeholder == EmptyPlaylistText && currentSongList == old(currentSongList)
      ensures rows != [] ==> placeholder == [] && currentSongList == rows
      ensures cards == old(cards) && playRequests == old(playRequests)
    {
      currentPlaylistId := Some(p.id);
      title := p.name;
      LoadPlaylistSongs(p.id);
    }

    /** `on_playlist_content_changed(id)`: reload the songs only if that playlist is the open one. */
    method OnPlaylistContentChanged(playlistId: int)
      modifies this
      ensures currentPlaylistId == old(currentPlaylistId) && title == old(title) && cards == old(cards)
      ensures currentPlaylistId == Some(playlistId) ==>
        var songs := PlaylistSongs(db.Snapshot(), playlistId);
        && rows == songs
        && (songs == [] ==> placeholder == EmptyPlaylistText && currentSongList == old(currentSongList))
        && (songs != [] ==> placeholder == [] && currentSongList == songs)
      ensures currentPlaylistId != Some(playlistId) ==>
        rows == old(rows) && placeholder == old(placeholder) && currentSongList == old(currentSongList)
      ensures playRequests == old(playRequests)
    {
      if currentPlaylistId == Some(playlistId) {
        LoadPlaylistSongs(playlistId);
      }
    }

    /**
     * `create_playlist_dialog`: for an accepted, non-empty name, create the
     * playlist and announce it, or warn that the name exists.
     */
    method CreatePlaylistDialog(input: Option<string>) returns (warning: Option<string>)
      requires Valid()
      modifies db, bus
      ensures Valid()
      ensures input.None? || input.value == [] ==>
        db.Snapshot() == old(db.Snapshot()) && bus.log == old(bus.log) && warning.None?
      ensures input.Some? && input.value != [] ==>
        var (ok, after) := InsertPlaylist(old(db.Snapshot()), input.value);
        && db.Snapshot() == after
        && (ok ==> bus.log == old(bus.log) + [PlaylistsUpdated] && warning.None?)
        && (!ok ==> bus.log == old(bus.log) && warning == Some(DuplicateNameWarning))
    {
      warning := None;
      if input.Some? && input.value != [] {
        var ok := db.CreatePlaylist(input.value);
        if ok {
          bus.Emit(PlaylistsUpdated);
        } else {
          warning := Some(DuplicateNameWarning);
        }
      }
    }

    /**
     * `rename_playlist_dialog`: for an accepted, non-empty name, rename the
     * playlist and announce it, or warn that another playlist has the name.
     */
    method RenamePlaylistDialog(p: PlaylistInfo, input: Option<string>) returns (warning: Option<string>)
      requires Valid()
      modifies db, bus
      ensures Valid()
      ensures input.None? || input.value == [] ==>
        db.Snapshot() == old(db.Snapshot()) && bus.log == old(bus.log) && warning.None?
      ensures input.Some? && input.value != [] ==>
        var (ok, after) := UpdatePlaylistName(old(db.Snapshot()), p.id, input.value);
        && db.Snapshot() == after
        && (ok ==> bus.log == old(bus.log) + [PlaylistsUpdated] && warning.None?)
        && (!ok ==> bus.log == old(bus.log) && warning == Some(NameTakenWarning))
    {
      warning := None;
      if input.Some? && input.value != [] {
        var ok := db.RenamePlaylist(p.id, input.value);
        if ok {
          bus.Emit(PlaylistsUpdated);
        } else {
          warning := Some(NameTakenWarning);
        }
      }
    }

    /**
     * `delete_playlist`: once confirmed, delete the playlist with its
     * memberships; if it was the open one go back to the overview, otherwise
     * announce the change.
     */
    method DeletePlaylist(p: PlaylistInfo, confirmed: bool)
      requires Valid()
      modifies this, db, bus
      ensures Valid()
      ensures !confirmed ==>
        db.Snapshot() == old(db.Snapshot()) && bus.log == old(bus.log) && currentPlaylistId == old(currentPlaylistId)
      ensures !confirmed ==> title == old(title) && cards == old(cards)
      ensures confirmed ==> db.Snapshot() == DeletePlaylistCascade(old(db.Snapshot()), p.id)
      ensures confirmed && old(currentPlaylistId) == Some(p.id) ==>
        && currentPlaylistId == None && title == "My Playlists"
        && bus.log == old(bus.log) && cards == Grid(PlaylistListing(db.Snapshot()))
      ensures confirmed && old(currentPlaylistId) != Some(p.id) ==>
        && currentPlaylistId == old(currentPlaylistId) && title == old(title) && cards == old(cards)
        && bus.log == old(bus.log) + [PlaylistsUpdated]
      ensures rows == old(rows) && placeholder == old(placeholder)
      ensures currentSongList == old(currentSongList) && playRequests == old(playRequests)
    {
      if confirmed {
        db.DeletePlaylist(p.id);
        if currentPlaylistId == Some(p.id) {
          ShowOverview();
        } else {
          bus.Emit(PlaylistsUpdated);
        }
      }
    }

    /**
     * `remove_song`: while a playlist is open (its id tested for truth, so
     * id 0 would count as none), take the song out of it and announce the
     * contents, then the playlists, as changed.
     */
    method RemoveSong(song: Song)
      requires Valid()
      modifies db, bus
      ensures Valid()
      ensures currentPlaylistId.Some? && currentPlaylistId.value != 0 ==>
        && db.Snapshot() == DeleteMember(old(db.Snapshot()), currentPlaylistId.value, song.filepath)
        && bus.log == old(bus.log) + [PlaylistContentChanged(currentPlaylistId.value), PlaylistsUpdated]
      ensures !(currentPlaylistId.Some? && currentPlaylistId.value != 0) ==>
        db.Snapshot() == old(db.Snapshot()) && bus.log == old(bus.log)
    {
      if currentPlaylistId.Some? && currentPlaylistId.value != 0 {
        var id := currentPlaylistId.value;
        db.RemoveFromPlaylist(id, song.filepath);
        bus.Emit(PlaylistContentChanged(id));
        bus.Emit(PlaylistsUpdated);
      }
    }

    /** A click on song row `i` plays the playlist's list from that row, unshuffled. */
    method OnSongClicked(i: int)
      modifies this
      ensures playRequests == old(playRequests) + [PlayRequest(currentSongList, i, false)]
      ensures currentPlaylistId == old(currentPlaylistId) && rows == old(rows) && currentSongList == old(currentSongList)
      ensures title == old(title) && cards == old(cards) && placeholder == old(placeholder)
    {
      playRequests := playRequests + [PlayRequest(currentSongList, i, false)];
    }
  }

  /** Catalog playlist ids start at 1, so the truth test in `remove_song` means "a playlist is open". */
  lemma OpenIdsAreTruthy(db: Db, id: int)
    requires Consistent(db) && HasPlaylist(db.playlists, id)
    ensures id != 0
  {
    var k :| 0 <= k < |db.playlists| && db.playlists[k].id == id;
  }
}
