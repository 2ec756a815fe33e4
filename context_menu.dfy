/**
 * The song context menu (`SongContextMenu`): add a song to an existing
 * playlist, or create a playlist and add the song to it in one go. The name
 * dialog's answer is an input: `None` when it was cancelled.
 */
module ContextMenu {
  import opened Wrappers
  import opened Catalog
  import opened Events

  /** The warning shown when the name is taken. */
  const NameTakenWarning := "Playlist name already exists!"

  /**
   * `add_to_existing`: add the song by its path (a no-op for an unknown
   * song or playlist, or one already there), then announce that the
   * playlists and that playlist's contents changed.
   */
  method AddToExisting(db: Database, bus: EventBus, playlistId: int, song: Song)
    requires db.Valid()
    modifies db, bus
    ensures db.Valid() && db.Snapshot() == InsertMember(old(db.Snapshot()), playlistId, song.filepath)
    ensures bus.log == old(bus.log) + [PlaylistsUpdated, PlaylistContentChanged(playlistId)]
  {
    db.AddToPlaylist(playlistId, song.filepath);
    bus.Emit(PlaylistsUpdated);
    bus.Emit(PlaylistContentChanged(playlistId));
  }

  /** The index of the first listed playlist called `name`, or the length of the listing. */
  function FirstNamed(listing: seq<PlaylistInfo>, name: string): (i: nat)
    ensures i <= |listing|
    ensures i < |listing| ==> listing[i].name == name
    ensures forall k :: 0 <= k < i ==> listing[k].name != name
  {
    if listing == [] || listing[0].name == name then 0
    else 1 + FirstNamed(listing[1..], name)
  }

  /** The search loop of `create_and_add`: the first listed playlist with the name. */
  method FindFirstNamed(listing: seq<PlaylistInfo>, name: string) returns (i: nat)
    ensures i == FirstNamed(listing, name)
  {
    i := 0;
    while i < |listing|
      invariant 0 <= i <= |listing|
      invariant forall k :: 0 <= k < i ==> listing[k].name != name
    {
      if listing[i].name == name {
        break;
      }
      i := i + 1;
    }
    FirstNamedIsFirst(listing, name, i);
  }

  /** The first index holding the name, or the end when none does, is `FirstNamed`. */
  lemma {:induction false} FirstNamedIsFirst(listing: seq<PlaylistInfo>, name: string, i: nat)
    requires i <= |listing| && (i < |listing| ==> listing[i].name == name)
    requires forall k :: 0 <= k < i ==> listing[k].name != name
    ensures FirstNamed(listing, name) == i
  {
    if i > 0 {
      FirstNamedIsFirst(listing[1..], name, i - 1);
    }
  }

  /**
   * The loop of `create_and_add`: add the song to the first listed playlist
   * with the name, if there is one, and stop there.
   */
  method AddToFirstNamed(db: Database, bus: EventBus, listing: seq<PlaylistInfo>, name: string, song: Song)
    requires db.Valid()
    modifies db, bus
    ensures db.Valid()
    ensures FirstNamed(listing, name) == |listing| ==>
      db.Snapshot() == old(db.Snapshot()) && bus.log == old(bus.log)
    ensures FirstNamed(listing, name) < |listing| ==>
      var id := listing[FirstNamed(listing, name)].id;
      && db.Snapshot() == InsertMember(old(db.Snapshot()), id, song.filepath)
      && bus.log == old(bus.log) + [PlaylistsUpdated, PlaylistContentChanged(id)]
  {
    var i := FindFirstNamed(listing, name);
    if i < |listing| {
      AddToExisting(db, bus, listing[i].id, song);
    }
  }

  /** With distinct names, the playlist created last is the first listed under its name. */
  lemma CreatedIsFirstNamed(db: Db, name: string, listing: seq<PlaylistInfo>)
    requires Consistent(db) && !HasName(db.playlists, name)
    requires listing == PlaylistListing(InsertPlaylist(db, name).1)
    ensures FirstNamed(listing, name) < |listing| && listing[FirstNamed(listing, name)].id == db.nextPlaylistId
  {
    var d := InsertPlaylist(db, name).1;
    var last := |d.playlists| - 1;
    assert listing[last].name == name;
    var i := FirstNamed(listing, name);
    assert d.playlists[i].name == d.playlists[last].name;
    assert NamesDistinct(d.playlists);
  }

  /**
   * The store after `create_and_add` with an accepted, non-empty name: the
   * new playlist holding the song, or nothing changed when the name is taken.
   */
  function CreatedWithSong(db: Db, name: string, path: string): Db {
    if HasName(db.playlists, name) then db
    else InsertMember(InsertPlaylist(db, name).1, db.nextPlaylistId, path)
  }

  /**
   * The part of `create_and_add` after the creation was announced: add the
   * song to the playlist listed under the name, which is the new one.
   */
  method AddToCreated(db: Database, bus: EventBus, name: string, song: Song, ghost before: Db)
    requires db.Valid() && Consistent(before) && !HasName(before.playlists, name)
    requires db.Snapshot() == InsertPlaylist(before, name).1
    modifies db, bus
    ensures db.Valid()
    ensures db.Snapshot() == InsertMember(old(db.Snapshot()), before.nextPlaylistId, song.filepath)
    ensures bus.log == old(bus.log) + [PlaylistsUpdated, PlaylistContentChanged(before.nextPlaylistId)]
  {
    var listing := db.GetPlaylists();
    CreatedIsFirstNamed(before, name, listing);
    AddToFirstNamed(db, bus, listing, name, song);
  }

  /** `create_and_add` once the playlist was created from `before`: announce it, then add the song. */
  method AnnounceAndAdd(db: Database, bus: EventBus, name: string, song: Song, ghost before: Db)
    requires db.Valid() && Consistent(before) && !HasName(before.playlists, name)
    requires db.Snapshot() == InsertPlaylist(before, name).1
    modifies db, bus
    ensures db.Valid()
    ensures db.Snapshot() == InsertMember(old(db.Snapshot()), before.nextPlaylistId, song.filepath)
    ensures bus.log == old(bus.log) + [PlaylistsUpdated, PlaylistsUpdated, PlaylistContentChanged(before.nextPlaylistId)]
  {
    ghost var created := db.Snapshot();
    bus.Emit(PlaylistsUpdated);
    assert db.songs == created.songs && db.playlists == created.playlists && db.members == created.members;
    assert db.nextSongId == created.nextSongId && db.nextPlaylistId == created.nextPlaylistId;
    AddToCreated(db, bus, name, song, before);
  }

  /** The branch of `create_and_add` for an accepted, non-empty name. */
  method CreateNamedAndAdd(db: Database, bus: EventBus, name: string, song: Song)
      returns (warning: Option<string>)
    requires db.Valid()
    modifies db, bus
    ensures db.Valid() && db.Snapshot() == CreatedWithSong(old(db.Snapshot()), name, song.filepath)
    ensures HasName(old(db.Snapshot()).playlists, name) ==>
      bus.log == old(bus.log) && warning == Some(NameTakenWarning)
    ensures !HasName(old(db.Snapshot()).playlists, name) ==>
      && bus.log == old(bus.log) + [PlaylistsUpdated, PlaylistsUpdated, PlaylistContentChanged(old(db.nextPlaylistId))]
      && warning.None?
  {
    ghost var before := db.Snapshot();
    var created := db.CreatePlaylist(name);
    if created {
      AnnounceAndAdd(db, bus, name, song, before);
      warning := None;
    } else {
      warning := Some(NameTakenWarning);
    }
  }

  /**
   * `create_and_add`: for an accepted, non-empty name, create the playlist;
   * if the name was free, announce it and add the song to the playlist
   * listed under that name (the new one); if it was taken, warn and change
   * nothing. Returns the warning shown, if any.
   */
  method CreateAndAdd(db: Database, bus: EventBus, input: Option<string>, song: Song)
      returns (warning: Option<string>)
    requires db.Valid()
    modifies db, bus
    ensures db.Valid()
    ensures input.None? || input.value == [] ==>
      db.Snapshot() == old(db.Snapshot()) && bus.log == old(bus.log) && warning.None?
    ensures input.Some? && input.value != [] ==>
      db.Snapshot() == CreatedWithSong(old(db.Snapshot()), input.value, song.filepath)
    ensures input.Some? && input.value != [] && HasName(old(db.Snapshot()).playlists, input.value) ==>
      bus.log == old(bus.log) && warning == Some(NameTakenWarning)
    ensures input.Some? && input.value != [] && !HasName(old(db.Snapshot()).playlists, input.value) ==>
      && bus.log == old(bus.log) + [PlaylistsUpdated, PlaylistsUpdated, PlaylistContentChanged(old(db.nextPlaylistId))]
      && warning.None?
  {
    if input.Some? && input.value != [] {
      warning := CreateNamedAndAdd(db, bus, input.value, song);
    } else {
      warning := None;
    }
  }

  /** A playlist created under a free name holds exactly the one membership added. */
  lemma CreatedMembers(db: Db, name: string, song: Song)
    requires Consistent(db) && song in db.songs && !HasName(db.playlists, name)
    ensures CreatedWithSong(db, name, song.filepath).members == db.members + {(db.nextPlaylistId, song.id)}
    ensures forall m :: m in db.members ==> m.0 != db.nextPlaylistId
  {
    var d1 := InsertPlaylist(db, name).1;
    var id := db.nextPlaylistId;
    var i :| 0 <= i < |db.songs| && db.songs[i] == song;
    assert HasPath(d1.songs, song.filepath);
    assert HasPlaylist(d1.playlists, id) by {
      assert d1.playlists[|d1.playlists| - 1].id == id;
    }
    var f := FindSong(d1.songs, song.filepath).value;
    assert f == song by {
      var j :| 0 <= j < |db.songs| && db.songs[j] == f;
      assert db.songs[i].filepath == db.songs[j].filepath;
    }
    forall m | m in db.members ensures m.0 != id {
      var k :| 0 <= k < |db.playlists| && db.playlists[k].id == m.0;
    }
  }

  /** Creating under a taken name changes nothing; under a free one the store stays consistent and has the name. */
  lemma CreatedWithSongConsistent(db: Db, name: string, path: string)
    requires Consistent(db)
    ensures HasName(db.playlists, name) ==> CreatedWithSong(db, name, path) == db
    ensures Consistent(CreatedWithSong(db, name, path))
    ensures HasName(CreatedWithSong(db, name, path).playlists, name)
  {
  }

  /** With distinct song ids, a playlist whose one pair names `song` lists just that song. */
  lemma OnlySongListed(songs: seq<Song>, members: set<(int, int)>, id: int, song: Song)
    requires forall i, j :: 0 <= i < j < |songs| ==> songs[i].id < songs[j].id
    requires song in songs
    requires forall m :: m in members ==> m.0 != id
    ensures forall s :: s in SongsIn(songs, members + {(id, song.id)}, id) <==> s == song
  {
    var i :| 0 <= i < |songs| && songs[i] == song;
    forall s | s in songs && (id, s.id) in members + {(id, song.id)} ensures s == song {
      var j :| 0 <= j < |songs| && songs[j] == s;
      assert songs[j].id == songs[i].id;
    }
  }

  /** A playlist created for a song the catalog knows holds that song and no other. */
  lemma CreatedWithSongHolds(db: Db, name: string, song: Song)
    requires Consistent(db) && song in db.songs && !HasName(db.playlists, name)
    ensures forall s :: s in PlaylistSongs(CreatedWithSong(db, name, song.filepath), db.nextPlaylistId) <==> s == song
  {
    CreatedMembers(db, name, song);
    OnlySongListed(db.songs, db.members, db.nextPlaylistId, song);
  }
}
