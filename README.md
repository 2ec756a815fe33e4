# Rebbit core, modelled in Dafny

Rebbit is a desktop music player. This project models its core and proves properties of the model:

- **the playback queue and transport** (`Playback`): loading a queue, play/pause, next, previous, shuffle and repeat, and the end of a track;
- **the catalog store** (`Catalog`): the `songs`, `playlists` and `playlist_songs` tables with their UNIQUE, primary-key, foreign-key and ON DELETE CASCADE constraints. It exists twice:
  - as a value `Db` with one function per SQL statement; the lemmas are proved about these functions;
  - as the class `Database`, whose methods update the tables in place and are proved to agree with the functions;
- **the rules built on both**:
  - the library scan and the library manager (`LibrarySync`);
  - the controller's play and seek handling (`Controller`);
  - "add to a new playlist" in the song context menu (`ContextMenu`);
  - the library page's search filter and play requests (`LibraryTab`);
  - the playlists page's open playlist, card grid and dialogs (`PlaylistsTab`);
  - the song-info editor's file-name sanitiser and save sequence (`EditMetadata`);
  - the update checker's version parser (`VersionCheck`);
  - the seek slider (`Slider`);
  - a song row's labels (`LibraryItem`).

Signals are appended to event traces:

- the global bus's signals go to `Events.EventBus.log`;
- each object's own signals go to a field of that object (`events`, `playRequests`, `seekRequests`, …).

The following are inputs rather than computations:

- the file system: the directory walk, the result of the tag write, the error `os.rename` raises;
- the tag reader;
- dialog answers;
- the fetched README text;
- the choice `random.shuffle` makes.

`Text`, `Paths` and `Seqs` hold what the core borrows from Python:

- `str.strip` and `str.lower`;
- substring search;
- `os.path.join`, `os.path.dirname` and `os.path.splitext`;
- order-preserving selection.

## Model

| member | source | states |
|---|---|---|
| Playback.ModeCode | src/core/player.py:5-8 | repeat NONE, ALL and ONE are the integers 0, 1 and 2, in both directions |
| Playback.NextMode | src/core/player.py:107-113 | toggling repeat always changes the mode |
| Playback.RepeatCycleOfThree | src/core/player.py:107-113 | three toggles of repeat restore the mode, and one or two do not |
| Playback.NextIndex | src/core/player.py:65-78 | `next` keeps the index in range; repeat ONE pins it; before the last song it advances by one |
| Playback.RepeatAllAdvances | src/core/player.py:70-75 | under repeat ALL, k calls of `next` advance k places, wrapping once past the end |
| Playback.RepeatAllReturns | src/core/player.py:70-75 | under repeat ALL, as many `next` calls as there are songs come back to the starting song |
| Playback.RepeatOnePins | src/core/player.py:67-69 | under repeat ONE, no number of `next` calls moves the index |
| Playback.RepeatOffStops | src/core/player.py:70-78 | under repeat NONE, `next` advances up to the last song and stays there |
| Playback.PrevIndex | src/core/player.py:83-88 | `prev` keeps the index in range and steps back by one from any index above 0 |
| Playback.NextUndoesPrev | src/core/player.py:65-88 | outside repeat ONE, `next` undoes a `prev` that moved |
| Playback.PrevUndoesNext | src/core/player.py:65-88 | outside repeat ONE, `prev` undoes a `next` that moved |
| Playback.RemoveAt | src/core/player.py:39 | the comprehension that skips `start_index` leaves exactly the other songs, counted with repeats |
| Playback.Others | src/core/player.py:95 | the filter `s != current_song` drops every copy of the current song and keeps every other song, counted with repeats |
| Playback.OthersPlusCurrent | src/core/player.py:93-97 | without repeated songs, the current song followed by the others is a permutation of the original queue |
| Playback.Shuffle | src/core/player.py:40 | `random.shuffle` returns some permutation of its list |
| Playback.DistinctPathsNoDuplicates | src/core/player.py:101-104 | distinct file paths rule out repeated songs |
| Playback.FirstWithPathIsIndex | src/core/player.py:101-104 | with distinct paths, the first song carrying a path is the song at that path's index |
| Playback.Player.constructor | src/core/player.py:18-24 | a new player has empty queues, index -1, shuffle off, repeat NONE, and is not playing |
| Playback.Player.PlayCurrent | src/core/player.py:49-55 | with an index in range: the backend plays that song's file from 0, then `state_changed(True)` and `song_changed(song)` are emitted; otherwise nothing changes |
| Playback.Player.LoadQueue | src/core/player.py:35-47 | the original order becomes `songs`. Unshuffled: the queue is `songs` and the index is `start`. Shuffled: index 0 holds `songs[start]` and the rest is a permutation of the other songs. Either way the queue is a permutation of `songs` and that song plays |
| Playback.Player.SetPosition | src/ui/main_controller.py:59 | the backend's `setPosition` moves the position and touches nothing else |
| Playback.Player.TogglePlay | src/core/player.py:57-63 | playing: pause and emit False. Paused with a queue: play and emit True. Paused with an empty queue: nothing |
| Playback.Player.Next | src/core/player.py:65-78 | `next`, as the four cases of `NextTransition`: an empty queue is untouched; repeat ONE restarts the song; otherwise advance, or wrap under ALL, and play; at the end under NONE stop and emit False |
| Playback.Player.HandleMediaStatus | src/core/player.py:117-119 | end of media is exactly `next`; any other status changes nothing |
| Playback.Player.Prev | src/core/player.py:80-88 | past 3000 ms: restart at 0 with the same index. Otherwise step back, or wrap to the last song under ALL, and play. At index 0 without ALL: nothing. Repeat ONE is never consulted |
| Playback.Player.ToggleShuffle | src/core/player.py:90-105 | flips and emits the flag. On: the current song goes to index 0, followed by a permutation of the original songs other than it. Off: the original order, at the first index with the current song's path. With distinct paths the current song is kept |
| Playback.Player.ToggleRepeat | src/core/player.py:107-115 | the repeat mode moves to the next mode in the cycle, and the new mode is emitted |
| Playback.ShuffleRoundTrip | src/core/player.py:90-104 | starting unshuffled with distinct paths, toggling shuffle twice restores both the queue and the index |
| Catalog.FindSong | src/database/db_manager.py:118-119 | the lookup by path finds a row exactly when one has that path, and the row it finds has that path |
| Catalog.EmptyConsistent | src/database/db_manager.py:15-51 | the freshly created tables satisfy every constraint of the schema |
| Catalog.InsertSong | src/database/db_manager.py:53-72 | INSERT OR IGNORE: a known path leaves the store unchanged; a new path appends one row with the next id. The path is present afterwards and the constraints still hold |
| Catalog.InsertSongIdempotent | src/database/db_manager.py:57-58 | adding the same record twice leaves what adding it once left |
| Catalog.PathCountUnique | src/database/db_manager.py:25 | under UNIQUE filepath, a path is held by at most one row |
| Catalog.InsertLeavesOneRow | src/database/db_manager.py:57-58 | after `add_song`, whether or not it inserted, exactly one row has the path |
| Catalog.TitleLeTotal | src/database/db_manager.py:77 | the BINARY collation compares any two titles |
| Catalog.TitleLeTransitive | src/database/db_manager.py:77 | the BINARY collation is transitive |
| Catalog.InsertByTitle | src/database/db_manager.py:77 | inserting a row into a title-sorted listing keeps it sorted and adds exactly that row |
| Catalog.SortByTitle | src/database/db_manager.py:77 | ORDER BY title gives a title-sorted permutation of the rows |
| Catalog.AllSongs | src/database/db_manager.py:74-80 | `get_all_songs` lists a title-sorted permutation of the song rows |
| Catalog.AllSongsOnce | src/database/db_manager.py:74-80 | each song row appears in `get_all_songs` exactly once |
| Catalog.Retagged | src/database/db_manager.py:173-184 | the UPDATE rewrites only row `id`: its title, artist, album and cover, and its path only for a non-empty new path. The duration and every other row are kept |
| Catalog.RetaggedConsistent | src/database/db_manager.py:173-178 | a rewrite that does not move a row onto a path another row holds keeps every constraint |
| Catalog.UpdateSong | src/database/db_manager.py:169-191 | `update_song_metadata` returns False exactly when a non-empty new path belongs to another row, and then changes nothing. Otherwise it applies the rewrite; an unknown id changes no row |
| Catalog.RetaggedConsistentOrUnknown | src/database/db_manager.py:169-191 | an update that does not fail keeps the constraints, and leaves the rows alone for an unknown id |
| Catalog.InsertPlaylist | src/database/db_manager.py:90-99 | `create_playlist` returns True exactly when the name is free; then it appends one playlist with the next id. A taken name changes nothing. The name is present afterwards and songs and memberships are untouched |
| Catalog.CreateTwice | src/database/db_manager.py:90-99 | creating the same name a second time fails and changes nothing |
| Catalog.NameCountUnique | src/database/db_manager.py:35 | under UNIQUE name, a name is held by at most one playlist |
| Catalog.CreateLeavesOneNamed | src/database/db_manager.py:90-99 | after `create_playlist`, whatever its result, exactly one playlist has the name |
| Catalog.Renamed | src/database/db_manager.py:144 | the UPDATE renames only the row with the id and keeps every other row |
| Catalog.UpdatePlaylistName | src/database/db_manager.py:141-150 | `rename_playlist` returns False exactly when the id exists and another playlist has the name, and then changes nothing. An unknown id gives True with nothing changed. The constraints are kept |
| Catalog.Without | src/database/db_manager.py:154 | DELETE keeps exactly the playlists with another id |
| Catalog.WithoutKeepsOrder | src/database/db_manager.py:154 | deleting a playlist keeps the increasing order of the ids |
| Catalog.WithoutKeepsNamesUnique | src/database/db_manager.py:154 | deleting a playlist keeps names distinct |
| Catalog.DeletePlaylistCascade | src/database/db_manager.py:152-156 | `delete_playlist` removes the playlist and, through ON DELETE CASCADE, exactly its memberships. Songs and ids are untouched and the constraints are kept |
| Catalog.DeleteKeepsConsistent | src/database/db_manager.py:152-156 | the playlist and its memberships removed together keep every constraint |
| Catalog.InsertMember | src/database/db_manager.py:114-127 | `add_to_playlist` adds the pair (playlist, song of that path) when both exist and otherwise changes nothing, as the foreign key requires. The pair is a set element, so a repeat is absorbed |
| Catalog.InsertMemberIdempotent | src/database/db_manager.py:114-127 | adding the same song to the same playlist twice leaves one membership |
| Catalog.DeleteMember | src/database/db_manager.py:158-167 | `remove_from_playlist` deletes only the pair for the song with that path; an unknown path changes nothing |
| Catalog.RemoveUndoesAdd | src/database/db_manager.py:114-167 | removing a song right after adding it, when the pair was new, restores the store |
| Catalog.PlaylistSongs | src/database/db_manager.py:129-139 | `get_playlist_songs` lists exactly the songs with a membership in the playlist |
| Catalog.SongsIn | src/database/db_manager.py:132-136 | the join lists exactly the member songs, and is empty exactly when no song is a member |
| Catalog.UnknownPlaylistEmpty | src/database/db_manager.py:129-139 | a playlist id that does not exist has no songs |
| Catalog.DeleteThenNoSongs | src/database/db_manager.py:152-156 | after a delete, the playlist has no songs and no membership names it |
| Catalog.PlaylistListing | src/database/db_manager.py:101-112 | `get_playlists` lists each playlist once, with its id, its name and its number of memberships (0 when it has none) |
| Catalog.AddRaisesCount | src/database/db_manager.py:104-109 | adding a song that was not a member raises the playlist's `song_count` by one |
| Catalog.Database.constructor | src/database/db_manager.py:5-51 | opening the database keeps the tables the file already holds, which satisfy the schema's constraints; on the first run they are empty (`Catalog.EmptyConsistent`) |
| Catalog.Database.AddSong | src/database/db_manager.py:53-72 | the tables become `InsertSong` of the old tables |
| Catalog.Database.GetAllSongs | src/database/db_manager.py:74-80 | returns a title-sorted permutation of the song rows |
| Catalog.Database.SongExists | src/database/db_manager.py:82-88 | true exactly when some row has the path |
| Catalog.Database.CreatePlaylist | src/database/db_manager.py:90-99 | the result and the new tables are those of `InsertPlaylist` |
| Catalog.Database.GetPlaylists | src/database/db_manager.py:101-112 | returns `PlaylistListing` of the tables: every playlist once, with its membership count |
| Catalog.Database.AddToPlaylist | src/database/db_manager.py:114-127 | the tables become `InsertMember` of the old tables |
| Catalog.Database.GetPlaylistSongs | src/database/db_manager.py:129-139 | returns exactly the member songs of the playlist |
| Catalog.Database.RenamePlaylist | src/database/db_manager.py:141-150 | the result and the new tables are those of `UpdatePlaylistName` |
| Catalog.Database.DeletePlaylist | src/database/db_manager.py:152-156 | the tables become `DeletePlaylistCascade` of the old tables |
| Catalog.Database.RemoveFromPlaylist | src/database/db_manager.py:158-167 | the tables become `DeleteMember` of the old tables |
| Catalog.Database.UpdateSongMetadata | src/database/db_manager.py:169-191 | the result and the new tables are those of `UpdateSong` |
| LibrarySync.Extracted | src/core/library_manager.py:19 | the record added carries the scanned path and the tags read from it |
| LibrarySync.IsMp3IgnoresCase | src/core/library_manager.py:16 | names differing only in letter case are both considered or both skipped |
| LibrarySync.Mp3PathsExactly | src/core/library_manager.py:15-17 | the paths considered in a directory are exactly its `.mp3` files, joined onto its path |
| LibrarySync.ConsideredExactly | src/core/library_manager.py:14-17 | the paths considered by a scan are exactly the `.mp3` files of the walked directories |
| LibrarySync.ScanStep | src/core/library_manager.py:18-20 | one file's step leaves what `add_song` of its record leaves: a known path is skipped |
| LibrarySync.ScanProperties | src/core/library_manager.py:14-20 | a scan keeps the constraints and leaves every considered path in the catalog. Existing rows are kept as they were; every new row was read from a considered path the catalog did not know. Playlists are untouched |
| LibrarySync.ScanKnown | src/core/library_manager.py:18 | a scan over paths that are all known changes nothing |
| LibrarySync.ScanIdempotent | src/core/library_manager.py:14-20 | scanning the same files twice gives the catalog of scanning them once |
| LibrarySync.ScanAppend | src/core/library_manager.py:14-15 | scanning two lists one after the other is scanning their concatenation |
| LibrarySync.ScanFile | src/core/library_manager.py:18-20 | the store steps by `ScanStep` for the file's path |
| LibrarySync.ScanListed | src/core/library_manager.py:16-20 | one listed file is scanned when it is an `.mp3` and skipped otherwise |
| LibrarySync.ScanDirectory | src/core/library_manager.py:15-20 | the inner loop leaves the scan of the directory's `.mp3` paths, in listing order |
| LibrarySync.LibraryScanner.constructor | src/core/library_manager.py:8-9 | a new scanner is not running and has never finished |
| LibrarySync.LibraryScanner.Start | src/core/library_manager.py:34 | starting the thread sets it running |
| LibrarySync.LibraryScanner.Run | src/core/library_manager.py:11-21 | the catalog becomes the scan of every considered path, in walk order; `scan_finished` is emitted once, even when nothing was found; the thread stops |
| LibrarySync.LibraryManager.constructor | src/core/library_manager.py:26-30 | the manager holds the store and an idle scanner |
| LibrarySync.LibraryManager.RefreshLibrary | src/core/library_manager.py:32-34 | the scanner is started only when it is not already running, and is running afterwards |
| LibrarySync.LibraryManager.LoadLibrary | src/core/library_manager.py:36-38 | `library_changed` carries the whole catalog, sorted by title |
| Controller.MainController.constructor | src/ui/main_controller.py:8-14 | the controller holds the player and the two distinct seek sliders, and is ready for the play and seek handlers |
| Controller.MainController.HandlePlayRequest | src/ui/main_controller.py:52-56 | shuffle is on afterwards when the request asked for it or it already was, and is never turned off. The original order is `songs`, the queue a permutation of it, and `songs[index]` plays. Shuffle is toggled, and announced, only for a shuffled request while off |
| Controller.MainController.HandleSeek | src/ui/main_controller.py:58-63 | the player always moves to the position, and its queue, index, shuffle flag, repeat mode, source and playing state are kept. Each slider shows the position only when it is not being dragged. No slider changes its range, width or drag state |
| ContextMenu.AddToExisting | src/ui/context_menus.py:55-59 | `add_to_playlist` with the song's path, then `playlists_updated` and `playlist_content_changed(id)`, unconditionally |
| ContextMenu.FirstNamed | src/ui/context_menus.py:47-50 | the index found holds the name, and no earlier playlist has it |
| ContextMenu.FindFirstNamed | src/ui/context_menus.py:47-50 | the search loop with `break` stops at `FirstNamed` |
| ContextMenu.FirstNamedIsFirst | src/ui/context_menus.py:47-50 | the first index holding the name, or the end when no playlist has it, is `FirstNamed` |
| ContextMenu.AddToFirstNamed | src/ui/context_menus.py:46-50 | with no playlist of that name nothing happens; otherwise the song goes to the first one with it |
| ContextMenu.CreatedIsFirstNamed | src/ui/context_menus.py:43-50 | after a successful create, the first playlist listed under the name is the new one |
| ContextMenu.AddToCreated | src/ui/context_menus.py:46-50 | after a create, the song is added to the new playlist and both signals are emitted |
| ContextMenu.AnnounceAndAdd | src/ui/context_menus.py:44-50 | `playlists_updated`, then the song added to the new playlist |
| ContextMenu.CreateNamedAndAdd | src/ui/context_menus.py:42-52 | a taken name changes nothing and warns; a free one creates the playlist, announces it and adds the song to it |
| ContextMenu.CreateAndAdd | src/ui/context_menus.py:39-52 | a cancelled dialog or empty name changes nothing. Otherwise the store becomes `CreatedWithSong`: a duplicate only warns, and a fresh name gets the playlist holding the song |
| ContextMenu.CreatedMembers | src/ui/context_menus.py:43-50 | the new playlist gains exactly the one membership of the song, and no earlier membership names it |
| ContextMenu.CreatedWithSongConsistent | src/ui/context_menus.py:43-52 | a taken name leaves the store as it was; either way the constraints hold and the name exists |
| ContextMenu.CreatedWithSongHolds | src/ui/context_menus.py:43-50 | a playlist created for a known song lists exactly that song |
| LibraryTab.Matching | src/ui/expanded_view/library_tab.py:108-112 | the comprehension keeps the songs whose lower-cased title or artist contains the query, in order, each as often as in the library |
| LibraryTab.Filter | src/ui/expanded_view/library_tab.py:102-112 | an empty query keeps the whole library in order; otherwise exactly the matching songs. Either way an order-preserving subsequence of the library |
| LibraryTab.BlankQueryShowsAll | src/ui/expanded_view/library_tab.py:103-106 | a query of whitespace only shows the whole library |
| LibraryTab.FilterIgnoresCase | src/ui/expanded_view/library_tab.py:103 | queries differing only in letter case give the same result |
| LibraryTab.FilterComplete | src/ui/expanded_view/library_tab.py:108-112 | every matching song is shown, as often as it is in the library |
| LibraryTab.LibraryTabView.constructor | src/ui/expanded_view/library_tab.py:11-15 | a new page starts with no library, an empty song list, an empty search box, no message and no requests |
| LibraryTab.LibraryTabView.PopulateList | src/ui/expanded_view/library_tab.py:116-126 | the list shown becomes the list play requests use. With songs there is no message; with none, "No songs found." when the library has songs and "Library empty. Go download some!" when it has none (`PlaceholderFor`). The library, search text and requests are unchanged |
| LibraryTab.LibraryTabView.FilterLibrary | src/ui/expanded_view/library_tab.py:102-114 | the list shown is `Filter` of the library by the text, and the message is the one `populate_list` picks for that list. The library and requests are unchanged |
| LibraryTab.LibraryTabView.OnLibraryLoaded | src/ui/expanded_view/library_tab.py:98-100 | a new library, filtered by the text already in the search box, with the message `populate_list` picks for the result against the new library |
| LibraryTab.LibraryTabView.OnItemPlay | src/ui/expanded_view/library_tab.py:133-134 | emits the list shown, with the clicked index, unshuffled; the library, list, search text and message are unchanged |
| LibraryTab.LibraryTabView.PlayAll | src/ui/expanded_view/library_tab.py:136-138 | emits the list shown from 0, unshuffled, only when it is not empty; the library, list, search text and message are unchanged |
| LibraryTab.LibraryTabView.ShuffleAll | src/ui/expanded_view/library_tab.py:140-142 | emits the list shown from 0, shuffled, only when it is not empty; the library, list, search text and message are unchanged |
| PlaylistsTab.Grid | src/ui/expanded_view/playlists_tab.py:73-80 | card k sits at row k / 4, column k % 4 |
| PlaylistsTab.GridCellsDistinct | src/ui/expanded_view/playlists_tab.py:73-80 | no two cards share a cell, and every column is below 4 |
| PlaylistsTab.PlaylistsView.constructor | src/ui/expanded_view/playlists_tab.py:13-20 | the page opens on the overview titled "My Playlists", with no playlist open, the grid of the catalog's playlists, and no rows, message, song list or requests |
| PlaylistsTab.PlaylistsView.LoadPlaylists | src/ui/expanded_view/playlists_tab.py:66-80 | the row/column counter loop lays out `Grid` of the listing |
| PlaylistsTab.PlaylistsView.ShowOverview | src/ui/expanded_view/playlists_tab.py:170-179 | no playlist is open, the title is "My Playlists", and the grid is reloaded |
| PlaylistsTab.PlaylistsView.LoadPlaylistSongs | src/ui/expanded_view/playlists_tab.py:196-215 | the rows are the playlist's songs. With none, the placeholder shows and the previous song list stays; otherwise the list becomes those songs |
| PlaylistsTab.PlaylistsView.OpenPlaylist | src/ui/expanded_view/playlists_tab.py:181-190 | the opened id becomes current, the title is its name, and its songs are shown. An empty playlist shows the placeholder and keeps the previous song list; otherwise there is no placeholder and the song list is its songs |
| PlaylistsTab.PlaylistsView.OnPlaylistContentChanged | src/ui/expanded_view/playlists_tab.py:192-194 | the songs reload only when the id is the open playlist's: then the rows are its songs, with the placeholder and the song list as `OpenPlaylist` sets them; otherwise nothing changes |
| PlaylistsTab.PlaylistsView.CreatePlaylistDialog | src/ui/expanded_view/playlists_tab.py:145-151 | only an accepted, non-empty name reaches the store. Success emits `playlists_updated`; a duplicate warns and emits nothing |
| PlaylistsTab.PlaylistsView.RenamePlaylistDialog | src/ui/expanded_view/playlists_tab.py:153-159 | only an accepted, non-empty name reaches the store. Success emits `playlists_updated`; a taken name warns and emits nothing |
| PlaylistsTab.PlaylistsView.DeletePlaylist | src/ui/expanded_view/playlists_tab.py:161-168 | unconfirmed: nothing. Confirmed: the cascade delete. Then the open playlist returns to the overview titled "My Playlists"; any other emits `playlists_updated` and keeps the title and grid. Rows, message, song list and requests are unchanged on every branch |
| PlaylistsTab.PlaylistsView.RemoveSong | src/ui/expanded_view/playlists_tab.py:229-233 | only with a playlist open (a truthy id): remove the song, then emit `playlist_content_changed(id)` and `playlists_updated` |
| PlaylistsTab.PlaylistsView.OnSongClicked | src/ui/expanded_view/playlists_tab.py:214 | emits the playlist's song list with the clicked index, unshuffled; the title, grid and message are unchanged |
| PlaylistsTab.OpenIdsAreTruthy | src/ui/expanded_view/playlists_tab.py:230 | catalog playlist ids are never 0, so the truth test means "a playlist is open" |
| EditMetadata.RemoveForbidden | src/ui/dialogs/edit_metadata_dialog.py:88 | the substitution leaves none of `< > : " / \ | ? *` |
| EditMetadata.RemoveForbiddenOfClean | src/ui/dialogs/edit_metadata_dialog.py:88 | a text without forbidden characters passes through unchanged |
| EditMetadata.RemoveForbiddenSubsequence | src/ui/dialogs/edit_metadata_dialog.py:88 | the substitution only deletes characters |
| EditMetadata.RemoveForbiddenKeepsAllowed | src/ui/dialogs/edit_metadata_dialog.py:88 | every character outside the class is kept, as often as it occurs |
| EditMetadata.SanitizeClean | src/ui/dialogs/edit_metadata_dialog.py:87-88 | a sanitised name holds no forbidden character (so no `/`) and no surrounding whitespace |
| EditMetadata.SanitizeSubsequence | src/ui/dialogs/edit_metadata_dialog.py:87-88 | a sanitised name is a subsequence of the input |
| EditMetadata.SanitizeIdempotent | src/ui/dialogs/edit_metadata_dialog.py:87-88 | sanitising twice is sanitising once |
| EditMetadata.FinalPath | src/ui/dialogs/edit_metadata_dialog.py:116-124 | the stored path is the new one exactly when it differs from the current path and the rename succeeded; otherwise the current one |
| EditMetadata.FinalCover | src/ui/dialogs/edit_metadata_dialog.py:127 | a newly chosen cover wins; otherwise the song's own is kept |
| EditMetadata.NewFileNameHasNoSlash | src/ui/dialogs/edit_metadata_dialog.py:110-112 | the new file name is a single path component |
| EditMetadata.PlanPath | src/ui/dialogs/edit_metadata_dialog.py:99-114 | the step-by-step path computation gives `PlannedPath`: `Artist - Title.ext`, or `Title.ext` without an artist, in the current directory |
| EditMetadata.PlannedPathSameDirectory | src/ui/dialogs/edit_metadata_dialog.py:99-114 | the renamed file stays in its directory |
| EditMetadata.PlannedPathKeepsExtension | src/ui/dialogs/edit_metadata_dialog.py:99-114 | the renamed file keeps its extension |
| EditMetadata.SecondSaveKeepsPath | src/ui/dialogs/edit_metadata_dialog.py:99-118 | when the current path has an extension, and there is an artist or the sanitised title has a non-dot character, saving the same title and artist again plans no rename |
| EditMetadata.EditDialog.constructor | src/ui/dialogs/edit_metadata_dialog.py:12-15 | a new dialog has no new cover and has done nothing |
| EditMetadata.EditDialog.BrowseImage | src/ui/dialogs/edit_metadata_dialog.py:81-85 | a chosen file becomes the new cover; a cancelled choice keeps the old one |
| EditMetadata.EditDialog.RenameTo | src/ui/dialogs/edit_metadata_dialog.py:116-124 | the rename is attempted only when the path differs; a failure warns with the error and keeps the current path |
| EditMetadata.EditDialog.Record | src/ui/dialogs/edit_metadata_dialog.py:126-132 | the row is updated with the final path, `library_updated` is emitted and the dialog accepted |
| EditMetadata.EditDialog.Commit | src/ui/dialogs/edit_metadata_dialog.py:110-132 | the steps after a tag write, as `Committed` states: rename when needed, update the row with the final path and cover, announce, accept |
| EditMetadata.EditDialog.WriteAndRecord | src/ui/dialogs/edit_metadata_dialog.py:99-132 | the tags are written. A failure gives a critical message and nothing else, leaving the dialog's result as it was; success commits towards the planned path |
| EditMetadata.EditDialog.SaveChanges | src/ui/dialogs/edit_metadata_dialog.py:90-132 | the fields are stripped. An empty title warns with no tag write, rename or update, leaving the dialog's result as it was; otherwise `Saved` holds |
| VersionCheck.RunLength | src/ui/expanded_view/settings_tab.py:35 | `[\d\.]+` is greedy: the run covers only version characters and stops at the first other one |
| VersionCheck.MatchAt | src/ui/expanded_view/settings_tab.py:35-37 | the pattern matches at a position exactly when the prefix (any case), a `v`/`V` and a version character are there. The group is the `v` or `V` followed by the maximal run |
| VersionCheck.FirstMatch | src/ui/expanded_view/settings_tab.py:35-37 | `re.search` finds the leftmost position that matches, or reports that none does |
| VersionCheck.ParseVersion | src/ui/expanded_view/settings_tab.py:34-39 | None exactly when neither pattern occurs. `Rebbit-` takes precedence over `Version: `. A result is `v` or `V` followed by at least one digit or dot |
| VersionCheck.ParseVersionLeftmost | src/ui/expanded_view/settings_tab.py:35 | the leftmost `Rebbit-v…` match gives the version |
| VersionCheck.CheckOutcome | src/ui/expanded_view/settings_tab.py:11-32 | an update is reported available exactly when a version was found and differs from the local one, older or not. Each of the five outcomes has its own message: connection error, unexpected error, no version found, up to date, new version |
| Slider.TruncDivBetween | src/ui/components/custom_slider.py:70 | `int()` of a quotient between `lo` and `hi` lies between them |
| Slider.TruncDivMono | src/ui/components/custom_slider.py:70 | `int()` of the quotient is monotone in the numerator |
| Slider.PixelToValueInRange | src/ui/components/custom_slider.py:65-70 | with a positive width, the mapped value lies within `[minimum, maximum]` |
| Slider.PixelToValueEnds | src/ui/components/custom_slider.py:68-70 | left of the slider maps to the minimum, right of it to the maximum |
| Slider.PixelToValueMonotone | src/ui/components/custom_slider.py:68-70 | further right never maps to a smaller value |
| Slider.CustomSlider.constructor | src/ui/components/custom_slider.py:7-9 | a new slider is not dragging |
| Slider.CustomSlider.SetValue | src/ui/components/custom_slider.py:44 | `setValue` clamps into the range |
| Slider.CustomSlider.MousePress | src/ui/components/custom_slider.py:40-47 | a left press starts a drag at the clicked value; any other button changes nothing here |
| Slider.CustomSlider.MouseMove | src/ui/components/custom_slider.py:49-55 | the value follows the cursor only while dragging |
| Slider.CustomSlider.MouseRelease | src/ui/components/custom_slider.py:57-63 | a left release during a drag ends it and emits `seek_request(value)` once; otherwise nothing is emitted |
| Slider.ClickAndDrag | src/ui/components/custom_slider.py:40-61 | press, move and release emit exactly one seek, to the value where the cursor was released |
| LibraryItem.RecordOf | src/ui/components/library_item.py:46-56 | a catalog row has every key the item reads |
| LibraryItem.DisplayTitle | src/ui/components/library_item.py:46 | the title, or "Unknown" only when the key is absent |
| LibraryItem.DisplayArtist | src/ui/components/library_item.py:49 | the artist, or "Unknown Artist" only when the key is absent |
| LibraryItem.CatalogRowsShowOwnText | src/ui/components/library_item.py:46-49 | a catalog row always shows its own title and artist, even empty ones |
| LibraryItem.TwoDigits | src/ui/components/library_item.py:58 | `:02d` of a seconds value gives two digits |
| LibraryItem.DurationLabel | src/ui/components/library_item.py:56-58 | the label is the minutes of `divmod(duration, 60)`, a colon, then the seconds as two digits |
| LibraryItem.MissingDurationLabel | src/ui/components/library_item.py:56-58 | a missing duration shows "0:00" |
| LibraryItem.DurationLabelReadsBack | src/ui/components/library_item.py:56-58 | for a non-negative duration, the label's minutes × 60 plus its seconds give the duration back |
| LibraryItem.LibraryItemWidget.constructor | src/ui/components/library_item.py:11-13 | the row holds its own song record |
| LibraryItem.LibraryItemWidget.OnPlay | src/ui/components/library_item.py:78-79 | `play_clicked` carries the row's own record |
| Events.EventBus.constructor | src/utils/events.py:3-7 | the global bus starts with nothing emitted |
| Events.EventBus.Emit | src/utils/events.py:4-6 | emitting appends the signal to the log |
| Text.LeadingSpaces | src/ui/expanded_view/library_tab.py:103 | counts the whitespace run at the start: every character before the count is whitespace and the one at the count, if any, is not |
| Text.StripLeft | src/ui/expanded_view/library_tab.py:103 | exactly the leading whitespace is removed: the result is a suffix of the input, starts with no whitespace, and everything cut off is whitespace |
| Text.StripRight | src/ui/expanded_view/library_tab.py:103 | exactly the trailing whitespace is removed |
| Text.Strip | src/ui/expanded_view/library_tab.py:103 | `strip()` sits in the input with only whitespace before and after it, and neither starts nor ends with whitespace, so exactly the surrounding whitespace is cut; it is empty exactly when the input is all whitespace |
| Text.StripTrimmed | src/ui/expanded_view/library_tab.py:103 | a text without surrounding whitespace is its own strip |
| Text.StripIdempotent | src/ui/expanded_view/library_tab.py:103 | stripping twice is stripping once |
| Text.LowerChar | src/ui/expanded_view/library_tab.py:103 | `lower()` maps A-Z to a-z and keeps every other character |
| Text.Lower | src/ui/expanded_view/library_tab.py:103 | `lower()` works character by character |
| Text.LowerOfSameUpToCase | src/ui/expanded_view/library_tab.py:103 | texts differing only in case lower to the same text |
| Text.Contains | src/ui/expanded_view/library_tab.py:110-111 | `query in text` holds exactly when the query occurs at some offset |
| Text.Digit | src/ui/components/library_item.py:58 | the decimal digit of a value below ten |
| Text.NatToString | src/ui/components/library_item.py:58 | `f"{n}"`: decimal digits without leading zeros |
| Text.IntToString | src/ui/components/library_item.py:58 | `f"{i}"`: a minus sign before negative values |
| Text.ParseNatToString | src/ui/components/library_item.py:58 | reading a rendered number back gives the number |
| Paths.LastIndexOf | src/ui/dialogs/edit_metadata_dialog.py:100-101 | the last occurrence of a character, or -1 when there is none |
| Paths.StripTrailingSlashes | src/ui/dialogs/edit_metadata_dialog.py:100 | exactly the trailing slashes are removed |
| Paths.Dirname | src/ui/dialogs/edit_metadata_dialog.py:100 | `os.path.dirname`: empty exactly when the path has no `/`; otherwise the part up to the last `/` with its trailing slashes cut, kept whole when it is slashes only. The result is empty, all slashes, or does not end in a slash |
| Paths.ExtensionShape | src/ui/dialogs/edit_metadata_dialog.py:101 | `splitext(p)[1]` is empty or a dot with no further dot or slash, and ends the path |
| Paths.DirnameOfJoin | src/ui/dialogs/edit_metadata_dialog.py:114 | joining any name without `/`, the empty one included, onto a directory and taking `dirname` gives the directory back |
| Paths.JoinEndsWithName | src/ui/dialogs/edit_metadata_dialog.py:114 | the part of a joined path after its last `/` is the file name |
| Paths.ExtensionOfJoin | src/ui/dialogs/edit_metadata_dialog.py:110-114 | a name with a real stem, joined onto a directory, has its extension as the path's extension |

## Left out

- The SQLite machinery is not modelled: connections, cursors, PRAGMA and the `print` on a failed insert. The tables are values, and every method is one atomic statement.
- The `date_added` and `created_at` timestamp columns are left out; nothing in the core reads them.
- `get_playlist_songs` gives no ORDER BY. The model returns the members in song-id order; its contracts state membership only, not order.
- Catalog.PlaylistListing: `get_playlists` groups by `p.id` without ORDER BY, so SQLite chooses the order. The model fixes it to the stored order of the playlists, which is increasing id. The same holds for `Catalog.Database.GetPlaylists` and for the card positions of `PlaylistsTab.Grid` and `PlaylistsTab.PlaylistsView.LoadPlaylists`, which follow the listing.
- Catalog.Database.GetPlaylists: the listing order is the model's choice, as for `Catalog.PlaylistListing`.
- The contents of `rebbit.db` from earlier runs are an input (the constructor's `stored` tables). The file's location and the SQLite file format are not modelled.
- Concurrency is not modelled. The scanner thread runs `Run` as one step. `running` stands for `isRunning()`, and no interleaving with the UI thread is modelled.
- The library page's constructor does not load the library. In the source, `__init__` ends with `load_library`, whose signal reaches `on_library_loaded`; the model leaves that as the separate step `LibraryTab.LibraryTabView.OnLibraryLoaded`.
- Signal dispatch is not modelled. Emitting appends to a log, and the connected handlers are separate methods. For example, the bus does not call `PlaylistsView.LoadPlaylists` by itself on `playlists_updated`.
- The audio backend is reduced to a playing flag, a position and a source. Starting a new source puts the position at 0. `stop()` puts the position at 0. The backend's own clamping of `setPosition` and its asynchronous status changes are not modelled. Volume is left out.
- Playback.Player.LoadQueue: requires `0 <= start < |songs|`. In Python a negative start counts from the end: in the shuffled branch the queue then holds that song twice (n+1 entries), and in the unshuffled branch nothing plays. A start at or past the end, or below `-|songs|`, raises IndexError in the shuffled branch and plays nothing in the unshuffled one. Every caller passes an index of the list it sends, so these paths are not modelled.
- Controller.MainController.HandlePlayRequest: requires an index within `songs`, for the reason given for `LoadQueue`.
- Playback.Player.ToggleShuffle: a current song repeated in the original queue loses all its copies, as in the source. The permutation property is proved only when the queue has no repeated songs, and the turned-off index only up to equal file paths.
- `random.shuffle` is modelled as an arbitrary permutation (`Playback.Shuffle`), not as a random-number generator.
- `str.lower()` folds ASCII letters only, and `\d` matches ASCII digits only. Unicode case folding and Unicode digits are not modelled.
- Slider.PixelToValueInRange: `_pixel_to_value` uses float division. The model computes the exact rational `minimum + span * x / width` and truncates it with `int()`. Float rounding can differ by one at the edges, and that difference is not modelled.
- The base `QSlider` behaviour for a non-left button is not modelled; the model leaves the value and the drag flag as they were. The slider's range and width are fixed fields.
- The directory walk is an input: a sequence of (directory path, file names) in `os.walk` order. The tag reader (`MetadataExtractor.extract`) is a function parameter.
- The tag write (`MetadataEditor.save`) is an input boolean. The error `os.rename` raises is an input (`None` when it succeeds). Replacing an existing target file is not modelled.
- EditMetadata.EditDialog.Record: the result of `update_song_metadata` is discarded, as in the source. A new path already held by another row therefore fails silently and leaves the row as it was.
- EditMetadata.PlannedPathKeepsExtension: requires that the current path has an extension and that the new stem is not made of dots only. Otherwise `splitext` reads the name differently, for example `.mp3` alone has no extension.
- The message boxes are recorded as notices; their titles and modality are not modelled. The input dialogs are `Option<string>` inputs, `None` for Cancel.
- The settings page's network fetch is an input (`VersionCheck.Fetch`). The local version is a parameter, not the `Config` constant.
- PlaylistsTab.PlaylistsView.LoadPlaylistSongs: `current_song_list` is never initialised in the source. The model starts it as the empty list.
- Presentation is not modelled: widgets, style sheets, pixmaps, labels other than those stated, scroll areas and layouts.
- The downloader, the download manager, the queue tab, the search tab, the marquee label, the theme and `main.py` are not part of this model.
