/**
 * The signals that travel between the views: a play request (songs, start
 * index, shuffle) and the application-wide event bus, whose emissions are
 * recorded in order.
 */
module Events {
  import opened Catalog

  /** The arguments of `play_requested(list, int, bool)`. */
  datatype PlayRequest = PlayRequest(songs: seq<Song>, index: int, shuffle: bool)

  /** `library_updated`, `playlists_updated` and `playlist_content_changed(int)`. */
  datatype BusEvent = LibraryUpdated | PlaylistsUpdated | PlaylistContentChanged(playlistId: int)

  /** The global event bus. */
  class EventBus {
    /** Every signal emitted so far, oldest first. */
    var log: seq<BusEvent>

    constructor ()
      ensures log == []
    {
      log := [];
    }

    method Emit(e: BusEvent)
      modifies this
      ensures log == old(log) + [e]
    {
      log := log + [e];
    }
  }
}
