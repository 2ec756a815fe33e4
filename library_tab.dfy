/**
 * The library page (`LibraryTab`): every song of the catalog, narrowed by a
 * search box that matches titles and artists regardless of letter case, and
 * the play requests it sends for the list on show.
 */
module LibraryTab {
  import opened Text
  import opened Seqs
  import opened Catalog
  import opened Events

  /** `text.lower().strip()`. */
  function Query(text: string): string {
    Strip(Lower(text))
  }

  /** The query occurs in the song's lower-cased title or artist. */
  predicate Matches(s: Song, query: string) {
    Contains(Lower(s.title), query) || Contains(Lower(s.artist), query)
  }

  /** The comprehension: the matching songs, in their order. */
  function Matching(songs: seq<Song>, query: string): (r: seq<Song>)
    ensures SubsequenceOf(r, songs)
    ensures forall s :: s in r <==> s in songs && Matches(s, query)
    ensures forall s :: multiset(r)[s] == if Matches(s, query) then multiset(songs)[s] else 0
  {
    if songs == [] then []
    else
      assert songs == [songs[0]] + songs[1..];
      if Matches(songs[0], query) then [songs[0]] + Matching(songs[1..], query)
      else Matching(songs[1..], query)
  }

  /** `filter_library`: an empty query shows the whole library, otherwise the matching songs. */
  function Filter(songs: seq<Song>, text: string): (r: seq<Song>)
    ensures Query(text) == [] ==> r == songs
    ensures Query(text) != [] ==> forall s :: s in r <==> s in songs && Matches(s, Query(text))
    ensures SubsequenceOf(r, songs)
  {
    var q := Query(text);
    if q == [] then
      SubsequenceOfSelf(songs);
      songs
    else Matching(songs, q)
  }

  /** A query of spaces only shows the whole library. */
  lemma BlankQueryShowsAll(songs: seq<Song>, text: string)
    requires forall i :: 0 <= i < |text| ==> IsSpace(text[i])
    ensures Filter(songs, text) == songs
  {
    var l := Lower(text);
    forall i | 0 <= i < |l| ensures IsSpace(l[i]) {
      assert l[i] == LowerChar(text[i]);
    }
  }

  /** The letter case of the query does not change the result. */
  lemma FilterIgnoresCase(songs: seq<Song>, t1: string, t2: string)
    requires SameUpToCase(t1, t2)
    ensures Filter(songs, t1) == Filter(songs, t2)
  {
    LowerOfSameUpToCase(t1, t2);
  }

  /** Every song matching the query is shown, as often as it is in the library. */
  lemma FilterComplete(songs: seq<Song>, text: string, s: Song)
    requires s in songs && Matches(s, Query(text))
    ensures multiset(Filter(songs, text))[s] == multiset(songs)[s]
  {
  }

  /**
   * The message `populate_list` shows instead of rows: none when there are
   * songs to show, otherwise one telling a fruitless search from an empty library.
   */
  function PlaceholderFor(shown: seq<Song>, library: seq<Song>): string {
    if shown != [] then []
    else if library != [] then "No songs found."
    else "Library empty. Go download some!"
  }

  class LibraryTabView {
    var allSongs: seq<Song>
    var currentSongList: seq<Song>
    var searchText: string
    /** The message shown instead of rows, if any. */
    var placeholder: string
    /** The requests sent by `play_requested`, oldest first. */
    var playRequests: seq<PlayRequest>

    constructor ()
      ensures allSongs == [] && currentSongList == [] && searchText == [] && playRequests == []
      ensures placeholder == []
    {
      allSongs, currentSongList, searchText, placeholder, playRequests := [], [], [], [], [];
    }

    /**
     * `populate_list`: the songs on show become the list play requests refer
     * to; with none, a message says whether the search or the library is empty.
     */
    method PopulateList(songs: seq<Song>)
      modifies this
      ensures currentSongList == songs
      ensures placeholder == PlaceholderFor(songs, allSongs)
      ensures allSongs == old(allSongs) && searchText == old(searchText) && playRequests == old(playRequests)
    {
      currentSongList := songs;
      if songs == [] {
        placeholder := if allSongs != [] then "No songs found." else "Library empty. Go download some!";
      } else {
        placeholder := [];
      }
    }

    /** `filter_library(text)`: the search box's text applied to the library. */
    method FilterLibrary(text: string)
      modifies this
      ensures searchText == text
      ensures currentSongList == Filter(allSongs, text)
      ensures placeholder == PlaceholderFor(currentSongList, allSongs)
      ensures allSongs == old(allSongs) && playRequests == old(playRequests)
    {
      searchText := text;
      PopulateList(Filter(allSongs, text));
    }

    /** `on_library_loaded`: a new library, filtered by the text already in the search box. */
    method OnLibraryLoaded(songs: seq<Song>)
      modifies this
      ensures allSongs == songs && searchText == old(searchText)
      ensures currentSongList == Filter(songs, searchText)
      ensures placeholder == PlaceholderFor(currentSongList, songs)
      ensures playRequests == old(playRequests)
    {
      allSongs := songs;
      FilterLibrary(searchText);
    }

    /** `on_item_play(i)`: play the list on show from row `i`, unshuffled. */
    method OnItemPlay(index: int)
      modifies this
      ensures playRequests == old(playRequests) + [PlayRequest(currentSongList, index, false)]
      ensures allSongs == old(allSongs) && currentSongList == old(currentSongList) && searchText == old(searchText)
      ensures placeholder == old(placeholder)
    {
      playRequests := playRequests + [PlayRequest(currentSongList, index, false)];
    }

    /** `play_all`: the list on show from the top, if it is not empty. */
    method PlayAll()
      modifies this
      ensures currentSongList != [] ==> playRequests == old(playRequests) + [PlayRequest(currentSongList, 0, false)]
      ensures currentSongList == [] ==> playRequests == old(playRequests)
      ensures allSongs == old(allSongs) && currentSongList == old(currentSongList) && searchText == old(searchText)
      ensures placeholder == old(placeholder)
    {
      if currentSongList != [] {
        playRequests := playRequests + [PlayRequest(currentSongList, 0, false)];
      }
    }

    /** `shuffle_all`: the list on show, shuffled, if it is not empty. */
    method ShuffleAll()
      modifies this
      ensures currentSongList != [] ==> playRequests == old(playRequests) + [PlayRequest(currentSongList, 0, true)]
      ensures currentSongList == [] ==> playRequests == old(playRequests)
      ensures allSongs == old(allSongs) && currentSongList == old(currentSongList) && searchText == old(searchText)
      ensures placeholder == old(placeholder)
    {
      if currentSongList != [] {
        playRequests := playRequests + [PlayRequest(currentSongList, 0, true)];
      }
    }
  }
}
