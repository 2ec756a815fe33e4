/**
 * The catalog store: the three SQLite tables `songs`, `playlists` and
 * `playlist_songs` with the constraints their schema declares (UNIQUE
 * filepath, UNIQUE name, the composite primary key of a membership,
 * foreign keys with ON DELETE CASCADE, AUTOINCREMENT ids).
 *
 * The tables are modelled twice: as a value `Db` with one pure function per
 * statement the store runs (the specification, about which the lemmas are
 * proved), and as the class `Database`, whose methods update its fields in
 * place and are proved to agree with those functions.
 */
module Catalog {
  import opened Wrappers

  /** A row of `songs`, as `dict(row)` hands it to callers (date_added left out). */
  datatype Song = Song(
    id: int, title: string, artist: string, album: string,
    filepath: string, coverPath: Option<string>, duration: int)

  /** The record `add_song` inserts: a song without its id. */
  datatype SongMeta = SongMeta(
    title: string, artist: string, album: string,
    filepath: string, coverPath: Option<string>, duration: int)

  /** A row of `playlists` (created_at left out). */
  datatype Playlist = Playlist(id: int, name: string)

  /** A row of the `get_playlists` query. */
  datatype PlaylistInfo = PlaylistInfo(id: int, name: string, songCount: nat)

  /**
   * The database: both entity tables in rowid order, the membership table as
   * a set of (playlist id, song id) pairs, and the next AUTOINCREMENT ids.
   */
  datatype Db = Db(
    songs: seq<Song>, playlists: seq<Playlist>, members: set<(int, int)>,
    nextSongId: int, nextPlaylistId: int)

  const Empty := Db([], [], {}, 1, 1)

  // ---------------------------------------------------------------------
  // Lookups

  predicate HasPath(songs: seq<Song>, path: string) {
    exists i :: 0 <= i < |songs| && songs[i].filepath == path
  }

  predicate HasSongId(songs: seq<Song>, id: int) {
    exists i :: 0 <= i < |songs| && songs[i].id == id
  }

  predicate HasPlaylist(playlists: seq<Playlist>, id: int) {
    exists i :: 0 <= i < |playlists| && playlists[i].id == id
  }

  predicate HasName(playlists: seq<Playlist>, name: string) {
    exists i :: 0 <= i < |playlists| && playlists[i].name == name
  }

  /** `SELECT ... FROM songs WHERE filepath = ?`: the first row with that path. */
  function FindSong(songs: seq<Song>, path: string): (r: Option<Song>)
    ensures r.None? <==> !HasPath(songs, path)
    ensures r.Some? ==> r.value in songs && r.value.filepath == path
  {
    if songs == [] then None
    else if songs[0].filepath == path then Some(songs[0])
    else
      var r := FindSong(songs[1..], path);
      assert HasPath(songs, path) ==> HasPath(songs[1..], path) by {
        if HasPath(songs, path) {
          var i :| 0 <= i < |songs| && songs[i].filepath == path;
          assert songs[1..][i - 1].filepath == path;
        }
      }
      r
  }

  // ---------------------------------------------------------------------
  // The schema's constraints

  predicate IdsIncreasing(playlists: seq<Playlist>) {
    forall i, j :: 0 <= i < j < |playlists| ==> playlists[i].id < playlists[j].id
  }

  /** The UNIQUE constraint on `playlists.name`. */
  predicate NamesDistinct(playlists: seq<Playlist>) {
    forall i, j :: 0 <= i < j < |playlists| ==> playlists[i].name != playlists[j].name
  }

  /** What the schema guarantees of every state the store can reach. */
  predicate Consistent(db: Db) {
    && db.nextSongId >= 1 && db.nextPlaylistId >= 1
    && (forall i :: 0 <= i < |db.songs| ==> 1 <= db.songs[i].id < db.nextSongId)
    && (forall i, j :: 0 <= i < j < |db.songs| ==> db.songs[i].id < db.songs[j].id)
    && (forall i, j :: 0 <= i < j < |db.songs| ==> db.songs[i].filepath != db.songs[j].filepath)
    && (forall i :: 0 <= i < |db.playlists| ==> 1 <= db.playlists[i].id < db.nextPlaylistId)
    && IdsIncreasing(db.playlists)
    && NamesDistinct(db.playlists)
    && (forall m :: m in db.members ==> HasPlaylist(db.playlists, m.0) && HasSongId(db.songs, m.1))
  }

  lemma EmptyConsistent()
    ensures Consistent(Empty)
  {
  }

  // ---------------------------------------------------------------------
  // Songs

  function RowOf(id: int, m: SongMeta): Song {
    Song(id, m.title, m.artist, m.album, m.filepath, m.coverPath, m.duration)
  }

  /**
   * `INSERT OR IGNORE INTO songs`: a new row with the next id when no row
   * has the path; otherwise the UNIQUE constraint makes it a no-op.
   */
  function InsertSong(db: Db, m: SongMeta): (r: Db)
    ensures Consistent(db) ==> Consistent(r)
    ensures HasPath(r.songs, m.filepath)
    ensures HasPath(db.songs, m.filepath) ==> r == db
    ensures !HasPath(db.songs, m.filepath) ==>
      && r.songs == db.songs + [RowOf(db.nextSongId, m)]
      && r.nextSongId == db.nextSongId + 1
    ensures r.playlists == db.playlists && r.members == db.members
    ensures r.nextPlaylistId == db.nextPlaylistId
  {
    if HasPath(db.songs, m.filepath) then db
    else
      var r := db.(songs := db.songs + [RowOf(db.nextSongId, m)], nextSongId := db.nextSongId + 1);
      assert HasPath(r.songs, m.filepath) by { assert r.songs[|db.songs|].filepath == m.filepath; }
      assert forall id :: HasSongId(db.songs, id) ==> HasSongId(r.songs, id) by {
        forall id | HasSongId(db.songs, id) ensures HasSongId(r.songs, id) {
          var i :| 0 <= i < |db.songs| && db.songs[i].id == id;
          assert r.songs[i].id == id;
        }
      }
      r
  }

  /** Inserting the same record twice leaves what inserting it once left. */
  lemma InsertSongIdempotent(db: Db, m: SongMeta)
    ensures InsertSong(InsertSong(db, m), m) == InsertSong(db, m)
  {
  }

  /** The number of rows with path `path`. */
  function PathCount(songs: seq<Song>, path: string): nat {
    if songs == [] then 0
    else (if songs[0].filepath == path then 1 else 0) + PathCount(songs[1..], path)
  }

  lemma {:induction false} PathCountUnique(songs: seq<Song>, path: string)
    requires forall i, j :: 0 <= i < j < |songs| ==> songs[i].filepath != songs[j].filepath
    ensures PathCount(songs, path) == if HasPath(songs, path) then 1 else 0
  {
    if songs != [] {
      var t := songs[1..];
      PathCountUnique(t, path);
      if songs[0].filepath == path {
        forall i | 0 <= i < |t| ensures t[i].filepath != path {
          assert songs[0].filepath != songs[i + 1].filepath;
        }
      } else {
        assert HasPath(songs, path) ==> HasPath(t, path) by {
          if HasPath(songs, path) {
            var i :| 0 <= i < |songs| && songs[i].filepath == path;
            assert t[i - 1].filepath == path;
          }
        }
      }
      assert HasPath(t, path) ==> HasPath(songs, path) by {
        if HasPath(t, path) {
          var i :| 0 <= i < |t| && t[i].filepath == path;
          assert songs[i + 1].filepath == path;
        }
      }
    }
  }

  /** After `add_song`, whether or not it inserted, exactly one row has the path. */
  lemma InsertLeavesOneRow(db: Db, m: SongMeta)
    requires Consistent(db)
    ensures PathCount(InsertSong(db, m).songs, m.filepath) == 1
  {
    PathCountUnique(InsertSong(db, m).songs, m.filepath);
  }

  /** SQLite's BINARY collation on text: code point by code point, a prefix first. */
  predicate TitleLe(a: string, b: string) {
    a == [] || (b != [] && (a[0] < b[0] || (a[0] == b[0] && TitleLe(a[1..], b[1..]))))
  }

  lemma {:induction false} TitleLeTotal(a: string, b: string)
    ensures TitleLe(a, b) || TitleLe(b, a)
  {
    if a != [] && b != [] && a[0] == b[0] {
      TitleLeTotal(a[1..], b[1..]);
    }
  }

  lemma {:induction false} TitleLeTransitive(a: string, b: string, c: string)
    requires TitleLe(a, b) && TitleLe(b, c)
    ensures TitleLe(a, c)
  {
    if a != [] && b != [] && c != [] && a[0] == b[0] == c[0] {
      TitleLeTransitive(a[1..], b[1..], c[1..]);
    }
  }

  predicate SortedByTitle(s: seq<Song>) {
    forall i, j :: 0 <= i < j < |s| ==> TitleLe(s[i].title, s[j].title)
  }

  /** A row whose title precedes every title of a sorted listing can go in front of it. */
  lemma PrependSorted(y: Song, t: seq<Song>)
    requires SortedByTitle(t) && forall k :: 0 <= k < |t| ==> TitleLe(y.title, t[k].title)
    ensures SortedByTitle([y] + t)
  {
    var r := [y] + t;
    forall i, j | 0 <= i < j < |r| ensures TitleLe(r[i].title, r[j].title) {
      assert r[j] == t[j - 1];
      if i > 0 { assert r[i] == t[i - 1]; }
    }
  }

  /** A lower bound on `x` and on the rows of `s` bounds every row of a rearrangement of them. */
  lemma BoundOfRearranged(y: Song, x: Song, s: seq<Song>, t: seq<Song>)
    requires multiset(t) == multiset(s) + multiset{x}
    requires TitleLe(y.title, x.title) && forall k :: 0 <= k < |s| ==> TitleLe(y.title, s[k].title)
    ensures forall k :: 0 <= k < |t| ==> TitleLe(y.title, t[k].title)
  {
    forall k | 0 <= k < |t| ensures TitleLe(y.title, t[k].title) {
      assert t[k] in multiset(t);
      if t[k] != x {
        assert t[k] in multiset(s);
        var i :| 0 <= i < |s| && s[i] == t[k];
      }
    }
  }

  /** Places `x` before the first row whose title does not precede it. */
  function InsertByTitle(x: Song, s: seq<Song>): (r: seq<Song>)
    requires SortedByTitle(s)
    ensures SortedByTitle(r)
    ensures multiset(r) == multiset(s) + multiset{x}
  {
    if s == [] then [x]
    else if TitleLe(x.title, s[0].title) then
      assert forall j :: 0 <= j < |s| ==> TitleLe(x.title, s[j].title) by {
        forall j | 0 < j < |s| ensures TitleLe(x.title, s[j].title) {
          TitleLeTransitive(x.title, s[0].title, s[j].title);
        }
      }
      PrependSorted(x, s);
      [x] + s
    else
      TitleLeTotal(x.title, s[0].title);
      var t := InsertByTitle(x, s[1..]);
      BoundOfRearranged(s[0], x, s[1..], t);
      PrependSorted(s[0], t);
      assert s == [s[0]] + s[1..];
      [s[0]] + t
  }

  /** `ORDER BY title ASC`: the rows, sorted by title. */
  function SortByTitle(s: seq<Song>): (r: seq<Song>)
    ensures SortedByTitle(r)
    ensures multiset(r) == multiset(s)
  {
    if s == [] then []
    else
      assert s == [s[0]] + s[1..];
      InsertByTitle(s[0], SortByTitle(s[1..]))
  }

  /**
   * `get_all_songs`: every row exactly once, in non-decreasing title order
   * (SQL leaves the order of equal titles open; this is one of them).
   */
  function AllSongs(db: Db): (r: seq<Song>)
    ensures SortedByTitle(r)
    ensures multiset(r) == multiset(db.songs)
  {
    SortByTitle(db.songs)
  }

  /** In a listing with strictly increasing ids every row occurs once. */
  lemma IncreasingIdsOnce(songs: seq<Song>, i: int)
    requires 0 <= i < |songs|
    requires forall a, b :: 0 <= a < b < |songs| ==> songs[a].id < songs[b].id
    ensures multiset(songs)[songs[i]] == 1
  {
    var s := songs[i];
    var pre, post := songs[..i], songs[i + 1..];
    assert songs == pre + [s] + post;
    assert s !in pre by {
      forall k | 0 <= k < |pre| ensures pre[k].id < s.id {
        assert pre[k] == songs[k];
      }
    }
    assert s !in post by {
      forall k | 0 <= k < |post| ensures s.id < post[k].id {
        assert post[k] == songs[i + 1 + k];
      }
    }
    assert multiset(songs) == multiset(pre) + multiset{s} + multiset(post);
  }

  /** In a consistent store the song listing holds each row once. */
  lemma AllSongsOnce(db: Db, s: Song)
    requires Consistent(db) && s in db.songs
    ensures multiset(AllSongs(db))[s] == 1
  {
    var i :| 0 <= i < |db.songs| && db.songs[i] == s;
    IncreasingIdsOnce(db.songs, i);
  }

  /** `new_filepath` is truthy: a non-empty string. */
  predicate MovesPath(newPath: Option<string>) {
    newPath.Some? && newPath.value != ""
  }

  /** Another row than `id` already has the path `path`. */
  predicate PathHeldByOther(songs: seq<Song>, id: int, path: string) {
    exists i :: 0 <= i < |songs| && songs[i].id != id && songs[i].filepath == path
  }

  /** The rows with row `id` rewritten as the UPDATE's SET clause says. */
  function Retagged(songs: seq<Song>, id: int, title: string, artist: string, album: string,
                    cover: Option<string>, newPath: Option<string>): (r: seq<Song>)
    ensures |r| == |songs|
    ensures forall i :: 0 <= i < |songs| && songs[i].id != id ==> r[i] == songs[i]
    ensures forall i :: 0 <= i < |songs| && songs[i].id == id ==>
      r[i] == Song(id, title, artist, album,
                   if MovesPath(newPath) then newPath.value else songs[i].filepath,
                   cover, songs[i].duration)
  {
    seq(|songs|, i requires 0 <= i < |songs| =>
      if songs[i].id == id then
        Song(id, title, artist, album,
             if MovesPath(newPath) then newPath.value else songs[i].filepath,
             cover, songs[i].duration)
      else songs[i])
  }

  lemma RetaggedConsistent(db: Db, id: int, title: string, artist: string, album: string,
                           cover: Option<string>, newPath: Option<string>)
    requires Consistent(db)
    requires MovesPath(newPath) ==> !PathHeldByOther(db.songs, id, newPath.value)
    ensures Consistent(db.(songs := Retagged(db.songs, id, title, artist, album, cover, newPath)))
  {
    var r := db.(songs := Retagged(db.songs, id, title, artist, album, cover, newPath));
    forall k | HasSongId(db.songs, k) ensures HasSongId(r.songs, k) {
      var i :| 0 <= i < |db.songs| && db.songs[i].id == k;
      assert r.songs[i].id == k;
    }
    forall i, j | 0 <= i < j < |r.songs| ensures r.songs[i].filepath != r.songs[j].filepath {
      assert db.songs[i].id != db.songs[j].id;
    }
  }

  /**
   * `update_song_metadata`: rewrites the row `id`; its path changes only
   * when `newPath` is a non-empty string. A path held by another row makes
   * the UPDATE fail with an integrity error, reported as false.
   */
  function UpdateSong(db: Db, id: int, title: string, artist: string, album: string,
                      cover: Option<string>, newPath: Option<string>): (r: (bool, Db))
    requires Consistent(db)
    ensures Consistent(r.1)
    ensures !r.0 <==> MovesPath(newPath) && HasSongId(db.songs, id) && PathHeldByOther(db.songs, id, newPath.value)
    ensures !r.0 ==> r.1 == db
    ensures r.0 ==> r.1 == db.(songs := Retagged(db.songs, id, title, artist, album, cover, newPath))
    ensures !HasSongId(db.songs, id) ==> r.1.songs == db.songs
  {
    if MovesPath(newPath) && HasSongId(db.songs, id) && PathHeldByOther(db.songs, id, newPath.value) then
      (false, db)
    else
      RetaggedConsistentOrUnknown(db, id, title, artist, album, cover, newPath);
      (true, db.(songs := Retagged(db.songs, id, title, artist, album, cover, newPath)))
  }

  lemma RetaggedConsistentOrUnknown(db: Db, id: int, title: string, artist: string, album: string,
                                    cover: Option<string>, newPath: Option<string>)
    requires Consistent(db)
    requires !(MovesPath(newPath) && HasSongId(db.songs, id) && PathHeldByOther(db.songs, id, newPath.value))
    ensures Consistent(db.(songs := Retagged(db.songs, id, title, artist, album, cover, newPath)))
    ensures !HasSongId(db.songs, id) ==> Retagged(db.songs, id, title, artist, album, cover, newPath) == db.songs
  {
    if HasSongId(db.songs, id) {
      RetaggedConsistent(db, id, title, artist, album, cover, newPath);
    } else {
      assert Retagged(db.songs, id, title, artist, album, cover, newPath) == db.songs;
    }
  }

  // ---------------------------------------------------------------------
  // Playlists

  /** `INSERT INTO playlists (name)`: refused (false) when the name is taken. */
  function InsertPlaylist(db: Db, name: string): (r: (bool, Db))
    ensures Consistent(db) ==> Consistent(r.1)
    ensures r.0 <==> !HasName(db.playlists, name)
    ensures !r.0 ==> r.1 == db
    ensures r.0 ==> (r.1.playlists == db.playlists + [Playlist(db.nextPlaylistId, name)]
                     && r.1.nextPlaylistId == db.nextPlaylistId + 1)
    ensures r.1.songs == db.songs && r.1.members == db.members && r.1.nextSongId == db.nextSongId
    ensures HasName(r.1.playlists, name)
  {
    if HasName(db.playlists, name) then (false, db)
    else
      var r := db.(playlists := db.playlists + [Playlist(db.nextPlaylistId, name)],
                   nextPlaylistId := db.nextPlaylistId + 1);
      assert r.playlists[|db.playlists|].name == name;
      assert forall k :: HasPlaylist(db.playlists, k) ==> HasPlaylist(r.playlists, k) by {
        forall k | HasPlaylist(db.playlists, k) ensures HasPlaylist(r.playlists, k) {
          var i :| 0 <= i < |db.playlists| && db.playlists[i].id == k;
          assert r.playlists[i].id == k;
        }
      }
      (true, r)
  }

  /** Creating the same name twice: the second call fails and changes nothing. */
  lemma CreateTwice(db: Db, name: string)
    ensures var (ok1, db1) := InsertPlaylist(db, name);
            var (ok2, db2) := InsertPlaylist(db1, name);
            !ok2 && db2 == db1
  {
  }

  /** The number of playlists named `name`. */
  function NameCount(playlists: seq<Playlist>, name: string): nat {
    if playlists == [] then 0
    else (if playlists[0].name == name then 1 else 0) + NameCount(playlists[1..], name)
  }

  lemma {:induction false} NameCountUnique(playlists: seq<Playlist>, name: string)
    requires NamesDistinct(playlists)
    ensures NameCount(playlists, name) == if HasName(playlists, name) then 1 else 0
  {
    if playlists != [] {
      var t := playlists[1..];
      NameCountUnique(t, name);
      assert HasName(t, name) ==> HasName(playlists, name) by {
        if HasName(t, name) {
          var i :| 0 <= i < |t| && t[i].name == name;
          assert playlists[i + 1].name == name;
        }
      }
      if playlists[0].name == name {
        forall i | 0 <= i < |t| ensures t[i].name != name {
          assert playlists[0].name != playlists[i + 1].name;
        }
      } else {
        assert HasName(playlists, name) ==> HasName(t, name) by {
          if HasName(playlists, name) {
            var i :| 0 <= i < |playlists| && playlists[i].name == name;
            assert t[i - 1].name == name;
          }
        }
      }
    }
  }

  /** After a create, whatever its result, exactly one playlist has the name. */
  lemma CreateLeavesOneNamed(db: Db, name: string)
    requires Consistent(db)
    ensures NameCount(InsertPlaylist(db, name).1.playlists, name) == 1
  {
    NameCountUnique(InsertPlaylist(db, name).1.playlists, name);
  }

  /** Another playlist than `id` is called `name`. */
  predicate NameHeldByOther(playlists: seq<Playlist>, id: int, name: string) {
    exists i :: 0 <= i < |playlists| && playlists[i].id != id && playlists[i].name == name
  }

  /** The rows with the name of row `id` replaced. */
  function Renamed(playlists: seq<Playlist>, id: int, name: string): (r: seq<Playlist>)
    ensures |r| == |playlists|
    ensures forall i :: 0 <= i < |playlists| ==>
      r[i] == if playlists[i].id == id then Playlist(id, name) else playlists[i]
  {
    seq(|playlists|, i requires 0 <= i < |playlists| =>
      if playlists[i].id == id then Playlist(id, name) else playlists[i])
  }

  /**
   * `UPDATE playlists SET name = ? WHERE id = ?`: fails (false) only when the
   * row exists and another playlist holds the name; renaming to the same
   * name or an unknown id succeeds.
   */
  function UpdatePlaylistName(db: Db, id: int, name: string): (r: (bool, Db))
    ensures Consistent(db) ==> Consistent(r.1)
    ensures !r.0 <==> HasPlaylist(db.playlists, id) && NameHeldByOther(db.playlists, id, name)
    ensures !r.0 ==> r.1 == db
    ensures !HasPlaylist(db.playlists, id) ==> r == (true, db)
    ensures r.0 ==> r.1 == db.(playlists := Renamed(db.playlists, id, name))
  {
    if HasPlaylist(db.playlists, id) && NameHeldByOther(db.playlists, id, name) then (false, db)
    else
      var r := db.(playlists := Renamed(db.playlists, id, name));
      assert !HasPlaylist(db.playlists, id) ==> r.playlists == db.playlists;
      assert forall k :: HasPlaylist(db.playlists, k) ==> HasPlaylist(r.playlists, k) by {
        forall k | HasPlaylist(db.playlists, k) ensures HasPlaylist(r.playlists, k) {
          var i :| 0 <= i < |db.playlists| && db.playlists[i].id == k;
          assert r.playlists[i].id == k;
        }
      }
      (true, r)
  }

  /** The rows of `playlists` other than `id`, in order. */
  function Without(playlists: seq<Playlist>, id: int): (r: seq<Playlist>)
    ensures forall p :: p in r <==> p in playlists && p.id != id
    ensures |r| <= |playlists|
  {
    if playlists == [] then []
    else if playlists[0].id == id then Without(playlists[1..], id)
    else [playlists[0]] + Without(playlists[1..], id)
  }

  /** In an increasing listing the first id is below every later one. */
  lemma HeadBelowRest(playlists: seq<Playlist>)
    requires IdsIncreasing(playlists) && playlists != []
    ensures forall p :: p in playlists[1..] ==> playlists[0].id < p.id
  {
    forall p | p in playlists[1..] ensures playlists[0].id < p.id {
      var k :| 0 <= k < |playlists[1..]| && playlists[1..][k] == p;
      assert playlists[k + 1] == p;
    }
  }

  /** A row below every row of an increasing listing can go in front of it. */
  lemma PrependIncreasing(h: Playlist, w: seq<Playlist>)
    requires IdsIncreasing(w) && forall p :: p in w ==> h.id < p.id
    ensures IdsIncreasing([h] + w)
  {
    var r := [h] + w;
    forall i, j | 0 <= i < j < |r| ensures r[i].id < r[j].id {
      assert r[j] == w[j - 1];
      if i > 0 {
        assert r[i] == w[i - 1];
      } else {
        assert w[j - 1] in w;
      }
    }
  }

  lemma {:induction false} WithoutKeepsOrder(playlists: seq<Playlist>, id: int)
    requires IdsIncreasing(playlists)
    ensures IdsIncreasing(Without(playlists, id))
  {
    if playlists != [] {
      var w := Without(playlists[1..], id);
      WithoutKeepsOrder(playlists[1..], id);
      if playlists[0].id != id {
        HeadBelowRest(playlists);
        PrependIncreasing(playlists[0], w);
        assert Without(playlists, id) == [playlists[0]] + w;
      }
    }
  }

  lemma {:induction false} WithoutKeepsNamesUnique(playlists: seq<Playlist>, id: int)
    requires NamesDistinct(playlists)
    ensures NamesDistinct(Without(playlists, id))
  {
    if playlists != [] {
      var w := Without(playlists[1..], id);
      WithoutKeepsNamesUnique(playlists[1..], id);
      if playlists[0].id != id {
        var r := [playlists[0]] + w;
        assert forall p :: p in playlists[1..] ==> playlists[0].name != p.name;
        forall i, j | 0 <= i < j < |r| ensures r[i].name != r[j].name {
          assert r[j] == w[j - 1] && w[j - 1] in w;
          if i > 0 {
            assert r[i] == w[i - 1];
          } else {
            assert r[j] in playlists[1..];
          }
        }
        assert Without(playlists, id) == r;
      } else {
        assert Without(playlists, id) == w;
      }
    }
  }

  /**
   * `DELETE FROM playlists WHERE id = ?` with ON DELETE CASCADE: the row and
   * every membership of it go; nothing else changes.
   */
  function DeletePlaylistCascade(db: Db, id: int): (r: Db)
    ensures Consistent(db) ==> Consistent(r)
    ensures !HasPlaylist(r.playlists, id)
    ensures forall p :: p in r.playlists <==> p in db.playlists && p.id != id
    ensures forall m :: m in r.members <==> m in db.members && m.0 != id
    ensures r.songs == db.songs
    ensures r.nextSongId == db.nextSongId && r.nextPlaylistId == db.nextPlaylistId
  {
    var r := db.(playlists := Without(db.playlists, id),
                 members := set m | m in db.members && m.0 != id);
    DeleteKeepsConsistent(db, id, r);
    assert !HasPlaylist(r.playlists, id) by {
      forall i | 0 <= i < |r.playlists| ensures r.playlists[i].id != id {
        assert r.playlists[i] in r.playlists;
      }
    }
    r
  }

  /** Removing the rows of `id` keeps every other playlist id. */
  lemma WithoutKeepsOthers(playlists: seq<Playlist>, id: int, k: int)
    requires HasPlaylist(playlists, k) && k != id
    ensures HasPlaylist(Without(playlists, id), k)
  {
    var i :| 0 <= i < |playlists| && playlists[i].id == k;
    var w := Without(playlists, id);
    assert playlists[i] in w;
    var j :| 0 <= j < |w| && w[j] == playlists[i];
  }

  lemma DeleteKeepsConsistent(db: Db, id: int, r: Db)
    requires r == db.(playlists := Without(db.playlists, id),
                      members := set m | m in db.members && m.0 != id)
    ensures Consistent(db) ==> Consistent(r)
  {
    if Consistent(db) {
      WithoutKeepsOrder(db.playlists, id);
      WithoutKeepsNamesUnique(db.playlists, id);
      forall m | m in r.members ensures HasPlaylist(r.playlists, m.0) {
        WithoutKeepsOthers(db.playlists, id, m.0);
      }
      assert forall i :: 0 <= i < |r.playlists| ==> r.playlists[i] in db.playlists;
    }
  }

  /** Membership pairs are a set: what `members` holds for one playlist. */
  function MemberIds(db: Db, playlistId: int): set<int> {
    set m | m in db.members && m.0 == playlistId :: m.1
  }

  /**
   * `add_to_playlist`: resolves the path to a song id and inserts the pair;
   * an unknown path, an unknown playlist (foreign key) or an existing pair
   * (primary key) leaves the store as it was.
   */
  function InsertMember(db: Db, playlistId: int, path: string): (r: Db)
    ensures Consistent(db) ==> Consistent(r)
    ensures !HasPath(db.songs, path) || !HasPlaylist(db.playlists, playlistId) ==> r == db
    ensures HasPath(db.songs, path) && HasPlaylist(db.playlists, playlistId) ==>
      r == db.(members := db.members + {(playlistId, FindSong(db.songs, path).value.id)})
    ensures r.songs == db.songs && r.playlists == db.playlists
    ensures r.nextSongId == db.nextSongId && r.nextPlaylistId == db.nextPlaylistId
  {
    match FindSong(db.songs, path)
    case None => db
    case Some(s) =>
      if !HasPlaylist(db.playlists, playlistId) then db
      else
        assert HasSongId(db.songs, s.id) by {
          var i :| 0 <= i < |db.songs| && db.songs[i] == s;
        }
        db.(members := db.members + {(playlistId, s.id)})
  }

  /** Adding the same song to the same playlist twice leaves one membership. */
  lemma InsertMemberIdempotent(db: Db, playlistId: int, path: string)
    ensures InsertMember(InsertMember(db, playlistId, path), playlistId, path)
         == InsertMember(db, playlistId, path)
  {
  }

  /**
   * `remove_from_playlist`: deletes just the pair for the song with that
   * path; an unknown path changes nothing.
   */
  function DeleteMember(db: Db, playlistId: int, path: string): (r: Db)
    ensures Consistent(db) ==> Consistent(r)
    ensures !HasPath(db.songs, path) ==> r == db
    ensures HasPath(db.songs, path) ==>
      r == db.(members := db.members - {(playlistId, FindSong(db.songs, path).value.id)})
  {
    match FindSong(db.songs, path)
    case None => db
    case Some(s) => db.(members := db.members - {(playlistId, s.id)})
  }

  /** Removing right after adding undoes the add, when the pair was new. */
  lemma RemoveUndoesAdd(db: Db, playlistId: int, path: string)
    requires HasPath(db.songs, path)
    requires (playlistId, FindSong(db.songs, path).value.id) !in db.members
    ensures DeleteMember(InsertMember(db, playlistId, path), playlistId, path) == db
  {
    var id := FindSong(db.songs, path).value.id;
    if HasPlaylist(db.playlists, playlistId) {
      assert db.members + {(playlistId, id)} - {(playlistId, id)} == db.members;
    } else {
      assert db.members - {(playlistId, id)} == db.members;
    }
  }

  /**
   * `get_playlist_songs`: the member songs of a playlist, in song-id order
   * (the join's order is left open by SQL; this is one of them).
   */
  function PlaylistSongs(db: Db, playlistId: int): (r: seq<Song>)
    ensures forall s :: s in r <==> s in db.songs && (playlistId, s.id) in db.members
    ensures |r| <= |db.songs|
  {
    SongsIn(db.songs, db.members, playlistId)
  }

  function SongsIn(songs: seq<Song>, members: set<(int, int)>, playlistId: int): (r: seq<Song>)
    ensures forall s :: s in r <==> s in songs && (playlistId, s.id) in members
    ensures r == [] <==> forall s :: s in songs ==> (playlistId, s.id) !in members
    ensures |r| <= |songs|
  {
    if songs == [] then []
    else
      var rest := SongsIn(songs[1..], members, playlistId);
      if (playlistId, songs[0].id) in members then [songs[0]] + rest else rest
  }

  /** A playlist that does not exist has no songs. */
  lemma UnknownPlaylistEmpty(db: Db, playlistId: int)
    requires Consistent(db) && !HasPlaylist(db.playlists, playlistId)
    ensures PlaylistSongs(db, playlistId) == []
  {
    assert forall m :: m in db.members ==> m.0 != playlistId;
  }

  /** After deleting a playlist it has no songs and no membership names it. */
  lemma DeleteThenNoSongs(db: Db, id: int)
    requires Consistent(db)
    ensures PlaylistSongs(DeletePlaylistCascade(db, id), id) == []
    ensures forall m :: m in DeletePlaylistCascade(db, id).members ==> m.0 != id
  {
    UnknownPlaylistEmpty(DeletePlaylistCascade(db, id), id);
  }

  /**
   * `get_playlists`: each playlist once, in id order, with the number of its
   * membership pairs (0 for an empty one, by the LEFT JOIN).
   */
  function PlaylistListing(db: Db): (r: seq<PlaylistInfo>)
    ensures |r| == |db.playlists|
    ensures forall i :: 0 <= i < |r| ==>
      r[i] == PlaylistInfo(db.playlists[i].id, db.playlists[i].name, |MemberIds(db, db.playlists[i].id)|)
  {
    seq(|db.playlists|, i requires 0 <= i < |db.playlists| =>
      PlaylistInfo(db.playlists[i].id, db.playlists[i].name, |MemberIds(db, db.playlists[i].id)|))
  }

  /** Adding a song that was not yet a member raises the playlist's count by one. */
  lemma AddRaisesCount(db: Db, playlistId: int, path: string)
    requires HasPath(db.songs, path) && HasPlaylist(db.playlists, playlistId)
    requires (playlistId, FindSong(db.songs, path).value.id) !in db.members
    ensures |MemberIds(InsertMember(db, playlistId, path), playlistId)| == |MemberIds(db, playlistId)| + 1
  {
    var id := FindSong(db.songs, path).value.id;
    assert MemberIds(InsertMember(db, playlistId, path), playlistId) == MemberIds(db, playlistId) + {id};
    assert id !in MemberIds(db, playlistId);
  }

  // ---------------------------------------------------------------------
  // The store as an object whose tables change in place

  class Database {
    var songs: seq<Song>
    var playlists: seq<Playlist>
    var members: set<(int, int)>
    var nextSongId: int
    var nextPlaylistId: int

    /** The tables as a value. */
    function Snapshot(): Db
      reads this
    {
      Db(songs, playlists, members, nextSongId, nextPlaylistId)
    }

    predicate Valid()
      reads this
    {
      Consistent(Snapshot())
    }

    /**
     * Opening `rebbit.db`: `CREATE TABLE IF NOT EXISTS` keeps whatever the
     * file already holds, so the store starts from the stored tables, with
     * AUTOINCREMENT continuing from them. On the first run `stored` is
     * `Empty` (see `EmptyConsistent`).
     */
    constructor (stored: Db)
      requires Consistent(stored)
      ensures Valid() && Snapshot() == stored
    {
      songs, playlists, members := stored.songs, stored.playlists, stored.members;
      nextSongId, nextPlaylistId := stored.nextSongId, stored.nextPlaylistId;
    }

    method AddSong(m: SongMeta)
      requires Valid()
      modifies this
      ensures Valid() && Snapshot() == InsertSong(old(Snapshot()), m)
    {
      if !HasPath(songs, m.filepath) {
        songs := songs + [RowOf(nextSongId, m)];
        nextSongId := nextSongId + 1;
      }
      assert Snapshot() == InsertSong(old(Snapshot()), m);
    }

    method GetAllSongs() returns (r: seq<Song>)
      ensures SortedByTitle(r) && multiset(r) == multiset(songs)
      ensures r == AllSongs(Snapshot())
    {
      r := SortByTitle(songs);
    }

    method SongExists(path: string) returns (b: bool)
      ensures b <==> exists i :: 0 <= i < |songs| && songs[i].filepath == path
    {
      b := FindSong(songs, path).Some?;
    }

    method CreatePlaylist(name: string) returns (ok: bool)
      requires Valid()
      modifies this
      ensures Valid() && (ok, Snapshot()) == InsertPlaylist(old(Snapshot()), name)
    {
      ok := !HasName(playlists, name);
      if ok {
        playlists := playlists + [Playlist(nextPlaylistId, name)];
        nextPlaylistId := nextPlaylistId + 1;
      }
      assert (ok, Snapshot()) == InsertPlaylist(old(Snapshot()), name);
    }

    method GetPlaylists() returns (r: seq<PlaylistInfo>)
      ensures r == PlaylistListing(Snapshot())
    {
      r := PlaylistListing(Snapshot());
    }

    method AddToPlaylist(playlistId: int, path: string)
      requires Valid()
      modifies this
      ensures Valid() && Snapshot() == InsertMember(old(Snapshot()), playlistId, path)
    {
      var res := FindSong(songs, path);
      if res.Some? && HasPlaylist(playlists, playlistId) {
        members := members + {(playlistId, res.value.id)};
      }
      assert Snapshot() == InsertMember(old(Snapshot()), playlistId, path);
    }

    method GetPlaylistSongs(playlistId: int) returns (r: seq<Song>)
      ensures forall s :: s in r <==> s in songs && (playlistId, s.id) in members
      ensures r == PlaylistSongs(Snapshot(), playlistId)
    {
      r := SongsIn(songs, members, playlistId);
    }

    method RenamePlaylist(playlistId: int, name: string) returns (ok: bool)
      requires Valid()
      modifies this
      ensures Valid() && (ok, Snapshot()) == UpdatePlaylistName(old(Snapshot()), playlistId, name)
    {
      ok := !(HasPlaylist(playlists, playlistId) && NameHeldByOther(playlists, playlistId, name));
      if ok {
        playlists := Renamed(playlists, playlistId, name);
      }
      assert (ok, Snapshot()) == UpdatePlaylistName(old(Snapshot()), playlistId, name);
    }

    method DeletePlaylist(playlistId: int)
      requires Valid()
      modifies this
      ensures Valid() && Snapshot() == DeletePlaylistCascade(old(Snapshot()), playlistId)
    {
      playlists := Without(playlists, playlistId);
      members := set m | m in members && m.0 != playlistId;
      assert Snapshot() == DeletePlaylistCascade(old(Snapshot()), playlistId);
    }

    method RemoveFromPlaylist(playlistId: int, path: string)
      requires Valid()
      modifies this
      ensures Valid() && Snapshot() == DeleteMember(old(Snapshot()), playlistId, path)
    {
      var res := FindSong(songs, path);
      if res.Some? {
        members := members - {(playlistId, res.value.id)};
      }
      assert Snapshot() == DeleteMember(old(Snapshot()), playlistId, path);
    }

    method UpdateSongMetadata(id: int, title: string, artist: string, album: string,
                              cover: Option<string>, newPath: Option<string>) returns (ok: bool)
      requires Valid()
      modifies this
      ensures Valid() && (ok, Snapshot()) == UpdateSong(old(Snapshot()), id, title, artist, album, cover, newPath)
    {
      ok := !(MovesPath(newPath) && HasSongId(songs, id) && PathHeldByOther(songs, id, newPath.value));
      if ok {
        songs := Retagged(songs, id, title, artist, album, cover, newPath);
      }
      assert (ok, Snapshot()) == UpdateSong(old(Snapshot()), id, title, artist, album, cover, newPath);
    }
  }
}
