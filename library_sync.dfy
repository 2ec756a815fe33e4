/**
 * The library scan (`LibraryScanner.run`): walk the music directory, and for
 * every `.mp3` file whose path the catalog does not know yet, read its tags
 * and add a song. Nothing is ever updated or deleted by a scan. Also the
 * `LibraryManager` that starts the scanner and publishes the sorted song list.
 *
 * The directory walk is an input (the directories `os.walk` would yield, in
 * order) and the tag reader is a function parameter.
 */
module LibrarySync {
  import opened Wrappers
  import opened Text
  import opened Paths
  import opened Catalog

  /** A directory as the walk yields it: its path and the names of its files. */
  datatype Dir = Dir(root: string, files: seq<string>)

  /** What the tag reader finds in a file (its defaults included). */
  datatype Tags = Tags(title: string, artist: string, album: string, coverPath: Option<string>, duration: int)

  /** `MetadataExtractor.extract(path)`: the tags read, under the path it was given. */
  function Extracted(path: string, t: Tags): (m: SongMeta)
    ensures m.filepath == path
    ensures m.title == t.title && m.artist == t.artist && m.album == t.album
    ensures m.coverPath == t.coverPath && m.duration == t.duration
  {
    SongMeta(t.title, t.artist, t.album, path, t.coverPath, t.duration)
  }

  predicate EndsWith(s: string, suffix: string) {
    |suffix| <= |s| && s[|s| - |suffix|..] == suffix
  }

  /** `file.lower().endswith('.mp3')`. */
  predicate IsMp3(name: string) {
    EndsWith(Lower(name), ".mp3")
  }

  /** Names differing only in letter case are both taken or both skipped. */
  lemma IsMp3IgnoresCase(a: string, b: string)
    requires SameUpToCase(a, b)
    ensures IsMp3(a) <==> IsMp3(b)
  {
    LowerOfSameUpToCase(a, b);
  }

  /** The full paths of the `.mp3` files of one directory, in listing order. */
  function Mp3Paths(root: string, files: seq<string>): seq<string> {
    if files == [] then []
    else
      var f := files[|files| - 1];
      Mp3Paths(root, files[..|files| - 1]) + (if IsMp3(f) then [Join(root, f)] else [])
  }

  /** Exactly the `.mp3` files of the directory are considered, joined onto its path. */
  lemma {:induction false} Mp3PathsExactly(root: string, files: seq<string>)
    ensures forall p :: p in Mp3Paths(root, files) <==> exists f :: f in files && IsMp3(f) && p == Join(root, f)
  {
    if files != [] {
      var init := files[..|files| - 1];
      var f := files[|files| - 1];
      assert files == init + [f];
      Mp3PathsExactly(root, init);
    }
  }

  /** Every path the scan considers, directory after directory. */
  function Considered(walk: seq<Dir>): seq<string> {
    if walk == [] then []
    else
      var d := walk[|walk| - 1];
      Considered(walk[..|walk| - 1]) + Mp3Paths(d.root, d.files)
  }

  /** The walk one directory further adds that directory's `.mp3` paths. */
  lemma ConsideredStep(walk: seq<Dir>, i: int)
    requires 0 <= i < |walk|
    ensures Considered(walk[..i + 1]) == Considered(walk[..i]) + Mp3Paths(walk[i].root, walk[i].files)
  {
    assert walk[..i + 1][..i] == walk[..i];
  }

  /** The considered paths are those of the `.mp3` files of the walked directories. */
  lemma {:induction false} ConsideredExactly(walk: seq<Dir>)
    ensures forall p :: p in Considered(walk) <==>
      exists i :: 0 <= i < |walk| && p in Mp3Paths(walk[i].root, walk[i].files)
  {
    if walk != [] {
      var init := walk[..|walk| - 1];
      assert forall i :: 0 <= i < |init| ==> init[i] == walk[i];
      ConsideredExactly(init);
    }
  }

  /** One file of the scan: skipped when its path is known, otherwise read and added. */
  function ScanStep(db: Db, path: string, extract: string -> Tags): (r: Db)
    ensures r == InsertSong(db, Extracted(path, extract(path)))
  {
    if HasPath(db.songs, path) then db else InsertSong(db, Extracted(path, extract(path)))
  }

  /** The catalog after scanning `paths` in order. */
  function Scan(db: Db, paths: seq<string>, extract: string -> Tags): Db {
    if paths == [] then db
    else ScanStep(Scan(db, paths[..|paths| - 1], extract), paths[|paths| - 1], extract)
  }

  /** Rows `k` onward of `r` were read from paths of `paths` unknown to `db`. */
  predicate NewRowsFrom(db: Db, r: Db, k0: int, paths: seq<string>, extract: string -> Tags)
    requires 0 <= k0 <= |r.songs|
  {
    forall k :: k0 <= k < |r.songs| ==>
      && r.songs[k].filepath in paths
      && !HasPath(db.songs, r.songs[k].filepath)
      && r.songs[k] == RowOf(r.songs[k].id, Extracted(r.songs[k].filepath, extract(r.songs[k].filepath)))
  }

  /** One step keeps the known paths and rows, and adds at most the row of its own path. */
  lemma ScanStepFacts(db: Db, p: string, extract: string -> Tags)
    ensures var r := ScanStep(db, p, extract);
      && HasPath(r.songs, p)
      && (forall q :: HasPath(db.songs, q) ==> HasPath(r.songs, q))
      && |db.songs| <= |r.songs| && r.songs[..|db.songs|] == db.songs
      && NewRowsFrom(db, r, |db.songs|, [p], extract)
  {
    var r := ScanStep(db, p, extract);
    forall q | HasPath(db.songs, q) ensures HasPath(r.songs, q) {
      var i :| 0 <= i < |db.songs| && db.songs[i].filepath == q;
      assert r.songs[i] == db.songs[i];
    }
  }

  /** New rows read from a shorter list of paths, or from one more path, come from the longer list. */
  lemma NewRowsGrow(db: Db, mid: Db, r: Db, init: seq<string>, p: string, extract: string -> Tags)
    requires |db.songs| <= |mid.songs| <= |r.songs|
    requires r.songs[..|mid.songs|] == mid.songs && mid.songs[..|db.songs|] == db.songs
    requires NewRowsFrom(db, mid, |db.songs|, init, extract)
    requires NewRowsFrom(mid, r, |mid.songs|, [p], extract)
    ensures NewRowsFrom(db, r, |db.songs|, init + [p], extract)
    ensures r.songs[..|db.songs|] == db.songs
  {
    forall k | |db.songs| <= k < |r.songs|
      ensures r.songs[k].filepath in init + [p] && !HasPath(db.songs, r.songs[k].filepath)
    {
      if k < |mid.songs| {
        assert r.songs[k] == mid.songs[k];
      }
    }
    forall k | |db.songs| <= k < |mid.songs| ensures r.songs[k] == mid.songs[k] {
      assert r.songs[..|mid.songs|][k] == r.songs[k];
    }
    assert r.songs[..|db.songs|] == mid.songs[..|db.songs|];
  }

  /**
   * A scan keeps the catalog consistent, leaves every path scanned in the
   * catalog, keeps the existing rows as they were, and adds only rows read
   * from scanned paths the catalog did not know; playlists are untouched.
   */
  lemma {:induction false} ScanProperties(db: Db, paths: seq<string>, extract: string -> Tags)
    ensures var r := Scan(db, paths, extract);
      && (Consistent(db) ==> Consistent(r))
      && (forall p :: p in paths ==> HasPath(r.songs, p))
      && |db.songs| <= |r.songs| && r.songs[..|db.songs|] == db.songs
      && NewRowsFrom(db, r, |db.songs|, paths, extract)
      && r.playlists == db.playlists && r.members == db.members && r.nextPlaylistId == db.nextPlaylistId
  {
    if paths != [] {
      var init := paths[..|paths| - 1];
      var p := paths[|paths| - 1];
      assert paths == init + [p];
      ScanProperties(db, init, extract);
      var mid := Scan(db, init, extract);
      var r := ScanStep(mid, p, extract);
      assert r == Scan(db, paths, extract);
      ScanStepFacts(mid, p, extract);
      NewRowsGrow(db, mid, r, init, p, extract);
    }
  }

  /** A scan over paths the catalog already knows changes nothing. */
  lemma {:induction false} ScanKnown(db: Db, paths: seq<string>, extract: string -> Tags)
    requires forall p :: p in paths ==> HasPath(db.songs, p)
    ensures Scan(db, paths, extract) == db
  {
    if paths != [] {
      var init := paths[..|paths| - 1];
      assert forall p :: p in init ==> p in paths;
      ScanKnown(db, init, extract);
      assert paths[|paths| - 1] in paths;
    }
  }

  /** Scanning the same files twice gives the catalog of scanning once. */
  lemma ScanIdempotent(db: Db, paths: seq<string>, extract: string -> Tags)
    ensures Scan(Scan(db, paths, extract), paths, extract) == Scan(db, paths, extract)
  {
    ScanProperties(db, paths, extract);
    ScanKnown(Scan(db, paths, extract), paths, extract);
  }

  /** Appending one path to the scan is one more step. */
  lemma ScanSnoc(db: Db, paths: seq<string>, p: string, extract: string -> Tags)
    ensures Scan(db, paths + [p], extract) == ScanStep(Scan(db, paths, extract), p, extract)
  {
    assert (paths + [p])[..|paths|] == paths;
  }

  /** The listing one file further adds that file's path when it is an `.mp3`. */
  lemma Mp3PathsStep(root: string, files: seq<string>, j: int)
    requires 0 <= j < |files|
    ensures Mp3Paths(root, files[..j + 1]) ==
      Mp3Paths(root, files[..j]) + (if IsMp3(files[j]) then [Join(root, files[j])] else [])
  {
    assert files[..j + 1][..j] == files[..j];
  }

  /** Scanning two lists one after the other is scanning their concatenation. */
  lemma {:induction false} ScanAppend(db: Db, a: seq<string>, b: seq<string>, extract: string -> Tags)
    ensures Scan(db, a + b, extract) == Scan(Scan(db, a, extract), b, extract)
  {
    if b != [] {
      var init := b[..|b| - 1];
      var p := b[|b| - 1];
      assert b == init + [p];
      assert a + b == (a + init) + [p];
      ScanAppend(db, a, init, extract);
      ScanSnoc(db, a + init, p, extract);
      ScanSnoc(Scan(db, a, extract), init, p, extract);
    } else {
      assert a + b == a;
    }
  }

  /** The body of the inner loop for an `.mp3` file: add it unless its path is known. */
  method ScanFile(db: Database, full: string, extract: string -> Tags)
    requires db.Valid()
    modifies db
    ensures db.Valid() && db.Snapshot() == ScanStep(old(db.Snapshot()), full, extract)
  {
    var known := db.SongExists(full);
    if !known {
      db.AddSong(Extracted(full, extract(full)));
    }
  }

  /** One file of a directory listing: scanned when it is an `.mp3`, skipped otherwise. */
  method ScanListed(db: Database, ghost db0: Db, ghost paths: seq<string>, root: string, file: string, extract: string -> Tags)
    returns (ghost paths': seq<string>)
    requires db.Valid() && db.Snapshot() == Scan(db0, paths, extract)
    modifies db
    ensures paths' == paths + (if IsMp3(file) then [Join(root, file)] else [])
    ensures db.Valid() && db.Snapshot() == Scan(db0, paths', extract)
  {
    paths' := paths;
    if IsMp3(file) {
      var full := Join(root, file);
      ScanSnoc(db0, paths, full, extract);
      ScanFile(db, full, extract);
      paths' := paths + [full];
    }
  }

  /** The inner loop of the scan: the files of one directory. */
  method ScanDirectory(db: Database, root: string, files: seq<string>, extract: string -> Tags)
    requires db.Valid()
    modifies db
    ensures db.Valid() && db.Snapshot() == Scan(old(db.Snapshot()), Mp3Paths(root, files), extract)
  {
    ghost var db0 := db.Snapshot();
    ghost var paths: seq<string> := [];
    var j := 0;
    while j < |files|
      invariant 0 <= j <= |files|
      invariant paths == Mp3Paths(root, files[..j])
      invariant db.Valid() && db.Snapshot() == Scan(db0, paths, extract)
    {
      Mp3PathsStep(root, files, j);
      paths := ScanListed(db, db0, paths, root, files[j], extract);
      j := j + 1;
    }
    assert files[..j] == files;
  }

  /** The thread that runs the scan; `running` is `isRunning()`. */
  class LibraryScanner {
    var running: bool
    /** How many times `scan_finished` has been emitted. */
    var finished: nat
    /** How many times the thread has been started. */
    var starts: nat

    constructor ()
      ensures !running && finished == 0 && starts == 0
    {
      running, finished, starts := false, 0, 0;
    }

    /** `start()`: the thread begins running. */
    method Start()
      modifies this
      ensures running && starts == old(starts) + 1 && finished == old(finished)
    {
      running := true;
      starts := starts + 1;
    }

    /**
     * `run`: every considered path the catalog does not know is read and
     * added, in walk order; then `scan_finished` is emitted once, whatever
     * was found, and the thread stops.
     */
    method Run(db: Database, walk: seq<Dir>, extract: string -> Tags)
      requires db.Valid()
      modifies this, db
      ensures db.Valid() && db.Snapshot() == Scan(old(db.Snapshot()), Considered(walk), extract)
      ensures finished == old(finished) + 1 && starts == old(starts) && !running
    {
      ghost var db0 := db.Snapshot();
      ghost var paths: seq<string> := [];
      var i := 0;
      while i < |walk|
        invariant 0 <= i <= |walk|
        invariant paths == Considered(walk[..i])
        invariant db.Valid() && db.Snapshot() == Scan(db0, paths, extract)
        invariant finished == old(finished) && starts == old(starts)
      {
        ConsideredStep(walk, i);
        ScanAppend(db0, paths, Mp3Paths(walk[i].root, walk[i].files), extract);
        ScanDirectory(db, walk[i].root, walk[i].files, extract);
        paths := paths + Mp3Paths(walk[i].root, walk[i].files);
        i := i + 1;
      }
      assert walk[..i] == walk;
      finished := finished + 1;
      running := false;
    }
  }

  /** Starts scans and publishes the library, sorted by title. */
  class LibraryManager {
    var db: Database
    var scanner: LibraryScanner
    /** The song lists emitted by `library_changed`, oldest first. */
    var libraryChanged: seq<seq<Song>>

    constructor (db: Database)
      ensures this.db == db && fresh(scanner) && !scanner.running && libraryChanged == []
    {
      this.db := db;
      scanner := new LibraryScanner();
      libraryChanged := [];
    }

    /** `refresh_library`: start the scanner unless a scan is already running. */
    method RefreshLibrary()
      modifies scanner
      ensures scanner.running
      ensures scanner.starts == old(scanner.starts) + (if old(scanner.running) then 0 else 1)
      ensures scanner.finished == old(scanner.finished)
    {
      if !scanner.running {
        scanner.Start();
      }
    }

    /**
     * `load_library` (connected to `scan_finished`): emit every song of the
     * catalog, ordered by title.
     */
    method LoadLibrary()
      modifies this
      ensures libraryChanged == old(libraryChanged) + [AllSongs(db.Snapshot())]
      ensures db == old(db) && scanner == old(scanner)
    {
      var songs := db.GetAllSongs();
      libraryChanged := libraryChanged + [songs];
    }
  }
}
