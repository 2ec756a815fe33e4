/**
 * The song-info editor (`EditMetadataDialog`): it writes the new tags into
 * the file, renames the file after its new artist and title within the same
 * directory, and records title, artist, album, cover and path in the
 * catalog. Whether the tag write and the rename succeed is decided by the
 * file system; both come in as inputs.
 */
module EditMetadata {
  import opened Wrappers
  import opened Text
  import opened Seqs
  import opened Paths
  import opened Catalog
  import opened Events

  /** The characters the file-name sanitiser deletes. */
  predicate Forbidden(c: char) {
    c == '<' || c == '>' || c == ':' || c == '"' || c == '/' || c == '\\' || c == '|' || c == '?' || c == '*'
  }

  /** The regular-expression substitution: every forbidden character deleted. */
  function RemoveForbidden(s: string): (r: string)
    ensures forall k :: 0 <= k < |r| ==> !Forbidden(r[k])
  {
    if s == [] then []
    else if Forbidden(s[0]) then RemoveForbidden(s[1..])
    else [s[0]] + RemoveForbidden(s[1..])
  }

  /** A text without forbidden characters passes through unchanged. */
  lemma {:induction false} RemoveForbiddenOfClean(s: string)
    requires forall k :: 0 <= k < |s| ==> !Forbidden(s[k])
    ensures RemoveForbidden(s) == s
  {
    if s != [] {
      RemoveForbiddenOfClean(s[1..]);
    }
  }

  /** Every allowed character is kept, as often as it occurs. */
  lemma {:induction false} RemoveForbiddenKeepsAllowed(s: string, c: char)
    requires !Forbidden(c)
    ensures multiset(RemoveForbidden(s))[c] == multiset(s)[c]
  {
    if s != [] {
      RemoveForbiddenKeepsAllowed(s[1..], c);
      assert s == [s[0]] + s[1..];
    }
  }

  lemma {:induction false} RemoveForbiddenSubsequence(s: string)
    ensures SubsequenceOf(RemoveForbidden(s), s)
  {
    if s != [] {
      RemoveForbiddenSubsequence(s[1..]);
      var r := RemoveForbidden(s);
      if !Forbidden(s[0]) {
        assert r[0] == s[0] && r[1..] == RemoveForbidden(s[1..]);
      }
    }
  }

  /** `sanitize_filename`: forbidden characters deleted, then surrounding whitespace. */
  function Sanitize(name: string): string {
    Strip(RemoveForbidden(name))
  }

  /** A piece of a text without forbidden characters has none either. */
  lemma CleanSlice(x: string, i: int, j: int)
    requires 0 <= i <= j <= |x|
    requires forall k :: 0 <= k < |x| ==> !Forbidden(x[k])
    ensures forall k :: 0 <= k < j - i ==> !Forbidden(x[i..j][k])
    ensures '/' !in x[i..j]
  {
    assert forall k :: 0 <= k < j - i ==> x[i..j][k] == x[i + k];
  }

  /** The result holds no forbidden character and no surrounding whitespace. */
  lemma SanitizeClean(name: string)
    ensures var r := Sanitize(name);
      && (forall k :: 0 <= k < |r| ==> !Forbidden(r[k]))
      && '/' !in r
      && (r == [] || (!IsSpace(r[0]) && !IsSpace(r[|r| - 1])))
  {
    var x := RemoveForbidden(name);
    var r := Strip(x);
    var i :| OccursAt(x, r, i);
    CleanSlice(x, i, i + |r|);
  }

  /** Stripping keeps a subsequence a subsequence. */
  lemma StripSubsequence(x: string, b: string)
    requires SubsequenceOf(x, b)
    ensures SubsequenceOf(Strip(x), b)
  {
    var l := StripLeft(x);
    var r := StripRight(l);
    SliceOfSubsequence(x, b, |x| - |l|, |x|);
    assert x[|x| - |l|..|x|] == l;
    SliceOfSubsequence(l, b, 0, |r|);
    assert l[0..|r|] == r;
  }

  /** The sanitiser only deletes characters: its result is a subsequence of its input. */
  lemma SanitizeSubsequence(name: string)
    ensures SubsequenceOf(Sanitize(name), name)
  {
    RemoveForbiddenSubsequence(name);
    StripSubsequence(RemoveForbidden(name), name);
  }

  /** Sanitising twice is sanitising once. */
  lemma SanitizeIdempotent(name: string)
    ensures Sanitize(Sanitize(name)) == Sanitize(name)
  {
    SanitizeClean(name);
    RemoveForbiddenOfClean(Sanitize(name));
    StripIdempotent(RemoveForbidden(name));
  }

  /** The file name for the new tags: `Artist - Title.ext`, or `Title.ext` without an artist. */
  function NewFileName(title: string, artist: string, ext: string): string {
    if artist == [] then Sanitize(title) + ext
    else Sanitize(artist) + " - " + Sanitize(title) + ext
  }

  /** The path the file is renamed to: the new name in the directory of the current path. */
  function PlannedPath(current: string, title: string, artist: string): string {
    Join(Dirname(current), NewFileName(title, artist, Extension(current)))
  }

  /** The path stored: the planned one when it differs and the rename went through. */
  function FinalPath(current: string, planned: string, renameFailed: bool): (r: string)
    ensures r == planned || r == current
    ensures r != current <==> planned != current && !renameFailed
  {
    if planned != current && !renameFailed then planned else current
  }

  /** The cover stored: a newly chosen one, or else the song's own. */
  function FinalCover(chosen: Option<string>, own: Option<string>): (r: Option<string>)
    ensures chosen.Some? && chosen.value != [] ==> r == chosen
    ensures !(chosen.Some? && chosen.value != []) ==> r == own
  {
    if chosen.Some? && chosen.value != [] then chosen else own
  }

  /** Pieces without `/` make a name without `/`. */
  lemma SlashFreeConcat(a: string, t: string, e: string)
    requires '/' !in a && '/' !in t && '/' !in e
    ensures '/' !in a + " - " + t + e && '/' !in t + e
  {
  }

  /** A new file name is a single path component. */
  lemma NewFileNameHasNoSlash(title: string, artist: string, current: string)
    ensures '/' !in NewFileName(title, artist, Extension(current))
  {
    var a, t, e := Sanitize(artist), Sanitize(title), Extension(current);
    SanitizeClean(title);
    SanitizeClean(artist);
    ExtensionShape(current);
    SlashFreeConcat(a, t, e);
  }

  /** The path computation of `save_changes`, step by step. */
  method PlanPath(current: string, title: string, artist: string) returns (newPath: string)
    ensures newPath == PlannedPath(current, title, artist)
  {
    var dirName := Dirname(current);
    var ext := Extension(current);
    var fileName := Sanitize(title) + ext;
    if artist != [] {
      fileName := Sanitize(artist) + " - " + Sanitize(title) + ext;
    }
    newPath := Join(dirName, fileName);
  }

  /** The renamed file stays in the directory it was in. */
  lemma PlannedPathSameDirectory(current: string, title: string, artist: string)
    ensures Dirname(PlannedPath(current, title, artist)) == Dirname(current)
  {
    NewFileNameHasNoSlash(title, artist, current);
    DirnameOfJoin(Dirname(current), NewFileName(title, artist, Extension(current)));
  }

  /**
   * The renamed file keeps its extension, provided it had one and the new
   * name before it is not made of dots only.
   */
  lemma PlannedPathKeepsExtension(current: string, title: string, artist: string)
    requires Extension(current) != []
    requires artist != [] || HasNonDot(Sanitize(title))
    ensures Extension(PlannedPath(current, title, artist)) == Extension(current)
  {
    var ext := Extension(current);
    ExtensionShape(current);
    NewFileNameHasNoSlash(title, artist, current);
    var stem := if artist == [] then Sanitize(title) else Sanitize(artist) + " - " + Sanitize(title);
    assert NewFileName(title, artist, ext) == stem + ext;
    assert HasNonDot(stem) by {
      if artist != [] { assert stem[|Sanitize(artist)|] == ' '; }
    }
    assert '/' !in stem by {
      forall k | 0 <= k < |stem| ensures stem[k] != '/' { assert stem[k] == (stem + ext)[k]; }
    }
    ExtensionOfJoin(Dirname(current), stem, ext);
  }

  /** Saving the same title and artist a second time plans no rename. */
  lemma SecondSaveKeepsPath(current: string, title: string, artist: string)
    requires Extension(current) != []
    requires artist != [] || HasNonDot(Sanitize(title))
    ensures var p := PlannedPath(current, title, artist); PlannedPath(p, title, artist) == p
  {
    var p := PlannedPath(current, title, artist);
    PlannedPathSameDirectory(current, title, artist);
    PlannedPathKeepsExtension(current, title, artist);
  }

  /** The message boxes the dialog shows. */
  datatype Notice = EmptyTitle | TagWriteFailed | RenameFailed(error: string)

  /** Whether a notice is shown as a critical error rather than a warning. */
  predicate IsCritical(n: Notice) {
    n.TagWriteFailed?
  }

  /** The text of each message box. */
  function NoticeText(n: Notice): string {
    match n
    case EmptyTitle => "Title cannot be empty"
    case TagWriteFailed => "Failed to write tags. File might be in use."
    case RenameFailed(error) =>
      "Could not rename file. Is it playing?\nTags were saved, but filename remains.\nError: " + error
  }

  /** The tags handed to the tag writer. */
  datatype TagWrite = TagWrite(path: string, title: string, artist: string, album: string, cover: Option<string>)

  class EditDialog {
    /** The catalog row the dialog edits, as it was when opened. */
    const song: Song
    const db: Database
    const bus: EventBus
    var newCoverPath: Option<string>
    var accepted: bool
    var notices: seq<Notice>
    var tagWrites: seq<TagWrite>
    /** The renames attempted, as (from, to). */
    var renames: seq<(string, string)>

    constructor (song: Song, db: Database, bus: EventBus)
      ensures this.song == song && this.db == db && this.bus == bus
      ensures newCoverPath == None && !accepted && notices == [] && tagWrites == [] && renames == []
    {
      this.song := song;
      this.db := db;
      this.bus := bus;
      newCoverPath := None;
      accepted := false;
      notices, tagWrites, renames := [], [], [];
    }

    /** `browse_image`: a chosen file (the empty string when cancelled) becomes the new cover. */
    method BrowseImage(choice: string)
      modifies this
      ensures newCoverPath == if choice != [] then Some(choice) else old(newCoverPath)
      ensures accepted == old(accepted) && notices == old(notices)
      ensures tagWrites == old(tagWrites) && renames == old(renames)
    {
      if choice != [] {
        newCoverPath := Some(choice);
      }
    }

    /**
     * The last step of `save_changes`: the row rewritten with the new
     * fields, the library announced as changed, the dialog accepted.
     */
    method Record(title: string, artist: string, album: string, cover: Option<string>, path: string)
      requires db.Valid()
      modifies this, db, bus
      ensures db.Valid()
      ensures db.Snapshot() == UpdateSong(old(db.Snapshot()), song.id, title, artist, album, cover, Some(path)).1
      ensures bus.log == old(bus.log) + [LibraryUpdated] && accepted
      ensures newCoverPath == old(newCoverPath) && notices == old(notices)
      ensures tagWrites == old(tagWrites) && renames == old(renames)
    {
      var _ := db.UpdateSongMetadata(song.id, title, artist, album, cover, Some(path));
      bus.Emit(LibraryUpdated);
      accepted := true;
    }

    /**
     * The rename step of `save_changes`: attempted only when the planned
     * path differs; on failure the file keeps its path and a warning is shown.
     */
    method RenameTo(current: string, newPath: string, renameError: Option<string>) returns (finalPath: string)
      modifies this
      ensures finalPath == FinalPath(current, newPath, renameError.Some?)
      ensures renames == old(renames) + (if newPath != current then [(current, newPath)] else [])
      ensures notices == old(notices) +
        (if newPath != current && renameError.Some? then [RenameFailed(renameError.value)] else [])
      ensures newCoverPath == old(newCoverPath) && accepted == old(accepted) && tagWrites == old(tagWrites)
    {
      finalPath := current;
      if newPath != current {
        renames := renames + [(current, newPath)];
        if renameError.None? {
          finalPath := newPath;
        } else {
          notices := notices + [RenameFailed(renameError.value)];
          finalPath := current;
        }
      }
    }

    /**
     * What the steps after a successful tag write do, for the path `planned`:
     * the rename is attempted when that path differs, the row gets the new
     * fields with the final path and cover, and the library is announced as
     * changed.
     */
    twostate predicate Committed(title: string, artist: string, album: string,
                                 planned: string, renameError: Option<string>)
      requires old(db.Valid())
      reads this, db, bus
    {
      var current := song.filepath;
      && renames == old(renames) + (if planned != current then [(current, planned)] else [])
      && notices == old(notices) +
           (if planned != current && renameError.Some? then [RenameFailed(renameError.value)] else [])
      && db.Snapshot() == UpdateSong(old(db.Snapshot()), song.id, title, artist, album,
                                     FinalCover(newCoverPath, song.coverPath),
                                     Some(FinalPath(current, planned, renameError.Some?))).1
      && bus.log == old(bus.log) + [LibraryUpdated]
      && accepted
    }

    /** The steps of `save_changes` after a successful tag write, renaming towards `newPath`. */
    method Commit(title: string, artist: string, album: string, newPath: string, renameError: Option<string>)
      requires db.Valid()
      modifies this, db, bus
      ensures db.Valid() && newCoverPath == old(newCoverPath) && tagWrites == old(tagWrites)
      ensures Committed(title, artist, album, newPath, renameError)
    {
      var current := song.filepath;
      var finalPath := RenameTo(current, newPath, renameError);
      var finalCover := if newCoverPath.Some? && newCoverPath.value != [] then newCoverPath else song.coverPath;
      Record(title, artist, album, finalCover, finalPath);
    }

    /**
     * What `save_changes` does with a non-empty title: the tags are handed
     * to the writer; if it fails, a critical message and nothing else;
     * otherwise the steps after it, towards the planned path.
     */
    twostate predicate Saved(title: string, artist: string, album: string,
                             tagWriteOk: bool, renameError: Option<string>)
      requires old(db.Valid())
      reads this, db, bus
    {
      var current := song.filepath;
      && newCoverPath == old(newCoverPath)
      && tagWrites == old(tagWrites) + [TagWrite(current, title, artist, album, newCoverPath)]
      && (!tagWriteOk ==>
        && notices == old(notices) + [TagWriteFailed]
        && renames == old(renames)
        && db.Snapshot() == old(db.Snapshot()) && bus.log == old(bus.log) && accepted == old(accepted))
      && (tagWriteOk ==> Committed(title, artist, album, PlannedPath(current, title, artist), renameError))
    }

    /**
     * `save_changes` once the title is known to be non-empty: write the
     * tags, then rename, record and announce.
     */
    method WriteAndRecord(title: string, artist: string, album: string,
                          tagWriteOk: bool, renameError: Option<string>)
      requires db.Valid() && title != []
      modifies this, db, bus
      ensures db.Valid() && newCoverPath == old(newCoverPath)
      ensures Saved(title, artist, album, tagWriteOk, renameError)
    {
      var current := song.filepath;
      tagWrites := tagWrites + [TagWrite(current, title, artist, album, newCoverPath)];
      if !tagWriteOk {
        notices := notices + [TagWriteFailed];
        return;
      }
      var newPath := PlanPath(current, title, artist);
      Commit(title, artist, album, newPath, renameError);
    }

    /**
     * `save_changes` on the three text fields, stripped first; an empty
     * title is refused before anything is written. `tagWriteOk` is the tag
     * writer's answer and `renameError` the error `os.rename` would raise, if any.
     */
    method SaveChanges(titleText: string, artistText: string, albumText: string,
                       tagWriteOk: bool, renameError: Option<string>)
      requires db.Valid()
      modifies this, db, bus
      ensures db.Valid() && newCoverPath == old(newCoverPath)
      ensures Strip(titleText) == [] ==>
        && notices == old(notices) + [EmptyTitle]
        && tagWrites == old(tagWrites) && renames == old(renames)
        && db.Snapshot() == old(db.Snapshot()) && bus.log == old(bus.log) && accepted == old(accepted)
      ensures Strip(titleText) != [] ==>
        Saved(Strip(titleText), Strip(artistText), Strip(albumText), tagWriteOk, renameError)
    {
      var title := Strip(titleText);
      var artist := Strip(artistText);
      var album := Strip(albumText);
      if title == [] {
        notices := notices + [EmptyTitle];
        return;
      }
      WriteAndRecord(title, artist, album, tagWriteOk, renameError);
    }
  }
}
