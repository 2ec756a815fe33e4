/**
 * One row of the song list (`LibraryItem`): the title and artist it shows,
 * with their fallbacks, the `m:ss` duration label, and the play button.
 */
module LibraryItem {
  import opened Wrappers
  import opened Text
  import opened Catalog

  /**
   * The song record as the row reads it: each key may be absent from the
   * dictionary it was given.
   */
  datatype ItemRecord = ItemRecord(title: Option<string>, artist: Option<string>, duration: Option<int>)

  /** A catalog row has every key. */
  function RecordOf(s: Song): (r: ItemRecord)
    ensures r.title == Some(s.title) && r.artist == Some(s.artist) && r.duration == Some(s.duration)
  {
    ItemRecord(Some(s.title), Some(s.artist), Some(s.duration))
  }

  /** `song_data.get('title', 'Unknown')`. */
  function DisplayTitle(r: ItemRecord): (t: string)
    ensures r.title.Some? ==> t == r.title.value
    ensures r.title.None? ==> t == "Unknown"
  {
    r.title.GetOr("Unknown")
  }

  /** `song_data.get('artist', 'Unknown Artist')`. */
  function DisplayArtist(r: ItemRecord): (a: string)
    ensures r.artist.Some? ==> a == r.artist.value
    ensures r.artist.None? ==> a == "Unknown Artist"
  {
    r.artist.GetOr("Unknown Artist")
  }

  /** A catalog row shows its own title and artist, even empty ones: the fallbacks are never used. */
  lemma CatalogRowsShowOwnText(s: Song)
    ensures DisplayTitle(RecordOf(s)) == s.title
    ensures DisplayArtist(RecordOf(s)) == s.artist
  {
  }

  /** `f"{secs:02d}"` for seconds in [0, 59]. */
  function TwoDigits(s: int): (r: string)
    requires 0 <= s < 60
    ensures |r| == 2 && '0' <= r[0] <= '9' && '0' <= r[1] <= '9'
  {
    [Digit(s / 10), Digit(s % 10)]
  }

  /**
   * The duration label: `divmod(duration, 60)` (floor division, as Dafny's
   * `/` and `%` by a positive divisor), minutes then two-digit seconds; a
   * missing duration counts as 0.
   */
  function DurationLabel(r: ItemRecord): (s: string)
    ensures var d := r.duration.GetOr(0);
      && |s| >= 4 && s[|s| - 3] == ':'
      && s[..|s| - 3] == IntToString(d / 60)
      && s[|s| - 2..] == TwoDigits(d % 60)
  {
    var d := r.duration.GetOr(0);
    IntToString(d / 60) + ":" + TwoDigits(d % 60)
  }

  /** A record without a duration shows "0:00". */
  lemma MissingDurationLabel(r: ItemRecord)
    requires r.duration.None?
    ensures DurationLabel(r) == "0:00"
  {
  }

  /** The value a label's minutes and seconds stand for. */
  function LabelValue(s: string): Option<int> {
    if |s| >= 4 && s[|s| - 3] == ':'
       && (forall i :: 0 <= i < |s| - 3 ==> '0' <= s[i] <= '9')
       && '0' <= s[|s| - 2] <= '9' && '0' <= s[|s| - 1] <= '9'
    then Some(ParseDigits(s[..|s| - 3]) * 60 + ParseDigits(s[|s| - 2..]))
    else None
  }

  /** For a non-negative duration the label reads back as that many seconds. */
  lemma DurationLabelReadsBack(r: ItemRecord)
    requires r.duration.GetOr(0) >= 0
    ensures LabelValue(DurationLabel(r)) == Some(r.duration.GetOr(0))
  {
    var d := r.duration.GetOr(0);
    var m := NatToString(d / 60);
    var s := DurationLabel(r);
    assert s[..|s| - 3] == m;
    ParseNatToString(d / 60);
    var t := TwoDigits(d % 60);
    assert t[..1][..0] == [];
    assert ParseDigits(t[..1]) == d % 60 / 10;
    assert ParseDigits(t) == (d % 60 / 10) * 10 + d % 60 % 10;
  }

  /** The row of the song list and its `play_clicked` signal. */
  class LibraryItemWidget {
    const song: Song
    /** The records sent by `play_clicked`, oldest first. */
    var playClicked: seq<Song>

    constructor (song: Song)
      ensures this.song == song && playClicked == []
    {
      this.song := song;
      playClicked := [];
    }

    /** `on_play`: the row sends its own song. */
    method OnPlay()
      modifies this
      ensures playClicked == old(playClicked) + [song]
    {
      playClicked := playClicked + [song];
    }
  }
}
