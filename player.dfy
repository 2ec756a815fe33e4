/**
 * The playback queue and transport state machine (`Player`): the queue in
 * the order it was loaded, the order actually played, the current index,
 * the shuffle flag and the repeat mode, driving an audio backend reduced to
 * its playing flag, its position in milliseconds and its current source.
 * Signals the player emits are appended to an event trace.
 */
module Playback {
  import opened Wrappers
  import opened Catalog

  /** `RepeatMode.NONE` (0), `ALL` (1) and `ONE` (2). */
  datatype RepeatMode = Off | All | One

  /** The integer `repeat_changed` carries. */
  function ModeCode(m: RepeatMode): (c: int)
    ensures (c == 0 <==> m == Off) && (c == 1 <==> m == All) && (c == 2 <==> m == One)
  {
    match m
    case Off => 0
    case All => 1
    case One => 2
  }

  /** The signals `state_changed`, `song_changed`, `shuffle_changed`, `repeat_changed`. */
  datatype PlayerEvent =
    | StateChanged(playing: bool)
    | SongChanged(song: Song)
    | ShuffleChanged(on: bool)
    | RepeatChanged(mode: RepeatMode)

  /** The backend's media status, of which only end-of-media matters here. */
  datatype MediaStatus = EndOfMedia | OtherStatus

  /** Within this many milliseconds of the start, `prev` goes back a track. */
  const RestartThreshold := 3000

  // ---------------------------------------------------------------------
  // The index transitions, as functions

  /** `toggle_repeat`: NONE, then ALL, then ONE, then NONE again. */
  function NextMode(m: RepeatMode): (r: RepeatMode)
    ensures r != m
  {
    match m
    case Off => All
    case All => One
    case One => Off
  }

  /** Three presses of the repeat button bring back the mode. */
  lemma RepeatCycleOfThree(m: RepeatMode)
    ensures NextMode(NextMode(NextMode(m))) == m
    ensures NextMode(m) != m && NextMode(NextMode(m)) != m
  {
  }

  /** The index `next` leaves, on a queue of `n` songs. */
  function NextIndex(i: int, n: int, mode: RepeatMode): (r: int)
    ensures 0 <= i < n ==> 0 <= r < n
    ensures mode == One ==> r == i
    ensures 0 <= i < n - 1 && mode != One ==> r == i + 1
  {
    if n == 0 || mode == One then i
    else if i < n - 1 then i + 1
    else if mode == All then 0
    else i
  }

  /** The index after `k` calls of `next`. */
  function NextTimes(i: int, n: int, mode: RepeatMode, k: nat): int {
    if k == 0 then i else NextIndex(NextTimes(i, n, mode, k - 1), n, mode)
  }

  /** With repeat ALL, `next` steps round the queue: k calls advance k places, wrapping once past the end. */
  lemma {:induction false} RepeatAllAdvances(i: int, n: int, k: nat)
    requires 0 <= i < n && k <= n
    ensures NextTimes(i, n, All, k) == if i + k < n then i + k else i + k - n
  {
    if k > 0 { RepeatAllAdvances(i, n, k - 1); }
  }

  /** With repeat ALL, as many `next` calls as there are songs return to the start. */
  lemma RepeatAllReturns(i: int, n: int)
    requires 0 <= i < n
    ensures NextTimes(i, n, All, n) == i
  {
    RepeatAllAdvances(i, n, n);
  }

  /** With repeat ONE, no number of `next` calls moves the index. */
  lemma {:induction false} RepeatOnePins(i: int, n: int, k: nat)
    ensures NextTimes(i, n, One, k) == i
  {
    if k > 0 { RepeatOnePins(i, n, k - 1); }
  }

  /** With repeat NONE, `next` advances until the last song and stays there. */
  lemma {:induction false} RepeatOffStops(i: int, n: int, k: nat)
    requires 0 <= i < n
    ensures NextTimes(i, n, Off, k) == if i + k < n - 1 then i + k else n - 1
  {
    if k > 0 { RepeatOffStops(i, n, k - 1); }
  }

  /** The index `prev` leaves when it does not just restart the song. */
  function PrevIndex(i: int, n: int, mode: RepeatMode): (r: int)
    ensures 0 <= i < n ==> 0 <= r < n
    ensures i > 0 ==> r == i - 1
  {
    if i > 0 then i - 1
    else if mode == All then n - 1
    else i
  }

  /** Unless repeat ONE pins it, `next` undoes a `prev` that moved. */
  lemma NextUndoesPrev(i: int, n: int, mode: RepeatMode)
    requires 0 <= i < n && mode != One
    requires i > 0 || mode == All
    ensures NextIndex(PrevIndex(i, n, mode), n, mode) == i
  {
  }

  /** `prev` undoes a `next` that moved. */
  lemma PrevUndoesNext(i: int, n: int, mode: RepeatMode)
    requires 0 <= i < n && mode != One
    requires i < n - 1 || mode == All
    ensures PrevIndex(NextIndex(i, n, mode), n, mode) == i
  {
  }

  // ---------------------------------------------------------------------
  // Queues

  predicate NoDuplicates(q: seq<Song>) {
    forall i, j :: 0 <= i < j < |q| ==> q[i] != q[j]
  }

  /** No two songs of the queue share a file path (true of catalog listings). */
  predicate DistinctPaths(q: seq<Song>) {
    forall i, j :: 0 <= i < j < |q| ==> q[i].filepath != q[j].filepath
  }

  /** `[s for i, s in enumerate(songs) if i != k]`. */
  function RemoveAt(songs: seq<Song>, k: int): (r: seq<Song>)
    requires 0 <= k < |songs|
    ensures multiset(r) + multiset{songs[k]} == multiset(songs)
  {
    assert songs == songs[..k] + [songs[k]] + songs[k + 1..];
    songs[..k] + songs[k + 1..]
  }

  /** `[s for s in q if s != c]`: every copy of `c` dropped, the rest in order. */
  function Others(q: seq<Song>, c: Song): (r: seq<Song>)
    ensures forall s :: s in r <==> s in q && s != c
    ensures multiset(r) == multiset(q)[c := 0]
  {
    if q == [] then []
    else
      assert q == [q[0]] + q[1..];
      if q[0] == c then Others(q[1..], c) else [q[0]] + Others(q[1..], c)
  }

  /** A song of a queue without repeats occurs in it exactly once. */
  lemma {:induction false} CountOnce(q: seq<Song>, c: Song)
    requires NoDuplicates(q) && c in q
    ensures multiset(q)[c] == 1
  {
    assert q == [q[0]] + q[1..];
    if q[0] == c {
      assert c !in q[1..] by {
        forall j | 1 <= j < |q| ensures q[j] != c { assert q[0] != q[j]; }
      }
    } else {
      CountOnce(q[1..], c);
    }
  }

  /** Without repeated songs, putting the current song first keeps the queue's contents. */
  lemma OthersPlusCurrent(q: seq<Song>, c: Song)
    requires NoDuplicates(q) && c in q
    ensures multiset([c] + Others(q, c)) == multiset(q)
  {
    CountOnce(q, c);
    assert multiset([c] + Others(q, c)) == multiset{c} + multiset(q)[c := 0];
  }

  /** `random.shuffle`: some reordering of `rest`; which one is left open. */
  method Shuffle(rest: seq<Song>) returns (shuffled: seq<Song>)
    ensures multiset(shuffled) == multiset(rest)
  {
    shuffled :| multiset(shuffled) == multiset(rest);
  }

  /** A song put in front of a reordering of the rest of `all` gives a reordering of `all`. */
  lemma ShuffledFront(first: Song, shuffled: seq<Song>, rest: seq<Song>, all: seq<Song>)
    requires multiset(shuffled) == multiset(rest) && multiset([first] + rest) == multiset(all)
    ensures ([first] + shuffled)[1..] == shuffled
    ensures multiset([first] + shuffled) == multiset(all)
    ensures forall s :: s in [first] + shuffled <==> s in all
  {
    assert ([first] + shuffled)[1..] == shuffled;
    forall s ensures s in [first] + shuffled <==> s in all {
      assert s in [first] + shuffled <==> s in multiset([first] + shuffled);
      assert s in all <==> s in multiset(all);
    }
  }

  /** The current song in front of a reordering of the others holds the songs of the queue. */
  lemma CurrentInFront(c: Song, shuffled: seq<Song>, q: seq<Song>)
    requires c in q && multiset(shuffled) == multiset(Others(q, c))
    ensures ([c] + shuffled)[1..] == shuffled
    ensures forall s :: s in [c] + shuffled <==> s in q
  {
    assert ([c] + shuffled)[1..] == shuffled;
    forall s ensures s in [c] + shuffled <==> s in q {
      assert s in shuffled <==> s in multiset(Others(q, c));
    }
  }

  /** Distinct paths rule out repeated songs. */
  lemma DistinctPathsNoDuplicates(q: seq<Song>)
    requires DistinctPaths(q)
    ensures NoDuplicates(q)
  {
  }

  /** With distinct paths the first song with a given path is the one at its index. */
  lemma FirstWithPathIsIndex(q: seq<Song>, i: int)
    requires DistinctPaths(q) && 0 <= i < |q|
    ensures forall k :: 0 <= k < |q| && q[k].filepath == q[i].filepath ==> k == i
  {
  }

  // ---------------------------------------------------------------------
  // The player

  class Player {
    var originalQueue: seq<Song>
    var queue: seq<Song>
    var currentIndex: int
    var isShuffle: bool
    var repeatMode: RepeatMode
    // the audio backend
    var playing: bool
    var position: int
    var source: Option<string>
    // emitted signals, oldest first
    var events: seq<PlayerEvent>

    ghost predicate Valid()
      reads this
    {
      && (queue == [] <==> originalQueue == [])
      && (queue == [] ==> currentIndex == -1)
      && (queue != [] ==> 0 <= currentIndex < |queue|)
      && (!isShuffle ==> queue == originalQueue)
      && (forall s :: s in queue <==> s in originalQueue)
      && (NoDuplicates(originalQueue) ==> multiset(queue) == multiset(originalQueue))
    }

    /** A player with nothing loaded. */
    constructor ()
      ensures Valid()
      ensures queue == [] && originalQueue == [] && currentIndex == -1
      ensures !isShuffle && repeatMode == Off
      ensures !playing && position == 0 && source == None && events == []
    {
      originalQueue, queue, currentIndex := [], [], -1;
      isShuffle, repeatMode := false, Off;
      playing, position, source, events := false, 0, None, [];
    }

    /** The song at the current index (the one now playing once loaded). */
    function Current(): Song
      reads this
      requires Valid() && queue != []
    {
      queue[currentIndex]
    }

    /**
     * `play_current`: when the index is in range, hand the song's file to the
     * backend, play from the start and emit `state_changed(True)` then
     * `song_changed(song)`; otherwise do nothing.
     */
    method PlayCurrent()
      modifies this
      ensures queue == old(queue) && originalQueue == old(originalQueue) && currentIndex == old(currentIndex)
      ensures isShuffle == old(isShuffle) && repeatMode == old(repeatMode)
      ensures 0 <= currentIndex < |queue| ==>
        && playing && position == 0 && source == Some(queue[currentIndex].filepath)
        && events == old(events) + [StateChanged(true), SongChanged(queue[currentIndex])]
      ensures !(0 <= currentIndex < |queue|) ==>
        playing == old(playing) && position == old(position) && source == old(source) && events == old(events)
    {
      if 0 <= currentIndex < |queue| {
        var song := queue[currentIndex];
        source := Some(song.filepath);
        position := 0;
        playing := true;
        events := events + [StateChanged(true), SongChanged(song)];
      }
    }

    /**
     * `load_queue`: remember `songs` as the original order; unshuffled, play
     * them as given from `start`; shuffled, play `songs[start]` first and the
     * other songs after it in some order.
     */
    method LoadQueue(songs: seq<Song>, start: int)
      requires Valid()
      requires 0 <= start < |songs|
      modifies this
      ensures Valid()
      ensures originalQueue == songs
      ensures isShuffle == old(isShuffle) && repeatMode == old(repeatMode)
      ensures !isShuffle ==> queue == songs && currentIndex == start
      ensures isShuffle ==> currentIndex == 0 && queue[0] == songs[start]
                            && multiset(queue[1..]) == multiset(RemoveAt(songs, start))
      ensures multiset(queue) == multiset(songs)
      ensures playing && position == 0 && source == Some(songs[start].filepath)
      ensures events == old(events) + [StateChanged(true), SongChanged(songs[start])]
    {
      originalQueue := songs;
      if isShuffle {
        var remaining := RemoveAt(songs, start);
        var shuffled := Shuffle(remaining);
        ShuffledFront(songs[start], shuffled, remaining, songs);
        queue := [songs[start]] + shuffled;
        currentIndex := 0;
      } else {
        queue := songs;
        currentIndex := start;
      }
      PlayCurrent();
    }

    /** The backend's `setPosition`: move within the current song. */
    method SetPosition(ms: int)
      modifies this
      ensures position == ms
      ensures queue == old(queue) && originalQueue == old(originalQueue) && currentIndex == old(currentIndex)
      ensures isShuffle == old(isShuffle) && repeatMode == old(repeatMode)
      ensures playing == old(playing) && source == old(source) && events == old(events)
    {
      position := ms;
    }

    /** `toggle_play`: pause when playing; otherwise resume, if a queue is loaded. */
    method TogglePlay()
      modifies this
      ensures queue == old(queue) && originalQueue == old(originalQueue) && currentIndex == old(currentIndex)
      ensures isShuffle == old(isShuffle) && repeatMode == old(repeatMode)
      ensures position == old(position) && source == old(source)
      ensures old(playing) ==> !playing && events == old(events) + [StateChanged(false)]
      ensures !old(playing) && queue != [] ==> playing && events == old(events) + [StateChanged(true)]
      ensures !old(playing) && queue == [] ==> !playing && events == old(events)
    {
      if playing {
        playing := false;
        events := events + [StateChanged(false)];
      } else if queue != [] {
        playing := true;
        events := events + [StateChanged(true)];
      }
    }

    /** What `next` does to the whole state. */
    twostate predicate NextTransition()
      reads this
    {
      && queue == old(queue) && originalQueue == old(originalQueue)
      && isShuffle == old(isShuffle) && repeatMode == old(repeatMode)
      && currentIndex == NextIndex(old(currentIndex), |queue|, repeatMode)
      && (queue == [] ==>
            playing == old(playing) && position == old(position)
            && source == old(source) && events == old(events))
      && (queue != [] && repeatMode == One ==>
            playing && position == 0 && source == old(source) && events == old(events))
      && (queue != [] && repeatMode != One && (old(currentIndex) < |queue| - 1 || repeatMode == All) ==>
            0 <= currentIndex < |queue| &&
            playing && position == 0 && source == Some(queue[currentIndex].filepath)
            && events == old(events) + [StateChanged(true), SongChanged(queue[currentIndex])])
      && (queue != [] && repeatMode == Off && old(currentIndex) == |queue| - 1 ==>
            !playing && position == 0 && source == old(source)
            && events == old(events) + [StateChanged(false)])
    }

    /**
     * `next`: with repeat ONE restart the song; else advance, wrapping to the
     * start under repeat ALL; at the end under repeat NONE stop the backend
     * and emit `state_changed(False)`. An empty queue is left alone.
     */
    method Next()
      requires Valid()
      modifies this
      ensures Valid() && NextTransition()
    {
      if queue == [] {
        return;
      }
      if repeatMode == One {
        position := 0;
        playing := true;
      } else if currentIndex < |queue| - 1 {
        currentIndex := currentIndex + 1;
        PlayCurrent();
      } else if repeatMode == All {
        currentIndex := 0;
        PlayCurrent();
      } else {
        playing := false;
        position := 0;
        events := events + [StateChanged(false)];
      }
    }

    /** `handle_media_status`: the end of a track counts as `next`. */
    method HandleMediaStatus(status: MediaStatus)
      requires Valid()
      modifies this
      ensures Valid()
      ensures status == EndOfMedia ==> NextTransition()
      ensures status != EndOfMedia ==> unchanged(this)
    {
      if status == EndOfMedia {
        Next();
      }
    }

    /**
     * `prev`: more than three seconds in, restart the song; else step back,
     * wrapping to the last song under repeat ALL; at the first song without
     * repeat ALL do nothing. Repeat ONE plays no part.
     */
    method Prev()
      requires Valid()
      modifies this
      ensures Valid()
      ensures queue == old(queue) && originalQueue == old(originalQueue)
      ensures isShuffle == old(isShuffle) && repeatMode == old(repeatMode)
      ensures old(position) > RestartThreshold ==>
        currentIndex == old(currentIndex) && position == 0 && playing == old(playing)
        && source == old(source) && events == old(events)
      ensures old(position) <= RestartThreshold ==> currentIndex == PrevIndex(old(currentIndex), |queue|, repeatMode)
      ensures old(position) <= RestartThreshold && queue != [] && (old(currentIndex) > 0 || repeatMode == All) ==>
        playing && position == 0 && source == Some(queue[currentIndex].filepath)
        && events == old(events) + [StateChanged(true), SongChanged(queue[currentIndex])]
      ensures old(position) <= RestartThreshold && (queue == [] || (old(currentIndex) == 0 && repeatMode != All)) ==>
        playing == old(playing) && position == old(position) && source == old(source) && events == old(events)
    {
      if position > RestartThreshold {
        position := 0;
      } else if currentIndex > 0 {
        currentIndex := currentIndex - 1;
        PlayCurrent();
      } else if repeatMode == All {
        currentIndex := |queue| - 1;
        PlayCurrent();
      }
    }

    /**
     * `toggle_shuffle`: flip the flag. Turning it on puts the current song
     * first and every other song of the original order after it, in some
     * order; turning it off restores the original order and moves the index
     * to the first song with the current song's path. Emits the new flag.
     */
    method ToggleShuffle()
      requires Valid()
      modifies this
      ensures Valid()
      ensures isShuffle == !old(isShuffle) && repeatMode == old(repeatMode)
      ensures originalQueue == old(originalQueue)
      ensures playing == old(playing) && position == old(position) && source == old(source)
      ensures events == old(events) + [ShuffleChanged(isShuffle)]
      ensures old(queue) == [] ==> queue == [] && currentIndex == old(currentIndex)
      ensures old(queue) != [] && isShuffle ==>
        var c := old(queue[currentIndex]);
        && currentIndex == 0 && queue[0] == c
        && multiset(queue[1..]) == multiset(Others(originalQueue, c))
      ensures old(queue) != [] && !isShuffle ==>
        && queue == originalQueue
        && 0 <= currentIndex < |queue|
        && queue[currentIndex].filepath == old(queue[currentIndex]).filepath
        && forall k :: 0 <= k < currentIndex ==> queue[k].filepath != queue[currentIndex].filepath
      ensures old(queue) != [] && DistinctPaths(originalQueue) ==> queue[currentIndex] == old(queue[currentIndex])
    {
      isShuffle := !isShuffle;
      if queue != [] {
        var current := queue[currentIndex];
        assert current in originalQueue;
        if isShuffle {
          var shuffled := Shuffle(Others(originalQueue, current));
          CurrentInFront(current, shuffled, originalQueue);
          if NoDuplicates(originalQueue) {
            OthersPlusCurrent(originalQueue, current);
          }
          queue := [current] + shuffled;
          currentIndex := 0;
        } else {
          queue := originalQueue;
          var k :| 0 <= k < |queue| && queue[k] == current;
          var i := 0;
          while i < |queue|
            invariant 0 <= i <= k
            invariant forall j :: 0 <= j < i ==> queue[j].filepath != current.filepath
          {
            if queue[i].filepath == current.filepath {
              currentIndex := i;
              break;
            }
            i := i + 1;
          }
          if DistinctPaths(originalQueue) {
            FirstWithPathIsIndex(queue, k);
          }
        }
      }
      events := events + [ShuffleChanged(isShuffle)];
    }

    /** `toggle_repeat`: the next mode in the cycle, emitted. */
    method ToggleRepeat()
      modifies this
      ensures repeatMode == NextMode(old(repeatMode))
      ensures events == old(events) + [RepeatChanged(repeatMode)]
      ensures queue == old(queue) && originalQueue == old(originalQueue) && currentIndex == old(currentIndex)
      ensures isShuffle == old(isShuffle)
      ensures playing == old(playing) && position == old(position) && source == old(source)
    {
      if repeatMode == Off {
        repeatMode := All;
      } else if repeatMode == All {
        repeatMode := One;
      } else {
        repeatMode := Off;
      }
      events := events + [RepeatChanged(repeatMode)];
    }
  }

  /**
   * Turning shuffle on and off again, starting unshuffled over songs with
   * distinct paths, gives back the queue and the index.
   */
  method ShuffleRoundTrip(p: Player)
    requires p.Valid() && !p.isShuffle && p.queue != [] && DistinctPaths(p.originalQueue)
    modifies p
    ensures p.Valid() && !p.isShuffle
    ensures p.queue == old(p.queue) && p.currentIndex == old(p.currentIndex)
  {
    p.ToggleShuffle();
    p.ToggleShuffle();
    assert p.queue[p.currentIndex] == old(p.queue[p.currentIndex]);
    FirstWithPathIsIndex(p.queue, old(p.currentIndex));
  }
}
