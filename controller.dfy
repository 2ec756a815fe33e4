/**
 * The controller between the views and the player (`MainController`): it
 * turns play requests into a loaded queue and seek requests into a new
 * position shown on both seek sliders.
 */
module Controller {
  import opened Wrappers
  import opened Catalog
  import opened Playback
  import opened Slider

  class MainController {
    const player: Player
    /** The seek slider of the compact view. */
    const compactSlider: CustomSlider
    /** The seek slider of the full window's player bar. */
    const barSlider: CustomSlider

    ghost predicate Valid()
      reads this, player, compactSlider, barSlider
    {
      compactSlider != barSlider && player.Valid() && compactSlider.Valid() && barSlider.Valid()
    }

    constructor (player: Player, compactSlider: CustomSlider, barSlider: CustomSlider)
      requires compactSlider != barSlider
      requires player.Valid() && compactSlider.Valid() && barSlider.Valid()
      ensures Valid()
      ensures this.player == player && this.compactSlider == compactSlider && this.barSlider == barSlider
    {
      this.player := player;
      this.compactSlider := compactSlider;
      this.barSlider := barSlider;
    }

    /**
     * `handle_play_request`: a shuffled request turns shuffle on first if it
     * is off; an unshuffled one leaves the flag alone. Then the songs are
     * loaded from `index`.
     */
    method HandlePlayRequest(songs: seq<Song>, index: int, shuffle: bool)
      requires Valid() && 0 <= index < |songs|
      modifies player
      ensures Valid()
      ensures player.isShuffle == (old(player.isShuffle) || shuffle)
      ensures player.originalQueue == songs && multiset(player.queue) == multiset(songs)
      ensures player.queue[player.currentIndex] == songs[index]
      ensures player.playing && player.position == 0 && player.source == Some(songs[index].filepath)
      ensures shuffle && !old(player.isShuffle) ==>
        player.events == old(player.events) + [ShuffleChanged(true), StateChanged(true), SongChanged(songs[index])]
      ensures !(shuffle && !old(player.isShuffle)) ==>
        player.events == old(player.events) + [StateChanged(true), SongChanged(songs[index])]
      ensures player.repeatMode == old(player.repeatMode)
    {
      if shuffle {
        if !player.isShuffle {
          player.ToggleShuffle();
        }
      }
      player.LoadQueue(songs, index);
    }

    /**
     * `handle_seek`: the player always moves; a slider shows the new
     * position only when the user is not dragging it.
     */
    method HandleSeek(position: int)
      requires Valid()
      modifies player, compactSlider, barSlider
      ensures Valid()
      ensures player.position == position
      ensures player.queue == old(player.queue) && player.currentIndex == old(player.currentIndex)
      ensures player.playing == old(player.playing) && player.events == old(player.events)
      ensures player.isShuffle == old(player.isShuffle) && player.originalQueue == old(player.originalQueue)
      ensures player.repeatMode == old(player.repeatMode) && player.source == old(player.source)
      ensures compactSlider.minimum == old(compactSlider.minimum) && compactSlider.maximum == old(compactSlider.maximum)
      ensures compactSlider.width == old(compactSlider.width)
      ensures barSlider.minimum == old(barSlider.minimum) && barSlider.maximum == old(barSlider.maximum)
      ensures barSlider.width == old(barSlider.width)
      ensures !compactSlider.isDragging ==> compactSlider.value == Clamp(position, compactSlider.minimum, compactSlider.maximum)
      ensures compactSlider.isDragging ==> compactSlider.value == old(compactSlider.value)
      ensures !barSlider.isDragging ==> barSlider.value == Clamp(position, barSlider.minimum, barSlider.maximum)
      ensures barSlider.isDragging ==> barSlider.value == old(barSlider.value)
      ensures compactSlider.isDragging == old(compactSlider.isDragging) && barSlider.isDragging == old(barSlider.isDragging)
      ensures compactSlider.seekRequests == old(compactSlider.seekRequests) && barSlider.seekRequests == old(barSlider.seekRequests)
    {
      player.SetPosition(position);
      if !compactSlider.isDragging {
        compactSlider.SetValue(position);
      }
      if !barSlider.isDragging {
        barSlider.SetValue(position);
      }
    }
  }
}
