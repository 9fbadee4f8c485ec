/** The song record shared by the player, the library and the YouTube routes. */
module Songs {

  /** A playable song reference; `duration` is the display text ("3:47"). */
  datatype Song = Song(id: string, title: string, artist: string, album: string, cover: string, duration: string)
}
