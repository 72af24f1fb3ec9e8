/**
 * Song records as the music player sees them: one entry of the catalog
 * listing (`/songs.json`), copied as-is into the user's library.
 */
module Tracks {

  /** Present or absent value; stands for JavaScript's object-or-null/undefined. */
  datatype Option<+T> = None | Some(value: T)

  /**
   * One song of the catalog. `file` is the audio file name under the songs
   * directory and is the field every comparison in the player uses to tell
   * songs apart; `img` is the artwork URL.
   */
  datatype Track = Track(title: string, artist: string, file: string, img: string)
}
