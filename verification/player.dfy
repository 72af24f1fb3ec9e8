/**
 * The player modal's state: the song loaded into the single audio element
 * (with the audio source path the component builds for it) and whether it
 * is playing. The audio element's own `play`/`pause` calls are effects on a
 * device outside this state and are not part of the model.
 */
module Player {
  import opened Tracks

  /** Directory the audio files are served from. */
  const SongsDir: string := "/songs/"

  /** The current song: a copy of the chosen track plus its audio source path. */
  datatype Loaded = Loaded(song: Track, src: string)

  datatype State = State(current: Option<Loaded>, playing: bool)

  /** No song, not playing: the state before anything is chosen and after the modal is closed. */
  const Idle: State := State(None, false)

  /** The audio source path of a song: the songs directory followed by the file name. */
  function SourceFor(song: Track): (src: string)
    ensures |src| == |SongsDir| + |song.file|
    ensures src[..|SongsDir|] == SongsDir
    ensures src[|SongsDir|..] == song.file
  {
    SongsDir + song.file
  }

  /**
   * Invariants of every reachable state: the player only plays when a song
   * is loaded, and a loaded song's source is the path built from its file.
   */
  ghost predicate Valid(p: State)
  {
    && (p.playing ==> p.current.Some?)
    && (p.current.Some? ==> p.current.value.src == SourceFor(p.current.value.song))
  }

  /** Choosing a song: it replaces whatever was loaded and starts playing. */
  function Play(p: State, song: Track): (r: State)
    ensures r.current.Some? && r.current.value.song == song
    ensures r.current.value.src == SourceFor(song)
    ensures r.playing
    ensures Valid(r)
  {
    State(Some(Loaded(song, SourceFor(song))), true)
  }

  /** The play/pause button: ignored with no song, otherwise flips playing and keeps the song. */
  function TogglePlay(p: State): (r: State)
    ensures p.current.None? ==> r == p
    ensures p.current.Some? ==> r.current == p.current && r.playing != p.playing
    ensures Valid(p) ==> Valid(r)
  {
    if p.current.None? then p
    else p.(playing := !p.playing)
  }

  /** The close button: the song is unloaded and playback stops. */
  function Close(p: State): (r: State)
    ensures r.current.None? && !r.playing
    ensures Valid(r)
  {
    Idle
  }

  /** The audio element reports the end of the track: playback stops, the song stays loaded. */
  function Ended(p: State): (r: State)
    ensures r.current == p.current && !r.playing
    ensures Valid(p) ==> Valid(r)
  {
    p.(playing := false)
  }

  // ---------------------------------------------------------------------
  // Lemmas relating the transitions
  // ---------------------------------------------------------------------

  /** The source path determines the file: two songs share a source exactly when they share a file. */
  lemma SourceIdentifiesFile(a: Track, b: Track)
    ensures SourceFor(a) == SourceFor(b) <==> a.file == b.file
  {
    if SourceFor(a) == SourceFor(b) {
      assert a.file == SourceFor(a)[|SongsDir|..];
    }
  }

  /** Choosing a song does not depend on the prior state, so the last choice wins. */
  lemma PlayLastWins(p: State, first: Track, second: Track)
    ensures Play(Play(p, first), second) == Play(p, second)
    ensures Play(p, second) == Play(Idle, second)
  {
  }

  /** Pressing play/pause twice returns to the same state. */
  lemma TogglePlayTwice(p: State)
    ensures TogglePlay(TogglePlay(p)) == p
  {
  }

  /** After the track ends, play/pause resumes the same song. */
  lemma EndedThenResume(p: State)
    requires p.current.Some?
    ensures TogglePlay(Ended(p)) == p.(playing := true)
  {
  }

  /** Once closed, play/pause does nothing until a song is chosen again. */
  lemma ClosedIgnoresToggle(p: State)
    ensures TogglePlay(Close(p)) == Idle
  {
  }
}
