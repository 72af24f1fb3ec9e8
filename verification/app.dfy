/**
 * The whole music-player component with rendering removed: the catalog,
 * the library, which of the two lists is shown, and the player modal.
 * Every user or audio event is a pure transition on this record.
 */
module App {
  import opened Tracks
  import Library
  import Player

  datatype State = State(
    songs: seq<Track>,        // the catalog, as fetched
    library: seq<Track>,      // the user's library
    viewLibrary: bool,        // "Your Library" is shown instead of "All Songs"
    player: Player.State)

  /** The component after the catalog and the saved library have been loaded. */
  function Init(songs: seq<Track>, library: seq<Track>): (a: State)
    ensures a.songs == songs && a.library == library
    ensures !a.viewLibrary && a.player.current.None? && !a.player.playing
  {
    State(songs, library, false, Player.Idle)
  }

  /** Invariants every reachable state keeps. */
  ghost predicate Valid(a: State)
  {
    Library.UniqueFiles(a.library) && Player.Valid(a.player)
  }

  /** The starting state is valid exactly when the loaded library has one entry per file. */
  lemma InitValid(songs: seq<Track>, library: seq<Track>)
    ensures Valid(Init(songs, library)) <==> Library.UniqueFiles(library)
  {
  }

  /** The list on screen: the library in library view, the catalog otherwise. */
  function Displayed(a: State): (r: seq<Track>)
    ensures a.viewLibrary ==> r == a.library
    ensures !a.viewLibrary ==> r == a.songs
  {
    if a.viewLibrary then a.library else a.songs
  }

  /** The "Added" badge of a song card: its file is in the library, whichever list is shown. */
  predicate IsLiked(a: State, song: Track)
    ensures IsLiked(a, song) <==> Library.HasFile(a.library, song.file)
  {
    Library.Liked(a.library, song.file)
  }

  /** The library button of a song card: toggles the song and touches nothing else. */
  function ToggleLibrary(a: State, song: Track): (r: State)
    ensures IsLiked(r, song) <==> !IsLiked(a, song)
    ensures !IsLiked(a, song) ==> r.library == a.library + [song]
    ensures IsLiked(a, song) ==> Library.Removed(r.library, a.library, song.file)
    ensures r.player == a.player && r.songs == a.songs && r.viewLibrary == a.viewLibrary
  {
    a.(library := Library.Toggle(a.library, song))
  }

  /** The "Home" and "Your Library" menu entries. */
  function ShowLibrary(a: State, show: bool): (r: State)
    ensures r.viewLibrary == show
    ensures r.songs == a.songs && r.library == a.library && r.player == a.player
  {
    a.(viewLibrary := show)
  }

  datatype Event =
    | Select(song: Track)   // a song card's artwork or play button
    | PlayPause             // the modal's play/pause button
    | CloseModal            // the modal's close button
    | TrackEnded            // the audio element's end-of-track event
    | Like(song: Track)     // a song card's library button
    | Home                  // menu entry "Home"
    | LibraryView           // menu entry "Your Library"

  function Step(a: State, e: Event): (r: State)
    ensures r.songs == a.songs
    ensures !e.Like? ==> r.library == a.library
    ensures e.Like? ==> r.player == a.player
    ensures !e.Home? && !e.LibraryView? ==> r.viewLibrary == a.viewLibrary
    ensures e.Home? || e.LibraryView? ==> r.player == a.player && r.viewLibrary == e.LibraryView?
  {
    match e
    case Select(song) => a.(player := Player.Play(a.player, song))
    case PlayPause => a.(player := Player.TogglePlay(a.player))
    case CloseModal => a.(player := Player.Close(a.player))
    case TrackEnded => a.(player := Player.Ended(a.player))
    case Like(song) => ToggleLibrary(a, song)
    case Home => ShowLibrary(a, false)
    case LibraryView => ShowLibrary(a, true)
  }

  /** The state after handling `events` in order. */
  function Run(a: State, events: seq<Event>): State
    decreases |events|
  {
    if |events| == 0 then a else Run(Step(a, events[0]), events[1..])
  }

  // ---------------------------------------------------------------------
  // Properties
  // ---------------------------------------------------------------------

  /** Every step keeps the library at one entry per file and the player consistent. */
  lemma StepKeepsValid(a: State, e: Event)
    requires Valid(a)
    ensures Valid(Step(a, e))
  {
    if e.Like? {
      Library.ToggleKeepsUnique(a.library, e.song);
    }
  }

  /**
   * From a saved library with one entry per file, any sequence of events
   * keeps it that way; the player never plays without a loaded song; the
   * catalog is never changed.
   */
  lemma {:induction false} RunKeepsValid(a: State, events: seq<Event>)
    requires Valid(a)
    ensures Valid(Run(a, events))
    ensures Run(a, events).songs == a.songs
    decreases |events|
  {
    if |events| > 0 {
      StepKeepsValid(a, events[0]);
      RunKeepsValid(Step(a, events[0]), events[1..]);
    }
  }

  /** Events other than the library button never change the library. */
  lemma {:induction false} RunWithoutLikeKeepsLibrary(a: State, events: seq<Event>)
    requires forall i :: 0 <= i < |events| ==> !events[i].Like?
    ensures Run(a, events).library == a.library
    decreases |events|
  {
    if |events| > 0 {
      RunWithoutLikeKeepsLibrary(Step(a, events[0]), events[1..]);
    }
  }

  /** Pressing the library button twice on a song not yet in the library restores the whole state. */
  lemma LikeTwice(a: State, song: Track)
    requires !IsLiked(a, song)
    ensures Run(a, [Like(song), Like(song)]) == a
  {
    Library.ToggleTwice(a.library, song);
    var once := Step(a, Like(song));
    assert Run(a, [Like(song), Like(song)]) == Run(once, [Like(song)]);
    assert Run(once, [Like(song)]) == Run(Step(once, Like(song)), []);
  }

  /** In library view every song on screen shows as liked. */
  lemma LibraryViewAllLiked(a: State, k: int)
    requires a.viewLibrary && 0 <= k < |Displayed(a)|
    ensures IsLiked(a, Displayed(a)[k])
  {
  }

  /** In library view, removing a song from the library takes it off the screen. */
  lemma UnlikeHidesInLibraryView(a: State, song: Track)
    requires a.viewLibrary && IsLiked(a, song)
    ensures forall i :: 0 <= i < |Displayed(ToggleLibrary(a, song))| ==>
              Displayed(ToggleLibrary(a, song))[i].file != song.file
  {
  }

  /** Liking a song in an empty library and then unliking it. */
  lemma LikeUnlikeFromEmpty(songs: seq<Track>, x: Track)
    ensures ToggleLibrary(Init(songs, []), x).library == [x]
    ensures ToggleLibrary(ToggleLibrary(Init(songs, []), x), x).library == []
  {
  }
}
