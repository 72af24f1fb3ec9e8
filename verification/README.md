# Music player: library toggle and player state machine

This project is a Dafny model of the `SpotifyClone` React component of a
browser music player, with the rendering removed. Two pieces of logic are left:

- **The library** ("Your Library"). It is an ordered list of song records, and entries are
  told apart by their `file` field. A song card's library button toggles the song. If some
  entry has the same file, every such entry is filtered out. Otherwise the song is appended
  at the end. A card shows "Added" when `find` by file returns an entry.
- **The player modal**. It has an optional current song, which is a copy of the track plus
  its audio source path `"/songs/" + file`, and an `isPlaying` flag. Choosing a song loads it
  and sets playing. The play/pause button is ignored when no song is loaded and otherwise
  flips the flag. The close button clears both. The audio element's end-of-track event only
  clears the flag.

The whole component state (catalog, library, which list is shown, player) is
one immutable record, `App.State`. Each user or audio event is a pure transition
`App.Step`, and `App.Run` folds a sequence of events.

Files:

- `tracks.dfy` (module `Tracks`): the `Track` record and `Option`.
- `library.dfy` (module `Library`): `Find`, `Liked`, `RemoveFile` (the filter), `Toggle`,
  and the reference predicate `Removed`. `Removed` says "no entry with that file, every
  other song keeps its multiplicity, survivors keep their order". The lemmas show that the
  filter satisfies it and is the only list that does. They also cover the double-toggle
  round trip and uniqueness of files.
- `player.dfy` (module `Player`): the player state, its four transitions and the invariant
  `Valid`. `Valid` says the player only plays with a song loaded, and a loaded song's source
  is built from its file.
- `app.dfy` (module `App`): the component record, the displayed list, the events, and
  lemmas over arbitrary event sequences.

Behaviour of the code worth knowing when reading the model:

- End of track only clears `isPlaying` (`onEnded`, App.js line 298). There is no automatic
  advance to another song. `Player.Ended` does the same.
- The ⏮ and ⏭ controls have no handlers, so there is no next/previous navigation.
- `playSong` does not reset `progress`.
- The library is an array. A list loaded from storage is not checked for duplicates, so
  "one entry per file" is an invariant that `App.RunKeepsValid` carries from a unique start.
- Toggling a song that was absent twice gives back the original library
  (`Library.ToggleTwice`). When the song is already present, toggling it twice moves the
  entry for its file to the end and replaces it by the card's song
  (`Library.ToggleTwicePresent`). The set of files is unchanged. The list is unchanged only
  when the entry was last and equal to the song.

## Model

| member | source | states |
|---|---|---|
| Library.Find | myapp/src/App.js:59 | returns an entry exactly when some entry has the file; the entry has that file and no earlier entry does (first match, as `find` does) |
| Library.Liked | myapp/src/App.js:186 | the "liked" test holds exactly when some library entry has the song's file |
| Library.RemoveFile | myapp/src/App.js:61 | the filtered list is no longer than the library, has no entry with the file, and holds only entries of the library |
| Library.RemoveFileMeetsRemoved | myapp/src/App.js:61 | the filtered list has no entry with the file, keeps every other song with its multiplicity, and is a subsequence of the library, so relative order is kept |
| Library.RemovedIsRemoveFile | myapp/src/App.js:61 | any list meeting that description equals the filter's result, so the description is a complete specification of the filter |
| Library.Toggle | myapp/src/App.js:58-65 | liked flips; if the file was absent, the result is the old library with exactly the song appended at the end; if present, every entry with the file is removed and the rest keep their order and multiplicity |
| Library.RemoveFileAppend | myapp/src/App.js:61-63 | filtering out the file of a song just appended to a library without that file gives back the library |
| Library.ToggleTwice | myapp/src/App.js:58-65 | from a library with no entry for the song's file, toggling the song twice returns exactly the original library |
| Library.RemoveFileKeepsUnique | myapp/src/App.js:61 | filtering keeps a library with at most one entry per file that way |
| Library.ToggleKeepsUnique | myapp/src/App.js:58-65 | a toggle keeps a library with at most one entry per file that way |
| Library.RemoveFileAt | myapp/src/App.js:61 | in a library with one entry per file, filtering out the file of entry `k` removes exactly that entry and keeps the rest in order |
| Library.ToggleTwicePresent | myapp/src/App.js:58-65 | in a library with one entry per file, toggling a song that is present at position `k` twice gives the library without entry `k` and with the song appended at the end |
| Player.SourceFor | myapp/src/App.js:32 | the audio source is the songs directory `/songs/` followed by exactly the song's file |
| Player.SourceIdentifiesFile | myapp/src/App.js:32 | two songs get the same audio source exactly when they have the same file |
| Player.Play | myapp/src/App.js:31-34 | whatever the prior state, the current song becomes the chosen track with source `/songs/` + file, playing is set, and the result is a valid player state |
| Player.PlayLastWins | myapp/src/App.js:31-34 | choosing a song ignores the prior state, so of two choices in a row the last one wins |
| Player.TogglePlay | myapp/src/App.js:38-43 | with no current song nothing changes; with one, the song is kept and playing flips; validity is preserved |
| Player.TogglePlayTwice | myapp/src/App.js:38-43 | pressing play/pause twice returns to the same state |
| Player.Close | myapp/src/App.js:249-253 | closing leaves no current song and playback stopped, from any state |
| Player.ClosedIgnoresToggle | myapp/src/App.js:249-253 | after closing, play/pause leaves the player idle |
| Player.Ended | myapp/src/App.js:298 | end of track stops playback and keeps the current song; validity is preserved |
| Player.EndedThenResume | myapp/src/App.js:298 | after the track ends, play/pause resumes the same song |
| App.Init | myapp/src/App.js:4-8 | the component starts in the catalog view with no song loaded and not playing |
| App.InitValid | myapp/src/App.js:4-8 | the starting state satisfies the invariants exactly when the loaded library has one entry per file |
| App.Displayed | myapp/src/App.js:67 | the list shown is the library in library view and the catalog otherwise |
| App.IsLiked | myapp/src/App.js:186 | a card shows "Added" exactly when some library entry has the card's file, whichever list is shown |
| App.ToggleLibrary | myapp/src/App.js:58-65 | the library button flips "Added" for the song and leaves the player (current song, playing), the catalog and the view unchanged |
| App.ShowLibrary | myapp/src/App.js:91-107 | the menu entries only switch which list is shown |
| App.Step | myapp/src/App.js:185-298 | no event changes the catalog; only the library button changes the library, and it leaves the player unchanged; only the menu entries change the view, setting it to library view exactly for "Your Library", and they leave the player unchanged |
| App.StepKeepsValid | myapp/src/App.js:31-298 | every event keeps the library at one entry per file and the player valid |
| App.RunKeepsValid | myapp/src/App.js:31-298 | from a loaded library with one entry per file, any sequence of events keeps it so; the player never plays without a song; the catalog is unchanged |
| App.RunWithoutLikeKeepsLibrary | myapp/src/App.js:31-298 | a sequence of events without a library-button press leaves the library unchanged |
| App.LikeTwice | myapp/src/App.js:58-65 | pressing the library button twice on a song not in the library restores the whole component state |
| App.LibraryViewAllLiked | myapp/src/App.js:185-186 | in library view every displayed song shows as "Added" |
| App.UnlikeHidesInLibraryView | myapp/src/App.js:58-67 | in library view, removing a liked song leaves no displayed entry with its file |
| App.LikeUnlikeFromEmpty | myapp/src/App.js:58-65 | from an empty library, one press gives `[x]` and a second press gives `[]` |

## Left out

- Catalog loading (`fetch("/songs.json")` and its error logging, App.js lines 13-18) is network I/O. `App.Init` takes the loaded catalog as a parameter.
- Loading and saving the library through `localStorage` with `JSON.parse`/`JSON.stringify` (lines 20-27) is browser storage and foreign code. The library is the in-memory list. Saving rewrites the whole list after every change, so it adds no logic to model.
- Progress and seek (`handleTimeUpdate`, `handleSeek`, lines 45-56) use floating-point arithmetic and depend on JavaScript's `NaN` handling (`percent || 0`). The `progress` field is not part of the state.
- The audio element's `play`/`pause` calls and the 200 ms `setTimeout` before `play` (lines 35, 40-41, 250) are asynchronous device effects. The model tracks only the React state they accompany.
- Next/previous: the ⏮ and ⏭ controls (lines 278-291) have no handlers.
- Rendering, the sidebar toggle (`toggleSidebar` and the `setShowSidebar` calls), styling, the empty-list messages, and the inert Sign up / Log in buttons (lines 69-304) are presentation only.
- A library entry whose `file` is missing, or a library element that is not an object, cannot be expressed. `Track.file` is always a string.
