# Music station library: filtering, track store and player, modelled in Dafny

This project models the decision logic of a small music library web application in
Dafny and proves properties about it. The application has a browser front end and a
Flask back end, and the model covers both.

- **Filter criteria manager** (`FilterManager`, `filter.dfy`). A class whose genre and
  mood arrays are toggled in place (`TagList`). Its BPM, key and search fields are
  normalised as they are stored. A registered callback list is notified in order after
  every change. `getFilters` copies the record but shares the arrays.
- **Browser-side query** (`MusicLibraryAPI.getTracks`, `getTrack`, `getStreamUrl`,
  `catalog.dfy`). The filter chain is stated with JavaScript's comparison rules, where
  `null` compares as 0, `undefined` as NaN, and NaN compares false. It is proved equal
  to a reference predicate that ANDs one condition per dimension.
- **Server-side query and routes** (`tracks_api.dfy`). Query-parameter normalisation
  covers Python's `int()` and `str.split`. The list comprehensions are evaluated under
  Python's typing rules: a membership test or comparison on the wrong type raises, and
  the route answers SERVER_ERROR/500. The file also covers the create-validation rule
  and the not-found outcomes of the single-track routes.
- **Track store** (`Track`, `track_store.dfy`). A class over a list of track
  dictionaries, with a linear lookup loop, append on create, a whitelisted update loop
  and deletion by value.
- **Audio player** (`AudioPlayer`, `player.dfy`). A class over a media element model
  that holds source, position, duration, volume and the paused flag.
- **Time and count text** (`clock.dfy`, `ui.dfy`). This covers `formatTime`,
  `formatDuration` and the filter-count label, each with a reading-back function.

Support modules: `base.dfy` (Option, order-preserving subsequences), `text.dfy`
(lower-casing, substring search, decimal numerals, split/join) and `js_number.dfy`
(JavaScript numeric conversion and `parseInt`).

Generated ids, timestamps, whether the browser accepts `play()`, and the callbacks'
own behaviour are parameters or opaque handles.

Two behaviours of the code are easy to mistake for a tidier design, and the model
follows the code in both:

- `seek` does no clamping of its own. It only assigns `audio.currentTime`, and the
  media element clamps the position into `[0, duration]`. That is why the clamp lives
  in `Player.Transport.Seek`.
- `loadTrack` leaves `isPlaying` as it was, rather than returning the player to a
  stopped state.

## Model

| member | source | states |
|---|---|---|
| Filter.FilterManager.constructor | frontend/js/filter.js:2-12 | Starts with empty genre and mood arrays, null bounds and key, empty search and no callbacks |
| Filter.FilterManager.UpdateFilter | frontend/js/filter.js:15-43 | Genre/mood toggle `value` in the same array object. Bounds, key and search store the normalised input. Any other dimension, or an unknown filter type, is unchanged. The list of callbacks is notified once |
| Filter.FirstIndex | frontend/js/filter.js:20 | `indexOf` gives the first position holding the value, or -1 exactly when it is absent |
| Filter.TagList.IndexOf | frontend/js/filter.js:20 | The array scan returns the first matching index, or -1 |
| Filter.TagList.Splice | frontend/js/filter.js:22 | Removes exactly the element at the index |
| Filter.TagList.Push | frontend/js/filter.js:24 | Appends the value at the end |
| Filter.TagList.constructor | frontend/js/filter.js:4-5 | A new array is empty |
| Filter.Toggle | frontend/js/filter.js:20-25 | An absent value is appended at the end; a present value makes the list one shorter |
| Filter.ToggleMultiset | frontend/js/filter.js:20-25 | A toggle adds one occurrence of an absent value or removes one occurrence of a present one, and nothing else |
| Filter.ToggleTwiceRestores | frontend/js/filter.js:20-25 | Toggling an absent value twice restores the list exactly |
| Filter.ToggleKeepsNoDuplicates | frontend/js/filter.js:20-25 | A duplicate-free list stays duplicate-free, and the value is selected afterwards exactly when it was not before |
| Filter.BoundFromInput | frontend/js/filter.js:28-31 | A BPM bound is null exactly for empty input; otherwise it is `parseInt` of the input (a number or NaN) |
| Filter.BoundFromPrinted | frontend/js/filter.js:30 | A typed integer is stored as that number |
| Filter.KeyFromInput | frontend/js/filter.js:33-35 | The key is null exactly for empty input, otherwise the input; it is never "" |
| Filter.FilterManager.Reset | frontend/js/filter.js:46-57 | Installs new empty arrays and the initial scalars, leaves arrays handed out earlier untouched, and notifies every callback once |
| Filter.FilterManager.GetFilters | frontend/js/filter.js:60-62 | The copy has the manager's scalars and shares its genre and mood arrays |
| Filter.FilterManager.OnChange | frontend/js/filter.js:65-67 | Registers the callback after the existing ones and changes nothing else |
| Filter.FilterManager.NotifyChange | frontend/js/filter.js:70-72 | Calls every registered callback once, in registration order, each with a copy of the current criteria |
| Filter.Notifications | frontend/js/filter.js:71 | One call per callback, in order, all with the same criteria |
| Filter.FilterManager.ToggleSeenByEarlierCopy | frontend/js/filter.js:15-62 | A copy taken by `getFilters` before a genre toggle shares the genre array, so the query read from it has the toggled list. Its mood list and bounds are the ones from before the toggle |
| Filter.FirstChangeEmptiesGrid | frontend/js/filter.js:3-10 | On a new manager, any first filter change other than a maximum BPM leaves `bpmMax` null. `getTracks` on that manager's criteria then returns no track when every track has a positive BPM; `total` is still the catalog length |
| JsNumber.ToNumber | frontend/js/api.js:43 | `null` converts to 0, `undefined` to NaN, and a number to itself |
| JsNumber.GreaterEq | frontend/js/api.js:43 | `>=` holds exactly when both sides convert to numbers that compare; NaN or `undefined` on either side makes it false |
| JsNumber.LessEq | frontend/js/api.js:46 | `<=` under the same conversion |
| JsNumber.ParseInt | frontend/js/filter.js:30 | `parseInt` always gives a number or NaN, and gives NaN whenever the text, after leading white space, does not start with a digit or a sign |
| JsNumber.ParseIntOfPrinted | frontend/js/filter.js:30 | `parseInt` reads back any printed integer, even with non-numeric text after it |
| Text.Lower | frontend/js/api.js:56-59 | Lower-casing keeps the length, maps letters A-Z to a-z and leaves every other character alone |
| Text.ContainsAt | frontend/js/api.js:58-59 | `includes` holds exactly when the needle occurs at some offset |
| Catalog.GetTracksSelects | frontend/js/api.js:25-61 | The chain of `filter` calls computes the selection by the active stages |
| Catalog.ActiveStagesMatch | frontend/js/api.js:28-61 | A track passes every active stage exactly when it matches every dimension (genre OR within the list, mood, inclusive bounds, key, search over title or artist) |
| Catalog.SelectAllSpec | frontend/js/api.js:25-61 | The selection is an order-preserving subsequence holding exactly the elements that pass every stage |
| Catalog.GetTracks | frontend/js/api.js:24-68 | `total` is the catalog length, `filtered` the result length, and filtered ≤ total |
| Catalog.GetTracksSpec | frontend/js/api.js:24-68 | The result is an order-preserving subsequence of the catalog holding exactly the matching tracks. `total` is the catalog length, `filtered` is the result length, and filtered ≤ total |
| Catalog.GetTracksUnfiltered | frontend/js/api.js:24-68 | With no criteria (`{}`) the whole catalog comes back in order |
| Catalog.GetTrack | frontend/js/api.js:71-73 | No result exactly when no track has the id; otherwise the first track with that id |
| Catalog.GetStreamUrl | frontend/js/api.js:81-84 | The file path of the first track with the id, or null when there is none |
| Catalog.NullMaximumExcludesAll | frontend/js/api.js:45-47 | A null maximum bound is applied as 0 and removes every track with a positive BPM |
| Catalog.NullBoundsUnset | frontend/js/api.js:42-47 | A null bound becomes undefined, any other bound is kept, and genre, mood, key and search are kept. The query is unchanged when no bound is null |
| Catalog.GetTracksFixed | frontend/js/api.js:42-47 | The corrected query keeps the counts: `total` is the catalog length, `filtered` the result length, and filtered ≤ total |
| Catalog.GetTracksFixedSpec | frontend/js/api.js:42-47 | The corrected query keeps the whole catalog when nothing is selected, and agrees with `getTracks` when no bound is null |
| Catalog.GetTracksFixedMatches | frontend/js/api.js:24-68 | For any criteria, the corrected query returns an order-preserving subsequence of the catalog with the same counts. A track is kept exactly when it matches genre, mood, key and search and every bound that is not null |
| TrackStore.Store.constructor | backend/models/track.py:7 | The store starts empty |
| TrackStore.Store.GetAll | backend/models/track.py:10-12 | Returns the stored records, in order |
| TrackStore.IndexOfId | backend/models/track.py:15-20 | The index of the first record with the id, or -1 exactly when no record has it |
| TrackStore.Store.Locate | backend/models/track.py:17-20 | The lookup loop stops at the first record with the id |
| TrackStore.Store.GetById | backend/models/track.py:15-20 | The first record with the id, or None when there is none |
| TrackStore.NewRecord | backend/models/track.py:25-38 | A new record has the twelve keys. Title and filePath are copied; artist defaults to '', genre and mood to [], and bpm, key, duration and fileSize to None. It gets the given id and timestamps |
| TrackStore.Store.Create | backend/models/track.py:23-40 | Appends exactly the new record at the end and returns it; earlier records are unchanged |
| TrackStore.FindAfterAppend | backend/models/track.py:26-39 | After a create with a fresh id, lookup by that id finds the new record |
| TrackStore.FindOthersAfterAppend | backend/models/track.py:39 | A create leaves the lookup of every other existing id unchanged |
| TrackStore.ApplyFieldsSpec | backend/models/track.py:50-53 | The whitelist loop sets a field to the data's value exactly when it is listed and present in the data |
| TrackStore.ApplyFields | backend/models/track.py:50-53 | The whitelist loop removes no field, and leaves every field outside the list as it was |
| TrackStore.Updated | backend/models/track.py:50-55 | An updated record has updatedAt set to the new stamp, and every field outside the whitelist other than updatedAt is unchanged |
| TrackStore.UpdatedSpec | backend/models/track.py:50-55 | An update changes only whitelisted fields present in the data, plus updatedAt. Every other field (id, createdAt, duration, fileSize) is unchanged |
| TrackStore.Store.Update | backend/models/track.py:43-56 | An unknown id returns None and leaves the store unchanged. Otherwise the first matching record is replaced by its updated form, which is returned |
| TrackStore.RemoveFirst | backend/models/track.py:65 | `list.remove` of a value that is in the list makes it exactly one shorter |
| TrackStore.RemoveFirstAt | backend/models/track.py:65 | `list.remove` removes the value at its first position |
| TrackStore.RemoveFoundRecord | backend/models/track.py:61-65 | Removing the record `get_by_id` found removes exactly the entry at the first matching index |
| TrackStore.Store.Delete | backend/models/track.py:59-66 | An unknown id returns False and leaves the list unchanged. Otherwise exactly that one entry is removed and the result is True |
| TracksApi.ErrorStatus | backend/api/tracks.py:68-72 | Every error status is 4xx or 5xx; 404 is used exactly for TRACK_NOT_FOUND |
| TracksApi.TagParam | backend/api/tracks.py:13-14 | A genre or mood parameter gives no tags exactly when absent or empty; otherwise its comma-separated pieces, which join back to the parameter |
| Text.JoinSplit | backend/api/tracks.py:13-14 | Joining the pieces of a split with the separator gives back the text |
| Text.SplitJoin | backend/api/tracks.py:13-14 | Splitting a join of separator-free pieces gives back the pieces |
| TracksApi.PyInt | backend/api/tracks.py:15-16 | `int()` fails on blank text |
| TracksApi.PyIntOfPrinted | backend/api/tracks.py:15-16 | `int()` reads back every printed integer |
| TracksApi.ActiveChecksSpec | backend/api/tracks.py:13-42 | A comprehension runs exactly when its parameter is set: non-empty genre or mood (split on ','), a bound that parses to a non-zero int, a non-empty key, or a non-empty search (lower-cased) |
| TracksApi.PyIn | backend/api/tracks.py:25 | `g in field` evaluates for a list or a string and raises for anything else |
| TracksApi.AnyInSpec | backend/api/tracks.py:25-29 | `any(...)` raises exactly when some tag is wanted and the field is not a list or string; it is true exactly when some wanted tag is in the field |
| TracksApi.Compare | backend/api/tracks.py:33-35 | A bpm comparison evaluates only for an int and is then the inclusive comparison |
| TracksApi.FieldContains | backend/api/tracks.py:44-46 | A search test evaluates only when the field (default '') is a string |
| TracksApi.WalkKept | backend/api/tracks.py:21-46 | A record survives the pipeline exactly when every active condition evaluates, without raising, to True |
| TracksApi.SelectStep | backend/api/tracks.py:21-46 | Running one comprehension and then the rest equals walking each record through all of them |
| TracksApi.PipelineSelects | backend/api/tracks.py:21-46 | The comprehension chain fails exactly when some record raises, and otherwise keeps the records every check accepts |
| TracksApi.Filtered | backend/api/tracks.py:13-46 | When no comprehension raises, the result is no longer than the stored list |
| TracksApi.ListTracks | backend/api/tracks.py:9-61 | SERVER_ERROR/500 exactly when the comprehensions raise. Otherwise 200 with a listing whose `total` is the number of stored tracks and whose `filtered` is the result length, with filtered ≤ total |
| TracksApi.FilteredIsPipeline | backend/api/tracks.py:21-46 | `get_tracks`'s conditional rebinding chain is the pipeline of the active checks |
| TracksApi.SelectPySpec | backend/api/tracks.py:21-46 | The pipeline fails exactly when some record raises. Otherwise it returns an order-preserving subsequence holding exactly the kept records |
| TracksApi.ListTracksSpec | backend/api/tracks.py:9-61 | SERVER_ERROR/500 exactly when some record raises. Otherwise 200 with an order-preserving subsequence of all tracks holding exactly those every active check accepts. `total` is the number of all tracks, `filtered` the result length, and filtered ≤ total |
| TracksApi.ListTracksUnfiltered | backend/api/tracks.py:21-55 | Without any of the six parameters every track comes back in order |
| TracksApi.NullBpmFailsListing | backend/api/tracks.py:32-33 | A stored bpm of None makes any minimum-bpm request fail with SERVER_ERROR/500 |
| TracksApi.CreatedWithoutBpmBreaksListing | backend/api/tracks.py:32-33 | A track created without bpm, then `?bpm_min=100`, gives SERVER_ERROR/500 |
| TracksApi.ListTracksFixedSucceeds | backend/api/tracks.py:32-35 | Reading None as a missing bpm, the listing never fails on records whose fields have the expected types |
| TracksApi.ListTracksFixedAgrees | backend/api/tracks.py:32-35 | The corrected reading agrees with the code whenever no stored bpm is None |
| TracksApi.CreateAccepted | backend/api/tracks.py:106-110 | An accepted body has both title and filePath, as `create` requires |
| TracksApi.ListTracksRoute | backend/api/tracks.py:8-55 | The route answers the listing of the store's current tracks |
| TracksApi.GetTrackRoute | backend/api/tracks.py:63-74 | TRACK_NOT_FOUND/404 exactly when no track has the id; otherwise 200 with the first such track |
| TracksApi.CreateTrackRoute | backend/api/tracks.py:99-113 | INVALID_DATA/400 with the store unchanged when title or filePath is missing or falsy. Otherwise 201 with the new record appended; its createdAt and updatedAt are two separate clock readings |
| TracksApi.UpdateTrackRoute | backend/api/tracks.py:121-134 | TRACK_NOT_FOUND/404 with the store unchanged for an unknown id; otherwise 200 with the updated record |
| TracksApi.DeleteTrackRoute | backend/api/tracks.py:142-154 | TRACK_NOT_FOUND/404 with the store unchanged for an unknown id; otherwise 200 with exactly that entry removed |
| TracksApi.CreateThenGet | backend/api/tracks.py:63-113 | `POST /tracks` with a fresh id answers 201 with the new track, and a following `GET /tracks/<id>` answers 200 with that same track |
| Clock.PadStart2 | frontend/js/ui.js:112 | Padding yields at least two characters, keeps the text as its suffix and fills the front with '0' |
| Clock.ClockFields | frontend/js/ui.js:110-111 | For a non-negative time the seconds field is in 0..59, and minutes*60 + seconds is the whole number of seconds |
| Clock.TwoDigits | frontend/js/ui.js:112 | The seconds field is printed as exactly two digits that read back as its value |
| Clock.MinSecs | frontend/js/ui.js:110-112 | For a non-negative time the text ends in a colon and two digits, and reading it back gives the floor of the time |
| Clock.ClockRoundTrip | frontend/js/ui.js:110-112 | The text is the minutes, a colon and two digits, and reading "m:ss" back gives the floor of the time |
| Clock.ZeroClock | frontend/js/player.js:125-127 | Zero seconds print as "0:00" |
| Player.FormatTime | frontend/js/player.js:123-128 | "0:00" for NaN. For a non-negative time the text ends in ":ss" and reads back as the floor of the time |
| Player.ClampVolume | frontend/js/player.js:60 | The volume is in [0, 1]; values already in range are unchanged, and values below or above go to 0 or 1 |
| Player.StreamSource | frontend/js/player.js:17 | The source is the first matching track's file path, or the text "null" when the id is unknown |
| Player.Transport.constructor | frontend/js/player.js:3 | A new media element has no source, is paused, and has full volume and unknown duration |
| Player.Transport.SetSource | frontend/js/player.js:17 | Assigning a source pauses the element, moves to position 0 and forgets the duration |
| Player.Transport.MetadataLoaded | frontend/js/player.js:85-86 | The duration becomes known |
| Player.Transport.Play | frontend/js/player.js:29 | The element starts exactly when it accepts |
| Player.Transport.Pause | frontend/js/player.js:39 | The element is paused afterwards |
| Player.Transport.Seek | frontend/js/player.js:55 | The position is clamped into [0, duration], and is exactly the requested time when that is in range |
| Player.Transport.SetVolume | frontend/js/player.js:60 | The element's volume becomes the given in-range value |
| Player.AudioPlayer.constructor | frontend/js/player.js:2-11 | No current track, not playing, and a fresh paused element |
| Player.AudioPlayer.LoadTrack | frontend/js/player.js:14-24 | The track becomes current and the source becomes its stream URL. `isPlaying` is unchanged. A null track is stored and reported as failure, and the element is left as it was: source, paused flag, position, duration and volume |
| Player.AudioPlayer.Play | frontend/js/player.js:27-35 | `isPlaying` turns on only when the element accepts; on rejection nothing changes. The current track is untouched |
| Player.AudioPlayer.Pause | frontend/js/player.js:38-42 | Not playing, the element paused and the current track untouched |
| Player.AudioPlayer.TogglePlay | frontend/js/player.js:45-51 | Pauses when playing, otherwise plays. It keeps the flag in step with the element, and the current track and the element's source, volume, position and duration are unchanged |
| Player.AudioPlayer.OnEnded | frontend/js/player.js:79-82 | Not playing afterwards, current track untouched |
| Player.AudioPlayer.Seek | frontend/js/player.js:54-56 | With a known duration the element's position becomes the clamped time; while the duration is unknown the position stays. Playback state, current track, source, volume and duration are unchanged |
| Player.AudioPlayer.SetVolume | frontend/js/player.js:59-61 | The element's volume becomes the clamped value, and an in-range value is used unchanged. Playback state, current track, source, position and duration are unchanged |
| Player.AudioPlayer.OnTimeUpdate | frontend/js/player.js:64-76 | Nothing is shown when no track is loaded or the duration is NaN. Otherwise the formatted position and duration are shown |
| Player.AudioPlayer.OnLoaded | frontend/js/player.js:85-88 | Shows "0:00" next to the formatted duration |
| Ui.FormatDuration | frontend/js/ui.js:108-113 | "0:00" for a falsy duration. For a positive time the text reads back as the floor of the time |
| Ui.FormatDurationAgrees | frontend/js/ui.js:108-113 | `formatDuration` and the player's `formatTime` print the same text for every input, 0 included |
| Ui.CountLabel | frontend/js/ui.js:95 | For non-negative counts the label names the filtered count first and the total second, and both read back |

## Left out

- DOM rendering and event wiring (`updateUI`, `updatePlayButton`, `updateProgressBar`, `updatePlayerUI`, the card HTML, `escapeHtml`, app.js) are not modelled. They only move values into the page.
- `MusicLibraryAPI.initialize`, `getTags` and `Track.load_from_json` are not modelled. They load files (I/O); the catalog and the store's initial list are parameters instead.
- `stream_track` and Flask's routing, `jsonify` and `send_file` are not modelled; they are HTTP and file-system plumbing. A request body that is not a JSON object is not modelled either.
- uuid and `datetime.now()` are parameters; a fresh id is an explicit precondition where it matters.
- Letter case: lower-casing is modelled for ASCII letters only. Unicode case mapping is not modelled.
- Numbers: times are exact reals, with NaN as an absent value. IEEE rounding, infinities and negative zero are not modelled. BPM values are integers. `int()` accepts only ASCII digits here, although Python also accepts other Unicode decimal digits.
- JSON values: booleans, floats and nested objects are not modelled in stored tracks.
- Catalog: browser-side tracks are assumed to have string titles and artists and list-valued genre and mood, as the loaded data does; a malformed track that would make `getTracks` throw is not modelled.
- Callbacks: a callback's own effects are not modelled, including a callback that registers or changes filters while being notified. Each call is recorded in `delivered` instead.
- Player.AudioPlayer.Play: the un-awaited promise of `togglePlay` is treated as settling at once, so `play` is atomic. Its interleaving with a later `pause` is not modelled.
- Player.AudioPlayer.OnTimeUpdate: the progress percentage sent to `updateProgressBar` is not modelled (floating point); only the two time texts are.
- Player.AudioPlayer.OnEnded: the element's own state at the end of playback is not modelled; only the player's flag is.
- Player.AudioPlayer.Seek: inherits the limit of Player.Transport.Seek below for a seek made while the duration is unknown.
- Player.Transport.Seek: while the duration is unknown, the element keeps its position in this model. The browser instead records the request as the default start position.
- TrackStore.Store.Valid: every stored record is assumed to carry an 'id'. Records made by `create` and `update` always do. A record loaded by `load_from_json` without one would make `get_by_id` raise, and the routes would answer 500; that case is not modelled.
- TrackStore: the list and the dictionaries are values here. Python hands out the stored list and dictionaries by reference, so a caller mutating a returned list or track would change the store; that aliasing is not modelled.
- ui.js `updateFilterCount` DOM lookup: only the label text is modelled.

## Findings

| source | as written | input that shows it | evidently intended | confidence | as-written member | corrected member |
|---|---|---|---|---|---|---|
| frontend/js/api.js:45-47 | `getTracks` applies a BPM bound whenever it is not `undefined`. `filter.js` stores `null` for an empty bound box (filter.js:30), and `null` compares as 0 | Any filter change made while the maximum box is empty passes `bpmMax: null`. `track.bpm <= null` is then false for every track with a positive BPM, and the grid is empty | An empty bound imposes no constraint | not executed | Catalog.NullMaximumExcludesAll | Catalog.GetTracksFixedMatches |
| backend/api/tracks.py:32-35 | `t.get('bpm', 0) >= bpm_min` supplies the default only when the key is absent. `Track.create` stores `'bpm': None` for a track posted without bpm (track.py:31), and `None >= int` raises TypeError | POST a track without bpm, then GET `/tracks?bpm_min=100`: the listing answers SERVER_ERROR/500 | A missing bpm counts as 0 against the minimum and 999 against the maximum | not executed | TracksApi.CreatedWithoutBpmBreaksListing | TracksApi.ListTracksFixedSucceeds |
