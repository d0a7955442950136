# usePopcorn: search, selection and watched-list state, in Dafny

usePopcorn is a small React application. The user types a title fragment, the
app searches the OMDb movie database, and the user can open a movie's detail
pane, rate it and add it to a "watched" list, then delete entries again. A
summary panel shows the number of watched movies and their average ratings
and runtime.

This project models the application's state logic. It does not model the
rendering.

- `src/App.jsx` defines the `App` component, which has six state cells: `movies`,
  `watched`, `isLoading`, `error`, `query` and `selectedId`. The model has:
  - the pure updaters as functions: the selection toggle, `[...watched, movie]`,
    the delete-by-id `filter`, `some`/`find`, and the `average` fold;
  - the handlers and the `fetchMovies` effect as methods of the class
    `App.AppState`, which update those cells one at a time.
- `src/useMovie.jsx` defines the `useMovie` hook, the same search with
  cancellation. It is the class `UseMovie.MovieSearch`, driven by two events:
  the query changes, or a numbered request settles. The order of events is the
  model's input.

The HTTP exchange is replaced by an abstract `Search.Outcome`. It is one of: a
non-ok status, a "no results" body, a `Search` list, or a rejected promise with
its message. Each class method's postcondition ties its new state to a pure
transition function (`App.OnQuery`/`App.OnSettle`, `UseMovie.OnQuery`/
`UseMovie.OnSettle`). Lemmas over `Run(state, events)` state what holds along
any order of events.

Files: `option.dfy` (null/undefined), `js_builtins.dfy` (string `length`,
`Number()` and `split(" ")[0]`), `search.dfy` (search records, outcomes, error
texts, the length gate), `selection.dfy`, `watchlist.dfy`, `summary.dfy`,
`movie_details.dfy`, `app.dfy`, `use_movie.dfy`.

Behaviours of the code that the model pins down:

- In `App.jsx`, a successful search does not clear `error`. Take two
  overlapping requests where the older one fails after the newer one has
  started, and the newer one then succeeds. `movies` holds the new results,
  but `error` still holds the older failure's message
  (`App.OverlapKeepsStaleError`). While `error` is set, the result list is not
  rendered and the error banner takes its place, so the new results show only
  as the count in the navigation bar. `useMovie.jsx` clears `error` on success.
- In `App.jsx`, changing the query cancels nothing. A request for a long query
  can succeed after the query has been shortened below the gate; it then fills
  `movies` again under the short query (`App.LateSuccessUnderShortQuery`). In
  `useMovie.jsx`, the cleanup aborts that request. Under a short query the hook
  always has no results and no error (`UseMovie.ShortQueryStaysClear`,
  `UseMovie.ShortQueryIgnoresLateResults`).
- In `useMovie.jsx`, the `finally` block lowers `isLoading` for aborted
  requests too. A superseded request can hide the loader while the current
  request is still in flight (`UseMovie.StaleSettleHidesLoader`).
- In both files, a failed search sets `error` and keeps the previous results.
- The gate `query.length < 3` counts UTF-16 code units, not characters. Two
  emoji make a query of length 4, which starts a search
  (`Search.TwoEmojiStartSearch`).

## Model

| member | source | states |
|---|---|---|
| Summary.AverageFold | src/App.jsx:6-7 | a NaN running total stays NaN to the end; a finite total over finite elements gives a finite result |
| Summary.Average | src/App.jsx:6-7 | the average of an empty list is 0, not NaN; over finite values it is finite |
| Summary.AverageIsMean | src/App.jsx:6-7 | over finite values, the fold that adds each element divided by the length equals the sum divided by the length |
| Summary.AverageWithNaN | src/App.jsx:6-7 | one NaN element makes the average NaN |
| Summary.AverageSingle | src/App.jsx:6-7 | the average of a single value is that value |
| Summary.Figures | src/App.jsx:292-295 | the count is the list's length; an empty list shows count 0 and three averages of 0; each average is finite when that field is finite in every entry |
| Summary.FiguresAreMeans | src/App.jsx:292-295 | over a non-empty list, each of the three averages shown is the arithmetic mean (sum divided by count) of that field, whenever the field is finite in every entry |
| Summary.FiguresOfOne | src/App.jsx:292-295 | one watched movie with finite figures shows count 1, and each average is that movie's own rating or runtime |
| Selection.Toggle | src/App.jsx:19-27 | the result is none exactly when the clicked id was the open one; otherwise it is the clicked id |
| Selection.ToggleTwiceFromNone | src/App.jsx:19-27 | selecting the same id twice from none returns to none |
| Selection.ToggleTwice | src/App.jsx:19-27 | two clicks on the same id restore that id if it was open, and otherwise end at none |
| Selection.Close | src/App.jsx:29-31 | closing gives none whatever was open |
| Selection.CloseThenSelect | src/App.jsx:29-31 | after closing, selecting an id opens it (no toggle-close) |
| App.AppState.HandleSelectMovieDetails | src/App.jsx:19-27 | the selection becomes the toggle of the old selection; the watched list and the search cells are unchanged |
| App.AppState.HandleCloseMovieDetails | src/App.jsx:29-31 | the selection becomes none; nothing else changes |
| Watchlist.Add | src/App.jsx:32-34 | the length grows by one, the earlier entries are unchanged, the new entry is last |
| Watchlist.AddAllowsDuplicate | src/App.jsx:32-34 | adding an id that is already present is not rejected: at least two entries then carry that id, so the ids are no longer unique |
| Watchlist.CountAfterAdd | src/App.jsx:32-34 | adding raises the count of the new entry's id by exactly one and leaves the count of every other id unchanged |
| Watchlist.IsWatchedAfterAdd | src/App.jsx:32-34 | after an add, an id is watched iff it was watched before or is the new entry's id |
| Watchlist.UniqueAfterAdd | src/App.jsx:32-34 | on a list with unique ids, adding keeps ids unique iff the new id was not watched |
| App.AppState.HandleAddWatchedMovie | src/App.jsx:32-34 | the watched list becomes `Add` of the old list; the selection and the search cells are unchanged |
| Watchlist.Delete | src/App.jsx:36-38 | an entry is kept iff it was in the list and its id differs from the deleted id; the list never grows |
| Watchlist.DeleteAppend | src/App.jsx:36-38 | deleting distributes over concatenation, so the kept entries keep their original order |
| Watchlist.DeleteLength | src/App.jsx:36-38 | the length drops by exactly the number of entries with that id |
| Watchlist.DeleteAbsent | src/App.jsx:36-38 | deleting an id that is not present changes nothing |
| Watchlist.DeleteIdempotent | src/App.jsx:36-38 | deleting twice equals deleting once |
| Watchlist.DeleteCommutes | src/App.jsx:36-38 | deletions of two ids give the same list in either order |
| Watchlist.IsWatchedAfterDelete | src/App.jsx:36-38 | after deleting x, an id is watched iff it was watched before and differs from x |
| Watchlist.UniqueAfterDelete | src/App.jsx:36-38 | deleting keeps ids unique |
| Watchlist.DeleteUniqueRemovesOne | src/App.jsx:36-38 | with unique ids, deleting a watched id removes exactly one entry |
| App.AppState.HandleDeleteWatchedMovie | src/App.jsx:36-38 | the watched list becomes `Delete` of the old list by the id; nothing else changes |
| Watchlist.AddThenDelete | src/App.jsx:32-38 | adding entry e and then deleting e's id restores the previous list when no entry had that id |
| Watchlist.AddThenDeleteDropsDuplicates | src/App.jsx:32-38 | without that condition, add-then-delete equals deleting the id from the old list |
| App.OnQuery | src/App.jsx:66-72 | an unchanged query runs nothing; a query failing the 3-code-unit gate empties `movies` and `error` and leaves `isLoading`; a longer one raises `isLoading`, clears `error` and keeps `movies` |
| App.AppState.SetQuery | src/App.jsx:40-73 | the search cells become `OnQuery` of the old cells; the selection and the watched list are unchanged |
| App.OnSettle | src/App.jsx:43-63 | after every settlement `isLoading` is false; non-ok and "no results" store their messages and keep `movies`; a rejection stores its message; a success replaces `movies` and leaves `error` alone |
| App.AppState.SettleFetch | src/App.jsx:43-63 | the search cells become `OnSettle` of the old cells; the selection and the watched list are unchanged |
| App.AppState.constructor | src/App.jsx:12-17 | the cells start as empty results, empty list, no loader, no error, empty query and no selection |
| App.LastSuccessWins | src/App.jsx:43-63 | there is no staleness check: whatever came before, after a success, later failures and later long queries leave `movies` as that success's list, whichever query it was for |
| App.ErrorComesFromFailure | src/App.jsx:43-70 | along any event order, `error` is empty, unchanged, or the message of some failed request |
| App.MoviesComeFromSuccess | src/App.jsx:43-70 | along any event order, `movies` is empty, unchanged, or the list of some successful request |
| App.OverlapKeepsStaleError | src/App.jsx:40-73 | two overlapping requests, the older failing last but one: `movies` holds the newer success's list and `error` keeps the older failure's message |
| Watchlist.IsWatchedIffCounted | src/App.jsx:185 | `isWatched` holds exactly when at least one entry carries the id |
| Watchlist.FindIndex | src/App.jsx:186-188 | `find` stops at the first entry with the id, and finds none exactly when no entry has it |
| Watchlist.Find | src/App.jsx:186-188 | `find` returns an entry exactly when `isWatched` holds, and it is the first entry carrying the id |
| Watchlist.WatchedUserRating | src/App.jsx:185-188 | the rating is defined iff `isWatched`, and it is the rating of the first entry with that id |
| MovieDetails.AddEnabled | src/App.jsx:255-262 | the add button shows exactly when `watchedUserRating` is undefined and the star rating is above 0; then `find` finds no entry for the open movie |
| MovieDetails.GatedAdd | src/App.jsx:255-270 | adding through the gated button keeps ids unique; afterwards the movie is watched and its rating is the one just given |
| MovieDetails.WatchedDisablesAdd | src/App.jsx:255-270 | once the movie is watched, no rating enables the add button again |
| MovieDetails.NewWatchedMovie | src/App.jsx:203-212 | the new entry carries the open movie's id, the detail record's title, year and poster, and the star rating as its user rating (positive when the button was enabled); its converted IMDb rating and runtime are never negative |
| MovieDetails.RuntimeIsLeadingNumber | src/App.jsx:210 | a runtime "<n> <unit>" is stored as the number n |
| MovieDetails.RuntimeExample | src/App.jsx:210 | "148 min" is stored as 148 |
| MovieDetails.ImdbRatingExamples | src/App.jsx:209 | `Number("8.6")` is 8.6 and `Number("N/A")` is NaN |
| App.AppState.HandleAdd | src/App.jsx:203-215 | the watched list gains the entry built from the open id, the detail record and the rating; then the selection is none |
| JsBuiltins.FirstWord | src/App.jsx:210 | `split(" ")[0]` is a prefix without spaces, followed in the string by a space unless it is all of it |
| JsBuiltins.FirstWordOfPrefix | src/App.jsx:210 | the first word of "w rest" is w when w has no space |
| JsBuiltins.ParseNumber | src/App.jsx:209-211 | `Number("")` is 0, a digit string converts to its decimal value, and a finite result is never negative |
| JsBuiltins.ParseNatToString | src/App.jsx:210 | `Number` of the decimal rendering of n is n |
| JsBuiltins.ParseForeignCharIsNaN | src/App.jsx:209-210 | a string with a character other than a digit or '.' converts to NaN |
| JsBuiltins.ParseTwoDotsIsNaN | src/App.jsx:209-210 | a string with two decimal points converts to NaN |
| JsBuiltins.Utf16Length | src/App.jsx:66 | `length` lies between the number of characters and twice that; it equals the number of characters when none is outside the Basic Multilingual Plane, and twice it when all are |
| Search.StartsSearch | src/App.jsx:66 | a query of 3 characters always passes the gate and one of fewer than 2 never does; without supplementary characters the gate is exactly 3 characters |
| Search.ExtendedQueryStartsSearch | src/App.jsx:66 | appending to a query that passes the gate gives a query that passes it |
| Search.TwoEmojiStartSearch | src/App.jsx:66 | a query of two emoji, 2 characters long, passes the gate |
| Search.FailureMessage | src/App.jsx:50-60 | a non-ok response stores "Something went wrong with fetching movies", a "False" response "No movies found", and a rejection its own message |
| App.LateSuccessUnderShortQuery | src/App.jsx:40-73 | a long query, then a short one, then the long query's success: `movies` holds that success's list under the short query, with no error and no loader |
| UseMovie.Mount | src/useMovie.jsx:4-49 | the first render has no results and no error; request 0 is live, in flight and loading exactly when the query passes the gate |
| UseMovie.OnQuery | src/useMovie.jsx:10-54 | an unchanged query changes nothing; a new one leaves `error` empty, keeps every request in flight, and makes a request live exactly when it passes the gate, that request being the next-numbered one |
| UseMovie.OnSettle | src/useMovie.jsx:12-41 | a request not in flight changes nothing; one in flight leaves the set and lowers `isLoading`; only the live request changes `movies` or `error`, and its success stores its list and clears `error` |
| UseMovie.MountValid | src/useMovie.jsx:4-55 | the state after the first render satisfies the hook invariant |
| UseMovie.StepValid | src/useMovie.jsx:10-55 | each event preserves the invariant: the live controller exists iff the query passed the gate and is the newest request, the loader shows only while a request is in flight, and a query that fails the gate has no results and no error |
| UseMovie.RunValid | src/useMovie.jsx:10-55 | the invariant holds after any order of events |
| UseMovie.ShortQuery | src/useMovie.jsx:43-47 | a short query empties `movies` and `error`, keeps `isLoading`, starts no request and registers no cleanup |
| UseMovie.LongQuery | src/useMovie.jsx:11-15 | a query that passes the gate starts exactly one new request, makes it live, raises `isLoading` and clears `error` |
| UseMovie.QueryChangeAbortsPrevious | src/useMovie.jsx:51-54 | a query change leaves `error` empty and aborts the previously live request |
| UseMovie.LiveSuccess | src/useMovie.jsx:32-33 | the live request's success sets `movies` to its list and `error` to "", and lowers `isLoading` |
| UseMovie.LiveFailure | src/useMovie.jsx:24-37 | the live request's failure stores the non-ok, "no results" or rejection message, keeps `movies` and lowers `isLoading` |
| UseMovie.AbortedSettle | src/useMovie.jsx:34-40 | an aborted request changes neither `error` nor `movies`; it only lowers `isLoading` and leaves the in-flight set |
| UseMovie.ShortQueryStaysClear | src/useMovie.jsx:43-54 | after any events, while the query fails the gate, `movies` is empty and `error` is "" |
| UseMovie.ShortQueryIgnoresLateResults | src/useMovie.jsx:34-54 | a long query, then a short one, then the long query's success: no results, no error and no loader |
| UseMovie.AbortedStaysAborted | src/useMovie.jsx:51-54 | once aborted, a request stays aborted after any events |
| UseMovie.SupersededOutcomeIrrelevant | src/useMovie.jsx:10-55 | once a request is aborted, what the provider answers it never influences the hook's state after any events |
| UseMovie.StaleSettleHidesLoader | src/useMovie.jsx:38-40 | a superseded request that settles lowers `isLoading` while its replacement is still in flight |
| UseMovie.SearchExample | src/useMovie.jsx:32-33 | the query "int" answered with two movies shows exactly those two, in order, with no error and no loader |
| UseMovie.MovieSearch.constructor | src/useMovie.jsx:4-49 | the state after the first render is `Mount` of the initial query, and it is valid |
| UseMovie.MovieSearch.QueryChanged | src/useMovie.jsx:43-54 | the cleanup and then the effect run: the new state is `OnQuery` of the old one, and the invariant is kept |
| UseMovie.MovieSearch.Settle | src/useMovie.jsx:12-41 | the new state is `OnSettle` of the old one, and the invariant is kept |

## Left out

- The JSX rendering components and markup: `Loader`, `ErrorMessage`, `Search`, `NumResults`, `Main`, `MovieList`, `Movie`, `WatchedMoviesList`, `WatchedMovie`, and the markup of `WatchedSummary` and `MovieDetails`. They are presentation only.
- The `toFixed(2)` formatting in the summary, and the `selectedId ?` truthiness test that mounts the detail pane. Both are rendering; an empty-string id would not open the pane.
- The network: `fetch` to omdbapi.com, the URL with the embedded API key, and `res.json()`. They are replaced by the `Search.Outcome` value that an event delivers.
- The detail-fetch effect of `MovieDetails` (src/App.jsx:217-228). It is an uncancelled one-shot request with no logic; its record is an input (`MovieDetails.MovieDetail`) of `HandleAdd`.
- `src/useLocalStorageState.jsx` is not part of this model. It is a wrapper over `localStorage` and JSON: the stored value if truthy, else the initial value.
- Floating point: numbers are exact reals, so the rounding in `average` is not modelled.
- JsBuiltins.ParseNumber: models `Number()` only for "", digit strings and digit strings with one decimal point. Signs, exponents, surrounding whitespace, "Infinity" and hexadecimal forms, which JavaScript reads as numbers, come out as NaN here.
- MovieDetails.NewWatchedMovie: takes the star rating as a natural number. The `StarRating` component (`maxRating={10}`) is not part of this model; the model assumes it passes a whole number to `onSetRating`. The initial rating, the empty string, is taken as 0, which the `userRating > 0` gate (src/App.jsx:262) rejects just as it rejects `""`. A detail record with no `Runtime` field, where `runtime.split` would throw, is not modelled: every field is a string.
- React runtime mechanics: batching of state updates, effect scheduling, StrictMode double runs, and the cleanup on unmount. Events are applied one at a time, and each setter's update is visible immediately.
- The `AbortController` and the transport internals. A request whose controller was aborted settles as an AbortError whatever the network did, as an atomic event; the two separate `await` points of a request are not distinguished.
- `App.AppState.SettleFetch` and `UseMovie.MovieSearch.Settle` take their outcomes from the environment. `App` does not number its requests, so a settlement event there carries no request and the events may arrive in any order; the hook numbers them, and a settlement of a request not in flight leaves it unchanged.
- The unshown `Box`, `NavBar` and `StarRating` components, which `App.jsx` imports but does not define.
