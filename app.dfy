/**
 * The state of the `App` component of App.jsx and the handlers and effect
 * that update it.
 *
 * The search cells (`query`, `movies`, `error`, `isLoading`) are driven by
 * the `fetchMovies` effect. Its HTTP request is replaced by an `Outcome`
 * that the environment delivers later through `SettleFetch`; in between,
 * other events may happen, and several requests may be outstanding, since
 * this effect neither cancels nor checks for staleness.
 */
module App {
  import opened Optional
  import opened JsBuiltins
  import opened Search
  import opened Selection
  import opened Watchlist
  import opened MovieDetails

  /** The four search cells of `App`. */
  datatype SearchState = SearchState(query: string, movies: seq<SearchResult>, error: string, isLoading: bool)

  /** What can happen to the search cells: the user edits the query, or a request settles. */
  datatype SearchEvent = QueryChanged(query: string) | Settled(outcome: Outcome)

  /** The initial `useState` values; the effect's first run (query "") leaves them so. */
  const Initial: SearchState := SearchState("", [], "", false)

  /**
   * `setQuery(q)` followed by the effect on `[query]`: nothing runs when the
   * query did not change; a query shorter than 3 code units empties the
   * results and the error; otherwise `fetchMovies` runs up to its first
   * `await`, raising the loader and clearing the error.
   */
  function OnQuery(s: SearchState, q: string): (r: SearchState)
    ensures q == s.query ==> r == s
    ensures r.query == q
    ensures q != s.query && !StartsSearch(q) ==>
              r.movies == [] && r.error == "" && r.isLoading == s.isLoading
    ensures q != s.query && StartsSearch(q) ==>
              r.movies == s.movies && r.error == "" && r.isLoading
  {
    if q == s.query then s
    else if !StartsSearch(q) then s.(query := q, movies := [], error := "")
    else s.(query := q, isLoading := true, error := "")
  }

  /**
   * The rest of `fetchMovies` once its request has settled: a failure stores
   * its message and keeps the results, a success replaces the results and
   * leaves the error as it is, and the `finally` block lowers the loader.
   */
  function OnSettle(s: SearchState, o: Outcome): (r: SearchState)
    ensures !r.isLoading && r.query == s.query
    ensures o.Success? ==> r.movies == o.results && r.error == s.error
    ensures o.NotOk? ==> r.error == NotOkMessage && r.movies == s.movies
    ensures o.NoResults? ==> r.error == NoResultsMessage && r.movies == s.movies
    ensures o.Rejected? ==> r.error == o.message && r.movies == s.movies
  {
    if o.Success? then s.(movies := o.results, isLoading := false)
    else s.(error := FailureMessage(o), isLoading := false)
  }

  function Step(s: SearchState, e: SearchEvent): SearchState
  {
    match e
    case QueryChanged(q) => OnQuery(s, q)
    case Settled(o) => OnSettle(s, o)
  }

  /** The search cells after a sequence of events, in the order they happen. */
  function Run(s: SearchState, events: seq<SearchEvent>): SearchState
    decreases |events|
  {
    if events == [] then s else Run(Step(s, events[0]), events[1..])
  }

  lemma {:induction false} RunAppend(s: SearchState, a: seq<SearchEvent>, b: seq<SearchEvent>)
    ensures Run(s, a + b) == Run(Run(s, a), b)
    decreases |a|
  {
    if a == [] {
      assert a + b == b;
    } else {
      assert (a + b)[0] == a[0] && (a + b)[1..] == a[1..] + b;
      RunAppend(Step(s, a[0]), a[1..], b);
    }
  }

  /** An event that cannot change the results: a failure, or a query long enough to search. */
  predicate KeepsMovies(e: SearchEvent)
  {
    match e
    case QueryChanged(q) => StartsSearch(q)
    case Settled(o) => !o.Success?
  }

  /**
   * With no staleness check, the request that settles successfully last
   * decides the results: whatever happened before, later failures and later
   * long queries do not change them, whichever query that request was made for.
   */
  lemma {:induction false} LastSuccessWins(s: SearchState, earlier: seq<SearchEvent>, results: seq<SearchResult>,
                                           later: seq<SearchEvent>)
    requires forall i :: 0 <= i < |later| ==> KeepsMovies(later[i])
    ensures Run(s, earlier + [Settled(Success(results))] + later).movies == results
  {
    var tail := [Settled(Success(results))] + later;
    assert earlier + [Settled(Success(results))] + later == earlier + tail;
    RunAppend(s, earlier, tail);
    var t := Run(s, earlier);
    LaterEventsKeepMovies(OnSettle(t, Success(results)), later);
    assert tail[1..] == later;
  }

  lemma {:induction false} LaterEventsKeepMovies(s: SearchState, later: seq<SearchEvent>)
    requires forall i :: 0 <= i < |later| ==> KeepsMovies(later[i])
    ensures Run(s, later).movies == s.movies
    decreases |later|
  {
    if later != [] {
      assert KeepsMovies(later[0]);
      assert forall i :: 0 <= i < |later[1..]| ==> later[1..][i] == later[i + 1];
      LaterEventsKeepMovies(Step(s, later[0]), later[1..]);
    }
  }

  /** The messages that the settled failures among `events` carry. */
  function FailureMessages(events: seq<SearchEvent>): set<string>
  {
    if events == [] then {}
    else (if events[0].Settled? && !events[0].outcome.Success?
          then {FailureMessage(events[0].outcome)} else {}) + FailureMessages(events[1..])
  }

  /**
   * Every error the banner can show was produced by a failed request (or was
   * there before): the cells never invent an error text.
   */
  lemma {:induction false} ErrorComesFromFailure(s: SearchState, events: seq<SearchEvent>)
    ensures var e := Run(s, events).error;
            e == "" || e == s.error || e in FailureMessages(events)
    decreases |events|
  {
    if events != [] {
      ErrorComesFromFailure(Step(s, events[0]), events[1..]);
    }
  }

  /** The results shown were delivered by some successful request, or were there before, or are empty. */
  lemma {:induction false} MoviesComeFromSuccess(s: SearchState, events: seq<SearchEvent>)
    ensures var m := Run(s, events).movies;
            m == [] || m == s.movies ||
            exists i :: 0 <= i < |events| && events[i] == Settled(Success(m))
    decreases |events|
  {
    if events != [] {
      var t := Step(s, events[0]);
      MoviesComeFromSuccess(t, events[1..]);
      var m := Run(s, events).movies;
      if m != [] && m != s.movies && m != t.movies {
        var i :| 0 <= i < |events[1..]| && events[1..][i] == Settled(Success(m));
        assert events[i + 1] == Settled(Success(m));
      }
    }
  }

  /**
   * Two overlapping requests: the older one fails after the newer one has
   * started, then the newer one succeeds. `movies` holds the newer results,
   * yet `error` keeps the older failure's message, because a success does not
   * clear the error in this effect. While `error` is set the error banner
   * replaces the result list, so the new results show only as their count.
   */
  lemma OverlapKeepsStaleError(results: seq<SearchResult>)
    ensures var r := Run(Initial, [QueryChanged("int"), QueryChanged("inte"), Settled(NotOk), Settled(Success(results))]);
            r.movies == results && r.error == NotOkMessage && !r.isLoading
  {
    var events := [QueryChanged("int"), QueryChanged("inte"), Settled(NotOk), Settled(Success(results))];
    var s1 := Step(Initial, events[0]);
    var s2 := Step(s1, events[1]);
    var s3 := Step(s2, events[2]);
    var s4 := Step(s3, events[3]);
    assert Run(Initial, events) == Run(s1, events[1..]);
    assert Run(s1, events[1..]) == Run(s2, events[2..]);
    assert Run(s2, events[2..]) == Run(s3, events[3..]);
    assert Run(s3, events[3..]) == Run(s4, []);
  }

  /**
   * A request for a long query succeeds after the user has shortened the
   * query below the gate: the short query emptied the results, yet the late
   * success fills them again, since this effect neither cancels nor checks
   * which query a response belongs to.
   */
  lemma LateSuccessUnderShortQuery(results: seq<SearchResult>)
    ensures var r := Run(Initial, [QueryChanged("int"), QueryChanged("in"), Settled(Success(results))]);
            !StartsSearch(r.query) && r.movies == results && r.error == "" && !r.isLoading
  {
    var events := [QueryChanged("int"), QueryChanged("in"), Settled(Success(results))];
    var s1 := Step(Initial, events[0]);
    var s2 := Step(s1, events[1]);
    var s3 := Step(s2, events[2]);
    assert Run(Initial, events) == Run(s1, events[1..]);
    assert Run(s1, events[1..]) == Run(s2, events[2..]);
    assert Run(s2, events[2..]) == Run(s3, []);
  }

  /** The App component's state cells, changed by its handlers and its effect. */
  class AppState {
    var movies: seq<SearchResult>
    var watched: Watched
    var isLoading: bool
    var error: string
    var query: string
    var selectedId: SelectedId

    function Cells(): SearchState
      reads this
    {
      SearchState(query, movies, error, isLoading)
    }

    constructor ()
      ensures Cells() == Initial && watched == [] && selectedId == None
    {
      movies, watched, isLoading, error, query, selectedId := [], [], false, "", "", None;
    }

    /** `handleSelectMovieDetails(id)`. */
    method HandleSelectMovieDetails(id: string)
      modifies this
      ensures selectedId == Toggle(old(selectedId), id)
      ensures watched == old(watched) && Cells() == old(Cells())
    {
      if selectedId == Some(id) {
        selectedId := None;
      } else {
        selectedId := Some(id);
      }
    }

    /** `handleCloseMovieDetails()`. */
    method HandleCloseMovieDetails()
      modifies this
      ensures selectedId == Close(old(selectedId))
      ensures watched == old(watched) && Cells() == old(Cells())
    {
      selectedId := None;
    }

    /** `handleAddWatchedMovie(movie)`. */
    method HandleAddWatchedMovie(movie: WatchedEntry)
      modifies this
      ensures watched == Add(old(watched), movie)
      ensures selectedId == old(selectedId) && Cells() == old(Cells())
    {
      watched := watched + [movie];
    }

    /** `handleDeleteWatchedMovie(id)`. */
    method HandleDeleteWatchedMovie(id: string)
      modifies this
      ensures watched == Delete(old(watched), id)
      ensures selectedId == old(selectedId) && Cells() == old(Cells())
    {
      watched := Delete(watched, id);
    }

    /**
     * `handleAdd` of the open `MovieDetails` pane (which exists only while a
     * movie is selected): build the entry, add it, close the pane.
     */
    method HandleAdd(movie: MovieDetail, userRating: nat)
      requires selectedId.Some?
      modifies this
      ensures watched == Add(old(watched), NewWatchedMovie(old(selectedId).value, movie, userRating))
      ensures selectedId == None && Cells() == old(Cells())
    {
      var newWatchedMovie := NewWatchedMovie(selectedId.value, movie, userRating);
      HandleAddWatchedMovie(newWatchedMovie);
      HandleCloseMovieDetails();
    }

    /** `setQuery(q)` and the run of the `[query]` effect it triggers. */
    method SetQuery(q: string)
      modifies this
      ensures Cells() == OnQuery(old(Cells()), q)
      ensures watched == old(watched) && selectedId == old(selectedId)
    {
      if q != query {
        query := q;
        if Utf16Length(q) < MinQueryLength {
          movies := [];
          error := "";
        } else {
          isLoading := true;
          error := "";
        }
      }
    }

    /** One outstanding `fetchMovies` request settles with outcome `o`. */
    method SettleFetch(o: Outcome)
      modifies this
      ensures Cells() == OnSettle(old(Cells()), o)
      ensures watched == old(watched) && selectedId == old(selectedId)
    {
      match o {
        case NotOk => error := NotOkMessage;
        case NoResults => error := NoResultsMessage;
        case Rejected(message) => error := message;
        case Success(results) => movies := results;
      }
      isLoading := false;
    }
  }
}
