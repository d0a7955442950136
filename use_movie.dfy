/**
 * The `useMovie(query)` hook of useMovie.jsx: search state with cancellation.
 *
 * Each run of the `[query]` effect that passes the length gate creates an
 * `AbortController` and starts one request; the run's cleanup, executed
 * when the query changes again, aborts that controller and clears the error.
 * Requests are numbered in the order they start. Settlement of a request is
 * an event the environment delivers in any order; a request whose controller
 * was aborted settles as an `AbortError`, which the `catch` ignores.
 */
module UseMovie {
  import opened Optional
  import opened JsBuiltins
  import opened Search

  /**
   * The hook's cells (`movies`, `isLoading`, `error`) with the query of the
   * last effect run, the request whose controller is still live (the one the
   * registered cleanup would abort), the next request number, and the
   * requests that have started and not yet settled.
   */
  datatype HookState = HookState(
    query: string,
    movies: seq<SearchResult>,
    error: string,
    isLoading: bool,
    controller: Option<nat>,
    nextRequest: nat,
    inFlight: set<nat>)

  /** The query passed to the hook changes, or request `request` settles. */
  datatype HookEvent = QueryChanged(query: string) | Settle(request: nat, outcome: Outcome)

  /** The effect's cleanup, when its last run registered one: abort, clear the error. */
  function Cleanup(s: HookState): HookState
  {
    if s.controller.Some? then s.(controller := None, error := "") else s
  }

  /**
   * One run of the effect for `s.query`: below 3 code units the results and
   * the error are cleared and no request or cleanup is registered; otherwise
   * a fresh request starts with the loader raised and the error cleared.
   */
  function RunEffect(s: HookState): HookState
    requires s.controller.None?
  {
    if Utf16Length(s.query) < MinQueryLength then s.(movies := [], error := "")
    else
      var id := s.nextRequest;
      s.(isLoading := true, error := "", controller := Some(id),
         nextRequest := id + 1, inFlight := s.inFlight + {id})
  }

  /**
   * The hook's state after its first render with `query`: no results and no
   * error, and request 0 live and loading exactly when the query passes the gate.
   */
  function Mount(query: string): (r: HookState)
    ensures r.query == query && r.movies == [] && r.error == ""
    ensures StartsSearch(query) ==> r.isLoading && r.controller == Some(0) && r.inFlight == {0}
    ensures !StartsSearch(query) ==> !r.isLoading && r.controller.None? && r.inFlight == {}
  {
    RunEffect(HookState(query, [], "", false, None, 0, {}))
  }

  /**
   * A new query: the previous run's cleanup, then a new effect run; an
   * unchanged query runs nothing. A change always leaves the error empty,
   * never drops a request from the in-flight set, and makes a request live
   * exactly when the new query passes the gate, that request being a new one.
   */
  function OnQuery(s: HookState, q: string): (r: HookState)
    ensures q == s.query ==> r == s
    ensures r.query == q
    ensures q != s.query ==> r.error == "" && s.inFlight <= r.inFlight
    ensures q != s.query ==> (r.controller.Some? <==> StartsSearch(q))
    ensures q != s.query && r.controller.Some? ==>
              r.controller == Some(s.nextRequest) && r.nextRequest == s.nextRequest + 1
  {
    if q == s.query then s else RunEffect(Cleanup(s).(query := q))
  }

  /**
   * Request `r` settles. Only a request in flight can settle. The live
   * request stores its results (clearing the error) or its failure message
   * (keeping the results); an aborted one changes nothing but the loader,
   * which the `finally` block lowers in both cases.
   */
  function OnSettle(s: HookState, r: nat, o: Outcome): (t: HookState)
    ensures r !in s.inFlight ==> t == s
    ensures r in s.inFlight ==> !t.isLoading && t.inFlight == s.inFlight - {r}
    ensures t.query == s.query && t.controller == s.controller && t.nextRequest == s.nextRequest
    ensures s.controller != Some(r) ==> t.movies == s.movies && t.error == s.error
    ensures s.controller == Some(r) && r in s.inFlight && o.Success? ==> t.movies == o.results && t.error == ""
  {
    if r !in s.inFlight then s
    else
      var t := s.(inFlight := s.inFlight - {r}, isLoading := false);
      if s.controller != Some(r) then t
      else if o.Success? then t.(movies := o.results, error := "")
      else t.(error := FailureMessage(o))
  }

  function Step(s: HookState, e: HookEvent): HookState
  {
    match e
    case QueryChanged(q) => OnQuery(s, q)
    case Settle(r, o) => OnSettle(s, r, o)
  }

  /** The hook's state after a sequence of events, in the order they happen. */
  function Run(s: HookState, events: seq<HookEvent>): HookState
    decreases |events|
  {
    if events == [] then s else Run(Step(s, events[0]), events[1..])
  }

  /**
   * What every reachable state satisfies: a live controller exists exactly
   * when the last query passed the gate, and it belongs to the newest
   * request; every request in flight has started; the loader is shown only
   * while some request is in flight; and under a query that fails the gate
   * there are no results and no error.
   */
  ghost predicate Valid(s: HookState)
  {
    && (s.controller.Some? <==> StartsSearch(s.query))
    && (!StartsSearch(s.query) ==> s.movies == [] && s.error == "")
    && (s.controller.Some? ==> s.controller.value + 1 == s.nextRequest)
    && (forall r :: r in s.inFlight ==> r < s.nextRequest)
    && (s.isLoading ==> s.inFlight != {})
  }

  /** Request `r` has started and its controller has been aborted. */
  predicate Aborted(s: HookState, r: nat)
  {
    r < s.nextRequest && s.controller != Some(r)
  }

  lemma MountValid(query: string)
    ensures Valid(Mount(query))
  {
  }

  lemma StepValid(s: HookState, e: HookEvent)
    requires Valid(s)
    ensures Valid(Step(s, e))
  {
  }

  /** Every state reachable from a valid one is valid. */
  lemma {:induction false} RunValid(s: HookState, events: seq<HookEvent>)
    requires Valid(s)
    ensures Valid(Run(s, events))
    decreases |events|
  {
    if events != [] {
      StepValid(s, events[0]);
      RunValid(Step(s, events[0]), events[1..]);
    }
  }

  /** A query of fewer than 3 code units empties results and error and starts nothing. */
  lemma ShortQuery(s: HookState, q: string)
    requires q != s.query && !StartsSearch(q)
    ensures var r := OnQuery(s, q);
            r.movies == [] && r.error == "" && r.isLoading == s.isLoading &&
            r.controller.None? && r.nextRequest == s.nextRequest && r.inFlight == s.inFlight
  {
  }

  /** A query of 3 code units or more starts exactly one new request, which becomes the live one. */
  lemma LongQuery(s: HookState, q: string)
    requires q != s.query && StartsSearch(q)
    ensures var r := OnQuery(s, q);
            r.isLoading && r.error == "" && r.movies == s.movies &&
            r.controller == Some(s.nextRequest) && r.inFlight == s.inFlight + {s.nextRequest}
  {
  }

  /** Changing the query aborts the previous live request and leaves the error empty. */
  lemma QueryChangeAbortsPrevious(s: HookState, q: string)
    requires Valid(s) && q != s.query
    ensures OnQuery(s, q).error == ""
    ensures s.controller.Some? ==> Aborted(OnQuery(s, q), s.controller.value)
  {
  }

  /** The live request's success: its results, no error, no loader. */
  lemma LiveSuccess(s: HookState, results: seq<SearchResult>)
    requires s.controller.Some? && s.controller.value in s.inFlight
    ensures var r := OnSettle(s, s.controller.value, Success(results));
            r.movies == results && r.error == "" && !r.isLoading
  {
  }

  /** The live request's failure: its message, the results kept, no loader. */
  lemma LiveFailure(s: HookState, o: Outcome)
    requires s.controller.Some? && s.controller.value in s.inFlight && !o.Success?
    ensures var r := OnSettle(s, s.controller.value, o);
            r.movies == s.movies && !r.isLoading &&
            (o.NotOk? ==> r.error == NotOkMessage) &&
            (o.NoResults? ==> r.error == NoResultsMessage) &&
            (o.Rejected? ==> r.error == o.message)
  {
  }

  /** An aborted request never sets the error or the results; it only lowers the loader. */
  lemma AbortedSettle(s: HookState, r: nat, o: Outcome)
    requires Aborted(s, r) && r in s.inFlight
    ensures OnSettle(s, r, o) == s.(inFlight := s.inFlight - {r}, isLoading := false)
  {
  }

  /**
   * Whatever happens, while the query fails the gate the hook shows no
   * results and no error: a late answer to an earlier, longer query is ignored.
   */
  lemma ShortQueryStaysClear(s: HookState, events: seq<HookEvent>)
    requires Valid(s)
    ensures var t := Run(s, events);
            !StartsSearch(t.query) ==> t.movies == [] && t.error == ""
  {
    RunValid(s, events);
  }

  /**
   * The trace that fills the results in App.jsx (a long query, a short one,
   * then the long query's success) leaves them empty here.
   */
  lemma ShortQueryIgnoresLateResults(results: seq<SearchResult>)
    ensures var r := Run(Mount(""), [QueryChanged("int"), QueryChanged("in"), Settle(0, Success(results))]);
            !StartsSearch(r.query) && r.movies == [] && r.error == "" && !r.isLoading
  {
    var events := [QueryChanged("int"), QueryChanged("in"), Settle(0, Success(results))];
    var s1 := Step(Mount(""), events[0]);
    var s2 := Step(s1, events[1]);
    var s3 := Step(s2, events[2]);
    assert Run(Mount(""), events) == Run(s1, events[1..]);
    assert Run(s1, events[1..]) == Run(s2, events[2..]);
    assert Run(s2, events[2..]) == Run(s3, []);
  }

  /** Once aborted, a request stays aborted whatever happens next. */
  lemma {:induction false} AbortedStaysAborted(s: HookState, events: seq<HookEvent>, r: nat)
    requires Valid(s) && Aborted(s, r)
    ensures Aborted(Run(s, events), r)
    decreases |events|
  {
    if events != [] {
      StepValid(s, events[0]);
      AbortedStaysAborted(Step(s, events[0]), events[1..], r);
    }
  }

  /** `events` with the outcome of every settlement of request `r` replaced by `o`. */
  function Reassign(events: seq<HookEvent>, r: nat, o: Outcome): (t: seq<HookEvent>)
    ensures |t| == |events|
  {
    if events == [] then []
    else
      var e := events[0];
      [if e.Settle? && e.request == r then Settle(r, o) else e] + Reassign(events[1..], r, o)
  }

  /**
   * A superseded request is invisible: once its controller is aborted,
   * whatever the provider answers it (success, no results, failure) the
   * hook ends in the same state.
   */
  lemma {:induction false} SupersededOutcomeIrrelevant(s: HookState, events: seq<HookEvent>, r: nat, o: Outcome)
    requires Valid(s) && Aborted(s, r)
    ensures Run(s, Reassign(events, r, o)) == Run(s, events)
    decreases |events|
  {
    if events != [] {
      var e := events[0];
      var e' := Reassign(events, r, o)[0];
      assert Reassign(events, r, o)[1..] == Reassign(events[1..], r, o);
      assert Step(s, e') == Step(s, e);
      StepValid(s, e);
      AbortedStaysAborted(s, [e], r);
      assert Run(s, [e]) == Step(s, e);
      SupersededOutcomeIrrelevant(Step(s, e), events[1..], r, o);
    }
  }

  /**
   * The loader does not track the newest request: an aborted request that
   * settles lowers it although the request that replaced it is still in flight.
   */
  lemma StaleSettleHidesLoader(results: seq<SearchResult>)
    ensures var r := Run(Mount("int"), [QueryChanged("inte"), Settle(0, Success(results))]);
            !r.isLoading && r.controller == Some(1) && 1 in r.inFlight && r.movies == []
  {
    var events := [QueryChanged("inte"), Settle(0, Success(results))];
    var s1 := Step(Mount("int"), events[0]);
    var s2 := Step(s1, events[1]);
    assert Run(Mount("int"), events) == Run(s1, events[1..]);
    assert Run(s1, events[1..]) == Run(s2, []);
  }

  /**
   * A query of length 3 whose request returns two movies shows exactly
   * those two, in the provider's order, with no error and no loader.
   */
  lemma SearchExample(a: SearchResult, b: SearchResult)
    ensures var r := Run(Mount(""), [QueryChanged("int"), Settle(0, Success([a, b]))]);
            r.movies == [a, b] && r.error == "" && !r.isLoading
  {
    var events := [QueryChanged("int"), Settle(0, Success([a, b]))];
    var s1 := Step(Mount(""), events[0]);
    var s2 := Step(s1, events[1]);
    assert Run(Mount(""), events) == Run(s1, events[1..]);
    assert Run(s1, events[1..]) == Run(s2, []);
  }

  /** The hook's state cells and its effect's bookkeeping, changed by the two events. */
  class MovieSearch {
    var query: string
    var movies: seq<SearchResult>
    var isLoading: bool
    var error: string
    var controller: Option<nat>
    var nextRequest: nat
    var inFlight: set<nat>

    function State(): HookState
      reads this
    {
      HookState(query, movies, error, isLoading, controller, nextRequest, inFlight)
    }

    /** The first render of `useMovie(query)` and its first effect run. */
    constructor (initialQuery: string)
      ensures State() == Mount(initialQuery) && Valid(State())
    {
      query, movies, isLoading, error := initialQuery, [], false, "";
      controller, nextRequest, inFlight := None, 0, {};
      if Utf16Length(initialQuery) >= MinQueryLength {
        controller := Some(0);
        nextRequest := 1;
        inFlight := {0};
        isLoading := true;
        error := "";
      } else {
        movies := [];
        error := "";
      }
    }

    /** The caller renders the hook with query `q`. */
    method QueryChanged(q: string)
      requires Valid(State())
      modifies this
      ensures State() == OnQuery(old(State()), q) && Valid(State())
    {
      if q != query {
        if controller.Some? {
          // the previous run's cleanup: abort its controller, clear the error
          controller := None;
          error := "";
        }
        query := q;
        if Utf16Length(q) < MinQueryLength {
          movies := [];
          error := "";
        } else {
          var id := nextRequest;
          controller := Some(id);
          nextRequest := id + 1;
          inFlight := inFlight + {id};
          isLoading := true;
          error := "";
        }
      }
      StepValid(old(State()), HookEvent.QueryChanged(q));
    }

    /** Request `r` settles with outcome `o` (as an AbortError if its controller was aborted). */
    method Settle(r: nat, o: Outcome)
      requires Valid(State())
      modifies this
      ensures State() == OnSettle(old(State()), r, o) && Valid(State())
    {
      if r in inFlight {
        inFlight := inFlight - {r};
        if controller == Some(r) {
          match o {
            case Success(results) =>
              movies := results;
              error := "";
            case NotOk => error := NotOkMessage;
            case NoResults => error := NoResultsMessage;
            case Rejected(message) => error := message;
          }
        }
        isLoading := false;
      }
      StepValid(old(State()), HookEvent.Settle(r, o));
    }
  }
}
