/**
 * What both search-state cells (the one in App.jsx and the `useMovie` hook)
 * see of the movie database: the summary records of a title search and the
 * outcome of one search request, with the HTTP exchange abstracted away.
 */
module Search {
  import opened JsBuiltins

  /** Minimum query length, in UTF-16 code units, that starts a search. */
  const MinQueryLength: nat := 3

  /** Error text for a response whose status is not ok. */
  const NotOkMessage: string := "Something went wrong with fetching movies"

  /** Error text for a response body with `Response === "False"`. */
  const NoResultsMessage: string := "No movies found"

  /** One element of `data.Search`. */
  datatype SearchResult = SearchResult(imdbID: string, title: string, year: string, poster: string)

  /**
   * How one search request ends, as the provider and the transport decide:
   * a non-ok HTTP status, a body saying `Response: "False"`, a body with a
   * `Search` list, or a rejected `fetch`/`res.json()` promise with the
   * rejection's message (a network failure or a malformed body).
   */
  datatype Outcome =
    | NotOk
    | NoResults
    | Success(results: seq<SearchResult>)
    | Rejected(message: string)

  /** The message a failing outcome stores in `error` (the thrown or rejected error's `message`). */
  function FailureMessage(o: Outcome): (m: string)
    requires !o.Success?
    ensures o.NotOk? ==> m == NotOkMessage
    ensures o.NoResults? ==> m == NoResultsMessage
    ensures o.Rejected? ==> m == o.message
  {
    match o
    case NotOk => NotOkMessage
    case NoResults => NoResultsMessage
    case Rejected(msg) => msg
  }

  /**
   * Does this query pass the length gate (`query.length < 3` fails it) and
   * start a request? Three characters always pass; two pass only when one of
   * them needs a surrogate pair; one never does.
   */
  function StartsSearch(query: string): (b: bool)
    ensures |query| >= MinQueryLength ==> b
    ensures |query| < 2 ==> !b
    ensures (forall i :: 0 <= i < |query| ==> query[i] < FirstSupplementary) ==>
              (b <==> |query| >= MinQueryLength)
  {
    Utf16Length(query) >= MinQueryLength
  }

  /** Typing more characters never takes a query back below the gate. */
  lemma ExtendedQueryStartsSearch(query: string, more: string)
    requires StartsSearch(query)
    ensures StartsSearch(query + more)
  {
    Utf16LengthAppend(query, more);
  }

  /** Two emoji are four code units: they pass the gate that counts three. */
  lemma TwoEmojiStartSearch()
    ensures |"\U{1F600}\U{1F600}"| == 2 && StartsSearch("\U{1F600}\U{1F600}")
  {
    var s := "\U{1F600}\U{1F600}";
    assert s[0] >= FirstSupplementary && s[1] >= FirstSupplementary;
  }
}
