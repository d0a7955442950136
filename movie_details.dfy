/**
 * What the `MovieDetails` component of App.jsx computes from its props and
 * state: whether the open movie is already watched, the rating it was given,
 * the gate on the "Add to list" button, and the record `handleAdd` builds.
 */
module MovieDetails {
  import opened Optional
  import opened JsBuiltins
  import opened Watchlist

  /** The fields of a fetched detail record that `handleAdd` reads (all strings in the API). */
  datatype MovieDetail = MovieDetail(
    title: string,
    year: string,
    poster: string,
    imdbRating: string,
    runtime: string)

  /**
   * The "Add to list" button is rendered only when `isWatched`
   * (`Watchlist.IsWatched`) is false and the star rating is above 0. It is
   * shown exactly when the "rated with" line would have no rating to show.
   */
  function AddEnabled(watched: Watched, selectedId: string, userRating: nat): (b: bool)
    ensures b <==> WatchedUserRating(watched, selectedId).None? && userRating > 0
    ensures b ==> FindIndex(watched, selectedId).None?
  {
    !IsWatched(watched, selectedId) && userRating > 0
  }

  /**
   * `newWatchedmovie` of `handleAdd`, with the user's star rating as a
   * number: the entry carries the open movie's id, the detail record's
   * descriptive fields unchanged, and the rating just given, which is
   * positive whenever the add button was enabled.
   */
  function NewWatchedMovie(selectedId: string, movie: MovieDetail, userRating: nat): (e: WatchedEntry)
    ensures e.imdbID == selectedId
    ensures e.title == movie.title && e.year == movie.year && e.poster == movie.poster
    ensures e.userRating == Finite(userRating as real)
    ensures userRating > 0 ==> e.userRating.value > 0.0
    ensures e.imdbRating.Finite? ==> e.imdbRating.value >= 0.0
    ensures e.runtime.Finite? ==> e.runtime.value >= 0.0
  {
    WatchedEntry(
      selectedId,
      movie.title,
      movie.year,
      movie.poster,
      ParseNumber(movie.imdbRating),
      ParseNumber(FirstWord(movie.runtime)),
      Finite(userRating as real))
  }

  /** A runtime of the form "<n> <unit>" is stored as the number n. */
  lemma RuntimeIsLeadingNumber(selectedId: string, movie: MovieDetail, userRating: nat, n: nat, rest: string)
    requires movie.runtime == NatToString(n) + " " + rest
    ensures NewWatchedMovie(selectedId, movie, userRating).runtime == Finite(n as real)
  {
    NatToStringDigits(n);
    assert ' ' !in NatToString(n) by {
      forall i | 0 <= i < |NatToString(n)| ensures NatToString(n)[i] != ' ' {
        assert IsDigit(NatToString(n)[i]);
      }
    }
    FirstWordOfPrefix(NatToString(n), rest);
    ParseNatToString(n);
  }

  /** "148 min" is stored as 148. */
  lemma RuntimeExample(selectedId: string, movie: MovieDetail, userRating: nat)
    requires movie.runtime == "148 min"
    ensures NewWatchedMovie(selectedId, movie, userRating).runtime == Finite(148.0)
  {
    assert NatToString(148) == "148";
    assert "148 min" == NatToString(148) + " " + "min";
    RuntimeIsLeadingNumber(selectedId, movie, userRating, 148, "min");
  }

  /** An IMDb rating "8.6" is stored as 8.6, and "N/A" as NaN. */
  lemma ImdbRatingExamples(selectedId: string, movie: MovieDetail, userRating: nat)
    ensures movie.imdbRating == "8.6" ==> NewWatchedMovie(selectedId, movie, userRating).imdbRating == Finite(8.6)
    ensures movie.imdbRating == "N/A" ==> NewWatchedMovie(selectedId, movie, userRating).imdbRating == NaN
  {
    if movie.imdbRating == "8.6" {
      var s := movie.imdbRating;
      assert IndexOf(s, '.') == 1;
      assert s[..1] == "8" && s[2..] == "6";
      assert DigitsValue("8") == 8 && DigitsValue("6") == 6;
    }
    if movie.imdbRating == "N/A" {
      ParseForeignCharIsNaN(movie.imdbRating, 0);
    }
  }

  /**
   * Adding through the gated button keeps the watched ids unique, and the
   * detail view then reports the movie as watched with the given rating.
   */
  lemma GatedAdd(watched: Watched, selectedId: string, movie: MovieDetail, userRating: nat)
    requires UniqueIds(watched) && AddEnabled(watched, selectedId, userRating)
    ensures UniqueIds(Add(watched, NewWatchedMovie(selectedId, movie, userRating)))
    ensures IsWatched(Add(watched, NewWatchedMovie(selectedId, movie, userRating)), selectedId)
    ensures WatchedUserRating(Add(watched, NewWatchedMovie(selectedId, movie, userRating)), selectedId)
            == Some(Finite(userRating as real))
  {
    var e := NewWatchedMovie(selectedId, movie, userRating);
    var r := Add(watched, e);
    UniqueAfterAdd(watched, e);
    IsWatchedAfterAdd(watched, e, selectedId);
    var k := FindIndex(r, selectedId);
    assert k.Some?;
  }

  /** Once watched, the add button is gone: no rating can enable a second add. */
  lemma WatchedDisablesAdd(watched: Watched, selectedId: string, movie: MovieDetail, userRating: nat, again: nat)
    ensures !AddEnabled(Add(watched, NewWatchedMovie(selectedId, movie, userRating)), selectedId, again)
  {
    IsWatchedAfterAdd(watched, NewWatchedMovie(selectedId, movie, userRating), selectedId);
  }
}
