/**
 * The `average` helper of App.jsx and the figures `WatchedSummary` derives
 * from the watched list with it.
 *
 * `average` is a left fold from 0 that divides every element by the full
 * length of the array before adding it to the running total. It is modelled
 * over exact reals (JavaScript numbers without rounding), with NaN absorbing
 * as in JavaScript.
 */
module Summary {
  import opened JsBuiltins
  import opened Watchlist

  /** The fold of `average` over the elements still to visit, `n` being `arr.length`. */
  function AverageFold(rest: seq<Number>, acc: Number, n: nat): (r: Number)
    requires |rest| <= n
    ensures acc.NaN? ==> r == NaN
    ensures acc.Finite? && (forall i :: 0 <= i < |rest| ==> rest[i].Finite?) ==> r.Finite?
  {
    if rest == [] then acc else AverageFold(rest[1..], Plus(acc, DivideBy(rest[0], n)), n)
  }

  /** `average(arr)`: the fold started from 0; the average of no values is 0, not NaN. */
  function Average(arr: seq<Number>): (r: Number)
    ensures arr == [] ==> r == Finite(0.0)
    ensures AllFinite(arr) ==> r.Finite?
  {
    AverageFold(arr, Finite(0.0), |arr|)
  }

  /** The arithmetic sum, the reference definition `average` is compared with. */
  function Sum(xs: seq<real>): real
  {
    if xs == [] then 0.0 else xs[0] + Sum(xs[1..])
  }

  predicate AllFinite(arr: seq<Number>)
  {
    forall i :: 0 <= i < |arr| ==> arr[i].Finite?
  }

  function Values(arr: seq<Number>): (xs: seq<real>)
    requires AllFinite(arr)
    ensures |xs| == |arr| && forall i :: 0 <= i < |arr| ==> xs[i] == arr[i].value
  {
    if arr == [] then [] else [arr[0].value] + Values(arr[1..])
  }

  lemma {:induction false} AverageFoldIsSum(rest: seq<Number>, acc: real, n: nat)
    requires |rest| <= n && n > 0 && AllFinite(rest)
    ensures AverageFold(rest, Finite(acc), n) == Finite(acc + Sum(Values(rest)) / n as real)
  {
    if rest != [] {
      var t := rest[1..];
      assert AllFinite(t) by {
        forall i | 0 <= i < |t| ensures t[i].Finite? { assert t[i] == rest[i + 1]; }
      }
      assert Values(rest)[1..] == Values(t);
      AverageFoldIsSum(t, acc + rest[0].value / n as real, n);
    }
  }

  lemma {:induction false} AverageFoldHitsNaN(rest: seq<Number>, acc: Number, n: nat, i: nat)
    requires |rest| <= n && i < |rest| && rest[i].NaN?
    ensures AverageFold(rest, acc, n) == NaN
  {
    if i > 0 {
      assert rest[1..][i - 1] == rest[i];
      AverageFoldHitsNaN(rest[1..], Plus(acc, DivideBy(rest[0], n)), n, i - 1);
    }
  }

  /** Over finite values, `average` of a non-empty list is the sum divided by the length. */
  lemma {:induction false} AverageIsMean(arr: seq<Number>)
    requires AllFinite(arr) && |arr| > 0
    ensures Average(arr) == Finite(Sum(Values(arr)) / |arr| as real)
  {
    AverageFoldIsSum(arr, 0.0, |arr|);
    var m := Sum(Values(arr)) / |arr| as real;
    assert 0.0 + m == m;
  }

  /** One NaN anywhere makes the average NaN. */
  lemma AverageWithNaN(arr: seq<Number>, i: nat)
    requires i < |arr| && arr[i].NaN?
    ensures Average(arr) == NaN
  {
    AverageFoldHitsNaN(arr, Finite(0.0), |arr|, i);
  }

  /** The average of one value is that value. */
  lemma AverageSingle(x: real)
    ensures Average([Finite(x)]) == Finite(x)
  {
    AverageIsMean([Finite(x)]);
    assert Values([Finite(x)]) == [x];
  }

  /** The figures shown by `WatchedSummary`. */
  datatype WatchedFigures = WatchedFigures(
    count: nat,
    avgImdbRating: Number,
    avgUserRating: Number,
    avgRuntime: Number)

  function ImdbRatings(watched: Watched): seq<Number>
  {
    seq(|watched|, i requires 0 <= i < |watched| => watched[i].imdbRating)
  }

  function UserRatings(watched: Watched): seq<Number>
  {
    seq(|watched|, i requires 0 <= i < |watched| => watched[i].userRating)
  }

  function Runtimes(watched: Watched): seq<Number>
  {
    seq(|watched|, i requires 0 <= i < |watched| => watched[i].runtime)
  }

  /**
   * `WatchedSummary`: the count and the three averages, recomputed from the
   * list; an empty list shows 0 movies and averages of 0.
   */
  function Figures(watched: Watched): (r: WatchedFigures)
    ensures r.count == |watched|
    ensures watched == [] ==> r == WatchedFigures(0, Finite(0.0), Finite(0.0), Finite(0.0))
    ensures (forall i :: 0 <= i < |watched| ==> watched[i].imdbRating.Finite?) ==> r.avgImdbRating.Finite?
    ensures (forall i :: 0 <= i < |watched| ==> watched[i].userRating.Finite?) ==> r.avgUserRating.Finite?
    ensures (forall i :: 0 <= i < |watched| ==> watched[i].runtime.Finite?) ==> r.avgRuntime.Finite?
  {
    WatchedFigures(|watched|, Average(ImdbRatings(watched)), Average(UserRatings(watched)),
                   Average(Runtimes(watched)))
  }

  /**
   * Over a non-empty list, each average the summary shows is the arithmetic
   * mean of that field over the watched movies, whenever the field is finite
   * in every entry.
   */
  lemma FiguresAreMeans(watched: Watched)
    requires |watched| > 0
    ensures AllFinite(ImdbRatings(watched)) ==>
              Figures(watched).avgImdbRating == Finite(Sum(Values(ImdbRatings(watched))) / |watched| as real)
    ensures AllFinite(UserRatings(watched)) ==>
              Figures(watched).avgUserRating == Finite(Sum(Values(UserRatings(watched))) / |watched| as real)
    ensures AllFinite(Runtimes(watched)) ==>
              Figures(watched).avgRuntime == Finite(Sum(Values(Runtimes(watched))) / |watched| as real)
  {
    if AllFinite(ImdbRatings(watched)) { AverageIsMean(ImdbRatings(watched)); }
    if AllFinite(UserRatings(watched)) { AverageIsMean(UserRatings(watched)); }
    if AllFinite(Runtimes(watched)) { AverageIsMean(Runtimes(watched)); }
  }

  /** One watched movie shows count 1 and its own ratings and runtime as the averages. */
  lemma FiguresOfOne(e: WatchedEntry)
    requires e.imdbRating.Finite? && e.userRating.Finite? && e.runtime.Finite?
    ensures Figures([e]) == WatchedFigures(1, e.imdbRating, e.userRating, e.runtime)
  {
    assert ImdbRatings([e]) == [Finite(e.imdbRating.value)];
    assert UserRatings([e]) == [Finite(e.userRating.value)];
    assert Runtimes([e]) == [Finite(e.runtime.value)];
    AverageSingle(e.imdbRating.value);
    AverageSingle(e.userRating.value);
    AverageSingle(e.runtime.value);
  }
}
