/**
 * The watched list of App.jsx: the updaters that append an entry and drop
 * every entry with a given id, and the two queries the detail view makes of
 * it (is the id present, and the first entry carrying it).
 */
module Watchlist {
  import opened Optional
  import opened JsBuiltins

  /** One element of `watched`, as `handleAdd` builds it. */
  datatype WatchedEntry = WatchedEntry(
    imdbID: string,
    title: string,
    year: string,
    poster: string,
    imdbRating: Number,
    runtime: Number,
    userRating: Number)

  type Watched = seq<WatchedEntry>

  /** A copy of the list with the entry appended: it goes at the end and nothing before it moves. */
  function Add(watched: Watched, movie: WatchedEntry): (r: Watched)
    ensures |r| == |watched| + 1
    ensures r[..|watched|] == watched && r[|watched|] == movie
  {
    watched + [movie]
  }

  /** The entries whose id differs from `id`, in their original order. */
  function Delete(watched: Watched, id: string): (r: Watched)
    ensures |r| <= |watched|
    ensures forall e :: e in r <==> e in watched && e.imdbID != id
  {
    if watched == [] then []
    else if watched[0].imdbID != id then [watched[0]] + Delete(watched[1..], id)
    else Delete(watched[1..], id)
  }

  /** Does some entry carry the id (the detail view's `isWatched`)? */
  predicate IsWatched(watched: Watched, id: string)
  {
    exists i :: 0 <= i < |watched| && watched[i].imdbID == id
  }

  /** The index of the first entry carrying the id, where a front-to-back search stops. */
  function FindIndex(watched: Watched, id: string): (r: Option<nat>)
    ensures r.None? <==> !IsWatched(watched, id)
    ensures r.Some? ==> r.value < |watched| && watched[r.value].imdbID == id
    ensures r.Some? ==> forall j :: 0 <= j < r.value ==> watched[j].imdbID != id
  {
    if watched == [] then None
    else if watched[0].imdbID == id then Some(0)
    else
      var k := FindIndex(watched[1..], id);
      if k.None? then
        assert forall i :: 1 <= i < |watched| ==> watched[i] == watched[1..][i - 1];
        None
      else Some(k.value + 1)
  }

  /** The first entry carrying the id; `None` stands for `undefined`. */
  function Find(watched: Watched, id: string): (r: Option<WatchedEntry>)
    ensures r.Some? <==> IsWatched(watched, id)
    ensures r.Some? ==> exists i :: 0 <= i < |watched| && watched[i] == r.value && r.value.imdbID == id
                                    && (forall j :: 0 <= j < i ==> watched[j].imdbID != id)
  {
    var k := FindIndex(watched, id);
    if k.Some? then Some(watched[k.value]) else None
  }

  /** The user rating of the first entry carrying the id (`watchedUserRating`), if any. */
  function WatchedUserRating(watched: Watched, id: string): (r: Option<Number>)
    ensures r.Some? <==> IsWatched(watched, id)
    ensures r.Some? ==> exists i :: 0 <= i < |watched| && watched[i].imdbID == id
                                    && watched[i].userRating == r.value
                                    && (forall j :: 0 <= j < i ==> watched[j].imdbID != id)
  {
    var e := Find(watched, id);
    if e.Some? then Some(e.value.userRating) else None
  }

  /** No two entries share an id (what the detail view's add gate aims to keep). */
  predicate UniqueIds(watched: Watched)
  {
    forall i, j :: 0 <= i < j < |watched| ==> watched[i].imdbID != watched[j].imdbID
  }

  /** The number of entries with the given id. */
  function Count(watched: Watched, id: string): nat
  {
    if watched == [] then 0
    else (if watched[0].imdbID == id then 1 else 0) + Count(watched[1..], id)
  }

  /** Filtering distributes over concatenation, so the kept entries stay in their order. */
  lemma {:induction false} DeleteAppend(a: Watched, b: Watched, id: string)
    ensures Delete(a + b, id) == Delete(a, id) + Delete(b, id)
  {
    if a == [] {
      assert a + b == b;
    } else {
      assert (a + b)[0] == a[0] && (a + b)[1..] == a[1..] + b;
      DeleteAppend(a[1..], b, id);
    }
  }

  /** Exactly the entries with the id are dropped. */
  lemma {:induction false} DeleteLength(watched: Watched, id: string)
    ensures |Delete(watched, id)| == |watched| - Count(watched, id)
  {
    if watched != [] {
      DeleteLength(watched[1..], id);
    }
  }

  /** Deleting an id that is not in the list leaves the list as it was. */
  lemma {:induction false} DeleteAbsent(watched: Watched, id: string)
    requires !IsWatched(watched, id)
    ensures Delete(watched, id) == watched
  {
    if watched != [] {
      assert watched[0].imdbID != id;
      assert !IsWatched(watched[1..], id) by {
        forall i | 0 <= i < |watched[1..]| ensures watched[1..][i].imdbID != id {
          assert watched[1..][i] == watched[i + 1];
        }
      }
      DeleteAbsent(watched[1..], id);
    }
  }

  /** Deleting twice is deleting once. */
  lemma DeleteIdempotent(watched: Watched, id: string)
    ensures Delete(Delete(watched, id), id) == Delete(watched, id)
  {
    var r := Delete(watched, id);
    assert !IsWatched(r, id) by {
      forall i | 0 <= i < |r| ensures r[i].imdbID != id {
        assert r[i] in r;
      }
    }
    DeleteAbsent(r, id);
  }

  /** Deletions by two ids can be done in either order. */
  lemma {:induction false} DeleteCommutes(watched: Watched, x: string, y: string)
    ensures Delete(Delete(watched, x), y) == Delete(Delete(watched, y), x)
  {
    if watched != [] {
      DeleteCommutes(watched[1..], x, y);
      var h := watched[0];
      if h.imdbID != x {
        assert Delete(watched, x) == [h] + Delete(watched[1..], x);
        assert ([h] + Delete(watched[1..], x))[1..] == Delete(watched[1..], x);
      }
      if h.imdbID != y {
        assert Delete(watched, y) == [h] + Delete(watched[1..], y);
        assert ([h] + Delete(watched[1..], y))[1..] == Delete(watched[1..], y);
      }
    }
  }

  /** Adding an entry and then deleting its id restores the list, when no entry had that id. */
  lemma AddThenDelete(watched: Watched, movie: WatchedEntry)
    requires !IsWatched(watched, movie.imdbID)
    ensures Delete(Add(watched, movie), movie.imdbID) == watched
  {
    DeleteAppend(watched, [movie], movie.imdbID);
    DeleteAbsent(watched, movie.imdbID);
  }

  /** Without that condition the earlier entries with the id are lost too. */
  lemma AddThenDeleteDropsDuplicates(watched: Watched, movie: WatchedEntry)
    ensures Delete(Add(watched, movie), movie.imdbID) == Delete(watched, movie.imdbID)
  {
    DeleteAppend(watched, [movie], movie.imdbID);
  }

  /** A duplicate id is not rejected: adding it again gives two (or more) entries with it. */
  lemma AddAllowsDuplicate(watched: Watched, movie: WatchedEntry)
    requires IsWatched(watched, movie.imdbID)
    ensures Count(Add(watched, movie), movie.imdbID) >= 2
    ensures !UniqueIds(Add(watched, movie))
  {
    CountPositive(watched, movie.imdbID);
    CountAfterAdd(watched, movie, movie.imdbID);
    var i :| 0 <= i < |watched| && watched[i].imdbID == movie.imdbID;
    var r := Add(watched, movie);
    assert r[i] == watched[i] && r[|watched|] == movie;
  }

  /** Adding an entry raises the count of its own id by one and leaves every other count alone. */
  lemma {:induction false} CountAfterAdd(watched: Watched, movie: WatchedEntry, id: string)
    ensures Count(Add(watched, movie), id) == Count(watched, id) + (if movie.imdbID == id then 1 else 0)
  {
    if watched == [] {
      assert Add(watched, movie) == [movie];
    } else {
      assert Add(watched, movie)[0] == watched[0];
      assert Add(watched, movie)[1..] == Add(watched[1..], movie);
      CountAfterAdd(watched[1..], movie, id);
    }
  }

  /** `isWatched` holds exactly when at least one entry carries the id. */
  lemma IsWatchedIffCounted(watched: Watched, id: string)
    ensures IsWatched(watched, id) <==> Count(watched, id) > 0
  {
    if IsWatched(watched, id) {
      CountPositive(watched, id);
    } else {
      CountAbsent(watched, id);
    }
  }

  lemma IsWatchedAfterAdd(watched: Watched, movie: WatchedEntry, id: string)
    ensures IsWatched(Add(watched, movie), id) <==> IsWatched(watched, id) || movie.imdbID == id
  {
    var r := Add(watched, movie);
    if IsWatched(watched, id) {
      var i :| 0 <= i < |watched| && watched[i].imdbID == id;
      assert r[i] == watched[i];
    }
    if movie.imdbID == id {
      assert r[|watched|] == movie;
    }
    if IsWatched(r, id) && movie.imdbID != id {
      var i :| 0 <= i < |r| && r[i].imdbID == id;
      assert r[i] == watched[i];
    }
  }

  lemma IsWatchedAfterDelete(watched: Watched, x: string, id: string)
    ensures IsWatched(Delete(watched, x), id) <==> IsWatched(watched, id) && id != x
  {
    var r := Delete(watched, x);
    if IsWatched(r, id) {
      var i :| 0 <= i < |r| && r[i].imdbID == id;
      assert r[i] in r;
      var j :| 0 <= j < |watched| && watched[j] == r[i];
    }
    if IsWatched(watched, id) && id != x {
      var i :| 0 <= i < |watched| && watched[i].imdbID == id;
      assert watched[i] in r;
      var j :| 0 <= j < |r| && r[j] == watched[i];
    }
  }

  /** Adding keeps ids unique exactly when the new id is not already watched. */
  lemma UniqueAfterAdd(watched: Watched, movie: WatchedEntry)
    requires UniqueIds(watched)
    ensures UniqueIds(Add(watched, movie)) <==> !IsWatched(watched, movie.imdbID)
  {
    if IsWatched(watched, movie.imdbID) {
      AddAllowsDuplicate(watched, movie);
    } else {
      var r := Add(watched, movie);
      forall i, j | 0 <= i < j < |r| ensures r[i].imdbID != r[j].imdbID {
        assert r[i] == watched[i];
        if j < |watched| {
          assert r[j] == watched[j];
        }
      }
    }
  }

  /** Deleting keeps ids unique. */
  lemma {:induction false} UniqueAfterDelete(watched: Watched, id: string)
    requires UniqueIds(watched)
    ensures UniqueIds(Delete(watched, id))
  {
    if watched != [] {
      var h, t := watched[0], watched[1..];
      UniqueSplit(watched);
      UniqueAfterDelete(t, id);
      if h.imdbID != id {
        IsWatchedAfterDelete(t, id, h.imdbID);
        UniqueCons(h, Delete(t, id));
      }
    }
  }

  /** A list with unique ids: its tail has unique ids and does not hold the head's id. */
  lemma UniqueSplit(watched: Watched)
    requires UniqueIds(watched) && watched != []
    ensures UniqueIds(watched[1..]) && !IsWatched(watched[1..], watched[0].imdbID)
  {
    var t := watched[1..];
    forall i, j | 0 <= i < j < |t| ensures t[i].imdbID != t[j].imdbID {
      assert t[i] == watched[i + 1] && t[j] == watched[j + 1];
    }
    forall k | 0 <= k < |t| ensures t[k].imdbID != watched[0].imdbID {
      assert t[k] == watched[k + 1];
    }
  }

  lemma UniqueCons(h: WatchedEntry, t: Watched)
    requires UniqueIds(t) && !IsWatched(t, h.imdbID)
    ensures UniqueIds([h] + t)
  {
    var r := [h] + t;
    forall i, j | 0 <= i < j < |r| ensures r[i].imdbID != r[j].imdbID {
      assert r[j] == t[j - 1];
      if i > 0 {
        assert r[i] == t[i - 1];
      }
    }
  }

  /** With unique ids, deleting a watched id removes exactly one entry. */
  lemma DeleteUniqueRemovesOne(watched: Watched, id: string)
    requires UniqueIds(watched) && IsWatched(watched, id)
    ensures |Delete(watched, id)| == |watched| - 1
  {
    DeleteLength(watched, id);
    UniqueCountAtMostOne(watched, id);
    CountPositive(watched, id);
  }

  lemma {:induction false} UniqueCountAtMostOne(watched: Watched, id: string)
    requires UniqueIds(watched)
    ensures Count(watched, id) <= 1
  {
    if watched != [] {
      var t := watched[1..];
      UniqueSplit(watched);
      UniqueCountAtMostOne(t, id);
      if watched[0].imdbID == id {
        CountAbsent(t, id);
      }
    }
  }

  lemma {:induction false} CountAbsent(watched: Watched, id: string)
    requires !IsWatched(watched, id)
    ensures Count(watched, id) == 0
  {
    if watched != [] {
      assert watched[0].imdbID != id;
      assert !IsWatched(watched[1..], id) by {
        forall k | 0 <= k < |watched[1..]| ensures watched[1..][k].imdbID != id {
          assert watched[1..][k] == watched[k + 1];
        }
      }
      CountAbsent(watched[1..], id);
    }
  }

  lemma {:induction false} CountPositive(watched: Watched, id: string)
    requires IsWatched(watched, id)
    ensures Count(watched, id) >= 1
  {
    if watched[0].imdbID != id {
      var i :| 0 <= i < |watched| && watched[i].imdbID == id;
      assert watched[1..][i - 1] == watched[i];
      CountPositive(watched[1..], id);
    }
  }
}
