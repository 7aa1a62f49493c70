/** `get_random_popular_movies` of `cold_start/show_random_movies.py`: the 200 most-rated
    movies form a pool, the ids already shown leave it, a random sample of the rest is
    shown and what is left of the pool is handed back for the next round. */
module ColdStart {
  import opened Wrappers
  import opened Seqs
  import opened IdIndex
  import opened Ranking
  import opened Ratings
  import opened DataLoader

  /** `value_counts().head(200)`. */
  const PoolSize: nat := 200

  /** The `value_counts()` entry of movie `m`: how many rating rows name it. */
  function Count(ratings: seq<Rating>, m: string): (c: nat)
    ensures c > 0 <==> exists x :: x in ratings && x.movieId == m
  {
    if |ratings| == 0 then 0
    else
      assert ratings == [ratings[0]] + ratings[1..];
      (if ratings[0].movieId == m then 1 else 0) + Count(ratings[1..], m)
  }

  /** The index of `value_counts()`: every movie with at least one rating. */
  function RatedMovies(ratings: seq<Rating>): (r: set<string>)
    ensures forall m :: m in r <==> exists x :: x in ratings && x.movieId == m
  {
    set x | x in ratings :: x.movieId
  }

  function MovieIds(ratings: seq<Rating>): (r: seq<string>)
    ensures Elems(r) == RatedMovies(ratings)
  {
    if |ratings| == 0 then []
    else
      assert ratings == [ratings[0]] + ratings[1..];
      var rest := MovieIds(ratings[1..]);
      assert Elems([ratings[0].movieId] + rest) == {ratings[0].movieId} + Elems(rest);
      [ratings[0].movieId] + rest
  }

  /** `set(value_counts().head(200).index)`: as many rated movies as the head keeps, none
      rated fewer times than a rated movie left out. Which of several equally rated
      movies make the cut is not fixed. */
  predicate IsPopularPool(ratings: seq<Rating>, pool: set<string>)
  {
    var rated := RatedMovies(ratings);
    pool <= rated &&
    |pool| == (if |rated| < PoolSize then |rated| else PoolSize) &&
    forall a, b :: a in pool && b in rated - pool ==> Count(ratings, a) >= Count(ratings, b)
  }

  predicate Distinct(s: seq<string>)
  {
    forall i, j :: 0 <= i < j < |s| ==> s[i] != s[j]
  }

  lemma {:induction false} DistinctCard(s: seq<string>)
    requires Distinct(s)
    ensures |Elems(s)| == |s|
    decreases |s|
  {
    if |s| > 0 {
      var init := s[..|s| - 1];
      assert s == init + [s[|s| - 1]];
      assert Distinct(init);
      DistinctCard(init);
      assert Elems(s) == Elems(init) + {s[|s| - 1]};
      assert s[|s| - 1] !in Elems(init);
    }
  }

  lemma {:induction false} DistinctMultiplicity(s: seq<string>, x: string)
    requires Distinct(s)
    ensures multiset(s)[x] <= 1
    decreases |s|
  {
    if |s| > 0 {
      assert s == [s[0]] + s[1..];
      assert Distinct(s[1..]);
      DistinctMultiplicity(s[1..], x);
      if x == s[0] {
        assert x !in s[1..];
      }
    }
  }

  /** The movie ids ranked by descending count, each once: the order `value_counts()`
      sorts its index into, up to ties. */
  function RankedMovies(ratings: seq<Rating>): (r: seq<string>)
    ensures Distinct(r) && Elems(r) == RatedMovies(ratings)
    ensures NonIncreasing(r, (m: string) => Count(ratings, m) as real)
  {
    var ids := SortedIds(MovieIds(ratings));
    var r := SortDesc(ids, (m: string) => Count(ratings, m) as real);
    assert Distinct(ids) by {
      forall i, j | 0 <= i < j < |ids|
        ensures ids[i] != ids[j]
      {
        StrictlySortedDistinct(ids, i, j);
      }
    }
    assert Distinct(r) by {
      forall i, j | 0 <= i < j < |r|
        ensures r[i] != r[j]
      {
        if r[i] == r[j] {
          RepeatCount(r, i, j);
          DistinctMultiplicity(ids, r[i]);
          assert false;
        }
      }
    }
    assert Elems(r) == Elems(ids) by {
      forall x
        ensures x in Elems(r) <==> x in Elems(ids)
      {
        assert x in r <==> x in multiset(r);
        assert x in ids <==> x in multiset(ids);
      }
    }
    r
  }

  /** In a non-increasing list, a row of the first `k` scores at least as much as any
      row after them. */
  lemma PrefixDominates(ranked: seq<string>, key: string -> real, k: nat, a: string, b: string)
    requires NonIncreasing(ranked, key) && k <= |ranked|
    requires a in Elems(ranked[..k]) && b in Elems(ranked) && b !in Elems(ranked[..k])
    ensures key(a) >= key(b)
  {
    var top := ranked[..k];
    var i :| 0 <= i < k && top[i] == a;
    var j :| 0 <= j < |ranked| && ranked[j] == b;
    assert forall t :: 0 <= t < k ==> top[t] == ranked[t];
    assert j >= k;
  }

  /** `value_counts().head(200)` always has a pool to offer: the first 200 of the ranked
      ids, or all of them. */
  lemma PoolExists(ratings: seq<Rating>) returns (pool: set<string>)
    ensures IsPopularPool(ratings, pool)
  {
    var ranked := RankedMovies(ratings);
    var key := (m: string) => Count(ratings, m) as real;
    var k := if |ranked| < PoolSize then |ranked| else PoolSize;
    var top := ranked[..k];
    pool := Elems(top);
    assert Distinct(top);
    DistinctCard(top);
    DistinctCard(ranked);
    var rated := RatedMovies(ratings);
    forall a, b | a in pool && b in rated - pool
      ensures Count(ratings, a) >= Count(ratings, b)
    {
      PrefixDominates(ranked, key, k, a, b);
    }
  }

  /** With at most 200 rated movies the pool is all of them. */
  lemma SmallCatalogueWholePool(ratings: seq<Rating>, pool: set<string>)
    requires IsPopularPool(ratings, pool) && |RatedMovies(ratings)| <= PoolSize
    ensures pool == RatedMovies(ratings)
  {
    SubsetCard(pool, RatedMovies(ratings));
  }

  /** `random.sample` has a sample of every size up to the population's. */
  lemma {:induction false} SampleExists(s: set<string>, n: nat) returns (t: set<string>)
    requires n <= |s|
    ensures t <= s && |t| == n
    decreases n
  {
    if n == 0 {
      t := {};
    } else {
      var x :| x in s;
      var u := SampleExists(s - {x}, n - 1);
      t := u + {x};
    }
  }

  /** The mask `df_movies['movie_id'].isin(selected)`. */
  function Shows(selected: set<string>): MovieRecord -> bool
  {
    (row: MovieRecord) => row.movieId in selected
  }

  /** What `get_random_popular_movies` returns: the metadata rows of the selected
      movies and the pool ids left to show. */
  datatype Shown = Shown(movies: seq<MovieRecord>, remaining: set<string>)

  /** `get_random_popular_movies`. The pool and the sample are chosen freely among the
      admissible ones (tie order of `value_counts`, `random.sample`); `ValueError` is
      what `random.sample` raises for a negative size. */
  method GetRandomPopularMovies(ratings: seq<Rating>, movies: seq<MovieRecord>, n: int, exclude: seq<string>)
    returns (r: Result<Shown>, ghost pool: set<string>, ghost selected: set<string>)
    ensures IsPopularPool(ratings, pool)
    ensures r.Err? <==> n < 0
    ensures r.Err? ==> r.error == ValueError
    ensures r.Ok? ==> selected <= pool && selected !! Elems(exclude)
    ensures r.Ok? && |pool - Elems(exclude)| < n ==> selected == pool - Elems(exclude)
    ensures r.Ok? && |pool - Elems(exclude)| >= n ==> |selected| == n
    ensures r.Ok? ==> r.value.remaining == pool - Elems(exclude) - selected
    ensures r.Ok? ==> r.value.movies == Filter(movies, Shows(selected))
  {
    var _ := PoolExists(ratings);
    var lot: set<string> :| lot <= RatedMovies(ratings) && IsPopularPool(ratings, lot);
    pool := lot;
    if |exclude| > 0 {
      lot := lot - Elems(exclude);
    }
    var chosen: set<string>;
    if |lot| < n {
      chosen := lot;
    } else if n < 0 {
      selected := {};
      return Err(ValueError), pool, selected;
    } else {
      var _ := SampleExists(lot, n);
      chosen :| chosen <= lot && |chosen| == n;
    }
    selected := chosen;
    r := Ok(Shown(Filter(movies, Shows(chosen)), lot - chosen));
  }
}
