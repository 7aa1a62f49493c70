/** What the recommenders read from the movie table (`df_movies`) and the ratings table
    (`df_ratings`): the `movie_id` column in row order, the first row of a movie, the
    movies a user rated, and the min/max normalisation of the hybrid scores. A
    `df_movies` frame is taken to carry its default index, so that an index label is a
    row position. */
module Catalogue {
  import opened Wrappers
  import opened IdIndex
  import opened Ratings

  /** `df_movies[df_movies['movie_id'] == m].index[0]`, when there is such a row. */
  function FirstRow(ids: seq<string>, m: string): (r: Option<nat>)
    ensures r.None? <==> m !in ids
    ensures r.Some? ==> r.value < |ids| && ids[r.value] == m && m !in ids[..r.value]
  {
    if |ids| == 0 then None
    else if ids[0] == m then Some(0)
    else
      var rest := FirstRow(ids[1..], m);
      assert ids == [ids[0]] + ids[1..];
      if rest.None? then None
      else
        assert ids[..rest.value + 1] == [ids[0]] + ids[1..][..rest.value];
        Some(rest.value + 1)
  }

  /** `df_ratings[df_ratings['user_id'] == u]['movie_id']`, as a set. */
  function RatedBy(ratings: seq<Rating>, u: string): (r: set<string>)
    ensures forall m :: m in r <==> exists x :: x in ratings && x.userId == u && x.movieId == m
  {
    set x | x in ratings && x.userId == u :: x.movieId
  }

  /** The row positions whose movie is in `ms` (`df_movies['movie_id'].isin(ms)`). */
  function PositionsOf(ids: seq<string>, ms: set<string>): (r: set<nat>)
    ensures forall j: nat :: j in r <==> j < |ids| && ids[j] in ms
  {
    set j: nat | j < |ids| && ids[j] in ms
  }

  function SeqMin(xs: seq<real>): (r: real)
    requires |xs| > 0
    ensures r in xs && forall x :: x in xs ==> r <= x
  {
    if |xs| == 1 then xs[0]
    else
      var m := SeqMin(xs[1..]);
      assert xs == [xs[0]] + xs[1..];
      if xs[0] <= m then xs[0] else m
  }

  function SeqMax(xs: seq<real>): (r: real)
    requires |xs| > 0
    ensures r in xs && forall x :: x in xs ==> x <= r
  {
    if |xs| == 1 then xs[0]
    else
      var m := SeqMax(xs[1..]);
      assert xs == [xs[0]] + xs[1..];
      if xs[0] >= m then xs[0] else m
  }

  /** The `1e-10` that keeps the denominator of the min/max normalisation positive. */
  const Eps: real := 0.0000000001

  /** `(x - lo) / (hi - lo + 1e-10)`. */
  function Normalized(x: real, lo: real, hi: real): real
    requires lo <= hi
  {
    (x - lo) / (hi - lo + Eps)
  }

  /** A score inside `[lo, hi]` normalises into `[0, 1)`. */
  lemma NormalizedRange(x: real, lo: real, hi: real)
    requires lo <= x <= hi
    ensures 0.0 <= Normalized(x, lo, hi) < 1.0
  {
    var d := hi - lo + Eps;
    var v := Normalized(x, lo, hi);
    assert v * d == x - lo;
    assert x - lo < d;
  }

  /** Normalisation keeps the order of scores, strictly. */
  lemma NormalizedMonotone(x: real, y: real, lo: real, hi: real)
    requires lo <= hi
    ensures x < y <==> Normalized(x, lo, hi) < Normalized(y, lo, hi)
  {
    var d := hi - lo + Eps;
    assert Normalized(x, lo, hi) * d == x - lo;
    assert Normalized(y, lo, hi) * d == y - lo;
    assert (Normalized(y, lo, hi) - Normalized(x, lo, hi)) * d == y - x;
  }
}
