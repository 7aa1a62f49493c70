/** `recommend_movies` of the modelling utilities: any model with a `predict(user,
    movie)` method scores the movies the user has not rated, the scored rows and the
    user's own ratings are inner-joined with the movie table, and the top `n` of each
    are returned. */
module Reco {
  import opened Seqs
  import opened IdIndex
  import opened Ratings
  import opened Ranking
  import opened Catalogue

  /** What `predict` returns: a Surprise prediction object carrying `est`, or a bare
      score. */
  datatype PredictOutput = WithEst(est: real) | Bare(value: real)

  /** `getattr(pred, 'est', pred)`. */
  function RatingOf(p: PredictOutput): real
  {
    if p.WithEst? then p.est else p.value
  }

  /** The score the loop records for each movie. */
  function EstimateFor(predict: (string, string) -> PredictOutput, userId: string): string -> real
  {
    (m: string) => RatingOf(predict(userId, m))
  }

  /** `set(df_ratings['movie_id']) - set(<movies rated by user_id>)`. */
  function Unseen(ratings: seq<Rating>, userId: string): (r: set<string>)
    ensures forall m :: m in r <==>
      (exists x :: x in ratings && x.movieId == m) && !(exists x :: x in ratings && x.userId == userId && x.movieId == m)
  {
    (set x | x in ratings :: x.movieId) - RatedBy(ratings, userId)
  }

  /** A user with no ratings is offered every rated movie, and nothing is raised. */
  lemma UnknownUserSeesAll(ratings: seq<Rating>, userId: string)
    requires forall x :: x in ratings ==> x.userId != userId
    ensures Unseen(ratings, userId) == set x | x in ratings :: x.movieId
  {
    assert RatedBy(ratings, userId) == {};
  }

  /** How many movie-table rows carry the id `m`. */
  function Occurrences(catalogue: seq<string>, m: string): (c: nat)
    ensures c > 0 <==> m in catalogue
    ensures c <= |catalogue|
  {
    if |catalogue| == 0 then 0
    else
      assert catalogue == [catalogue[0]] + catalogue[1..];
      (if catalogue[0] == m then 1 else 0) + Occurrences(catalogue[1..], m)
  }

  /** `pd.merge(left, df_movies, on='movie_id')`, an inner join: each left row once per
      movie-table row with its id, in the order of the left rows. */
  function Joined<T(!new)>(xs: seq<T>, id: T -> string, catalogue: seq<string>): (r: seq<T>)
    ensures forall x :: x in r <==> x in xs && id(x) in catalogue
  {
    if |xs| == 0 then []
    else
      assert xs == [xs[0]] + xs[1..];
      var copies := seq(Occurrences(catalogue, id(xs[0])), _ => xs[0]);
      assert forall x :: x in copies <==> x == xs[0] && id(x) in catalogue by {
        assert |copies| > 0 ==> copies[0] == xs[0];
      }
      copies + Joined(xs[1..], id, catalogue)
  }

  /** No movie id occurs on two rows of the movie table. */
  predicate UniqueIds(catalogue: seq<string>)
  {
    forall i, j :: 0 <= i < j < |catalogue| ==> catalogue[i] != catalogue[j]
  }

  /** An id occurs at most once in a table without repeated ids. */
  lemma {:induction false} UniqueOccurrences(catalogue: seq<string>, m: string)
    requires UniqueIds(catalogue)
    ensures Occurrences(catalogue, m) == (if m in catalogue then 1 else 0)
    decreases |catalogue|
  {
    if |catalogue| > 0 {
      assert catalogue == [catalogue[0]] + catalogue[1..];
      UniqueOccurrences(catalogue[1..], m);
      if catalogue[0] == m {
        assert forall j :: 0 <= j < |catalogue| - 1 ==> catalogue[1..][j] == catalogue[j + 1] != m;
      }
    }
  }

  function MovieOf(p: Prediction): string { p.0 }

  /** Against a movie table without repeated ids, the join only drops the predictions
      of movies the table does not list. */
  lemma {:induction false} JoinedUnique(ps: seq<Prediction>, catalogue: seq<string>)
    requires UniqueIds(catalogue)
    ensures Joined(ps, MovieOf, catalogue) == Filter(ps, InKeep(Elems(catalogue)))
    decreases |ps|
  {
    if |ps| > 0 {
      JoinedUnique(ps[1..], catalogue);
      UniqueOccurrences(catalogue, ps[0].0);
      if ps[0].0 in catalogue {
        assert seq(Occurrences(catalogue, ps[0].0), _ => ps[0]) == [ps[0]];
      } else {
        assert seq(Occurrences(catalogue, ps[0].0), _ => ps[0]) == [];
      }
    }
  }

  /** The ranking half of `recommend_movies`: the recommendations are predictions of
      listed unseen movies, in non-increasing prediction, and no listed candidate left
      out is predicted above one kept; against a table without repeated ids they are a
      top-`n` selection of the listed candidates. */
  lemma RankedJoin(ps: seq<Prediction>, cands: set<string>, score: string -> real, catalogue: seq<string>, n: int)
    requires Lists(ps, cands, score)
    ensures var r := Head(SortDesc(Joined(ps, MovieOf, catalogue), Score), n);
      NonIncreasing(r, Score) && (n >= 0 ==> |r| <= n) &&
      (forall x :: x in r ==> x.0 in cands && x.0 in catalogue && x.1 == score(x.0)) &&
      (forall m :: m in cands && m in catalogue && m !in IdSet(r) ==>
        forall i :: 0 <= i < |r| ==> r[i].1 >= score(m)) &&
      (UniqueIds(catalogue) ==> TopNOf(r, cands * Elems(catalogue), score, n))
  {
    var joined := Joined(ps, MovieOf, catalogue);
    TopRows(joined, Score, n);
    JoinedMembers(ps, cands, score, catalogue, n);
    JoinedDominance(ps, cands, score, catalogue, n);
    if UniqueIds(catalogue) {
      JoinedUnique(ps, catalogue);
      ListsFilter(ps, cands, score, Elems(catalogue));
      SelectTop(Filter(ps, InKeep(Elems(catalogue))), cands * Elems(catalogue), score, n);
    }
  }

  lemma JoinedMembers(ps: seq<Prediction>, cands: set<string>, score: string -> real, catalogue: seq<string>, n: int)
    requires Lists(ps, cands, score)
    ensures forall x :: x in Head(SortDesc(Joined(ps, MovieOf, catalogue), Score), n) ==>
      x.0 in cands && x.0 in catalogue && x.1 == score(x.0)
  {
    var joined := Joined(ps, MovieOf, catalogue);
    TopRowsIn(joined, Score, n);
    forall x | x in Head(SortDesc(joined, Score), n)
      ensures x.0 in cands && x.0 in catalogue && x.1 == score(x.0)
    {
      var i :| 0 <= i < |ps| && ps[i] == x;
      assert x.0 in IdSet(ps);
    }
  }

  lemma JoinedDominance(ps: seq<Prediction>, cands: set<string>, score: string -> real, catalogue: seq<string>, n: int)
    requires Lists(ps, cands, score)
    ensures var r := Head(SortDesc(Joined(ps, MovieOf, catalogue), Score), n);
      forall m :: m in cands && m in catalogue && m !in IdSet(r) ==>
        forall i :: 0 <= i < |r| ==> r[i].1 >= score(m)
  {
    var joined := Joined(ps, MovieOf, catalogue);
    var r := Head(SortDesc(joined, Score), n);
    TopRows(joined, Score, n);
    forall m | m in cands && m in catalogue && m !in IdSet(r)
      ensures forall i :: 0 <= i < |r| ==> r[i].1 >= score(m)
    {
      assert m in IdSet(ps);
      var j :| 0 <= j < |ps| && ps[j].0 == m;
      assert ps[j] in joined;
      assert forall i :: 0 <= i < |r| ==> r[i].0 in IdSet(r);
      assert ps[j] !in r;
    }
  }

  function RatingValue(x: Rating): real { x.rating }

  function RatingMovie(x: Rating): string { x.movieId }

  function OwnRatings(ratings: seq<Rating>, userId: string): seq<Rating>
  {
    Filter(ratings, (x: Rating) => x.userId == userId)
  }

  /** `top_watched`: some of the user's ratings of listed movies, best first, and no
      such rating left out is above one kept. */
  lemma TopWatchedSpec(ratings: seq<Rating>, userId: string, catalogue: seq<string>, n: int)
    ensures var r := Head(SortDesc(Joined(OwnRatings(ratings, userId), RatingMovie, catalogue), RatingValue), n);
      NonIncreasing(r, RatingValue) && (n >= 0 ==> |r| <= n) &&
      (forall x :: x in r ==> x in ratings && x.userId == userId && x.movieId in catalogue) &&
      (forall x :: x in ratings && x.userId == userId && x.movieId in catalogue && x !in r ==>
        forall i :: 0 <= i < |r| ==> r[i].rating >= x.rating)
  {
    var joined := Joined(OwnRatings(ratings, userId), RatingMovie, catalogue);
    OwnJoined(ratings, userId, catalogue);
    TopRows(joined, RatingValue, n);
    TopRowsIn(joined, RatingValue, n);
  }

  /** The user's ratings of listed movies, as a membership condition. */
  lemma OwnJoined(ratings: seq<Rating>, userId: string, catalogue: seq<string>)
    ensures forall x :: x in Joined(OwnRatings(ratings, userId), RatingMovie, catalogue) <==>
      x in ratings && x.userId == userId && x.movieId in catalogue
  {
  }

  /** `recommend_movies(user_id, model, df_ratings, df_movies, n)`: `(top_watched,
      recommendations)`. Each unseen movie is predicted once, in whatever order the
      set yields them. */
  method RecommendMovies(userId: string, predict: (string, string) -> PredictOutput, ratings: seq<Rating>,
                         catalogue: seq<string>, n: int) returns (topWatched: seq<Rating>, recs: seq<Prediction>)
    ensures topWatched == Head(SortDesc(Joined(OwnRatings(ratings, userId), RatingMovie, catalogue), RatingValue), n)
    ensures NonIncreasing(recs, Score) && (n >= 0 ==> |recs| <= n)
    ensures forall x :: x in recs ==>
      x.0 in Unseen(ratings, userId) && x.0 in catalogue && x.1 == RatingOf(predict(userId, x.0))
    ensures forall m :: m in Unseen(ratings, userId) && m in catalogue && m !in IdSet(recs) ==>
      forall i :: 0 <= i < |recs| ==> recs[i].1 >= RatingOf(predict(userId, m))
    ensures UniqueIds(catalogue) ==>
      TopNOf(recs, Unseen(ratings, userId) * Elems(catalogue), EstimateFor(predict, userId), n)
  {
    var unseen := Unseen(ratings, userId);
    var score := EstimateFor(predict, userId);
    var predictions := PredictAll(score, unseen);
    RankedJoin(predictions, unseen, score, catalogue, n);
    topWatched := Head(SortDesc(Joined(OwnRatings(ratings, userId), RatingMovie, catalogue), RatingValue), n);
    recs := Head(SortDesc(Joined(predictions, MovieOf, catalogue), Score), n);
  }
}
