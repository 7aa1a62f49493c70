/** The Firestore frames the personalised recommender reads (the movie collection and
    one user's ratings) and its two statistics over a user's ratings: the preferred
    genres and the rating trend. */
module FirebaseData {
  import opened Wrappers
  import opened Seqs
  import opened IdIndex
  import opened Ranking

  /** A row of the Firestore movie collection, the columns the recommender reads. */
  datatype MovieMeta = MovieMeta(movieId: string, genre: string, popularity: real, avgScore: real)

  /** The frame `get_all_movies` returns, and whether it carries the `popularity` and
      `avg_score` columns. */
  datatype MetadataFrame = MetadataFrame(rows: seq<MovieMeta>, hasPopularity: bool, hasAvgScore: bool)

  /** A row of one user's Firestore ratings; `day` is the calendar date of `created_at`. */
  datatype UserRating = UserRating(movieId: string, rating: real, day: int)

  // ---------------------------------------------------------------- preferred genres

  /** A row of the ratings joined with the movie genres: the genre and the rating. */
  type GenreRating = (string, real)

  /** The genres of the movie rows with `m`'s id, each paired with `rating`. */
  function GenresOf(m: string, rating: real, movies: seq<MovieMeta>): (r: seq<GenreRating>)
    ensures forall p :: p in r <==> exists mm :: mm in movies && mm.movieId == m && p == (mm.genre, rating)
  {
    if |movies| == 0 then []
    else
      assert movies == [movies[0]] + movies[1..];
      (if movies[0].movieId == m then [(movies[0].genre, rating)] else []) + GenresOf(m, rating, movies[1..])
  }

  /** `pd.merge(user_ratings, movies[['movie_id', 'genre']], how='left')`, keeping the
      rows that found a genre (`groupby` drops the others). */
  function GenrePairs(ratings: seq<UserRating>, movies: seq<MovieMeta>): (r: seq<GenreRating>)
    ensures forall p :: p in r <==>
      exists x, mm :: x in ratings && mm in movies && mm.movieId == x.movieId && p == (mm.genre, x.rating)
  {
    if |ratings| == 0 then []
    else
      assert ratings == [ratings[0]] + ratings[1..];
      GenresOf(ratings[0].movieId, ratings[0].rating, movies) + GenrePairs(ratings[1..], movies)
  }

  /** The `count` of a genre group. */
  function GenreCount(pairs: seq<GenreRating>, g: string): (c: nat)
    ensures c > 0 <==> exists p :: p in pairs && p.0 == g
  {
    if |pairs| == 0 then 0
    else
      assert pairs == [pairs[0]] + pairs[1..];
      (if pairs[0].0 == g then 1 else 0) + GenreCount(pairs[1..], g)
  }

  function GenreSum(pairs: seq<GenreRating>, g: string): real
  {
    if |pairs| == 0 then 0.0
    else (if pairs[0].0 == g then pairs[0].1 else 0.0) + GenreSum(pairs[1..], g)
  }

  /** The `mean` of a genre group. */
  function GenreMean(pairs: seq<GenreRating>): string -> real
  {
    (g: string) => var c := GenreCount(pairs, g); if c == 0 then 0.0 else GenreSum(pairs, g) / (c as real)
  }

  /** The genres rated at least twice. */
  function Frequent(pairs: seq<GenreRating>): (r: set<string>)
    ensures forall g :: g in r <==> GenreCount(pairs, g) >= 2
  {
    set p | p in pairs && GenreCount(pairs, p.0) >= 2 :: p.0
  }

  function GenreNames(pairs: seq<GenreRating>): seq<string>
  {
    seq(|pairs|, i requires 0 <= i < |pairs| => pairs[i].0)
  }

  /** The `(genre, mean)` rows of the groups in `ids` with a count of at least 2. */
  function GenreRows(ids: seq<string>, pairs: seq<GenreRating>): (r: seq<Prediction>)
    ensures forall x :: x in r ==> x.0 in ids && GenreCount(pairs, x.0) >= 2 && x.1 == GenreMean(pairs)(x.0)
    ensures forall g :: g in ids && GenreCount(pairs, g) >= 2 ==> g in IdSet(r)
  {
    if |ids| == 0 then []
    else
      var rest := GenreRows(ids[1..], pairs);
      assert ids == [ids[0]] + ids[1..];
      if GenreCount(pairs, ids[0]) >= 2 then
        var x := (ids[0], GenreMean(pairs)(ids[0]));
        IdSetCons(x, rest);
        [x] + rest
      else rest
  }

  lemma {:induction false} GenreRowsDistinct(ids: seq<string>, pairs: seq<GenreRating>)
    requires StrictlySorted(ids)
    ensures DistinctIds(GenreRows(ids, pairs))
    decreases |ids|
  {
    if |ids| > 0 {
      GenreRowsDistinct(ids[1..], pairs);
      forall j | 0 <= j < |ids| - 1
        ensures ids[1..][j] != ids[0]
      {
        StrictlySortedDistinct(ids, 0, j + 1);
      }
    }
  }

  /** The grouped rows list every frequent genre once, with its mean. */
  lemma GroupedLists(pairs: seq<GenreRating>)
    ensures Lists(GenreRows(SortedIds(GenreNames(pairs)), pairs), Frequent(pairs), GenreMean(pairs))
  {
    var ids := SortedIds(GenreNames(pairs));
    var rows := GenreRows(ids, pairs);
    GenreRowsDistinct(ids, pairs);
    DistinctIdsCard(rows);
    GroupedIds(pairs);
    forall i | 0 <= i < |rows|
      ensures rows[i].1 == GenreMean(pairs)(rows[i].0)
    {
      assert rows[i] in rows;
    }
  }

  lemma GroupedIds(pairs: seq<GenreRating>)
    ensures IdSet(GenreRows(SortedIds(GenreNames(pairs)), pairs)) == Frequent(pairs)
  {
    var ids := SortedIds(GenreNames(pairs));
    var rows := GenreRows(ids, pairs);
    forall g | g in IdSet(rows)
      ensures g in Frequent(pairs)
    {
      var i :| 0 <= i < |rows| && rows[i].0 == g;
      assert rows[i] in rows;
    }
    forall g | g in Frequent(pairs)
      ensures g in IdSet(rows)
    {
      var p :| p in pairs && p.0 == g;
      var i :| 0 <= i < |pairs| && pairs[i] == p;
      assert GenreNames(pairs)[i] == g;
      assert g in Elems(GenreNames(pairs));
      assert g in ids;
    }
  }

  function Names(rows: seq<Prediction>): (r: seq<string>)
    ensures |r| == |rows| && forall i :: 0 <= i < |rows| ==> r[i] == rows[i].0
  {
    seq(|rows|, i requires 0 <= i < |rows| => rows[i].0)
  }

  /** The five best `(genre, mean)` rows. */
  function TopGenres(ratings: seq<UserRating>, movies: seq<MovieMeta>): seq<Prediction>
  {
    var pairs := GenrePairs(ratings, movies);
    Head(SortDesc(GenreRows(SortedIds(GenreNames(pairs)), pairs), Score), 5)
  }

  /** `_get_user_preferred_genres` once the movie frame is at hand: nothing for a user
      without ratings or an empty movie frame. */
  function PreferredGenres(ratings: seq<UserRating>, movies: MetadataFrame): seq<string>
  {
    if |ratings| == 0 || |movies.rows| == 0 then []
    else Names(TopGenres(ratings, movies.rows))
  }

  /** The preferred genres are the genres rated at least twice, each once, best mean
      first, as many as there are up to five, and no such genre left out has a higher
      mean than one listed. */
  lemma PreferredGenresSpec(ratings: seq<UserRating>, movies: MetadataFrame)
    requires |ratings| > 0 && |movies.rows| > 0
    ensures var pairs := GenrePairs(ratings, movies.rows);
      var top := TopGenres(ratings, movies.rows);
      PreferredGenres(ratings, movies) == Names(top) && TopNOf(top, Frequent(pairs), GenreMean(pairs), 5)
  {
    var pairs := GenrePairs(ratings, movies.rows);
    GroupedLists(pairs);
    SelectTop(GenreRows(SortedIds(GenreNames(pairs)), pairs), Frequent(pairs), GenreMean(pairs), 5);
  }

  // ---------------------------------------------------------------- rating trend

  predicate Increasing(s: seq<int>)
  {
    forall i, j :: 0 <= i < j < |s| ==> s[i] < s[j]
  }

  /** `x` put in its place in an increasing list, unless already there. */
  function InsertDay(x: int, s: seq<int>): (r: seq<int>)
    requires Increasing(s)
    ensures Increasing(r)
    ensures forall d :: d in r <==> d in s || d == x
  {
    if |s| == 0 then [x]
    else if x == s[0] then s
    else if x < s[0] then [x] + s
    else
      var t := InsertDay(x, s[1..]);
      assert s == [s[0]] + s[1..];
      assert forall i :: 0 <= i < |t| ==> t[i] in t;
      [s[0]] + t
  }

  /** The days the user rated on, in calendar order (the `groupby('date')` keys). */
  function Days(ratings: seq<UserRating>): (r: seq<int>)
    ensures Increasing(r)
    ensures forall d :: d in r <==> exists x :: x in ratings && x.day == d
  {
    if |ratings| == 0 then []
    else
      assert ratings == [ratings[0]] + ratings[1..];
      InsertDay(ratings[0].day, Days(ratings[1..]))
  }

  ghost predicate RatedOn(ratings: seq<UserRating>, d: int)
  {
    exists x :: x in ratings && x.day == d
  }

  /** The ratings given on day `d`, in row order. */
  function DayValues(ratings: seq<UserRating>, d: int): (r: seq<real>)
    ensures |r| > 0 <==> RatedOn(ratings, d)
    ensures forall i :: 0 <= i < |r| ==> exists x :: x in ratings && x.day == d && x.rating == r[i]
  {
    if |ratings| == 0 then []
    else
      assert ratings == [ratings[0]] + ratings[1..];
      var rest := DayValues(ratings[1..], d);
      var r := (if ratings[0].day == d then [ratings[0].rating] else []) + rest;
      assert forall i :: 0 <= i < |rest| ==> r[|r| - |rest| + i] == rest[i];
      r
  }

  /** The mean rating of one day. */
  function DayMean(ratings: seq<UserRating>, d: int): real
  {
    var vals := DayValues(ratings, d);
    if |vals| == 0 then 0.0 else Average(vals)
  }

  function DailyMeans(ratings: seq<UserRating>, days: seq<int>): (r: seq<real>)
    ensures |r| == |days| && forall i :: 0 <= i < |days| ==> r[i] == DayMean(ratings, days[i])
  {
    seq(|days|, i requires 0 <= i < |days| => DayMean(ratings, days[i]))
  }

  function SeqSum(xs: seq<real>): real
  {
    if |xs| == 0 then 0.0 else xs[0] + SeqSum(xs[1..])
  }

  function Average(xs: seq<real>): real
    requires |xs| > 0
  {
    SeqSum(xs) / (|xs| as real)
  }

  /** What `_get_rating_trend` reports: `recent_avg`, and whether `trend` is
      `'improving'` (otherwise `'stable'`). */
  datatype Trend = Trend(recentAvg: real, improving: bool)

  /** `_get_rating_trend`: `{}` (`None`) without ratings; otherwise the mean of the last
      seven daily means (of all of them when there are fewer), and improving when the
      last day's mean exceeds the one before. */
  function RatingTrend(ratings: seq<UserRating>): Option<Trend>
  {
    if |ratings| == 0 then None
    else
      var daily := DailyMeans(ratings, Days(ratings));
      assert ratings[0] in ratings;
      assert ratings[0].day in Days(ratings);
      Some(Trend(RecentAverage(daily), Rising(daily)))
  }

  /** `daily_ratings.tail(7).mean()` with seven days or more, else the overall mean. */
  function RecentAverage(daily: seq<real>): real
    requires |daily| > 0
  {
    if |daily| >= 7 then Average(daily[|daily| - 7..]) else Average(daily)
  }

  /** At least two days, and the last daily mean exceeds the one before it. */
  predicate Rising(daily: seq<real>)
  {
    |daily| >= 2 && daily[|daily| - 1] > daily[|daily| - 2]
  }

  /** `d2` is the latest rating day, `d1` the latest one before it, and the mean rose
      from `d1` to `d2`. */
  ghost predicate LatestRise(ratings: seq<UserRating>, d1: int, d2: int)
  {
    RatedOn(ratings, d1) && RatedOn(ratings, d2) && d1 < d2 &&
    (forall d :: RatedOn(ratings, d) ==> d <= d2 && (d < d2 ==> d <= d1)) &&
    DayMean(ratings, d2) > DayMean(ratings, d1)
  }

  /** The trend is improving exactly when the latest rating day has a higher mean than
      the latest day before it. */
  lemma TrendImproving(ratings: seq<UserRating>)
    requires |ratings| > 0
    ensures RatingTrend(ratings).Some?
    ensures RatingTrend(ratings).value.improving <==> exists d1, d2 :: LatestRise(ratings, d1, d2)
  {
    var days := Days(ratings);
    assert ratings[0] in ratings;
    assert ratings[0].day in days;
    if Rising(DailyMeans(ratings, days)) {
      assert |DailyMeans(ratings, days)| == |days|;
      RiseIsLatest(ratings, days);
    }
    if exists d1, d2 :: LatestRise(ratings, d1, d2) {
      var d1, d2 :| LatestRise(ratings, d1, d2);
      LatestIsRise(ratings, days, d1, d2);
    }
  }

  lemma RiseIsLatest(ratings: seq<UserRating>, days: seq<int>)
    requires days == Days(ratings) && |days| >= 2 && Rising(DailyMeans(ratings, days))
    ensures LatestRise(ratings, days[|days| - 2], days[|days| - 1])
  {
    MeanRose(ratings, days);
    LastTwoQualify(ratings, days);
  }

  lemma MeanRose(ratings: seq<UserRating>, days: seq<int>)
    requires |days| >= 2 && Rising(DailyMeans(ratings, days))
    ensures DayMean(ratings, days[|days| - 1]) > DayMean(ratings, days[|days| - 2])
  {
    var n := |days|;
    var daily := DailyMeans(ratings, days);
    assert daily[n - 1] == DayMean(ratings, days[n - 1]) && daily[n - 2] == DayMean(ratings, days[n - 2]);
  }

  lemma LatestIsRise(ratings: seq<UserRating>, days: seq<int>, d1: int, d2: int)
    requires days == Days(ratings) && LatestRise(ratings, d1, d2)
    ensures Rising(DailyMeans(ratings, days))
  {
    LatestDays(ratings, days, d1, d2);
    MeansRise(ratings, days);
  }

  /** The latest rating day and the latest one before it are the last two days. */
  lemma LatestDays(ratings: seq<UserRating>, days: seq<int>, d1: int, d2: int)
    requires days == Days(ratings) && RatedOn(ratings, d1) && RatedOn(ratings, d2) && d1 < d2
    requires forall d :: RatedOn(ratings, d) ==> d <= d2 && (d < d2 ==> d <= d1)
    ensures |days| >= 2 && days[|days| - 1] == d2 && days[|days| - 2] == d1
  {
    assert d1 in days && d2 in days;
    forall d | d in days
      ensures d <= d2 && (d < d2 ==> d <= d1)
    {
      assert RatedOn(ratings, d);
    }
    LatestTwo(days, d1, d2);
  }

  lemma MeansRise(ratings: seq<UserRating>, days: seq<int>)
    requires |days| >= 2 && DayMean(ratings, days[|days| - 1]) > DayMean(ratings, days[|days| - 2])
    ensures Rising(DailyMeans(ratings, days))
  {
    var n := |days|;
    var daily := DailyMeans(ratings, days);
    assert daily[n - 1] == DayMean(ratings, days[n - 1]) && daily[n - 2] == DayMean(ratings, days[n - 2]);
  }

  /** The last two rating days are the latest day and the latest one before it. */
  lemma LastTwoQualify(ratings: seq<UserRating>, days: seq<int>)
    requires days == Days(ratings) && |days| >= 2
    ensures var d1, d2 := days[|days| - 2], days[|days| - 1];
      RatedOn(ratings, d1) && RatedOn(ratings, d2) && d1 < d2 &&
      forall d :: RatedOn(ratings, d) ==> d <= d2 && (d < d2 ==> d <= d1)
  {
    var n := |days|;
    assert days[n - 2] in days && days[n - 1] in days;
    forall d | RatedOn(ratings, d)
      ensures d <= days[n - 1] && (d < days[n - 1] ==> d <= days[n - 2])
    {
      assert d in days;
      var k :| 0 <= k < n && days[k] == d;
    }
  }

  /** In an increasing list, the greatest element and the greatest one below it are
      its last two. */
  lemma LatestTwo(days: seq<int>, d1: int, d2: int)
    requires Increasing(days) && d1 in days && d2 in days && d1 < d2
    requires forall d :: d in days ==> d <= d2 && (d < d2 ==> d <= d1)
    ensures |days| >= 2 && days[|days| - 1] == d2 && days[|days| - 2] == d1
  {
    var n := |days|;
    var k1 :| 0 <= k1 < n && days[k1] == d1;
    var k2 :| 0 <= k2 < n && days[k2] == d2;
    assert k1 < k2;
    assert days[n - 1] in days;
    assert days[n - 2] in days;
  }

  lemma {:induction false} SeqSumBounds(xs: seq<real>, lo: real, hi: real)
    requires forall i :: 0 <= i < |xs| ==> lo <= xs[i] <= hi
    ensures lo * (|xs| as real) <= SeqSum(xs) <= hi * (|xs| as real)
    decreases |xs|
  {
    if |xs| > 0 {
      assert forall i :: 0 <= i < |xs| - 1 ==> xs[1..][i] == xs[i + 1];
      SeqSumBounds(xs[1..], lo, hi);
    }
  }

  lemma QuotientBetween(sum: real, n: real, lo: real, hi: real)
    requires n > 0.0 && lo * n <= sum <= hi * n
    ensures lo <= sum / n <= hi
  {
    var q := sum / n;
    assert q * n == sum;
    assert (q - lo) * n >= 0.0 && (hi - q) * n >= 0.0;
  }

  /** When every rating lies in `[lo, hi]`, so does the reported recent average. */
  lemma TrendBounds(ratings: seq<UserRating>, lo: real, hi: real)
    requires |ratings| > 0
    requires forall x :: x in ratings ==> lo <= x.rating <= hi
    ensures RatingTrend(ratings).Some? && lo <= RatingTrend(ratings).value.recentAvg <= hi
  {
    var days := Days(ratings);
    var daily := DailyMeans(ratings, days);
    assert ratings[0] in ratings;
    assert ratings[0].day in days;
    DailyBounds(ratings, lo, hi);
    assert |daily| > 0;
    RecentBounds(daily, lo, hi);
  }

  /** The recent average of daily means within `[lo, hi]` lies within it too. */
  lemma RecentBounds(daily: seq<real>, lo: real, hi: real)
    requires |daily| > 0 && forall i :: 0 <= i < |daily| ==> lo <= daily[i] <= hi
    ensures lo <= RecentAverage(daily) <= hi
  {
    var k := if |daily| >= 7 then |daily| - 7 else 0;
    var part := daily[k..];
    assert forall i :: 0 <= i < |part| ==> part[i] == daily[k + i];
    AverageBounds(part, lo, hi);
  }

  /** The mean of a day the user rated on lies within any bounds of the ratings. */
  lemma DayMeanBounds(ratings: seq<UserRating>, d: int, lo: real, hi: real)
    requires forall x :: x in ratings ==> lo <= x.rating <= hi
    requires d in Days(ratings)
    ensures lo <= DayMean(ratings, d) <= hi
  {
    var vals := DayValues(ratings, d);
    assert RatedOn(ratings, d);
    ValuesBounded(ratings, d, lo, hi);
    AverageBounds(vals, lo, hi);
  }

  /** The average of values within `[lo, hi]` lies within it too. */
  lemma AverageBounds(xs: seq<real>, lo: real, hi: real)
    requires |xs| > 0 && forall i :: 0 <= i < |xs| ==> lo <= xs[i] <= hi
    ensures lo <= Average(xs) <= hi
  {
    SeqSumBounds(xs, lo, hi);
    QuotientBetween(SeqSum(xs), |xs| as real, lo, hi);
  }

  lemma ValuesBounded(ratings: seq<UserRating>, d: int, lo: real, hi: real)
    requires forall x :: x in ratings ==> lo <= x.rating <= hi
    ensures forall j :: 0 <= j < |DayValues(ratings, d)| ==> lo <= DayValues(ratings, d)[j] <= hi
  {
    var vals := DayValues(ratings, d);
    forall j | 0 <= j < |vals|
      ensures lo <= vals[j] <= hi
    {
      var x :| x in ratings && x.day == d && x.rating == vals[j];
    }
  }

  lemma DailyBounds(ratings: seq<UserRating>, lo: real, hi: real)
    requires forall x :: x in ratings ==> lo <= x.rating <= hi
    ensures forall i :: 0 <= i < |Days(ratings)| ==> lo <= DailyMeans(ratings, Days(ratings))[i] <= hi
  {
    var days := Days(ratings);
    var daily := DailyMeans(ratings, days);
    forall i | 0 <= i < |daily|
      ensures lo <= daily[i] <= hi
    {
      DayMeanBounds(ratings, days[i], lo, hi);
    }
  }
}
