/** The Firestore-backed personalised recommender: the popular list for cold-start
    users, the lazily cached movie collection, the merge of the SVD training ratings
    with the Firestore ratings, and the fallback chain SVD, then item-based, then
    popular. The Firestore client and the loaded models' own computations are inputs. */
module FirebaseReco {
  import opened Wrappers
  import opened Seqs
  import opened Ratings
  import opened Ranking
  import opened FirebaseData
  import DataIntegration
  import DataLoader
  import ItemBased

  // ---------------------------------------------------------------- frames shown

  /** A row of `similar_movies` left-merged with the movie collection: the neighbour,
      its score and the matching movie row, if any. */
  datatype JoinedItem = JoinedItem(movieId: string, score: real, meta: Option<MovieMeta>)

  /** The data frames the recommender hands back: an empty frame, the popular list, the
      user's Firestore ratings, the SVD pipeline's `top_watched` and recommendations,
      or merged item-based neighbours. */
  datatype Panel =
    | NoFrame
    | Popular(movies: seq<MovieMeta>)
    | Rated(rows: seq<UserRating>)
    | Watched(watched: seq<IndexedRating>)
    | Predicted(recs: seq<Prediction>)
    | Similar(items: seq<JoinedItem>)

  /** `DataFrame.empty`. */
  predicate Empty(p: Panel)
  {
    match p
    case NoFrame => true
    case Popular(movies) => |movies| == 0
    case Rated(rows) => |rows| == 0
    case Watched(watched) => |watched| == 0
    case Predicted(recs) => |recs| == 0
    case Similar(items) => |items| == 0
  }

  /** The empty frame `_get_movie_metadata_from_firestore` returns after a failed fetch. */
  const EmptyFrame := MetadataFrame([], false, false)

  // ---------------------------------------------------------------- popular movies

  /** `a` may precede `b` in `sort_values(['popularity', 'avg_score'], ascending=False)`. */
  predicate Above(a: MovieMeta, b: MovieMeta)
  {
    a.popularity > b.popularity || (a.popularity == b.popularity && a.avgScore >= b.avgScore)
  }

  predicate LexSorted(s: seq<MovieMeta>)
  {
    forall i, j :: 0 <= i < j < |s| ==> Above(s[i], s[j])
  }

  function InsertLex(x: MovieMeta, s: seq<MovieMeta>): (r: seq<MovieMeta>)
    requires LexSorted(s)
    ensures LexSorted(r) && multiset(r) == multiset(s) + multiset{x}
  {
    if |s| == 0 then [x]
    else if Above(x, s[0]) then [x] + s
    else
      var t := InsertLex(x, s[1..]);
      InsertLexHead(x, s, t);
      [s[0]] + t
  }

  /** Putting back the head of `s` in front of `x` inserted into the rest of `s`. */
  lemma InsertLexHead(x: MovieMeta, s: seq<MovieMeta>, t: seq<MovieMeta>)
    requires |s| > 0 && LexSorted(s) && !Above(x, s[0])
    requires LexSorted(t) && multiset(t) == multiset(s[1..]) + multiset{x}
    ensures LexSorted([s[0]] + t) && multiset([s[0]] + t) == multiset(s) + multiset{x}
  {
    assert s == [s[0]] + s[1..];
    forall j | 0 <= j < |t|
      ensures Above(s[0], t[j])
    {
      assert t[j] in multiset(t);
      if t[j] != x {
        assert t[j] in multiset(s[1..]);
        var k :| 0 <= k < |s[1..]| && s[1..][k] == t[j];
        assert s[k + 1] == t[j];
      }
    }
    var r := [s[0]] + t;
    forall i, j | 0 <= i < j < |r|
      ensures Above(r[i], r[j])
    {
      assert r[j] == t[j - 1];
      if i > 0 {
        assert r[i] == t[i - 1];
      }
    }
  }

  /** The movie rows by popularity, then average score, both descending. */
  function SortLex(s: seq<MovieMeta>): (r: seq<MovieMeta>)
    ensures LexSorted(r) && multiset(r) == multiset(s)
  {
    if |s| == 0 then []
    else
      assert s == [s[0]] + s[1..];
      InsertLex(s[0], SortLex(s[1..]))
  }

  /** `_get_popular_movies` once the movie frame is at hand: an empty frame for an
      empty collection; the best `n` by popularity then average score when both columns
      exist; otherwise the first `n` rows. */
  function PopularOf(meta: MetadataFrame, n: int): Panel
  {
    if |meta.rows| == 0 then NoFrame
    else if meta.hasPopularity && meta.hasAvgScore then Popular(Head(SortLex(meta.rows), n))
    else Popular(Head(meta.rows, n))
  }

  /** The popular list is drawn from the collection, `n` rows at most; with both
      columns it is ordered by popularity then average score and no row left out comes
      before one listed, and without them it is the collection's first rows. */
  lemma PopularSpec(meta: MetadataFrame, n: int)
    ensures var p := PopularOf(meta, n);
      (p.NoFrame? <==> |meta.rows| == 0) &&
      (p.Popular? ==>
        multiset(p.movies) <= multiset(meta.rows) &&
        (n >= 0 ==> |p.movies| == (if n < |meta.rows| then n else |meta.rows|)) &&
        (meta.hasPopularity && meta.hasAvgScore ==>
          LexSorted(p.movies) &&
          forall x :: x in multiset(meta.rows) - multiset(p.movies) ==>
            forall i :: 0 <= i < |p.movies| ==> Above(p.movies[i], x)) &&
        (!(meta.hasPopularity && meta.hasAvgScore) ==> p.movies == meta.rows[..|p.movies|]))
  {
    if |meta.rows| > 0 {
      if meta.hasPopularity && meta.hasAvgScore {
        var sorted := SortLex(meta.rows);
        var p := Head(sorted, n);
        PrefixBelow(sorted, |p|);
      } else {
        var p := Head(meta.rows, n);
        PrefixMultiset(meta.rows, |p|);
      }
    }
  }

  lemma PrefixMultiset<T>(s: seq<T>, k: nat)
    requires k <= |s|
    ensures multiset(s[..k]) <= multiset(s)
    ensures multiset(s) - multiset(s[..k]) == multiset(s[k..])
  {
    assert s == s[..k] + s[k..];
  }

  /** A prefix of a sorted list is sorted, and what lies beyond it comes after it. */
  lemma PrefixBelow(sorted: seq<MovieMeta>, k: nat)
    requires LexSorted(sorted) && k <= |sorted|
    ensures LexSorted(sorted[..k]) && multiset(sorted[..k]) <= multiset(sorted)
    ensures forall x :: x in multiset(sorted) - multiset(sorted[..k]) ==>
      forall i :: 0 <= i < k ==> Above(sorted[i], x)
  {
    PrefixMultiset(sorted, k);
    forall x | x in multiset(sorted) - multiset(sorted[..k])
      ensures forall i :: 0 <= i < k ==> Above(sorted[i], x)
    {
      assert x in sorted[k..];
      var j :| 0 <= j < |sorted| - k && sorted[k..][j] == x;
      assert sorted[k + j] == x;
    }
  }

  // ---------------------------------------------------------------- metadata cache

  /** The frame `_get_movie_metadata_from_firestore` returns: the cached one if any,
      else the fetched one, else (the fetch raised) an empty frame. */
  function MetaView(cache: Option<MetadataFrame>, fetched: Result<MetadataFrame>): MetadataFrame
  {
    if cache.Some? then cache.value else if fetched.Ok? then fetched.value else EmptyFrame
  }

  /** `self.movie_metadata` afterwards: a fetch is only made, and kept, while nothing is
      cached; a failed fetch leaves the cache empty. */
  function CacheAfter(cache: Option<MetadataFrame>, fetched: Result<MetadataFrame>): (r: Option<MetadataFrame>)
    ensures cache.Some? ==> r == cache
  {
    if cache.Some? then cache else if fetched.Ok? then Some(fetched.value) else None
  }

  /** The frames a run of metadata reads returns, each read given what the collection
      would answer at that moment. */
  function Views(cache: Option<MetadataFrame>, fetches: seq<Result<MetadataFrame>>): (r: seq<MetadataFrame>)
    ensures |r| == |fetches|
    decreases |fetches|
  {
    if |fetches| == 0 then []
    else [MetaView(cache, fetches[0])] + Views(CacheAfter(cache, fetches[0]), fetches[1..])
  }

  /** Once a frame is cached every later read returns it, whatever the collection
      answers. */
  lemma {:induction false} CachedForever(frame: MetadataFrame, fetches: seq<Result<MetadataFrame>>)
    ensures forall j :: 0 <= j < |fetches| ==> Views(Some(frame), fetches)[j] == frame
    decreases |fetches|
  {
    if |fetches| > 0 {
      CachedForever(frame, fetches[1..]);
      var v := Views(Some(frame), fetches);
      assert forall j :: 1 <= j < |fetches| ==> v[j] == Views(Some(frame), fetches[1..])[j - 1];
    }
  }

  /** Starting uncached, the collection is read until the first fetch that succeeds,
      and that frame is what every read from then on returns. */
  lemma {:induction false} FetchedOnce(fetches: seq<Result<MetadataFrame>>, i: nat)
    requires i < |fetches| && fetches[i].Ok?
    requires forall j :: 0 <= j < i ==> fetches[j].Err?
    ensures forall j :: 0 <= j < i ==> Views(None, fetches)[j] == EmptyFrame
    ensures forall j :: i <= j < |fetches| ==> Views(None, fetches)[j] == fetches[i].value
    decreases i
  {
    var v := Views(None, fetches);
    if i == 0 {
      CachedForever(fetches[0].value, fetches[1..]);
      assert forall j :: 1 <= j < |fetches| ==> v[j] == Views(Some(fetches[0].value), fetches[1..])[j - 1];
    } else {
      FetchedOnce(fetches[1..], i - 1);
      assert forall j :: 1 <= j < |fetches| ==> v[j] == Views(None, fetches[1..])[j - 1];
    }
  }

  // ---------------------------------------------------------------- combined ratings

  /** The first row of `rows` with key `k`, if any. */
  function FirstWithKey(rows: seq<Rating>, k: (string, string)): (r: Option<Rating>)
    ensures r.Some? ==> r.value in rows && DataIntegration.Key(r.value) == k
    ensures r.None? ==> forall x :: x in rows ==> DataIntegration.Key(x) != k
  {
    if |rows| == 0 then None
    else if DataIntegration.Key(rows[0]) == k then Some(rows[0])
    else FirstWithKey(rows[1..], k)
  }

  lemma {:induction false} FirstWithKeyAppend(a: seq<Rating>, b: seq<Rating>, k: (string, string))
    ensures FirstWithKey(a + b, k) ==
      if FirstWithKey(a, k).Some? then FirstWithKey(a, k) else FirstWithKey(b, k)
    decreases |a|
  {
    if |a| > 0 {
      assert (a + b)[0] == a[0];
      assert (a + b)[1..] == a[1..] + b;
      FirstWithKeyAppend(a[1..], b, k);
    } else {
      assert a + b == b;
    }
  }

  /** The rows `drop_duplicates` keeps when the keys in `seen` were met before. */
  function KeepFirstAfter(rows: seq<Rating>, seen: set<(string, string)>): (r: seq<Rating>)
    ensures IsSubsequence(r, rows)
    ensures forall x :: x in r <==>
      DataIntegration.Key(x) !in seen && FirstWithKey(rows, DataIntegration.Key(x)) == Some(x)
    ensures forall i, j :: 0 <= i < j < |r| ==> DataIntegration.Key(r[i]) != DataIntegration.Key(r[j])
  {
    if |rows| == 0 then []
    else
      var k := DataIntegration.Key(rows[0]);
      if k in seen then
        var rest := KeepFirstAfter(rows[1..], seen);
        SubsequenceSkip(rest, rows);
        rest
      else
        var rest := KeepFirstAfter(rows[1..], seen + {k});
        var r := [rows[0]] + rest;
        assert r[1..] == rest;
        assert forall j :: 0 < j < |r| ==> r[j] in rest;
        r
  }

  /** `drop_duplicates(subset=['user_id', 'movie_id'])`: the first row of each
      `(user_id, movie_id)` pair, in input order. */
  function KeepFirst(rows: seq<Rating>): (r: seq<Rating>)
    ensures IsSubsequence(r, rows)
    ensures forall x :: x in r <==> FirstWithKey(rows, DataIntegration.Key(x)) == Some(x)
    ensures forall k :: FirstWithKey(rows, k).Some? ==> FirstWithKey(rows, k).value in r
    ensures forall i, j :: 0 <= i < j < |r| ==> DataIntegration.Key(r[i]) != DataIntegration.Key(r[j])
  {
    KeepFirstAfter(rows, {})
  }

  /** `_create_rating_matrix_from_firestore` with an SVD pipeline loaded: an empty frame
      when the fetch fails or returns nothing; otherwise the pipeline's `df_filtered`
      (dropped by `pd.concat` while it is `None`) followed by the Firestore ratings,
      deduplicated. */
  function CombinedRatings(existing: Option<seq<Rating>>, fetched: Result<seq<Rating>>): (r: seq<Rating>)
    ensures fetched.Err? || |fetched.value| == 0 ==> r == []
    ensures fetched.Ok? && |fetched.value| > 0 ==> IsSubsequence(r, existing.GetOr([]) + fetched.value)
    ensures fetched.Ok? && |fetched.value| > 0 ==>
      forall x :: x in existing.GetOr([]) + fetched.value ==> exists y :: y in r && DataIntegration.Key(y) == DataIntegration.Key(x)
    ensures forall i, j :: 0 <= i < j < |r| ==> DataIntegration.Key(r[i]) != DataIntegration.Key(r[j])
  {
    if fetched.Err? || |fetched.value| == 0 then []
    else KeepFirst(existing.GetOr([]) + fetched.value)
  }

  /** Unlike `integrate_data`, the merge keeps the pipeline's own row for a pair the
      user also rated in Firestore, and adds a Firestore row only for a new pair. */
  lemma ExistingWins(existing: seq<Rating>, fetched: seq<Rating>)
    requires |fetched| > 0
    ensures var c := CombinedRatings(Some(existing), Ok(fetched));
      (forall k :: FirstWithKey(existing, k).Some? ==> FirstWithKey(existing, k).value in c) &&
      (forall x :: x in c && x !in existing ==>
        FirstWithKey(existing, DataIntegration.Key(x)).None? &&
        FirstWithKey(fetched, DataIntegration.Key(x)) == Some(x))
  {
    var c := CombinedRatings(Some(existing), Ok(fetched));
    forall k | FirstWithKey(existing, k).Some?
      ensures FirstWithKey(existing, k).value in c
    {
      FirstWithKeyAppend(existing, fetched, k);
    }
    forall x | x in c && x !in existing
      ensures FirstWithKey(existing, DataIntegration.Key(x)).None?
      ensures FirstWithKey(fetched, DataIntegration.Key(x)) == Some(x)
    {
      FirstWithKeyAppend(existing, fetched, DataIntegration.Key(x));
    }
  }

  /** `user_id in ratings_data['user_id'].values`. */
  predicate HasUser(rows: seq<Rating>, u: string)
  {
    exists x :: x in rows && x.userId == u
  }

  // ---------------------------------------------------------------- item-based route

  /** The position `idxmax` picks: a highest rating, the first of them. */
  function FirstMax(xs: seq<UserRating>): (k: nat)
    requires |xs| > 0
    ensures k < |xs|
    ensures forall j :: 0 <= j < |xs| ==> xs[j].rating <= xs[k].rating
    ensures forall j :: 0 <= j < k ==> xs[j].rating < xs[k].rating
  {
    if |xs| == 1 then 0
    else
      var k := FirstMax(xs[1..]) + 1;
      assert forall j :: 1 <= j < |xs| ==> xs[j] == xs[1..][j - 1];
      if xs[0].rating >= xs[k].rating then 0 else k
  }

  function IsHigh(x: UserRating): bool { x.rating >= 4.0 }

  /** The movie rows carrying id `m`, in collection order. */
  function MetaRows(movies: seq<MovieMeta>, m: string): (r: seq<MovieMeta>)
    ensures forall x :: x in r <==> x in movies && x.movieId == m
  {
    if |movies| == 0 then []
    else (if movies[0].movieId == m then [movies[0]] else []) + MetaRows(movies[1..], m)
  }

  /** The merged rows of one neighbour: one per movie row with its id, or a single row
      without metadata when there is none. */
  function JoinOne(item: (string, real), movies: seq<MovieMeta>): (r: seq<JoinedItem>)
    ensures |r| > 0
    ensures forall j :: j in r ==> (j.movieId, j.score) == item
    ensures forall j :: j in r && j.meta.Some? ==> j.meta.value in movies && j.meta.value.movieId == j.movieId
  {
    var ms := MetaRows(movies, item.0);
    if |ms| == 0 then [JoinedItem(item.0, item.1, None)]
    else
      var r := seq(|ms|, k requires 0 <= k < |ms| => JoinedItem(item.0, item.1, Some(ms[k])));
      assert forall j :: j in r ==> exists k :: 0 <= k < |ms| && j == JoinedItem(item.0, item.1, Some(ms[k]));
      r
  }

  /** `pd.merge(similar_movies, movie_metadata, on='movie_id', how='left')`: each
      neighbour once per movie row with its id, or once without metadata when there is
      none, in neighbour order. */
  function LeftJoin(items: seq<(string, real)>, movies: seq<MovieMeta>): (r: seq<JoinedItem>)
    ensures |r| >= |items|
    ensures forall j :: j in r ==> (j.movieId, j.score) in items
    ensures forall j :: j in r && j.meta.Some? ==> j.meta.value in movies && j.meta.value.movieId == j.movieId
  {
    if |items| == 0 then []
    else
      var here := JoinOne(items[0], movies);
      var rest := LeftJoin(items[1..], movies);
      assert forall j :: j in rest ==> (j.movieId, j.score) in items[1..];
      here + rest
  }

  predicate UniqueMovieIds(movies: seq<MovieMeta>)
  {
    forall a, b :: 0 <= a < b < |movies| ==> movies[a].movieId != movies[b].movieId
  }

  lemma {:induction false} SingleMetaRow(movies: seq<MovieMeta>, m: string)
    requires UniqueMovieIds(movies)
    ensures |MetaRows(movies, m)| <= 1
    decreases |movies|
  {
    if |movies| > 0 {
      var tail := movies[1..];
      assert forall a :: 0 <= a < |tail| ==> tail[a] == movies[a + 1];
      SingleMetaRow(tail, m);
      if movies[0].movieId == m {
        forall x | x in tail
          ensures x.movieId != m
        {
          var j :| 0 <= j < |tail| && tail[j] == x;
          assert movies[j + 1] == x;
        }
        MetaRowsNone(tail, m);
      }
    }
  }

  lemma {:induction false} MetaRowsNone(movies: seq<MovieMeta>, m: string)
    requires forall x :: x in movies ==> x.movieId != m
    ensures MetaRows(movies, m) == []
    decreases |movies|
  {
    if |movies| > 0 {
      assert movies[0] in movies;
      assert forall x :: x in movies[1..] ==> x in movies;
      MetaRowsNone(movies[1..], m);
    }
  }

  /** Merged row `j` stands for neighbour `item`, with its movie row exactly when the
      collection has one. */
  predicate JoinedAs(j: JoinedItem, item: (string, real), movies: seq<MovieMeta>)
  {
    (j.movieId, j.score) == item && (j.meta.Some? <==> exists x :: x in movies && x.movieId == item.0)
  }

  /** Against a collection without repeated ids a neighbour gives exactly one merged
      row. */
  lemma JoinOneUnique(item: (string, real), movies: seq<MovieMeta>)
    requires UniqueMovieIds(movies)
    ensures |JoinOne(item, movies)| == 1 && JoinedAs(JoinOne(item, movies)[0], item, movies)
  {
    SingleMetaRow(movies, item.0);
    var ms := MetaRows(movies, item.0);
    var r := JoinOne(item, movies);
    assert r[0] in r;
    if |ms| == 1 {
      assert ms[0] in ms;
    }
  }

  /** Against a collection without repeated ids the merge neither drops nor repeats a
      neighbour: row `i` is neighbour `i`, with its movie row exactly when there is one. */
  lemma {:induction false} LeftJoinUnique(items: seq<(string, real)>, movies: seq<MovieMeta>)
    requires UniqueMovieIds(movies)
    ensures |LeftJoin(items, movies)| == |items|
    ensures forall i :: 0 <= i < |items| ==> JoinedAs(LeftJoin(items, movies)[i], items[i], movies)
    decreases |items|
  {
    if |items| > 0 {
      var rest := LeftJoin(items[1..], movies);
      LeftJoinUnique(items[1..], movies);
      JoinOneUnique(items[0], movies);
      var one := JoinOne(items[0], movies);
      assert one == [one[0]];
      assert LeftJoin(items, movies) == [one[0]] + rest;
      JoinedCons(one[0], rest, items, movies);
    }
  }

  lemma JoinedCons(h: JoinedItem, rest: seq<JoinedItem>, items: seq<(string, real)>, movies: seq<MovieMeta>)
    requires |items| == |rest| + 1 && JoinedAs(h, items[0], movies)
    requires forall i :: 0 <= i < |rest| ==> JoinedAs(rest[i], items[1..][i], movies)
    ensures forall i :: 0 <= i < |items| ==> JoinedAs(([h] + rest)[i], items[i], movies)
  {
    forall i | 1 <= i < |items|
      ensures JoinedAs(([h] + rest)[i], items[i], movies)
    {
      assert ([h] + rest)[i] == rest[i - 1];
      assert items[i] == items[1..][i - 1];
    }
  }

  /** The neighbours the loaded item-based model gives for `movieId`, `top_n` at most. */
  function Neighbours(model: ItemBased.SavedModel, movieId: string, n: int): Result<Option<seq<(string, real)>>>
  {
    ItemBased.RecommendOf(Some(model.similarity), model.idMapping, movieId, n)
  }

  /** The movie ids of the movie file's rows. */
  function FileIds(movies: seq<DataLoader.MovieRecord>): set<string>
  {
    set i | 0 <= i < |movies| :: movies[i].movieId
  }

  predicate UniqueFileIds(movies: seq<DataLoader.MovieRecord>)
  {
    forall a, b :: 0 <= a < b < |movies| ==> movies[a].movieId != movies[b].movieId
  }

  /** The score `dict(zip(ids, scores))` holds for `m`: that of the last pair with id `m`. */
  function ScoreIn(items: seq<(string, real)>, m: string): real
    decreases |items|
  {
    if |items| == 0 then 0.0
    else if items[|items| - 1].0 == m then items[|items| - 1].1
    else ScoreIn(items[..|items| - 1], m)
  }

  /** A listed id's score is the score of one of its pairs. */
  lemma {:induction false} ScoreInListed(items: seq<(string, real)>, m: string)
    requires m in IdSet(items)
    ensures (m, ScoreIn(items, m)) in items
    decreases |items|
  {
    var init := items[..|items| - 1];
    var last := items[|items| - 1];
    if last.0 != m {
      assert items == init + [last];
      IdSetSnoc(init, last);
      ScoreInListed(init, m);
    }
  }

  /** `movie_df[movie_df['movie_id'].isin(ids)]` with its `similarity_score` column: the
      movie-file rows whose id is a neighbour's, in file order, each with that
      neighbour's score. */
  function FileRows(items: seq<(string, real)>, movies: seq<DataLoader.MovieRecord>): seq<(string, real)>
    decreases |movies|
  {
    if |movies| == 0 then []
    else
      var m := movies[0].movieId;
      (if m in IdSet(items) then [(m, ScoreIn(items, m))] else []) + FileRows(items, movies[1..])
  }

  lemma FileIdsCons(movies: seq<DataLoader.MovieRecord>)
    requires |movies| > 0
    ensures FileIds(movies) == {movies[0].movieId} + FileIds(movies[1..])
  {
    var tail := movies[1..];
    forall g | g in FileIds(movies)
      ensures g in {movies[0].movieId} + FileIds(tail)
    {
      var i :| 0 <= i < |movies| && movies[i].movieId == g;
      if i > 0 {
        assert tail[i - 1] == movies[i];
      }
    }
    forall g | g in FileIds(tail)
      ensures g in FileIds(movies)
    {
      var i :| 0 <= i < |tail| && tail[i].movieId == g;
      assert movies[i + 1] == tail[i];
    }
  }

  /** A row is kept exactly when its id is a neighbour's and has a movie-file row, and
      it carries that neighbour's score. */
  lemma {:induction false} FileRowsMembers(items: seq<(string, real)>, movies: seq<DataLoader.MovieRecord>)
    ensures forall x :: x in FileRows(items, movies) <==>
      x.0 in IdSet(items) && x.0 in FileIds(movies) && x.1 == ScoreIn(items, x.0)
    decreases |movies|
  {
    if |movies| > 0 {
      FileRowsMembers(items, movies[1..]);
      FileIdsCons(movies);
    }
  }

  /** Against a movie file without repeated ids no movie is shown twice. */
  lemma {:induction false} FileRowsDistinct(items: seq<(string, real)>, movies: seq<DataLoader.MovieRecord>)
    requires UniqueFileIds(movies)
    ensures DistinctIds(FileRows(items, movies))
    decreases |movies|
  {
    if |movies| > 0 {
      var tail := movies[1..];
      assert forall a :: 0 <= a < |tail| ==> tail[a] == movies[a + 1];
      FileRowsDistinct(items, tail);
      FileRowsMembers(items, tail);
      var m := movies[0].movieId;
      var head: seq<(string, real)> := if m in IdSet(items) then [(m, ScoreIn(items, m))] else [];
      var rest := FileRows(items, tail);
      forall i | 0 <= i < |tail|
        ensures tail[i].movieId != m
      {
        assert tail[i] == movies[i + 1];
      }
      forall i, j | 0 <= i < j < |head + rest|
        ensures (head + rest)[i].0 != (head + rest)[j].0
      {
        if i >= |head| {
          assert (head + rest)[i] == rest[i - |head|] && (head + rest)[j] == rest[j - |head|];
        } else {
          assert (head + rest)[j] == rest[j - 1];
          assert rest[j - 1] in rest;
        }
      }
    }
  }

  /** Listed ids number no more than the pairs listing them. */
  lemma {:induction false} IdSetBound(ps: seq<Prediction>)
    ensures |IdSet(ps)| <= |ps|
    decreases |ps|
  {
    if |ps| > 0 {
      var init := ps[..|ps| - 1];
      assert ps == init + [ps[|ps| - 1]];
      IdSetSnoc(init, ps[|ps| - 1]);
      IdSetBound(init);
    }
  }

  /** Against a movie file without repeated ids there are no more rows than neighbours. */
  lemma FileRowsBound(items: seq<(string, real)>, movies: seq<DataLoader.MovieRecord>)
    requires UniqueFileIds(movies)
    ensures |FileRows(items, movies)| <= |items|
  {
    var r := FileRows(items, movies);
    FileRowsDistinct(items, movies);
    FileRowsMembers(items, movies);
    DistinctIdsCard(r);
    forall g | g in IdSet(r)
      ensures g in IdSet(items)
    {
      var i :| 0 <= i < |r| && r[i].0 == g;
      assert r[i] in r;
    }
    SubsetCard(IdSet(r), IdSet(items));
    IdSetBound(items);
  }

  /** What `recommend(movie_id, top_n, return_scores=True)` hands the recommender:
      `None` when the model raises or finds no neighbour, or when `load_movie_data()`
      fails inside `recommend`; otherwise the movie-file rows of the neighbours, each
      with its score, sorted by score. `sort_values` is not stable: `SortDesc` picks
      one admissible order among equal scores, and the lemmas about `Shown` claim only
      the order by score. */
  function Shown(model: ItemBased.SavedModel, movieId: string, n: int,
                 movieFile: Result<seq<DataLoader.MovieRecord>>): Option<seq<(string, real)>>
  {
    var similar := Neighbours(model, movieId, n);
    if similar.Ok? && similar.value.Some? && |similar.value.value| > 0 && movieFile.Ok? then
      Some(SortDesc(FileRows(similar.value.value, movieFile.value), Score))
    else None
  }

  /** `similar_movies is not None and not similar_movies.empty`. */
  predicate Shows(model: ItemBased.SavedModel, movieId: string, n: int,
                  movieFile: Result<seq<DataLoader.MovieRecord>>)
  {
    Shown(model, movieId, n, movieFile).Some? && |Shown(model, movieId, n, movieFile).value| > 0
  }

  /** The item route has neighbours to merge: a rating of 4.0 or more, and `recommend`
      answers for the first highest-rated movie with a non-empty frame. */
  predicate MergesNeighbours(own: seq<UserRating>, model: ItemBased.SavedModel, n: int,
                             movieFile: Result<seq<DataLoader.MovieRecord>>)
  {
    var high := Filter(own, IsHigh);
    |high| > 0 && Shows(model, high[FirstMax(high)].movieId, n, movieFile)
  }

  /** `_recommend_with_item_based` once the movie frame and the popular list are at
      hand, as written: without a rating of 4.0 or more the popular list comes first;
      otherwise the user's ratings come first, then the merged neighbours of the first
      highest-rated movie, as `recommend` hands them back, or, failing those, the
      popular list. `again` is the popular list of a second read of the collection,
      made when the merge read came back empty. */
  function ItemRouteAsWritten(own: seq<UserRating>, model: ItemBased.SavedModel, meta: MetadataFrame,
                              movieFile: Result<seq<DataLoader.MovieRecord>>, popular: Panel, again: Panel,
                              n: int): (Panel, Panel)
  {
    var high := Filter(own, IsHigh);
    if |high| == 0 then (popular, Rated(own))
    else
      var best := high[FirstMax(high)].movieId;
      if Shows(model, best, n, movieFile) then
        if |meta.rows| > 0 then (Rated(own), Similar(LeftJoin(Shown(model, best, n, movieFile).value, meta.rows)))
        else (Rated(own), again)
      else (Rated(own), popular)
  }

  /** The same with the popular list in the recommendations slot throughout. */
  function ItemRoute(own: seq<UserRating>, model: ItemBased.SavedModel, meta: MetadataFrame,
                     movieFile: Result<seq<DataLoader.MovieRecord>>, popular: Panel, n: int): (Panel, Panel)
  {
    var high := Filter(own, IsHigh);
    if |high| == 0 then (Rated(own), popular)
    else
      var best := high[FirstMax(high)].movieId;
      if Shows(model, best, n, movieFile) && |meta.rows| > 0 then
        (Rated(own), Similar(LeftJoin(Shown(model, best, n, movieFile).value, meta.rows)))
      else (Rated(own), popular)
  }

  // ---------------------------------------------------------------- fallback chain

  /** What is known of a loaded SVD pipeline here: its `df_filtered`. */
  datatype SvdHandle = SvdHandle(dfFiltered: Option<seq<Rating>>)

  /** What one call reads from outside: the user's Firestore ratings, the movie
      collection, all Firestore ratings, the answer of the loaded pipeline's
      `recommend_for_user` for this user, collection and `n`, and what
      `load_movie_data()` gives the item-based model's `recommend`. */
  datatype Inputs = Inputs(
    userRatings: Result<seq<UserRating>>,
    meta: MetadataFrame,
    allRatings: Result<seq<Rating>>,
    svdAnswer: Result<(seq<IndexedRating>, seq<Prediction>)>,
    movieFile: Result<seq<DataLoader.MovieRecord>>)

  /** The user's ratings as read; a failed read gives an empty frame. */
  function Own(inp: Inputs): seq<UserRating>
  {
    if inp.userRatings.Ok? then inp.userRatings.value else []
  }

  /** The SVD route applies: a loaded pipeline and a non-empty merged rating frame. */
  predicate SvdApplies(svd: Option<SvdHandle>, inp: Inputs)
  {
    svd.Some? && |CombinedRatings(svd.value.dfFiltered, inp.allRatings)| > 0
  }

  /** The SVD route yields the pipeline's answer: a non-empty collection, a user present
      in the merged ratings, and a pipeline that does not raise. */
  predicate SvdAnswers(svd: Option<SvdHandle>, inp: Inputs, userId: string)
  {
    SvdApplies(svd, inp) && |inp.meta.rows| > 0 &&
    HasUser(CombinedRatings(svd.value.dfFiltered, inp.allRatings), userId) && inp.svdAnswer.Ok?
  }

  /** `recommend_for_user` as written, as `(top_watched, recommendations)`, where
      `again` is the frame a second read of the collection sees. That read is made by
      the popular fallback of the SVD route (`_recommend_with_svd` has read once
      already) and of the item route after an empty merge read. */
  function RecommendReading(svd: Option<SvdHandle>, item: Option<ItemBased.SavedModel>, inp: Inputs,
                            again: MetadataFrame, userId: string, n: int): (Panel, Panel)
  {
    var own := Own(inp);
    var popular := PopularOf(inp.meta, n);
    if |own| == 0 then (popular, NoFrame)
    else if |own| < 5 then (popular, Rated(own))
    else if SvdApplies(svd, inp) then
      if SvdAnswers(svd, inp, userId) then (Watched(inp.svdAnswer.value.0), Predicted(inp.svdAnswer.value.1))
      else (PopularOf(again, n), NoFrame)
    else if item.Some? then ItemRouteAsWritten(own, item.value, inp.meta, inp.movieFile, popular, PopularOf(again, n), n)
    else (popular, Rated(own))
  }

  /** The call reads the collection a second time: the SVD route falls back to the
      popular list, or the item route found neighbours but an empty collection. */
  predicate ReadsAgain(svd: Option<SvdHandle>, item: Option<ItemBased.SavedModel>, inp: Inputs,
                       userId: string, n: int)
  {
    |Own(inp)| >= 5 &&
    if SvdApplies(svd, inp) then !SvdAnswers(svd, inp, userId)
    else item.Some? && MergesNeighbours(Own(inp), item.value, n, inp.movieFile) && |inp.meta.rows| == 0
  }

  /** `recommend_for_user` as written when every read of the collection in the call
      sees the same frame, as it does once a frame is cached. */
  function RecommendAsWritten(svd: Option<SvdHandle>, item: Option<ItemBased.SavedModel>, inp: Inputs,
                              userId: string, n: int): (Panel, Panel)
  {
    RecommendReading(svd, item, inp, inp.meta, userId, n)
  }

  /** A second read matters only after an empty first one: when the first read saw
      movies, or the call reads once, the answer is that of a single frame. */
  lemma SecondReadOnlyAfterEmpty(svd: Option<SvdHandle>, item: Option<ItemBased.SavedModel>, inp: Inputs,
                                 again: MetadataFrame, userId: string, n: int)
    requires !ReadsAgain(svd, item, inp, userId, n) || again == inp.meta
    ensures RecommendReading(svd, item, inp, again, userId, n) == RecommendAsWritten(svd, item, inp, userId, n)
  {
  }

  /** On the SVD route with an empty first read, the popular list comes from the second
      read: when that one sees movies the answer is a popular list, where a single
      empty frame would give nothing. */
  lemma SecondReadFillsPopular(svd: Option<SvdHandle>, item: Option<ItemBased.SavedModel>, inp: Inputs,
                               again: MetadataFrame, userId: string, n: int)
    requires |Own(inp)| >= 5 && SvdApplies(svd, inp) && |inp.meta.rows| == 0 && |again.rows| > 0
    ensures RecommendReading(svd, item, inp, again, userId, n) == (PopularOf(again, n), NoFrame)
    ensures RecommendReading(svd, item, inp, again, userId, n).0.Popular?
    ensures RecommendAsWritten(svd, item, inp, userId, n) == (NoFrame, NoFrame)
  {
  }

  /** A user without ratings, while the collection has movies, gets an empty
      recommendations frame (the interface then reports nothing to recommend) and the
      popular list in the `top_watched` slot; a user with one to four ratings is
      offered those very ratings as recommendations. */
  lemma ColdStartAsWritten(svd: Option<SvdHandle>, item: Option<ItemBased.SavedModel>, inp: Inputs,
                           userId: string, n: int)
    ensures var r := RecommendAsWritten(svd, item, inp, userId, n);
      (|Own(inp)| == 0 && |inp.meta.rows| > 0 ==> r.0.Popular? && Empty(r.1)) &&
      (0 < |Own(inp)| < 5 ==> r.1 == Rated(Own(inp)))
  {
  }

  /** As written, the recommendations are the pipeline's exactly when the user has five
      ratings or more and the SVD route answers; they are item-based neighbours only on
      the item route; otherwise the popular list sits in the `top_watched` slot beside
      an empty frame or the user's own ratings, except when the item route found a
      rating of 4.0 or more but no neighbours. */
  lemma RecommendSlotsAsWritten(svd: Option<SvdHandle>, item: Option<ItemBased.SavedModel>, inp: Inputs,
                                userId: string, n: int)
    ensures var r := RecommendAsWritten(svd, item, inp, userId, n);
      (r.1.Predicted? <==> |Own(inp)| >= 5 && SvdAnswers(svd, inp, userId)) &&
      (r.1.Predicted? ==> r == (Watched(inp.svdAnswer.value.0), Predicted(inp.svdAnswer.value.1))) &&
      (r.1.Similar? ==> |Own(inp)| >= 5 && !SvdApplies(svd, inp) && item.Some? && r.0 == Rated(Own(inp))) &&
      (!r.1.Predicted? && !r.1.Similar? ==>
        (r.0 == PopularOf(inp.meta, n) && (r.1 == NoFrame || r.1 == Rated(Own(inp)))) ||
        r == (Rated(Own(inp)), PopularOf(inp.meta, n))) &&
      (|Own(inp)| == 0 ==> r == (PopularOf(inp.meta, n), NoFrame)) &&
      (0 < |Own(inp)| < 5 ==> r == (PopularOf(inp.meta, n), Rated(Own(inp))))
  {
  }

  /** `recommend_for_user` with the popular list always in the recommendations slot:
      nothing rated gives `(empty, popular)`; fewer than five ratings give
      `(ratings, popular)`; then the SVD pipeline, the item-based model and the popular
      list in that order. */
  function Recommend(svd: Option<SvdHandle>, item: Option<ItemBased.SavedModel>, inp: Inputs,
                     userId: string, n: int): (Panel, Panel)
  {
    var own := Own(inp);
    var popular := PopularOf(inp.meta, n);
    if |own| == 0 then (NoFrame, popular)
    else if |own| < 5 then (Rated(own), popular)
    else if SvdApplies(svd, inp) then
      if SvdAnswers(svd, inp, userId) then (Watched(inp.svdAnswer.value.0), Predicted(inp.svdAnswer.value.1))
      else (NoFrame, popular)
    else if item.Some? then ItemRoute(own, item.value, inp.meta, inp.movieFile, popular, n)
    else (Rated(own), popular)
  }

  /** Position `k` holds the first of the user's highest ratings, among those of 4.0 or
      more. */
  predicate BestHigh(own: seq<UserRating>, k: int)
  {
    0 <= k < |own| && own[k].rating >= 4.0 &&
    (forall j :: 0 <= j < |own| && own[j].rating >= 4.0 ==> own[j].rating <= own[k].rating) &&
    (forall j :: 0 <= j < k && own[j].rating >= 4.0 ==> own[j].rating < own[k].rating)
  }

  /** `high_rated_movies['rating'].idxmax()` picks that rating. */
  lemma BestHighOf(own: seq<UserRating>) returns (k: nat)
    requires |Filter(own, IsHigh)| > 0
    ensures BestHigh(own, k) && own[k] == Filter(own, IsHigh)[FirstMax(Filter(own, IsHigh))]
  {
    var high := Filter(own, IsHigh);
    var h := FirstMax(high);
    k := HighPosition(own, h);
    assert high[h] in high;
  }

  /** The first frame is never the popular list and the second never the user's own
      ratings; the recommendations are the pipeline's exactly when the user has five
      ratings or more and the SVD route answers, and, when neither the pipeline nor the
      item-based model answers, they are the popular list. */
  lemma RecommendSlots(svd: Option<SvdHandle>, item: Option<ItemBased.SavedModel>, inp: Inputs,
                       userId: string, n: int)
    ensures var r := Recommend(svd, item, inp, userId, n);
      !r.0.Popular? && !r.1.Rated? &&
      (r.1.Predicted? <==> |Own(inp)| >= 5 && SvdAnswers(svd, inp, userId)) &&
      (r.1.Predicted? ==> r == (Watched(inp.svdAnswer.value.0), Predicted(inp.svdAnswer.value.1))) &&
      (!r.1.Predicted? && !r.1.Similar? ==> r.1 == PopularOf(inp.meta, n))
  {
  }

  /** The recommendations are item-based neighbours only when the SVD route was not
      taken, an item model is loaded and the user rated some movie 4.0 or more; they are
      then the neighbours of the first highest-rated such movie that have a movie-file
      row, as `recommend` hands them back, merged with the collection. */
  lemma RecommendSimilar(svd: Option<SvdHandle>, item: Option<ItemBased.SavedModel>, inp: Inputs,
                         userId: string, n: int)
    ensures var r := Recommend(svd, item, inp, userId, n);
      r.1.Similar? ==>
        |Own(inp)| >= 5 && !SvdApplies(svd, inp) && item.Some? &&
        exists k :: BestHigh(Own(inp), k) &&
          Shows(item.value, Own(inp)[k].movieId, n, inp.movieFile) &&
          r.1 == Similar(LeftJoin(Shown(item.value, Own(inp)[k].movieId, n, inp.movieFile).value, inp.meta.rows))
  {
    var r := Recommend(svd, item, inp, userId, n);
    if r.1.Similar? {
      var k := BestHighOf(Own(inp));
    }
  }

  /** Where the `h`-th rating of 4.0 or more sits among all the ratings, and the high
      ratings before it are exactly the high ratings before that position. */
  lemma HighPosition(own: seq<UserRating>, h: nat) returns (k: nat)
    requires h < |Filter(own, IsHigh)|
    ensures k < |own| && own[k] == Filter(own, IsHigh)[h]
    ensures forall j :: 0 <= j < |own| && own[j].rating >= 4.0 ==> own[j] in Filter(own, IsHigh)
    ensures forall j :: 0 <= j < k && own[j].rating >= 4.0 ==>
      exists i :: 0 <= i < h && Filter(own, IsHigh)[i] == own[j]
  {
    k := HighIndex(own, h);
    forall j | 0 <= j < |own| && own[j].rating >= 4.0
      ensures own[j] in Filter(own, IsHigh)
    {
      HighMember(own, j);
    }
  }

  lemma {:induction false} HighIndex(own: seq<UserRating>, h: nat) returns (k: nat)
    requires h < |Filter(own, IsHigh)|
    ensures k < |own| && own[k] == Filter(own, IsHigh)[h]
    ensures forall j :: 0 <= j < k && own[j].rating >= 4.0 ==>
      exists i :: 0 <= i < h && Filter(own, IsHigh)[i] == own[j]
    decreases |own|
  {
    var high := Filter(own, IsHigh);
    var tail := Filter(own[1..], IsHigh);
    if IsHigh(own[0]) {
      assert high == [own[0]] + tail;
      if h == 0 {
        k := 0;
      } else {
        var k' := HighIndex(own[1..], h - 1);
        k := k' + 1;
        assert h - 1 < |tail|;
        HighShift(own, h, k', true);
      }
    } else {
      assert high == tail;
      var k' := HighIndex(own[1..], h);
      k := k' + 1;
      HighShift(own, h, k', false);
    }
  }

  /** The step of `HighIndex` past the first rating, which is high or not as `first` says. */
  lemma HighShift(own: seq<UserRating>, h: nat, k': nat, first: bool)
    requires |own| > 0 && first == IsHigh(own[0])
    requires first ==> h > 0
    requires h < |Filter(own, IsHigh)|
    requires var t := Filter(own[1..], IsHigh); var h' := if first then h - 1 else h;
      h' < |t| && k' < |own| - 1 && forall j :: 0 <= j < k' && own[1..][j].rating >= 4.0 ==>
        exists i :: 0 <= i < h' && t[i] == own[1..][j]
    ensures forall j :: 0 <= j < k' + 1 && own[j].rating >= 4.0 ==>
      exists i :: 0 <= i < h && Filter(own, IsHigh)[i] == own[j]
  {
    var high := Filter(own, IsHigh);
    var tail := Filter(own[1..], IsHigh);
    var h' := if first then h - 1 else h;
    var d := if first then 1 else 0;
    assert high == (if first then [own[0]] else []) + tail;
    forall j | 0 <= j < k' + 1 && own[j].rating >= 4.0
      ensures exists i :: 0 <= i < h && high[i] == own[j]
    {
      if j == 0 {
        assert IsHigh(own[0]);
        assert high[0] == own[0];
      } else {
        assert own[j] == own[1..][j - 1];
        var i :| 0 <= i < h' && tail[i] == own[1..][j - 1];
        assert high[i + d] == own[j];
      }
    }
  }

  lemma HighMember(own: seq<UserRating>, j: nat)
    requires j < |own| && own[j].rating >= 4.0
    ensures own[j] in Filter(own, IsHigh)
  {
    assert own[j] in own;
  }

  /** The correction only swaps the two slots, and only where the popular list was
      misplaced: both chains agree, or the corrected one has the popular list as
      recommendations where the chain as written showed it as `top_watched`. */
  lemma RecommendCorrection(svd: Option<SvdHandle>, item: Option<ItemBased.SavedModel>, inp: Inputs,
                            userId: string, n: int)
    ensures var a := RecommendAsWritten(svd, item, inp, userId, n);
      var c := Recommend(svd, item, inp, userId, n);
      a == c || (a == (c.1, c.0) && c.1 == PopularOf(inp.meta, n))
  {
  }

  /** With the correction, a user without ratings is shown the popular list as
      recommendations whenever the collection has movies and `n` is positive. */
  lemma ColdStartIntended(svd: Option<SvdHandle>, item: Option<ItemBased.SavedModel>, inp: Inputs,
                          userId: string, n: int)
    requires |Own(inp)| == 0 && |inp.meta.rows| > 0 && n > 0
    ensures var r := Recommend(svd, item, inp, userId, n);
      r.0 == NoFrame && r.1.Popular? && !Empty(r.1)
  {
  }

  // ---------------------------------------------------------------- the recommender

  /** What `_load_models` finds at a pickle path. */
  datatype Stored<T> = Missing | Corrupt | Present(value: T)

  /** `find_similar_movies` once the movie frame is at hand: the merged frame
      `recommend` hands back, or an empty frame without an item model, when the model
      raises or finds no neighbour, when no neighbour has a movie-file row or the movie
      file fails to load, or with an empty collection. */
  function SimilarOf(item: Option<ItemBased.SavedModel>, meta: MetadataFrame, movieId: string, n: int,
                     movieFile: Result<seq<DataLoader.MovieRecord>>): (r: Panel)
    ensures r.Similar? || r == NoFrame
    ensures r.Similar? ==>
      (item.Some? && |meta.rows| > 0 && Shows(item.value, movieId, n, movieFile) &&
       r.items == LeftJoin(Shown(item.value, movieId, n, movieFile).value, meta.rows))
  {
    if item.Some? && Shows(item.value, movieId, n, movieFile) && |meta.rows| > 0 then
      Similar(LeftJoin(Shown(item.value, movieId, n, movieFile).value, meta.rows))
    else NoFrame
  }

  /** For a model whose mapping numbers the matrix rows one to one and a collection
      without repeated ids, the similar movies are neighbours of the query that have a
      movie-file row, each with its own similarity, best first; the query is never among
      them; and against a movie file without repeated ids there are `n` at most. */
  lemma SimilarSpec(item: ItemBased.SavedModel, meta: MetadataFrame, movieId: string, n: int,
                    movieFile: Result<seq<DataLoader.MovieRecord>>)
    requires UniqueMovieIds(meta.rows)
    requires ItemBased.IsSquare(item.similarity) && item.idMapping.Some?
    requires forall v :: v in item.idMapping.value.movieToIdx ==> item.idMapping.value.movieToIdx[v] < |item.similarity|
    requires forall i: nat :: i < |item.similarity| ==>
      i in item.idMapping.value.idxToMovie && item.idMapping.value.idxToMovie[i] in item.idMapping.value.movieToIdx &&
      item.idMapping.value.movieToIdx[item.idMapping.value.idxToMovie[i]] == i
    ensures var r := SimilarOf(Some(item), meta, movieId, n, movieFile);
      r.Similar? ==>
        movieFile.Ok? && Neighbours(item, movieId, n).Ok? && Neighbours(item, movieId, n).value.Some? &&
        (forall i, j :: 0 <= i < j < |r.items| ==> r.items[i].score >= r.items[j].score) &&
        forall i :: 0 <= i < |r.items| ==>
          r.items[i].movieId != movieId && r.items[i].movieId in FileIds(movieFile.value) &&
          (r.items[i].movieId, r.items[i].score) in Neighbours(item, movieId, n).value.value
    ensures var r := SimilarOf(Some(item), meta, movieId, n, movieFile);
      (r.Similar? && movieFile.Ok? && UniqueFileIds(movieFile.value) && n >= 0) ==> |r.items| <= n
  {
    var r := SimilarOf(Some(item), meta, movieId, n, movieFile);
    if r.Similar? {
      var items := Neighbours(item, movieId, n).value.value;
      ItemBased.RecommendTotal(item.similarity, item.idMapping.value, movieId, n);
      var rows := FileRows(items, movieFile.value);
      var sorted := SortDesc(rows, Score);
      FileRowsMembers(items, movieFile.value);
      LeftJoinUnique(sorted, meta.rows);
      forall i | 0 <= i < |r.items|
        ensures r.items[i].movieId != movieId && r.items[i].movieId in FileIds(movieFile.value) &&
          (r.items[i].movieId, r.items[i].score) in items
      {
        assert JoinedAs(r.items[i], sorted[i], meta.rows);
        assert sorted[i] in multiset(rows);
        ScoreInListed(items, sorted[i].0);
        var t :| 0 <= t < |items| && items[t] == sorted[i];
      }
      forall i, j | 0 <= i < j < |r.items|
        ensures r.items[i].score >= r.items[j].score
      {
        assert JoinedAs(r.items[i], sorted[i], meta.rows) && JoinedAs(r.items[j], sorted[j], meta.rows);
      }
      if UniqueFileIds(movieFile.value) && n >= 0 {
        FileRowsBound(items, movieFile.value);
      }
    }
  }

  /** A neighbour with a movie-file row gets a merged row. */
  lemma ShownJoined(items: seq<(string, real)>, movies: seq<DataLoader.MovieRecord>, meta: seq<MovieMeta>,
                    g: string)
    requires UniqueMovieIds(meta) && g in IdSet(items) && g in FileIds(movies)
    ensures var r := LeftJoin(SortDesc(FileRows(items, movies), Score), meta);
      exists i :: 0 <= i < |r| && r[i].movieId == g
  {
    var rows := FileRows(items, movies);
    var x := (g, ScoreIn(items, g));
    FileRowsHas(items, movies, g);
    SortedHas(rows, Score, x);
    JoinedHas(SortDesc(rows, Score), meta, x);
  }

  /** A neighbour with a movie-file row keeps a row, with its score. */
  lemma {:induction false} FileRowsHas(items: seq<(string, real)>, movies: seq<DataLoader.MovieRecord>, g: string)
    requires g in IdSet(items) && g in FileIds(movies)
    ensures (g, ScoreIn(items, g)) in FileRows(items, movies)
    decreases |movies|
  {
    FileIdsCons(movies);
    if movies[0].movieId != g {
      FileRowsHas(items, movies[1..], g);
    }
  }

  lemma SortedHas<T>(xs: seq<T>, key: T -> real, x: T)
    requires x in xs
    ensures x in SortDesc(xs, key)
  {
    assert x in multiset(xs);
  }

  /** Against a collection without repeated ids, every neighbour has a merged row. */
  lemma JoinedHas(items: seq<(string, real)>, meta: seq<MovieMeta>, x: (string, real))
    requires UniqueMovieIds(meta) && x in items
    ensures exists i :: 0 <= i < |LeftJoin(items, meta)| && LeftJoin(items, meta)[i].movieId == x.0
  {
    LeftJoinUnique(items, meta);
    var p :| 0 <= p < |items| && items[p] == x;
    assert JoinedAs(LeftJoin(items, meta)[p], items[p], meta);
  }

  /** When the model lists fewer than `n` neighbours, every positively similar movie
      that has a movie-file row is among the similar movies. */
  lemma SimilarComplete(item: ItemBased.SavedModel, meta: MetadataFrame, movieId: string, n: int,
                        movieFile: Result<seq<DataLoader.MovieRecord>>)
    requires UniqueMovieIds(meta.rows) && |meta.rows| > 0
    requires ItemBased.IsSquare(item.similarity) && item.idMapping.Some?
    requires forall v :: v in item.idMapping.value.movieToIdx ==> item.idMapping.value.movieToIdx[v] < |item.similarity|
    requires forall i: nat :: i < |item.similarity| ==>
      i in item.idMapping.value.idxToMovie && item.idMapping.value.idxToMovie[i] in item.idMapping.value.movieToIdx &&
      item.idMapping.value.movieToIdx[item.idMapping.value.idxToMovie[i]] == i
    requires n >= 0 && movieId in item.idMapping.value.movieToIdx && movieFile.Ok?
    requires Neighbours(item, movieId, n).Ok? && Neighbours(item, movieId, n).value.Some?
    requires |Neighbours(item, movieId, n).value.value| < n
    ensures var m := item.idMapping.value;
      var r := SimilarOf(Some(item), meta, movieId, n, movieFile);
      forall j: nat :: (j < |item.similarity| && j != m.movieToIdx[movieId] &&
        item.similarity[m.movieToIdx[movieId]][j] > 0.0 && m.idxToMovie[j] in FileIds(movieFile.value)) ==>
        r.Similar? && exists i :: 0 <= i < |r.items| && r.items[i].movieId == m.idxToMovie[j]
  {
    var m := item.idMapping.value;
    var items := Neighbours(item, movieId, n).value.value;
    ItemBased.RecommendComplete(item.similarity, m, movieId, n);
    var idx := m.movieToIdx[movieId];
    forall j: nat | j < |item.similarity| && j != idx && item.similarity[idx][j] > 0.0 &&
        m.idxToMovie[j] in FileIds(movieFile.value)
      ensures var r := SimilarOf(Some(item), meta, movieId, n, movieFile);
        r.Similar? && exists i :: 0 <= i < |r.items| && r.items[i].movieId == m.idxToMovie[j]
    {
      var t :| 0 <= t < |items| && items[t] == (m.idxToMovie[j], item.similarity[idx][j]);
      ShownJoined(items, movieFile.value, meta.rows, items[t].0);
      var joined := LeftJoin(Shown(item, movieId, n, movieFile).value, meta.rows);
      assert |joined| >= |Shown(item, movieId, n, movieFile).value|;
    }
  }

  /** When the movie file fails to load, or none of the neighbours has a row in it,
      `recommend` hands back nothing to merge: `find_similar_movies` answers an empty
      frame and the item route falls back to the popular list. */
  lemma UnlistedNeighboursFallBack(model: ItemBased.SavedModel, meta: MetadataFrame, movieId: string, n: int,
                                   movieFile: Result<seq<DataLoader.MovieRecord>>)
    requires movieFile.Err? ||
      (Neighbours(model, movieId, n).Ok? && Neighbours(model, movieId, n).value.Some? &&
       forall t :: 0 <= t < |Neighbours(model, movieId, n).value.value| ==>
         Neighbours(model, movieId, n).value.value[t].0 !in FileIds(movieFile.value))
    ensures !Shows(model, movieId, n, movieFile)
    ensures SimilarOf(Some(model), meta, movieId, n, movieFile) == NoFrame
  {
    if movieFile.Ok? {
      var items := Neighbours(model, movieId, n).value.value;
      var rows := FileRows(items, movieFile.value);
      forall g | g in IdSet(items)
        ensures g !in FileIds(movieFile.value)
      {
        var t :| 0 <= t < |items| && items[t].0 == g;
      }
      FileRowsNone(items, movieFile.value);
      assert |SortDesc(rows, Score)| == 0;
    }
  }

  /** No neighbour with a movie-file row: no row is kept. */
  lemma {:induction false} FileRowsNone(items: seq<(string, real)>, movies: seq<DataLoader.MovieRecord>)
    requires forall g :: g in IdSet(items) ==> g !in FileIds(movies)
    ensures FileRows(items, movies) == []
    decreases |movies|
  {
    if |movies| > 0 {
      FileIdsCons(movies);
      FileRowsNone(items, movies[1..]);
    }
  }

  /** Whether `find_similar_movies` reads the movie collection: only once `recommend`
      handed back a non-empty frame. */
  predicate SimilarReadsMeta(item: Option<ItemBased.SavedModel>, movieId: string, n: int,
                             movieFile: Result<seq<DataLoader.MovieRecord>>)
  {
    item.Some? && Shows(item.value, movieId, n, movieFile)
  }

  /** `FirebaseRecommender`: the loaded models and the cached movie collection. */
  class FirebaseRecommender {
    var svdModel: Option<SvdHandle>
    var itemModel: Option<ItemBased.SavedModel>
    var movieMetadata: Option<MetadataFrame>

    /** `__init__` and `_load_models`: each model is loaded when its pickle is there;
        both loads share one `try`, so an SVD pickle that fails to load also leaves
        the item-based model unloaded. */
    constructor(svdFile: Stored<SvdHandle>, itemFile: Stored<ItemBased.SavedModel>)
      ensures svdModel == (if svdFile.Present? then Some(svdFile.value) else None)
      ensures itemModel == (if !svdFile.Corrupt? && itemFile.Present? then Some(itemFile.value) else None)
      ensures movieMetadata.None?
    {
      movieMetadata := None;
      svdModel := None;
      itemModel := None;
      if svdFile.Present? {
        svdModel := Some(svdFile.value);
      }
      if !svdFile.Corrupt? && itemFile.Present? {
        itemModel := Some(itemFile.value);
      }
    }

    /** `_get_movie_metadata_from_firestore`, given what the collection answers. */
    method MovieMetadata(fetched: Result<MetadataFrame>) returns (meta: MetadataFrame)
      modifies this
      ensures meta == MetaView(old(movieMetadata), fetched)
      ensures movieMetadata == CacheAfter(old(movieMetadata), fetched)
      ensures svdModel == old(svdModel) && itemModel == old(itemModel)
    {
      if movieMetadata.None? && fetched.Ok? {
        movieMetadata := Some(fetched.value);
      }
      if movieMetadata.Some? {
        meta := movieMetadata.value;
      } else {
        meta := EmptyFrame;
      }
    }

    /** `_get_popular_movies`. */
    method PopularMovies(fetched: Result<MetadataFrame>, n: int) returns (p: Panel)
      modifies this
      ensures p == PopularOf(MetaView(old(movieMetadata), fetched), n)
      ensures movieMetadata == CacheAfter(old(movieMetadata), fetched)
      ensures svdModel == old(svdModel) && itemModel == old(itemModel)
    {
      var meta := MovieMetadata(fetched);
      p := PopularOf(meta, n);
    }

    /** `recommend_for_user` as written (see `Recommend` for the corrected chain). Every
        path reads the movie collection, which is cached afterwards; `fetchedMeta` is
        what the collection answers to the first read and `refetched` what it answers
        to a second one, made only on the paths `ReadsAgain` names; `movieFile` is what
        `load_movie_data()` gives inside the item-based model's `recommend`. */
    method RecommendForUser(userId: string, n: int, userRatings: Result<seq<UserRating>>,
                            fetchedMeta: Result<MetadataFrame>, refetched: Result<MetadataFrame>,
                            allRatings: Result<seq<Rating>>,
                            svdAnswer: Result<(seq<IndexedRating>, seq<Prediction>)>,
                            movieFile: Result<seq<DataLoader.MovieRecord>>)
      returns (topWatched: Panel, recommendations: Panel)
      modifies this
      ensures var inp := Inputs(userRatings, MetaView(old(movieMetadata), fetchedMeta), allRatings, svdAnswer, movieFile);
        (topWatched, recommendations) == RecommendReading(svdModel, itemModel, inp,
          MetaView(CacheAfter(old(movieMetadata), fetchedMeta), refetched), userId, n)
      ensures var inp := Inputs(userRatings, MetaView(old(movieMetadata), fetchedMeta), allRatings, svdAnswer, movieFile);
        movieMetadata == if ReadsAgain(svdModel, itemModel, inp, userId, n)
          then CacheAfter(CacheAfter(old(movieMetadata), fetchedMeta), refetched)
          else CacheAfter(old(movieMetadata), fetchedMeta)
      ensures CacheAfter(old(movieMetadata), fetchedMeta).Some? ==>
        (topWatched, recommendations) == RecommendAsWritten(svdModel, itemModel,
          Inputs(userRatings, MetaView(old(movieMetadata), fetchedMeta), allRatings, svdAnswer, movieFile), userId, n)
      ensures svdModel == old(svdModel) && itemModel == old(itemModel)
    {
      var meta := MovieMetadata(fetchedMeta);
      var inp := Inputs(userRatings, meta, allRatings, svdAnswer, movieFile);
      var own := Own(inp);
      var popular := PopularOf(meta, n);
      if |own| == 0 {
        topWatched, recommendations := popular, NoFrame;
      } else if |own| < 5 {
        topWatched, recommendations := popular, Rated(own);
      } else if SvdApplies(svdModel, inp) {
        if SvdAnswers(svdModel, inp, userId) {
          topWatched, recommendations := Watched(svdAnswer.value.0), Predicted(svdAnswer.value.1);
        } else {
          var meta2 := MovieMetadata(refetched);
          topWatched, recommendations := PopularOf(meta2, n), NoFrame;
        }
      } else if itemModel.Some? {
        if MergesNeighbours(own, itemModel.value, n, movieFile) && |meta.rows| == 0 {
          var meta2 := MovieMetadata(refetched);
          topWatched, recommendations := Rated(own), PopularOf(meta2, n);
        } else {
          topWatched, recommendations := ItemRouteAsWritten(own, itemModel.value, meta, movieFile, popular, popular, n).0,
            ItemRouteAsWritten(own, itemModel.value, meta, movieFile, popular, popular, n).1;
        }
      } else {
        topWatched, recommendations := popular, Rated(own);
      }
    }

    /** `find_similar_movies`; the collection is read only once `recommend` handed back
        a non-empty frame, and `movieFile` is what `load_movie_data()` gives inside it. */
    method FindSimilarMovies(movieId: string, n: int, fetched: Result<MetadataFrame>,
                             movieFile: Result<seq<DataLoader.MovieRecord>>) returns (r: Panel)
      modifies this
      ensures r == SimilarOf(itemModel, MetaView(old(movieMetadata), fetched), movieId, n, movieFile)
      ensures !SimilarReadsMeta(itemModel, movieId, n, movieFile) ==> r == NoFrame
      ensures movieMetadata == (if SimilarReadsMeta(itemModel, movieId, n, movieFile)
        then CacheAfter(old(movieMetadata), fetched) else old(movieMetadata))
      ensures svdModel == old(svdModel) && itemModel == old(itemModel)
    {
      r := NoFrame;
      if SimilarReadsMeta(itemModel, movieId, n, movieFile) {
        var meta := MovieMetadata(fetched);
        r := SimilarOf(itemModel, meta, movieId, n, movieFile);
      }
    }

    /** `_get_user_preferred_genres`; without ratings the collection is not read. */
    method UserPreferredGenres(ratings: seq<UserRating>, fetched: Result<MetadataFrame>) returns (genres: seq<string>)
      modifies this
      ensures genres == PreferredGenres(ratings, MetaView(old(movieMetadata), fetched))
      ensures movieMetadata == (if |ratings| == 0 then old(movieMetadata) else CacheAfter(old(movieMetadata), fetched))
      ensures svdModel == old(svdModel) && itemModel == old(itemModel)
    {
      if |ratings| == 0 {
        return [];
      }
      var meta := MovieMetadata(fetched);
      genres := PreferredGenres(ratings, meta);
    }
  }
}
