/** `MovieRecommenderLite` of the Streamlit app: the same truncated-SVD predictions as
    `MovieRecommender`, but no stored similarity matrices: neighbours and content
    scores are computed on demand from the sparse user-movie matrix and the TF-IDF
    matrix. The cosine similarities come from a library and are parameters. */
module AppLiteRecommender {
  import opened Wrappers
  import opened Seqs
  import opened IdIndex
  import opened Ratings
  import opened Ranking
  import opened Catalogue
  import opened ModelingRecommender
  import opened AppRecommender

  /** The neighbour rows of the collaborative path: for each matrix column named by a
      non-empty id that the movie table lists, the id's first table row and the
      column's similarity, in column order. */
  function ColumnRows(columns: nat, idxToMovie: map<nat, string>, catalogue: seq<string>,
                      columnSim: (nat, nat) -> real, idx: nat): (r: seq<Neighbour>)
    ensures forall x :: x in r ==> (x.0 < |catalogue| && exists c :: (0 <= c < columns && c in idxToMovie &&
      idxToMovie[c] != "" && idxToMovie[c] in catalogue && x == (FirstRow(catalogue, idxToMovie[c]).value, columnSim(idx, c))))
    ensures forall c :: 0 <= c < columns && Listed(c, idxToMovie, catalogue) ==>
      (FirstRow(catalogue, idxToMovie[c]).value, columnSim(idx, c)) in r
  {
    ColumnsListedMembers(columns, idxToMovie, catalogue, columnSim, idx);
    ColumnsListed(columns, idxToMovie, catalogue, columnSim, idx)
  }

  /** The rows of `ColumnRows`, built column by column. */
  function ColumnsListed(columns: nat, idxToMovie: map<nat, string>, catalogue: seq<string>,
                         columnSim: (nat, nat) -> real, idx: nat): seq<Neighbour>
  {
    if columns == 0 then []
    else
      var c := columns - 1;
      ColumnsListed(c, idxToMovie, catalogue, columnSim, idx) +
        (if Listed(c, idxToMovie, catalogue) then [(FirstRow(catalogue, idxToMovie[c]).value, columnSim(idx, c))] else [])
  }

  lemma {:induction false} ColumnsListedMembers(columns: nat, idxToMovie: map<nat, string>, catalogue: seq<string>,
                                                columnSim: (nat, nat) -> real, idx: nat)
    ensures var r := ColumnsListed(columns, idxToMovie, catalogue, columnSim, idx);
      (forall x :: x in r ==> (x.0 < |catalogue| && exists c :: (0 <= c < columns && c in idxToMovie &&
        idxToMovie[c] != "" && idxToMovie[c] in catalogue && x == (FirstRow(catalogue, idxToMovie[c]).value, columnSim(idx, c))))) &&
      (forall c :: 0 <= c < columns && Listed(c, idxToMovie, catalogue) ==>
        (FirstRow(catalogue, idxToMovie[c]).value, columnSim(idx, c)) in r)
  {
    if columns > 0 {
      ColumnsListedMembers(columns - 1, idxToMovie, catalogue, columnSim, idx);
    }
  }

  /** The loop of the collaborative path of `find_similar_movies` over the columns of
      the user-movie matrix. */
  method CollectColumns(columns: nat, idxToMovie: map<nat, string>, catalogue: seq<string>,
                        columnSim: (nat, nat) -> real, idx: nat) returns (scores: seq<Neighbour>)
    ensures scores == ColumnRows(columns, idxToMovie, catalogue, columnSim, idx)
  {
    scores := [];
    var c := 0;
    while c < columns
      invariant 0 <= c <= columns
      invariant scores == ColumnsListed(c, idxToMovie, catalogue, columnSim, idx)
    {
      if Listed(c, idxToMovie, catalogue) {
        scores := scores + [(FirstRow(catalogue, idxToMovie[c]).value, columnSim(idx, c))];
      }
      c := c + 1;
    }
  }

  /** `find_similar_movies`, as (movie-table row, similarity) pairs. `columnSim(i, j)`
      is the cosine similarity of columns `i` and `j` of the user-movie matrix. */
  function LiteSimilarOf(mapping: Option<IdMapping>, matrix: Option<SparseMatrix>, tfidf: Option<TfidfModel>,
                     columnSim: (nat, nat) -> real, catalogue: seq<string>, movieId: string, n: int,
                     methodName: string): Result<seq<Neighbour>>
  {
    if movieId !in catalogue then Ok([])
    else
      var row := FirstRow(catalogue, movieId).value;
      if methodName == "content" && tfidf.Some? then
        if row >= tfidf.value.rows then Err(IndexError)
        else
          var top := SkipTop(ContentRow(tfidf.value, row), Similarity, n);
          if exists i :: 0 <= i < |top| && top[i].0 >= |catalogue| then Err(IndexError)
          else Ok(top)
      else if methodName == "collaborative" && matrix.Some? then
        if mapping.None? then Err(AttributeError)
        else if movieId !in mapping.value.movieToIdx then Ok([])
        else
          var idx := mapping.value.movieToIdx[movieId];
          if idx >= matrix.value.movies then Err(IndexError)
          else Ok(SkipTop(ColumnRows(matrix.value.movies, mapping.value.idxToMovie, catalogue,
            columnSim, idx), Similarity, n))
      else Ok([])
  }

  /** The collaborative neighbours: the first table rows of listed, named matrix
      columns with their similarity to the movie's column, in non-increasing
      similarity, at most `n`, and none left out but the top one above one kept. */
  lemma CollaborativeNeighbours(columns: nat, idxToMovie: map<nat, string>, catalogue: seq<string>,
                                columnSim: (nat, nat) -> real, idx: nat, n: int)
    ensures var scores := ColumnRows(columns, idxToMovie, catalogue, columnSim, idx);
      var r := SkipTop(scores, Similarity, n);
      NonIncreasing(r, Similarity) &&
      (n >= 0 ==> |r| == (if |scores| == 0 then 0 else if n < |scores| - 1 then n else |scores| - 1)) &&
      (forall x :: x in r ==> (x.0 < |catalogue| && exists c :: (0 <= c < columns && c in idxToMovie &&
        idxToMovie[c] != "" && idxToMovie[c] in catalogue &&
        x == (FirstRow(catalogue, idxToMovie[c]).value, columnSim(idx, c))))) &&
      (|scores| > 0 ==> forall x :: x in scores && x != SortDesc(scores, Similarity)[0] && x !in r ==>
        forall i :: 0 <= i < |r| ==> r[i].1 >= x.1)
  {
    var scores := ColumnRows(columns, idxToMovie, catalogue, columnSim, idx);
    SkipTopSpec(scores, Similarity, n);
    SkipTopMembers(scores, Similarity, n);
    SkipTopDominates(scores, Similarity, n);
  }

  /** A column of the user's predictions that `hybrid_recommend` keeps. */
  predicate Kept(c: nat, idxToMovie: map<nat, string>, rated: set<string>, catalogue: seq<string>)
  {
    c in idxToMovie && Eligible(idxToMovie[c], rated, Elems(catalogue))
  }

  /** The hybrid score of column `c`: its prediction normalised by the least and
      greatest prediction of the row, and the content score of its movie's first row. */
  function LiteWeighted(cf: seq<real>, cb: seq<real>, idxToMovie: map<nat, string>, catalogue: seq<string>,
                        cfWeight: real, cbWeight: real, c: nat): real
    requires c < |cf| && c in idxToMovie && idxToMovie[c] in catalogue
  {
    cfWeight * Normalized(cf[c], SeqMin(cf), SeqMax(cf)) + cbWeight * CbAt(cb, catalogue, idxToMovie[c])
  }

  /** The weighted rows of `hybrid_recommend` over the first `k` columns of the user's
      predictions, in column order. */
  function LiteRows(cf: seq<real>, cb: seq<real>, idxToMovie: map<nat, string>, rated: set<string>,
                    catalogue: seq<string>, cfWeight: real, cbWeight: real, k: nat): (r: seq<Prediction>)
    requires k <= |cf|
    ensures forall x :: x in r ==> exists c :: (0 <= c < k && Kept(c, idxToMovie, rated, catalogue) &&
      x == (idxToMovie[c], LiteWeighted(cf, cb, idxToMovie, catalogue, cfWeight, cbWeight, c)))
    ensures forall c :: 0 <= c < k && Kept(c, idxToMovie, rated, catalogue) ==>
      (idxToMovie[c], LiteWeighted(cf, cb, idxToMovie, catalogue, cfWeight, cbWeight, c)) in r
  {
    if k == 0 then []
    else
      var init := LiteRows(cf, cb, idxToMovie, rated, catalogue, cfWeight, cbWeight, k - 1);
      init + (if Kept(k - 1, idxToMovie, rated, catalogue)
        then [(idxToMovie[k - 1], LiteWeighted(cf, cb, idxToMovie, catalogue, cfWeight, cbWeight, k - 1))] else [])
  }

  lemma LiteRowsStep(cf: seq<real>, cb: seq<real>, idxToMovie: map<nat, string>, rated: set<string>,
                     catalogue: seq<string>, cfWeight: real, cbWeight: real, c: nat)
    requires c < |cf|
    ensures LiteRows(cf, cb, idxToMovie, rated, catalogue, cfWeight, cbWeight, c + 1) ==
      LiteRows(cf, cb, idxToMovie, rated, catalogue, cfWeight, cbWeight, c) +
      (if Kept(c, idxToMovie, rated, catalogue)
        then [(idxToMovie[c], LiteWeighted(cf, cb, idxToMovie, catalogue, cfWeight, cbWeight, c))] else [])
  {
  }

  /** The weighting loop of `hybrid_recommend`, over the columns of the user's predictions. */
  method WeightColumns(cf: seq<real>, cb: seq<real>, idxToMovie: map<nat, string>, rated: set<string>,
                       catalogue: seq<string>, cfWeight: real, cbWeight: real) returns (rows: seq<Prediction>)
    ensures rows == LiteRows(cf, cb, idxToMovie, rated, catalogue, cfWeight, cbWeight, |cf|)
  {
    rows := [];
    var c := 0;
    while c < |cf|
      invariant 0 <= c <= |cf|
      invariant rows == LiteRows(cf, cb, idxToMovie, rated, catalogue, cfWeight, cbWeight, c)
    {
      LiteRowsStep(cf, cb, idxToMovie, rated, catalogue, cfWeight, cbWeight, c);
      if Kept(c, idxToMovie, rated, catalogue) {
        rows := rows + [(idxToMovie[c], LiteWeighted(cf, cb, idxToMovie, catalogue, cfWeight, cbWeight, c))];
      }
      c := c + 1;
    }
  }

  /** `hybrid_recommend`, before the frame is built. */
  function LiteHybridOf(mapping: Option<IdMapping>, predicted: Option<seq<seq<real>>>, tfidf: Option<TfidfModel>,
                    userId: string, catalogue: seq<string>, ratings: seq<Rating>, n: int,
                    cfWeight: real, cbWeight: real): Result<seq<Prediction>>
  {
    if mapping.None? then Err(TypeError)
    else if userId !in mapping.value.userToIdx then Ok([])
    else if predicted.None? then Err(TypeError)
    else
      var u := mapping.value.userToIdx[userId];
      if u >= |predicted.value| then Err(IndexError)
      else
        var cf := predicted.value[u];
        var rated := RatedBy(ratings, userId);
        var positions := PositionsOf(catalogue, rated);
        if |positions| > 0 && tfidf.Some? && exists p :: p in positions && p >= tfidf.value.rows then Err(IndexError)
        else
          var cb := CbScores(tfidf, positions, |catalogue|);
          var m := mapping.value.idxToMovie;
          if exists c :: 0 <= c < |cf| && Kept(c, m, rated, catalogue) && FirstRow(catalogue, m[c]).value >= |cb| then
            Err(IndexError)
          else
            var rows := LiteRows(cf, cb, m, rated, catalogue, cfWeight, cbWeight, |cf|);
            Ok(Head(SortDesc(rows, Score), n))
  }

  /** The hybrid recommendations are kept columns' movies with their weighted score,
      in non-increasing score, no kept column left out scores above one kept, and
      the collaborative part of every score normalises into `[0, 1)`. */
  lemma HybridSpec(mapping: IdMapping, predicted: seq<seq<real>>, tfidf: Option<TfidfModel>,
                   userId: string, catalogue: seq<string>, ratings: seq<Rating>, n: int,
                   cfWeight: real, cbWeight: real)
    requires userId in mapping.userToIdx && mapping.userToIdx[userId] < |predicted|
    ensures var cf := predicted[mapping.userToIdx[userId]];
      var rated := RatedBy(ratings, userId);
      var cb := CbScores(tfidf, PositionsOf(catalogue, rated), |catalogue|);
      var m := mapping.idxToMovie;
      var r := LiteHybridOf(Some(mapping), Some(predicted), tfidf, userId, catalogue, ratings, n, cfWeight, cbWeight);
      r.Ok? ==> (NonIncreasing(r.value, Score) && (n >= 0 ==> |r.value| <= n) &&
        (forall x :: x in r.value ==> exists c :: (0 <= c < |cf| && Kept(c, m, rated, catalogue) &&
          x == (m[c], LiteWeighted(cf, cb, m, catalogue, cfWeight, cbWeight, c)))) &&
        (forall c :: (0 <= c < |cf| && Kept(c, m, rated, catalogue) &&
          (m[c], LiteWeighted(cf, cb, m, catalogue, cfWeight, cbWeight, c)) !in r.value) ==>
          forall i :: 0 <= i < |r.value| ==> r.value[i].1 >= LiteWeighted(cf, cb, m, catalogue, cfWeight, cbWeight, c)))
    ensures var cf := predicted[mapping.userToIdx[userId]];
      var rated := RatedBy(ratings, userId);
      var cb := CbScores(tfidf, PositionsOf(catalogue, rated), |catalogue|);
      var m := mapping.idxToMovie;
      var r := LiteHybridOf(Some(mapping), Some(predicted), tfidf, userId, catalogue, ratings, n, cfWeight, cbWeight);
      (r.Ok? && n >= 0 && |r.value| < n) ==> forall c :: (0 <= c < |cf| && Kept(c, m, rated, catalogue)) ==>
        (m[c], LiteWeighted(cf, cb, m, catalogue, cfWeight, cbWeight, c)) in r.value
  {
    var cf := predicted[mapping.userToIdx[userId]];
    var rated := RatedBy(ratings, userId);
    var cb := CbScores(tfidf, PositionsOf(catalogue, rated), |catalogue|);
    var m := mapping.idxToMovie;
    var rows := LiteRows(cf, cb, m, rated, catalogue, cfWeight, cbWeight, |cf|);
    LiteHybridValue(mapping, predicted, tfidf, userId, catalogue, ratings, n, cfWeight, cbWeight);
    TopRows(rows, Score, n);
    TopRowsIn(rows, Score, n);
    if n >= 0 {
      TopRowsAll(rows, Score, n);
    }
  }

  /** A successful `hybrid_recommend` is the first `n` weighted rows by score. */
  lemma LiteHybridValue(mapping: IdMapping, predicted: seq<seq<real>>, tfidf: Option<TfidfModel>,
                        userId: string, catalogue: seq<string>, ratings: seq<Rating>, n: int,
                        cfWeight: real, cbWeight: real)
    requires userId in mapping.userToIdx && mapping.userToIdx[userId] < |predicted|
    ensures var cf := predicted[mapping.userToIdx[userId]];
      var rated := RatedBy(ratings, userId);
      var cb := CbScores(tfidf, PositionsOf(catalogue, rated), |catalogue|);
      var rows := LiteRows(cf, cb, mapping.idxToMovie, rated, catalogue, cfWeight, cbWeight, |cf|);
      var r := LiteHybridOf(Some(mapping), Some(predicted), tfidf, userId, catalogue, ratings, n, cfWeight, cbWeight);
      r.Ok? ==> r.value == Head(SortDesc(rows, Score), n)
  {
  }

  /** The normalised prediction of every column lies in `[0, 1)`. */
  lemma LiteNormalizedRange(cf: seq<real>, c: nat)
    requires c < |cf|
    ensures 0.0 <= Normalized(cf[c], SeqMin(cf), SeqMax(cf)) < 1.0
  {
    assert cf[c] in cf;
    NormalizedRange(cf[c], SeqMin(cf), SeqMax(cf));
  }

  /** `MovieRecommenderLite`: the sparse user-movie matrix, the SVD predictions, the
      TF-IDF model and the id mapping. */
  class MovieRecommenderLite {
    var userMovieMatrix: Option<SparseMatrix>
    var predicted: Option<seq<seq<real>>>
    var tfidf: Option<TfidfModel>
    var mapping: Option<IdMapping>

    constructor()
      ensures userMovieMatrix == None && predicted == None && tfidf == None && mapping == None
    {
      userMovieMatrix := None;
      predicted := None;
      tfidf := None;
      mapping := None;
    }

    /** `train_collaborative_filtering`: as in `MovieRecommender`, the mapping, the
        index columns written into the caller's frame, the sparse matrix, and then the
        SVD reconstruction, refused with a `ValueError` unless
        `1 <= nFactors < min(users, movies)`. */
    method TrainCollaborativeFiltering(table: RatingsTable, nFactors: int, reconstructed: seq<seq<real>>)
      returns (r: Result<bool>)
      modifies this, table
      ensures table.rows == old(table.rows)
      ensures table.userIdx == Some(UserColumn(table.rows)) && table.movieIdx == Some(MovieColumn(table.rows))
      ensures mapping == Some(BuildMapping(table.rows)) && userMovieMatrix == Some(RatingMatrix(table.rows))
      ensures r.Err? <==> !FactorsFit(nFactors, |SortedIds(UserIds(table.rows))|, |SortedIds(MovieIds(table.rows))|)
      ensures r.Err? ==> r.error == ValueError && predicted == old(predicted)
      ensures r.Ok? ==> r.value && predicted == Some(reconstructed)
      ensures tfidf == old(tfidf)
    {
      var rows := table.rows;
      table.AddIndexColumns();
      mapping := Some(BuildMapping(rows));
      userMovieMatrix := Some(RatingMatrix(rows));
      if !FactorsFit(nFactors, |SortedIds(UserIds(rows))|, |SortedIds(MovieIds(rows))|) {
        return Err(ValueError);
      }
      predicted := Some(reconstructed);
      r := Ok(true);
    }

    /** `train_content_based`: the fitted TF-IDF model of the movie table. */
    method TrainContentBased(model: TfidfModel)
      modifies this
      ensures tfidf == Some(model)
      ensures userMovieMatrix == old(userMovieMatrix) && predicted == old(predicted) && mapping == old(mapping)
    {
      tfidf := Some(model);
    }

    /** `recommend_for_user`: the same computation as `MovieRecommender`'s; see
        `AppRecommender.RecommendSpec`. */
    method RecommendForUser(userId: string, catalogue: seq<string>, ratings: seq<Rating>, n: int)
      returns (r: Result<seq<Prediction>>)
      ensures r == RecommendOf(mapping, predicted, userId, catalogue, ratings, n)
    {
      if mapping.None? {
        return Err(TypeError);
      }
      var m := mapping.value;
      if userId !in m.userToIdx {
        return Ok([]);
      }
      if predicted.None? {
        return Err(TypeError);
      }
      var u := m.userToIdx[userId];
      if u >= |predicted.value| {
        return Err(IndexError);
      }
      var row := predicted.value[u];
      var rated := RatedBy(ratings, userId);
      var listed := Elems(catalogue);
      var rows := CollectPredicted(row, m.idxToMovie, rated, listed);
      r := Ok(Head(SortDesc(rows, Score), n));
    }

    /** `find_similar_movies`; see `ModelingRecommender.ContentNeighbours` and
        `CollaborativeNeighbours`. */
    method FindSimilarMovies(movieId: string, catalogue: seq<string>, n: int, methodName: string,
                             columnSim: (nat, nat) -> real) returns (r: Result<seq<Neighbour>>)
      ensures r == LiteSimilarOf(mapping, userMovieMatrix, tfidf, columnSim, catalogue, movieId, n, methodName)
    {
      if movieId !in catalogue {
        return Ok([]);
      }
      var row := FirstRow(catalogue, movieId).value;
      if methodName == "content" && tfidf.Some? {
        if row >= tfidf.value.rows {
          return Err(IndexError);
        }
        var top := SkipTop(ContentRow(tfidf.value, row), Similarity, n);
        if exists i :: 0 <= i < |top| && top[i].0 >= |catalogue| {
          return Err(IndexError);
        }
        return Ok(top);
      }
      if methodName == "collaborative" && userMovieMatrix.Some? {
        if mapping.None? {
          return Err(AttributeError);
        }
        if movieId !in mapping.value.movieToIdx {
          return Ok([]);
        }
        var idx := mapping.value.movieToIdx[movieId];
        var columns := userMovieMatrix.value.movies;
        if idx >= columns {
          return Err(IndexError);
        }
        var scores := CollectColumns(columns, mapping.value.idxToMovie, catalogue, columnSim, idx);
        return Ok(SkipTop(scores, Similarity, n));
      }
      r := Ok([]);
    }

    /** `hybrid_recommend`; see `HybridSpec` and `LiteNormalizedRange`. */
    method HybridRecommend(userId: string, catalogue: seq<string>, ratings: seq<Rating>, n: int,
                           cfWeight: real, cbWeight: real) returns (r: Result<seq<Prediction>>)
      ensures r == LiteHybridOf(mapping, predicted, tfidf, userId, catalogue, ratings, n, cfWeight, cbWeight)
    {
      if mapping.None? {
        return Err(TypeError);
      }
      var m := mapping.value;
      if userId !in m.userToIdx {
        return Ok([]);
      }
      if predicted.None? {
        return Err(TypeError);
      }
      var u := m.userToIdx[userId];
      if u >= |predicted.value| {
        return Err(IndexError);
      }
      var cf := predicted.value[u];
      var rated := RatedBy(ratings, userId);
      var positions := PositionsOf(catalogue, rated);
      if |positions| > 0 && tfidf.Some? && exists p :: p in positions && p >= tfidf.value.rows {
        return Err(IndexError);
      }
      var cb := CbScores(tfidf, positions, |catalogue|);
      if exists c :: 0 <= c < |cf| && Kept(c, m.idxToMovie, rated, catalogue) &&
          FirstRow(catalogue, m.idxToMovie[c]).value >= |cb| {
        return Err(IndexError);
      }
      var rows := WeightColumns(cf, cb, m.idxToMovie, rated, catalogue, cfWeight, cbWeight);
      r := Ok(Head(SortDesc(rows, Score), n));
    }
  }
}
