/** `modeling/models/svd.py`: the `SVDRecommenderPipeline`, whose fields are filled stage
    by stage (raw data, filtered and mapped data, Surprise dataset, train/test split,
    trained model, metrics), each stage refusing to run before the one it needs. The
    Surprise learner, its random split and its error measures are not modelled: the
    trained model enters as a prediction function, the split as the choice of which rows
    go to the test set, and RMSE/MAE as given numbers. */
module SvdPipeline {
  import opened Wrappers
  import opened Seqs
  import opened Ratings
  import opened Ranking
  import opened DataLoader

  datatype ModelConfig = ModelConfig(
    nFactors: int, nEpochs: int, lrAll: real, regAll: real, randomState: int,
    verbose: bool, testSize: real, minUserRatings: int, minMovieRatings: int,
    ratingScale: (real, real))

  /** The dataclass defaults. */
  const DefaultModelConfig: ModelConfig :=
    ModelConfig(50, 20, 0.005, 0.02, 42, true, 0.2, 30, 10, (0.5, 5.0))

  datatype EvaluationMetrics = EvaluationMetrics(
    trainRmse: real, testRmse: real, trainMae: real, testMae: real,
    userOverlap: real, itemOverlap: real)

  /** A trained Surprise `SVD`: what `predict(user_id, movie_id).est` answers. */
  datatype SvdModel = SvdModel(predict: (string, string) -> real)

  /** One rating of the Surprise dataset: the `user_id`, `movie_id` and `rating` columns. */
  datatype Observation = Observation(user: string, item: string, rating: real)

  function Observations(rows: seq<IndexedRating>): (r: seq<Observation>)
    ensures |r| == |rows|
    ensures forall i :: 0 <= i < |rows| ==>
      r[i] == Observation(rows[i].row.userId, rows[i].row.movieId, rows[i].row.rating)
  {
    seq(|rows|, i requires 0 <= i < |rows| =>
      Observation(rows[i].row.userId, rows[i].row.movieId, rows[i].row.rating))
  }

  // ---------------------------------------------------------------- train/test split

  /** The rows the split sends to the test set (`test == true`) or to the train set;
      which rows those are is the library's random choice `inTest`, by position. */
  function Part(data: seq<Observation>, inTest: nat -> bool, test: bool): (r: seq<Observation>)
    ensures |r| <= |data|
  {
    if |data| == 0 then []
    else
      var n := |data| - 1;
      Part(data[..n], inTest, test) + (if inTest(n) == test then [data[n]] else [])
  }

  /** The two parts of a split hold every rating exactly once. */
  lemma {:induction false} SplitPartitions(data: seq<Observation>, inTest: nat -> bool)
    ensures multiset(Part(data, inTest, false)) + multiset(Part(data, inTest, true)) == multiset(data)
    decreases |data|
  {
    if |data| > 0 {
      var n := |data| - 1;
      SplitPartitions(data[..n], inTest);
      assert data == data[..n] + [data[n]];
    }
  }

  function Users(obs: seq<Observation>): set<string>
  {
    set o | o in obs :: o.user
  }

  function Items(obs: seq<Observation>): set<string>
  {
    set o | o in obs :: o.item
  }

  // ---------------------------------------------------------------- evaluation

  /** `x / y * 100` for counts `0 <= x <= y`, `y > 0`. */
  function Percent(x: nat, y: nat): (r: real)
    requires 0 < y && x <= y
    ensures 0.0 <= r <= 100.0
    ensures r == 100.0 <==> x == y
    ensures r == 0.0 <==> x == 0
  {
    var q := x as real / y as real;
    assert q * y as real == x as real;
    q * 100.0
  }

  lemma SharedSize(train: set<string>, test: set<string>)
    ensures |train * test| <= |test|
    ensures |train * test| == |test| <==> test <= train
    ensures |train * test| == 0 <==> train * test == {}
  {
    SubsetCard(train * test, test);
    if test <= train {
      assert train * test == test;
    }
  }

  /** `len(train & test) / len(test) * 100`: `ZeroDivisionError` for an empty test side,
      otherwise a percentage that is 100 exactly when every test id was seen in
      training and 0 exactly when none was. */
  function Overlap(train: set<string>, test: set<string>): (r: Result<real>)
    ensures r.Err? <==> test == {}
    ensures r.Err? ==> r.error == ZeroDivisionError
    ensures r.Ok? ==> 0.0 <= r.value <= 100.0
    ensures r.Ok? ==> (r.value == 100.0 <==> test <= train)
    ensures r.Ok? ==> (r.value == 0.0 <==> train * test == {})
  {
    if test == {} then Err(ZeroDivisionError)
    else
      SharedSize(train, test);
      Ok(Percent(|train * test|, |test|))
  }

  /** The three messages of the overfitting check. */
  datatype Verdict = Overfitting | Similar | Acceptable

  /** The verdict on the gap `test_rmse - train_rmse`. */
  function OverfitVerdict(trainRmse: real, testRmse: real): (v: Verdict)
    ensures v == Overfitting <==> testRmse - trainRmse > 0.1
    ensures v == Similar <==> testRmse - trainRmse < 0.05
  {
    if testRmse - trainRmse > 0.1 then Overfitting
    else if testRmse - trainRmse < 0.05 then Similar
    else Acceptable
  }

  function Severity(v: Verdict): nat
  {
    match v
    case Similar => 0
    case Acceptable => 1
    case Overfitting => 2
  }

  /** A wider gap between test and train error never gives a milder verdict. */
  lemma VerdictMonotone(train1: real, test1: real, train2: real, test2: real)
    requires test1 - train1 <= test2 - train2
    ensures Severity(OverfitVerdict(train1, test1)) <= Severity(OverfitVerdict(train2, test2))
  {
    var v1 := OverfitVerdict(train1, test1);
    var v2 := OverfitVerdict(train2, test2);
    assert v1 == Overfitting ==> v2 == Overfitting;
    assert v2 == Similar ==> v1 == Similar;
  }

  // ---------------------------------------------------------------- recommendation sets

  predicate HasUser(rows: seq<IndexedRating>, u: string)
  {
    exists i :: 0 <= i < |rows| && rows[i].row.userId == u
  }

  function UserRows(rows: seq<IndexedRating>, u: string): seq<IndexedRating>
  {
    Filter(rows, (x: IndexedRating) => x.row.userId == u)
  }

  /** `set(df['movie_id'].unique()) - set(user_ratings['movie_id'])`. */
  function UnseenMovies(rows: seq<IndexedRating>, u: string): (r: set<string>)
    ensures forall m :: m in r <==>
      (exists x :: x in rows && x.row.movieId == m) && !(exists x :: x in rows && x.row.userId == u && x.row.movieId == m)
  {
    (set x | x in rows :: x.row.movieId) - (set x | x in rows && x.row.userId == u :: x.row.movieId)
  }

  function RatingKey(x: IndexedRating): real { x.row.rating }

  /** The filtered frame and the mapped rows `preprocess_data` computes from its input:
      `ValueError` without an input, the filter's errors, and otherwise a mapping of
      exactly the surviving rows, which never fails. */
  function Preprocessed(input: Option<RatingFrame>, config: ModelConfig): (r: Result<(RatingFrame, (seq<IndexedRating>, IdMapping))>)
    ensures input.None? ==> r == Err(ValueError)
    ensures input.Some? ==>
      var f := FilterByMinCounts(input.value, config.minUserRatings, config.minMovieRatings);
      (r.Err? <==> f.Err?) && (r.Err? ==> r.error == ValueError) &&
      (r.Ok? ==> r.value.0 == f.value && Ok(r.value.1) == PreprocessIdMapping(f.value))
  {
    if input.None? then Err(ValueError)
    else
      var f := FilterByMinCounts(input.value, config.minUserRatings, config.minMovieRatings);
      if f.Err? then Err(f.error)
      else
        FilteredFrameMaps(input.value, config.minUserRatings, config.minMovieRatings);
        Ok((f.value, PreprocessIdMapping(f.value).value))
  }

  /** The model's estimate for `userId`, as a score on movie ids. */
  function Scorer(model: SvdModel, userId: string): string -> real
  {
    (m: string) => model.predict(userId, m)
  }

  /** `top_watched`: `head(n)` of the user's rows sorted by rating, so exactly as many
      rows as `head(n)` keeps (`min(n, |own|)` for `n >= 0`), best rating first, and no
      row left out rated above one kept. */
  predicate TopWatched(watched: seq<IndexedRating>, own: seq<IndexedRating>, n: int)
  {
    |watched| == |Head(own, n)| &&
    NonIncreasing(watched, RatingKey) && multiset(watched) <= multiset(own) &&
    forall x :: x in own && x !in watched ==>
      forall i :: 0 <= i < |watched| ==> watched[i].row.rating >= x.row.rating
  }

  // ---------------------------------------------------------------- merge with df_movies

  /** The rows of `df_movies` with movie id `m`, in frame order. */
  function MoviesWithId(movies: seq<MovieRecord>, m: string): (r: seq<MovieRecord>)
    ensures forall x :: x in r <==> x in movies && x.movieId == m
  {
    if |movies| == 0 then []
    else (if movies[0].movieId == m then [movies[0]] else []) + MoviesWithId(movies[1..], m)
  }

  /** `pd.merge(left, df_movies, on='movie_id', how='left')`: each left row once per
      movie row with its id, in left-row order, or once with missing movie columns when
      there is no such movie row. */
  function Merge<T>(rows: seq<T>, id: T -> string, movies: seq<MovieRecord>): (r: seq<(T, Option<MovieRecord>)>)
    ensures |r| >= |rows|
    ensures forall x :: x in r ==> MergedRow(x, id, movies)
    ensures forall x :: x in r ==> exists i :: 0 <= i < |rows| && rows[i] == x.0
  {
    if |rows| == 0 then []
    else
      var ms := MoviesWithId(movies, id(rows[0]));
      var here := if |ms| == 0 then [(rows[0], None)]
        else seq(|ms|, k requires 0 <= k < |ms| => (rows[0], Some(ms[k])));
      var rest := Merge(rows[1..], id, movies);
      assert forall x :: x in rest ==> exists i :: 0 <= i < |rows| && rows[i] == x.0 by {
        forall x | x in rest
          ensures exists i :: 0 <= i < |rows| && rows[i] == x.0
        {
          var i :| 0 <= i < |rows[1..]| && rows[1..][i] == x.0;
          assert rows[i + 1] == x.0;
        }
      }
      assert forall x :: x in here ==> MergedRow(x, id, movies) && rows[0] == x.0;
      here + rest
  }

  /** A merged row carries a movie row with its id, or none when `df_movies` has none. */
  predicate MergedRow<T>(x: (T, Option<MovieRecord>), id: T -> string, movies: seq<MovieRecord>)
  {
    && (x.1.Some? ==> x.1.value in movies && x.1.value.movieId == id(x.0))
    && (x.1.None? ==> forall m :: m in movies ==> m.movieId != id(x.0))
  }

  predicate UniqueMovieIds(movies: seq<MovieRecord>)
  {
    forall a, b :: 0 <= a < b < |movies| ==> movies[a].movieId != movies[b].movieId
  }

  /** Against a `df_movies` without repeated ids the merge neither drops nor repeats a
      row: without the movie columns it gives back the left rows. */
  lemma {:induction false} MergeUnique<T>(rows: seq<T>, id: T -> string, movies: seq<MovieRecord>)
    requires UniqueMovieIds(movies)
    ensures Firsts(Merge(rows, id, movies)) == rows
    decreases |rows|
  {
    if |rows| > 0 {
      OneMovieWithId(movies, id(rows[0]));
      MergeUnique(rows[1..], id, movies);
      var ms := MoviesWithId(movies, id(rows[0]));
      var here := if |ms| == 0 then [(rows[0], None)]
        else seq(|ms|, k requires 0 <= k < |ms| => (rows[0], Some(ms[k])));
      var rest := Merge(rows[1..], id, movies);
      assert Merge(rows, id, movies) == here + rest;
      assert |here| == 1 && here[0].0 == rows[0];
      FirstsAppend(here, rest);
      assert rows == [rows[0]] + rows[1..];
    }
  }

  lemma {:induction false} OneMovieWithId(movies: seq<MovieRecord>, m: string)
    requires UniqueMovieIds(movies)
    ensures |MoviesWithId(movies, m)| <= 1
    decreases |movies|
  {
    if |movies| > 0 {
      var tail := movies[1..];
      assert UniqueMovieIds(tail) by {
        forall a, b | 0 <= a < b < |tail| ensures tail[a].movieId != tail[b].movieId {
          assert tail[a] == movies[a + 1] && tail[b] == movies[b + 1];
        }
      }
      OneMovieWithId(tail, m);
      if movies[0].movieId == m {
        forall x | x in tail
          ensures x.movieId != m
        {
          var j :| 0 <= j < |tail| && tail[j] == x;
          assert movies[j + 1] == x;
        }
        NoMovieWithId(tail, m);
      }
    }
  }

  lemma {:induction false} NoMovieWithId(movies: seq<MovieRecord>, m: string)
    requires forall x :: x in movies ==> x.movieId != m
    ensures MoviesWithId(movies, m) == []
    decreases |movies|
  {
    if |movies| > 0 {
      assert movies[0] in movies;
      assert forall x :: x in movies[1..] ==> x in movies;
      NoMovieWithId(movies[1..], m);
    }
  }

  function PredictedId(p: Prediction): string { p.0 }

  function RatedMovieId(x: IndexedRating): string { x.row.movieId }

  /** `predicted_rating`, the sort key of the merged recommendations. */
  function MergedScore(x: (Prediction, Option<MovieRecord>)): real { x.0.1 }

  /** What `save_model` pickles. */
  datatype SavedPipeline = SavedPipeline(
    config: ModelConfig, svdModel: SvdModel, idMapping: Option<IdMapping>,
    metrics: Option<EvaluationMetrics>, dfPreprocessed: Option<seq<IndexedRating>>)

  /** All fields of a pipeline, so that a stage can state the whole new state. */
  datatype PipelineState = PipelineState(
    config: ModelConfig, dfRaw: Option<RatingFrame>, dfFiltered: Option<RatingFrame>,
    dfPreprocessed: Option<seq<IndexedRating>>, idMapping: Option<IdMapping>,
    surpriseData: Option<seq<Observation>>, trainset: Option<seq<Observation>>,
    testset: Option<seq<Observation>>, svdModel: Option<SvdModel>,
    metrics: Option<EvaluationMetrics>)

  class SVDRecommenderPipeline {
    var config: ModelConfig
    var dfRaw: Option<RatingFrame>
    var dfFiltered: Option<RatingFrame>
    var dfPreprocessed: Option<seq<IndexedRating>>
    var idMapping: Option<IdMapping>
    var surpriseData: Option<seq<Observation>>
    var trainset: Option<seq<Observation>>
    var testset: Option<seq<Observation>>
    var svdModel: Option<SvdModel>
    var metrics: Option<EvaluationMetrics>

    function State(): PipelineState
      reads this
    {
      PipelineState(config, dfRaw, dfFiltered, dfPreprocessed, idMapping,
        surpriseData, trainset, testset, svdModel, metrics)
    }

    /** `__init__`: the given configuration or the defaults, every stage empty. */
    constructor(config: Option<ModelConfig>)
      ensures State() == PipelineState(config.GetOr(DefaultModelConfig),
        None, None, None, None, None, None, None, None, None)
    {
      this.config := config.GetOr(DefaultModelConfig);
      dfRaw := None;
      dfFiltered := None;
      dfPreprocessed := None;
      idMapping := None;
      surpriseData := None;
      trainset := None;
      testset := None;
      svdModel := None;
      metrics := None;
    }

    /** `predict`: `ValueError` before training, otherwise the model's estimate. */
    method Predict(userId: string, movieId: string) returns (r: Result<real>)
      ensures r.Err? <==> svdModel.None?
      ensures r.Err? ==> r.error == ValueError
      ensures r.Ok? ==> r.value == svdModel.value.predict(userId, movieId)
    {
      if svdModel.None? {
        return Err(ValueError);
      }
      r := Ok(svdModel.value.predict(userId, movieId));
    }

    /** `load_data`: the ratings file read by `load_ratings_data` becomes `df_raw`; its
        errors propagate with nothing changed. */
    method LoadData(file: Option<string>) returns (r: Result<RatingFrame>)
      modifies this
      ensures r == RatingsOf(file)
      ensures r.Err? ==> State() == old(State())
      ensures r.Ok? ==> State() == old(State()).(dfRaw := Some(r.value))
    {
      r := RatingsOf(file);
      if r.Ok? {
        dfRaw := Some(r.value);
      }
    }

    /** `preprocess_data`: the given frame or else `df_raw` (`ValueError` when neither
        exists) is filtered by the configured minimum counts into `df_filtered`, then
        mapped into `df_preprocessed` and `id_mapping`; an error changes nothing. */
    method PreprocessData(df: Option<RatingFrame>) returns (r: Result<(seq<IndexedRating>, IdMapping)>)
      modifies this
      ensures var p := Preprocessed(if df.Some? then df else old(dfRaw), config);
        (p.Err? ==> r == Err(p.error) && State() == old(State())) &&
        (p.Ok? ==> (r == Ok(p.value.1) &&
          State() == old(State()).(dfFiltered := Some(p.value.0),
            dfPreprocessed := Some(p.value.1.0), idMapping := Some(p.value.1.1))))
    {
      ghost var s0 := State();
      var input := if df.Some? then df else dfRaw;
      var p := Preprocessed(input, config);
      if p.Err? {
        return Err(p.error);
      }
      dfFiltered := Some(p.value.0);
      dfPreprocessed := Some(p.value.1.0);
      idMapping := Some(p.value.1.1);
      assert State() == s0.(dfFiltered := Some(p.value.0),
        dfPreprocessed := Some(p.value.1.0), idMapping := Some(p.value.1.1));
      r := Ok(p.value.1);
    }

    /** `prepare_surprise_dataset`: the given rows or else `df_preprocessed`
        (`ValueError` when neither exists) become the Surprise dataset. */
    method PrepareSurpriseDataset(df: Option<seq<IndexedRating>>) returns (r: Result<seq<Observation>>)
      modifies this
      ensures var input := if df.Some? then df else old(dfPreprocessed);
        (input.None? ==> r == Err(ValueError) && State() == old(State())) &&
        (input.Some? ==> (r == Ok(Observations(input.value)) &&
          State() == old(State()).(surpriseData := Some(r.value))))
    {
      var input := if df.Some? then df else dfPreprocessed;
      if input.None? {
        return Err(ValueError);
      }
      surpriseData := Some(Observations(input.value));
      r := Ok(surpriseData.value);
    }

    /** `split_train_test`: `ValueError` without a dataset; otherwise both parts are
        stored, after which the sparsity and overlap figures divide by the number of
        train users and of test users, so an empty part raises `ZeroDivisionError`. */
    method SplitTrainTest(inTest: nat -> bool) returns (r: Result<(seq<Observation>, seq<Observation>)>)
      modifies this
      ensures old(surpriseData).None? ==> r == Err(ValueError) && State() == old(State())
      ensures old(surpriseData).Some? ==>
        var train := Part(old(surpriseData).value, inTest, false);
        var test := Part(old(surpriseData).value, inTest, true);
        State() == old(State()).(trainset := Some(train), testset := Some(test)) &&
        (r.Err? <==> |train| == 0 || |test| == 0) &&
        (r.Err? ==> r.error == ZeroDivisionError) &&
        (r.Ok? ==> (r.value == (train, test) &&
          multiset(train) + multiset(test) == multiset(old(surpriseData).value)))
    {
      if surpriseData.None? {
        return Err(ValueError);
      }
      var train := Part(surpriseData.value, inTest, false);
      var test := Part(surpriseData.value, inTest, true);
      SplitPartitions(surpriseData.value, inTest);
      trainset := Some(train);
      testset := Some(test);
      if |train| == 0 || |test| == 0 {
        return Err(ZeroDivisionError);
      }
      r := Ok((train, test));
    }

    /** `train`: `ValueError` without a train set; otherwise the fitted model (the
        foreign learner's result) is stored. */
    method Train(model: SvdModel) returns (r: Result<SvdModel>)
      modifies this
      ensures old(trainset).None? ==> r == Err(ValueError) && State() == old(State())
      ensures old(trainset).Some? ==> r == Ok(model) && State() == old(State()).(svdModel := Some(model))
    {
      if trainset.None? {
        return Err(ValueError);
      }
      svdModel := Some(model);
      r := Ok(model);
    }

    /** `evaluate`, in the source's order: `ValueError` before training; predicting a
        missing test set fails with `TypeError`; an empty test set gives `accuracy.rmse`
        no prediction to measure (`ValueError`); only then is the train set used, so a
        missing one fails with `AttributeError` and an empty one with `ValueError`, all
        before the overlap's division is reached. Otherwise the metrics, with overlaps
        in [0, 100], are stored and returned with the overfitting verdict. */
    method Evaluate(trainRmse: real, testRmse: real, trainMae: real, testMae: real)
      returns (r: Result<(EvaluationMetrics, Verdict)>)
      modifies this
      ensures r.Err? ==> State() == old(State())
      ensures svdModel.None? ==> r == Err(ValueError)
      ensures svdModel.Some? && testset.None? ==> r == Err(TypeError)
      ensures svdModel.Some? && testset.Some? && |testset.value| == 0 ==> r == Err(ValueError)
      ensures svdModel.Some? && testset.Some? && |testset.value| > 0 && trainset.None? ==>
        r == Err(AttributeError)
      ensures svdModel.Some? && testset.Some? && trainset.Some? ==>
        (r.Err? <==> |testset.value| == 0 || |trainset.value| == 0)
      ensures (svdModel.Some? && testset.Some? && trainset.Some? &&
        (|testset.value| == 0 || |trainset.value| == 0)) ==> r == Err(ValueError)
      ensures r.Ok? ==> (testset.Some? && trainset.Some? &&
        var m := r.value.0;
        metrics == Some(m) && m.trainRmse == trainRmse && m.testRmse == testRmse &&
        m.trainMae == trainMae && m.testMae == testMae &&
        Overlap(Users(trainset.value), Users(testset.value)) == Ok(m.userOverlap) &&
        Overlap(Items(trainset.value), Items(testset.value)) == Ok(m.itemOverlap) &&
        0.0 <= m.userOverlap <= 100.0 && 0.0 <= m.itemOverlap <= 100.0 &&
        r.value.1 == OverfitVerdict(trainRmse, testRmse) &&
        State() == old(State()).(metrics := Some(m)))
    {
      if svdModel.None? {
        return Err(ValueError);
      }
      if testset.None? {
        return Err(TypeError);
      }
      if |testset.value| == 0 {
        return Err(ValueError);
      }
      if trainset.None? {
        return Err(AttributeError);
      }
      if |trainset.value| == 0 {
        return Err(ValueError);
      }
      assert testset.value[0].user in Users(testset.value);
      assert testset.value[0].item in Items(testset.value);
      var userOverlap := Overlap(Users(trainset.value), Users(testset.value));
      var itemOverlap := Overlap(Items(trainset.value), Items(testset.value));
      var m := EvaluationMetrics(trainRmse, testRmse, trainMae, testMae, userOverlap.value, itemOverlap.value);
      metrics := Some(m);
      r := Ok((m, OverfitVerdict(trainRmse, testRmse)));
    }

    /** `recommend_for_user`: `ValueError` before training or for a user absent from
        `df_preprocessed`, and `KeyError` when the user has rated every movie (the empty
        prediction frame has no `movie_id` to merge on). Otherwise the predictions for
        the movies the user has not rated, merged with `df_movies`, best first and cut
        to `n` rows, and the user's own ratings, best first, cut to `n` rows and merged.
        Against a `df_movies` without repeated ids these are a top-`n` of the unseen
        movies (each once) and `top_watched`. */
    method RecommendForUser(userId: string, movies: seq<MovieRecord>, n: int)
      returns (r: Result<(seq<(IndexedRating, Option<MovieRecord>)>, seq<(Prediction, Option<MovieRecord>)>)>)
      ensures svdModel.None? ==> r == Err(ValueError)
      ensures svdModel.Some? && dfPreprocessed.None? ==> r == Err(TypeError)
      ensures svdModel.Some? && dfPreprocessed.Some? ==>
        && (r.Err? <==> !HasUser(dfPreprocessed.value, userId) || UnseenMovies(dfPreprocessed.value, userId) == {})
        && (r.Err? ==> r.error == if HasUser(dfPreprocessed.value, userId) then KeyError else ValueError)
      ensures r.Ok? ==> (svdModel.Some? && dfPreprocessed.Some? &&
        var unseen := UnseenMovies(dfPreprocessed.value, userId);
        var score := Scorer(svdModel.value, userId);
        && NonIncreasing(r.value.1, MergedScore)
        && (forall x :: x in r.value.1 ==> x.0.0 in unseen && x.0.1 == score(x.0.0) && MergedRow(x, PredictedId, movies))
        && (forall x :: x in r.value.0 ==> x.0 in UserRows(dfPreprocessed.value, userId) && MergedRow(x, RatedMovieId, movies))
        && (UniqueMovieIds(movies) ==>
              TopNOf(Firsts(r.value.1), unseen, score, n) &&
              TopWatched(Firsts(r.value.0), UserRows(dfPreprocessed.value, userId), n)))
    {
      if svdModel.None? {
        return Err(ValueError);
      }
      if dfPreprocessed.None? {
        return Err(TypeError);
      }
      var rows := dfPreprocessed.value;
      if !HasUser(rows, userId) {
        return Err(ValueError);
      }
      var unseen := UnseenMovies(rows, userId);
      var score := Scorer(svdModel.value, userId);
      var predictions := PredictAll(score, unseen);
      if |predictions| == 0 {
        return Err(KeyError);
      }
      var merged := Merge(predictions, PredictedId, movies);
      var recs := Head(SortDesc(merged, MergedScore), n);
      var own := UserRows(rows, userId);
      var top := Head(SortDesc(own, RatingKey), n);
      var watched := Merge(top, RatedMovieId, movies);
      RecommendedRows(predictions, unseen, score, movies, n);
      WatchedRows(own, movies, n);
      r := Ok((watched, recs));
    }

    /** `save_model`: `ValueError` before training, otherwise the pickled fields. */
    method SaveModel() returns (r: Result<SavedPipeline>)
      ensures r.Err? <==> svdModel.None?
      ensures r.Err? ==> r.error == ValueError
      ensures r.Ok? ==> r.value == SavedPipeline(config, svdModel.value, idMapping, metrics, dfPreprocessed)
    {
      if svdModel.None? {
        return Err(ValueError);
      }
      r := Ok(SavedPipeline(config, svdModel.value, idMapping, metrics, dfPreprocessed));
    }

    /** `load_model`: opening a missing file raises `FileNotFoundError`; otherwise a
        fresh pipeline holds the saved configuration, model, mapping, metrics and
        preprocessed rows, and every other stage is empty. */
    static method LoadModel(file: Option<SavedPipeline>) returns (r: Result<SVDRecommenderPipeline>)
      ensures r.Err? <==> file.None?
      ensures r.Err? ==> r.error == FileNotFoundError
      ensures r.Ok? ==> (fresh(r.value) &&
        var s := file.value;
        r.value.State() == PipelineState(s.config, None, None, s.dfPreprocessed, s.idMapping,
          None, None, None, Some(s.svdModel), s.metrics))
    {
      if file.None? {
        return Err(FileNotFoundError);
      }
      var s := file.value;
      var pipeline := new SVDRecommenderPipeline(Some(s.config));
      pipeline.svdModel := Some(s.svdModel);
      pipeline.idMapping := s.idMapping;
      pipeline.metrics := s.metrics;
      pipeline.dfPreprocessed := s.dfPreprocessed;
      r := Ok(pipeline);
    }

    /** `run_full_pipeline`: the stages in order, stopping at the first error. Loading
        and preprocessing fail as those stages do; the split fails with
        `ZeroDivisionError` when a side is empty; otherwise every stage has been
        filled and the metrics `evaluate` computes on the split are returned. */
    method RunFullPipeline(file: Option<string>, inTest: nat -> bool, model: SvdModel,
                           trainRmse: real, testRmse: real, trainMae: real, testMae: real)
      returns (r: Result<(EvaluationMetrics, Verdict)>)
      modifies this
      ensures RatingsOf(file).Err? ==> r == Err(RatingsOf(file).error)
      ensures var loaded := RatingsOf(file);
        loaded.Ok? ==>
          var p := Preprocessed(Some(loaded.value), old(config));
          (p.Err? ==> r == Err(p.error)) &&
          (p.Ok? ==>
            var data := Observations(p.value.1.0);
            var train := Part(data, inTest, false);
            var test := Part(data, inTest, true);
            (r.Err? <==> |train| == 0 || |test| == 0) &&
            (r.Err? ==> r.error == ZeroDivisionError) &&
            (r.Ok? ==> (
              var m := r.value.0;
              m.trainRmse == trainRmse && m.testRmse == testRmse &&
              m.trainMae == trainMae && m.testMae == testMae &&
              Overlap(Users(train), Users(test)) == Ok(m.userOverlap) &&
              Overlap(Items(train), Items(test)) == Ok(m.itemOverlap) &&
              r.value.1 == OverfitVerdict(trainRmse, testRmse) &&
              trainset == Some(train) && testset == Some(test) && dfPreprocessed == Some(p.value.1.0))))
      ensures r.Ok? ==> (dfRaw.Some? && dfFiltered.Some? && dfPreprocessed.Some? &&
        idMapping.Some? && surpriseData.Some? && trainset.Some? && testset.Some? &&
        svdModel == Some(model) && metrics == Some(r.value.0) &&
        r.value.1 == OverfitVerdict(trainRmse, testRmse))
    {
      var loaded := LoadData(file);
      if loaded.Err? {
        return Err(loaded.error);
      }
      var pre := PreprocessData(None);
      if pre.Err? {
        return Err(pre.error);
      }
      var data := PrepareSurpriseDataset(None);
      var split := SplitTrainTest(inTest);
      if split.Err? {
        return Err(split.error);
      }
      var trained := Train(model);
      r := Evaluate(trainRmse, testRmse, trainMae, testMae);
    }
  }

  /** The merged recommendations are sorted and scored, and against a `df_movies`
      without repeated ids they are a top-`n` selection of the candidates. */
  lemma RecommendedRows(predictions: seq<Prediction>, unseen: set<string>, score: string -> real,
                        movies: seq<MovieRecord>, n: int)
    requires Lists(predictions, unseen, score)
    ensures var recs := Head(SortDesc(Merge(predictions, PredictedId, movies), MergedScore), n);
      && NonIncreasing(recs, MergedScore)
      && (forall x :: x in recs ==> x.0.0 in unseen && x.0.1 == score(x.0.0) && MergedRow(x, PredictedId, movies))
      && (UniqueMovieIds(movies) ==> TopNOf(Firsts(recs), unseen, score, n))
  {
    var merged := Merge(predictions, PredictedId, movies);
    TopRows(merged, MergedScore, n);
    MergedPredictions(predictions, unseen, score, movies, Head(SortDesc(merged, MergedScore), n));
    if UniqueMovieIds(movies) {
      UniqueRecommendations(predictions, unseen, score, movies, n);
    }
  }

  lemma MergedPredictions(predictions: seq<Prediction>, unseen: set<string>, score: string -> real,
                          movies: seq<MovieRecord>, recs: seq<(Prediction, Option<MovieRecord>)>)
    requires Lists(predictions, unseen, score)
    requires multiset(recs) <= multiset(Merge(predictions, PredictedId, movies))
    ensures forall x :: x in recs ==> x.0.0 in unseen && x.0.1 == score(x.0.0) && MergedRow(x, PredictedId, movies)
  {
    var merged := Merge(predictions, PredictedId, movies);
    forall x | x in recs
      ensures x.0.0 in unseen && x.0.1 == score(x.0.0) && MergedRow(x, PredictedId, movies)
    {
      assert x in multiset(merged);
      var i :| 0 <= i < |predictions| && predictions[i] == x.0;
      assert predictions[i].0 in IdSet(predictions);
    }
  }

  lemma UniqueRecommendations(predictions: seq<Prediction>, unseen: set<string>, score: string -> real,
                              movies: seq<MovieRecord>, n: int)
    requires Lists(predictions, unseen, score) && UniqueMovieIds(movies)
    ensures TopNOf(Firsts(Head(SortDesc(Merge(predictions, PredictedId, movies), MergedScore), n)), unseen, score, n)
  {
    var merged := Merge(predictions, PredictedId, movies);
    var sorted := SortDesc(merged, MergedScore);
    MergeUnique(predictions, PredictedId, movies);
    SortFirsts(merged, Score, MergedScore);
    HeadFirsts(sorted, n);
    SelectTop(predictions, unseen, score, n);
  }

  /** The merged `top_watched` holds the user's rows, and against a `df_movies`
      without repeated ids it is a `top_watched` selection. */
  lemma WatchedRows(own: seq<IndexedRating>, movies: seq<MovieRecord>, n: int)
    ensures var watched := Merge(Head(SortDesc(own, RatingKey), n), RatedMovieId, movies);
      && (forall x :: x in watched ==> x.0 in own && MergedRow(x, RatedMovieId, movies))
      && (UniqueMovieIds(movies) ==> TopWatched(Firsts(watched), own, n))
  {
    var top := Head(SortDesc(own, RatingKey), n);
    TopRows(own, RatingKey, n);
    MergedOwnRows(top, own, movies);
    if UniqueMovieIds(movies) {
      MergeUnique(top, RatedMovieId, movies);
    }
  }

  lemma MergedOwnRows(top: seq<IndexedRating>, own: seq<IndexedRating>, movies: seq<MovieRecord>)
    requires multiset(top) <= multiset(own)
    ensures forall x :: x in Merge(top, RatedMovieId, movies) ==> x.0 in own
  {
    forall x | x in Merge(top, RatedMovieId, movies)
      ensures x.0 in own
    {
      var i :| 0 <= i < |top| && top[i] == x.0;
      assert top[i] in multiset(top);
    }
  }

  /** A frame that survives the minimum-count filter can always be mapped. */
  lemma FilteredFrameMaps(df: RatingFrame, minUser: int, minMovie: int)
    requires FilterByMinCounts(df, minUser, minMovie).Ok?
    ensures PreprocessIdMapping(FilterByMinCounts(df, minUser, minMovie).value).Ok?
  {
    var f := FilterByMinCounts(df, minUser, minMovie).value;
    assert !df.IsEmpty() && df.HasIdColumns();
    assert f.columns == df.columns && f.rows != [];
  }
}
