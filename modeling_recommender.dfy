/** `MovieRecommenderLite` of the modelling package: Surprise SVD predictions for a
    user's top-n, TF-IDF or SVD-based neighbours of a movie, and a hybrid of the two.
    The trained SVD, the TF-IDF cosine similarities and the cosine of two movies'
    predicted-rating vectors come from libraries and are parameters. */
module ModelingRecommender {
  import opened Wrappers
  import opened Seqs
  import opened IdIndex
  import opened Ratings
  import opened Ranking
  import opened Catalogue
  import opened SvdPipeline

  /** A fitted TF-IDF matrix of `rows` rows: `sim(i, j)` is the cosine similarity of
      rows `i` and `j`, `profileSim(s, j)` that of the mean of the rows in `s` and row
      `j`. */
  datatype TfidfModel = TfidfModel(rows: nat, sim: (nat, nat) -> real, profileSim: (set<nat>, nat) -> real)

  /** `find_similar_movies`, as (movie-table row, similarity) pairs. */
  function SimilarOf(svdTrained: bool, known: set<string>, tfidf: Option<TfidfModel>,
                     catalogue: seq<string>, movieId: string, n: int, methodName: string,
                     collabSim: (string, string) -> real): Result<seq<Neighbour>>
  {
    if movieId !in catalogue then Ok([])
    else
      var row := FirstRow(catalogue, movieId).value;
      if methodName == "content" && tfidf.Some? then
        if row >= tfidf.value.rows then Err(IndexError)
        else
          var top := SkipTop(ContentRow(tfidf.value, row), Similarity, n);
          if exists i :: 0 <= i < |top| && top[i].0 >= |catalogue| then Err(IndexError)
          else Ok(top)
      else if methodName == "collaborative" && svdTrained then
        if movieId !in known then Ok([])
        else Ok(SkipTop(KnownRows(catalogue, known, CollabTo(collabSim, movieId)), Similarity, n))
      else Ok([])
  }

  /** `list(enumerate(cosine_similarity(tfidf_matrix[row], tfidf_matrix).flatten()))`. */
  function ContentRow(t: TfidfModel, row: nat): (r: seq<Neighbour>)
    ensures |r| == t.rows && forall j :: 0 <= j < |r| ==> r[j] == (j, t.sim(row, j))
  {
    Enumerate(seq(t.rows, j requires 0 <= j < t.rows => t.sim(row, j)))
  }

  function CollabTo(collabSim: (string, string) -> real, movieId: string): string -> real
  {
    (m: string) => collabSim(movieId, m)
  }

  /** The content neighbours: rows of the TF-IDF matrix other than the top-ranked one,
      with their similarity to the movie's row, ranked by similarity and then by row, at
      most `n`, none left out that ranks above one kept; and when the movie is strictly
      most similar to itself, its own row is never among them. */
  lemma ContentNeighbours(t: TfidfModel, row: nat, n: int)
    requires row < t.rows
    ensures var scores := ContentRow(t, row);
      var r := SkipTop(scores, Similarity, n);
      ScoreThenPosition(r, Similarity, Position) &&
      (n >= 0 ==> |r| == (if n < t.rows - 1 then n else t.rows - 1)) &&
      (forall i :: 0 <= i < |r| ==> r[i].0 < t.rows && r[i].1 == t.sim(row, r[i].0)) &&
      (|scores| > 0 ==> forall x :: x in scores && x != SortDesc(scores, Similarity)[0] && x !in r ==>
        forall i :: 0 <= i < |r| ==> r[i].1 > x.1 || (r[i].1 == x.1 && r[i].0 < x.0))
  {
    var scores := ContentRow(t, row);
    assert IncreasingBy(scores, Position);
    SkipTopRows(scores, n);
    if n >= 0 {
      SkipTopLength(scores, Similarity, n);
    }
  }

  lemma ContentDropsSelf(t: TfidfModel, row: nat, n: int)
    requires row < t.rows && forall j :: 0 <= j < t.rows && j != row ==> t.sim(row, j) < t.sim(row, row)
    ensures var r := SkipTop(ContentRow(t, row), Similarity, n);
      forall i :: 0 <= i < |r| ==> r[i].0 != row
  {
    var sims := seq(t.rows, j requires 0 <= j < t.rows => t.sim(row, j));
    assert ContentRow(t, row) == Enumerate(sims);
    SkipTopDropsQuery(sims, row, n);
  }

  /** The collaborative neighbours: movie-table rows whose movie the model was trained
      on, with the similarity of their predicted ratings to the movie's, ranked by it and
      then by row, at most `n`, all but the top-ranked one, none left out that ranks
      above one kept. */
  lemma CollaborativeNeighbours(catalogue: seq<string>, known: set<string>, sim: string -> real, n: int)
    ensures var scores := KnownRows(catalogue, known, sim);
      var r := SkipTop(scores, Similarity, n);
      ScoreThenPosition(r, Similarity, Position) &&
      (n >= 0 ==> |r| == (if |scores| == 0 then 0 else if n < |scores| - 1 then n else |scores| - 1)) &&
      (forall i :: 0 <= i < |r| ==>
        (r[i].0 < |catalogue| && catalogue[r[i].0] in known && r[i].1 == sim(catalogue[r[i].0]))) &&
      (|scores| > 0 ==> forall j :: (0 <= j < |catalogue| && catalogue[j] in known &&
        (j, sim(catalogue[j])) != SortDesc(scores, Similarity)[0] && (j, sim(catalogue[j])) !in r) ==>
        (forall i :: 0 <= i < |r| ==>
          (r[i].1 > sim(catalogue[j]) || (r[i].1 == sim(catalogue[j]) && r[i].0 < j))))
  {
    var scores := KnownRows(catalogue, known, sim);
    SkipTopRows(scores, n);
    if n >= 0 {
      SkipTopLength(scores, Similarity, n);
    }
  }

  /** The hybrid score of an unseen movie: the min/max-normalised SVD estimate and the
      content score of the movie's first row, weighted. */
  function HybridScore(model: SvdModel, userId: string, lo: real, hi: real, cb: seq<real>,
                       catalogue: seq<string>, cfWeight: real, cbWeight: real): string -> real
    requires lo <= hi
  {
    (m: string) => cfWeight * Normalized(model.predict(userId, m), lo, hi) + cbWeight * CbAt(cb, catalogue, m)
  }

  /** `cb_scores_raw[df_idx]` for the movie's first row (0 where there is none). */
  function CbAt(cb: seq<real>, catalogue: seq<string>, m: string): real
  {
    var row := FirstRow(catalogue, m);
    if row.Some? && row.value < |cb| then cb[row.value] else 0.0
  }

  /** `cf_min, cf_max`: the least and greatest estimate over the unseen movies, and
      `0, 5` when there are none. */
  predicate CfBounds(lo: real, hi: real, score: string -> real, unseen: set<string>)
  {
    if unseen == {} then lo == 0.0 && hi == 5.0
    else
      (exists m :: m in unseen && score(m) == lo) && (exists m :: m in unseen && score(m) == hi) &&
      forall m :: m in unseen ==> lo <= score(m) <= hi
  }

  /** `cb_scores_raw`: the profile similarities when the user rated some movie of the
      table and TF-IDF is trained, zeros otherwise. */
  function CbScores(tfidf: Option<TfidfModel>, positions: set<nat>, rows: nat): (r: seq<real>)
    ensures |positions| > 0 && tfidf.Some? ==>
      |r| == tfidf.value.rows && forall j :: 0 <= j < |r| ==> r[j] == tfidf.value.profileSim(positions, j)
    ensures !(|positions| > 0 && tfidf.Some?) ==> |r| == rows && forall j :: 0 <= j < |r| ==> r[j] == 0.0
  {
    if |positions| > 0 && tfidf.Some? then
      seq(tfidf.value.rows, j requires 0 <= j < tfidf.value.rows => tfidf.value.profileSim(positions, j))
    else seq(rows, j => 0.0)
  }

  /** With a content weight of zero and a positive collaborative weight, the hybrid
      ranking is the SVD ranking: the recommendations are in non-increasing estimate,
      and no candidate left out has a higher estimate than one kept. */
  lemma HybridFollowsCf(recs: seq<Prediction>, cands: set<string>, model: SvdModel, userId: string,
                        lo: real, hi: real, cb: seq<real>, catalogue: seq<string>, cfWeight: real, n: int)
    requires lo <= hi && 0.0 < cfWeight
    requires TopNOf(recs, cands, HybridScore(model, userId, lo, hi, cb, catalogue, cfWeight, 0.0), n)
    ensures forall i, j :: 0 <= i < j < |recs| ==> model.predict(userId, recs[i].0) >= model.predict(userId, recs[j].0)
    ensures forall m :: m in cands && m !in IdSet(recs) ==>
      forall i :: 0 <= i < |recs| ==> model.predict(userId, recs[i].0) >= model.predict(userId, m)
  {
    var h := HybridScore(model, userId, lo, hi, cb, catalogue, cfWeight, 0.0);
    forall i, j | 0 <= i < j < |recs|
      ensures model.predict(userId, recs[i].0) >= model.predict(userId, recs[j].0)
    {
      HybridPairOrder(model, userId, lo, hi, cb, catalogue, cfWeight, recs[i].0, recs[j].0);
    }
    forall m, i | m in cands && m !in IdSet(recs) && 0 <= i < |recs|
      ensures model.predict(userId, recs[i].0) >= model.predict(userId, m)
    {
      HybridPairOrder(model, userId, lo, hi, cb, catalogue, cfWeight, recs[i].0, m);
    }
  }

  lemma HybridPairOrder(model: SvdModel, userId: string, lo: real, hi: real, cb: seq<real>,
                        catalogue: seq<string>, cfWeight: real, a: string, b: string)
    requires lo <= hi && 0.0 < cfWeight
    ensures var h := HybridScore(model, userId, lo, hi, cb, catalogue, cfWeight, 0.0);
      h(a) >= h(b) ==> model.predict(userId, a) >= model.predict(userId, b)
  {
    WeightedOrder(model.predict(userId, a), model.predict(userId, b), lo, hi, cfWeight,
      CbAt(cb, catalogue, a), CbAt(cb, catalogue, b));
  }

  /** A zero-weighted content score leaves the order of the weighted estimates. */
  lemma WeightedOrder(x: real, y: real, lo: real, hi: real, w: real, c: real, d: real)
    requires lo <= hi && 0.0 < w
    ensures w * Normalized(x, lo, hi) + 0.0 * c >= w * Normalized(y, lo, hi) + 0.0 * d ==> x >= y
  {
    NormalizedMonotone(x, y, lo, hi);
    NormalizedMonotone(y, x, lo, hi);
    if x < y {
      assert Normalized(x, lo, hi) < Normalized(y, lo, hi);
      assert w * Normalized(x, lo, hi) < w * Normalized(y, lo, hi);
    }
  }

  /** `MovieRecommenderLite`: the SVD model with its id mapping, and the TF-IDF model. */
  class MovieRecommenderLite {
    var svdModel: Option<SvdModel>
    var mapping: Option<IdMapping>
    var tfidf: Option<TfidfModel>

    /** The SVD model and the id mapping are trained together. */
    ghost predicate Valid()
      reads this
    {
      svdModel.Some? <==> mapping.Some?
    }

    constructor()
      ensures Valid()
      ensures svdModel == None && mapping == None && tfidf == None
    {
      svdModel := None;
      mapping := None;
      tfidf := None;
    }

    /** `train_collaborative_filtering`: the mapping of the sorted distinct ids, and the
        SVD fitted on all ratings. */
    method TrainCollaborativeFiltering(ratings: seq<Rating>, model: SvdModel)
      modifies this
      ensures Valid()
      ensures mapping == Some(BuildMapping(ratings)) && svdModel == Some(model) && tfidf == old(tfidf)
    {
      mapping := Some(BuildMapping(ratings));
      svdModel := Some(model);
    }

    /** `train_content_based`: the TF-IDF model of the genre and plot text. */
    method TrainContentBased(model: TfidfModel)
      modifies this
      ensures tfidf == Some(model) && svdModel == old(svdModel) && mapping == old(mapping)
    {
      tfidf := Some(model);
    }

    /** `recommend_for_user`: a `TypeError` before training (the membership test on
        `None`), nothing for an unknown user, and otherwise a top-`n` selection by SVD
        estimate of the trained movies the user has not rated that the movie table
        lists. */
    method RecommendForUser(userId: string, catalogue: seq<string>, ratings: seq<Rating>, n: int)
      returns (r: Result<seq<Prediction>>)
      requires Valid()
      ensures mapping.None? ==> r == Err(TypeError)
      ensures mapping.Some? ==> r.Ok?
      ensures mapping.Some? && userId !in mapping.value.userToIdx ==> r.value == []
      ensures mapping.Some? && userId in mapping.value.userToIdx ==>
        TopNOf(r.value, (mapping.value.movieToIdx.Keys - RatedBy(ratings, userId)) * Elems(catalogue),
          Scorer(svdModel.value, userId), n)
    {
      if mapping.None? {
        return Err(TypeError);
      }
      if userId !in mapping.value.userToIdx {
        return Ok([]);
      }
      var unseen := mapping.value.movieToIdx.Keys - RatedBy(ratings, userId);
      var score := Scorer(svdModel.value, userId);
      var predictions := PredictAll(score, unseen);
      var listed := Filter(predictions, InKeep(Elems(catalogue)));
      ListsFilter(predictions, unseen, score, Elems(catalogue));
      SelectTop(listed, unseen * Elems(catalogue), score, n);
      r := Ok(Head(SortDesc(listed, Score), n));
    }

    /** `find_similar_movies`; see `SimilarOf`, `ContentNeighbours` and
        `CollaborativeNeighbours`. */
    method FindSimilarMovies(movieId: string, catalogue: seq<string>, n: int, methodName: string,
                             collabSim: (string, string) -> real) returns (r: Result<seq<Neighbour>>)
      requires Valid()
      ensures r == SimilarOf(svdModel.Some?, if mapping.Some? then mapping.value.movieToIdx.Keys else {},
        tfidf, catalogue, movieId, n, methodName, collabSim)
    {
      if movieId !in catalogue {
        return Ok([]);
      }
      var row := FirstRow(catalogue, movieId).value;
      var scores: seq<Neighbour>;
      if methodName == "content" && tfidf.Some? {
        if row >= tfidf.value.rows {
          return Err(IndexError);
        }
        scores := ContentRow(tfidf.value, row);
      } else if methodName == "collaborative" && svdModel.Some? {
        var known := mapping.value.movieToIdx.Keys;
        if movieId !in known {
          return Ok([]);
        }
        var sim := CollabTo(collabSim, movieId);
        scores := [];
        var j := 0;
        while j < |catalogue|
          invariant 0 <= j <= |catalogue|
          invariant scores == KnownRows(catalogue[..j], known, sim)
        {
          assert catalogue[..j + 1][..j] == catalogue[..j];
          if catalogue[j] in known {
            scores := scores + [(j, collabSim(movieId, catalogue[j]))];
          }
          j := j + 1;
        }
        assert catalogue[..j] == catalogue;
        SkipTopMembers(scores, Similarity, n);
      } else {
        return Ok([]);
      }
      var top := SkipTop(scores, Similarity, n);
      if exists i :: 0 <= i < |top| && top[i].0 >= |catalogue| {
        return Err(IndexError);
      }
      r := Ok(top);
    }

    /** `hybrid_recommend`: a `TypeError` before training, nothing for an unknown user,
        an `IndexError` when a row index falls outside the TF-IDF matrix or outside the
        content scores, and otherwise a top-`n` selection of the unseen trained movies
        the table lists, by the weighted sum of the min/max-normalised estimate and the
        content score. */
    method HybridRecommend(userId: string, catalogue: seq<string>, ratings: seq<Rating>, n: int,
                           cfWeight: real, cbWeight: real) returns (r: Result<seq<Prediction>>)
      requires Valid()
      ensures mapping.None? ==> r == Err(TypeError)
      ensures mapping.Some? && userId !in mapping.value.userToIdx ==> r == Ok([])
      ensures mapping.Some? && userId in mapping.value.userToIdx ==>
        var rated := RatedBy(ratings, userId);
        var positions := PositionsOf(catalogue, rated);
        var unseen := mapping.value.movieToIdx.Keys - rated;
        var cands := unseen * Elems(catalogue);
        var cb := CbScores(tfidf, positions, |catalogue|);
        (r.Err? <==> ((|positions| > 0 && tfidf.Some? && exists p :: p in positions && p >= tfidf.value.rows) ||
          exists m :: m in cands && FirstRow(catalogue, m).value >= |cb|)) &&
        (r.Err? ==> r.error == IndexError) &&
        (r.Ok? ==> exists lo: real, hi: real :: (lo <= hi && CfBounds(lo, hi, Scorer(svdModel.value, userId), unseen) &&
          TopNOf(r.value, cands, HybridScore(svdModel.value, userId, lo, hi, cb, catalogue, cfWeight, cbWeight), n)))
    {
      if mapping.None? {
        return Err(TypeError);
      }
      if userId !in mapping.value.userToIdx {
        return Ok([]);
      }
      var model := svdModel.value;
      var rated := RatedBy(ratings, userId);
      var positions := PositionsOf(catalogue, rated);
      if |positions| > 0 && tfidf.Some? && exists p :: p in positions && p >= tfidf.value.rows {
        return Err(IndexError);
      }
      var cb := CbScores(tfidf, positions, |catalogue|);
      var unseen := mapping.value.movieToIdx.Keys - rated;
      var score := Scorer(model, userId);
      var cfList := PredictAll(score, unseen);
      var lo, hi := 0.0, 5.0;
      if |cfList| > 0 {
        var estimates := seq(|cfList|, i requires 0 <= i < |cfList| => cfList[i].1);
        lo := SeqMin(estimates);
        hi := SeqMax(estimates);
        ListedBounds(cfList, unseen, score, estimates, lo, hi);
      }
      var cands := unseen * Elems(catalogue);
      if exists m :: m in cands && FirstRow(catalogue, m).value >= |cb| {
        return Err(IndexError);
      }
      var hybrid := HybridScore(model, userId, lo, hi, cb, catalogue, cfWeight, cbWeight);
      var predictions := PredictAll(hybrid, cands);
      SelectTop(predictions, cands, hybrid, n);
      r := Ok(Head(SortDesc(predictions, Score), n));
    }
  }

  /** The least and greatest of the listed estimates bound every unseen movie's
      estimate and are attained. */
  lemma ListedBounds(ps: seq<Prediction>, unseen: set<string>, score: string -> real,
                     estimates: seq<real>, lo: real, hi: real)
    requires Lists(ps, unseen, score) && |ps| > 0
    requires |estimates| == |ps| && forall i :: 0 <= i < |ps| ==> estimates[i] == ps[i].1
    requires lo in estimates && hi in estimates && forall x :: x in estimates ==> lo <= x <= hi
    ensures lo <= hi && CfBounds(lo, hi, score, unseen)
  {
    assert ps[0].0 in IdSet(ps);
    var a :| 0 <= a < |estimates| && estimates[a] == lo;
    var b :| 0 <= b < |estimates| && estimates[b] == hi;
    assert ps[a].0 in IdSet(ps) && ps[b].0 in IdSet(ps);
    forall m | m in unseen
      ensures lo <= score(m) <= hi
    {
      var i :| 0 <= i < |ps| && ps[i].0 == m;
      assert estimates[i] in estimates;
    }
  }

  /** Every estimate of a candidate normalises into `[0, 1)`. */
  lemma CfNormalizedRange(lo: real, hi: real, score: string -> real, unseen: set<string>, m: string)
    requires CfBounds(lo, hi, score, unseen) && m in unseen
    ensures lo <= hi && 0.0 <= Normalized(score(m), lo, hi) < 1.0
  {
    NormalizedRange(score(m), lo, hi);
  }
}
