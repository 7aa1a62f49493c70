/** `MovieRecommender` of the Streamlit app: a truncated-SVD matrix of predicted
    ratings, item-item and content cosine similarity matrices, and the user, neighbour
    and hybrid recommendations read off them. The SVD reconstruction and the cosine
    similarities come from libraries and are parameters. */
module AppRecommender {
  import opened Wrappers
  import opened Seqs
  import opened IdIndex
  import opened Ratings
  import opened Ranking
  import opened Catalogue

  /** The caller's ratings frame: training writes its `user_idx` and `movie_idx`
      columns. */
  class RatingsTable {
    var rows: seq<Rating>
    var userIdx: Option<seq<nat>>
    var movieIdx: Option<seq<nat>>

    constructor(rows: seq<Rating>)
      ensures this.rows == rows && userIdx == None && movieIdx == None
    {
      this.rows := rows;
      userIdx := None;
      movieIdx := None;
    }

    /** `df['user_idx'] = ...` and `df['movie_idx'] = ...` with the mapping of the
        frame's own ids. */
    method AddIndexColumns()
      modifies this
      ensures rows == old(rows)
      ensures userIdx == Some(UserColumn(rows)) && movieIdx == Some(MovieColumn(rows))
    {
      userIdx := Some(UserColumn(rows));
      movieIdx := Some(MovieColumn(rows));
    }
  }

  /** `df['user_id'].map(user_to_idx)` with the mapping of the frame's own ids. */
  function UserColumn(rows: seq<Rating>): (r: seq<nat>)
    ensures |r| == |rows| && forall i :: 0 <= i < |rows| ==>
      rows[i].userId in BuildMapping(rows).userToIdx && r[i] == BuildMapping(rows).userToIdx[rows[i].userId]
  {
    var to := BuildMapping(rows).userToIdx;
    MappingCovers(rows);
    seq(|rows|, i requires 0 <= i < |rows| => to[rows[i].userId])
  }

  /** `df['movie_id'].map(movie_to_idx)` with the mapping of the frame's own ids. */
  function MovieColumn(rows: seq<Rating>): (r: seq<nat>)
    ensures |r| == |rows| && forall i :: 0 <= i < |rows| ==>
      rows[i].movieId in BuildMapping(rows).movieToIdx && r[i] == BuildMapping(rows).movieToIdx[rows[i].movieId]
  {
    var to := BuildMapping(rows).movieToIdx;
    MappingCovers(rows);
    seq(|rows|, i requires 0 <= i < |rows| => to[rows[i].movieId])
  }

  /** Every id of the frame has an index. */
  lemma MappingCovers(rows: seq<Rating>)
    ensures forall i :: 0 <= i < |rows| ==>
      rows[i].userId in BuildMapping(rows).userToIdx && rows[i].movieId in BuildMapping(rows).movieToIdx
  {
    var m := BuildMapping(rows);
    var us, ms := UserIds(rows), MovieIds(rows);
    assert m.userToIdx.Keys == Elems(us);
    assert m.movieToIdx.Keys == Elems(ms);
    forall i | 0 <= i < |rows|
      ensures rows[i].userId in m.userToIdx && rows[i].movieId in m.movieToIdx
    {
      assert us[i] in Elems(us) && ms[i] in Elems(ms);
    }
  }

  /** A stored entry of the sparse user-movie matrix: (user row, movie column,
      rating); entries at the same place add up. */
  type Triplet = (nat, nat, real)

  function Triplets(rows: seq<Rating>): (r: seq<Triplet>)
    ensures |r| == |rows| && forall i :: 0 <= i < |rows| ==> r[i] == (UserColumn(rows)[i], MovieColumn(rows)[i], rows[i].rating)
  {
    var u := UserColumn(rows);
    var m := MovieColumn(rows);
    seq(|rows|, i requires 0 <= i < |rows| => (u[i], m[i], rows[i].rating))
  }

  /** The sparse user-movie matrix: its shape (distinct users by distinct movies) and
      its stored entries. */
  datatype SparseMatrix = SparseMatrix(users: nat, movies: nat, entries: seq<Triplet>)

  function RatingMatrix(rows: seq<Rating>): (r: SparseMatrix)
    ensures r.users == |SortedIds(UserIds(rows))| && r.movies == |SortedIds(MovieIds(rows))|
    ensures |r.entries| == |rows| && forall i :: 0 <= i < |rows| ==> r.entries[i].0 < r.users && r.entries[i].1 < r.movies
  {
    MappingIsBijection(rows);
    SparseMatrix(|SortedIds(UserIds(rows))|, |SortedIds(MovieIds(rows))|, Triplets(rows))
  }

  /** `svds(..., k)` accepts only `1 <= k < min(shape)`. */
  predicate FactorsFit(k: int, users: nat, movies: nat)
  {
    1 <= k && k < users && k < movies
  }

  /** A movie id that is kept: present (a non-empty id), not rated by the user, and
      listed in the movie table. */
  predicate Eligible(m: string, rated: set<string>, listed: set<string>)
  {
    m != "" && m !in rated && m in listed
  }

  /** The rows `recommend_for_user` collects from the user's row of predictions, in
      column order. */
  function PredictedRows(row: seq<real>, idxToMovie: map<nat, string>, rated: set<string>,
                         listed: set<string>): (r: seq<Prediction>)
    ensures forall x :: x in r ==> (Eligible(x.0, rated, listed) &&
      exists j :: 0 <= j < |row| && j in idxToMovie && x == (idxToMovie[j], row[j]))
    ensures forall j :: 0 <= j < |row| && j in idxToMovie && Eligible(idxToMovie[j], rated, listed) ==>
      (idxToMovie[j], row[j]) in r
  {
    if |row| == 0 then []
    else
      var k := |row| - 1;
      var init := PredictedRows(row[..k], idxToMovie, rated, listed);
      assert forall j :: 0 <= j < k ==> row[..k][j] == row[j];
      init + (if k in idxToMovie && Eligible(idxToMovie[k], rated, listed) then [(idxToMovie[k], row[k])] else [])
  }

  /** The loop of `recommend_for_user` over the user's row of predictions. */
  method CollectPredicted(row: seq<real>, idxToMovie: map<nat, string>, rated: set<string>, listed: set<string>)
    returns (rows: seq<Prediction>)
    ensures rows == PredictedRows(row, idxToMovie, rated, listed)
  {
    rows := [];
    var j := 0;
    while j < |row|
      invariant 0 <= j <= |row|
      invariant rows == PredictedRows(row[..j], idxToMovie, rated, listed)
    {
      assert row[..j + 1][..j] == row[..j];
      if j in idxToMovie && Eligible(idxToMovie[j], rated, listed) {
        rows := rows + [(idxToMovie[j], row[j])];
      }
      j := j + 1;
    }
    assert row[..j] == row;
  }

  /** `recommend_for_user`, before the frame is built. */
  function RecommendOf(mapping: Option<IdMapping>, predicted: Option<seq<seq<real>>>, userId: string,
                       catalogue: seq<string>, ratings: seq<Rating>, n: int): Result<seq<Prediction>>
  {
    if mapping.None? then Err(TypeError)
    else if userId !in mapping.value.userToIdx then Ok([])
    else if predicted.None? then Err(TypeError)
    else
      var u := mapping.value.userToIdx[userId];
      if u >= |predicted.value| then Err(IndexError)
      else
        var rows := PredictedRows(predicted.value[u], mapping.value.idxToMovie, RatedBy(ratings, userId), Elems(catalogue));
        Ok(Head(SortDesc(rows, Score), n))
  }

  /** The user's recommendations are eligible movies with their predicted rating, in
      non-increasing prediction, and no eligible column left out is predicted above one
      kept. */
  lemma RecommendSpec(mapping: IdMapping, predicted: seq<seq<real>>, userId: string,
                      catalogue: seq<string>, ratings: seq<Rating>, n: int)
    requires userId in mapping.userToIdx && mapping.userToIdx[userId] < |predicted|
    ensures var row := predicted[mapping.userToIdx[userId]];
      var rated := RatedBy(ratings, userId);
      var r := RecommendOf(Some(mapping), Some(predicted), userId, catalogue, ratings, n);
      r.Ok? && NonIncreasing(r.value, Score) && (n >= 0 ==> |r.value| <= n) &&
      (forall x :: x in r.value ==> (Eligible(x.0, rated, Elems(catalogue)) &&
        exists j :: 0 <= j < |row| && j in mapping.idxToMovie && x == (mapping.idxToMovie[j], row[j]))) &&
      (forall j :: (0 <= j < |row| && j in mapping.idxToMovie && Eligible(mapping.idxToMovie[j], rated, Elems(catalogue)) &&
        (mapping.idxToMovie[j], row[j]) !in r.value) ==>
        forall i :: 0 <= i < |r.value| ==> r.value[i].1 >= row[j])
    ensures var row := predicted[mapping.userToIdx[userId]];
      var r := RecommendOf(Some(mapping), Some(predicted), userId, catalogue, ratings, n);
      n >= 0 && |r.value| < n ==> forall j :: (0 <= j < |row| && j in mapping.idxToMovie &&
        Eligible(mapping.idxToMovie[j], RatedBy(ratings, userId), Elems(catalogue))) ==>
        (mapping.idxToMovie[j], row[j]) in r.value
  {
    var row := predicted[mapping.userToIdx[userId]];
    var rows := PredictedRows(row, mapping.idxToMovie, RatedBy(ratings, userId), Elems(catalogue));
    TopRows(rows, Score, n);
    TopRowsIn(rows, Score, n);
    if n >= 0 {
      TopRowsAll(rows, Score, n);
    }
  }

  /** Whether item index `c` is named by a non-empty id that the movie table lists. */
  predicate Listed(c: nat, idxToMovie: map<nat, string>, catalogue: seq<string>)
  {
    c in idxToMovie && idxToMovie[c] != "" && idxToMovie[c] in catalogue
  }

  /** The result rows of `find_similar_movies` on the collaborative path: each item
      index named by a non-empty id becomes the movie's first table row; an id the
      table lacks is an `IndexError` (`.iloc[0]` of an empty selection). */
  function ItemRows(top: seq<Neighbour>, idxToMovie: map<nat, string>, catalogue: seq<string>): (r: Result<seq<Neighbour>>)
    ensures r.Err? <==> exists i :: (0 <= i < |top| && top[i].0 in idxToMovie && idxToMovie[top[i].0] != "" &&
      idxToMovie[top[i].0] !in catalogue)
    ensures r.Ok? ==> (|r.value| <= |top| &&
      forall x :: x in r.value ==> x.0 < |catalogue| && exists i :: 0 <= i < |top| && x.1 == top[i].1)
  {
    if |top| == 0 then Ok([])
    else
      var k := |top| - 1;
      var init := ItemRows(top[..k], idxToMovie, catalogue);
      assert forall i :: 0 <= i < k ==> top[..k][i] == top[i];
      if init.Err? then init
      else if top[k].0 !in idxToMovie || idxToMovie[top[k].0] == "" then init
      else
        var m := idxToMovie[top[k].0];
        if m !in catalogue then Err(IndexError)
        else Ok(init.value + [(FirstRow(catalogue, m).value, top[k].1)])
  }

  /** The row a listed item gives: its movie's first table row and the item's own
      similarity. */
  function ItemRow(x: Neighbour, idxToMovie: map<nat, string>, catalogue: seq<string>): Neighbour
    requires Listed(x.0, idxToMovie, catalogue)
  {
    (FirstRow(catalogue, idxToMovie[x.0]).value, x.1)
  }

  /** One step of `ItemRows`: a listed item appends its row, any other item is
      skipped. */
  lemma ItemRowsSnoc(top: seq<Neighbour>, idxToMovie: map<nat, string>, catalogue: seq<string>)
    requires |top| > 0 && ItemRows(top, idxToMovie, catalogue).Ok?
    ensures ItemRows(top[..|top| - 1], idxToMovie, catalogue).Ok?
    ensures var init := ItemRows(top[..|top| - 1], idxToMovie, catalogue).value;
      var last := top[|top| - 1];
      ItemRows(top, idxToMovie, catalogue).value ==
        if Listed(last.0, idxToMovie, catalogue) then init + [ItemRow(last, idxToMovie, catalogue)] else init
  {
  }

  /** Each result row is the row of a listed item: its movie's first table row with
      that item's own similarity. */
  lemma {:induction false} ItemRowsSound(top: seq<Neighbour>, idxToMovie: map<nat, string>, catalogue: seq<string>)
    requires ItemRows(top, idxToMovie, catalogue).Ok?
    ensures forall x :: x in ItemRows(top, idxToMovie, catalogue).value ==>
      exists i :: 0 <= i < |top| && Listed(top[i].0, idxToMovie, catalogue) && x == ItemRow(top[i], idxToMovie, catalogue)
    decreases |top|
  {
    if |top| > 0 {
      var k := |top| - 1;
      var pre := top[..k];
      ItemRowsSnoc(top, idxToMovie, catalogue);
      ItemRowsSound(pre, idxToMovie, catalogue);
      forall x | x in ItemRows(pre, idxToMovie, catalogue).value
        ensures exists i :: 0 <= i < |top| && Listed(top[i].0, idxToMovie, catalogue) && x == ItemRow(top[i], idxToMovie, catalogue)
      {
        var i :| 0 <= i < |pre| && Listed(pre[i].0, idxToMovie, catalogue) && x == ItemRow(pre[i], idxToMovie, catalogue);
        assert pre[i] == top[i];
      }
    }
  }

  /** Every listed item gives its row. */
  lemma {:induction false} ItemRowsComplete(top: seq<Neighbour>, idxToMovie: map<nat, string>, catalogue: seq<string>)
    requires ItemRows(top, idxToMovie, catalogue).Ok?
    ensures forall i :: 0 <= i < |top| && Listed(top[i].0, idxToMovie, catalogue) ==>
      ItemRow(top[i], idxToMovie, catalogue) in ItemRows(top, idxToMovie, catalogue).value
    decreases |top|
  {
    if |top| > 0 {
      var k := |top| - 1;
      var pre := top[..k];
      ItemRowsSnoc(top, idxToMovie, catalogue);
      ItemRowsComplete(pre, idxToMovie, catalogue);
      CompleteStep(top, pre, ItemRows(pre, idxToMovie, catalogue).value, ItemRows(top, idxToMovie, catalogue).value,
        idxToMovie, catalogue);
    }
  }

  lemma CompleteStep(top: seq<Neighbour>, pre: seq<Neighbour>, init: seq<Neighbour>, out: seq<Neighbour>,
                     idxToMovie: map<nat, string>, catalogue: seq<string>)
    requires |top| > 0 && pre == top[..|top| - 1]
    requires forall i :: 0 <= i < |pre| && Listed(pre[i].0, idxToMovie, catalogue) ==>
      ItemRow(pre[i], idxToMovie, catalogue) in init
    requires out == if Listed(top[|top| - 1].0, idxToMovie, catalogue)
      then init + [ItemRow(top[|top| - 1], idxToMovie, catalogue)] else init
    ensures forall i :: 0 <= i < |top| && Listed(top[i].0, idxToMovie, catalogue) ==>
      ItemRow(top[i], idxToMovie, catalogue) in out
  {
    var k := |top| - 1;
    forall i | 0 <= i < |top| && Listed(top[i].0, idxToMovie, catalogue)
      ensures ItemRow(top[i], idxToMovie, catalogue) in out
    {
      if i < k {
        assert pre[i] == top[i];
      }
    }
  }

  /** Dropping unnamed items and renaming the rest keeps the similarities in order. */
  lemma {:induction false} ItemRowsOrder(top: seq<Neighbour>, idxToMovie: map<nat, string>, catalogue: seq<string>)
    requires NonIncreasing(top, Similarity)
    requires ItemRows(top, idxToMovie, catalogue).Ok?
    ensures NonIncreasing(ItemRows(top, idxToMovie, catalogue).value, Similarity)
    ensures forall x :: x in ItemRows(top, idxToMovie, catalogue).value ==>
      exists i :: 0 <= i < |top| && x.1 == top[i].1
    decreases |top|
  {
    if |top| > 0 {
      var k := |top| - 1;
      var pre := top[..k];
      assert forall i :: 0 <= i < k ==> pre[i] == top[i];
      assert NonIncreasing(pre, Similarity);
      ItemRowsOrder(pre, idxToMovie, catalogue);
      var init := ItemRows(pre, idxToMovie, catalogue).value;
      forall x | x in init
        ensures x.1 >= top[k].1
      {
        var i :| 0 <= i < k && x.1 == pre[i].1;
      }
    }
  }

  /** When every item index of the row names a movie, the collaborative neighbours are
      the first `n` ranked items after the top one, or all of them when fewer exist. */
  lemma CollaborativeLength(sims: seq<real>, idxToMovie: map<nat, string>, catalogue: seq<string>, n: int)
    requires n >= 0 && forall j: nat :: j < |sims| ==> j in idxToMovie && idxToMovie[j] != ""
    requires ItemRows(SkipTop(Enumerate(sims), Similarity, n), idxToMovie, catalogue).Ok?
    ensures |ItemRows(SkipTop(Enumerate(sims), Similarity, n), idxToMovie, catalogue).value| ==
      (if |sims| == 0 then 0 else if n < |sims| - 1 then n else |sims| - 1)
  {
    var top := SkipTop(Enumerate(sims), Similarity, n);
    SkipTopSpec(Enumerate(sims), Similarity, n);
    SkipTopMembers(Enumerate(sims), Similarity, n);
    forall i | 0 <= i < |top|
      ensures top[i].0 in idxToMovie && idxToMovie[top[i].0] != ""
    {
      assert top[i] in top;
      assert top[i] in Enumerate(sims);
    }
    ItemRowsNamedLength(top, idxToMovie, catalogue);
  }

  /** When every ranked item index names a movie, each one gives a result row. */
  lemma {:induction false} ItemRowsNamedLength(top: seq<Neighbour>, idxToMovie: map<nat, string>, catalogue: seq<string>)
    requires forall i :: 0 <= i < |top| ==> top[i].0 in idxToMovie && idxToMovie[top[i].0] != ""
    requires ItemRows(top, idxToMovie, catalogue).Ok?
    ensures |ItemRows(top, idxToMovie, catalogue).value| == |top|
    decreases |top|
  {
    if |top| > 0 {
      var k := |top| - 1;
      var pre := top[..k];
      assert forall i :: 0 <= i < k ==> pre[i] == top[i];
      ItemRowsNamedLength(pre, idxToMovie, catalogue);
      var m := idxToMovie[top[k].0];
      assert ItemRows(top, idxToMovie, catalogue) ==
        Ok(ItemRows(pre, idxToMovie, catalogue).value + [(FirstRow(catalogue, m).value, top[k].1)]);
    }
  }

  /** `find_similar_movies`, as (movie-table row, similarity) pairs. */
  function SimilarOf(mapping: Option<IdMapping>, itemSim: Option<seq<seq<real>>>, contentSim: Option<seq<seq<real>>>,
                     catalogue: seq<string>, movieId: string, n: int, methodName: string): Result<seq<Neighbour>>
  {
    if movieId !in catalogue then Ok([])
    else
      var row := FirstRow(catalogue, movieId).value;
      if methodName == "content" && contentSim.Some? then
        if row >= |contentSim.value| then Err(IndexError)
        else
          var top := SkipTop(Enumerate(contentSim.value[row]), Similarity, n);
          if exists i :: 0 <= i < |top| && top[i].0 >= |catalogue| then Err(IndexError)
          else Ok(top)
      else if methodName == "collaborative" && itemSim.Some? then
        if mapping.None? then Err(AttributeError)
        else if movieId !in mapping.value.movieToIdx then Ok([])
        else
          var idx := mapping.value.movieToIdx[movieId];
          if idx >= |itemSim.value| then Err(IndexError)
          else ItemRows(SkipTop(Enumerate(itemSim.value[idx]), Similarity, n), mapping.value.idxToMovie, catalogue)
      else Ok([])
  }

  /** The collaborative neighbours are table rows in non-increasing similarity, no more
      than `n`. Each is the first row of a listed item's movie with that item's own
      similarity, and a listed item left out (other than the top-ranked one) scores no
      higher than any neighbour. */
  lemma CollaborativeSpec(mapping: IdMapping, itemSim: seq<seq<real>>, contentSim: Option<seq<seq<real>>>,
                          catalogue: seq<string>, movieId: string, n: int)
    requires movieId in catalogue && movieId in mapping.movieToIdx && mapping.movieToIdx[movieId] < |itemSim|
    ensures var sims := itemSim[mapping.movieToIdx[movieId]];
      var r := SimilarOf(Some(mapping), Some(itemSim), contentSim, catalogue, movieId, n, "collaborative");
      r.Ok? ==> (NonIncreasing(r.value, Similarity) && (n >= 0 ==> |r.value| <= n) &&
        forall x :: x in r.value ==> x.0 < |catalogue| && exists j: nat :: (j < |sims| &&
          Listed(j, mapping.idxToMovie, catalogue) && x == ItemRow((j, sims[j]), mapping.idxToMovie, catalogue)))
    ensures var sims := itemSim[mapping.movieToIdx[movieId]];
      var r := SimilarOf(Some(mapping), Some(itemSim), contentSim, catalogue, movieId, n, "collaborative");
      r.Ok? ==> forall j: nat :: (j < |sims| && Listed(j, mapping.idxToMovie, catalogue) &&
        (j, sims[j]) != SortDesc(Enumerate(sims), Similarity)[0] &&
        ItemRow((j, sims[j]), mapping.idxToMovie, catalogue) !in r.value) ==>
        forall i :: 0 <= i < |r.value| ==> r.value[i].1 >= sims[j]
    ensures var sims := itemSim[mapping.movieToIdx[movieId]];
      var r := SimilarOf(Some(mapping), Some(itemSim), contentSim, catalogue, movieId, n, "collaborative");
      (r.Ok? && n >= 0 && forall j: nat :: j < |sims| ==> j in mapping.idxToMovie && mapping.idxToMovie[j] != "") ==>
        |r.value| == (if |sims| == 0 then 0 else if n < |sims| - 1 then n else |sims| - 1)
  {
    var sims := itemSim[mapping.movieToIdx[movieId]];
    CollaborativeRoute(mapping, itemSim, contentSim, catalogue, movieId, n);
    CollaborativeRows(sims, mapping.idxToMovie, catalogue, n);
    if ItemRows(SkipTop(Enumerate(sims), Similarity, n), mapping.idxToMovie, catalogue).Ok? {
      CollaborativeDominance(sims, mapping.idxToMovie, catalogue, n);
    }
    if n >= 0 && ItemRows(SkipTop(Enumerate(sims), Similarity, n), mapping.idxToMovie, catalogue).Ok? &&
       forall j: nat :: j < |sims| ==> j in mapping.idxToMovie && mapping.idxToMovie[j] != "" {
      CollaborativeLength(sims, mapping.idxToMovie, catalogue, n);
    }
  }

  /** On the collaborative path a known movie's neighbours are the named rows of its
      ranked item row. */
  lemma CollaborativeRoute(mapping: IdMapping, itemSim: seq<seq<real>>, contentSim: Option<seq<seq<real>>>,
                           catalogue: seq<string>, movieId: string, n: int)
    requires movieId in catalogue && movieId in mapping.movieToIdx && mapping.movieToIdx[movieId] < |itemSim|
    ensures SimilarOf(Some(mapping), Some(itemSim), contentSim, catalogue, movieId, n, "collaborative") ==
      ItemRows(SkipTop(Enumerate(itemSim[mapping.movieToIdx[movieId]]), Similarity, n), mapping.idxToMovie, catalogue)
  {
  }

  /** The named rows of a ranked item row are in non-increasing similarity, no more than
      `n`, each the first table row of a listed item's movie with that item's own
      similarity. */
  lemma CollaborativeRows(sims: seq<real>, idxToMovie: map<nat, string>, catalogue: seq<string>, n: int)
    ensures var r := ItemRows(SkipTop(Enumerate(sims), Similarity, n), idxToMovie, catalogue);
      r.Ok? ==> (NonIncreasing(r.value, Similarity) && (n >= 0 ==> |r.value| <= n) &&
        forall x :: x in r.value ==> x.0 < |catalogue| && exists j: nat :: (j < |sims| &&
          Listed(j, idxToMovie, catalogue) && x == ItemRow((j, sims[j]), idxToMovie, catalogue)))
  {
    var top := SkipTop(Enumerate(sims), Similarity, n);
    SkipTopSpec(Enumerate(sims), Similarity, n);
    if ItemRows(top, idxToMovie, catalogue).Ok? {
      ItemRowsOrder(top, idxToMovie, catalogue);
      CollaborativePaired(sims, idxToMovie, catalogue, n);
    }
  }

  /** Each neighbour is the first table row of a listed item `j`'s movie, carrying the
      row's own similarity `sims[j]`. */
  lemma CollaborativePaired(sims: seq<real>, idxToMovie: map<nat, string>, catalogue: seq<string>, n: int)
    requires ItemRows(SkipTop(Enumerate(sims), Similarity, n), idxToMovie, catalogue).Ok?
    ensures forall x :: x in ItemRows(SkipTop(Enumerate(sims), Similarity, n), idxToMovie, catalogue).value ==>
      exists j: nat :: j < |sims| && Listed(j, idxToMovie, catalogue) && x == ItemRow((j, sims[j]), idxToMovie, catalogue)
  {
    var top := SkipTop(Enumerate(sims), Similarity, n);
    SkipTopMembers(Enumerate(sims), Similarity, n);
    ItemRowsSound(top, idxToMovie, catalogue);
    forall x | x in ItemRows(top, idxToMovie, catalogue).value
      ensures exists j: nat :: j < |sims| && Listed(j, idxToMovie, catalogue) && x == ItemRow((j, sims[j]), idxToMovie, catalogue)
    {
      var i :| 0 <= i < |top| && Listed(top[i].0, idxToMovie, catalogue) && x == ItemRow(top[i], idxToMovie, catalogue);
      assert top[i] in Enumerate(sims);
      var p :| 0 <= p < |sims| && Enumerate(sims)[p] == top[i];
      assert top[i] == (p, sims[p]);
    }
  }

  /** A listed item other than the top-ranked one whose row is not among the neighbours
      has a similarity no higher than any neighbour's. */
  lemma CollaborativeDominance(sims: seq<real>, idxToMovie: map<nat, string>, catalogue: seq<string>, n: int)
    requires ItemRows(SkipTop(Enumerate(sims), Similarity, n), idxToMovie, catalogue).Ok?
    ensures var r := ItemRows(SkipTop(Enumerate(sims), Similarity, n), idxToMovie, catalogue).value;
      forall j: nat :: (j < |sims| && Listed(j, idxToMovie, catalogue) &&
        (j, sims[j]) != SortDesc(Enumerate(sims), Similarity)[0] && ItemRow((j, sims[j]), idxToMovie, catalogue) !in r) ==>
        forall i :: 0 <= i < |r| ==> r[i].1 >= sims[j]
  {
    var top := SkipTop(Enumerate(sims), Similarity, n);
    var r := ItemRows(top, idxToMovie, catalogue).value;
    SkipTopDominates(Enumerate(sims), Similarity, n);
    ItemRowsSound(top, idxToMovie, catalogue);
    ItemRowsComplete(top, idxToMovie, catalogue);
    forall j: nat, i | j < |sims| && Listed(j, idxToMovie, catalogue) &&
        (j, sims[j]) != SortDesc(Enumerate(sims), Similarity)[0] && ItemRow((j, sims[j]), idxToMovie, catalogue) !in r &&
        0 <= i < |r|
      ensures r[i].1 >= sims[j]
    {
      assert Enumerate(sims)[j] == (j, sims[j]);
      assert forall q :: 0 <= q < |top| ==> top[q] != (j, sims[j]);
      assert (j, sims[j]) !in top;
      assert r[i] in r;
      var q :| 0 <= q < |top| && Listed(top[q].0, idxToMovie, catalogue) && r[i] == ItemRow(top[q], idxToMovie, catalogue);
    }
  }

  /** `cb_scores += sim_scores` with numpy broadcasting: equal lengths add entrywise, a
      single value adds to every entry, anything else is a `ValueError`. */
  function AddRow(cb: seq<real>, row: seq<real>): (r: Result<seq<real>>)
    ensures r.Err? <==> |row| != |cb| && |row| != 1
    ensures r.Ok? ==> (|r.value| == |cb| &&
      forall i :: 0 <= i < |cb| ==> r.value[i] == cb[i] + (if |row| == |cb| then row[i] else row[0]))
  {
    if |row| == |cb| then Ok(seq(|cb|, i requires 0 <= i < |cb| => cb[i] + row[i]))
    else if |row| == 1 then Ok(seq(|cb|, i requires 0 <= i < |cb| => cb[i] + row[0]))
    else Err(ValueError)
  }

  /** A row of the user rated at least 4.0. */
  predicate IsHighRated(x: Rating, userId: string)
  {
    x.userId == userId && x.rating >= 4.0
  }

  /** The content-score accumulation of `hybrid_recommend` over the user's high-rated
      rows: each such movie found in the table adds its first row's content similarity
      row (when the content model exists). */
  function CbSum(ratings: seq<Rating>, userId: string, catalogue: seq<string>,
                 contentSim: Option<seq<seq<real>>>): (r: Result<seq<real>>)
    ensures r.Ok? ==> |r.value| == |catalogue|
    ensures contentSim.None? ==> r == Ok(seq(|catalogue|, i => 0.0))
  {
    if |ratings| == 0 then Ok(seq(|catalogue|, i => 0.0))
    else
      var k := |ratings| - 1;
      var init := CbSum(ratings[..k], userId, catalogue, contentSim);
      if init.Err? then init
      else if !IsHighRated(ratings[k], userId) || ratings[k].movieId !in catalogue || contentSim.None? then init
      else
        var row := FirstRow(catalogue, ratings[k].movieId).value;
        if row >= |contentSim.value| then Err(IndexError)
        else AddRow(init.value, contentSim.value[row])
  }

  /** `cb_scores / cb_scores.max() * 5` when the maximum is positive. */
  function Rescaled(cb: seq<real>): (r: Result<seq<real>>)
    ensures r.Err? <==> |cb| == 0
    ensures r.Err? ==> r.error == ValueError
    ensures r.Ok? ==> |r.value| == |cb|
  {
    if |cb| == 0 then Err(ValueError)
    else
      var top := SeqMax(cb);
      if top > 0.0 then Ok(seq(|cb|, i requires 0 <= i < |cb| => cb[i] / top * 5.0)) else Ok(cb)
  }

  /** After rescaling, a positive maximum becomes exactly 5 and nothing exceeds it. */
  lemma RescaledMax(cb: seq<real>)
    requires |cb| > 0 && SeqMax(cb) > 0.0
    ensures var r := Rescaled(cb).value;
      (forall i :: 0 <= i < |r| ==> r[i] <= 5.0) && exists i :: 0 <= i < |r| && r[i] == 5.0
  {
    var top := SeqMax(cb);
    var r := Rescaled(cb).value;
    forall i | 0 <= i < |r|
      ensures r[i] <= 5.0
    {
      assert cb[i] in cb;
      Scaled(cb[i], top);
    }
    var k :| 0 <= k < |cb| && cb[k] == top;
    assert r[k] == top / top * 5.0;
    ScaledTop(top);
    assert r[k] == 5.0;
  }

  lemma ScaledTop(top: real)
    requires top > 0.0
    ensures top / top * 5.0 == 5.0
  {
    assert top / top == 1.0;
  }

  lemma Scaled(x: real, top: real)
    requires 0.0 < top && x <= top
    ensures x / top * 5.0 <= 5.0
  {
    assert x / top <= 1.0;
  }

  /** `cf_scores[movie_to_idx[m]]` when that column exists, 0 otherwise. */
  function CfAt(cf: seq<real>, movieToIdx: map<string, nat>, m: string): real
  {
    if m in movieToIdx && movieToIdx[m] < |cf| then cf[movieToIdx[m]] else 0.0
  }

  /** The weighted score of table row `p`. */
  function Weighted(catalogue: seq<string>, movieToIdx: map<string, nat>, cf: seq<real>, cb: seq<real>,
                    cfWeight: real, cbWeight: real, p: nat): real
    requires p < |catalogue| && p < |cb|
  {
    cfWeight * CfAt(cf, movieToIdx, catalogue[p]) + cbWeight * cb[p]
  }

  /** The weighted rows of `hybrid_recommend` among the first `k` table rows: every row
      whose movie the user has not rated, in table order. */
  function HybridRows(catalogue: seq<string>, rated: set<string>, movieToIdx: map<string, nat>,
                      cf: seq<real>, cb: seq<real>, cfWeight: real, cbWeight: real, k: nat): (r: seq<Prediction>)
    requires k <= |catalogue| == |cb|
    ensures forall x :: x in r ==> (x.0 !in rated && exists p :: (0 <= p < k && catalogue[p] == x.0 &&
      x.1 == Weighted(catalogue, movieToIdx, cf, cb, cfWeight, cbWeight, p)))
    ensures forall p :: 0 <= p < k && catalogue[p] !in rated ==>
      (catalogue[p], Weighted(catalogue, movieToIdx, cf, cb, cfWeight, cbWeight, p)) in r
  {
    if k == 0 then []
    else
      var init := HybridRows(catalogue, rated, movieToIdx, cf, cb, cfWeight, cbWeight, k - 1);
      init + HybridRow(catalogue, rated, movieToIdx, cf, cb, cfWeight, cbWeight, k - 1)
  }

  /** What table row `p` adds to the weighted rows: its weighted score, unless the user rated it. */
  function HybridRow(catalogue: seq<string>, rated: set<string>, movieToIdx: map<string, nat>,
                     cf: seq<real>, cb: seq<real>, cfWeight: real, cbWeight: real, p: nat): seq<Prediction>
    requires p < |catalogue| == |cb|
  {
    if catalogue[p] !in rated then [(catalogue[p], Weighted(catalogue, movieToIdx, cf, cb, cfWeight, cbWeight, p))] else []
  }

  /** `hybrid_recommend`, before the frame is built. */
  function HybridOf(mapping: Option<IdMapping>, predicted: Option<seq<seq<real>>>, contentSim: Option<seq<seq<real>>>,
                    userId: string, catalogue: seq<string>, ratings: seq<Rating>, n: int,
                    cfWeight: real, cbWeight: real): Result<seq<Prediction>>
  {
    if mapping.None? then Err(TypeError)
    else if userId !in mapping.value.userToIdx then Ok([])
    else if predicted.None? then Err(TypeError)
    else
      var u := mapping.value.userToIdx[userId];
      if u >= |predicted.value| then Err(IndexError)
      else
        var sum := CbSum(ratings, userId, catalogue, contentSim);
        if sum.Err? then Err(sum.error)
        else
          var cb := Rescaled(sum.value);
          if cb.Err? then Err(cb.error)
          else
            var rows := HybridRows(catalogue, RatedBy(ratings, userId), mapping.value.movieToIdx,
              predicted.value[u], cb.value, cfWeight, cbWeight, |catalogue|);
            Ok(Head(SortDesc(rows, Score), n))
  }

  /** The hybrid recommendations are unrated table movies with their weighted score,
      in non-increasing score, and no unrated table row left out scores above one kept. */
  lemma HybridSpec(mapping: IdMapping, predicted: seq<seq<real>>, contentSim: Option<seq<seq<real>>>,
                   userId: string, catalogue: seq<string>, ratings: seq<Rating>, n: int,
                   cfWeight: real, cbWeight: real)
    requires userId in mapping.userToIdx && mapping.userToIdx[userId] < |predicted|
    requires CbSum(ratings, userId, catalogue, contentSim).Ok? && |catalogue| > 0
    ensures var cf := predicted[mapping.userToIdx[userId]];
      var cb := Rescaled(CbSum(ratings, userId, catalogue, contentSim).value).value;
      var rated := RatedBy(ratings, userId);
      var r := HybridOf(Some(mapping), Some(predicted), contentSim, userId, catalogue, ratings, n, cfWeight, cbWeight);
      r.Ok? && NonIncreasing(r.value, Score) && (n >= 0 ==> |r.value| <= n) &&
      (forall x :: x in r.value ==> (x.0 !in rated && exists p :: (0 <= p < |catalogue| && catalogue[p] == x.0 &&
        x.1 == Weighted(catalogue, mapping.movieToIdx, cf, cb, cfWeight, cbWeight, p)))) &&
      (forall p :: (0 <= p < |catalogue| && catalogue[p] !in rated &&
        (catalogue[p], Weighted(catalogue, mapping.movieToIdx, cf, cb, cfWeight, cbWeight, p)) !in r.value) ==>
        forall i :: 0 <= i < |r.value| ==> r.value[i].1 >= Weighted(catalogue, mapping.movieToIdx, cf, cb, cfWeight, cbWeight, p))
    ensures var cf := predicted[mapping.userToIdx[userId]];
      var cb := Rescaled(CbSum(ratings, userId, catalogue, contentSim).value).value;
      var r := HybridOf(Some(mapping), Some(predicted), contentSim, userId, catalogue, ratings, n, cfWeight, cbWeight);
      n >= 0 && |r.value| < n ==> forall p :: 0 <= p < |catalogue| && catalogue[p] !in RatedBy(ratings, userId) ==>
        (catalogue[p], Weighted(catalogue, mapping.movieToIdx, cf, cb, cfWeight, cbWeight, p)) in r.value
  {
    var cf := predicted[mapping.userToIdx[userId]];
    var cb := Rescaled(CbSum(ratings, userId, catalogue, contentSim).value).value;
    var rows := HybridRows(catalogue, RatedBy(ratings, userId), mapping.movieToIdx, cf, cb, cfWeight, cbWeight, |catalogue|);
    HybridValue(mapping, predicted, contentSim, userId, catalogue, ratings, n, cfWeight, cbWeight);
    TopRows(rows, Score, n);
    TopRowsIn(rows, Score, n);
    if n >= 0 {
      TopRowsAll(rows, Score, n);
    }
  }

  /** With a content sum and a non-empty table, `hybrid_recommend` succeeds with the
      first `n` weighted rows by score. */
  lemma HybridValue(mapping: IdMapping, predicted: seq<seq<real>>, contentSim: Option<seq<seq<real>>>,
                    userId: string, catalogue: seq<string>, ratings: seq<Rating>, n: int,
                    cfWeight: real, cbWeight: real)
    requires userId in mapping.userToIdx && mapping.userToIdx[userId] < |predicted|
    requires CbSum(ratings, userId, catalogue, contentSim).Ok? && |catalogue| > 0
    ensures Rescaled(CbSum(ratings, userId, catalogue, contentSim).value).Ok?
    ensures var cf := predicted[mapping.userToIdx[userId]];
      var cb := Rescaled(CbSum(ratings, userId, catalogue, contentSim).value).value;
      var rows := HybridRows(catalogue, RatedBy(ratings, userId), mapping.movieToIdx, cf, cb, cfWeight, cbWeight, |catalogue|);
      HybridOf(Some(mapping), Some(predicted), contentSim, userId, catalogue, ratings, n, cfWeight, cbWeight) ==
        Ok(Head(SortDesc(rows, Score), n))
  {
  }

  /** `MovieRecommender`: the sparse user-movie matrix, the SVD predictions, the two
      similarity matrices and the id mapping. */
  class MovieRecommender {
    var userMovieMatrix: Option<SparseMatrix>
    var predicted: Option<seq<seq<real>>>
    var itemSimilarity: Option<seq<seq<real>>>
    var contentSimilarity: Option<seq<seq<real>>>
    var mapping: Option<IdMapping>

    constructor()
      ensures userMovieMatrix == None && predicted == None && itemSimilarity == None &&
        contentSimilarity == None && mapping == None
    {
      userMovieMatrix := None;
      predicted := None;
      itemSimilarity := None;
      contentSimilarity := None;
      mapping := None;
    }

    /** `train_collaborative_filtering`: the mapping of the sorted distinct ids, the two
        index columns written into the caller's frame, the sparse matrix of its rows,
        and then the SVD reconstruction `reconstructed` (of rank `nFactors`), which
        `svds` refuses with a `ValueError` unless `1 <= nFactors < min(users, movies)`,
        counting distinct ids. */
    method TrainCollaborativeFiltering(table: RatingsTable, nFactors: int, reconstructed: seq<seq<real>>)
      returns (r: Result<bool>)
      modifies this, table
      ensures table.rows == old(table.rows)
      ensures table.userIdx == Some(UserColumn(table.rows)) && table.movieIdx == Some(MovieColumn(table.rows))
      ensures mapping == Some(BuildMapping(table.rows)) && userMovieMatrix == Some(RatingMatrix(table.rows))
      ensures r.Err? <==> !FactorsFit(nFactors, |SortedIds(UserIds(table.rows))|, |SortedIds(MovieIds(table.rows))|)
      ensures r.Err? ==> r.error == ValueError && predicted == old(predicted)
      ensures r.Ok? ==> r.value && predicted == Some(reconstructed)
      ensures itemSimilarity == old(itemSimilarity) && contentSimilarity == old(contentSimilarity)
    {
      var rows := table.rows;
      table.AddIndexColumns();
      mapping := Some(BuildMapping(rows));
      userMovieMatrix := Some(RatingMatrix(rows));
      if !FactorsFit(nFactors, |SortedIds(UserIds(rows))|, |SortedIds(MovieIds(rows))|) {
        return Err(ValueError);
      }
      predicted := Some(reconstructed);
      r := Ok(true);
    }

    /** `train_item_based`: a `ValueError` before the collaborative model, otherwise the
        item-item cosine similarities. */
    method TrainItemBased(similarity: seq<seq<real>>) returns (r: Result<bool>)
      modifies this
      ensures r.Err? <==> old(userMovieMatrix).None?
      ensures r.Err? ==> r.error == ValueError && itemSimilarity == old(itemSimilarity)
      ensures r.Ok? ==> r.value && itemSimilarity == Some(similarity)
      ensures userMovieMatrix == old(userMovieMatrix) && predicted == old(predicted) &&
        contentSimilarity == old(contentSimilarity) && mapping == old(mapping)
    {
      if userMovieMatrix.None? {
        return Err(ValueError);
      }
      itemSimilarity := Some(similarity);
      r := Ok(true);
    }

    /** `train_content_based`: the TF-IDF cosine similarities of the movie table. */
    method TrainContentBased(similarity: seq<seq<real>>)
      modifies this
      ensures contentSimilarity == Some(similarity)
      ensures userMovieMatrix == old(userMovieMatrix) && predicted == old(predicted) &&
        itemSimilarity == old(itemSimilarity) && mapping == old(mapping)
    {
      contentSimilarity := Some(similarity);
    }

    /** `recommend_for_user`; see `RecommendSpec`. */
    method RecommendForUser(userId: string, catalogue: seq<string>, ratings: seq<Rating>, n: int)
      returns (r: Result<seq<Prediction>>)
      ensures r == RecommendOf(mapping, predicted, userId, catalogue, ratings, n)
    {
      if mapping.None? {
        return Err(TypeError);
      }
      var m := mapping.value;
      if userId !in m.userToIdx {
        return Ok([]);
      }
      if predicted.None? {
        return Err(TypeError);
      }
      var u := m.userToIdx[userId];
      if u >= |predicted.value| {
        return Err(IndexError);
      }
      var row := predicted.value[u];
      var rated := RatedBy(ratings, userId);
      var listed := Elems(catalogue);
      var rows := CollectPredicted(row, m.idxToMovie, rated, listed);
      r := Ok(Head(SortDesc(rows, Score), n));
    }

    /** `find_similar_movies`; see `EnumeratedNeighbours`, `SkipTopDropsQuery` and
        `CollaborativeSpec`. */
    method FindSimilarMovies(movieId: string, catalogue: seq<string>, n: int, methodName: string)
      returns (r: Result<seq<Neighbour>>)
      ensures r == SimilarOf(mapping, itemSimilarity, contentSimilarity, catalogue, movieId, n, methodName)
    {
      if movieId !in catalogue {
        return Ok([]);
      }
      var row := FirstRow(catalogue, movieId).value;
      if methodName == "content" && contentSimilarity.Some? {
        if row >= |contentSimilarity.value| {
          return Err(IndexError);
        }
        var top := SkipTop(Enumerate(contentSimilarity.value[row]), Similarity, n);
        if exists i :: 0 <= i < |top| && top[i].0 >= |catalogue| {
          return Err(IndexError);
        }
        return Ok(top);
      }
      if methodName == "collaborative" && itemSimilarity.Some? {
        if mapping.None? {
          return Err(AttributeError);
        }
        if movieId !in mapping.value.movieToIdx {
          return Ok([]);
        }
        var idx := mapping.value.movieToIdx[movieId];
        if idx >= |itemSimilarity.value| {
          return Err(IndexError);
        }
        var top := SkipTop(Enumerate(itemSimilarity.value[idx]), Similarity, n);
        r := ItemNeighbours(top, mapping.value.idxToMovie, catalogue);
        return;
      }
      r := Ok([]);
    }

    /** `hybrid_recommend`; see `HybridSpec` and `RescaledMax`. */
    method HybridRecommend(userId: string, catalogue: seq<string>, ratings: seq<Rating>, n: int,
                           cfWeight: real, cbWeight: real) returns (r: Result<seq<Prediction>>)
      ensures r == HybridOf(mapping, predicted, contentSimilarity, userId, catalogue, ratings, n, cfWeight, cbWeight)
    {
      if mapping.None? {
        return Err(TypeError);
      }
      var m := mapping.value;
      if userId !in m.userToIdx {
        return Ok([]);
      }
      if predicted.None? {
        return Err(TypeError);
      }
      var u := m.userToIdx[userId];
      if u >= |predicted.value| {
        return Err(IndexError);
      }
      var cf := predicted.value[u];
      var sum := AccumulateContent(ratings, userId, catalogue, contentSimilarity);
      if sum.Err? {
        return Err(sum.error);
      }
      var cb := sum.value;
      if |cb| == 0 {
        return Err(ValueError);
      }
      var top := SeqMax(cb);
      if top > 0.0 {
        cb := seq(|cb|, i requires 0 <= i < |cb| => cb[i] / top * 5.0);
      }
      var rows := WeightRows(catalogue, RatedBy(ratings, userId), m.movieToIdx, cf, cb, cfWeight, cbWeight);
      r := Ok(Head(SortDesc(rows, Score), n));
    }
  }

  /** The content-score loop of `hybrid_recommend`. */
  method AccumulateContent(ratings: seq<Rating>, userId: string, catalogue: seq<string>,
                           contentSim: Option<seq<seq<real>>>) returns (r: Result<seq<real>>)
    ensures r == CbSum(ratings, userId, catalogue, contentSim)
  {
    var cb: seq<real> := seq(|catalogue|, i => 0.0);
    var k := 0;
    while k < |ratings|
      invariant 0 <= k <= |ratings|
      invariant CbSum(ratings[..k], userId, catalogue, contentSim) == Ok(cb)
    {
      assert ratings[..k + 1][..k] == ratings[..k];
      var x := ratings[k];
      if IsHighRated(x, userId) && x.movieId in catalogue && contentSim.Some? {
        var row := FirstRow(catalogue, x.movieId).value;
        if row >= |contentSim.value| {
          CbSumErrExtends(ratings, userId, catalogue, contentSim, k + 1);
          assert ratings[..|ratings|] == ratings;
          return Err(IndexError);
        }
        var added := AddRow(cb, contentSim.value[row]);
        if added.Err? {
          CbSumErrExtends(ratings, userId, catalogue, contentSim, k + 1);
          assert ratings[..|ratings|] == ratings;
          return Err(ValueError);
        }
        cb := added.value;
      }
      k := k + 1;
    }
    assert ratings[..k] == ratings;
    r := Ok(cb);
  }

  /** The weighting loop of `hybrid_recommend`, over the table rows in order. */
  method WeightRows(catalogue: seq<string>, rated: set<string>, movieToIdx: map<string, nat>,
                    cf: seq<real>, cb: seq<real>, cfWeight: real, cbWeight: real) returns (rows: seq<Prediction>)
    requires |cb| == |catalogue|
    ensures rows == HybridRows(catalogue, rated, movieToIdx, cf, cb, cfWeight, cbWeight, |catalogue|)
  {
    rows := [];
    var j := 0;
    while j < |catalogue|
      invariant 0 <= j <= |catalogue|
      invariant rows == HybridRows(catalogue, rated, movieToIdx, cf, cb, cfWeight, cbWeight, j)
    {
      HybridRowsStep(catalogue, rated, movieToIdx, cf, cb, cfWeight, cbWeight, j);
      rows := rows + HybridRow(catalogue, rated, movieToIdx, cf, cb, cfWeight, cbWeight, j);
      j := j + 1;
    }
  }

  lemma HybridRowsStep(catalogue: seq<string>, rated: set<string>, movieToIdx: map<string, nat>,
                       cf: seq<real>, cb: seq<real>, cfWeight: real, cbWeight: real, j: nat)
    requires j < |catalogue| == |cb|
    ensures HybridRows(catalogue, rated, movieToIdx, cf, cb, cfWeight, cbWeight, j + 1) ==
      HybridRows(catalogue, rated, movieToIdx, cf, cb, cfWeight, cbWeight, j) +
      HybridRow(catalogue, rated, movieToIdx, cf, cb, cfWeight, cbWeight, j)
  {
  }

  /** The collaborative branch of `find_similar_movies`: the ranked item indices mapped back
      to table rows in order, stopping at the first id the table lacks. */
  method ItemNeighbours(top: seq<Neighbour>, idxToMovie: map<nat, string>, catalogue: seq<string>)
    returns (r: Result<seq<Neighbour>>)
    ensures r == ItemRows(top, idxToMovie, catalogue)
  {
    var out: seq<Neighbour> := [];
    var k := 0;
    while k < |top|
      invariant 0 <= k <= |top|
      invariant ItemRows(top[..k], idxToMovie, catalogue) == Ok(out)
    {
      ItemRowsStep(top, idxToMovie, catalogue, k, out);
      if top[k].0 in idxToMovie && idxToMovie[top[k].0] != "" {
        var similar := idxToMovie[top[k].0];
        if similar !in catalogue {
          ItemRowsErrExtends(top, idxToMovie, catalogue, k + 1);
          assert top[..|top|] == top;
          return Err(IndexError);
        }
        out := out + [(FirstRow(catalogue, similar).value, top[k].1)];
      }
      k := k + 1;
    }
    assert top[..k] == top;
    r := Ok(out);
  }

  lemma ItemRowsStep(top: seq<Neighbour>, idxToMovie: map<nat, string>, catalogue: seq<string>, k: nat, init: seq<Neighbour>)
    requires k < |top| && ItemRows(top[..k], idxToMovie, catalogue) == Ok(init)
    ensures ItemRows(top[..k + 1], idxToMovie, catalogue) ==
        if top[k].0 !in idxToMovie || idxToMovie[top[k].0] == "" then Ok(init)
        else if idxToMovie[top[k].0] !in catalogue then Err(IndexError)
        else Ok(init + [(FirstRow(catalogue, idxToMovie[top[k].0]).value, top[k].1)])
  {
    assert top[..k + 1][..k] == top[..k];
  }

  /** Once a prefix of the ranked items hits an unknown id, so does the whole list. */
  lemma ItemRowsErrExtends(top: seq<Neighbour>, idxToMovie: map<nat, string>, catalogue: seq<string>, k: nat)
    requires k <= |top| && ItemRows(top[..k], idxToMovie, catalogue).Err?
    ensures ItemRows(top, idxToMovie, catalogue) == Err(IndexError)
    decreases |top| - k
  {
    if k < |top| {
      assert top[..k + 1][..k] == top[..k];
      ItemRowsErrExtends(top, idxToMovie, catalogue, k + 1);
    } else {
      assert top[..k] == top;
      ItemRowsErrIsIndex(top, idxToMovie, catalogue);
    }
  }

  lemma {:induction false} ItemRowsErrIsIndex(top: seq<Neighbour>, idxToMovie: map<nat, string>, catalogue: seq<string>)
    requires ItemRows(top, idxToMovie, catalogue).Err?
    ensures ItemRows(top, idxToMovie, catalogue).error == IndexError
    decreases |top|
  {
    if |top| > 0 {
      var k := |top| - 1;
      if ItemRows(top[..k], idxToMovie, catalogue).Err? {
        ItemRowsErrIsIndex(top[..k], idxToMovie, catalogue);
      }
    }
  }

  /** Once a prefix of the ratings fails, so does the whole accumulation. */
  lemma CbSumErrExtends(ratings: seq<Rating>, userId: string, catalogue: seq<string>,
                        contentSim: Option<seq<seq<real>>>, k: nat)
    requires k <= |ratings| && CbSum(ratings[..k], userId, catalogue, contentSim).Err?
    ensures CbSum(ratings, userId, catalogue, contentSim) == CbSum(ratings[..k], userId, catalogue, contentSim)
    decreases |ratings| - k
  {
    if k < |ratings| {
      assert ratings[..k + 1][..k] == ratings[..k];
      CbSumErrExtends(ratings, userId, catalogue, contentSim, k + 1);
    } else {
      assert ratings[..k] == ratings;
    }
  }
}
