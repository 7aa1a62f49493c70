/** `modeling/models/item_based.py`: the configuration read from YAML, the top-K pruning
    of the item-item similarity matrix, and the `ItemBasedRecommender` whose fields
    `fit`, `save` and `load` fill. Cosine similarity itself is computed by a library and
    enters the model as a given square matrix. */
module ItemBased {
  import opened Wrappers
  import opened Seqs
  import opened IdIndex
  import opened Ratings
  import opened Ranking

  // ---------------------------------------------------------------- configuration

  datatype ItemBasedConfig = ItemBasedConfig(
    minUserRatings: int, minMovieRatings: int, topK: int, verbose: bool, useIntegratedData: bool)

  /** The dataclass defaults. */
  const DefaultConfig: ItemBasedConfig := ItemBasedConfig(30, 10, 50, true, false)

  datatype YamlValue = YInt(i: int) | YBool(b: bool)

  /** The result of `yaml.safe_load`: an empty document is `None`. */
  datatype YamlDoc = EmptyDoc | Mapping(sections: map<string, map<string, YamlValue>>)

  const FieldNames: set<string> :=
    {"min_user_ratings", "min_movie_ratings", "top_k", "verbose", "use_integrated_data"}

  /** A value where the dataclass expects an `int`: Python's `bool` is an `int`, so
      `True` acts as 1 wherever the field is used. */
  function AsInt(v: YamlValue): int
  {
    match v
    case YInt(i) => i
    case YBool(b) => if b then 1 else 0
  }

  /** A value where the dataclass expects a `bool`: tested for truth, so a non-zero
      integer acts as `True`. */
  function AsBool(v: YamlValue): bool
  {
    match v
    case YBool(b) => b
    case YInt(i) => i != 0
  }

  function IntField(section: map<string, YamlValue>, name: string, default: int): int
  {
    if name in section then AsInt(section[name]) else default
  }

  function BoolField(section: map<string, YamlValue>, name: string, default: bool): bool
  {
    if name in section then AsBool(section[name]) else default
  }

  /** `ItemBasedConfig.from_yaml`: a missing file raises `FileNotFoundError`; an empty
      document makes the `in` test raise `TypeError`; a document without an
      `item_based` section raises `ValueError`; an unknown key is an unexpected
      keyword argument (`TypeError`); otherwise the section's values over the defaults.
      The dataclass checks no types: a value is kept as given and acts as its `int` or
      truth value where used. */
  function FromYaml(file: Option<YamlDoc>): (r: Result<ItemBasedConfig>)
    ensures file.None? ==> r == Err(FileNotFoundError)
    ensures r == Err(ValueError) <==> file.Some? && file.value.Mapping? && "item_based" !in file.value.sections
    ensures r == Err(TypeError) <==> (
      || file == Some(EmptyDoc)
      || (file.Some? && file.value.Mapping? && "item_based" in file.value.sections &&
          !(file.value.sections["item_based"].Keys <= FieldNames)))
    ensures r.Ok? <==> (
      && file.Some? && file.value.Mapping? && "item_based" in file.value.sections
      && file.value.sections["item_based"].Keys <= FieldNames)
    ensures r.Ok? ==> (
      var section := file.value.sections["item_based"];
      ("top_k" in section ==> r.value.topK == AsInt(section["top_k"])) &&
      ("top_k" !in section ==> r.value.topK == 50) &&
      ("min_user_ratings" in section ==> r.value.minUserRatings == AsInt(section["min_user_ratings"])) &&
      ("min_user_ratings" !in section ==> r.value.minUserRatings == 30) &&
      ("min_movie_ratings" in section ==> r.value.minMovieRatings == AsInt(section["min_movie_ratings"])) &&
      ("min_movie_ratings" !in section ==> r.value.minMovieRatings == 10) &&
      ("verbose" in section ==> r.value.verbose == AsBool(section["verbose"])) &&
      ("verbose" !in section ==> r.value.verbose) &&
      ("use_integrated_data" in section ==> r.value.useIntegratedData == AsBool(section["use_integrated_data"])) &&
      ("use_integrated_data" !in section ==> !r.value.useIntegratedData))
  {
    match file
    case None => Err(FileNotFoundError)
    case Some(EmptyDoc) => Err(TypeError)
    case Some(Mapping(sections)) =>
      if "item_based" !in sections then Err(ValueError)
      else
        var section := sections["item_based"];
        if !(section.Keys <= FieldNames) then Err(TypeError)
        else
          Ok(ItemBasedConfig(
            IntField(section, "min_user_ratings", 30), IntField(section, "min_movie_ratings", 10),
            IntField(section, "top_k", 50), BoolField(section, "verbose", true),
            BoolField(section, "use_integrated_data", false)))
  }

  /** An empty `item_based` section gives the defaults. */
  lemma EmptySectionDefaults(sections: map<string, map<string, YamlValue>>)
    requires "item_based" in sections && sections["item_based"] == map[]
    ensures FromYaml(Some(Mapping(sections))) == Ok(DefaultConfig)
  {
  }

  // ---------------------------------------------------------------- top-K pruning

  predicate IsSquare(m: seq<seq<real>>)
  {
    forall i :: 0 <= i < |m| ==> |m[i]| == |m|
  }

  function Range(n: nat): (r: seq<nat>)
    ensures |r| == n && forall j :: 0 <= j < n ==> r[j] == j
  {
    seq(n, j requires 0 <= j => j as nat)
  }

  /** The score of index `j` in `row`. */
  function ScoreIn(row: seq<real>): nat -> real
  {
    (j: nat) => if j < |row| then row[j] else 0.0
  }

  function Positive(row: seq<real>): nat -> bool
  {
    (j: nat) => j < |row| && row[j] > 0.0
  }

  /** `np.argpartition(row, -k)[-k:]` AS WRITTEN: for k > 0 the indices of k largest
      scores; for k == 0 the slice `[-0:]` is the whole index array. Ties among equal
      scores are resolved in favour of the lower index. */
  function TopKIndices(row: seq<real>, k: nat): (r: seq<nat>)
    requires |row| > k
    ensures k == 0 ==> r == Range(|row|)
    ensures k > 0 ==> |r| == k
    ensures forall j :: j in r ==> j < |row|
  {
    if k == 0 then Range(|row|)
    else
      var sorted := SortDesc(Range(|row|), ScoreIn(row));
      InRange(sorted, |row|);
      var top := Head(sorted, k);
      assert forall j :: j in top ==> j in sorted;
      top
  }

  lemma InRange(s: seq<nat>, n: nat)
    requires multiset(s) == multiset(Range(n))
    ensures forall j :: j in s ==> j < n
    ensures forall j :: 0 <= j < n ==> j in s
  {
    forall j | j in s ensures j < n {
      assert j in multiset(Range(n));
    }
    forall j | 0 <= j < n ensures j in s {
      assert Range(n)[j] == j;
      assert j in multiset(Range(n));
    }
  }

  /** The indices given a value in row `i` of the pruned matrix. */
  function Selected(row: seq<real>, k: nat): (r: seq<nat>)
  {
    if |row| > k then Filter(TopKIndices(row, k), Positive(row))
    else Filter(Range(|row|), Positive(row))
  }

  /** One pruned row, as written: the diagonal set to -1, then the selected scores
      copied into an all-zero row. */
  function PrunedRow(s: seq<real>, i: nat, k: nat): (out: seq<real>)
    requires i < |s|
    ensures |out| == |s|
  {
    var row := s[i := -1.0];
    var sel := Selected(row, k);
    seq(|row|, j requires 0 <= j < |row| => if j in sel then row[j] else 0.0)
  }

  /** The indices holding a value. */
  function NonZero(out: seq<real>): set<nat>
  {
    set j: nat | j < |out| && out[j] != 0.0
  }

  /** What the pruning promises of one row: same length, nothing on the diagonal,
      every kept value positive and copied from the input, and every dropped positive
      off-diagonal score no larger than any kept one. */
  predicate PrunedWell(s: seq<real>, i: nat, out: seq<real>)
    requires i < |s|
  {
    |out| == |s| && out[i] == 0.0 &&
    (forall j :: 0 <= j < |out| && out[j] != 0.0 ==> j != i && out[j] == s[j] && s[j] > 0.0) &&
    (forall j, j' :: 0 <= j < |s| && 0 <= j' < |s| && j != i && s[j] > 0.0 && out[j] == 0.0 && out[j'] != 0.0 ==>
      s[j] <= s[j'])
  }

  lemma SelectedFacts(row: seq<real>, k: nat)
    ensures forall j :: j in Selected(row, k) ==> j < |row| && row[j] > 0.0
    ensures |row| <= k ==> forall j :: 0 <= j < |row| && row[j] > 0.0 ==> j in Selected(row, k)
    ensures k == 0 ==> forall j :: 0 <= j < |row| && row[j] > 0.0 ==> j in Selected(row, k)
  {
    if |row| <= k || k == 0 {
      forall j | 0 <= j < |row| && row[j] > 0.0 ensures j in Selected(row, k) {
        assert Range(|row|)[j] == j;
      }
    }
  }

  /** A positive index left out of the top k scores no more than any index in it. */
  lemma SelectedDominates(row: seq<real>, k: nat, j: nat, j': nat)
    requires |row| > k && j < |row| && row[j] > 0.0
    requires j !in Selected(row, k) && j' in Selected(row, k)
    ensures row[j] <= row[j']
  {
    var sorted := SortDesc(Range(|row|), ScoreIn(row));
    InRange(sorted, |row|);
    var top := Head(sorted, k);
    assert top == sorted[..k];
    assert j !in top;
    assert j' in top;
    var p := PrefixPosition(sorted, k, j);
    var q :| 0 <= q < k && sorted[..k][q] == j';
    assert ScoreIn(row)(sorted[q]) >= ScoreIn(row)(sorted[p]);
  }

  /** The pruning keeps what it promises, and drops no positive off-diagonal score when
      the row fits in `k` (or, as written, when `k == 0`). */
  lemma PrunedRowWell(s: seq<real>, i: nat, k: nat)
    requires i < |s|
    ensures PrunedWell(s, i, PrunedRow(s, i, k))
    ensures |s| <= k ==> forall j :: 0 <= j < |s| && j != i && s[j] > 0.0 ==> PrunedRow(s, i, k)[j] == s[j]
    ensures k == 0 ==> forall j :: 0 <= j < |s| && j != i && s[j] > 0.0 ==> PrunedRow(s, i, k)[j] == s[j]
  {
    var row := s[i := -1.0];
    var out := PrunedRow(s, i, k);
    SelectedFacts(row, k);
    forall j, j' | 0 <= j < |s| && 0 <= j' < |s| && j != i && s[j] > 0.0 && out[j] == 0.0 && out[j'] != 0.0
      ensures s[j] <= s[j']
    {
      assert j !in Selected(row, k);
      assert j' in Selected(row, k);
      if |row| > k {
        SelectedDominates(row, k, j, j');
      }
    }
  }

  /** The source's promise for top-0 fails: with k == 0 every positive score of the
      row is kept, here two of them. */
  lemma TopZeroKeepsAll()
    ensures PrunedRow([1.0, 0.5, 0.3], 0, 0) == [0.0, 0.5, 0.3]
    ensures |NonZero(PrunedRow([1.0, 0.5, 0.3], 0, 0))| == 2
  {
    var row := [1.0, 0.5, 0.3][0 := -1.0];
    assert row == [-1.0, 0.5, 0.3];
    SelectedFacts(row, 0);
    assert 1 in Selected(row, 0) && 2 in Selected(row, 0) && 0 !in Selected(row, 0);
    var out := PrunedRow([1.0, 0.5, 0.3], 0, 0);
    assert out == [0.0, 0.5, 0.3];
    assert NonZero(out) == {1, 2};
  }

  /** The evidently intended pruning: at most k scores per row, so none for k == 0. */
  function PrunedRowIntended(s: seq<real>, i: nat, k: nat): (out: seq<real>)
    requires i < |s|
    ensures PrunedWell(s, i, out)
    ensures |NonZero(out)| <= k
    ensures |s| <= k ==> forall j :: 0 <= j < |s| && j != i && s[j] > 0.0 ==> out[j] == s[j]
  {
    if k == 0 then
      var out := seq(|s|, j requires 0 <= j < |s| => 0.0);
      assert NonZero(out) == {};
      out
    else
      var out := PrunedRow(s, i, k);
      PrunedRowWell(s, i, k);
      PrunedRowCount(s, i, k);
      SelectedFacts(s[i := -1.0], k);
      out
  }

  lemma PrunedRowCount(s: seq<real>, i: nat, k: nat)
    requires i < |s| && k > 0
    ensures |NonZero(PrunedRow(s, i, k))| <= k
  {
    var row := s[i := -1.0];
    var out := PrunedRow(s, i, k);
    var sel := Selected(row, k);
    if |row| > k {
      assert NonZero(out) <= ElemSet(TopKIndices(row, k));
      ElemSetBound(TopKIndices(row, k));
      SubsetCard(NonZero(out), ElemSet(TopKIndices(row, k)));
    } else {
      assert NonZero(out) <= ElemSet(Range(|s|)) by {
        forall j | j in NonZero(out) ensures j in ElemSet(Range(|s|)) {
          assert Range(|s|)[j] == j;
        }
      }
      ElemSetBound(Range(|s|));
      SubsetCard(NonZero(out), ElemSet(Range(|s|)));
    }
  }

  function ElemSet(s: seq<nat>): set<nat>
  {
    set j | j in s
  }

  lemma {:induction false} ElemSetBound(s: seq<nat>)
    ensures |ElemSet(s)| <= |s|
    decreases |s|
  {
    if |s| > 0 {
      ElemSetBound(s[1..]);
      assert ElemSet(s) == {s[0]} + ElemSet(s[1..]);
    }
  }

  /** The two prunings differ only for `k == 0`. */
  lemma PrunedRowAgrees(s: seq<real>, i: nat, k: nat)
    requires i < |s| && k > 0
    ensures PrunedRow(s, i, k) == PrunedRowIntended(s, i, k)
  {
  }

  /** Row `i` of `topk` is row `i` of `sim` pruned as written. */
  predicate PrunedModel(topk: seq<seq<real>>, sim: seq<seq<real>>, k: nat)
  {
    |topk| == |sim| && forall i :: 0 <= i < |sim| ==> i < |sim[i]| && topk[i] == PrunedRow(sim[i], i, k)
  }

  /** Every row of a pruned matrix keeps only positive off-diagonal scores, drops none
      above a kept one, for `k > 0` keeps at most `k` of them, and keeps every positive
      off-diagonal score of a row that fits in `k`. */
  lemma PrunedModelWell(topk: seq<seq<real>>, sim: seq<seq<real>>, k: nat)
    requires PrunedModel(topk, sim, k)
    ensures forall i :: 0 <= i < |sim| ==> PrunedWell(sim[i], i, topk[i]) && (k > 0 ==> |NonZero(topk[i])| <= k)
    ensures forall i, j :: 0 <= i < |sim| && |sim[i]| <= k && 0 <= j < |sim[i]| && j != i && sim[i][j] > 0.0 ==>
      topk[i][j] == sim[i][j]
  {
    forall i | 0 <= i < |sim|
      ensures PrunedWell(sim[i], i, topk[i]) && (k > 0 ==> |NonZero(topk[i])| <= k)
      ensures |sim[i]| <= k ==> forall j :: 0 <= j < |sim[i]| && j != i && sim[i][j] > 0.0 ==> topk[i][j] == sim[i][j]
    {
      PrunedRowWell(sim[i], i, k);
      if k > 0 {
        PrunedRowCount(sim[i], i, k);
      }
    }
  }

  /** `[f(0), …, f(n-1)]`. */
  function Tabulate<T>(f: nat -> T, n: nat): (r: seq<T>)
    ensures |r| == n && forall j :: 0 <= j < n ==> r[j] == f(j)
  {
    if n == 0 then [] else Tabulate(f, n - 1) + [f(n - 1)]
  }

  /** `_build_topk_similarity` over the whole matrix, one row at a time. */
  method BuildTopKSimilarity(sim: seq<seq<real>>, k: nat) returns (topk: seq<seq<real>>)
    requires IsSquare(sim)
    ensures IsSquare(topk) && PrunedModel(topk, sim, k)
  {
    topk := EachRow(PrunedOf(sim, k), |sim|);
    TabulatedPruned(sim, k);
  }

  /** The loop over the rows: row `i` of the result is `f(i)`. */
  method EachRow<T>(f: nat -> T, n: nat) returns (rows: seq<T>)
    ensures rows == Tabulate(f, n)
  {
    rows := [];
    var i := 0;
    while i < n
      invariant 0 <= i <= n && rows == Tabulate(f, i)
    {
      rows := rows + [f(i)];
      i := i + 1;
    }
  }

  /** Row `r` of the matrix, pruned. */
  function PrunedOf(sim: seq<seq<real>>, k: nat): nat -> seq<real>
    requires IsSquare(sim)
  {
    (r: nat) => if r < |sim| then PrunedRow(sim[r], r, k) else []
  }

  lemma TabulatedPruned(sim: seq<seq<real>>, k: nat)
    requires IsSquare(sim)
    ensures IsSquare(Tabulate(PrunedOf(sim, k), |sim|)) && PrunedModel(Tabulate(PrunedOf(sim, k), |sim|), sim, k)
  {
    var topk := Tabulate(PrunedOf(sim, k), |sim|);
    forall r | 0 <= r < |sim|
      ensures topk[r] == PrunedRow(sim[r], r, k) && |topk[r]| == |sim|
    {
      assert topk[r] == PrunedOf(sim, k)(r);
    }
  }

  // ---------------------------------------------------------------- recommend

  /** A candidate neighbour: its index and its similarity to the queried movie. */
  datatype Scored = Scored(idx: nat, score: real)

  function ScoreOf(x: Scored): real { x.score }

  function PosOf(x: Scored): int { x.idx }

  /** `similar_items`: every other index with a positive similarity, in index order. */
  function Candidates(sims: seq<real>, self: nat): (r: seq<Scored>)
    ensures forall x :: x in r ==> x.idx < |sims| && x.idx != self && x.score == sims[x.idx] && x.score > 0.0
    ensures forall j :: 0 <= j < |sims| && j != self && sims[j] > 0.0 ==> Scored(j, sims[j]) in r
    ensures IncreasingBy(r, PosOf)
  {
    if |sims| == 0 then []
    else
      var n := |sims| - 1;
      var init := Candidates(sims[..n], self);
      assert forall j :: 0 <= j < n ==> sims[..n][j] == sims[j];
      init + (if n != self && sims[n] > 0.0 then [Scored(n, sims[n])] else [])
  }

  lemma CandidatesSnoc(sims: seq<real>, j: nat, self: nat)
    requires j < |sims|
    ensures Candidates(sims[..j + 1], self) ==
      Candidates(sims[..j], self) + (if j != self && sims[j] > 0.0 then [Scored(j, sims[j])] else [])
  {
    assert sims[..j + 1][..j] == sims[..j];
  }

  /** `similar_items` sorted stably by descending similarity, cut to `top_n`. */
  function Ranked(sims: seq<real>, self: nat, topN: int): seq<Scored>
  {
    Head(SortDesc(Candidates(sims, self), ScoreOf), topN)
  }

  /** The neighbours `recommend` returns are exactly the first `top_n` candidates in
      the order (similarity descending, index ascending): only other movies with a
      positive similarity, and every candidate left out ranks below every one kept. */
  lemma RankedSpec(sims: seq<real>, self: nat, topN: int)
    ensures var top := Ranked(sims, self, topN);
      (forall x :: x in top ==> x.idx < |sims| && x.idx != self && x.score == sims[x.idx] && x.score > 0.0) &&
      ScoreThenPosition(top, ScoreOf, PosOf) &&
      (topN >= 0 ==> |top| <= topN) &&
      (forall j :: 0 <= j < |sims| && j != self && sims[j] > 0.0 && Scored(j, sims[j]) !in top ==>
        forall x :: x in top ==> x.score > sims[j] || (x.score == sims[j] && x.idx < j))
    ensures var top := Ranked(sims, self, topN);
      (topN >= 0 && |top| < topN) ==> forall j :: (0 <= j < |sims| && j != self && sims[j] > 0.0) ==>
        Scored(j, sims[j]) in top
  {
    var cands := Candidates(sims, self);
    if topN >= 0 {
      TopRowsAll(cands, ScoreOf, topN);
    }
    var sorted := SortDesc(cands, ScoreOf);
    SortDescStable(cands, ScoreOf, PosOf);
    var top := Ranked(sims, self, topN);
    assert top == sorted[..|top|];
    forall x | x in top
      ensures x in cands
    {
      assert x in sorted;
      assert x in multiset(sorted);
    }
    PrefixOrder(sorted, |top|);
    forall j | 0 <= j < |sims| && j != self && sims[j] > 0.0 && Scored(j, sims[j]) !in top
      ensures forall x :: x in top ==> x.score > sims[j] || (x.score == sims[j] && x.idx < j)
    {
      var y := Scored(j, sims[j]);
      assert y in multiset(cands);
      assert y in sorted;
      PrefixBeats(sorted, |top|, y);
    }
  }

  lemma PrefixOrder(s: seq<Scored>, k: nat)
    requires ScoreThenPosition(s, ScoreOf, PosOf) && k <= |s|
    ensures ScoreThenPosition(s[..k], ScoreOf, PosOf)
  {
    forall i, j | 0 <= i < j < k
      ensures s[..k][i].score > s[..k][j].score || (s[..k][i].score == s[..k][j].score && s[..k][i].idx < s[..k][j].idx)
    {
      assert s[..k][i] == s[i] && s[..k][j] == s[j];
      assert ScoreOf(s[i]) > ScoreOf(s[j]) || (ScoreOf(s[i]) == ScoreOf(s[j]) && PosOf(s[i]) < PosOf(s[j]));
    }
  }

  /** A row past the first k of a ranked sequence ranks below each of them. */
  lemma PrefixBeats(s: seq<Scored>, k: nat, y: Scored)
    requires ScoreThenPosition(s, ScoreOf, PosOf) && k <= |s| && y in s && y !in s[..k]
    ensures forall x :: x in s[..k] ==> x.score > y.score || (x.score == y.score && x.idx < y.idx)
  {
    var p := PrefixPosition(s, k, y);
    forall x | x in s[..k]
      ensures x.score > y.score || (x.score == y.score && x.idx < y.idx)
    {
      var q :| 0 <= q < k && s[..k][q] == x;
      assert s[q] == x;
      assert ScoreOf(s[q]) > ScoreOf(s[p]) || (ScoreOf(s[q]) == ScoreOf(s[p]) && PosOf(s[q]) < PosOf(s[p]));
    }
  }

  /** What `recommend` returns or raises, up to the metadata join: `ValueError` before
      `fit`; `AttributeError` for a loaded model without a mapping; `None` for an
      unknown movie or when no neighbour remains; otherwise the neighbours' movie ids
      with their scores, in ranked order. */
  function RecommendOf(similarity: Option<seq<seq<real>>>, mapping: Option<IdMapping>,
                       movieId: string, topN: int): (r: Result<Option<seq<(string, real)>>>)
    ensures r == Err(ValueError) <==> similarity.None?
    ensures similarity.Some? && mapping.Some? && movieId !in mapping.value.movieToIdx ==> r == Ok(None)
    ensures r.Ok? && r.value.Some? ==> |r.value.value| > 0 && (topN >= 0 ==> |r.value.value| <= topN)
  {
    if similarity.None? then Err(ValueError)
    else if mapping.None? then Err(AttributeError)
    else if movieId !in mapping.value.movieToIdx then Ok(None)
    else
      var idx := mapping.value.movieToIdx[movieId];
      if idx >= |similarity.value| then Err(IndexError)
      else
        var top := Ranked(similarity.value[idx], idx, topN);
        RankedSpec(similarity.value[idx], idx, topN);
        if |top| == 0 then Ok(None)
        else if exists t :: 0 <= t < |top| && top[t].idx !in mapping.value.idxToMovie then Err(KeyError)
        else Ok(Some(seq(|top|, t requires 0 <= t < |top| => (mapping.value.idxToMovie[top[t].idx], top[t].score))))
  }

  /** After `fit`, whose matrix has one row per distinct movie, `recommend` raises
      nothing: every index it ranks has a movie id, and that id is never the queried
      movie. */
  lemma FittedRecommendSucceeds(rows: seq<Rating>, matrix: seq<seq<real>>, movieId: string, topN: int)
    requires IsSquare(matrix) && |matrix| == |SortedIds(MovieIds(rows))|
    ensures var m := BuildMapping(rows);
      var r := RecommendOf(Some(matrix), Some(m), movieId, topN);
      r.Ok? && (r.value.Some? ==> forall t :: 0 <= t < |r.value.value| ==>
        r.value.value[t].0 != movieId && r.value.value[t].0 in m.movieToIdx)
  {
    MappingIsBijection(rows);
    RecommendTotal(matrix, BuildMapping(rows), movieId, topN);
  }

  lemma RecommendTotal(matrix: seq<seq<real>>, m: IdMapping, movieId: string, topN: int)
    requires IsSquare(matrix)
    requires forall v :: v in m.movieToIdx ==> m.movieToIdx[v] < |matrix|
    requires forall i: nat :: i < |matrix| ==>
      i in m.idxToMovie && m.idxToMovie[i] in m.movieToIdx && m.movieToIdx[m.idxToMovie[i]] == i
    ensures var r := RecommendOf(Some(matrix), Some(m), movieId, topN);
      r.Ok? && (r.value.Some? ==> forall t :: 0 <= t < |r.value.value| ==>
        r.value.value[t].0 != movieId && r.value.value[t].0 in m.movieToIdx)
  {
    if movieId in m.movieToIdx {
      var idx := m.movieToIdx[movieId];
      var top := Ranked(matrix[idx], idx, topN);
      RankedSpec(matrix[idx], idx, topN);
      forall t | 0 <= t < |top|
        ensures top[t].idx in m.idxToMovie && m.idxToMovie[top[t].idx] != movieId &&
          m.idxToMovie[top[t].idx] in m.movieToIdx
      {
        assert top[t] in top;
      }
    }
  }

  /** When `recommend` returns fewer than `top_n` neighbours, every other movie with a
      positive similarity to the queried one is among them, with that similarity. */
  lemma RecommendComplete(matrix: seq<seq<real>>, m: IdMapping, movieId: string, topN: int)
    requires IsSquare(matrix)
    requires forall v :: v in m.movieToIdx ==> m.movieToIdx[v] < |matrix|
    requires forall i: nat :: i < |matrix| ==>
      i in m.idxToMovie && m.idxToMovie[i] in m.movieToIdx && m.movieToIdx[m.idxToMovie[i]] == i
    requires movieId in m.movieToIdx && topN >= 0
    ensures var r := RecommendOf(Some(matrix), Some(m), movieId, topN);
      var idx := m.movieToIdx[movieId];
      (r.Ok? && r.value.Some? && |r.value.value| < topN) ==>
        forall j: nat :: (j < |matrix| && j != idx && matrix[idx][j] > 0.0) ==>
          exists t :: 0 <= t < |r.value.value| && r.value.value[t] == (m.idxToMovie[j], matrix[idx][j])
  {
    var idx := m.movieToIdx[movieId];
    var sims := matrix[idx];
    var top := Ranked(sims, idx, topN);
    RankedSpec(sims, idx, topN);
    var r := RecommendOf(Some(matrix), Some(m), movieId, topN);
    RecommendNamed(matrix, m, movieId, topN);
    if r.Ok? && r.value.Some? && |r.value.value| < topN {
      forall j: nat | j < |matrix| && j != idx && matrix[idx][j] > 0.0
        ensures exists t :: 0 <= t < |r.value.value| && r.value.value[t] == (m.idxToMovie[j], matrix[idx][j])
      {
        assert Scored(j, sims[j]) in top;
        var t :| 0 <= t < |top| && top[t] == Scored(j, sims[j]);
        assert r.value.value[t] == (m.idxToMovie[j], matrix[idx][j]);
      }
    }
  }

  /** A non-empty answer names the ranked items one by one. */
  lemma RecommendNamed(matrix: seq<seq<real>>, m: IdMapping, movieId: string, topN: int)
    requires movieId in m.movieToIdx && m.movieToIdx[movieId] < |matrix|
    ensures var r := RecommendOf(Some(matrix), Some(m), movieId, topN);
      var top := Ranked(matrix[m.movieToIdx[movieId]], m.movieToIdx[movieId], topN);
      r.Ok? && r.value.Some? ==> (|r.value.value| == |top| &&
        forall t :: 0 <= t < |top| ==> top[t].idx in m.idxToMovie && r.value.value[t] == (m.idxToMovie[top[t].idx], top[t].score))
  {
  }

  /** The saved pickle: configuration, pruned matrix and mapping. */
  datatype SavedModel = SavedModel(config: ItemBasedConfig, similarity: seq<seq<real>>, idMapping: Option<IdMapping>)

  class ItemBasedRecommender {
    var config: ItemBasedConfig
    var similarity: Option<seq<seq<real>>>
    var idMapping: Option<IdMapping>

    /** `__init__`: the given configuration or the defaults; nothing learnt yet. */
    constructor(config: Option<ItemBasedConfig>)
      ensures this.config == config.GetOr(DefaultConfig)
      ensures similarity.None? && idMapping.None?
    {
      this.config := config.GetOr(DefaultConfig);
      similarity := None;
      idMapping := None;
    }

    /** `fit`: the id mapping of `preprocess_id_mapping` (whose `ValueError` leaves the
        recommender untouched) and the pruned matrix built from the cosine
        similarities of the mapped ratings. The model always takes the frame it maps;
        the source's `df_filtered=None` default is not modelled. */
    method Fit(df: RatingFrame, cosine: seq<seq<real>>) returns (r: Result<()>)
      requires IsSquare(cosine) && config.topK >= 0
      requires !df.IsEmpty() && df.HasIdColumns() ==> |cosine| == |SortedIds(MovieIds(df.rows))|
      modifies this
      ensures config == old(config)
      ensures r.Err? <==> df.IsEmpty() || !df.HasIdColumns()
      ensures r.Err? ==> r.error == ValueError && similarity == old(similarity) && idMapping == old(idMapping)
      ensures r.Ok? ==> (idMapping == Some(BuildMapping(df.rows)) && similarity.Some? &&
        PrunedModel(similarity.value, cosine, config.topK))
    {
      var mapped := PreprocessIdMapping(df);
      if mapped.Err? {
        return Err(mapped.error);
      }
      idMapping := Some(mapped.value.1);
      BuildSimilarityMatrix(cosine);
      r := Ok(());
    }

    /** `_build_similarity_matrix`: the cosine matrix of the rating columns is a
        parameter; it is pruned to the configured `top_k` and installed. */
    method BuildSimilarityMatrix(cosine: seq<seq<real>>)
      requires IsSquare(cosine) && config.topK >= 0
      modifies this
      ensures config == old(config) && idMapping == old(idMapping)
      ensures similarity.Some? && IsSquare(similarity.value) && PrunedModel(similarity.value, cosine, config.topK)
    {
      var topk := BuildTopKSimilarity(cosine, config.topK);
      similarity := Some(topk);
    }

    /** `recommend`, scanning the queried row for candidates. */
    /** The loop over one similarity row: every other item with a positive score. */
    static method CollectCandidates(similarities: seq<real>, movieIdx: nat) returns (similarItems: seq<Scored>)
      ensures similarItems == Candidates(similarities, movieIdx)
    {
      similarItems := [];
      var j := 0;
      while j < |similarities|
        invariant 0 <= j <= |similarities|
        invariant similarItems == Candidates(similarities[..j], movieIdx)
      {
        CandidatesSnoc(similarities, j, movieIdx);
        if j != movieIdx && similarities[j] > 0.0 {
          similarItems := similarItems + [Scored(j, similarities[j])];
        }
        j := j + 1;
      }
      assert similarities[..j] == similarities;
    }

    method Recommend(movieId: string, topN: int) returns (r: Result<Option<seq<(string, real)>>>)
      ensures r == RecommendOf(similarity, idMapping, movieId, topN)
    {
      if similarity.None? {
        return Err(ValueError);
      }
      if idMapping.None? {
        return Err(AttributeError);
      }
      var mapping := idMapping.value;
      if movieId !in mapping.movieToIdx {
        return Ok(None);
      }
      var movieIdx := mapping.movieToIdx[movieId];
      if movieIdx >= |similarity.value| {
        return Err(IndexError);
      }
      var similarities := similarity.value[movieIdx];
      var similarItems := CollectCandidates(similarities, movieIdx);
      var topSimilar := Head(SortDesc(similarItems, ScoreOf), topN);
      assert topSimilar == Ranked(similarities, movieIdx, topN);
      if |topSimilar| == 0 {
        return Ok(None);
      }
      if exists t :: 0 <= t < |topSimilar| && topSimilar[t].idx !in mapping.idxToMovie {
        return Err(KeyError);
      }
      r := Ok(Some(seq(|topSimilar|, t requires 0 <= t < |topSimilar| =>
        (mapping.idxToMovie[topSimilar[t].idx], topSimilar[t].score))));
    }

    /** `save`: `ValueError` before `fit`, otherwise the pickled fields. */
    method Save() returns (r: Result<SavedModel>)
      ensures r.Err? <==> similarity.None?
      ensures r.Err? ==> r.error == ValueError
      ensures r.Ok? ==> r.value == SavedModel(config, similarity.value, idMapping)
    {
      if similarity.None? {
        return Err(ValueError);
      }
      r := Ok(SavedModel(config, similarity.value, idMapping));
    }

    /** `load`: `FileNotFoundError` for a missing file, otherwise a fresh recommender
        holding the saved configuration, matrix and mapping. */
    static method Load(file: Option<SavedModel>) returns (r: Result<ItemBasedRecommender>)
      ensures r.Err? <==> file.None?
      ensures r.Err? ==> r.error == FileNotFoundError
      ensures r.Ok? ==> (fresh(r.value) && r.value.config == file.value.config &&
        r.value.similarity == Some(file.value.similarity) && r.value.idMapping == file.value.idMapping)
    {
      if file.None? {
        return Err(FileNotFoundError);
      }
      var recommender := new ItemBasedRecommender(Some(file.value.config));
      recommender.similarity := Some(file.value.similarity);
      recommender.idMapping := file.value.idMapping;
      r := Ok(recommender);
    }
  }
}
