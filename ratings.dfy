/** Rating preparation of `modeling/utils/data.py`: the minimum-count filter, the dense
    id mapping, and title lookup over the movie table. */
module Ratings {
  import opened Wrappers
  import opened PyText
  import opened Seqs
  import opened IdIndex

  /** One row of a ratings frame. */
  datatype Rating = Rating(userId: string, movieId: string, title: string, rating: real)

  /** A ratings `DataFrame`: its column labels and its rows. */
  datatype RatingFrame = RatingFrame(columns: set<string>, rows: seq<Rating>) {
    /** `df.empty`: no rows or no columns. */
    predicate IsEmpty()
    {
      |rows| == 0 || columns == {}
    }

    predicate HasIdColumns()
    {
      "user_id" in columns && "movie_id" in columns
    }
  }

  // ---------------------------------------------------------------- minimum-count filter

  /** `df.groupby('user_id').size()[u]`. */
  function UserCount(rows: seq<Rating>, u: string): nat
  {
    if |rows| == 0 then 0
    else (if rows[0].userId == u then 1 else 0) + UserCount(rows[1..], u)
  }

  /** `df.groupby('movie_id').size()[m]`. */
  function MovieCount(rows: seq<Rating>, m: string): nat
  {
    if |rows| == 0 then 0
    else (if rows[0].movieId == m then 1 else 0) + MovieCount(rows[1..], m)
  }

  /** A row's user is among `valid_users` and its movie among `valid_movies`,
      both counted on `all`. */
  predicate Survives(all: seq<Rating>, r: Rating, minUser: int, minMovie: int)
  {
    UserCount(all, r.userId) >= minUser && MovieCount(all, r.movieId) >= minMovie
  }

  /** The mask of the filter: both counts taken once, on the unfiltered rows. */
  function CountFilter(rows: seq<Rating>, minUser: int, minMovie: int): (r: seq<Rating>)
    ensures forall x :: x in r <==> x in rows && Survives(rows, x, minUser, minMovie)
    ensures IsSubsequence(r, rows)
  {
    var keep := (x: Rating) => Survives(rows, x, minUser, minMovie);
    FilterIsSubsequence(rows, keep);
    Filter(rows, keep)
  }

  /** `filter_by_min_counts`: `ValueError` for an empty frame, a frame without the id
      columns, or an empty result; otherwise the surviving rows in their order. */
  function FilterByMinCounts(df: RatingFrame, minUser: int, minMovie: int): (r: Result<RatingFrame>)
    ensures r.Err? ==> r.error == ValueError
    ensures r.Err? <==> df.IsEmpty() || !df.HasIdColumns() || CountFilter(df.rows, minUser, minMovie) == []
    ensures r.Ok? ==> r.value.columns == df.columns && r.value.rows != []
    ensures r.Ok? ==> IsSubsequence(r.value.rows, df.rows)
    ensures r.Ok? ==> forall x :: x in r.value.rows <==> x in df.rows && Survives(df.rows, x, minUser, minMovie)
  {
    if df.IsEmpty() then Err(ValueError)
    else if !df.HasIdColumns() then Err(ValueError)
    else
      var kept := CountFilter(df.rows, minUser, minMovie);
      if kept == [] then Err(ValueError)
      else Ok(RatingFrame(df.columns, kept))
  }

  /** The counts are not recomputed, so the result need not survive its own filter:
      with thresholds 2 and 2, (u1, m1) survives the first pass and nothing the second. */
  lemma CountFilterNotFixedPoint()
    ensures var rows := [Rating("u1", "m1", "", 4.0), Rating("u1", "m2", "", 3.0), Rating("u2", "m1", "", 5.0)];
      CountFilter(rows, 2, 2) == [rows[0]] && CountFilter(CountFilter(rows, 2, 2), 2, 2) == []
  {
    var rows := [Rating("u1", "m1", "", 4.0), Rating("u1", "m2", "", 3.0), Rating("u2", "m1", "", 5.0)];
    assert UserCount(rows, "u1") == 2 && MovieCount(rows, "m1") == 2;
    assert MovieCount(rows, "m2") == 1 && UserCount(rows, "u2") == 1;
    var once := CountFilter(rows, 2, 2);
    assert Filter(rows[2..], (x: Rating) => Survives(rows, x, 2, 2)) == [];
    assert Filter(rows[1..], (x: Rating) => Survives(rows, x, 2, 2)) == [];
    assert once == [rows[0]];
    assert UserCount(once, "u1") == 1;
    assert Filter(once[1..], (x: Rating) => Survives(once, x, 2, 2)) == [];
  }

  // ---------------------------------------------------------------- id mapping

  /** `IDMapping`: the four dictionaries of `preprocess_id_mapping`. */
  datatype IdMapping = IdMapping(
    userToIdx: map<string, nat>, idxToUser: map<nat, string>,
    movieToIdx: map<string, nat>, idxToMovie: map<nat, string>)

  function UserIds(rows: seq<Rating>): (r: seq<string>)
    ensures |r| == |rows| && forall i :: 0 <= i < |rows| ==> r[i] == rows[i].userId
  {
    seq(|rows|, i requires 0 <= i < |rows| => rows[i].userId)
  }

  function MovieIds(rows: seq<Rating>): (r: seq<string>)
    ensures |r| == |rows| && forall i :: 0 <= i < |rows| ==> r[i] == rows[i].movieId
  {
    seq(|rows|, i requires 0 <= i < |rows| => rows[i].movieId)
  }

  /** The mapping built from `sorted(df[col].unique())`. */
  function BuildMapping(rows: seq<Rating>): IdMapping
  {
    var users := SortedIds(UserIds(rows));
    var movies := SortedIds(MovieIds(rows));
    IdMapping(ToIndex(users), FromIndex(users), ToIndex(movies), FromIndex(movies))
  }

  /** Every user and movie id of the rows has an index. */
  lemma MappingHasRows(rows: seq<Rating>)
    ensures forall i :: 0 <= i < |rows| ==>
      rows[i].userId in BuildMapping(rows).userToIdx && rows[i].movieId in BuildMapping(rows).movieToIdx
  {
    assert forall i :: 0 <= i < |rows| ==> rows[i].userId in Elems(UserIds(rows));
    assert forall i :: 0 <= i < |rows| ==> rows[i].movieId in Elems(MovieIds(rows));
  }

  /** A row of `df_new`: the original row plus its two indices. */
  datatype IndexedRating = IndexedRating(row: Rating, userIdx: nat, movieIdx: nat)

  /** `preprocess_id_mapping`: the same `ValueError`s as the filter, otherwise a copy
      of the rows with their indices added, and the mapping. */
  function PreprocessIdMapping(df: RatingFrame): (r: Result<(seq<IndexedRating>, IdMapping)>)
    ensures r.Err? <==> df.IsEmpty() || !df.HasIdColumns()
    ensures r.Err? ==> r.error == ValueError
    ensures r.Ok? ==> var (out, m) := r.value;
      m == BuildMapping(df.rows) && |out| == |df.rows| &&
      forall i :: 0 <= i < |out| ==>
        out[i].row == df.rows[i] &&
        df.rows[i].userId in m.userToIdx && out[i].userIdx == m.userToIdx[df.rows[i].userId] &&
        df.rows[i].movieId in m.movieToIdx && out[i].movieIdx == m.movieToIdx[df.rows[i].movieId]
  {
    if df.IsEmpty() || !df.HasIdColumns() then Err(ValueError)
    else
      var m := BuildMapping(df.rows);
      MappingHasRows(df.rows);
      var out := seq(|df.rows|, i requires 0 <= i < |df.rows| =>
        IndexedRating(df.rows[i], m.userToIdx[df.rows[i].userId], m.movieToIdx[df.rows[i].movieId]));
      Ok((out, m))
  }

  /** `user_to_idx` maps the distinct user ids onto 0..n-1 and `idx_to_user` is its
      inverse, and the same for movies. */
  lemma MappingIsBijection(rows: seq<Rating>)
    ensures var m := BuildMapping(rows);
      var nu := |SortedIds(UserIds(rows))|;
      var nm := |SortedIds(MovieIds(rows))|;
      m.userToIdx.Keys == Elems(UserIds(rows)) && m.movieToIdx.Keys == Elems(MovieIds(rows)) &&
      (forall u :: u in m.userToIdx ==> m.userToIdx[u] < nu && m.idxToUser[m.userToIdx[u]] == u) &&
      (forall i: nat :: i in m.idxToUser <==> i < nu) &&
      (forall i: nat :: i < nu ==> m.idxToUser[i] in m.userToIdx && m.userToIdx[m.idxToUser[i]] == i) &&
      (forall v :: v in m.movieToIdx ==> m.movieToIdx[v] < nm && m.idxToMovie[m.movieToIdx[v]] == v) &&
      (forall i: nat :: i in m.idxToMovie <==> i < nm) &&
      (forall i: nat :: i < nm ==> m.idxToMovie[i] in m.movieToIdx && m.movieToIdx[m.idxToMovie[i]] == i)
  {
    IndexBijection(SortedIds(UserIds(rows)));
    IndexBijection(SortedIds(MovieIds(rows)));
  }

  /** The mapping depends only on which ids occur, not on row order or repeats. */
  lemma MappingOrderIndependent(a: seq<Rating>, b: seq<Rating>)
    requires Elems(UserIds(a)) == Elems(UserIds(b)) && Elems(MovieIds(a)) == Elems(MovieIds(b))
    ensures BuildMapping(a) == BuildMapping(b)
  {
    SortedIdsOrderIndependent(UserIds(a), UserIds(b));
    SortedIdsOrderIndependent(MovieIds(a), MovieIds(b));
  }

  // ---------------------------------------------------------------- title lookup

  /** A movie-table row; a missing title is NaN and matches nothing. */
  datatype MovieRow = MovieRow(movieId: string, title: Option<string>, movieIdx: Option<int>)

  datatype MovieFrame = MovieFrame(columns: set<string>, rows: seq<MovieRow>)

  /** `title == query`, or `title.str.contains(query, case=False, na=False)`. */
  predicate TitleMatches(row: MovieRow, query: string, exact: bool)
  {
    match row.title
    case None => false
    case Some(t) => if exact then t == query else ContainsIgnoreCase(t, query)
  }

  function MatchRows(rows: seq<MovieRow>, query: string, exact: bool): (r: seq<MovieRow>)
    ensures forall x :: x in r <==> x in rows && TitleMatches(x, query, exact)
  {
    Filter(rows, (x: MovieRow) => TitleMatches(x, query, exact))
  }

  /** The first row with the given id, if any. */
  function FirstWithId(rows: seq<MovieRow>, id: string): (r: Option<MovieRow>)
    ensures r.Some? ==> r.value in rows && r.value.movieId == id
    ensures r.None? <==> forall x :: x in rows ==> x.movieId != id
  {
    if |rows| == 0 then None
    else if rows[0].movieId == id then Some(rows[0])
    else FirstWithId(rows[1..], id)
  }

  /** Some row of `rows` carries `id`. */
  predicate HasMovieId(rows: seq<MovieRow>, id: string)
  {
    exists y :: y in rows && y.movieId == id
  }

  /** The position of the first row carrying `id`; `|rows|` when none does. */
  function FirstPos(rows: seq<MovieRow>, id: string): (k: nat)
    ensures k <= |rows| && (k < |rows| <==> HasMovieId(rows, id))
    ensures k < |rows| ==> rows[k].movieId == id
    ensures forall j :: 0 <= j < k ==> rows[j].movieId != id
  {
    if |rows| == 0 then 0
    else if rows[0].movieId == id then
      assert rows[0] in rows;
      0
    else
      var k := FirstPos(rows[1..], id);
      assert k < |rows| - 1 ==> rows[1..][k] in rows;
      assert HasMovieId(rows, id) ==> HasMovieId(rows[1..], id) by {
        if HasMovieId(rows, id) {
          var y :| y in rows && y.movieId == id;
          assert y in rows[1..];
        }
      }
      k + 1
  }

  /** Past a first row with another id, first positions shift by one. */
  lemma FirstPosShift(rows: seq<MovieRow>, id: string)
    requires |rows| > 0 && rows[0].movieId != id
    ensures FirstPos(rows, id) == FirstPos(rows[1..], id) + 1
  {
  }

  /** Rows ordered by first position in the tail of `rows`, none carrying the first
      row's id, stay ordered in `rows`, also behind that first row. */
  lemma ShiftOrder(rows: seq<MovieRow>, t: seq<MovieRow>, r: seq<MovieRow>)
    requires |rows| > 0 && (r == t || r == [rows[0]] + t)
    requires forall k :: 0 <= k < |t| ==> t[k].movieId != rows[0].movieId
    requires forall i, j :: 0 <= i < j < |t| ==> FirstPos(rows[1..], t[i].movieId) < FirstPos(rows[1..], t[j].movieId)
    ensures forall i, j :: 0 <= i < j < |r| ==> FirstPos(rows, r[i].movieId) < FirstPos(rows, r[j].movieId)
  {
    forall k | 0 <= k < |t|
      ensures FirstPos(rows, t[k].movieId) == FirstPos(rows[1..], t[k].movieId) + 1
    {
      FirstPosShift(rows, t[k].movieId);
    }
    var off := if r == t then 0 else 1;
    forall i, j | 0 <= i < j < |r|
      ensures FirstPos(rows, r[i].movieId) < FirstPos(rows, r[j].movieId)
    {
      assert r[j] == t[j - off];
      if i >= off {
        assert r[i] == t[i - off];
      }
    }
  }

  /** The deduplicated rows follow the order in which their ids first appear. */
  lemma {:induction false} DedupOrder(rows: seq<MovieRow>, seen: set<string>)
    ensures forall i, j :: 0 <= i < j < |DedupFrom(rows, seen)| ==>
      FirstPos(rows, DedupFrom(rows, seen)[i].movieId) < FirstPos(rows, DedupFrom(rows, seen)[j].movieId)
    decreases |rows|
  {
    if |rows| > 0 {
      var seen' := seen + {rows[0].movieId};
      var t := DedupFrom(rows[1..], seen');
      DedupOrder(rows[1..], seen');
      forall k | 0 <= k < |t|
        ensures t[k].movieId != rows[0].movieId
      {
        assert t[k] in t;
      }
      if rows[0].movieId in seen {
        assert seen' == seen;
        ShiftOrder(rows, t, DedupFrom(rows, seen));
      } else {
        ShiftOrder(rows, t, DedupFrom(rows, seen));
      }
    }
  }

  /** `drop_duplicates(subset=['movie_id'])` (keeping the first) on the rows whose
      id is not in `seen`. */
  function DedupFrom(rows: seq<MovieRow>, seen: set<string>): (r: seq<MovieRow>)
    ensures forall x :: x in r ==> x in rows && x.movieId !in seen && FirstWithId(rows, x.movieId) == Some(x)
    ensures forall i, j :: 0 <= i < j < |r| ==> r[i].movieId != r[j].movieId
    ensures forall x :: x in rows && x.movieId !in seen ==> HasMovieId(r, x.movieId)
  {
    if |rows| == 0 then []
    else if rows[0].movieId in seen then DedupFrom(rows[1..], seen)
    else
      var t := DedupFrom(rows[1..], seen + {rows[0].movieId});
      [rows[0]] + t
  }

  /** Rows with distinct ids are no more than one when all share an id. */
  lemma DistinctIdsSingle(r: seq<MovieRow>, id: string)
    requires forall i, j :: 0 <= i < j < |r| ==> r[i].movieId != r[j].movieId
    requires forall x :: x in r ==> x.movieId == id
    ensures |r| <= 1
  {
    FirstTwoIn(r);
  }

  lemma FirstTwoIn<T>(r: seq<T>)
    ensures |r| >= 2 ==> r[0] in r && r[1] in r
  {
  }

  /** `find_movie_id_by_title`: `ValueError` without the title or id column, `None`
      when no title matches, otherwise the matches deduplicated by id (first kept),
      then `head(limit)`. */
  function FindMovieIdByTitle(query: string, df: MovieFrame, exact: bool, limit: int): (r: Result<Option<seq<MovieRow>>>)
    ensures r.Err? <==> !("movie_title" in df.columns && "movie_id" in df.columns)
    ensures r.Err? ==> r.error == ValueError
    ensures r == Ok(None) <==> r.Ok? && forall x :: x in df.rows ==> !TitleMatches(x, query, exact)
    ensures r.Ok? && r.value.Some? ==> var res := r.value.value;
      (limit >= 0 ==> |res| <= limit) && (limit >= 1 ==> |res| >= 1) &&
      (forall i, j :: 0 <= i < j < |res| ==> res[i].movieId != res[j].movieId) &&
      (forall x :: x in res ==>
        (x in df.rows && TitleMatches(x, query, exact) &&
         FirstWithId(MatchRows(df.rows, query, exact), x.movieId) == Some(x)))
    // The rows are the first `limit` distinct ids in the order the matches first show
    // them, and all of them when fewer exist.
    ensures r.Ok? && r.value.Some? ==> FirstDistinct(r.value.value, MatchRows(df.rows, query, exact), limit)
  {
    if !("movie_title" in df.columns && "movie_id" in df.columns) then Err(ValueError)
    else
      var matches := MatchRows(df.rows, query, exact);
      if matches == [] then Ok(None)
      else
        var d := DedupFrom(matches, {});
        assert matches[0] in matches;
        HeadOfDistinct(matches, d, limit);
        DedupHeadInOrder(matches, limit);
        Ok(Some(Head(d, limit)))
  }

  /** The first `limit` rows of a non-empty list of distinct-id rows taken from the
      matches, each the first match of its id, keep those properties. */
  lemma HeadOfDistinct(matches: seq<MovieRow>, d: seq<MovieRow>, limit: int)
    requires exists y :: y in d
    requires forall i, j :: 0 <= i < j < |d| ==> d[i].movieId != d[j].movieId
    requires forall x :: x in d ==> x in matches && FirstWithId(matches, x.movieId) == Some(x)
    ensures var res := Head(d, limit);
      (limit >= 0 ==> |res| <= limit) && (limit >= 1 ==> |res| >= 1) &&
      (forall i, j :: 0 <= i < j < |res| ==> res[i].movieId != res[j].movieId) &&
      (forall x :: x in res ==> x in matches && FirstWithId(matches, x.movieId) == Some(x))
  {
    var res := Head(d, limit);
    forall x | x in res
      ensures x in d
    {
      var i :| 0 <= i < |res| && res[i] == x;
      assert d[i] == x;
    }
    forall i, j | 0 <= i < j < |res|
      ensures res[i].movieId != res[j].movieId
    {
      assert res[i] == d[i] && res[j] == d[j];
    }
  }

  /** `res` holds the first `limit` distinct ids in the order `matches` first shows
      them (all of them when fewer exist): ordered, closed under "first seen earlier",
      and complete when shorter than the limit. */
  predicate FirstDistinct(res: seq<MovieRow>, matches: seq<MovieRow>, limit: int)
  {
    (forall i, j :: 0 <= i < j < |res| ==> FirstPos(matches, res[i].movieId) < FirstPos(matches, res[j].movieId)) &&
    (forall x, y :: x in matches && y in res && FirstPos(matches, x.movieId) < FirstPos(matches, y.movieId) ==>
      HasMovieId(res, x.movieId)) &&
    (limit >= 0 && |res| < limit ==> forall x :: x in matches ==> HasMovieId(res, x.movieId))
  }

  lemma DedupHeadInOrder(matches: seq<MovieRow>, limit: int)
    ensures FirstDistinct(Head(DedupFrom(matches, {}), limit), matches, limit)
  {
    var d := DedupFrom(matches, {});
    DedupOrder(matches, {});
    forall x | x in matches
      ensures HasMovieId(d, x.movieId)
    {
      assert x.movieId !in {};
    }
    HeadInOrder(matches, d, limit);
  }

  /** A prefix of the complete, ordered deduplicated rows is closed under "first seen
      earlier", and is all of them when shorter than the limit. */
  lemma HeadInOrder(matches: seq<MovieRow>, d: seq<MovieRow>, limit: int)
    requires forall i, j :: 0 <= i < j < |d| ==> FirstPos(matches, d[i].movieId) < FirstPos(matches, d[j].movieId)
    requires forall x :: x in matches ==> HasMovieId(d, x.movieId)
    ensures FirstDistinct(Head(d, limit), matches, limit)
  {
    var res := Head(d, limit);
    assert forall i :: 0 <= i < |res| ==> res[i] == d[i];
    if limit >= 0 && |res| < limit {
      assert res == d;
    }
    forall x, y | x in matches && y in res && FirstPos(matches, x.movieId) < FirstPos(matches, y.movieId)
      ensures HasMovieId(res, x.movieId)
    {
      var z :| z in d && z.movieId == x.movieId;
      var a :| 0 <= a < |d| && d[a] == z;
      var b :| 0 <= b < |res| && res[b] == y;
      assert d[b] == y;
      assert a <= b;
      assert res[a] == z;
    }
  }

  /** The first element of a filter is the first element that passes it. */
  lemma {:induction false} FilterFirst<T(!new)>(xs: seq<T>, p: T -> bool, k: nat)
    requires k < |xs| && p(xs[k]) && forall j :: 0 <= j < k ==> !p(xs[j])
    ensures |Filter(xs, p)| > 0 && Filter(xs, p)[0] == xs[k]
  {
    if k > 0 {
      FilterFirst(xs[1..], p, k - 1);
    }
  }

  /** Row `k` is the first whose title is exactly `query`. */
  predicate FirstExactAt(rows: seq<MovieRow>, query: string, k: int)
  {
    0 <= k < |rows| && rows[k].title == Some(query) &&
    forall j :: 0 <= j < k ==> rows[j].title != Some(query)
  }

  /** Exactly one movie id among the partial matches. */
  predicate UniquePartialMatch(rows: seq<MovieRow>, query: string, id: string)
  {
    (exists x :: x in rows && TitleMatches(x, query, false)) &&
    forall x :: x in rows && TitleMatches(x, query, false) ==> x.movieId == id
  }

  /** `result is not None and len(result) > 0`. */
  predicate Found(result: Option<seq<MovieRow>>)
  {
    result.Some? && |result.value| > 0
  }

  /** `get_movie_id`: the id of the first exact title match; failing that, the id of
      the partial matches when there is exactly one; `None` otherwise. */
  function GetMovieId(query: string, df: MovieFrame): (r: Result<Option<string>>)
  {
    var exact :- FindMovieIdByTitle(query, df, true, 1);
    if !Found(exact) then
      // The columns were checked by the first call, so this one cannot fail.
      var partial := FindMovieIdByTitle(query, df, false, 5).value;
      if !Found(partial) then Ok(None)
      else if |partial.value| > 1 then Ok(None)
      else Ok(Some(partial.value[0].movieId))
    else Ok(Some(exact.value[0].movieId))
  }

  /** What `get_movie_id` returns, stated against the table. */
  lemma GetMovieIdSpec(query: string, df: MovieFrame, id: string)
    ensures GetMovieId(query, df).Err? <==> !("movie_title" in df.columns && "movie_id" in df.columns)
    ensures GetMovieId(query, df).Ok? && (exists x :: x in df.rows && TitleMatches(x, query, true)) ==>
      exists x :: x in df.rows && x.title == Some(query) && GetMovieId(query, df) == Ok(Some(x.movieId)) &&
        FirstWithId(MatchRows(df.rows, query, true), x.movieId) == Some(x)
    ensures GetMovieId(query, df).Ok? && (forall x :: x in df.rows ==> !TitleMatches(x, query, true)) ==>
      (GetMovieId(query, df) == Ok(Some(id)) <==> UniquePartialMatch(df.rows, query, id))
    ensures GetMovieId(query, df).Ok? ==>
      forall k :: FirstExactAt(df.rows, query, k) ==> GetMovieId(query, df) == Ok(Some(df.rows[k].movieId))
  {
    if "movie_title" in df.columns && "movie_id" in df.columns {
      var e := FindMovieIdByTitle(query, df, true, 1);
      if e.value.Some? {
        assert e.value.value[0] in e.value.value;
        forall k | FirstExactAt(df.rows, query, k)
          ensures e.value.value[0].movieId == df.rows[k].movieId
        {
          FirstExactIsFirstMatch(query, df, k);
        }
      } else {
        assert forall k :: FirstExactAt(df.rows, query, k) ==> df.rows[k] in df.rows;
        var partial := FindMovieIdByTitle(query, df, false, 5).value;
        PartialMatchCases(query, df, id);
      }
    }
  }

  /** With the limit 1, the exact search returns the first exactly matching row's id. */
  lemma FirstExactIsFirstMatch(query: string, df: MovieFrame, k: int)
    requires "movie_title" in df.columns && "movie_id" in df.columns && FirstExactAt(df.rows, query, k)
    ensures var e := FindMovieIdByTitle(query, df, true, 1);
      e.Ok? && e.value.Some? && |e.value.value| == 1 && e.value.value[0].movieId == df.rows[k].movieId
  {
    var matches := MatchRows(df.rows, query, true);
    FilterFirst(df.rows, (x: MovieRow) => TitleMatches(x, query, true), k);
    assert matches[0] == df.rows[k];
    assert matches[0] in matches;
    var res := FindMovieIdByTitle(query, df, true, 1).value.value;
    assert res[0] in res;
    assert FirstDistinct(res, matches, 1);
    assert FirstPos(matches, matches[0].movieId) == 0;
    assert HasMovieId(res, matches[0].movieId) ==> res[0].movieId == matches[0].movieId;
  }

  lemma PartialMatchCases(query: string, df: MovieFrame, id: string)
    requires "movie_title" in df.columns && "movie_id" in df.columns
    ensures var p := FindMovieIdByTitle(query, df, false, 5).value;
      (p.Some? && |p.value| == 1 && p.value[0].movieId == id) <==> UniquePartialMatch(df.rows, query, id)
  {
    var p := FindMovieIdByTitle(query, df, false, 5).value;
    var matches := MatchRows(df.rows, query, false);
    var d := DedupFrom(matches, {});
    PartialFind(query, df, matches, d);
    HeadSingle(d, id);
    DedupSingle(matches, d, id);
    UniqueOfMatches(df.rows, query, id);
    SingleMatchGlue(p, matches, d, df.rows, query, id);
  }

  lemma DedupSingle(matches: seq<MovieRow>, d: seq<MovieRow>, id: string)
    requires d == DedupFrom(matches, {})
    ensures (|d| == 1 && d[0].movieId == id) <==> |matches| > 0 && forall x :: x in matches ==> x.movieId == id
  {
    SingleIdCases(matches, d, id);
  }

  lemma SingleMatchGlue(p: Option<seq<MovieRow>>, matches: seq<MovieRow>, d: seq<MovieRow>,
                        rows: seq<MovieRow>, query: string, id: string)
    requires p == if matches == [] then None else Some(Head(d, 5))
    requires (|Head(d, 5)| == 1 && Head(d, 5)[0].movieId == id) <==> (|d| == 1 && d[0].movieId == id)
    requires (|d| == 1 && d[0].movieId == id) <==> |matches| > 0 && forall x :: x in matches ==> x.movieId == id
    requires UniquePartialMatch(rows, query, id) <==> |matches| > 0 && forall x :: x in matches ==> x.movieId == id
    ensures (p.Some? && |p.value| == 1 && p.value[0].movieId == id) <==> UniquePartialMatch(rows, query, id)
  {
  }

  lemma PartialFind(query: string, df: MovieFrame, matches: seq<MovieRow>, d: seq<MovieRow>)
    requires "movie_title" in df.columns && "movie_id" in df.columns
    requires matches == MatchRows(df.rows, query, false) && d == DedupFrom(matches, {})
    ensures FindMovieIdByTitle(query, df, false, 5) == Ok(if matches == [] then None else Some(Head(d, 5)))
  {
  }

  lemma HeadSingle(d: seq<MovieRow>, id: string)
    ensures (|Head(d, 5)| == 1 && Head(d, 5)[0].movieId == id) <==> (|d| == 1 && d[0].movieId == id)
  {
    if |d| > 0 {
      assert Head(d, 5)[0] == d[0];
    }
  }

  /** `UniquePartialMatch` read off the partial matches. */
  lemma UniqueOfMatches(rows: seq<MovieRow>, query: string, id: string)
    ensures var m := MatchRows(rows, query, false);
      UniquePartialMatch(rows, query, id) <==> |m| > 0 && forall x :: x in m ==> x.movieId == id
  {
    var m := MatchRows(rows, query, false);
    if |m| > 0 {
      assert m[0] in m;
    }
    if UniquePartialMatch(rows, query, id) {
      var x :| x in rows && TitleMatches(x, query, false);
      assert x in m;
    }
  }

  /** Rows deduplicated by id are one row with id `id` exactly when there are rows
      and they all carry `id`. */
  lemma SingleIdCases(rows: seq<MovieRow>, d: seq<MovieRow>, id: string)
    requires forall x :: x in d ==> x in rows
    requires forall i, j :: 0 <= i < j < |d| ==> d[i].movieId != d[j].movieId
    requires forall x :: x in rows ==> HasMovieId(d, x.movieId)
    ensures (|d| == 1 && d[0].movieId == id) <==> |rows| > 0 && forall x :: x in rows ==> x.movieId == id
  {
    if |d| == 1 && d[0].movieId == id {
      assert d[0] in d;
      forall x | x in rows ensures x.movieId == id {
        var y :| y in d && y.movieId == x.movieId;
        assert d == [d[0]];
      }
    }
    if |rows| > 0 && forall x :: x in rows ==> x.movieId == id {
      assert rows[0] in rows;
      DistinctIdsSingle(d, id);
      var y :| y in d && y.movieId == rows[0].movieId;
    }
  }

  /** `search_movies`: `KeyError` without a title column, otherwise the first `limit`
      rows whose title contains `query` ignoring case. */
  function SearchMovies(df: MovieFrame, query: string, limit: int): (r: Result<seq<MovieRow>>)
    ensures r.Err? <==> "title" !in df.columns
    ensures r.Err? ==> r.error == KeyError
    ensures r.Ok? ==> IsSubsequence(r.value, df.rows)
    ensures r.Ok? ==> forall x :: x in r.value ==> TitleMatches(x, query, false)
    ensures r.Ok? && limit >= 0 ==> |r.value| <= limit
    ensures r.Ok? && limit >= 0 && |r.value| < limit ==>
      forall x :: x in df.rows && TitleMatches(x, query, false) ==> x in r.value
  {
    if "title" !in df.columns then Err(KeyError)
    else
      var matches := MatchRows(df.rows, query, false);
      FilterIsSubsequence(df.rows, (x: MovieRow) => TitleMatches(x, query, false));
      HeadIsSubsequence(matches, limit);
      SubsequenceTrans(Head(matches, limit), matches, df.rows);
      Ok(Head(matches, limit))
  }

  lemma HeadIsSubsequence<T>(xs: seq<T>, n: int)
    ensures IsSubsequence(Head(xs, n), xs)
  {
    PrefixIsSubsequence(xs, |Head(xs, n)|);
  }

  lemma {:induction false} PrefixIsSubsequence<T>(xs: seq<T>, k: nat)
    requires k <= |xs|
    ensures IsSubsequence(xs[..k], xs)
    decreases k
  {
    if k > 0 {
      PrefixIsSubsequence(xs[1..], k - 1);
      assert xs[..k][1..] == xs[1..][..k - 1];
    }
  }

  lemma {:induction false} SubsequenceTrans<T>(xs: seq<T>, ys: seq<T>, zs: seq<T>)
    requires IsSubsequence(xs, ys) && IsSubsequence(ys, zs)
    ensures IsSubsequence(xs, zs)
    decreases |zs|
  {
    if |xs| > 0 && |zs| > 0 {
      if ys[0] == zs[0] {
        if xs[0] == ys[0] {
          SubsequenceTrans(xs[1..], ys[1..], zs[1..]);
        } else {
          SubsequenceTrans(xs, ys[1..], zs[1..]);
          SubsequenceSkip(xs, zs);
        }
      } else {
        SubsequenceTrans(xs, ys, zs[1..]);
        SubsequenceSkip(xs, zs);
      }
    }
  }
}
