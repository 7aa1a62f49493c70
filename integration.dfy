/** `DataIntegrator` of `modeling/utils/data_integration.py`: cleaning of the Firebase
    ratings, the merge of the two rating sources with last-write-wins on
    `(user_id, movie_id)`, the summary statistics and the non-raising count filter. */
module DataIntegration {
  import opened Wrappers
  import opened Seqs
  import opened Ratings

  // ---------------------------------------------------------------- Firebase ratings

  /** A row as fetched from Firestore: any of the three key fields may be missing. */
  datatype FirebaseRating = FirebaseRating(
    userId: Option<string>, movieId: Option<string>, title: string, rating: Option<real>)

  datatype FirebaseFrame = FirebaseFrame(columns: set<string>, rows: seq<FirebaseRating>)

  const KeyColumns: set<string> := {"user_id", "movie_id", "rating"}

  /** The row survives `dropna` on the three key columns and both range masks. */
  predicate Usable(f: FirebaseRating)
  {
    f.userId.Some? && f.movieId.Some? && f.rating.Some? && 0.5 <= f.rating.value <= 5.0
  }

  function AsRating(f: FirebaseRating): Rating
    requires f.userId.Some? && f.movieId.Some? && f.rating.Some?
  {
    Rating(f.userId.value, f.movieId.value, f.title, f.rating.value)
  }

  /** The rows kept by the cleaning steps, in their order. */
  function CleanFirebase(rows: seq<FirebaseRating>): (r: seq<Rating>)
    ensures |r| <= |rows|
    ensures forall x :: x in r ==> 0.5 <= x.rating <= 5.0
    ensures forall x :: x in r <==> exists f :: f in rows && Usable(f) && AsRating(f) == x
  {
    if |rows| == 0 then []
    else
      var rest := CleanFirebase(rows[1..]);
      assert forall f :: f in rows <==> f == rows[0] || f in rows[1..];
      if Usable(rows[0]) then [AsRating(rows[0])] + rest else rest
  }

  /** `load_firebase_data`: a failed fetch or an empty frame gives an empty frame; a
      frame lacking one of the key columns makes `dropna` raise, which is caught and
      also gives an empty frame; otherwise the cleaned rows. */
  function LoadFirebaseData(fetched: Result<FirebaseFrame>): (r: RatingFrame)
    ensures fetched.Err? ==> r == RatingFrame({}, [])
    ensures fetched.Ok? && (|fetched.value.rows| == 0 || !(KeyColumns <= fetched.value.columns)) ==>
      r == RatingFrame({}, [])
    ensures fetched.Ok? && |fetched.value.rows| > 0 && KeyColumns <= fetched.value.columns ==>
      r.columns == fetched.value.columns
    ensures forall x :: x in r.rows ==> 0.5 <= x.rating <= 5.0
    ensures forall x :: x in r.rows ==> fetched.Ok? && exists f :: f in fetched.value.rows && Usable(f) && AsRating(f) == x
    ensures fetched.Ok? && KeyColumns <= fetched.value.columns ==>
      forall f :: f in fetched.value.rows && Usable(f) ==> AsRating(f) in r.rows
  {
    match fetched
    case Err(_) => RatingFrame({}, [])
    case Ok(frame) =>
      if |frame.rows| == 0 || frame.columns == {} then RatingFrame({}, [])
      else if !(KeyColumns <= frame.columns) then RatingFrame({}, [])
      else RatingFrame(frame.columns, CleanFirebase(frame.rows))
  }

  // ---------------------------------------------------------------- integration

  function Key(r: Rating): (string, string)
  {
    (r.userId, r.movieId)
  }

  /** The last row of `rows` with key `k`, if any. */
  function LastWithKey(rows: seq<Rating>, k: (string, string)): (r: Option<Rating>)
    ensures r.Some? ==> r.value in rows && Key(r.value) == k
    ensures r.None? ==> forall x :: x in rows ==> Key(x) != k
  {
    if |rows| == 0 then None
    else
      var later := LastWithKey(rows[1..], k);
      if later.Some? then later
      else if Key(rows[0]) == k then Some(rows[0])
      else None
  }

  /** `drop_duplicates(subset=['user_id', 'movie_id'], keep='last')`: a row is kept
      exactly when no later row has its key. */
  function KeepLast(rows: seq<Rating>): (r: seq<Rating>)
    ensures IsSubsequence(r, rows)
    ensures forall x :: x in r ==> LastWithKey(rows, Key(x)) == Some(x)
    ensures forall k :: LastWithKey(rows, k).Some? ==> LastWithKey(rows, k).value in r
    ensures forall i, j :: 0 <= i < j < |r| ==> Key(r[i]) != Key(r[j])
  {
    if |rows| == 0 then []
    else
      var rest := KeepLast(rows[1..]);
      if LastWithKey(rows[1..], Key(rows[0])).Some? then
        SubsequenceSkip(rest, rows);
        rest
      else
        var r := [rows[0]] + rest;
        assert r[1..] == rest;
        forall j | 0 < j < |r|
          ensures Key(r[0]) != Key(r[j])
        {
          assert r[j] in rest;
        }
        r
  }

  /** `integrate_data`: both sources empty gives an empty frame; one empty source gives
      a copy of the other; otherwise the concatenation deduplicated with
      last-write-wins. Without the id columns `drop_duplicates` raises, and the caught
      exception gives an empty frame. */
  function IntegrateData(original: RatingFrame, firebase: RatingFrame): (r: RatingFrame)
    ensures original.IsEmpty() && firebase.IsEmpty() ==> r == RatingFrame({}, [])
    ensures !original.IsEmpty() && firebase.IsEmpty() ==> r == original
    ensures original.IsEmpty() && !firebase.IsEmpty() ==> r == firebase
    ensures !original.IsEmpty() && !firebase.IsEmpty() ==>
      r.columns == (if RatingFrame(original.columns + firebase.columns, []).HasIdColumns()
                    then original.columns + firebase.columns else {})
  {
    if original.IsEmpty() && firebase.IsEmpty() then RatingFrame({}, [])
    else if firebase.IsEmpty() then original
    else if original.IsEmpty() then firebase
    else
      var columns := original.columns + firebase.columns;
      if !("user_id" in columns && "movie_id" in columns) then RatingFrame({}, [])
      else RatingFrame(columns, KeepLast(original.rows + firebase.rows))
  }

  lemma {:induction false} LastWithKeyAppend(a: seq<Rating>, b: seq<Rating>, k: (string, string))
    ensures LastWithKey(a + b, k) ==
      if LastWithKey(b, k).Some? then LastWithKey(b, k) else LastWithKey(a, k)
    decreases |a|
  {
    if |a| > 0 {
      assert (a + b)[1..] == a[1..] + b;
      LastWithKeyAppend(a[1..], b, k);
    } else {
      assert a + b == b;
    }
  }

  /** Merging two non-empty sources that carry the id columns: each
      `(user_id, movie_id)` pair occurs at most once, and a pair present in the
      Firebase rows is represented by the last Firebase row for it, whatever the
      original rows hold; a pair only in the original rows keeps its last original row. */
  lemma FirebaseOverrides(original: RatingFrame, firebase: RatingFrame, k: (string, string))
    requires !original.IsEmpty() && !firebase.IsEmpty()
    requires RatingFrame(original.columns + firebase.columns, []).HasIdColumns()
    ensures var r := IntegrateData(original, firebase).rows;
      (forall i, j :: 0 <= i < j < |r| ==> Key(r[i]) != Key(r[j])) &&
      (LastWithKey(firebase.rows, k).Some? ==>
        LastWithKey(firebase.rows, k).value in r &&
        forall x :: x in r && Key(x) == k ==> x == LastWithKey(firebase.rows, k).value) &&
      (LastWithKey(firebase.rows, k).None? && LastWithKey(original.rows, k).Some? ==>
        LastWithKey(original.rows, k).value in r &&
        forall x :: x in r && Key(x) == k ==> x == LastWithKey(original.rows, k).value)
  {
    var all := original.rows + firebase.rows;
    assert IntegrateData(original, firebase).rows == KeepLast(all);
    LastWithKeyAppend(original.rows, firebase.rows, k);
  }

  /** The merged rows are an order-preserving selection of the concatenated rows. */
  lemma IntegrateKeepsOrder(original: RatingFrame, firebase: RatingFrame)
    requires !original.IsEmpty() && !firebase.IsEmpty()
    requires RatingFrame(original.columns + firebase.columns, []).HasIdColumns()
    ensures IsSubsequence(IntegrateData(original, firebase).rows, original.rows + firebase.rows)
  {
  }

  // ---------------------------------------------------------------- statistics

  datatype Stats = Stats(
    totalRatings: nat, uniqueUsers: nat, uniqueMovies: nat, avgRating: real,
    distribution: map<real, nat>)

  function RatingSum(rows: seq<Rating>): real
  {
    if |rows| == 0 then 0.0 else rows[0].rating + RatingSum(rows[1..])
  }

  /** `value_counts()[v]` of the rating column. */
  function RatingCount(rows: seq<Rating>, v: real): nat
  {
    if |rows| == 0 then 0
    else (if rows[0].rating == v then 1 else 0) + RatingCount(rows[1..], v)
  }

  function UserSet(rows: seq<Rating>): set<string>
  {
    set x | x in rows :: x.userId
  }

  function MovieSet(rows: seq<Rating>): set<string>
  {
    set x | x in rows :: x.movieId
  }

  function RatingSet(rows: seq<Rating>): set<real>
  {
    set x | x in rows :: x.rating
  }

  /** `get_data_statistics`: all zeros for an empty frame; a missing column makes the
      column access raise `KeyError`, which is not caught. */
  function GetDataStatistics(data: RatingFrame): (r: Result<Stats>)
    ensures data.IsEmpty() ==> r == Ok(Stats(0, 0, 0, 0.0, map[]))
    ensures r.Err? <==> !data.IsEmpty() && !(KeyColumns <= data.columns)
    ensures r.Err? ==> r.error == KeyError
    ensures r.Ok? && !data.IsEmpty() ==>
      r.value.totalRatings == |data.rows| &&
      r.value.uniqueUsers == |UserSet(data.rows)| && r.value.uniqueMovies == |MovieSet(data.rows)| &&
      r.value.avgRating == Mean(data.rows) &&
      r.value.distribution.Keys == RatingSet(data.rows) &&
      forall v :: v in r.value.distribution ==> r.value.distribution[v] == RatingCount(data.rows, v)
  {
    if data.IsEmpty() then Ok(Stats(0, 0, 0, 0.0, map[]))
    else if !(KeyColumns <= data.columns) then Err(KeyError)
    else
      var n := |data.rows|;
      Ok(Stats(n, |UserSet(data.rows)|, |MovieSet(data.rows)|, Mean(data.rows),
               map v | v in RatingSet(data.rows) :: RatingCount(data.rows, v)))
  }

  /** `data['rating'].mean()`. */
  function Mean(rows: seq<Rating>): real
    requires |rows| > 0
  {
    RatingSum(rows) / (|rows| as real)
  }

  lemma {:induction false} ImageBound(rows: seq<Rating>)
    ensures |UserSet(rows)| <= |rows| && |MovieSet(rows)| <= |rows|
    decreases |rows|
  {
    if |rows| > 0 {
      ImageBound(rows[1..]);
      ImageCons(rows);
      AddOneCard(UserSet(rows[1..]), rows[0].userId);
      AddOneCard(MovieSet(rows[1..]), rows[0].movieId);
    }
  }

  lemma ImageCons(rows: seq<Rating>)
    requires |rows| > 0
    ensures UserSet(rows) == UserSet(rows[1..]) + {rows[0].userId}
    ensures MovieSet(rows) == MovieSet(rows[1..]) + {rows[0].movieId}
  {
    assert rows == [rows[0]] + rows[1..];
  }

  lemma AddOneCard<T>(s: set<T>, a: T)
    ensures |s + {a}| <= |s| + 1
  {
    if a !in s {
      assert |s + {a}| == |s| + 1;
    } else {
      assert s + {a} == s;
    }
  }

  lemma {:induction false} SumBounds(rows: seq<Rating>, lo: real, hi: real)
    requires forall x :: x in rows ==> lo <= x.rating <= hi
    ensures lo * (|rows| as real) <= RatingSum(rows) <= hi * (|rows| as real)
    decreases |rows|
  {
    if |rows| > 0 {
      SumBounds(rows[1..], lo, hi);
      assert rows[0] in rows;
    }
  }

  lemma {:induction false} RatingCountPositive(rows: seq<Rating>, v: real)
    requires v in RatingSet(rows)
    ensures RatingCount(rows, v) > 0
    decreases |rows|
  {
    if rows[0].rating != v {
      var x :| x in rows && x.rating == v;
      assert x in rows[1..];
      RatingCountPositive(rows[1..], v);
    }
  }

  /** Bounds of the statistics of a non-empty frame: between 1 and the row count
      distinct users and movies; every distribution entry counts at least one row; and
      the average lies between any bounds of the individual ratings (so a frame of
      cleaned Firebase ratings averages within [0.5, 5.0]). */
  lemma StatisticsBounds(data: RatingFrame, lo: real, hi: real)
    requires GetDataStatistics(data).Ok? && !data.IsEmpty()
    requires forall x :: x in data.rows ==> lo <= x.rating <= hi
    ensures var s := GetDataStatistics(data).value;
      1 <= s.uniqueUsers <= s.totalRatings && 1 <= s.uniqueMovies <= s.totalRatings &&
      lo <= s.avgRating <= hi &&
      forall v :: v in s.distribution ==> s.distribution[v] >= 1
  {
    var rows := data.rows;
    var s := GetDataStatistics(data).value;
    ImageBound(rows);
    assert rows[0].userId in UserSet(rows) && rows[0].movieId in MovieSet(rows);
    AverageBounds(rows, lo, hi);
    forall v | v in s.distribution
      ensures s.distribution[v] >= 1
    {
      RatingCountPositive(rows, v);
    }
  }

  lemma AverageBounds(rows: seq<Rating>, lo: real, hi: real)
    requires |rows| > 0
    requires forall x :: x in rows ==> lo <= x.rating <= hi
    ensures lo <= Mean(rows) <= hi
  {
    var n := |rows| as real;
    var t := RatingSum(rows);
    SumBounds(rows, lo, hi);
    assert lo * n <= t <= hi * n;
    MeanBetween(t, n, lo, hi);
  }

  lemma MeanBetween(sum: real, n: real, lo: real, hi: real)
    requires n > 0.0 && lo * n <= sum <= hi * n
    ensures lo <= sum / n <= hi
  {
    var avg := sum / n;
    assert avg * n == sum;
    assert (avg - lo) * n >= 0.0 && (hi - avg) * n >= 0.0;
  }

  // ---------------------------------------------------------------- filter_data

  /** `filter_data` of the integrator: the same input-count rule as
      `filter_by_min_counts`, but an empty result is returned as is, and a frame
      without the id columns raises inside the `try` and is returned unchanged. */
  function FilterData(data: RatingFrame, minUser: int, minMovie: int): (r: RatingFrame)
    ensures !data.HasIdColumns() ==> r == data
    ensures data.HasIdColumns() ==> r.columns == data.columns
    ensures IsSubsequence(r.rows, data.rows)
    ensures data.HasIdColumns() ==>
      forall x :: x in r.rows <==> x in data.rows && Survives(data.rows, x, minUser, minMovie)
  {
    if !data.HasIdColumns() then
      SubsequenceRefl(data.rows);
      data
    else RatingFrame(data.columns, CountFilter(data.rows, minUser, minMovie))
  }

  lemma {:induction false} SubsequenceRefl<T>(xs: seq<T>)
    ensures IsSubsequence(xs, xs)
    decreases |xs|
  {
    if |xs| > 0 {
      SubsequenceRefl(xs[1..]);
    }
  }

  /** Where `filter_by_min_counts` succeeds the two filters agree; where it fails on an
      empty result, this one returns the empty frame instead of raising. */
  lemma FilterDataAgrees(data: RatingFrame, minUser: int, minMovie: int)
    requires !data.IsEmpty() && data.HasIdColumns()
    ensures FilterByMinCounts(data, minUser, minMovie).Ok? ==>
      FilterByMinCounts(data, minUser, minMovie).value == FilterData(data, minUser, minMovie)
    ensures FilterByMinCounts(data, minUser, minMovie).Err? ==>
      FilterData(data, minUser, minMovie).rows == []
  {
  }
}
