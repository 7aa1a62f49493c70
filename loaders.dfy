/** The text-file loaders of `data_scraping/common/data_loader.py`, which
    `app/utils/data_loader.py` repeats line for line: `/`-separated lines become movie
    and rating rows, short or malformed lines are skipped; plus the data directory
    and the app's count filter. */
module DataLoader {
  import opened Wrappers
  import opened PyText
  import opened Seqs
  import opened Ratings
  import DataIntegration

  const Separator: char := '/'

  /** `line.strip().split('/')`. */
  function Fields(line: string): seq<string>
  {
    Split(Strip(line), Separator)
  }

  // ---------------------------------------------------------------- get_data_path

  /** `Path.parent`: the last component dropped; the root is its own parent. */
  function Parent(path: seq<string>): (r: seq<string>)
    ensures |path| > 0 ==> r == path[..|path| - 1]
    ensures |path| == 0 ==> r == path
  {
    if |path| == 0 then path else path[..|path| - 1]
  }

  /** `get_data_path`: three parents above the resolved module file, then
      `data_scraping/data`. Paths are lists of components below the root. */
  function GetDataPath(moduleFile: seq<string>): (r: seq<string>)
    ensures |r| >= 2 && r[|r| - 2..] == ["data_scraping", "data"]
  {
    Parent(Parent(Parent(moduleFile))) + ["data_scraping", "data"]
  }

  /** For the module at `<root>/data_scraping/common/data_loader.py` the result is
      `<root>/data_scraping/data`, the sibling of `common`. */
  lemma DataPathOfModule(root: seq<string>)
    ensures GetDataPath(root + ["data_scraping", "common", "data_loader.py"]) ==
      root + ["data_scraping", "data"]
  {
    var p := root + ["data_scraping", "common", "data_loader.py"];
    assert Parent(p) == root + ["data_scraping", "common"];
    assert Parent(Parent(p)) == root + ["data_scraping"];
    assert Parent(Parent(Parent(p))) == root;
  }

  // ---------------------------------------------------------------- load_movie_data

  /** A movie row once `avg_score`, `popularity` and `year` have been coerced to numbers;
      a coerced `None` is pandas' NaN. */
  datatype MovieRecord = MovieRecord(
    movieId: string, title: string, year: Option<real>, genre: string, country: string,
    runtime: string, rating: string, cast: string, plot: string, avgScore: real,
    popularity: Option<real>, reviewCount: Option<string>)

  /** The field lists the reading loop appends: those of lines with at least 11 fields. */
  function RawMovies(lines: seq<string>): (r: seq<seq<string>>)
    ensures forall p :: p in r ==> |p| >= 11
  {
    if |lines| == 0 then []
    else
      var last := lines[|lines| - 1];
      var init := lines[..|lines| - 1];
      RawMovies(init) + (if |Fields(last)| >= 11 then [Fields(last)] else [])
  }

  /** The kept field lists are exactly those of the lines with at least 11 fields. */
  lemma {:induction false} RawMoviesMembers(lines: seq<string>)
    ensures forall p :: p in RawMovies(lines) <==> exists line :: line in lines && Fields(line) == p && |p| >= 11
  {
    if |lines| > 0 {
      var last := lines[|lines| - 1];
      var init := lines[..|lines| - 1];
      assert lines == init + [last];
      RawMoviesMembers(init);
      RawSnoc(lines, init, last, RawMovies(init));
    }
  }

  lemma RawSnoc(lines: seq<string>, init: seq<string>, last: string, r0: seq<seq<string>>)
    requires lines == init + [last]
    requires forall p :: p in r0 <==> exists line :: line in init && Fields(line) == p && |p| >= 11
    ensures var r := r0 + (if |Fields(last)| >= 11 then [Fields(last)] else []);
      forall p :: p in r <==> exists line :: line in lines && Fields(line) == p && |p| >= 11
  {
    var r := r0 + (if |Fields(last)| >= 11 then [Fields(last)] else []);
    RawSnocSound(lines, init, last, r0, r);
    RawSnocComplete(lines, init, last, r0, r);
  }

  lemma RawSnocSound(lines: seq<string>, init: seq<string>, last: string, r0: seq<seq<string>>, r: seq<seq<string>>)
    requires lines == init + [last] && r == r0 + (if |Fields(last)| >= 11 then [Fields(last)] else [])
    requires forall p :: p in r0 ==> exists line :: line in init && Fields(line) == p && |p| >= 11
    ensures forall p :: p in r ==> exists line :: line in lines && Fields(line) == p && |p| >= 11
  {
    forall p | p in r
      ensures exists line :: line in lines && Fields(line) == p && |p| >= 11
    {
      if p in r0 {
        var line :| line in init && Fields(line) == p && |p| >= 11;
        assert line in lines;
      } else {
        assert Fields(last) == p && last in lines;
      }
    }
  }

  lemma RawSnocComplete(lines: seq<string>, init: seq<string>, last: string, r0: seq<seq<string>>, r: seq<seq<string>>)
    requires lines == init + [last] && r == r0 + (if |Fields(last)| >= 11 then [Fields(last)] else [])
    requires forall p :: (exists line :: line in init && Fields(line) == p && |p| >= 11) ==> p in r0
    ensures forall p :: (exists line :: line in lines && Fields(line) == p && |p| >= 11) ==> p in r
  {
    forall p | exists line :: line in lines && Fields(line) == p && |p| >= 11
      ensures p in r
    {
      var line :| line in lines && Fields(line) == p && |p| >= 11;
      if line != last {
        assert line in init;
      }
    }
  }

  /** One appended row after `to_numeric(errors='coerce')` and `dropna(subset=['avg_score'])`:
      dropped exactly when `avg_score` is not a decimal number; `review_count` is present exactly
      when the line had a twelfth field. */
  function Coerce(parts: seq<string>): (r: Option<MovieRecord>)
    requires |parts| >= 11
    ensures r.Some? <==> ParseFloat(parts[9]).Some?
    ensures r.Some? ==> (r.value.movieId == parts[0] && r.value.title == parts[1] &&
      r.value.avgScore == ParseFloat(parts[9]).value &&
      (r.value.reviewCount.Some? <==> |parts| >= 12) &&
      (|parts| >= 12 ==> r.value.reviewCount == Some(parts[11])))
  {
    match ParseFloat(parts[9])
    case None => None
    case Some(avg) =>
      Some(MovieRecord(parts[0], parts[1], ParseFloat(parts[2]), parts[3], parts[4], parts[5],
        parts[6], parts[7], parts[8], avg, ParseFloat(parts[10]),
        if |parts| > 11 then Some(parts[11]) else None))
  }

  function CoerceAll(raw: seq<seq<string>>): (r: seq<MovieRecord>)
    requires forall p :: p in raw ==> |p| >= 11
    ensures |r| <= |raw|
    ensures forall m :: m in r <==> exists p :: p in raw && Coerce(p) == Some(m)
  {
    if |raw| == 0 then []
    else
      assert raw[0] in raw;
      assert forall p :: p in raw <==> p == raw[0] || p in raw[1..];
      var rest := CoerceAll(raw[1..]);
      match Coerce(raw[0])
      case None => rest
      case Some(m) => [m] + rest
  }

  /** The frame `load_movie_data` returns, or the error it raises: a missing file is a
      `FileNotFoundError`; a file without any line of 11 fields gives a column-less
      frame on which `df_movies['avg_score']` raises `KeyError`. */
  function MoviesOf(file: Option<string>): (r: Result<seq<MovieRecord>>)
    ensures file.None? <==> r == Err(FileNotFoundError)
    ensures r.Err? ==> r.error in {FileNotFoundError, KeyError}
  {
    if file.None? then Err(FileNotFoundError)
    else
      var raw := RawMovies(LinesOf(file.value));
      if |raw| == 0 then Err(KeyError) else Ok(CoerceAll(raw))
  }

  lemma RawMoviesSnoc(lines: seq<string>, i: nat)
    requires i < |lines|
    ensures RawMovies(lines[..i + 1]) ==
      RawMovies(lines[..i]) + (if |Fields(lines[i])| >= 11 then [Fields(lines[i])] else [])
  {
    assert lines[..i + 1][..i] == lines[..i];
  }

  /** The reading loop of `load_movie_data`: the field lists of the lines with at least
      11 fields, in file order. */
  method ReadMovieInfo(lines: seq<string>) returns (movieInfo: seq<seq<string>>)
    ensures movieInfo == RawMovies(lines)
  {
    movieInfo := [];
    var i := 0;
    while i < |lines|
      invariant 0 <= i <= |lines|
      invariant movieInfo == RawMovies(lines[..i])
    {
      var parts := Fields(lines[i]);
      if |parts| >= 11 {
        movieInfo := movieInfo + [parts];
      }
      RawMoviesSnoc(lines, i);
      i := i + 1;
    }
    assert lines[..i] == lines;
  }

  /** `load_movie_data`, reading the file line by line. */
  method LoadMovieData(file: Option<string>) returns (r: Result<seq<MovieRecord>>)
    ensures r == MoviesOf(file)
  {
    if file.None? {
      return Err(FileNotFoundError);
    }
    var movieInfo := ReadMovieInfo(LinesOf(file.value));
    if |movieInfo| == 0 {
      return Err(KeyError);
    }
    r := Ok(CoerceAll(movieInfo));
  }

  /** The loaded movies are exactly the coerced rows of the lines with at least 11
      fields and a numeric `avg_score`; the load fails with `KeyError` exactly when no
      line has 11 fields. */
  lemma MoviesLoaded(text: string)
    ensures MoviesOf(Some(text)).Err? <==> forall line :: line in LinesOf(text) ==> |Fields(line)| < 11
    ensures MoviesOf(Some(text)).Ok? ==> forall m :: m in MoviesOf(Some(text)).value <==>
      exists line :: line in LinesOf(text) && |Fields(line)| >= 11 && Coerce(Fields(line)) == Some(m)
  {
    var raw := RawMovies(LinesOf(text));
    RawMoviesMembers(LinesOf(text));
    forall line | line in LinesOf(text) && |Fields(line)| >= 11
      ensures |raw| > 0
    {
      assert Fields(line) in raw;
    }
    if |raw| > 0 {
      assert raw[0] in raw;
    }
  }

  // ---------------------------------------------------------------- load_ratings_data

  const RatingsColumns: set<string> := {"user_id", "movie_id", "movie_title", "rating"}

  /** The row one line contributes: at least four fields, the fourth a float. */
  function RatingOfLine(line: string): (r: seq<Rating>)
    ensures |r| <= 1
    ensures |r| == 1 <==> |Fields(line)| >= 4 && ParseFloat(Fields(line)[3]).Some?
    ensures |r| == 1 ==> (r[0].userId == Fields(line)[0] && r[0].movieId == Fields(line)[1] &&
      r[0].title == Fields(line)[2] && r[0].rating == ParseFloat(Fields(line)[3]).value)
  {
    var parts := Fields(line);
    if |parts| >= 4 then
      match ParseFloat(parts[3])
      case None => []
      case Some(v) => [Rating(parts[0], parts[1], parts[2], v)]
    else []
  }

  /** The rows the reading loop appends. */
  function ParsedRatings(lines: seq<string>): (r: seq<Rating>)
    ensures |r| <= |lines|
  {
    if |lines| == 0 then []
    else
      var last := lines[|lines| - 1];
      var init := lines[..|lines| - 1];
      assert lines == init + [last];
      ParsedRatings(init) + RatingOfLine(last)
  }

  predicate InRange(x: Rating)
  {
    0.0 <= x.rating <= 5.0
  }

  /** The frame `load_ratings_data` returns, or the error it raises: a missing file
      is a `FileNotFoundError`; with no parsed row the frame has no `rating` column and
      the range mask raises `KeyError`; otherwise the parsed rows within [0, 5]. */
  function RatingsOf(file: Option<string>): (r: Result<RatingFrame>)
    ensures file.None? <==> r == Err(FileNotFoundError)
    ensures r.Err? ==> r.error in {FileNotFoundError, KeyError}
    ensures r.Ok? ==> r.value.columns == RatingsColumns && r.value.HasIdColumns()
    ensures r.Ok? ==> forall x :: x in r.value.rows ==> 0.0 <= x.rating <= 5.0
  {
    if file.None? then Err(FileNotFoundError)
    else
      var parsed := ParsedRatings(LinesOf(file.value));
      if |parsed| == 0 then Err(KeyError)
      else Ok(RatingFrame(RatingsColumns, Filter(parsed, InRange)))
  }

  lemma ParsedRatingsSnoc(lines: seq<string>, i: nat)
    requires i < |lines|
    ensures ParsedRatings(lines[..i + 1]) == ParsedRatings(lines[..i]) + RatingOfLine(lines[i])
  {
    assert lines[..i + 1][..i] == lines[..i];
  }

  /** A row is parsed exactly when some line reads as that one rating. */
  lemma {:induction false} ParsedRatingsMembers(lines: seq<string>)
    ensures forall x :: x in ParsedRatings(lines) <==> exists line :: line in lines && RatingOfLine(line) == [x]
  {
    if |lines| > 0 {
      var init := lines[..|lines| - 1];
      ParsedRatingsMembers(init);
      ParsedSnocMembers(lines, init, lines[|lines| - 1], ParsedRatings(init), ParsedRatings(lines));
    }
  }

  /** One more line adds exactly the rating that line reads as, if any. */
  lemma ParsedSnocMembers(lines: seq<string>, init: seq<string>, last: string, parsed: seq<Rating>, r: seq<Rating>)
    requires lines == init + [last]
    requires r == parsed + RatingOfLine(last)
    requires forall x :: x in parsed <==> exists line :: line in init && RatingOfLine(line) == [x]
    ensures forall x :: x in r <==> exists line :: line in lines && RatingOfLine(line) == [x]
  {
    forall x | x in r
      ensures exists line :: line in lines && RatingOfLine(line) == [x]
    {
      if x in parsed {
        var line :| line in init && RatingOfLine(line) == [x];
        assert line in lines;
      } else {
        assert RatingOfLine(last) == [x];
        assert last in lines;
      }
    }
    forall x | exists line :: line in lines && RatingOfLine(line) == [x]
      ensures x in r
    {
      var line :| line in lines && RatingOfLine(line) == [x];
      if line in init {
        assert x in parsed;
      } else {
        assert line == last;
      }
    }
  }

  /** The body of the reading loop of `load_ratings_data`: a line with at least four
      fields whose fourth is a float gives one rating, any other line none. */
  method ReadRating(line: string) returns (rows: seq<Rating>)
    ensures rows == RatingOfLine(line)
  {
    rows := [];
    var parts := Fields(line);
    if |parts| >= 4 {
      var v := ParseFloat(parts[3]);
      if v.Some? {
        rows := [Rating(parts[0], parts[1], parts[2], v.value)];
      }
    }
  }

  /** The reading loop of `load_ratings_data`: the rating of every line with four
      fields and a float fourth field, in file order. */
  method ReadRatings(lines: seq<string>) returns (ratings: seq<Rating>)
    ensures ratings == ParsedRatings(lines)
  {
    ratings := [];
    var i := 0;
    while i < |lines|
      invariant 0 <= i <= |lines|
      invariant ratings == ParsedRatings(lines[..i])
    {
      var rows := ReadRating(lines[i]);
      ParsedRatingsSnoc(lines, i);
      ratings := ratings + rows;
      i := i + 1;
    }
    assert lines[..i] == lines;
  }

  /** `load_ratings_data`, reading the file line by line; a `ValueError` from
      `float` skips the line. */
  method LoadRatingsData(file: Option<string>) returns (r: Result<RatingFrame>)
    ensures r == RatingsOf(file)
  {
    if file.None? {
      return Err(FileNotFoundError);
    }
    var ratings := ReadRatings(LinesOf(file.value));
    if |ratings| == 0 {
      return Err(KeyError);
    }
    r := Ok(RatingFrame(RatingsColumns, Filter(ratings, InRange)));
  }

  /** A rating is loaded exactly when some line has at least four fields, a fourth
      field that parses as a float, and that float in [0, 5]; the load fails with
      `KeyError` exactly when no line parses at all. */
  lemma RatingsLoaded(text: string)
    ensures RatingsOf(Some(text)).Err? <==> forall line :: line in LinesOf(text) ==> RatingOfLine(line) == []
    ensures RatingsOf(Some(text)).Ok? ==> forall x :: x in RatingsOf(Some(text)).value.rows <==>
      (exists line :: line in LinesOf(text) && RatingOfLine(line) == [x]) && 0.0 <= x.rating <= 5.0
  {
    var lines := LinesOf(text);
    var parsed := ParsedRatings(lines);
    ParsedEmpty(lines);
    ParsedRatingsMembers(lines);
    if |parsed| > 0 {
      var rows := Filter(parsed, InRange);
      assert RatingsOf(Some(text)) == Ok(RatingFrame(RatingsColumns, rows));
      forall x
        ensures x in rows <==> (exists line :: line in lines && RatingOfLine(line) == [x]) && 0.0 <= x.rating <= 5.0
      {
        assert x in rows <==> x in parsed && InRange(x);
      }
    }
  }

  /** No row is parsed exactly when no line yields one. */
  lemma ParsedEmpty(lines: seq<string>)
    ensures |ParsedRatings(lines)| == 0 <==> forall line :: line in lines ==> RatingOfLine(line) == []
  {
    var parsed := ParsedRatings(lines);
    ParsedRatingsMembers(lines);
    forall line | line in lines && RatingOfLine(line) != []
      ensures |parsed| > 0
    {
      var x := RatingOfLine(line)[0];
      assert RatingOfLine(line) == [x];
      assert x in parsed;
    }
    if |parsed| > 0 {
      assert parsed[0] in parsed;
    }
  }

  /** A well-formed line is read back as the rating it records. */
  lemma RatingLine(u: string, m: string, t: string, v: nat)
    requires Separator !in u + m + t && |u| > 0 && !IsSpace(u[0])
    ensures RatingOfLine(u + "/" + m + "/" + t + "/" + NatToString(v) + "\n") ==
      [Rating(u, m, t, v as real)]
  {
    var body := u + "/" + m + "/" + t + "/" + NatToString(v);
    var line := body + "\n";
    var digits := NatToString(v);
    assert body[0] == u[0];
    assert body[|body| - 1] == digits[|digits| - 1];
    StripTrailingSpace(body, "\n");
    RatingFields(u, m, t, NatToString(v));
    ParseFloatNat(v);
  }

  lemma RatingFields(u: string, m: string, t: string, d: string)
    requires Separator !in u + m + t && Separator !in d
    ensures Split(u + "/" + m + "/" + t + "/" + d, Separator) == [u, m, t, d]
  {
    assert Separator !in u && Separator !in m && Separator !in t by {
      assert forall c :: c in u || c in m || c in t ==> c in u + m + t;
    }
    SplitJoin([u, m, t, d], Separator);
    assert Join([d], "/") == d;
    assert Join([t, d], "/") == t + "/" + d by { assert [t, d][1..] == [d]; }
    assert Join([m, t, d], "/") == m + "/" + t + "/" + d by { assert [m, t, d][1..] == [t, d]; }
    assert Join([u, m, t, d], "/") == u + "/" + m + "/" + t + "/" + d by {
      assert [u, m, t, d][1..] == [m, t, d];
    }
  }

  // ---------------------------------------------------------------- filter_data (app)

  /** `filter_data` of the app: the input-count threshold rule with no empty check;
      without the id columns `groupby` raises `KeyError`, which is not caught. */
  function AppFilterData(df: RatingFrame, minUser: int, minMovie: int): (r: Result<RatingFrame>)
    ensures r.Err? <==> !df.HasIdColumns()
    ensures r.Err? ==> r.error == KeyError
    ensures r.Ok? ==> r.value.columns == df.columns && IsSubsequence(r.value.rows, df.rows)
    ensures r.Ok? ==> forall x :: x in r.value.rows <==> x in df.rows && Survives(df.rows, x, minUser, minMovie)
  {
    if !df.HasIdColumns() then Err(KeyError)
    else Ok(RatingFrame(df.columns, CountFilter(df.rows, minUser, minMovie)))
  }

  /** The app's filter and the integrator's filter differ only when the id columns
      are missing: the first raises, the second hands the frame back. */
  lemma AppFilterMatchesIntegrator(df: RatingFrame, minUser: int, minMovie: int)
    ensures AppFilterData(df, minUser, minMovie).Ok? ==>
      AppFilterData(df, minUser, minMovie).value == DataIntegration.FilterData(df, minUser, minMovie)
    ensures AppFilterData(df, minUser, minMovie).Err? ==>
      DataIntegration.FilterData(df, minUser, minMovie) == df
  {
  }

  /** Loaded ratings always carry the id columns, so the app's filter never raises on them. */
  lemma LoadedRatingsFilter(file: Option<string>, minUser: int, minMovie: int)
    requires RatingsOf(file).Ok?
    ensures AppFilterData(RatingsOf(file).value, minUser, minMovie).Ok?
  {
  }
}
