/** `DataStorage`: the scraper's '/'-delimited text files. Each file is its text
    contents, or `None` while it does not exist; saving appends one line per record,
    reading strips every non-blank line and splits it on '/'. */
module Storage {
  import opened Wrappers
  import opened PyText
  import DataCleaner

  const Separator: char := '/'

  datatype FileKind = MovieInfoFile | MovieCommentsFile | CustomRatingFile

  const MovieInfoColumns: seq<string> := ["MovieID", "Title", "Year", "Genre", "Country", "Runtime",
    "Age", "Cast_Production", "Synopsis", "Avg_Rating", "N_Rating", "N_Comments"]
  const CommentColumns: seq<string> := ["MovieID", "CustomID", "Comment", "Rating", "N_Likes"]
  const CustomRatingColumns: seq<string> := ["CustomID", "MovieID", "MovieName", "Rating"]

  function Columns(kind: FileKind): seq<string>
  {
    match kind
    case MovieInfoFile => MovieInfoColumns
    case MovieCommentsFile => CommentColumns
    case CustomRatingFile => CustomRatingColumns
  }

  // ---------------------------------------------------------------- record format

  /** The line `_append_to_txt` writes for one record. */
  function Record(fields: seq<string>): string
  {
    Join(fields, [Separator]) + "\n"
  }

  /** The lines that appending the records one after the other writes. */
  function Records(rows: seq<seq<string>>): string
  {
    if |rows| == 0 then "" else Record(rows[0]) + Records(rows[1..])
  }

  /** `_read_txt` on one line: blank lines give no row, others are stripped and split. */
  function RowOf(line: string): (r: seq<seq<string>>)
    ensures |r| <= 1
    ensures forall i, j :: 0 <= i < |r| && 0 <= j < |r[i]| ==> Separator !in r[i][j]
  {
    var t := Strip(line);
    if t == "" then [] else [Split(t, Separator)]
  }

  lemma RowsOfSnoc(lines: seq<string>, i: nat)
    requires i < |lines|
    ensures RowsOf(lines[..i + 1]) == RowsOf(lines[..i]) + RowOf(lines[i])
  {
    assert lines[..i + 1][..i] == lines[..i];
  }

  function RowsOf(lines: seq<string>): (rows: seq<seq<string>>)
    ensures |rows| <= |lines|
    ensures forall i, j :: 0 <= i < |rows| && 0 <= j < |rows[i]| ==> Separator !in rows[i][j]
  {
    if |lines| == 0 then [] else RowsOf(lines[..|lines| - 1]) + RowOf(lines[|lines| - 1])
  }

  /** The rows `_read_txt` returns; a missing file has none. No field holds '/'. */
  function ReadRows(file: Option<string>): (rows: seq<seq<string>>)
    ensures forall i, j :: 0 <= i < |rows| && 0 <= j < |rows[i]| ==> Separator !in rows[i][j]
    ensures file.None? ==> rows == []
  {
    if file.None? then [] else RowsOf(LinesOf(file.value))
  }

  /** Fields that survive a write and a read unchanged: at least two of them, none
      holding '/' or a line break, no whitespace at the two outer ends. */
  predicate Storable(fields: seq<string>)
  {
    && |fields| >= 2
    && (forall i :: 0 <= i < |fields| ==> Separator !in fields[i] && '\n' !in fields[i] && '\r' !in fields[i])
    && (fields[0] == "" || !IsSpace(fields[0][0]))
    && (fields[|fields| - 1] == "" || !IsSpace(fields[|fields| - 1][|fields[|fields| - 1]| - 1]))
  }

  /** File contents that a further record can be appended to as a line of its own. */
  predicate LineAligned(c: string)
  {
    c == "" || c[|c| - 1] == '\n'
  }

  lemma {:induction false} JoinEdges(fs: seq<string>, sep: char)
    requires |fs| >= 2
    ensures |Join(fs, [sep])| > 0
    ensures Join(fs, [sep])[0] == (if fs[0] == "" then sep else fs[0][0])
    ensures var j := Join(fs, [sep]); var l := fs[|fs| - 1];
      j[|j| - 1] == (if l == "" then sep else l[|l| - 1])
    ensures sep in Join(fs, [sep])
    decreases |fs|
  {
    var j := Join(fs, [sep]);
    assert j == fs[0] + [sep] + Join(fs[1..], [sep]);
    if |fs| > 2 {
      JoinEdges(fs[1..], sep);
    } else {
      assert Join(fs[1..], [sep]) == fs[1];
    }
  }

  lemma {:induction false} JoinNoChar(fs: seq<string>, sep: char, c: char)
    requires c != sep
    requires forall i :: 0 <= i < |fs| ==> c !in fs[i]
    ensures c !in Join(fs, [sep])
    decreases |fs|
  {
    if |fs| > 1 {
      JoinNoChar(fs[1..], sep, c);
    }
  }

  /** A storable record is read back as exactly its fields. */
  lemma RowOfRecord(fields: seq<string>)
    requires Storable(fields)
    ensures RowOf(Join(fields, [Separator]) + "\n") == [fields]
  {
    var j := Join(fields, [Separator]);
    JoinEdges(fields, Separator);
    assert !IsSpace(Separator);
    StripTrailingSpace(j, "\n");
    SplitJoin(fields, Separator);
  }

  lemma UniversalNewlinesEndsNewline(x: string)
    requires LineAligned(x)
    ensures LineAligned(UniversalNewlines(x))
    decreases |x|
  {
    if |x| > 0 {
      if x[0] != '\r' {
        assert UniversalNewlines(x) == [x[0]] + UniversalNewlines(x[1..]);
        if |x| == 1 {
          assert x == "\n";
        } else {
          UniversalNewlinesEndsNewline(x[1..]);
        }
      } else if |x| > 1 && x[1] == '\n' {
        UniversalNewlinesEndsNewline(x[2..]);
      } else {
        UniversalNewlinesEndsNewline(x[1..]);
      }
    }
  }

  /** Appending one line to line-aligned contents adds exactly that line. */
  lemma LinesAppend(c: string, line: string)
    requires LineAligned(c)
    requires '\n' !in line && '\r' !in line
    ensures LinesOf(c + line + "\n") == LinesOf(c) + [line + "\n"]
  {
    NewlinesAppend(c, line);
    PiecesAppend(UniversalNewlines(c), line);
  }

  lemma NewlinesAppend(c: string, line: string)
    requires LineAligned(c)
    requires '\n' !in line && '\r' !in line
    ensures UniversalNewlines(c + line + "\n") == UniversalNewlines(c) + line + "\n"
    ensures LineAligned(UniversalNewlines(c))
  {
    var l := line + "\n";
    UniversalNewlinesAppend(c, l);
    assert UniversalNewlines(l) == l;
    UniversalNewlinesEndsNewline(c);
    assert c + line + "\n" == c + l;
  }

  lemma PiecesAppend(x: string, line: string)
    requires LineAligned(x)
    requires '\n' !in line
    ensures LinesFromPieces(Split(x + line + "\n", '\n')) == LinesFromPieces(Split(x, '\n')) + [line + "\n"]
  {
    var l := line + "\n";
    assert x + line + "\n" == x + l;
    SplitOfLine(line);
    if x == "" {
      assert x + l == l;
      LinesFromPiecesSnoc([], line);
      assert Split(x, '\n') == [""];
    } else {
      SplitAppend(x, l, '\n');
      var sx := Split(x, '\n');
      var p := sx[..|sx| - 1];
      assert sx == p + [""];
      assert Split(x + l, '\n') == p + [line, ""];
      LinesFromPiecesSnoc(p, line);
    }
  }

  lemma SplitOfLine(line: string)
    requires '\n' !in line
    ensures Split(line + "\n", '\n') == [line, ""]
  {
    SplitPrefix(line, "", '\n');
    assert line + ['\n'] + "" == line + "\n";
  }

  /** The round trip of the record format: appending a storable record to
      line-aligned contents adds exactly its fields as the last row read. */
  lemma RecordRoundTrip(c: string, fields: seq<string>)
    requires LineAligned(c)
    requires Storable(fields)
    ensures ReadRows(Some(c + Record(fields))) == ReadRows(Some(c)) + [fields]
    ensures LineAligned(c + Record(fields))
  {
    var line := Join(fields, [Separator]);
    JoinNoChar(fields, Separator, '\n');
    JoinNoChar(fields, Separator, '\r');
    LinesAppend(c, line);
    assert c + Record(fields) == c + line + "\n";
    RowsOfAppend(LinesOf(c), line + "\n");
    RowOfRecord(fields);
  }

  lemma RowsOfAppend(ls: seq<string>, l: string)
    ensures RowsOf(ls + [l]) == RowsOf(ls) + RowOf(l)
  {
    assert (ls + [l])[..|ls|] == ls;
  }

  /** Appending several storable records adds their rows in order. */
  lemma {:induction false} RecordsRoundTrip(c: string, rows: seq<seq<string>>)
    requires LineAligned(c)
    requires forall i :: 0 <= i < |rows| ==> Storable(rows[i])
    ensures ReadRows(Some(c + Records(rows))) == ReadRows(Some(c)) + rows
    ensures LineAligned(c + Records(rows))
    decreases |rows|
  {
    if |rows| == 0 {
      assert Records(rows) == "";
      assert c + Records(rows) == c;
    } else {
      var c1 := c + Record(rows[0]);
      RecordRoundTrip(c, rows[0]);
      RecordsRoundTrip(c1, rows[1..]);
      RecordsUnfold(c, rows);
      ConsAppend(ReadRows(Some(c)), rows);
    }
  }

  lemma RecordsUnfold(c: string, rows: seq<seq<string>>)
    requires |rows| > 0
    ensures c + Records(rows) == (c + Record(rows[0])) + Records(rows[1..])
  {
    assert Records(rows) == Record(rows[0]) + Records(rows[1..]);
  }

  lemma ConsAppend<T>(a: seq<T>, b: seq<T>)
    requires |b| > 0
    ensures (a + [b[0]]) + b[1..] == a + b
  {
    assert [b[0]] + b[1..] == b;
  }

  lemma EmptyFileHasNoRows()
    ensures ReadRows(Some("")) == []
  {
    assert UniversalNewlines("") == "";
    assert Split("", '\n') == [""];
    var none: seq<string> := [];
    assert LinesFromPieces([""]) == none;
    assert LinesOf("") == none;
    assert RowsOf(none) == [];
  }

  // ---------------------------------------------------------------- the records each save writes

  /** A Python dict whose values are already rendered with `str()`; an absent
      key renders as ''. */
  type Fields = map<string, string>

  function Get(d: Fields, key: string): string
  {
    if key in d then d[key] else ""
  }

  /** `movie_data`: its plain values and its `cast_production` (name, role) pairs. */
  datatype MovieData = MovieData(values: Fields, cast: seq<(string, string)>)

  /** The cast column: `name(role)` items joined by "; ". */
  function CastString(cast: seq<(string, string)>): string
  {
    Join(seq(|cast|, i requires 0 <= i < |cast| => cast[i].0 + "(" + cast[i].1 + ")"), "; ")
  }

  function MovieInfoFields(m: MovieData): (r: seq<string>)
    ensures |r| == |MovieInfoColumns|
  {
    var v := m.values;
    [Get(v, "movie_id"), Get(v, "title"), Get(v, "year"), Get(v, "genre"), Get(v, "country"),
     Get(v, "runtime"), Get(v, "age"), CastString(m.cast), Get(v, "synopsis"),
     Get(v, "avg_rating"), Get(v, "n_rating"), Get(v, "n_comments")]
  }

  function CommentFields(movieId: string, comment: Fields): (r: seq<string>)
    ensures |r| == |CommentColumns|
  {
    [movieId, Get(comment, "custom_id"), Get(comment, "comment"), Get(comment, "rating"), Get(comment, "n_likes")]
  }

  function CustomRatingFields(customId: string, rating: Fields): (r: seq<string>)
    ensures |r| == |CustomRatingColumns|
  {
    [customId, Get(rating, "movie_id"), Get(rating, "movie_name"), Get(rating, "rating")]
  }

  function CommentRows(movieId: string, comments: seq<Fields>): (r: seq<seq<string>>)
    ensures |r| == |comments|
  {
    seq(|comments|, i requires 0 <= i < |comments| => CommentFields(movieId, comments[i]))
  }

  /** `'\n'.join(lines) + '\n'` over the joined records equals appending them one by one. */
  lemma {:induction false} JoinedLinesAreRecords(rows: seq<seq<string>>)
    requires |rows| > 0
    ensures Join(seq(|rows|, i requires 0 <= i < |rows| => Join(rows[i], [Separator])), "\n") + "\n" == Records(rows)
    decreases |rows|
  {
    var ls := seq(|rows|, i requires 0 <= i < |rows| => Join(rows[i], [Separator]));
    if |rows| > 1 {
      JoinedLinesAreRecords(rows[1..]);
      var tl := seq(|rows[1..]|, i requires 0 <= i < |rows[1..]| => Join(rows[1..][i], [Separator]));
      assert ls[1..] == tl;
      assert Join(ls, "\n") == ls[0] + "\n" + Join(tl, "\n");
    } else {
      assert Records(rows[1..]) == "";
    }
  }

  // ---------------------------------------------------------------- the storage object

  class DataStorage {
    var movieInfo: Option<string>
    var movieComments: Option<string>
    var customRating: Option<string>

    function File(kind: FileKind): Option<string>
      reads this
    {
      match kind
      case MovieInfoFile => movieInfo
      case MovieCommentsFile => movieComments
      case CustomRatingFile => customRating
    }

    /** Storage over the data directory as it is found. */
    constructor(movieInfo: Option<string>, movieComments: Option<string>, customRating: Option<string>)
      ensures this.movieInfo == movieInfo && this.movieComments == movieComments && this.customRating == customRating
    {
      this.movieInfo := movieInfo;
      this.movieComments := movieComments;
      this.customRating := customRating;
    }

    /** Opening in append mode creates a missing file, then writes `text` at its end. */
    method AppendText(kind: FileKind, text: string)
      modifies this
      ensures File(kind) == Some(old(File(kind)).GetOr("") + text)
      ensures forall k :: k != kind ==> File(k) == old(File(k))
    {
      var content := Some(File(kind).GetOr("") + text);
      match kind {
        case MovieInfoFile => movieInfo := content;
        case MovieCommentsFile => movieComments := content;
        case CustomRatingFile => customRating := content;
      }
    }

    /** `_append_to_txt`: one '/'-joined line; earlier contents are kept. */
    method AppendToTxt(kind: FileKind, data: seq<string>)
      modifies this
      ensures File(kind) == Some(old(File(kind)).GetOr("") + Record(data))
      ensures forall k :: k != kind ==> File(k) == old(File(k))
    {
      AppendText(kind, Record(data));
    }

    /** `save_movie_info`: the twelve movie columns in their fixed order. */
    method SaveMovieInfo(m: MovieData)
      modifies this
      ensures File(MovieInfoFile) == Some(old(File(MovieInfoFile)).GetOr("") + Record(MovieInfoFields(m)))
      ensures forall k :: k != MovieInfoFile ==> File(k) == old(File(k))
    {
      AppendToTxt(MovieInfoFile, MovieInfoFields(m));
    }

    /** `save_movie_comment`: the five comment columns. */
    method SaveMovieComment(movieId: string, comment: Fields)
      modifies this
      ensures File(MovieCommentsFile) == Some(old(File(MovieCommentsFile)).GetOr("") + Record(CommentFields(movieId, comment)))
      ensures forall k :: k != MovieCommentsFile ==> File(k) == old(File(k))
    {
      AppendToTxt(MovieCommentsFile, CommentFields(movieId, comment));
    }

    /** `save_movie_comments_batch`: nothing for no comments (the file is not even
        created); otherwise the same lines as one `save_movie_comment` per comment. */
    method SaveMovieCommentsBatch(movieId: string, comments: seq<Fields>)
      modifies this
      ensures comments == [] ==> File(MovieCommentsFile) == old(File(MovieCommentsFile))
      ensures comments != [] ==>
        File(MovieCommentsFile) == Some(old(File(MovieCommentsFile)).GetOr("") + Records(CommentRows(movieId, comments)))
      ensures forall k :: k != MovieCommentsFile ==> File(k) == old(File(k))
    {
      if |comments| == 0 {
        return;
      }
      var rows := CommentRows(movieId, comments);
      var lines: seq<string> := [];
      var i := 0;
      while i < |comments|
        invariant 0 <= i <= |comments|
        invariant lines == seq(i, j requires 0 <= j < i => Join(rows[j], [Separator]))
      {
        lines := lines + [Join(CommentFields(movieId, comments[i]), [Separator])];
        i := i + 1;
      }
      JoinedLinesAreRecords(rows);
      AppendText(MovieCommentsFile, Join(lines, "\n") + "\n");
    }

    /** `save_custom_rating`: the four rating columns. */
    method SaveCustomRating(customId: string, rating: Fields)
      modifies this
      ensures File(CustomRatingFile) == Some(old(File(CustomRatingFile)).GetOr("") + Record(CustomRatingFields(customId, rating)))
      ensures forall k :: k != CustomRatingFile ==> File(k) == old(File(k))
    {
      AppendToTxt(CustomRatingFile, CustomRatingFields(customId, rating));
    }

    /** `_read_txt`: one row per non-blank line, in file order. */
    method ReadTxt(kind: FileKind) returns (rows: seq<seq<string>>)
      ensures rows == ReadRows(File(kind))
    {
      rows := [];
      var file := File(kind);
      if file.None? {
        return;
      }
      var lines := LinesOf(file.value);
      var i := 0;
      while i < |lines|
        invariant 0 <= i <= |lines|
        invariant rows == RowsOf(lines[..i])
      {
        var t := Strip(lines[i]);
        if t != "" {
          rows := rows + [Split(t, Separator)];
        }
        RowsOfSnoc(lines, i);
        i := i + 1;
      }
      assert lines[..i] == lines;
    }

    /** `get_missing_comment_movie_ids`, with its scan of the comments file. */
    method GetMissingCommentMovieIds() returns (r: set<Option<string>>)
      ensures r == MissingCommentMovieIds(customRating, movieComments)
    {
      var ratings := Load(customRating, CustomRatingColumns);
      if ratings.Err? || ratings.value.IsEmpty() {
        return {};
      }
      var all := ColumnValues(ratings.value, 1);
      var scraped: set<string> := {};
      if movieComments.Some? {
        scraped := ScanFirstFields(movieComments.value);
      }
      r := all - set id <- scraped :: Some(id);
    }
  }

  /** The scan of the comments file: the first '/'-field of every non-blank line. */
  method ScanFirstFields(text: string) returns (ids: set<string>)
    ensures ids == FirstFields(LinesOf(text))
  {
    var lines := LinesOf(text);
    ids := {};
    var i := 0;
    while i < |lines|
      invariant 0 <= i <= |lines|
      invariant ids == FirstFields(lines[..i])
    {
      FirstFieldsSnoc(lines, i);
      if Strip(lines[i]) != "" {
        ids := ids + {Split(lines[i], Separator)[0]};
      }
      i := i + 1;
    }
    assert lines[..i] == lines;
  }

  /** A saved record is read back as the last row when its fields are storable. */
  lemma SaveThenRead(before: Option<string>, fields: seq<string>)
    requires before.None? || LineAligned(before.value)
    requires Storable(fields)
    ensures ReadRows(Some(before.GetOr("") + Record(fields))) == ReadRows(before) + [fields]
  {
    if before.None? {
      EmptyFileHasNoRows();
    }
    RecordRoundTrip(before.GetOr(""), fields);
  }

  // ---------------------------------------------------------------- loading into frames

  /** A pandas frame of strings; `None` is a missing cell. */
  datatype Frame = Frame(columns: seq<string>, rows: seq<seq<Option<string>>>)
  {
    /** `DataFrame.empty`: no rows or no columns. */
    predicate IsEmpty() { |rows| == 0 || |columns| == 0 }
  }

  function MaxWidth(rows: seq<seq<string>>): (w: nat)
    ensures forall i :: 0 <= i < |rows| ==> |rows[i]| <= w
    ensures |rows| > 0 ==> exists i :: 0 <= i < |rows| && |rows[i]| == w
  {
    if |rows| == 0 then 0
    else
      var w := MaxWidth(rows[1..]);
      if |rows[0]| >= w then |rows[0]| else (assert rows[1..][0] == rows[1]; w)
  }

  /** `pd.DataFrame(rows, columns=columns)`: the widest row must have exactly one
      value per column, shorter rows are padded with missing cells. */
  function ToFrame(rows: seq<seq<string>>, columns: seq<string>): (r: Result<Frame>)
    ensures r.Err? <==> |rows| > 0 && MaxWidth(rows) != |columns|
    ensures r.Err? ==> r.error == ValueError
    ensures r.Ok? ==> r.value.columns == columns && |r.value.rows| == |rows|
    ensures r.Ok? ==> forall i :: 0 <= i < |rows| ==> (|r.value.rows[i]| == |columns|
      && (forall j :: 0 <= j < |columns| ==> r.value.rows[i][j] == if j < |rows[i]| then Some(rows[i][j]) else None))
  {
    if |rows| > 0 && MaxWidth(rows) != |columns| then Err(ValueError)
    else
      Ok(Frame(columns, seq(|rows|, i requires 0 <= i < |rows| =>
        seq(|columns|, j requires 0 <= j < |columns| => if j < |rows[i]| then Some(rows[i][j]) else None))))
  }

  /** `load_movie_info` and its siblings: a missing file gives an empty frame with no
      columns, otherwise the rows read under the file's column names. */
  function Load(file: Option<string>, columns: seq<string>): (r: Result<Frame>)
    ensures file.None? ==> r == Ok(Frame([], []))
    ensures r.Ok? && file.Some? ==> r.value.columns == columns
  {
    if file.None? then Ok(Frame([], [])) else ToFrame(ReadRows(file), columns)
  }

  /** The values of column `j`, as a set. */
  function ColumnValues(f: Frame, j: nat): set<Option<string>>
  {
    set i | 0 <= i < |f.rows| && j < |f.rows[i]| :: f.rows[i][j]
  }

  /** A file written only by `save_movie_info` loads without error: every record has
      exactly the twelve movie columns. */
  lemma {:induction false} SavedMovieInfoLoads(movies: seq<MovieData>)
    requires forall i :: 0 <= i < |movies| ==> Storable(MovieInfoFields(movies[i]))
    ensures var rows := seq(|movies|, i requires 0 <= i < |movies| => MovieInfoFields(movies[i]));
      Load(Some(Records(rows)), MovieInfoColumns).Ok?
  {
    var rows := seq(|movies|, i requires 0 <= i < |movies| => MovieInfoFields(movies[i]));
    RecordsRoundTrip("", rows);
    assert "" + Records(rows) == Records(rows);
    EmptyFileHasNoRows();
    assert ReadRows(Some(Records(rows))) == rows;
    if |rows| > 0 {
      assert forall i :: 0 <= i < |rows| ==> |rows[i]| == 12;
    }
  }

  /** Text that `clean_text` leaves unchanged can be stored: it holds no '/' and no
      line break, and it has no whitespace at either end. */
  lemma CleanedFieldsStorable(fields: seq<string>)
    requires |fields| >= 2
    requires forall i :: 0 <= i < |fields| ==> fields[i] == DataCleaner.Cleaned(fields[i], "")
    ensures Storable(fields)
  {
    forall i | 0 <= i < |fields|
      ensures Separator !in fields[i] && '\n' !in fields[i] && '\r' !in fields[i]
    {
      CleanedField(fields[i]);
    }
    CleanedField(fields[0]);
    CleanedField(fields[|fields| - 1]);
  }

  lemma CleanedField(f: string)
    requires f == DataCleaner.Cleaned(f, "")
    ensures Separator !in f && '\n' !in f && '\r' !in f
    ensures f == "" || (!IsSpace(f[0]) && !IsSpace(f[|f| - 1]))
  {
    DataCleaner.CleanedNoDelimiters(f, "");
  }

  /** A movie-info file whose every field went through `clean_text` loads without
      error. */
  lemma SavedCleanMovieInfoLoads(movies: seq<MovieData>)
    requires forall i, j :: 0 <= i < |movies| && 0 <= j < |MovieInfoColumns| ==>
      MovieInfoFields(movies[i])[j] == DataCleaner.Cleaned(MovieInfoFields(movies[i])[j], "")
    ensures var rows := seq(|movies|, i requires 0 <= i < |movies| => MovieInfoFields(movies[i]));
      Load(Some(Records(rows)), MovieInfoColumns).Ok?
  {
    forall i | 0 <= i < |movies|
      ensures Storable(MovieInfoFields(movies[i]))
    {
      CleanedFieldsStorable(MovieInfoFields(movies[i]));
    }
    SavedMovieInfoLoads(movies);
  }

  // ---------------------------------------------------------------- what is left to scrape

  /** Cell `j` of a row read from a file: missing when the row is too short. */
  function Cell(row: seq<string>, j: nat): Option<string>
  {
    if j < |row| then Some(row[j]) else None
  }

  /** Some row of `file` holds `id` in column `j`. */
  predicate HasCell(file: Option<string>, j: nat, id: Option<string>)
  {
    exists i :: 0 <= i < |ReadRows(file)| && Cell(ReadRows(file)[i], j) == id
  }

  /** Some rating row names `id` as its MovieID. */
  predicate RatedMovie(customRating: Option<string>, id: Option<string>)
  {
    HasCell(customRating, 1, id)
  }

  /** Some info row of at least two fields (so with a Title) has MovieID `id`. */
  predicate TitledMovie(movieInfo: Option<string>, id: Option<string>)
  {
    exists i :: 0 <= i < |ReadRows(movieInfo)| && |ReadRows(movieInfo)[i]| >= 2 && Some(ReadRows(movieInfo)[i][0]) == id
  }

  /** A loaded frame is empty exactly when the file has no rows, and its column `j`
      holds exactly the cells `j` of the file's rows. */
  lemma ColumnExact(file: Option<string>, columns: seq<string>, j: nat)
    requires j < |columns|
    ensures Load(file, columns).Ok? ==> (Load(file, columns).value.IsEmpty() <==> |ReadRows(file)| == 0)
    ensures Load(file, columns).Ok? ==>
      forall id :: id in ColumnValues(Load(file, columns).value, j) <==> HasCell(file, j, id)
  {
    if file.Some? && Load(file, columns).Ok? {
      var f := Load(file, columns).value;
      var rows := ReadRows(file);
      forall id
        ensures id in ColumnValues(f, j) <==> HasCell(file, j, id)
      {
        if id in ColumnValues(f, j) {
          var i :| 0 <= i < |f.rows| && j < |f.rows[i]| && f.rows[i][j] == id;
          assert Cell(rows[i], j) == id;
        }
        if HasCell(file, j, id) {
          var i :| 0 <= i < |rows| && Cell(rows[i], j) == id;
          assert j < |f.rows[i]| && f.rows[i][j] == id;
        }
      }
    }
  }

  /** `get_missing_movie_ids`: rating MovieIDs without an info row that has a Title;
      nothing when there are no ratings or a file does not load. The list the
      source returns is in set order, so the model returns the set. */
  function MissingMovieIds(customRating: Option<string>, movieInfo: Option<string>): (r: set<Option<string>>)
    ensures forall id :: id in r ==> RatedMovie(customRating, id)
    ensures forall i :: 0 <= i < |ReadRows(movieInfo)| && |ReadRows(movieInfo)[i]| >= 2 ==> Some(ReadRows(movieInfo)[i][0]) !in r
    ensures forall id :: id in r <==>
      (&& Load(customRating, CustomRatingColumns).Ok? && Load(movieInfo, MovieInfoColumns).Ok?
       && RatedMovie(customRating, id) && !TitledMovie(movieInfo, id))
  {
    var ratings := Load(customRating, CustomRatingColumns);
    var info := Load(movieInfo, MovieInfoColumns);
    if ratings.Err? || info.Err? || ratings.value.IsEmpty() then
      ColumnExact(customRating, CustomRatingColumns, 1);
      {}
    else
      ColumnExact(customRating, CustomRatingColumns, 1);
      TitledRowsValid(movieInfo);
      TitledIdsSound(movieInfo);
      ColumnValues(ratings.value, 1) - TitledIds(info.value)
  }

  /** The MovieIDs of info rows whose Title is present, when the frame has a Title column. */
  function TitledIds(f: Frame): set<Option<string>>
  {
    if !f.IsEmpty() && "Title" in f.columns
    then set i | 0 <= i < |f.rows| && 1 < |f.rows[i]| && f.rows[i][1].Some? :: f.rows[i][0]
    else {}
  }

  /** Every id among the titled ids comes from an info row with a Title. */
  lemma TitledIdsSound(movieInfo: Option<string>)
    requires Load(movieInfo, MovieInfoColumns).Ok?
    ensures forall id :: id in TitledIds(Load(movieInfo, MovieInfoColumns).value) ==> TitledMovie(movieInfo, id)
  {
    var f := Load(movieInfo, MovieInfoColumns).value;
    if movieInfo.Some? && !f.IsEmpty() {
      var rows := ReadRows(movieInfo);
      assert f == ToFrame(rows, MovieInfoColumns).value;
      forall id | id in TitledIds(f)
        ensures TitledMovie(movieInfo, id)
      {
        TitledCells(rows, f, id);
      }
    }
  }

  lemma TitledCells(rows: seq<seq<string>>, f: Frame, id: Option<string>)
    requires ToFrame(rows, MovieInfoColumns).Ok? && f == ToFrame(rows, MovieInfoColumns).value
    requires id in TitledIds(f)
    ensures exists i :: 0 <= i < |rows| && |rows[i]| >= 2 && Some(rows[i][0]) == id
  {
    var i :| 0 <= i < |f.rows| && 1 < |f.rows[i]| && f.rows[i][1].Some? && f.rows[i][0] == id;
    assert |rows[i]| >= 2 && f.rows[i][0] == Some(rows[i][0]);
  }

  lemma TitledRowsValid(movieInfo: Option<string>)
    requires Load(movieInfo, MovieInfoColumns).Ok?
    ensures forall i :: 0 <= i < |ReadRows(movieInfo)| && |ReadRows(movieInfo)[i]| >= 2 ==>
      Some(ReadRows(movieInfo)[i][0]) in TitledIds(Load(movieInfo, MovieInfoColumns).value)
  {
    var rows := ReadRows(movieInfo);
    if |rows| > 0 {
      assert movieInfo.Some?;
      TitledFrameRows(rows);
    }
  }

  lemma TitleColumn()
    ensures "Title" in MovieInfoColumns
  {
    assert MovieInfoColumns[1] == "Title";
  }

  lemma TitledFrameRows(rows: seq<seq<string>>)
    requires |rows| > 0 && ToFrame(rows, MovieInfoColumns).Ok?
    ensures forall i :: 0 <= i < |rows| && |rows[i]| >= 2 ==>
      Some(rows[i][0]) in TitledIds(ToFrame(rows, MovieInfoColumns).value)
  {
    var f := ToFrame(rows, MovieInfoColumns).value;
    TitleColumn();
    assert f.columns == MovieInfoColumns;
    forall i | 0 <= i < |rows| && |rows[i]| >= 2
      ensures Some(rows[i][0]) in TitledIds(f)
    {
      TitledRow(rows, f, i);
    }
  }

  lemma TitledRow(rows: seq<seq<string>>, f: Frame, i: nat)
    requires ToFrame(rows, MovieInfoColumns).Ok? && f == ToFrame(rows, MovieInfoColumns).value
    requires i < |rows| && |rows[i]| >= 2
    requires "Title" in f.columns
    ensures Some(rows[i][0]) in TitledIds(f)
  {
    assert |f.rows[i]| == 12;
    assert f.rows[i][1] == Some(rows[i][1]);
    assert f.rows[i][0] == Some(rows[i][0]);
  }

  /** The first '/'-field of each non-blank line, taken from the raw line. */
  function FirstFields(lines: seq<string>): set<string>
  {
    if |lines| == 0 then {}
    else
      var l := lines[|lines| - 1];
      FirstFields(lines[..|lines| - 1]) + (if Strip(l) != "" then {Split(l, Separator)[0]} else {})
  }

  lemma FirstFieldsSnoc(lines: seq<string>, i: nat)
    requires i < |lines|
    ensures FirstFields(lines[..i + 1]) == FirstFields(lines[..i])
      + (if Strip(lines[i]) != "" then {Split(lines[i], Separator)[0]} else {})
  {
    assert lines[..i + 1][..i] == lines[..i];
  }

  /** `get_missing_comment_movie_ids`: rating MovieIDs whose id never starts a line
      of the comments file; nothing when there are no ratings. */
  function MissingCommentMovieIds(customRating: Option<string>, movieComments: Option<string>): (r: set<Option<string>>)
    ensures forall id :: id in r ==> RatedMovie(customRating, id)
    ensures movieComments.Some? ==> forall id :: id in FirstFields(LinesOf(movieComments.value)) ==> Some(id) !in r
    ensures forall id :: id in r <==>
      (&& Load(customRating, CustomRatingColumns).Ok? && RatedMovie(customRating, id)
       && !(movieComments.Some? && id.Some? && id.value in FirstFields(LinesOf(movieComments.value))))
  {
    var ratings := Load(customRating, CustomRatingColumns);
    if ratings.Err? || ratings.value.IsEmpty() then
      ColumnExact(customRating, CustomRatingColumns, 1);
      {}
    else
      var scraped := if movieComments.Some? then FirstFields(LinesOf(movieComments.value)) else {};
      ColumnExact(customRating, CustomRatingColumns, 1);
      ColumnValues(ratings.value, 1) - set id <- scraped :: Some(id)
  }

  /** Saving a comment marks its movie as scraped: the id is no longer reported. */
  lemma CommentedMovieNotMissing(customRating: Option<string>, comments: string, movieId: string, comment: Fields)
    requires LineAligned(comments)
    requires Storable(CommentFields(movieId, comment))
    ensures Some(movieId) !in MissingCommentMovieIds(customRating, Some(comments + Record(CommentFields(movieId, comment))))
  {
    SavedLineScraped(comments, CommentFields(movieId, comment));
  }

  /** The first field of an appended storable record is among the scanned ids. */
  lemma SavedLineScraped(comments: string, fields: seq<string>)
    requires LineAligned(comments)
    requires Storable(fields)
    ensures fields[0] in FirstFields(LinesOf(comments + Record(fields)))
  {
    var line := Join(fields, [Separator]);
    JoinNoChar(fields, Separator, '\n');
    JoinNoChar(fields, Separator, '\r');
    LinesAppend(comments, line);
    var l := line + "\n";
    assert comments + Record(fields) == comments + line + "\n";
    LineFirstField(fields);
    FirstFieldsLast(LinesOf(comments), l);
  }

  lemma FirstFieldsLast(ls: seq<string>, l: string)
    requires Strip(l) != ""
    ensures Split(l, Separator)[0] in FirstFields(ls + [l])
  {
    assert (ls + [l])[..|ls|] == ls;
  }

  lemma LineFirstField(fields: seq<string>)
    requires Storable(fields)
    ensures var l := Join(fields, [Separator]) + "\n"; Strip(l) != "" && Split(l, Separator)[0] == fields[0]
  {
    var line := Join(fields, [Separator]);
    var l := line + "\n";
    JoinEdges(fields, Separator);
    assert !IsSpace(Separator);
    StripTrailingSpace(line, "\n");
    var tail := Join(fields[1..], [Separator]) + "\n";
    assert line == fields[0] + [Separator] + Join(fields[1..], [Separator]);
    assert l == fields[0] + [Separator] + tail;
    SplitPrefix(fields[0], tail, Separator);
  }

  /** `get_missing_custom_ids`: comment CustomIDs with no rating row yet; nothing when
      there are no comments or a file does not load. */
  function MissingCustomIds(movieComments: Option<string>, customRating: Option<string>): (r: set<Option<string>>)
    ensures forall i :: 0 <= i < |ReadRows(customRating)| && |ReadRows(customRating)[i]| >= 1 ==> Some(ReadRows(customRating)[i][0]) !in r
    ensures forall id :: id in r <==>
      (&& Load(movieComments, CommentColumns).Ok? && Load(customRating, CustomRatingColumns).Ok?
       && HasCell(movieComments, 1, id) && !HasCell(customRating, 0, id))
  {
    var comments := Load(movieComments, CommentColumns);
    var ratings := Load(customRating, CustomRatingColumns);
    if comments.Err? || ratings.Err? || comments.value.IsEmpty() then
      ColumnExact(movieComments, CommentColumns, 1);
      {}
    else
      var scrapedIds := if !ratings.value.IsEmpty() && "CustomID" in ratings.value.columns
        then ColumnValues(ratings.value, 0) else {};
      ColumnExact(movieComments, CommentColumns, 1);
      ColumnExact(customRating, CustomRatingColumns, 0);
      assert CustomRatingColumns[0] == "CustomID";
      var r := ColumnValues(comments.value, 1) - scrapedIds;
      forall i | 0 <= i < |ReadRows(customRating)| && |ReadRows(customRating)[i]| >= 1
        ensures Some(ReadRows(customRating)[i][0]) in scrapedIds
      {
        assert Cell(ReadRows(customRating)[i], 0) == Some(ReadRows(customRating)[i][0]);
      }
      r
  }
}
