/** The extractor (extract.py): the change queries over `JUNCTION_TABLES`,
    the fold of their rows into movie references and a new watermark, and
    the expansion of the aggregated movie rows into one document per genre.
    The SQL itself is not modelled: each query is a source of rows, one
    answer per call, and what the rows satisfy is stated as a predicate. */
module Extract {
  import opened Outcomes
  import opened Models
  import opened Watermarks
  import opened Backoff

  /** The `max_extract_row_by_query` default of `get_data_to_elastic`. */
  const MaxExtractRowByQuery: nat := 1000

  /** One item of `JUNCTION_TABLES`: a table whose changes are tracked and
      the junction table linking it to `film_work`, if any. */
  datatype JunctionEntry = JunctionEntry(tableName: string, junction: Option<string>)

  /** A row of the change query: `movie_id`, `movie_modified`, `table_modified`. */
  datatype ChangedRow = ChangedRow(movieId: string, movieModified: Timestamp, tableModified: Timestamp)

  /** `MoviesFromDb`: a movie to refresh. */
  datatype MovieRef = MovieRef(id: string, modified: Timestamp)

  /** What `extract_modified` returns: the movies to refresh, one per row,
      and the largest `table_modified`, `None` when there are no rows. */
  datatype Changed = Changed(movies: seq<MovieRef>, maxModified: Option<Timestamp>)

  /** The change query: what call number `attempt` of `extract_modified`
      for a table, a since-date and a row limit returns, or that it raised. */
  type ChangedSource = (JunctionEntry, Timestamp, nat, nat) -> Attempt<seq<ChangedRow>>

  /** Every row satisfies the query's filter `t.modified > since`. */
  predicate AllAfter(rows: seq<ChangedRow>, since: Timestamp)
  {
    forall i :: 0 <= i < |rows| ==> since < rows[i].tableModified
  }

  /** The change query only ever returns rows newer than its since-date. */
  ghost predicate RespectsSince(source: ChangedSource)
  {
    forall e, since, limit, attempt ::
      source(e, since, limit, attempt).Returned? ==> AllAfter(source(e, since, limit, attempt).value, since)
  }

  /** `m` is the largest `table_modified` of `rows`. */
  ghost predicate IsMaxModified(rows: seq<ChangedRow>, m: Timestamp)
  {
    && (exists i :: 0 <= i < |rows| && rows[i].tableModified == m)
    && (forall i :: 0 <= i < |rows| ==> rows[i].tableModified <= m)
  }

  function Max(a: Timestamp, b: Timestamp): Timestamp
  {
    if a < b then b else a
  }

  /** The loop over `cursor.fetchall()` in `extract_modified`: each row
      appends its movie, and `max(row[2], max_modified_junction or row[2])`
      keeps the running maximum. */
  function FoldChanged(rows: seq<ChangedRow>): (r: Changed)
    ensures |r.movies| == |rows|
    ensures forall i :: 0 <= i < |rows| ==> r.movies[i] == MovieRef(rows[i].movieId, rows[i].movieModified)
    ensures r.maxModified.None? <==> |rows| == 0
    ensures r.maxModified.Some? ==> IsMaxModified(rows, r.maxModified.value)
  {
    if |rows| == 0 then
      Changed([], None)
    else
      var prefix := FoldChanged(rows[..|rows| - 1]);
      var row := rows[|rows| - 1];
      var running := if prefix.maxModified.Some? then prefix.maxModified.value else row.tableModified;
      assert prefix.maxModified.Some? ==> IsMaxModified(rows[..|rows| - 1], running);
      Changed(prefix.movies + [MovieRef(row.movieId, row.movieModified)], Some(Max(row.tableModified, running)))
  }

  /** The calls of the retried `extract_modified` for one table. */
  function ChangedAttempts(source: ChangedSource, e: JunctionEntry, since: Timestamp, limit: nat): nat -> Attempt<seq<ChangedRow>>
  {
    (attempt: nat) => source(e, since, limit, attempt)
  }

  /** The rows a retried query returned and the number of the call that
      returned them. */
  datatype Fetched<T> = Fetched(rows: T, attempt: nat)

  /** `extract_modified` for one table through its retry wrapper, before
      the fold: the rows of the first call that returned, or `None` when
      every call allowed by the default policy raised. */
  function ExtractModified(source: ChangedSource, e: JunctionEntry, since: Timestamp, limit: nat): (r: Option<Fetched<seq<ChangedRow>>>)
    ensures r.Some? ==> source(e, since, limit, r.value.attempt) == Returned(r.value.rows)
    ensures r.Some? ==> forall a :: 0 <= a < r.value.attempt ==> source(e, since, limit, a) == Raised
  {
    var attempts := ChangedAttempts(source, e, since, limit);
    var outcome := Outcome(DefaultPolicy, attempts);
    if outcome.None? then None
    else
      assert forall a: nat :: attempts(a) == source(e, since, limit, a);
      Some(Fetched(outcome.value.0, outcome.value.1))
  }

  /** The extraction of one table as the loop sees it: the rows fetched
      for a table from a since-date, or `None` when the retries gave up. */
  type Fetch = (JunctionEntry, Timestamp) -> Option<Fetched<seq<ChangedRow>>>

  /** The loop's fetch is `extract_modified` through its retry wrapper. */
  function RetriedFetch(source: ChangedSource, limit: nat): Fetch
  {
    (e: JunctionEntry, since: Timestamp) => ExtractModified(source, e, since, limit)
  }

  /** Every fetched row is newer than the date it was fetched from. */
  ghost predicate FetchRespectsSince(fetch: Fetch)
  {
    forall e, since :: fetch(e, since).Some? ==> AllAfter(fetch(e, since).value.rows, since)
  }

  /** Retrying keeps the filter: the rows come from one call of the query. */
  lemma RetriedFetchRespectsSince(source: ChangedSource, limit: nat)
    requires RespectsSince(source)
    ensures FetchRespectsSince(RetriedFetch(source, limit))
  {
  }

  /** One table processed by `get_data_to_elastic`: the date it was queried
      from, the rows the query returned and the call that returned them. */
  datatype TableRun = TableRun(entry: JunctionEntry, since: Timestamp, rows: seq<ChangedRow>, attempt: nat)

  /** Lines 80-81 of `get_data_to_elastic`: the table's watermark is
      overwritten with the maximum of its rows, if there is one. */
  function Advance(modified: ModifiedDatetimes, f: Field, rows: seq<ChangedRow>): (r: ModifiedDatetimes)
    // no rows: the watermark stays
    ensures |rows| == 0 ==> r == modified
    // rows: it becomes their largest `table_modified`
    ensures 0 < |rows| ==> IsMaxModified(rows, Get(r, f))
    // the other watermarks are not touched
    ensures forall g: Field :: g != f ==> Get(r, g) == Get(modified, g)
  {
    var changed := FoldChanged(rows);
    if changed.maxModified.Some? then Set(modified, f, changed.maxModified.value) else modified
  }

  /** The loop of `get_data_to_elastic` over the remaining `tables`. The
      watermarks are overwritten in place, so `modified` holds the values
      reached so far even when a later table raises. */
  datatype TablesOutcome = TablesOutcome(runs: seq<TableRun>, failure: Option<Exception>, modified: ModifiedDatetimes)

  function ExtractTables(tables: seq<JunctionEntry>, modified: ModifiedDatetimes, fetch: Fetch): (r: TablesOutcome)
    // the tables are processed in order, and a failure stops the loop
    ensures |r.runs| <= |tables|
    ensures r.failure.None? <==> |r.runs| == |tables|
    ensures forall i :: 0 <= i < |r.runs| ==> r.runs[i].entry == tables[i]
    // `getattr` of an unknown table name, or unpacking the `None` of an exhausted retry
    ensures r.failure.Some? ==> r.failure.value in {AttributeError, TypeError}
    ensures r.failure == Some(AttributeError) ==> FieldNamed(tables[|r.runs|].tableName).None?
    ensures r.failure == Some(TypeError) ==>
              && FieldNamed(tables[|r.runs|].tableName).Some?
              && fetch(tables[|r.runs|], Get(r.modified, FieldNamed(tables[|r.runs|].tableName).value)).None?
    // each run holds what the fetch returned for its table and since-date
    ensures forall i :: 0 <= i < |r.runs| ==>
              fetch(r.runs[i].entry, r.runs[i].since) == Some(Fetched(r.runs[i].rows, r.runs[i].attempt))
    // a loop that stopped at its first table changed nothing
    ensures |r.runs| == 0 ==> r.modified == modified
    decreases |tables|
  {
    if |tables| == 0 then
      TablesOutcome([], None, modified)
    else
      var e := tables[0];
      match FieldNamed(e.tableName)
      case None => TablesOutcome([], Some(AttributeError), modified)
      case Some(f) =>
        var since := Get(modified, f);
        match fetch(e, since)
        case None => TablesOutcome([], Some(TypeError), modified)
        case Some(Fetched(rows, attempt)) =>
          var rest := ExtractTables(tables[1..], Advance(modified, f, rows), fetch);
          TablesOutcome([TableRun(e, since, rows, attempt)] + rest.runs, rest.failure, rest.modified)
  }

  /** A loop that processed a table took its first table: the name was a
      watermark field, the query returned, and the rest of the loop started
      from the advanced watermarks. */
  lemma ProcessedFirst(tables: seq<JunctionEntry>, m: ModifiedDatetimes, fetch: Fetch)
    requires 0 < |ExtractTables(tables, m, fetch).runs|
    ensures FieldNamed(tables[0].tableName).Some?
    ensures var g := FieldNamed(tables[0].tableName).value;
      fetch(tables[0], Get(m, g)).Some?
    ensures var g := FieldNamed(tables[0].tableName).value;
      var fetched := fetch(tables[0], Get(m, g)).value;
      var rest := ExtractTables(tables[1..], Advance(m, g, fetched.rows), fetch);
      ExtractTables(tables, m, fetch)
        == TablesOutcome([TableRun(tables[0], Get(m, g), fetched.rows, fetched.attempt)] + rest.runs, rest.failure, rest.modified)
  {
  }

  /** `JUNCTION_TABLES` is a dict: no table name occurs twice. */
  predicate DistinctTables(tables: seq<JunctionEntry>)
  {
    forall i, j :: 0 <= i < j < |tables| ==> tables[i].tableName != tables[j].tableName
  }

  /** Watermarks never move backwards: a table's watermark is replaced only
      by a maximum over rows newer than it. This holds whether or not the
      loop completes. */
  lemma {:induction false} ExtractionNeverLowers(tables: seq<JunctionEntry>, m: ModifiedDatetimes, fetch: Fetch, f: Field)
    requires FetchRespectsSince(fetch)
    ensures Get(m, f) <= Get(ExtractTables(tables, m, fetch).modified, f)
    decreases |tables|
  {
    if |tables| > 0 {
      var e := tables[0];
      match FieldNamed(e.tableName)
      case None =>
      case Some(g) =>
        var since := Get(m, g);
        match fetch(e, since)
        case None =>
        case Some(Fetched(rows, attempt)) =>
          assert AllAfter(rows, since);
          var advanced := Advance(m, g, rows);
          assert Get(m, f) <= Get(advanced, f);
          ExtractionNeverLowers(tables[1..], advanced, fetch, f);
    }
  }

  /** A watermark whose table is not in the list keeps its value. */
  lemma {:induction false} UntouchedWatermark(tables: seq<JunctionEntry>, m: ModifiedDatetimes, fetch: Fetch, f: Field)
    requires forall i :: 0 <= i < |tables| ==> tables[i].tableName != FieldName(f)
    ensures Get(ExtractTables(tables, m, fetch).modified, f) == Get(m, f)
    decreases |tables|
  {
    if 0 < |ExtractTables(tables, m, fetch).runs| {
      ProcessedFirst(tables, m, fetch);
      var g := FieldNamed(tables[0].tableName).value;
      var fetched := fetch(tables[0], Get(m, g)).value;
      var advanced := Advance(m, g, fetched.rows);
      assert g != f;
      assert forall i :: 0 <= i < |tables[1..]| ==> tables[1..][i] == tables[i + 1];
      UntouchedWatermark(tables[1..], advanced, fetch, f);
    }
  }

  lemma DistinctTail(tables: seq<JunctionEntry>)
    requires DistinctTables(tables) && 0 < |tables|
    ensures DistinctTables(tables[1..])
    ensures forall i :: 1 <= i < |tables| ==> tables[i].tableName != tables[0].tableName
  {
    forall i, j | 0 <= i < j < |tables[1..]|
      ensures tables[1..][i].tableName != tables[1..][j].tableName
    {
      assert tables[1..][i] == tables[i + 1] && tables[1..][j] == tables[j + 1];
    }
  }

  /** The first table processed: its query starts from its watermark, and
      with distinct table names no later table moves that watermark again. */
  lemma TrackedFirst(tables: seq<JunctionEntry>, m: ModifiedDatetimes, fetch: Fetch, f: Field)
    requires DistinctTables(tables)
    requires 0 < |ExtractTables(tables, m, fetch).runs|
    requires tables[0].tableName == FieldName(f)
    ensures var r := ExtractTables(tables, m, fetch);
      && r.runs[0].since == Get(m, f)
      && (|r.runs[0].rows| == 0 ==> Get(r.modified, f) == Get(m, f))
      && (|r.runs[0].rows| > 0 ==> IsMaxModified(r.runs[0].rows, Get(r.modified, f)))
  {
    var e := tables[0];
    ProcessedFirst(tables, m, fetch);
    FieldNameRoundTrip(f);
    DistinctTail(tables);
    var since := Get(m, f);
    var fetched := fetch(e, since).value;
    var advanced := Advance(m, f, fetched.rows);
    forall k | 0 <= k < |tables[1..]|
      ensures tables[1..][k].tableName != FieldName(f)
    {
      assert tables[1..][k] == tables[k + 1];
    }
    UntouchedWatermark(tables[1..], advanced, fetch, f);
  }

  /** With distinct table names, the run of table `f` queried the watermark
      as it was before the loop, and afterwards the watermark is the largest
      `table_modified` of the rows returned, or unchanged when no row came
      back. */
  lemma {:induction false} TrackedWatermark(tables: seq<JunctionEntry>, m: ModifiedDatetimes, fetch: Fetch, f: Field, i: nat)
    requires DistinctTables(tables)
    requires i < |ExtractTables(tables, m, fetch).runs|
    requires ExtractTables(tables, m, fetch).runs[i].entry.tableName == FieldName(f)
    ensures var r := ExtractTables(tables, m, fetch);
      && r.runs[i].since == Get(m, f)
      && (|r.runs[i].rows| == 0 ==> Get(r.modified, f) == Get(m, f))
      && (|r.runs[i].rows| > 0 ==> IsMaxModified(r.runs[i].rows, Get(r.modified, f)))
    decreases |tables|
  {
    if i == 0 {
      TrackedFirst(tables, m, fetch, f);
    } else {
      var advanced := TrackedStep(tables, m, fetch, f, i);
      TrackedWatermark(tables[1..], advanced, fetch, f, i - 1);
    }
  }

  /** One step of `TrackedWatermark`: a later run of table `f` is a run of
      the rest of the loop, which starts with `f`'s watermark unchanged and
      ends with the same watermarks as the whole loop. */
  lemma TrackedStep(tables: seq<JunctionEntry>, m: ModifiedDatetimes, fetch: Fetch, f: Field, i: nat) returns (advanced: ModifiedDatetimes)
    requires DistinctTables(tables)
    requires 0 < i < |ExtractTables(tables, m, fetch).runs|
    requires ExtractTables(tables, m, fetch).runs[i].entry.tableName == FieldName(f)
    ensures DistinctTables(tables[1..])
    ensures i - 1 < |ExtractTables(tables[1..], advanced, fetch).runs|
    ensures ExtractTables(tables[1..], advanced, fetch).runs[i - 1] == ExtractTables(tables, m, fetch).runs[i]
    ensures ExtractTables(tables[1..], advanced, fetch).modified == ExtractTables(tables, m, fetch).modified
    ensures Get(advanced, f) == Get(m, f)
  {
    var g;
    g, advanced := LaterRuns(tables, m, fetch);
    var r := ExtractTables(tables, m, fetch);
    var rest := ExtractTables(tables[1..], advanced, fetch);
    assert r.runs[i] == rest.runs[i - 1];
    DistinctTail(tables);
    assert g != f by {
      FieldNameRoundTrip(f);
    }
  }

  /** The runs after the first are those of the rest of the loop, started
      from the watermarks advanced by the first table `g`. */
  lemma LaterRuns(tables: seq<JunctionEntry>, m: ModifiedDatetimes, fetch: Fetch) returns (g: Field, advanced: ModifiedDatetimes)
    requires 0 < |ExtractTables(tables, m, fetch).runs|
    ensures FieldNamed(tables[0].tableName) == Some(g)
    ensures advanced == Advance(m, g, ExtractTables(tables, m, fetch).runs[0].rows)
    ensures ExtractTables(tables, m, fetch).runs[1..] == ExtractTables(tables[1..], advanced, fetch).runs
    ensures ExtractTables(tables, m, fetch).modified == ExtractTables(tables[1..], advanced, fetch).modified
  {
    ProcessedFirst(tables, m, fetch);
    g := FieldNamed(tables[0].tableName).value;
    advanced := Advance(m, g, fetch(tables[0], Get(m, g)).value.rows);
  }

  /** A row of the `get_full_info` query after grouping by movie. The person
      lists are already free of duplicates (`DISTINCT`); the `type`,
      `created` and `modified` columns are selected but never used. */
  datatype AggregatedRow = AggregatedRow(
    id: string,
    title: string,
    description: Option<string>,
    rating: Option<real>,
    actors: seq<PersonSchema>,
    writers: seq<PersonSchema>,
    directors: seq<PersonSchema>,
    genres: seq<string>)

  /** The full-info query: what call number `attempt` of `get_full_info`
      for a list of movie ids returns, or that it raised. */
  type FullInfoSource = (seq<string>, nat) -> Attempt<seq<AggregatedRow>>

  /** The full-info query only returns movies it was asked for. */
  ghost predicate OnlyRequested(source: FullInfoSource)
  {
    forall ids, attempt ::
      source(ids, attempt).Returned? ==>
        forall i :: 0 <= i < |source(ids, attempt).value| ==> source(ids, attempt).value[i].id in ids
  }

  /** `[actor['name'] for actor in res['actors']]`. */
  function Names(persons: seq<PersonSchema>): (r: seq<string>)
    ensures |r| == |persons|
    ensures forall i :: 0 <= i < |persons| ==> r[i] == persons[i].name
  {
    if |persons| == 0 then [] else [persons[0].name] + Names(persons[1..])
  }

  /** The name of the first director, `''` when there is none. */
  function DirectorOf(directors: seq<PersonSchema>): string
  {
    if |directors| > 0 then directors[0].name else ""
  }

  /** A falsy description (`NULL` or empty) becomes `''`. */
  function DescriptionOrEmpty(description: Option<string>): (r: string)
    ensures description.Some? ==> r == description.value
    ensures description.None? ==> r == ""
  {
    if description.Some? && description.value != "" then description.value else ""
  }

  /** A falsy rating (`NULL` or zero) becomes `0`. */
  function RatingOrZero(rating: Option<real>): (r: real)
    ensures rating.Some? ==> r == rating.value
    ensures rating.None? ==> r == 0.0
  {
    if rating.Some? && rating.value != 0.0 then rating.value else 0.0
  }

  /** The `MovieSchema` built for one genre of an aggregated row. */
  function Document(row: AggregatedRow, genre: string): (r: MovieSchema)
    ensures r.id == row.id && r.title == row.title && r.genre == genre
    ensures r.director == (if |row.directors| == 0 then "" else row.directors[0].name)
    ensures r.actors == row.actors && r.writers == row.writers
    ensures |r.actorsNames| == |row.actors| && forall i :: 0 <= i < |row.actors| ==> r.actorsNames[i] == row.actors[i].name
    ensures |r.writersNames| == |row.writers| && forall i :: 0 <= i < |row.writers| ==> r.writersNames[i] == row.writers[i].name
    ensures r.description == (if row.description.Some? then row.description.value else "")
    ensures r.imdbRating == (if row.rating.Some? then row.rating.value else 0.0)
  {
    MovieSchema(
      id := row.id,
      imdbRating := RatingOrZero(row.rating),
      genre := genre,
      title := row.title,
      description := DescriptionOrEmpty(row.description),
      director := DirectorOf(row.directors),
      actorsNames := Names(row.actors),
      writersNames := Names(row.writers),
      actors := row.actors,
      writers := row.writers)
  }

  /** `for genre in res['genres']`: one document per genre, in order. */
  function PerGenre(row: AggregatedRow, genres: seq<string>): (r: seq<MovieSchema>)
    ensures |r| == |genres|
    ensures forall j :: 0 <= j < |genres| ==> r[j] == Document(row, genres[j])
  {
    if |genres| == 0 then [] else [Document(row, genres[0])] + PerGenre(row, genres[1..])
  }

  /** The documents `get_full_info` makes from one row: one per genre. */
  function ExpandRow(row: AggregatedRow): (r: seq<MovieSchema>)
    ensures |r| == |row.genres|
    ensures forall j :: 0 <= j < |row.genres| ==> r[j] == Document(row, row.genres[j])
  {
    PerGenre(row, row.genres)
  }

  /** The documents of all rows, row after row. */
  function ExpandRows(rows: seq<AggregatedRow>): seq<MovieSchema>
  {
    if |rows| == 0 then [] else ExpandRow(rows[0]) + ExpandRows(rows[1..])
  }

  /** The number of genres over all rows. */
  function GenreCount(rows: seq<AggregatedRow>): nat
  {
    if |rows| == 0 then 0 else |rows[0].genres| + GenreCount(rows[1..])
  }

  /** The copies of a movie made for its genres agree on everything but the
      genre, and listing their genres gives back the row's genre list. */
  lemma PerGenreCopies(row: AggregatedRow)
    ensures |ExpandRow(row)| == |row.genres|
    ensures forall j :: 0 <= j < |row.genres| ==> ExpandRow(row)[j].genre == row.genres[j]
    ensures forall i, j :: 0 <= i < |row.genres| && 0 <= j < |row.genres| ==>
              ExpandRow(row)[i].(genre := "") == ExpandRow(row)[j].(genre := "")
  {
  }

  /** One document per genre of every row, and no other. */
  lemma {:induction false} ExpandRowsCount(rows: seq<AggregatedRow>)
    ensures |ExpandRows(rows)| == GenreCount(rows)
  {
    if |rows| > 0 {
      ExpandRowsCount(rows[1..]);
    }
  }

  /** Every document is built from a row with the same movie id. */
  lemma {:induction false} ExpandedIdsFromRows(rows: seq<AggregatedRow>)
    ensures forall d :: d in ExpandRows(rows) ==> exists i :: 0 <= i < |rows| && rows[i].id == d.id
  {
    if |rows| > 0 {
      ExpandedIdsFromRows(rows[1..]);
      forall d | d in ExpandRows(rows)
        ensures exists i :: 0 <= i < |rows| && rows[i].id == d.id
      {
        if d in ExpandRow(rows[0]) {
          assert rows[0].id == d.id;
        } else {
          assert d in ExpandRows(rows[1..]);
          var i :| 0 <= i < |rows[1..]| && rows[1..][i].id == d.id;
          assert rows[i + 1].id == d.id;
        }
      }
    }
  }

  /** The calls of the retried `get_full_info` for one list of ids. */
  function FullInfoAttempts(source: FullInfoSource, ids: seq<string>): nat -> Attempt<seq<AggregatedRow>>
  {
    (attempt: nat) => source(ids, attempt)
  }

  /** `get_full_info` as seen through its retry wrapper: `[]` for no ids
      without running the query, the expanded documents of the rows the
      query returned, or `None` when every call raised. */
  function GetFullInfo(ids: seq<string>, source: FullInfoSource): (r: Option<seq<MovieSchema>>)
    ensures |ids| == 0 ==> r == Some([])
    ensures 0 < |ids| ==> (r.None? <==> Inner(DefaultPolicy, FullInfoAttempts(source, ids)).result.None?)
    ensures 0 < |ids| && r.Some? ==>
              exists attempt :: source(ids, attempt).Returned? && r.value == ExpandRows(source(ids, attempt).value)
  {
    if |ids| == 0 then
      Some([])
    else
      var run := Inner(DefaultPolicy, FullInfoAttempts(source, ids));
      match run.result
      case None => None
      case Some(rows) =>
        assert source(ids, run.calls - 1) == Returned(rows);
        Some(ExpandRows(rows))
  }

  /** The ids of the movie references, in order. */
  function Ids(movies: seq<MovieRef>): (r: seq<string>)
  {
    if |movies| == 0 then [] else [movies[0].id] + Ids(movies[1..])
  }

  /** `movies_to_update`: the folded movie lists of the tables, concatenated
      in table order. */
  function MoviesToUpdate(runs: seq<TableRun>): seq<MovieRef>
  {
    if |runs| == 0 then [] else FoldChanged(runs[0].rows).movies + MoviesToUpdate(runs[1..])
  }

  /** The `movie_id` column of every row returned, table after table. */
  function RowIds(runs: seq<TableRun>): seq<string>
  {
    if |runs| == 0 then [] else RowMovieIds(runs[0].rows) + RowIds(runs[1..])
  }

  function RowMovieIds(rows: seq<ChangedRow>): seq<string>
  {
    if |rows| == 0 then [] else [rows[0].movieId] + RowMovieIds(rows[1..])
  }

  lemma {:induction false} IdsOfConcat(a: seq<MovieRef>, b: seq<MovieRef>)
    ensures Ids(a + b) == Ids(a) + Ids(b)
  {
    if |a| > 0 {
      assert (a + b)[0] == a[0];
      assert (a + b)[1..] == a[1..] + b;
      IdsOfConcat(a[1..], b);
      calc {
        Ids(a + b);
        [a[0].id] + Ids(a[1..] + b);
        [a[0].id] + (Ids(a[1..]) + Ids(b));
        ([a[0].id] + Ids(a[1..])) + Ids(b);
        Ids(a) + Ids(b);
      }
    } else {
      assert a + b == b;
    }
  }

  lemma {:induction false} FoldedIds(rows: seq<ChangedRow>)
    ensures Ids(FoldChanged(rows).movies) == RowMovieIds(rows)
  {
    var movies := FoldChanged(rows).movies;
    if |rows| > 0 {
      FoldedIds(rows[1..]);
      var tail := FoldChanged(rows[1..]).movies;
      assert movies == [movies[0]] + movies[1..];
      assert movies[1..] == tail;
    }
  }

  /** The ids handed to `get_full_info` are the `movie_id` of every row the
      change queries returned, one per row, in table order then row order. */
  lemma {:induction false} MovieIdsAreRowIds(runs: seq<TableRun>)
    ensures Ids(MoviesToUpdate(runs)) == RowIds(runs)
  {
    if |runs| > 0 {
      IdsOfConcat(FoldChanged(runs[0].rows).movies, MoviesToUpdate(runs[1..]));
      FoldedIds(runs[0].rows);
      MovieIdsAreRowIds(runs[1..]);
    }
  }

  /** What `get_data_to_elastic` produces: the documents (`None` when the
      retried `get_full_info` gave up) or the exception that stopped it,
      together with the watermarks as mutated in place so far and the
      tables it processed. */
  datatype Extraction = Extraction(docs: Result<Option<seq<MovieSchema>>>, modified: ModifiedDatetimes, runs: seq<TableRun>)

  function GetDataToElastic(
    modified: ModifiedDatetimes, tables: seq<JunctionEntry>, changed: ChangedSource, fullInfo: FullInfoSource, limit: nat): (r: Extraction)
    ensures |r.runs| <= |tables|
    ensures r.docs.Success? <==> |r.runs| == |tables|
    ensures forall i :: 0 <= i < |r.runs| ==> r.runs[i].entry == tables[i]
    ensures r.docs.Success? ==> r.docs.value == GetFullInfo(RowIds(r.runs), fullInfo)
    // the watermarks and runs are the table loop's, even when a table raised
    ensures r.modified == ExtractTables(tables, modified, RetriedFetch(changed, limit)).modified
    ensures r.runs == ExtractTables(tables, modified, RetriedFetch(changed, limit)).runs
  {
    var t := ExtractTables(tables, modified, RetriedFetch(changed, limit));
    if t.failure.Some? then
      Extraction(Failure(t.failure.value), t.modified, t.runs)
    else
      MovieIdsAreRowIds(t.runs);
      Extraction(Success(GetFullInfo(Ids(MoviesToUpdate(t.runs)), fullInfo)), t.modified, t.runs)
  }

  /** Every document comes from a movie some change query reported. */
  lemma DocumentsAreChangedMovies(
    modified: ModifiedDatetimes, tables: seq<JunctionEntry>, changed: ChangedSource, fullInfo: FullInfoSource, limit: nat)
    requires OnlyRequested(fullInfo)
    ensures var r := GetDataToElastic(modified, tables, changed, fullInfo, limit);
      r.docs.Success? && r.docs.value.Some? ==> forall d :: d in r.docs.value.value ==> d.id in RowIds(r.runs)
  {
    var r := GetDataToElastic(modified, tables, changed, fullInfo, limit);
    if r.docs.Success? && r.docs.value.Some? && 0 < |RowIds(r.runs)| {
      var ids := RowIds(r.runs);
      var attempt :| fullInfo(ids, attempt).Returned? && r.docs.value.value == ExpandRows(fullInfo(ids, attempt).value);
      var rows := fullInfo(ids, attempt).value;
      ExpandedIdsFromRows(rows);
      forall d | d in r.docs.value.value
        ensures d.id in ids
      {
        var i :| 0 <= i < |rows| && rows[i].id == d.id;
      }
    }
  }

  /** The rows of every run satisfy the filter of the query that returned them. */
  lemma {:induction false} RunRowsAfterSince(tables: seq<JunctionEntry>, m: ModifiedDatetimes, fetch: Fetch, i: nat)
    requires FetchRespectsSince(fetch)
    requires i < |ExtractTables(tables, m, fetch).runs|
    ensures var run := ExtractTables(tables, m, fetch).runs[i];
      AllAfter(run.rows, run.since)
    decreases |tables|
  {
    var r := ExtractTables(tables, m, fetch);
    var e := tables[0];
    match FieldNamed(e.tableName)
    case None =>
    case Some(g) =>
      var since := Get(m, g);
      match fetch(e, since)
      case None =>
      case Some(Fetched(rows, attempt)) =>
        var rest := ExtractTables(tables[1..], Advance(m, g, rows), fetch);
        assert r.runs == [TableRun(e, since, rows, attempt)] + rest.runs;
        if i > 0 {
          assert r.runs[i] == rest.runs[i - 1];
          RunRowsAfterSince(tables[1..], Advance(m, g, rows), fetch, i - 1);
        }
  }
}
