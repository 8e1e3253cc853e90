/** The ETL process of `main.py`: start-up, and the body of the endless
    loop of `start_etl` as a transition over the persisted state store and
    the in-memory watermarks. The database, the search index and the
    storages' media are given per cycle as a `World`; the sleep between
    cycles and the logging are not modelled.

    Two versions of the cycle are given. `StepAsWritten` follows the code:
    the watermarks are advanced in memory by the extraction itself, a failed
    bulk load is swallowed by the retry wrapper, and the persist step reads
    the attribute `movie`, which `ModifiedDatetimes` lacks. `Step` is the
    evidently intended cycle: it reads `film_work`, treats an exhausted load
    as a failure, and keeps the previous watermarks when the cycle fails. */
module Etl {
  import opened Outcomes
  import opened Models
  import opened Watermarks
  import opened State
  import opened MoviesState
  import opened Backoff
  import opened Extract
  import opened ElasticLoader

  /** What survives from one cycle to the next: the state store and the
      `modified` object shared by all cycles. */
  datatype EtlState = EtlState(store: Storage<Timestamp>, modified: ModifiedDatetimes)

  /** Fixed at start-up: `JUNCTION_TABLES` and the index name. */
  datatype Config = Config(tables: seq<JunctionEntry>, indexName: string)

  /** What the outside world does during one cycle: the answers of the two
      queries, the calls of the bulk load, and which of the three watermark
      writes fails, if any (0 for the first). */
  datatype World = World(
    changed: ChangedSource,
    fullInfo: FullInfoSource,
    bulk: nat -> Attempt<()>,
    failingWrite: Option<nat>)

  datatype CycleOutcome = Completed | Aborted(error: Exception)

  /** The state after a cycle, how the cycle ended, and the actions of the
      bulk call that completed, if any. */
  datatype Cycle = Cycle(next: EtlState, outcome: CycleOutcome, shipped: seq<Action>)

  /** The stored watermark of a table, or 1900-01-01 when there is none. */
  function InitialWatermarks(store: Storage<Timestamp>): (r: ModifiedDatetimes)
    ensures forall f: Field :: LastDate(store, f).Some? ==> Get(r, f) == LastDate(store, f).value
    ensures forall f: Field :: LastDate(store, f).None? ==> Get(r, f) == Year1900
  {
    ModifiedDatetimes(
      if LastDate(store, Person).Some? then LastDate(store, Person).value else Year1900,
      if LastDate(store, Genre).Some? then LastDate(store, Genre).value else Year1900,
      if LastDate(store, FilmWork).Some? then LastDate(store, FilmWork).value else Year1900)
  }

  /** The value of `STATE_TYPE`, which defaults to `json` when unset. */
  function StateType(env: Option<string>): string
  {
    if env.Some? then env.value else "json"
  }

  /** The value of `SLEEP_TIME` as `float()` sees it: unset (the default
      is 1 s), a number, or a string `float()` rejects with `ValueError`.
      Which strings `float()` accepts is not modelled. */
  datatype SleepSetting = SleepUnset | SleepSeconds(seconds: real) | SleepUnparsable

  /** What start-up hands to the loop: the state and the pause between
      cycles in seconds. */
  datatype Started = Started(state: EtlState, sleepTime: real)

  /** Start-up, before the loop: `ELASTIC_HOST` must be set and non-empty,
      `SLEEP_TIME` must parse as a float, `STATE_TYPE` (default `json`) must
      be non-empty and a known storage type; the watermarks start from the
      store. `None` is an unset variable. */
  function Startup(elasticHost: Option<string>, stateType: Option<string>, sleepTime: SleepSetting,
                   file: FileState<Timestamp>, redis: RedisEntry<Timestamp>): (r: Result<Started>)
    ensures elasticHost in {None, Some("")} ==> r == Failure(ValueError)
    ensures r.Success? <==>
              && elasticHost !in {None, Some("")}
              && !sleepTime.SleepUnparsable?
              && stateType in {None, Some("json"), Some("redis")}
    ensures r.Failure? ==> r.error == ValueError
    ensures r.Success? ==> r.value.state.modified == InitialWatermarks(r.value.state.store)
    ensures r.Success? && stateType in {None, Some("json")} ==> r.value.state.store == JsonFileStorage("state.json", file)
    ensures r.Success? && stateType == Some("redis") ==> r.value.state.store == RedisStorage(redis)
    ensures r.Success? ==> r.value.sleepTime == (if sleepTime.SleepSeconds? then sleepTime.seconds else 1.0)
  {
    if elasticHost.None? || elasticHost.value == "" then Failure(ValueError)
    else if sleepTime.SleepUnparsable? then Failure(ValueError)
    else if StateType(stateType) == "" then Failure(ValueError)
    else
      var pause := if sleepTime.SleepSeconds? then sleepTime.seconds else 1.0;
      match GetStorage(StateType(stateType), file, redis)
      case Failure(e) => Failure(e)
      case Success(store) => Success(Started(EtlState(store, InitialWatermarks(store)), pause))
  }

  /** What `load_movies` did: the actions of the bulk call that returned,
      and whether one did. A bulk call that raised is modelled as having
      indexed nothing. */
  datatype LoadRun = LoadRun(shipped: seq<Action>, loaded: bool)

  /** `load_movies` through its retry wrapper. It never raises: when every
      call fails, the wrapper returns `None` and the cycle goes on. Given
      `None` instead of a list, every call raises `TypeError`. */
  function LoadMovies(indexName: string, docs: Option<seq<MovieSchema>>, bulk: nat -> Attempt<()>): (r: LoadRun)
    ensures docs.None? ==> r == LoadRun([], false)
    ensures docs.Some? ==> (r.loaded <==> Inner(DefaultPolicy, bulk).result.Some?)
    ensures r.loaded ==> docs.Some? && r.shipped == GenerateActions(indexName, docs.value)
    ensures !r.loaded ==> r.shipped == []
    // a load whose every bulk call raises completes no bulk call
    ensures (forall a :: bulk(a) == Raised) ==> r == LoadRun([], false)
  {
    var calls: nat -> Attempt<()> := if docs.None? then (_ => Raised) else bulk;
    var run := Inner(DefaultPolicy, calls);
    if run.result.Some? then
      LoadRun(GenerateActions(indexName, docs.value), true)
    else
      LoadRun([], false)
  }

  /** The order of the three setter lines: movie, genre, person. */
  const WriteOrder: seq<Field> := [FilmWork, Genre, Person]

  /** What the persist step left: the store and the exception that stopped
      it, if any. */
  datatype Persisted = Persisted(store: Storage<Timestamp>, error: Option<Exception>)

  /** Writes the watermarks `values` under the keys of `fields`, in order,
      as separate store updates; write number `failingWrite` raises and
      leaves the store as it was, and stops the rest. */
  function WriteAll(store: Storage<Timestamp>, fields: seq<Field>, values: seq<Timestamp>, failingWrite: Option<nat>): (r: Persisted)
    requires |fields| == |values|
    ensures r.error.None? <==> !(failingWrite.Some? && failingWrite.value < |fields|)
    ensures r.error.Some? ==> r.error.value == OSError
    decreases |fields|
  {
    if |fields| == 0 then Persisted(store, None)
    else if failingWrite == Some(0) then Persisted(store, Some(OSError))
    else
      var later := if failingWrite.Some? then Some(failingWrite.value - 1) else None;
      WriteAll(SetLastDate(store, fields[0], values[0]), fields[1..], values[1..], later)
  }

  /** The number of writes that happen before the failing one. */
  function WritesDone(failingWrite: Option<nat>, n: nat): nat
  {
    if failingWrite.Some? && failingWrite.value < n then failingWrite.value else n
  }

  /** A watermark that none of the writes before the failing one touches
      keeps its stored value. */
  lemma {:induction false} WriteAllUntouched(store: Storage<Timestamp>, fields: seq<Field>, values: seq<Timestamp>, failingWrite: Option<nat>, g: Field)
    requires |fields| == |values|
    requires forall i :: 0 <= i < WritesDone(failingWrite, |fields|) ==> fields[i] != g
    ensures LastDate(WriteAll(store, fields, values, failingWrite).store, g) == LastDate(store, g)
    decreases |fields|
  {
    if |fields| > 0 && failingWrite != Some(0) {
      var later := if failingWrite.Some? then Some(failingWrite.value - 1) else None;
      assert fields[0] != g;
      SetLastDateIsolated(store, fields[0], values[0], g);
      forall i | 0 <= i < WritesDone(later, |fields| - 1)
        ensures fields[1..][i] != g
      {
        assert fields[1..][i] == fields[i + 1];
      }
      WriteAllUntouched(SetLastDate(store, fields[0], values[0]), fields[1..], values[1..], later, g);
    }
  }

  /** The first write, when it happens, is never overwritten by the later
      ones, the fields being distinct. */
  lemma WriteAllFirst(store: Storage<Timestamp>, fields: seq<Field>, values: seq<Timestamp>, failingWrite: Option<nat>)
    requires |fields| == |values|
    requires forall a, b :: 0 <= a < b < |fields| ==> fields[a] != fields[b]
    requires 0 < WritesDone(failingWrite, |fields|)
    ensures LastDate(WriteAll(store, fields, values, failingWrite).store, fields[0]) == Some(values[0])
  {
    var later := if failingWrite.Some? then Some(failingWrite.value - 1) else None;
    var s1 := SetLastDate(store, fields[0], values[0]);
    SetLastDateIsolated(store, fields[0], values[0], fields[0]);
    forall k | 0 <= k < WritesDone(later, |fields| - 1)
      ensures fields[1..][k] != fields[0]
    {
      assert fields[1..][k] == fields[k + 1];
    }
    WriteAllUntouched(s1, fields[1..], values[1..], later, fields[0]);
  }

  /** The writes are not atomic: each write before the failing one reaches
      the store, and with distinct fields it is not overwritten. */
  lemma {:induction false} WriteAllWritten(store: Storage<Timestamp>, fields: seq<Field>, values: seq<Timestamp>, failingWrite: Option<nat>, i: nat)
    requires |fields| == |values|
    requires forall a, b :: 0 <= a < b < |fields| ==> fields[a] != fields[b]
    requires i < WritesDone(failingWrite, |fields|)
    ensures LastDate(WriteAll(store, fields, values, failingWrite).store, fields[i]) == Some(values[i])
    decreases |fields|
  {
    if i == 0 {
      WriteAllFirst(store, fields, values, failingWrite);
    } else {
      var later := if failingWrite.Some? then Some(failingWrite.value - 1) else None;
      assert fields[1..][i - 1] == fields[i] && values[1..][i - 1] == values[i];
      WriteAllWritten(SetLastDate(store, fields[0], values[0]), fields[1..], values[1..], later, i - 1);
    }
  }

  /** Lines 60-62: the movie watermark is read through the attribute
      `movieAttribute`, then the three watermarks are written in order. */
  function Persist(store: Storage<Timestamp>, modified: ModifiedDatetimes, movieAttribute: string, failingWrite: Option<nat>): (r: Persisted)
    ensures FieldNamed(movieAttribute).None? ==> r == Persisted(store, Some(AttributeError))
    ensures FieldNamed(movieAttribute).Some? ==> (r.error.None? <==> !(failingWrite.Some? && failingWrite.value < 3))
  {
    match GetAttr(modified, movieAttribute)
    case Failure(e) => Persisted(store, Some(e))
    case Success(movie) => WriteAll(store, WriteOrder, [movie, modified.genre, modified.person], failingWrite)
  }

  /** The persist step as written reads `last_modified.movie`: it raises
      `AttributeError` before any write, whatever the watermarks. */
  function PersistAsWritten(store: Storage<Timestamp>, modified: ModifiedDatetimes, failingWrite: Option<nat>): (r: Persisted)
    ensures r == Persisted(store, Some(AttributeError))
  {
    Persist(store, modified, "movie", failingWrite)
  }

  /** The persist step reading `film_work`: when no write fails, the store
      holds the three watermarks afterwards; when write `k` fails, the first
      `k` watermarks are stored and the others keep their stored value. */
  function PersistCorrected(store: Storage<Timestamp>, modified: ModifiedDatetimes, failingWrite: Option<nat>): (r: Persisted)
    ensures r.error.None? <==> !(failingWrite.Some? && failingWrite.value < 3)
    ensures forall j :: 0 <= j < WritesDone(failingWrite, 3) ==>
              LastDate(r.store, WriteOrder[j]) == Some(Get(modified, WriteOrder[j]))
    ensures forall j :: WritesDone(failingWrite, 3) <= j < 3 ==>
              LastDate(r.store, WriteOrder[j]) == LastDate(store, WriteOrder[j])
    ensures r.error.None? ==> forall f: Field :: LastDate(r.store, f) == Some(Get(modified, f))
  {
    PersistCorrectedStores(store, modified, failingWrite);
    Persist(store, modified, "film_work", failingWrite)
  }

  /** The store after the persist step reading `film_work`, write by write. */
  lemma PersistCorrectedStores(store: Storage<Timestamp>, modified: ModifiedDatetimes, failingWrite: Option<nat>)
    ensures var r := Persist(store, modified, "film_work", failingWrite);
      && (forall j :: 0 <= j < WritesDone(failingWrite, 3) ==>
            LastDate(r.store, WriteOrder[j]) == Some(Get(modified, WriteOrder[j])))
      && (forall j :: WritesDone(failingWrite, 3) <= j < 3 ==>
            LastDate(r.store, WriteOrder[j]) == LastDate(store, WriteOrder[j]))
  {
    var values := [modified.filmWork, modified.genre, modified.person];
    var r := Persist(store, modified, "film_work", failingWrite);
    assert r == WriteAll(store, WriteOrder, values, failingWrite);
    forall j | 0 <= j < WritesDone(failingWrite, 3)
      ensures LastDate(r.store, WriteOrder[j]) == Some(Get(modified, WriteOrder[j]))
    {
      WriteAllWritten(store, WriteOrder, values, failingWrite, j);
    }
    forall j | WritesDone(failingWrite, 3) <= j < 3
      ensures LastDate(r.store, WriteOrder[j]) == LastDate(store, WriteOrder[j])
    {
      WriteAllUntouched(store, WriteOrder, values, failingWrite, WriteOrder[j]);
    }
  }

  /** The loop body of `start_etl` as written. The extraction advances the
      shared `modified` object in place, whatever happens next; the load
      never raises; `len(movies)` raises on the `None` of an exhausted
      `get_full_info`; the persist step always raises. Every exception is
      caught, so the loop goes on with the next cycle. */
  function StepAsWritten(cfg: Config, s: EtlState, w: World): (c: Cycle)
    // the store is never written, and no cycle completes
    ensures c.next.store == s.store
    ensures c.outcome.Aborted?
    // the in-memory watermarks are whatever the extraction left, loaded or not
    ensures c.next.modified == GetDataToElastic(s.modified, cfg.tables, w.changed, w.fullInfo, MaxExtractRowByQuery).modified
    // what is shipped is what the load of the extracted documents completed
    ensures var ex := GetDataToElastic(s.modified, cfg.tables, w.changed, w.fullInfo, MaxExtractRowByQuery);
              && (ex.docs.Failure? ==> c.shipped == [])
              && (ex.docs.Success? ==> c.shipped == LoadMovies(cfg.indexName, ex.docs.value, w.bulk).shipped)
  {
    var ex := GetDataToElastic(s.modified, cfg.tables, w.changed, w.fullInfo, MaxExtractRowByQuery);
    var memory := ex.modified;
    match ex.docs
    case Failure(e) => Cycle(EtlState(s.store, memory), Aborted(e), [])
    case Success(docs) =>
      var load := LoadMovies(cfg.indexName, docs, w.bulk);
      if docs.None? then
        Cycle(EtlState(s.store, memory), Aborted(TypeError), load.shipped)
      else
        var p := PersistAsWritten(s.store, memory, w.failingWrite);
        Cycle(EtlState(p.store, memory), Aborted(p.error.value), load.shipped)
  }

  /** The intended cycle: extract from a copy of the watermarks, load, and
      only when the load went through, persist; the in-memory watermarks
      move only when the whole cycle succeeds. */
  function Step(cfg: Config, s: EtlState, w: World): (c: Cycle)
    // no advance on failure
    ensures c.outcome.Aborted? ==> c.next.modified == s.modified
    ensures c.outcome.Completed? ==>
              c.next.modified == GetDataToElastic(s.modified, cfg.tables, w.changed, w.fullInfo, MaxExtractRowByQuery).modified
    // a completed cycle has stored exactly the watermarks it now holds
    ensures c.outcome.Completed? ==> forall f: Field :: LastDate(c.next.store, f) == Some(Get(c.next.modified, f))
    // and it shipped the extracted documents
    ensures c.outcome.Completed? ==>
              var ex := GetDataToElastic(s.modified, cfg.tables, w.changed, w.fullInfo, MaxExtractRowByQuery);
              && ex.docs.Success? && ex.docs.value.Some?
              && c.next.modified == ex.modified
              && c.shipped == GenerateActions(cfg.indexName, ex.docs.value.value)
    // the store is written only after the documents were loaded
    ensures c.next.store != s.store ==>
              var ex := GetDataToElastic(s.modified, cfg.tables, w.changed, w.fullInfo, MaxExtractRowByQuery);
              && ex.docs.Success? && ex.docs.value.Some?
              && c.shipped == GenerateActions(cfg.indexName, ex.docs.value.value)
    // completing, or writing the store at all, needs a bulk call that returned
    ensures c.outcome.Completed? || c.next.store != s.store ==> Inner(DefaultPolicy, w.bulk).result.Some?
    // a cycle whose extraction, some bulk call and every write succeed completes
    ensures var ex := GetDataToElastic(s.modified, cfg.tables, w.changed, w.fullInfo, MaxExtractRowByQuery);
              && ex.docs.Success? && ex.docs.value.Some?
              && Inner(DefaultPolicy, w.bulk).result.Some?
              && (w.failingWrite.None? || 3 <= w.failingWrite.value)
              ==> c.outcome.Completed?
    // a cycle whose every bulk call raises changes nothing and ships nothing
    ensures (forall a :: w.bulk(a) == Raised) ==> c.next == s && c.outcome.Aborted? && c.shipped == []
  {
    var ex := GetDataToElastic(s.modified, cfg.tables, w.changed, w.fullInfo, MaxExtractRowByQuery);
    match ex.docs
    case Failure(e) => Cycle(s, Aborted(e), [])
    case Success(None) => Cycle(s, Aborted(TypeError), [])
    case Success(Some(docs)) =>
      var load := LoadMovies(cfg.indexName, Some(docs), w.bulk);
      if !load.loaded then
        Cycle(s, Aborted(ConnectionError), [])
      else
        var p := PersistCorrected(s.store, ex.modified, w.failingWrite);
        if p.error.Some? then
          Cycle(EtlState(p.store, s.modified), Aborted(p.error.value), load.shipped)
        else
          Cycle(EtlState(p.store, ex.modified), Completed, load.shipped)
  }

  /** Either version of the cycle never lowers an in-memory watermark,
      given a change query that honours its since-date. */
  lemma StepsNeverLower(cfg: Config, s: EtlState, w: World, f: Field)
    requires RespectsSince(w.changed)
    ensures Get(s.modified, f) <= Get(StepAsWritten(cfg, s, w).next.modified, f)
    ensures Get(s.modified, f) <= Get(Step(cfg, s, w).next.modified, f)
  {
    var a := StepAsWritten(cfg, s, w);
    var c := Step(cfg, s, w);
    RetriedFetchRespectsSince(w.changed, MaxExtractRowByQuery);
    ExtractionNeverLowers(cfg.tables, s.modified, RetriedFetch(w.changed, MaxExtractRowByQuery), f);
  }

  /** The cycle as written advances the in-memory watermark of a table that
      returned rows even when every bulk call fails and no load completes:
      the next cycle starts after rows whose load never completed, and the
      store is not updated either. */
  lemma AsWrittenAdvancesWithoutLoading(cfg: Config, s: EtlState, w: World, f: Field, i: nat)
    requires DistinctTables(cfg.tables)
    requires RespectsSince(w.changed)
    requires forall a :: w.bulk(a) == Raised
    requires var runs := GetDataToElastic(s.modified, cfg.tables, w.changed, w.fullInfo, MaxExtractRowByQuery).runs;
      i < |runs| && runs[i].entry.tableName == FieldName(f) && 0 < |runs[i].rows|
    ensures StepAsWritten(cfg, s, w).shipped == []
    ensures Get(s.modified, f) < Get(StepAsWritten(cfg, s, w).next.modified, f)
    ensures StepAsWritten(cfg, s, w).next.store == s.store
  {
    var ex := GetDataToElastic(s.modified, cfg.tables, w.changed, w.fullInfo, MaxExtractRowByQuery);
    var t := ExtractTables(cfg.tables, s.modified, RetriedFetch(w.changed, MaxExtractRowByQuery));
    TrackedWatermark(cfg.tables, s.modified, RetriedFetch(w.changed, MaxExtractRowByQuery), f, i);
    var run := t.runs[i];
    // the rows came from the query, so they are newer than the since-date
    assert run.entry == cfg.tables[i];
    RetriedFetchRespectsSince(w.changed, MaxExtractRowByQuery);
    RunRowsAfterSince(cfg.tables, s.modified, RetriedFetch(w.changed, MaxExtractRowByQuery), i);
    var k :| 0 <= k < |run.rows| && run.rows[k].tableModified == Get(ex.modified, f);
  }

  /** The endless loop, cut to the cycles in `worlds`: no exception on the
      data path ends it, each cycle starts from the state the previous one
      left. */
  function RunAsWritten(cfg: Config, s: EtlState, worlds: seq<World>): (r: EtlState)
    // the store is never written, however many cycles run
    ensures r.store == s.store
    decreases |worlds|
  {
    if |worlds| == 0 then s else RunAsWritten(cfg, StepAsWritten(cfg, s, worlds[0]).next, worlds[1..])
  }

  function Run(cfg: Config, s: EtlState, worlds: seq<World>): (r: EtlState)
    decreases |worlds|
  {
    if |worlds| == 0 then s else Run(cfg, Step(cfg, s, worlds[0]).next, worlds[1..])
  }

  /** Over any number of cycles the in-memory watermarks never decrease. */
  lemma {:induction false} RunsNeverLower(cfg: Config, s: EtlState, worlds: seq<World>, f: Field)
    requires forall k :: 0 <= k < |worlds| ==> RespectsSince(worlds[k].changed)
    ensures Get(s.modified, f) <= Get(RunAsWritten(cfg, s, worlds).modified, f)
    ensures Get(s.modified, f) <= Get(Run(cfg, s, worlds).modified, f)
    decreases |worlds|
  {
    if |worlds| > 0 {
      StepsNeverLower(cfg, s, worlds[0], f);
      assert forall k :: 0 <= k < |worlds[1..]| ==> worlds[1..][k] == worlds[k + 1];
      RunsNeverLower(cfg, StepAsWritten(cfg, s, worlds[0]).next, worlds[1..], f);
      RunsNeverLower(cfg, Step(cfg, s, worlds[0]).next, worlds[1..], f);
    }
  }
}
