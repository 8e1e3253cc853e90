# Incremental Postgres → Elasticsearch movie sync, modelled in Dafny

The system copies movies from a PostgreSQL content database into an
Elasticsearch index. Each ETL cycle runs these steps:

- For each tracked table (`person`, `genre`, `film_work`), it asks for the
  rows modified after that table's watermark. It folds the answer into a
  list of changed movies and the newest modification time seen, and moves
  the watermark to that time.
- It fetches the full aggregated record of every changed movie and expands
  each record into one `MovieSchema` document per genre.
- It bulk-loads the documents into the index, keyed by movie id.
- It tries to persist the three watermarks in a key-value state store (a
  JSON file or Redis). As written, persisting fails before anything is
  stored (see "## Findings").

The row queries, the full-info query and the bulk load go through a retry
wrapper with geometrically growing sleeps. Index creation
(`create_index_if_not_exists`, which polls `ping` once a second) and the
database connection are not wrapped.

The model is functional:

- Query answers, bulk-load calls and storage contents are inputs.
- The outcome of the i-th call of a retried function is a total function
  `nat -> Attempt<T>`.
- The retry wrapper, the extraction and the cycle are recursive functions
  over those inputs.
- Timestamps are integers: an order-preserving encoding of the database's
  microsecond timestamps (microseconds since 1970, with `Year1900` for
  1900-01-01).
- Retry delays are naturals in units of 0.1 s, the default initial delay.
  The defaults are initial delay 1, factor 2 and border 100 (10 s).
  Multiplying by a power of two is exact in floating point, so the integer
  delays match the source's.

Modules:

- `Outcomes`: `Option`, `Result`, the Python exceptions that matter, and
  call attempts.
- `Models`: `PersonSchema` and `MovieSchema`.
- `Watermarks`: `ModifiedDatetimes`, and `getattr`/`setattr` by table name.
- `State`: the storages, `set_state`/`get_state` and the storage factory.
- `MoviesState`: the watermark accessors of `MoviesStateManager`.
- `Backoff`: the `backoff` decorator.
- `Extract`: `Extractor.extract_modified` (the row fold),
  `get_data_to_elastic` and `get_full_info` (the row → document expansion).
- `ElasticLoader`: `_generate_actions`, and the index with
  `helpers.bulk` as a keyed overwrite.
- `Etl`: start-up, `load_movies` and the loop body of `start_etl`.

`Etl` comes in two versions:

- `StepAsWritten` follows the code.
- `Step` is the evidently intended cycle (see "## Findings").

## Model

| member | source | states |
|---|---|---|
| Watermarks.FieldNamed | postgres_to_es/extract.py:17-23 | a table name selects a watermark exactly when it is `person`, `genre` or `film_work`, and then the field of that name |
| Watermarks.FieldNameRoundTrip | postgres_to_es/extract.py:21-23 | every watermark field is found again by its own name |
| Watermarks.Set | postgres_to_es/extract.py:80-81 | `setattr` by table name stores the new value in that field and leaves the other two watermarks unchanged |
| Watermarks.GetAttr | postgres_to_es/extract.py:78 | `getattr` by table name succeeds exactly for the three field names, returns that field's watermark, and raises `AttributeError` for any other table name (names of Python attributes such as `__class__` are not modelled) |
| State.RetrieveState | postgres_to_es/state.py:63-86 | a missing state file, or an unset, empty or JSON-null Redis value, reads as the empty mapping; otherwise the stored mapping is returned |
| State.SaveState | postgres_to_es/state.py:59-159 | the file and Redis storages replace the whole mapping, so the next read returns exactly what was saved (state.py:59-61 and 77-79); the mock storage merges: old keys stay, saved keys take the new values (state.py:157-159) |
| State.MockSaveKeepsKeys | postgres_to_es/state.py:157-159 | saving into the mock storage never removes a key |
| State.GetState | postgres_to_es/state.py:101-103 | `get_state(k)` is `None` exactly when the key is absent from the stored mapping, and otherwise is its stored value; stored values are never null in the model, so a JSON `null`, which `get_state` also returns as `None`, is not represented |
| State.SetState | postgres_to_es/state.py:95-99 | `set_state(k, v)` reads the whole mapping, sets `k` and saves it back, so on every storage the mapping read back afterwards is the old one with `k` set to `v` |
| State.SetThenGet | postgres_to_es/state.py:95-103 | after `set_state(k, v)`, `get_state(k)` returns `v`, on every storage |
| State.SetLeavesOtherKeys | postgres_to_es/state.py:95-99 | `set_state(k, v)` leaves the value (or absence) of every other key unchanged |
| State.GetStorage | postgres_to_es/state.py:22-35 | `json` gives the JSON file storage on `state.json` over the file's contents, `redis` the Redis storage over the server's value, anything else raises `ValueError` |
| MoviesState.KeysDistinct | postgres_to_es/state.py:120-148 | the three watermark accessors use three different state keys |
| MoviesState.GetDateOrNone | postgres_to_es/state.py:113-118 | `_get_date_or_none` is `None` exactly when the key is absent, and otherwise the stored date; a stored JSON `null` is not represented |
| MoviesState.LastDate | postgres_to_es/state.py:120-148 | the getters `last_date_of_modified_movie`, `_person` and `_genre`: a watermark is present exactly when its own key is in the stored mapping, and is the value under that key |
| MoviesState.SetLastDate | postgres_to_es/state.py:120-148 | the setters: after setting a watermark its getter returns the value set; that the other two are untouched is `MoviesState.SetLastDateIsolated` |
| MoviesState.SetLastDateIsolated | postgres_to_es/state.py:120-148 | setting one watermark makes its getter return the new value and leaves the other two getters unchanged |
| Backoff.Retry | postgres_to_es/backoff.py:16-22 | the loop calls the function only while the delay is below the border; it returns the first returned value and makes no further call; each failure, the last included, is followed by a sleep of the current delay, and the delay is multiplied by the growth after each one; when every allowed call fails the result is `None` and the delay has reached the border |
| Backoff.Inner | postgres_to_es/backoff.py:13-22 | the wrapper with a sleep time, factor and border: the j-th sleep is `sleep_time * (2**factor)**j`, every call made happens while that delay is below the border, and an initial delay at or above the border makes no call and returns `None` |
| Backoff.Outcome | postgres_to_es/backoff.py:16-18 | what the caller gets back is the value of a call that returned, every earlier call having raised; that it is `None` only when every allowed call raised is `Backoff.OutcomeNoneWhenAllRaise` |
| Backoff.OutcomeNoneWhenAllRaise | postgres_to_es/backoff.py:16-22 | the caller gets `None` exactly when every call made while the delay is below the border raised, and a returned value comes from a call made while the delay was still below the border |
| Backoff.ScheduledIsGeometric | postgres_to_es/backoff.py:22 | the delay before call j is the initial delay times the growth to the power j |
| Backoff.DelayMonotone | postgres_to_es/backoff.py:22 | the delays never shrink from one failure to the next |
| Backoff.FirstReturnDecides | postgres_to_es/backoff.py:16-18 | if calls 0..k-1 raise and call k returns while its delay is below the border, the wrapper returns call k's value after exactly k+1 calls and k sleeps |
| Backoff.DefaultSchedule | postgres_to_es/backoff.py:14-22 | with the defaults there are at most four calls, and when every call raises the sleeps are 0.1, 0.4, 1.6 and 6.4 s and the result is `None` |
| Backoff.InnerCallsBounded | postgres_to_es/backoff.py:16-22 | under a policy that terminates, the wrapper calls the function at most `border_sleep_time` (in 0.1 s units) times, whatever the function does |
| Backoff.RetryUpTo | postgres_to_es/backoff.py:16-22 | the loop as written, for any policy, followed for at most `fuel` calls: a finished run made at most `fuel` calls, and its value is that of its last call |
| Backoff.RetryUpToAgrees | postgres_to_es/backoff.py:16-22 | whenever the loop as written stops, it stops exactly as `Retry` says, given enough calls |
| Backoff.NeverGivesUp | postgres_to_es/backoff.py:16-22 | with a zero `sleep_time` or a zero `factor` and an initial delay below the border, a function that always raises is retried for as many calls as allowed: the loop never gives up |
| Backoff.CheckedInner | postgres_to_es/backoff.py:13-22 | the wrapper with the policy checked first: a policy under which it could retry forever is refused with `ValueError`, and an accepted one makes at most `border_sleep_time` calls and gives up only once the delay reaches the border |
| Extract.FoldChanged | postgres_to_es/extract.py:113-118 | one `(movie_id, movie_modified)` entry per row, in row order; the maximum is `None` exactly for no rows, and otherwise is the largest `table_modified` of the rows |
| Extract.FoldedIds | postgres_to_es/extract.py:113-118 | the ids of the folded movie list are the rows' movie ids in order |
| Extract.MoviesToUpdate | postgres_to_es/extract.py:82 | `movies_to_update += movies` over the tables; no contract of its own: that its ids are every returned row's `movie_id`, table by table, is `Extract.MovieIdsAreRowIds` |
| Extract.ExtractModified | postgres_to_es/extract.py:86-118 | a retried change query yields the rows of the first call that returned, all earlier calls having raised |
| Extract.RetriedFetchRespectsSince | postgres_to_es/extract.py:86-118 | retrying keeps the query filter: with a database that honours `modified > since`, every row a retried query hands back is newer than its since-date |
| Extract.RunRowsAfterSince | postgres_to_es/extract.py:92-107 | the rows of each processed table satisfy its filter `modified > since`, given a fetch that honours it |
| Extract.Advance | postgres_to_es/extract.py:80-81 | no rows leave the watermarks unchanged; otherwise the table's watermark becomes the newest `table_modified` of its rows, and the other two are unchanged |
| Extract.ExtractTables | postgres_to_es/extract.py:75-82 | the tables are processed in `JUNCTION_TABLES` order until one fails; each processed table's run holds exactly what its retried query returned for the since-date the run records (that this since-date is the table's watermark before the loop is `Extract.TrackedWatermark`, for distinct table names); a failure is `AttributeError` for a table name with no watermark, or `TypeError` for a known table whose retried query gave up and its `None` is unpacked |
| Extract.ExtractionNeverLowers | postgres_to_es/extract.py:77-81 | with a database honouring the filter, extraction never lowers a watermark |
| Extract.UntouchedWatermark | postgres_to_es/extract.py:77-81 | a watermark whose table is not in the list is left as it was |
| Extract.TrackedFirst | postgres_to_es/extract.py:77-81 | the first table's query starts from its watermark, and with distinct table names that watermark ends as the newest `table_modified` of its rows, or unchanged without rows |
| Extract.TrackedWatermark | postgres_to_es/extract.py:77-81 | with distinct table names, a table's query starts from its watermark as it was; afterwards its watermark is unchanged when no rows came back, and is the newest `table_modified` of its rows otherwise |
| Extract.MovieIdsAreRowIds | postgres_to_es/extract.py:82-83 | the ids passed to `get_full_info` are the movie ids of all returned rows, table by table, in order |
| Extract.GetDataToElastic | postgres_to_es/extract.py:70-84 | when every table is processed, the documents are `get_full_info` of the collected ids; the watermarks returned are the ones the loop left, also when a table raised |
| Extract.DocumentsAreChangedMovies | postgres_to_es/extract.py:83 | every returned document belongs to a movie some change query reported, given a database that answers only for the requested ids |
| Extract.Names | postgres_to_es/extract.py:180-181 | the name lists are the projections of the person lists: same length, same order |
| Extract.DescriptionOrEmpty | postgres_to_es/extract.py:182 | a missing description becomes `''` |
| Extract.RatingOrZero | postgres_to_es/extract.py:183 | a missing rating becomes `0` |
| Extract.Document | postgres_to_es/extract.py:179-201 | a document carries the row's id, title and person lists and the given genre; the director is the first director's name or `''`; the name lists project the person lists |
| Extract.PerGenre | postgres_to_es/extract.py:184-203 | one document per genre, in genre order |
| Extract.ExpandRow | postgres_to_es/extract.py:177-204 | one row's documents: one per genre, in genre order, each the row's document for that genre |
| Extract.ExpandRows | postgres_to_es/extract.py:177-204 | the documents of all rows, row after row; no contract of its own: its count is `Extract.ExpandRowsCount` and the provenance of its ids `Extract.ExpandedIdsFromRows` |
| Extract.PerGenreCopies | postgres_to_es/extract.py:184-203 | a row expands to one document per element of its `genres`, in order, all sharing id, title, description, rating, director and person lists |
| Extract.ExpandRowsCount | postgres_to_es/extract.py:177-204 | the number of documents is the total number of genres over all rows |
| Extract.ExpandedIdsFromRows | postgres_to_es/extract.py:177-204 | every document's id is the id of some fetched row |
| Extract.GetFullInfo | postgres_to_es/extract.py:120-124 | an empty id list gives `[]`; otherwise the result is `None` exactly when the retries are exhausted, and is the expansion of some returned answer |
| ElasticLoader.GenerateActions | postgres_to_es/elastic_loader.py:27-30 | one action per movie, in order, each with the loader's index name, the movie's id as `_id` and the movie as `_source` |
| ElasticLoader.Bulk | postgres_to_es/elastic_loader.py:42 | the effect of `bulk` on the index, each action storing its source under its `_id`; no contract of its own: its properties are `ElasticLoader.BulkOverrides`, `BulkIdempotent`, `BulkLastWriteWins` and `BulkUntouched` |
| ElasticLoader.BulkOverrides | postgres_to_es/elastic_loader.py:39-42 | a bulk load overwrites the documents of the ids it carries and keeps all others |
| ElasticLoader.BulkIdempotent | postgres_to_es/elastic_loader.py:39-42 | loading the same actions twice leaves the index as one load does |
| ElasticLoader.BulkLastWriteWins | postgres_to_es/elastic_loader.py:39-42 | the index holds, for an id, the source of the last action carrying that id |
| ElasticLoader.BulkUntouched | postgres_to_es/elastic_loader.py:39-42 | an id no action carries keeps its document, or stays absent |
| ElasticLoader.LastGenreSurvives | postgres_to_es/elastic_loader.py:29-30 | the per-genre copies of a movie share one `_id` and are not de-duplicated, so only the copy of the last genre stays in the index |
| Etl.InitialWatermarks | postgres_to_es/main.py:47-51 | each watermark starts from the stored date, or from 1900-01-01 when the store has none |
| Etl.Startup | postgres_to_es/main.py:30-51 | an unset or empty `ELASTIC_HOST` raises `ValueError` before any cycle; `STATE_TYPE` defaults to `json`; a `SLEEP_TIME` that does not parse as a number raises `ValueError`; start-up succeeds iff the host is set, `SLEEP_TIME` is unset or parses, and the state type is `json` or `redis`, with the watermarks read from that store and the sleep time parsed or 1 s by default |
| Etl.LoadMovies | postgres_to_es/elastic_loader.py:39-42 | the retried load never raises; it completes a bulk call, whose actions are the generated ones, exactly when some bulk call returns, and completes none when given `None` or when every bulk call raises |
| Etl.WriteAll | postgres_to_es/main.py:60-62 | the watermark writes are separate store updates; the failing write raises `OSError` and stops the rest |
| Etl.WriteAllFirst | postgres_to_es/main.py:60-62 | the first write, when it happens, is not overwritten by the later ones |
| Etl.WriteAllWritten | postgres_to_es/main.py:60-62 | every write before the failing one reaches the store |
| Etl.WriteAllUntouched | postgres_to_es/main.py:60-62 | a watermark not written before the failing one keeps its stored value |
| Etl.Persist | postgres_to_es/main.py:60-62 | reading an attribute `ModifiedDatetimes` lacks raises `AttributeError` before any write; otherwise the persist step fails exactly when one of the three writes does |
| Etl.PersistAsWritten | postgres_to_es/main.py:60 | the persist step as written always raises `AttributeError` and writes nothing |
| Etl.PersistCorrected | postgres_to_es/main.py:60-62 | the persist step reading `film_work`: the first k watermarks reach the store and the others keep their stored value; with no failing write all three are stored |
| Etl.PersistCorrectedStores | postgres_to_es/main.py:60-62 | write by write: the watermarks written before the failing write are stored, the rest keep their stored value |
| Etl.StepAsWritten | postgres_to_es/main.py:54-65 | as written, a cycle never writes the store and never completes; its in-memory watermarks are those the extraction left, whether or not a load completed; it ships what the retried load of the extracted documents completed, nothing after an extraction failure, and nothing when every bulk call raises |
| Etl.Step | postgres_to_es/main.py:54-65 | a failed cycle keeps the in-memory watermarks and a completed one takes the extraction's; completing, or writing the store at all, needs a bulk call that returned, after which the extracted documents were shipped; a cycle whose extraction, some bulk call and all three watermark writes succeed completes; a cycle whose every bulk call raises changes nothing and ships nothing; a completed cycle stored exactly the watermarks it now holds |
| Etl.StepsNeverLower | postgres_to_es/main.py:57 | neither version of the cycle lowers an in-memory watermark |
| Etl.AsWrittenAdvancesWithoutLoading | postgres_to_es/main.py:47-58 | as written, when every bulk call fails, a table that returned rows still has its in-memory watermark strictly advanced, while no load completed and the store is unchanged |
| Etl.RunAsWritten | postgres_to_es/main.py:54-65 | the loop as written never writes the store, however many cycles run |
| Etl.RunsNeverLower | postgres_to_es/main.py:54-65 | over any number of cycles, of either version, the in-memory watermarks never decrease |

## Left out

- SQL text and PostgreSQL semantics (joins, `DISTINCT`, `ORDER BY`, `LIMIT`, `array_agg`): query answers are inputs. The filter `modified > since` and "answers only the requested ids" are stated as predicates (`RespectsSince`, `OnlyRequested`) where a property needs them.
- The psycopg2, Elasticsearch and Redis clients, file I/O, `ping` and index creation: storages are mappings, and the bulk call is an attempt stream.
- `time.sleep`, logging, `strftime`/`strptime` and `float()`: sleeps are recorded as a sequence, dates are integers, and the rating is a `real`.
- The `while True` loop and the sleep between cycles: `Run` and `RunAsWritten` follow a finite sequence of cycles.
- The `sleep_time`, `factor` and `border_sleep_time` keyword arguments: the wrapped function's attempts are parameterised by call number only, so they are not forwarded by construction.
- `constants.py` is not part of this model: `JUNCTION_TABLES` is a parameter, and its table names are not required to be the three field names (a foreign name raises `AttributeError`).
- pydantic validation in `models.py`: only the fields are mirrored.
- Backoff.Inner: requires a policy that terminates (`Terminates`), so the policies with a zero `sleep_time` or a zero `factor` and a delay below the border, which `inner` accepts, are modelled only by `Backoff.RetryUpTo` (see "## Findings"). Negative or fractional values of `sleep_time` and `factor` are not representable; a negative `sleep_time` makes `time.sleep` raise `ValueError`, which the wrapper does not catch.
- Backoff.Retry: the same restriction as `Backoff.Inner`, stated on the delay and the growth.
- Etl.LoadMovies: a bulk call that raises is modelled as having indexed nothing. `elasticsearch.helpers.bulk` sends the actions in chunks (500 by default) and can index some chunks before it raises `BulkIndexError`, so "ships nothing" means "completes no bulk call", not "the index is unchanged".
- Extract.ExtractModified: states nothing about the `None` result of exhausted retries beyond what `Backoff.Inner` gives.
- Extract.GetFullInfo: states the result as the expansion of some returned answer, rather than naming the first returning call.
- Etl.Startup: `SLEEP_TIME` arrives already classified as unset, a number or unparsable; which strings `float()` accepts is not modelled. The Elasticsearch client construction, the `ping` wait and the index creation (main.py:33-39) are not modelled, so their failures are not among start-up's outcomes. The sleep-time check is placed before the state-type check, but both raise `ValueError`, so their order is not observable in the model.
- Etl.Persist: a write failure is modelled as `OSError` at a chosen write. Which exception the storage raises is not modelled.
- The `Run` function of the corrected loop carries no contract of its own. Its properties are `Etl.Step` per cycle and `Etl.RunsNeverLower` over many cycles.

## Findings

| source | as written | input that shows it | evidently intended | confidence | as-written member | corrected member |
|---|---|---|---|---|---|---|
| postgres_to_es/main.py:60 | the movie watermark is read as `last_modified.movie`, but `ModifiedDatetimes` has fields `person`, `genre` and `film_work`, so every cycle that reaches the persist step raises `AttributeError` there and no watermark is ever persisted | any cycle whose extraction returns a document list | read `last_modified.film_work` and persist all three watermarks | high, not executed | Etl.PersistAsWritten | Etl.PersistCorrected |
| postgres_to_es/extract.py:81 | `get_data_to_elastic` advances the shared `modified` object in place, and `load_movies` is wrapped in `backoff`, which swallows a failed bulk load (elastic_loader.py:39-42); the next cycle starts after rows whose load never completed | a cycle where one table returns rows and every bulk call raises | advance the watermarks only once the documents are loaded and the cycle completes | medium, not executed | Etl.AsWrittenAdvancesWithoutLoading | Etl.Step |
| postgres_to_es/backoff.py:16-22 | the loop runs while `sleep_time < border_sleep_time` and multiplies the delay by `2 ** factor` after each failure; with `factor=0` or `sleep_time=0` (both accepted) the delay never grows, so a function that always raises is retried forever | `factor=0` with the default sleep time and border, and a wrapped function that always raises | refuse policies whose delay cannot reach the border, so that retries always end | low (every call site uses the defaults), not executed | Backoff.NeverGivesUp | Backoff.CheckedInner |
