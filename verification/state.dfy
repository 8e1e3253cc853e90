/** The state store (state.py): a whole mapping from keys to values kept by
    one of three storages, read and rewritten as a whole on every update.
    The file system and the Redis server are not modelled as such: each
    storage carries the contents it would find there. */
module State {
  import opened Outcomes

  /** The state file: absent, or holding a JSON object. */
  datatype FileState<V> = Missing | Present(contents: map<string, V>)

  /** A JSON document as far as the storages care: `null` or an object. */
  datatype Json<V> = Null | Object(entries: map<string, V>)

  /** The Redis value under the key `state`: no value, an empty value, or
      a JSON document. */
  datatype RedisEntry<V> = Unset | Empty | Stored(document: Json<V>)

  datatype Storage<V> =
    | JsonFileStorage(path: string, file: FileState<V>)
    | RedisStorage(entry: RedisEntry<V>)
    | MockStorage(state: map<string, V>)

  /** `retrieve_state`: whatever the storage holds, or `{}` when it holds
      nothing yet. */
  function RetrieveState<V>(s: Storage<V>): (r: map<string, V>)
    // a missing state file reads as the empty mapping
    ensures s.JsonFileStorage? ==> r == (if s.file.Missing? then map[] else s.file.contents)
    // so do a missing or empty Redis value and a JSON null
    ensures s.RedisStorage? ==> r == (if s.entry.Stored? && s.entry.document.Object? then s.entry.document.entries else map[])
    ensures s.MockStorage? ==> r == s.state
  {
    match s
    case JsonFileStorage(_, file) =>
      (match file
       case Missing => map[]
       case Present(contents) => contents)
    case RedisStorage(entry) =>
      (match entry
       case Unset => map[]
       case Empty => map[]
       case Stored(document) =>
         match document
         case Null => map[]
         case Object(entries) => entries)
    case MockStorage(state) => state
  }

  /** `save_state`: the file and Redis storages replace what they hold; the
      mock storage merges the given mapping into its own. */
  function SaveState<V>(s: Storage<V>, m: map<string, V>): (r: Storage<V>)
    ensures r.JsonFileStorage? == s.JsonFileStorage? && r.RedisStorage? == s.RedisStorage?
    ensures !s.MockStorage? ==> RetrieveState(r) == m
    ensures s.MockStorage? ==> RetrieveState(r).Keys == s.state.Keys + m.Keys
    ensures s.MockStorage? ==> forall k :: k in m ==> RetrieveState(r)[k] == m[k]
    ensures s.MockStorage? ==> forall k :: k in s.state && k !in m ==> RetrieveState(r)[k] == s.state[k]
  {
    match s
    case JsonFileStorage(path, _) => JsonFileStorage(path, Present(m))
    case RedisStorage(_) => RedisStorage(Stored(Object(m)))
    case MockStorage(state) => MockStorage(state + m)
  }

  /** `State.set_state`: read the whole mapping, set one key, save it back. */
  function SetState<V>(s: Storage<V>, key: string, value: V): (r: Storage<V>)
    // read back, the stored mapping is the old one with `key` set, on every storage
    ensures RetrieveState(r) == RetrieveState(s)[key := value]
  {
    SaveState(s, RetrieveState(s)[key := value])
  }

  /** `State.get_state`: the value under `key`, `None` if there is none. */
  function GetState<V>(s: Storage<V>, key: string): (r: Option<V>)
    ensures r.Some? <==> key in RetrieveState(s)
    ensures r.Some? ==> r.value == RetrieveState(s)[key]
  {
    var st := RetrieveState(s);
    if key in st then Some(st[key]) else None
  }

  /** Reading a key just set gives the value set, on every storage. */
  lemma SetThenGet<V>(s: Storage<V>, key: string, value: V)
    ensures GetState(SetState(s, key, value), key) == Some(value)
  {
  }

  /** Setting a key leaves the value of every other key as it was, present
      or absent. */
  lemma SetLeavesOtherKeys<V>(s: Storage<V>, key: string, value: V, other: string)
    requires other != key
    ensures GetState(SetState(s, key, value), other) == GetState(s, other)
  {
  }

  /** Saving into the mock storage never removes a key. */
  lemma MockSaveKeepsKeys<V>(state: map<string, V>, m: map<string, V>)
    ensures state.Keys <= RetrieveState(SaveState(MockStorage(state), m)).Keys
  {
  }

  /** `StorageFactory.get_storage`: `'json'` gives the storage over the file
      `state.json`, `'redis'` the Redis storage, anything else `ValueError`.
      `file` and `redis` are what the file system and the server hold. */
  function GetStorage<V>(storageType: string, file: FileState<V>, redis: RedisEntry<V>): (r: Result<Storage<V>>)
    ensures storageType == "json" <==> r.Success? && r.value.JsonFileStorage?
    ensures storageType == "redis" <==> r.Success? && r.value.RedisStorage?
    ensures r.Success? ==> !r.value.MockStorage?
    ensures r.Failure? ==> r.error == ValueError
    ensures storageType == "json" ==> r.value == JsonFileStorage("state.json", file)
    ensures storageType == "redis" ==> r.value == RedisStorage(redis)
  {
    if storageType == "json" then Success(JsonFileStorage("state.json", file))
    else if storageType == "redis" then Success(RedisStorage(redis))
    else Failure(ValueError)
  }
}

/** `MoviesStateManager` (state.py): the three watermarks, each under a key
    of its own in the state store. The date format is not modelled: a stored
    watermark is the timestamp itself. */
module MoviesState {
  import opened Outcomes
  import opened Watermarks
  import opened State

  /** The state key of each watermark. The movie watermark is stored under
      the table name `film_work`. */
  function KeyOf(f: Field): string
  {
    match f
    case Person => "last_date_of_modified_person"
    case Genre => "last_date_of_modified_genre"
    case FilmWork => "last_date_of_modified_film_work"
  }

  /** The three keys are distinct. */
  lemma KeysDistinct(f: Field, g: Field)
    ensures KeyOf(f) == KeyOf(g) <==> f == g
  {
  }

  /** `_get_date_or_none`: `None` exactly when the store has no value for the key. */
  function GetDateOrNone(s: Storage<Timestamp>, key: string): (r: Option<Timestamp>)
    ensures r.None? <==> key !in RetrieveState(s)
    ensures r.Some? ==> r.value == RetrieveState(s)[key]
  {
    GetState(s, key)
  }

  /** The property getters `last_date_of_modified_person`, `_genre` and `_movie`. */
  function LastDate(s: Storage<Timestamp>, f: Field): (r: Option<Timestamp>)
    ensures r.Some? <==> KeyOf(f) in RetrieveState(s)
    ensures r.Some? ==> r.value == RetrieveState(s)[KeyOf(f)]
  {
    GetDateOrNone(s, KeyOf(f))
  }

  /** The property setters. */
  function SetLastDate(s: Storage<Timestamp>, f: Field, v: Timestamp): (r: Storage<Timestamp>)
    ensures LastDate(r, f) == Some(v)
  {
    SetState(s, KeyOf(f), v)
  }

  /** Setting one watermark stores it and leaves the other two as they were. */
  lemma SetLastDateIsolated(s: Storage<Timestamp>, f: Field, v: Timestamp, g: Field)
    ensures LastDate(SetLastDate(s, f, v), g) == (if g == f then Some(v) else LastDate(s, g))
  {
    KeysDistinct(f, g);
    if g != f {
      SetLeavesOtherKeys(s, KeyOf(f), v, KeyOf(g));
    }
  }
}
