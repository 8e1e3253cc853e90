/** `ModifiedDatetimes` (extract.py): the in-memory watermark of each source
    table, read and written by field name as Python's `getattr`/`setattr` do.

    Dates are opaque and totally ordered: a `Timestamp` is an
    order-preserving integer encoding of a database timestamp, the number of
    microseconds since 1970-01-01 UTC (the finest unit Postgres stores), and
    formatting or parsing them is not modelled. */
module Watermarks {
  import opened Outcomes

  type Timestamp = int

  /** `datetime(1900, 1, 1)`, the watermark used when none is stored. */
  const Year1900: Timestamp := -2208988800000000

  /** The three fields of `ModifiedDatetimes`. */
  datatype Field = Person | Genre | FilmWork

  datatype ModifiedDatetimes = ModifiedDatetimes(person: Timestamp, genre: Timestamp, filmWork: Timestamp)

  /** The Python attribute name of a field, which is also the name of the
      table whose changes it tracks. */
  function FieldName(f: Field): string
  {
    match f
    case Person => "person"
    case Genre => "genre"
    case FilmWork => "film_work"
  }

  /** The field an attribute name denotes, if `ModifiedDatetimes` declares it. */
  function FieldNamed(name: string): (r: Option<Field>)
    ensures r.Some? ==> FieldName(r.value) == name
    ensures r.None? ==> forall f: Field :: FieldName(f) != name
  {
    if name == "person" then Some(Person)
    else if name == "genre" then Some(Genre)
    else if name == "film_work" then Some(FilmWork)
    else None
  }

  /** Field names and fields are in one-to-one correspondence. */
  lemma FieldNameRoundTrip(f: Field)
    ensures FieldNamed(FieldName(f)) == Some(f)
  {
  }

  function Get(m: ModifiedDatetimes, f: Field): Timestamp
  {
    match f
    case Person => m.person
    case Genre => m.genre
    case FilmWork => m.filmWork
  }

  /** `setattr` on a declared field: that field takes the new value and the
      other two keep theirs. */
  function Set(m: ModifiedDatetimes, f: Field, v: Timestamp): (r: ModifiedDatetimes)
    ensures Get(r, f) == v
    ensures forall g: Field :: g != f ==> Get(r, g) == Get(m, g)
  {
    match f
    case Person => m.(person := v)
    case Genre => m.(genre := v)
    case FilmWork => m.(filmWork := v)
  }

  /** `getattr(m, name)`: raises `AttributeError` for a name the dataclass
      does not declare. */
  function GetAttr(m: ModifiedDatetimes, name: string): (r: Result<Timestamp>)
    ensures r.Success? <==> name in {"person", "genre", "film_work"}
    ensures r.Failure? ==> r.error == AttributeError
    ensures forall f: Field :: FieldName(f) == name ==> r == Success(Get(m, f))
  {
    match FieldNamed(name)
    case Some(f) => Success(Get(m, f))
    case None => Failure(AttributeError)
  }
}
