/** The documents sent to the search index (`models.py`): a person reduced
    to id and name, and one movie document per (movie, genre) pair. The
    validation the schema library performs is not modelled; the rating is a
    `real` standing for Python's `float`. */
module Models {

  datatype PersonSchema = PersonSchema(id: string, name: string)

  datatype MovieSchema = MovieSchema(
    id: string,
    imdbRating: real,
    genre: string,
    title: string,
    description: string,
    director: string,
    actorsNames: seq<string>,
    writersNames: seq<string>,
    actors: seq<PersonSchema>,
    writers: seq<PersonSchema>)
}
