/** `ElasticLoader` (elastic_loader.py): the bulk actions built from the
    documents, and the effect of a bulk load on the index. The client, the
    `ping` loop and index creation are not modelled. */
module ElasticLoader {
  import opened Models
  import Extract

  /** `{'_index': ..., '_id': ..., '_source': movie.dict()}`. */
  datatype Action = Action(index: string, id: string, source: MovieSchema)

  /** `_generate_actions`: one action per movie, in order, keyed by the
      movie id. Per-genre copies of a movie therefore get the same `_id`. */
  function GenerateActions(indexName: string, movies: seq<MovieSchema>): (r: seq<Action>)
    ensures |r| == |movies|
    ensures forall i :: 0 <= i < |movies| ==>
              r[i].index == indexName && r[i].id == movies[i].id && r[i].source == movies[i]
  {
    if |movies| == 0 then [] else [Action(indexName, movies[0].id, movies[0])] + GenerateActions(indexName, movies[1..])
  }

  /** The index seen as a map from `_id` to document. */
  type Index = map<string, MovieSchema>

  /** A bulk load of `index` actions: each one in turn stores its document
      under its `_id`, replacing what was there. */
  function Bulk(index: Index, actions: seq<Action>): Index
    decreases |actions|
  {
    if |actions| == 0 then index else Bulk(index[actions[0].id := actions[0].source], actions[1..])
  }

  /** A bulk load overrides the index with what the actions alone produce. */
  lemma {:induction false} BulkOverrides(index: Index, actions: seq<Action>)
    ensures Bulk(index, actions) == index + Bulk(map[], actions)
    decreases |actions|
  {
    if |actions| > 0 {
      var a := actions[0];
      BulkOverrides(index[a.id := a.source], actions[1..]);
      BulkOverrides(map[a.id := a.source], actions[1..]);
      assert index[a.id := a.source] == index + map[a.id := a.source];
    }
  }

  /** Loading the same actions twice leaves the index as loading them once. */
  lemma BulkIdempotent(index: Index, actions: seq<Action>)
    ensures Bulk(Bulk(index, actions), actions) == Bulk(index, actions)
  {
    BulkOverrides(index, actions);
    BulkOverrides(Bulk(index, actions), actions);
  }

  /** After a bulk load, an id carries the document of the last action with
      that id; earlier actions with the same id are overwritten. */
  lemma {:induction false} BulkLastWriteWins(index: Index, actions: seq<Action>, k: nat)
    requires k < |actions|
    requires forall j :: k < j < |actions| ==> actions[j].id != actions[k].id
    ensures actions[k].id in Bulk(index, actions)
    ensures Bulk(index, actions)[actions[k].id] == actions[k].source
    decreases |actions|
  {
    var a := actions[0];
    if k == 0 {
      BulkUntouched(index[a.id := a.source], actions[1..], a.id);
    } else {
      forall j | k - 1 < j < |actions[1..]|
        ensures actions[1..][j].id != actions[1..][k - 1].id
      {
        assert actions[1..][j] == actions[j + 1];
      }
      BulkLastWriteWins(index[a.id := a.source], actions[1..], k - 1);
    }
  }

  /** An id no action mentions keeps its entry. */
  lemma {:induction false} BulkUntouched(index: Index, actions: seq<Action>, id: string)
    requires forall j :: 0 <= j < |actions| ==> actions[j].id != id
    ensures id in Bulk(index, actions) <==> id in index
    ensures id in index ==> Bulk(index, actions)[id] == index[id]
    decreases |actions|
  {
    if |actions| > 0 {
      var a := actions[0];
      forall j | 0 <= j < |actions[1..]|
        ensures actions[1..][j].id != id
      {
        assert actions[1..][j] == actions[j + 1];
      }
      BulkUntouched(index[a.id := a.source], actions[1..], id);
    }
  }

  /** The per-genre copies of one movie all land on the movie's id, so after
      the load the index holds only the copy of its last genre. */
  lemma LastGenreSurvives(index: Index, indexName: string, row: Extract.AggregatedRow)
    requires 0 < |row.genres|
    ensures var docs := Extract.ExpandRow(row);
      && row.id in Bulk(index, GenerateActions(indexName, docs))
      && Bulk(index, GenerateActions(indexName, docs))[row.id] == docs[|docs| - 1]
  {
    var docs := Extract.ExpandRow(row);
    var actions := GenerateActions(indexName, docs);
    BulkLastWriteWins(index, actions, |actions| - 1);
  }
}
