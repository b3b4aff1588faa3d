/**
 * The vector-index service as state: every account, reached through the
 * API key held in some environment variable, lists its indexes in order
 * together with the number of namespaces each one holds.
 */
module Pinecone {

  /** A listed index and its namespace count (what `describe_index_stats` reports). */
  datatype IndexInfo = IndexInfo(name: string, namespaces: nat)

  /** The names of a listing, in listing order. */
  function Names(listing: seq<IndexInfo>): seq<string>
  {
    seq(|listing|, i requires 0 <= i < |listing| => listing[i].name)
  }

  /** No two listed indexes share a name. */
  ghost predicate DistinctNames(listing: seq<IndexInfo>)
  {
    forall i, j :: 0 <= i < j < |listing| ==> listing[i].name != listing[j].name
  }

  /** Appending an index appends its name, and keeps the names distinct exactly when the name is new. */
  lemma NamesOfAppend(listing: seq<IndexInfo>, info: IndexInfo)
    ensures Names(listing + [info]) == Names(listing) + [info.name]
    ensures DistinctNames(listing) && info.name !in Names(listing) ==> DistinctNames(listing + [info])
  {
    var extended := listing + [info];
    assert forall i :: 0 <= i < |listing| ==> extended[i] == listing[i];
    if DistinctNames(listing) && info.name !in Names(listing) {
      forall i, j | 0 <= i < j < |extended|
        ensures extended[i].name != extended[j].name
      {
        if j == |listing| {
          assert Names(listing)[i] == listing[i].name;
        }
      }
    }
  }

  class Backend {
    /** API-key environment variable -> that account's index listing. */
    var accounts: map<string, seq<IndexInfo>>
  }
}
