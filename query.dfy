/**
 * query.py: `pincone_vector_database_query` records the day's use of the
 * namespace, looks up where the namespace is placed, picks the project's
 * credential, and shapes the vector-search matches into parallel lists of
 * texts and metadata.
 */
module Query {
  import opened Wrappers
  import opened Connection
  import opened SqlTables
  import opened PineconeIndexManager
  import opened PdfDailyTracker

  const PROJECT_1: string := "QA1"
  const PROJECT_2: string := "QA2"
  const PROJECT_3: string := "QA3"
  const PROJECT_4: string := "QA4"

  /** The environment variable holding the API key for a project tag; unknown tags have none. */
  function CredentialFor(project: string): (credential: Option<string>)
    ensures credential.Some? <==> project in {PROJECT_1, PROJECT_2, PROJECT_3, PROJECT_4}
  {
    if project == PROJECT_1 then Some("PINECONE_API_KEY_FIRST_PROJECT")
    else if project == PROJECT_2 then Some("PINECONE_API_KEY_SECOND_PROJECT")
    else if project == PROJECT_3 then Some("PINECONE_API_KEY_THIRD_PROJECT")
    else if project == PROJECT_4 then Some("PINECONE_API_KEY_FOURTH_PROJECT")
    else None
  }

  /** Exactly the four tags QA1..QA4 have a credential, and no two of them share one. */
  lemma CredentialDispatch(p: string, q: string)
    ensures CredentialFor(p).Some? <==> p in {PROJECT_1, PROJECT_2, PROJECT_3, PROJECT_4}
    ensures CredentialFor(p).Some? && CredentialFor(p) == CredentialFor(q) ==> p == q
  {
  }

  /** A metadata value; numbers are passed through untouched. */
  datatype Value = Str(s: string) | Number(x: real) | Flag(b: bool) | Strings(items: seq<string>)

  /** A search match: its metadata fields and its similarity score. */
  datatype Match = Match(metadata: map<string, Value>, score: real)

  /** The metadata kept for each match. */
  datatype MatchMetadata = MatchMetadata(page: Value, score: real, chunkIndex: Value)

  datatype QueryResult = QueryResult(text: Value, metadata: MatchMetadata, score: real)

  const UNKNOWN: Value := Str("Unknown")

  /** `dict.get(key, default)`. */
  function Get(m: map<string, Value>, key: string, default: Value): Value
  {
    if key in m then m[key] else default
  }

  /**
   * The two lists line up with the matches, in order: each text is the
   * match's "text" field ("" if absent), and each metadata entry holds its
   * "page" and "chunk_index" ("Unknown" if absent) and its score.
   */
  ghost predicate IsExtractionOf(matches: seq<Match>, texts: seq<Value>, metadataList: seq<MatchMetadata>)
  {
    && |texts| == |matches| && |metadataList| == |matches|
    && (forall k :: 0 <= k < |matches| ==> texts[k] == Get(matches[k].metadata, "text", Str("")))
    && (forall k :: 0 <= k < |matches| ==>
          metadataList[k] == MatchMetadata(Get(matches[k].metadata, "page", UNKNOWN), matches[k].score,
                                           Get(matches[k].metadata, "chunk_index", UNKNOWN)))
  }

  /** The extraction is determined by the matches: two extractions of the same matches are equal. */
  lemma ExtractionIsUnique(matches: seq<Match>, texts: seq<Value>, metadataList: seq<MatchMetadata>,
                           texts': seq<Value>, metadataList': seq<MatchMetadata>)
    requires IsExtractionOf(matches, texts, metadataList) && IsExtractionOf(matches, texts', metadataList')
    ensures texts == texts' && metadataList == metadataList'
  {
  }

  /** The loop over the matches and the two list comprehensions that follow it. */
  method ExtractResults(matches: seq<Match>) returns (texts: seq<Value>, metadataList: seq<MatchMetadata>)
    ensures IsExtractionOf(matches, texts, metadataList)
  {
    var queryResults: seq<QueryResult> := [];
    for i := 0 to |matches|
      invariant |queryResults| == i
      invariant forall k :: 0 <= k < i ==> queryResults[k].text == Get(matches[k].metadata, "text", Str(""))
      invariant forall k :: 0 <= k < i ==>
                  queryResults[k].metadata == MatchMetadata(Get(matches[k].metadata, "page", UNKNOWN), matches[k].score,
                                                            Get(matches[k].metadata, "chunk_index", UNKNOWN))
    {
      var m := matches[i];
      var text := Get(m.metadata, "text", Str(""));
      var metadata := MatchMetadata(Get(m.metadata, "page", UNKNOWN), m.score, Get(m.metadata, "chunk_index", UNKNOWN));
      queryResults := queryResults + [QueryResult(text, metadata, m.score)];
    }
    texts := seq(|queryResults|, k requires 0 <= k < |queryResults| => queryResults[k].text);
    metadataList := seq(|queryResults|, k requires 0 <= k < |queryResults| => queryResults[k].metadata);
  }

  /** The (texts, metadata_list) pair of a successful query. */
  datatype Answer = Answer(texts: seq<Value>, metadataList: seq<MatchMetadata>)

  /** Whether a placement names both an index and a project (empty strings count as missing). */
  predicate IsResolved(placement: Option<Placement>)
  {
    placement.Some? && placement.value.indexName != "" && placement.value.project != ""
  }

  /**
   * `pincone_vector_database_query`. `search` is what the embedding and the
   * vector search give back: their matches, or None when either raises.
   * Any failure gives (None, None).
   */
  method PineconeVectorDatabaseQuery(pool: ConnectionPool, db: Database, namespace: string, date: Date,
                                     trackIo: DbCall, lookupIo: DbCall, search: Option<seq<Match>>)
    returns (answer: Option<Answer>)
    requires pool.Valid()
    modifies pool, db`usage
    ensures pool.Valid()
    // the day's use is recorded first, whatever the lookup finds
    ensures db.usage == Track(old(db.usage), namespace, date, Connects(old(pool.State()), trackIo.connectOk), trackIo.sqlOk).usage
    ensures var tracked := if namespace == "" then old(pool.State()) else RoundTrip(old(pool.State()), trackIo.connectOk);
      var placement := FindByNamespace(db.placements, namespace, Connects(tracked, lookupIo.connectOk), lookupIo.sqlOk);
      && pool.State() == RoundTrip(tracked, lookupIo.connectOk)
      && (answer.Some? <==> IsResolved(placement) && CredentialFor(placement.value.project).Some? && search.Some?)
      && (answer.Some? ==> IsExtractionOf(search.value, answer.value.texts, answer.value.metadataList))
  {
    var _ := TrackPdfDailyUsage(pool, db, namespace, date, trackIo);
    var placement := GetIndexProjectByNamespace(pool, db, namespace, lookupIo);
    if !IsResolved(placement) {
      return None;
    }
    var credential := CredentialFor(placement.value.project);
    if credential.None? {
      return None;
    }
    if search.None? {
      return None;
    }
    var texts, metadataList := ExtractResults(search.value);
    return Some(Answer(texts, metadataList));
  }
}
