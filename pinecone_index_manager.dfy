/**
 * pinecone_index_manager.py: the placement registry (`insert_case` and the
 * two lookups over `volume_handling_table`) and the creation of an index
 * under a fresh random name.
 */
module PineconeIndexManager {
  import opened Wrappers
  import opened Connection
  import opened SqlTables
  import opened Pinecone

  // ---------------------------------------------------------------------
  // Placement registry
  // ---------------------------------------------------------------------

  /** The value `insert_case` returns and the table it leaves. */
  datatype Insertion = Insertion(inserted: bool, rows: map<string, Placement>)

  /**
   * `INSERT INTO volume_handling_table` under the primary key `namespace`:
   * nothing happens without a connection or on a database error, and a
   * namespace already present is an IntegrityError, never an overwrite.
   */
  function InsertPlacement(rows: map<string, Placement>, namespace: string, indexName: string, project: string,
                           connected: bool, sqlOk: bool): (ins: Insertion)
    ensures ins.inserted <==> connected && sqlOk && namespace !in rows
    ensures forall n :: n in rows ==> n in ins.rows && ins.rows[n] == rows[n]
    ensures ins.rows.Keys == if ins.inserted then rows.Keys + {namespace} else rows.Keys
  {
    if !connected || !sqlOk then Insertion(false, rows)
    else if namespace in rows then Insertion(false, rows)
    else Insertion(true, rows[namespace := Placement(indexName, project)])
  }

  /** `get_index_project_by_namespace` on a table: (index_name, project), or (None, None). */
  function FindByNamespace(rows: map<string, Placement>, namespace: string, connected: bool, sqlOk: bool): (found: Option<Placement>)
    ensures found.Some? <==> connected && sqlOk && namespace in rows
    ensures found.Some? ==> found.value == rows[namespace]
  {
    if connected && sqlOk && namespace in rows then Some(rows[namespace]) else None
  }

  /**
   * The answers `get_index_namespace_and_project` may give: the namespace
   * and project of some row whose index is `indexName` (the row SQL
   * returns first is not determined), or (None, None) when there is no
   * connection, the query fails, or no row matches.
   */
  ghost predicate ReverseAnswer(rows: map<string, Placement>, indexName: string, connected: bool, sqlOk: bool,
                                answer: Option<(string, string)>)
    ensures ReverseAnswer(rows, indexName, connected, sqlOk, answer) && answer.Some? ==>
              FindByNamespace(rows, answer.value.0, connected, sqlOk) == Some(Placement(indexName, answer.value.1))
  {
    match answer
    case Some((namespace, project)) =>
      connected && sqlOk && namespace in rows && rows[namespace] == Placement(indexName, project)
    case None =>
      !connected || !sqlOk || forall namespace :: namespace in rows ==> rows[namespace].indexName != indexName
  }

  /** `insert_case` succeeds exactly on a fresh namespace, adding exactly its row; otherwise the table is untouched. */
  lemma InsertAddsExactlyOneRow(rows: map<string, Placement>, namespace: string, indexName: string, project: string,
                                connected: bool, sqlOk: bool)
    ensures var r := InsertPlacement(rows, namespace, indexName, project, connected, sqlOk);
      && (r.inserted <==> connected && sqlOk && namespace !in rows)
      && (r.inserted ==> r.rows.Keys == rows.Keys + {namespace} && r.rows[namespace] == Placement(indexName, project))
      && (!r.inserted ==> r.rows == rows)
      && (forall n :: n in rows ==> n in r.rows && r.rows[n] == rows[n])
  {
  }

  /** After a successful insert, the namespace lookup finds the inserted (index, project). */
  lemma InsertThenLookup(rows: map<string, Placement>, namespace: string, indexName: string, project: string,
                         connected: bool, sqlOk: bool)
    requires InsertPlacement(rows, namespace, indexName, project, connected, sqlOk).inserted
    ensures FindByNamespace(InsertPlacement(rows, namespace, indexName, project, connected, sqlOk).rows,
                            namespace, true, true) == Some(Placement(indexName, project))
  {
  }

  /** A second insert of the same namespace is refused and leaves the first placement in force. */
  lemma DuplicateInsertRejected(rows: map<string, Placement>, namespace: string, indexName: string, project: string,
                                otherIndex: string, otherProject: string, connected: bool, sqlOk: bool)
    requires InsertPlacement(rows, namespace, indexName, project, true, true).inserted
    ensures var first := InsertPlacement(rows, namespace, indexName, project, true, true).rows;
      && !InsertPlacement(first, namespace, otherIndex, otherProject, connected, sqlOk).inserted
      && InsertPlacement(first, namespace, otherIndex, otherProject, connected, sqlOk).rows == first
      && FindByNamespace(first, namespace, true, true) == Some(Placement(indexName, project))
  {
  }

  /**
   * After inserting (namespace, indexName, project) into a table with no
   * other row for that index, the reverse lookup can only answer
   * (namespace, project).
   */
  lemma InsertThenReverseLookup(rows: map<string, Placement>, namespace: string, indexName: string, project: string,
                                answer: Option<(string, string)>)
    requires forall n :: n in rows ==> rows[n].indexName != indexName
    requires InsertPlacement(rows, namespace, indexName, project, true, true).inserted
    requires ReverseAnswer(InsertPlacement(rows, namespace, indexName, project, true, true).rows, indexName, true, true, answer)
    ensures answer == Some((namespace, project))
  {
    var after := InsertPlacement(rows, namespace, indexName, project, true, true).rows;
    assert namespace in after && after[namespace].indexName == indexName;
  }

  /** The namespace lookup's answer is one the reverse lookup of its index may give. */
  lemma LookupAgreesWithReverseLookup(rows: map<string, Placement>, namespace: string, connected: bool, sqlOk: bool)
    requires FindByNamespace(rows, namespace, connected, sqlOk).Some?
    ensures var p := FindByNamespace(rows, namespace, connected, sqlOk).value;
      ReverseAnswer(rows, p.indexName, connected, sqlOk, Some((namespace, p.project)))
  {
  }

  /** One `insert_case` call: what it inserts and whether its connection and statement succeed. */
  datatype InsertRequest = InsertRequest(namespace: string, indexName: string, project: string, connected: bool, sqlOk: bool)

  /** The table after a sequence of `insert_case` calls, in order. */
  function InsertAll(rows: map<string, Placement>, requests: seq<InsertRequest>): map<string, Placement>
    decreases |requests|
  {
    if requests == [] then rows
    else
      var q := requests[0];
      InsertAll(InsertPlacement(rows, q.namespace, q.indexName, q.project, q.connected, q.sqlOk).rows, requests[1..])
  }

  /** A placement, once written, is never updated or deleted by later inserts. */
  lemma {:induction false} PlacementsArePermanent(rows: map<string, Placement>, requests: seq<InsertRequest>, namespace: string)
    requires namespace in rows
    ensures namespace in InsertAll(rows, requests) && InsertAll(rows, requests)[namespace] == rows[namespace]
    decreases |requests|
  {
    if requests != [] {
      var q := requests[0];
      var next := InsertPlacement(rows, q.namespace, q.indexName, q.project, q.connected, q.sqlOk).rows;
      assert namespace in next && next[namespace] == rows[namespace];
      PlacementsArePermanent(next, requests[1..], namespace);
    }
  }

  /** `insert_case`: the connection is taken from the pool and given back on every path. */
  method InsertCase(pool: ConnectionPool, db: Database, namespace: string, indexName: string, project: string, io: DbCall)
    returns (inserted: bool)
    requires pool.Valid()
    modifies pool, db`placements
    ensures pool.Valid() && pool.State() == RoundTrip(old(pool.State()), io.connectOk)
    ensures Insertion(inserted, db.placements)
         == InsertPlacement(old(db.placements), namespace, indexName, project, Connects(old(pool.State()), io.connectOk), io.sqlOk)
  {
    var conn := pool.GetConnection(io.connectOk);
    if conn.None? {
      return false;
    }
    if !io.sqlOk {
      inserted := false;
    } else if namespace in db.placements {
      inserted := false;
    } else {
      db.placements := db.placements[namespace := Placement(indexName, project)];
      inserted := true;
    }
    pool.ReleaseConnection(conn);
  }

  /** `get_index_project_by_namespace`: the connection is given back on every path. */
  method GetIndexProjectByNamespace(pool: ConnectionPool, db: Database, namespace: string, io: DbCall)
    returns (found: Option<Placement>)
    requires pool.Valid()
    modifies pool
    ensures pool.Valid() && pool.State() == RoundTrip(old(pool.State()), io.connectOk)
    ensures found == FindByNamespace(db.placements, namespace, Connects(old(pool.State()), io.connectOk), io.sqlOk)
  {
    var conn := pool.GetConnection(io.connectOk);
    if conn.None? {
      return None;
    }
    if io.sqlOk && namespace in db.placements {
      found := Some(db.placements[namespace]);
    } else {
      found := None;
    }
    pool.ReleaseConnection(conn);
  }

  /** `get_index_namespace_and_project`: the connection is given back on every path. */
  method GetIndexNamespaceAndProject(pool: ConnectionPool, db: Database, indexName: string, io: DbCall)
    returns (found: Option<(string, string)>)
    requires pool.Valid()
    modifies pool
    ensures pool.Valid() && pool.State() == RoundTrip(old(pool.State()), io.connectOk)
    ensures ReverseAnswer(db.placements, indexName, Connects(old(pool.State()), io.connectOk), io.sqlOk, found)
  {
    var conn := pool.GetConnection(io.connectOk);
    if conn.None? {
      return None;
    }
    if io.sqlOk && exists n :: n in db.placements && db.placements[n].indexName == indexName {
      var n :| n in db.placements && db.placements[n].indexName == indexName;
      found := Some((n, db.placements[n].project));
    } else {
      found := None;
    }
    pool.ReleaseConnection(conn);
  }

  // ---------------------------------------------------------------------
  // Index naming and creation
  // ---------------------------------------------------------------------

  const INDEX_PREFIX: string := "index-"

  predicate IsHexDigit(c: char)
  {
    '0' <= c <= '9' || 'a' <= c <= 'f'
  }

  /** The first eight characters of a random UUID's hex form. */
  predicate IsUuidPrefix(s: string)
  {
    |s| == 8 && forall i :: 0 <= i < |s| ==> IsHexDigit(s[i])
  }

  function IndexName(draw: string): string
  {
    INDEX_PREFIX + draw
  }

  /** A name of the form "index-" followed by eight lower-case hex digits. */
  predicate IsGeneratedName(name: string)
  {
    |name| == 14 && name[..6] == INDEX_PREFIX && IsUuidPrefix(name[6..])
  }

  /**
   * The random draws the naming loop sees, in order: each is a UUID prefix,
   * and at least one of them gives a name not yet listed (the loop has no
   * bound, so it ends only if the generator eventually produces one).
   */
  predicate FairDraws(existing: seq<string>, draws: seq<string>)
  {
    && (forall i :: 0 <= i < |draws| ==> IsUuidPrefix(draws[i]))
    && exists i :: 0 <= i < |draws| && IndexName(draws[i]) !in existing
  }

  /** Position of the first draw, from `from` on, whose name is not listed. */
  function FirstFreshDraw(existing: seq<string>, draws: seq<string>, from: nat): (k: nat)
    requires exists i :: from <= i < |draws| && IndexName(draws[i]) !in existing
    ensures from <= k < |draws| && IndexName(draws[k]) !in existing
    ensures forall j :: from <= j < k ==> IndexName(draws[j]) in existing
    decreases |draws| - from
  {
    if IndexName(draws[from]) !in existing then from else FirstFreshDraw(existing, draws, from + 1)
  }

  /** The name the regeneration loop settles on. */
  function FreshIndexName(existing: seq<string>, draws: seq<string>): (name: string)
    requires FairDraws(existing, draws)
    ensures name !in existing && IsGeneratedName(name)
  {
    var k := FirstFreshDraw(existing, draws, 0);
    assert IsUuidPrefix(draws[k]);
    IndexName(draws[k])
  }

  /** The regeneration loop of `create_unique_pinecone_index`: draw until the name is not listed. */
  method GenerateIndexName(existing: seq<string>, draws: seq<string>) returns (name: string)
    requires FairDraws(existing, draws)
    ensures name == FreshIndexName(existing, draws)
  {
    ghost var k := FirstFreshDraw(existing, draws, 0);
    var i := 0;
    while IndexName(draws[i]) in existing
      invariant i <= k
      decreases k - i
    {
      i := i + 1;
    }
    name := IndexName(draws[i]);
  }

  /** The result of `create_unique_pinecone_index` and the account's listing afterwards. */
  datatype Creation = Creation(result: Outcome<string>, listing: seq<IndexInfo>)

  const CREATE_FAILED: string := "index creation failed"

  /**
   * Creating an index under the fresh name: on success it is listed last
   * with no namespaces; a failed `create_index` raises and lists nothing.
   */
  function NewIndex(listing: seq<IndexInfo>, draws: seq<string>, createOk: bool): (c: Creation)
    requires FairDraws(Names(listing), draws)
    ensures c.result.Returned? <==> createOk
    ensures c.result.Returned? ==> IsGeneratedName(c.result.value) && c.result.value !in Names(listing)
    ensures c.result.Raised? ==> c.result.reason == CREATE_FAILED && c.listing == listing
    ensures |listing| <= |c.listing| <= |listing| + 1 && c.listing[..|listing|] == listing
  {
    var name := FreshIndexName(Names(listing), draws);
    if createOk then Creation(Returned(name), listing + [IndexInfo(name, 0)])
    else Creation(Raised(CREATE_FAILED), listing)
  }

  /** A created index has a generated name that was not listed before, so listed names stay distinct. */
  lemma NewIndexIsUnique(listing: seq<IndexInfo>, draws: seq<string>, createOk: bool)
    requires FairDraws(Names(listing), draws)
    ensures var c := NewIndex(listing, draws, createOk);
      && (c.result.Returned? <==> createOk)
      && (c.result.Returned? ==> IsGeneratedName(c.result.value) && c.result.value !in Names(listing)
                                 && c.listing == listing + [IndexInfo(c.result.value, 0)])
      && (c.result.Raised? ==> c.listing == listing)
      && (DistinctNames(listing) ==> DistinctNames(c.listing))
  {
    var name := FreshIndexName(Names(listing), draws);
    NamesOfAppend(listing, IndexInfo(name, 0));
  }

  /** `create_unique_pinecone_index` against the account reached through `apiKey`. */
  method CreateUniquePineconeIndex(backend: Backend, apiKey: string, draws: seq<string>, createOk: bool)
    returns (result: Outcome<string>)
    requires apiKey in backend.accounts && FairDraws(Names(backend.accounts[apiKey]), draws)
    modifies backend
    ensures var c := NewIndex(old(backend.accounts[apiKey]), draws, createOk);
      result == c.result && backend.accounts == old(backend.accounts)[apiKey := c.listing]
  {
    var existing := backend.accounts[apiKey];
    var name := GenerateIndexName(Names(existing), draws);
    if createOk {
      backend.accounts := backend.accounts[apiKey := existing + [IndexInfo(name, 0)]];
      result := Returned(name);
    } else {
      result := Raised(CREATE_FAILED);
    }
  }
}
