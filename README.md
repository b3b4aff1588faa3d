# Namespace placement for a sharded vector store — Dafny model

The service stores each document's vectors in its own Pinecone *namespace*.
An index holds at most `NAMESPACES_PER_INDEX` namespaces and a project
(account) at most `INDEXES_PER_PROJECT` indexes, so namespaces are spread
over a growing pool of indexes in two projects, QA1 and QA2. Where each
namespace went is recorded in the SQL table `volume_handling_table`.
Around this sit a bounded pool of database connections, a per-day usage
counter, a schema helper that adds a counter column, and the query path
that finds a namespace's index and shapes the search matches.

The model is written module by module after the Python files:

| module | file | what it holds |
|---|---|---|
| `Connection` | connection.dfy | the LIFO connection pool: a `ConnectionPool` class over `seq<Conn>`, and `Acquire` / `Release` on pool values |
| `SqlTables` | sql_tables.dfy | row types of the three tables and the `Database` object holding them |
| `Pinecone` | pinecone.dfy | the index service as state: per API key, an ordered listing of `(name, namespaceCount)` |
| `PineconeIndexManager` | pinecone_index_manager.dfy | `insert_case`, the two registry lookups, unique index naming and creation |
| `VolumeHandler` | volume_handler.dfy | first-fit index selection (`get_project_status`) and the two-project allocator (`main_function`) |
| `PdfDailyTracker` | pdf_daily_tracker.dfy | the insert-or-increment daily counter |
| `AddOneColumn` | add_one_column.dfy | the column-name allow-list and the ADD COLUMN / duplicate-column outcomes |
| `Query` | query.dfy | project-to-credential dispatch, the not-found checks and match extraction |

Each stateful operation is a method on the objects it changes (the pool,
the `Database`, the `Backend`). Its `ensures` ties the new state and its
result to a function on values: `InsertPlacement`, `Track`, `AddColumn`,
`ProjectStatus`, `Allocate`, `Acquire` / `Release`. The lemmas state the
properties of those functions. The environment's choices are parameters:

- whether a new engine can be created (`DbCall.connectOk`);
- whether SQL statements fail (`DbCall.sqlOk`; `executeFault` and `commitFault` for the column helper);
- the random UUID draws (`Attempt.draws`);
- whether `create_index` succeeds (`Attempt.createOk`);
- what the vector search returns (`search`).

The model follows the code as written. In particular:

- `main_function` has no "already placed" check. It always re-runs
  allocation and ignores what `insert_case` returns.
- Nothing reconciles a duplicate namespace with the existing placement.
- Acquiring a connection has no retry, backoff or liveness probe.
- The UUID regeneration loop has no retry bound.
- `main_function` tries only two projects.

`VolumeHandler.ReplacingAPlacedNamespace` shows the first point on a
concrete input. Asked again for a placed namespace, `main_function` returns
a newly chosen index while the registry keeps the earlier one.

`volume_handler.py` reaches QA1 through `PINECONE_API_KEY`. `query.py` uses
`PINECONE_API_KEY_FIRST_PROJECT` for QA1. Both are modelled as written.

## Model

| member | source | states |
|---|---|---|
| `Connection.ConnectionPool.constructor` | connection.py:10-11 | the pool starts with no idle connection and no engine created |
| `Connection.ConnectionPool.GetConnection` | connection.py:14-36 | pops the last idle connection, else creates an engine, else hands out None; the pool stays within MAX_POOL_SIZE |
| `Connection.ConnectionPool.ReleaseConnection` | connection.py:38-47 | appends while the pool has room, otherwise disposes of the connection; None changes nothing; the bound is kept |
| `Connection.Acquire` | connection.py:14-36 | a connection is handed out exactly when one is idle or an engine can be created; a failure leaves the pool unchanged; the idle list never grows |
| `Connection.Release` | connection.py:38-47 | a released connection goes either back to the idle list or to the disposed engines, never both; the bound is kept; None changes nothing |
| `Connection.PoolStaysBounded` | connection.py:43-47 | neither acquire nor release lets the idle list exceed MAX_POOL_SIZE |
| `Connection.AcquireReusesLast` | connection.py:16-17 | a non-empty pool hands out its last element, shrinks by exactly one and creates no engine |
| `Connection.FailedCreationChangesNothing` | connection.py:34-36 | a failed engine creation on an empty pool yields None and leaves the pool unchanged |
| `Connection.ReleaseAppends` | connection.py:43-44 | releasing into a pool with room appends exactly that connection and changes nothing else |
| `Connection.ReleaseIntoFullPoolDisposes` | connection.py:45-47 | releasing into a full pool disposes of the connection and leaves the idle list unchanged |
| `Connection.ReleaseNoneChangesNothing` | connection.py:41 | releasing None leaves the pool unchanged |
| `Connection.ReleaseThenAcquire` | connection.py:16-44 | LIFO reuse: a connection released into a pool with room is the next one acquired, and the pool is back as it was |
| `Connection.RoundTripReturnsConnection` | connection.py:14-47 | a caller that releases what it acquired leaves a non-empty pool unchanged, and leaves an empty pool holding only the engine it created |
| `PineconeIndexManager.InsertCase` | pinecone_index_manager.py:18-41 | the result and table are those of a primary-key insert; the connection goes back to the pool on every path |
| `PineconeIndexManager.InsertPlacement` | pinecone_index_manager.py:18-41 | the insert succeeds exactly on a fresh namespace with a working connection and statement, never overwrites a row, and adds at most that namespace |
| `PineconeIndexManager.FindByNamespace` | pinecone_index_manager.py:101-135 | answers exactly when connected, the query succeeds and the namespace has a row, and then answers that row |
| `PineconeIndexManager.ReverseAnswer` | pinecone_index_manager.py:139-173 | any (namespace, project) the reverse lookup may answer is a row the namespace lookup returns with that index |
| `PineconeIndexManager.LookupAgreesWithReverseLookup` | pinecone_index_manager.py:101-173 | the namespace lookup's answer is one the reverse lookup of its index may give |
| `PineconeIndexManager.InsertAddsExactlyOneRow` | pinecone_index_manager.py:21-38 | True exactly for a fresh namespace with a working connection and statement, adding exactly that row; otherwise False and the table is unchanged; no existing row ever changes |
| `PineconeIndexManager.DuplicateInsertRejected` | pinecone_index_manager.py:26-35 | a second insert of a namespace returns False and leaves the first placement in force |
| `PineconeIndexManager.PlacementsArePermanent` | pinecone_index_manager.py:26-35 | over any sequence of inserts, a placement once written keeps its index and project |
| `PineconeIndexManager.InsertThenLookup` | pinecone_index_manager.py:119-127 | after a successful insert of (n, i, p), the namespace lookup returns (i, p) |
| `PineconeIndexManager.GetIndexProjectByNamespace` | pinecone_index_manager.py:101-135 | returns the namespace's (index, project), or (None, None) when there is no row, no connection or an error; the connection goes back on every path |
| `PineconeIndexManager.GetIndexNamespaceAndProject` | pinecone_index_manager.py:139-173 | returns the namespace and project of some row with that index, or (None, None) exactly when there is no such row, no connection or an error |
| `PineconeIndexManager.InsertThenReverseLookup` | pinecone_index_manager.py:157-165 | after inserting (n, i, p) for an index no other row names, the reverse lookup can only answer (n, p) |
| `PineconeIndexManager.FirstFreshDraw` | pinecone_index_manager.py:57-60 | the first draw whose name is not listed; every earlier draw's name is listed |
| `PineconeIndexManager.FreshIndexName` | pinecone_index_manager.py:55-60 | the chosen name is "index-" plus eight hex digits and is not in the listing taken before generation |
| `PineconeIndexManager.GenerateIndexName` | pinecone_index_manager.py:57-60 | the regeneration loop stops at the first draw whose name is not listed |
| `PineconeIndexManager.NewIndex` | pinecone_index_manager.py:48-75 | creation succeeds exactly when create_index does, under a generated unlisted name; a failure raises and lists nothing; the listing gains at most one index at its end |
| `PineconeIndexManager.NewIndexIsUnique` | pinecone_index_manager.py:55-72 | a created index gets a new generated name, is listed last with no namespaces, and keeps listed names distinct; a failed creation lists nothing |
| `PineconeIndexManager.CreateUniquePineconeIndex` | pinecone_index_manager.py:48-75 | creates the index under the fresh name in the given account and returns that name, or raises and changes nothing |
| `VolumeHandler.FirstFit` | volume_handler.py:29-33 | returns the first listed index below NAMESPACES_PER_INDEX, all earlier ones being full, or reports that all are full |
| `VolumeHandler.ScanForCapacity` | volume_handler.py:29-33 | the loop over the listing finds exactly the first-fit index |
| `VolumeHandler.Decide` | volume_handler.py:24-39 | an existing index is used only if it is the first with room; a new one is created exactly when all are full and fewer than INDEXES_PER_PROJECT exist; exhaustion exactly when all are full at the limit |
| `VolumeHandler.ProjectStatus` | volume_handler.py:16-39 | raises only when an index had to be created and creation failed; (None, None) exactly for an exhausted project; the listing only gains a created index at its end |
| `VolumeHandler.EmptyProjectGetsNewIndex` | volume_handler.py:25-26 | a project without indexes gets a newly created, generated-name index, reported with count 0 |
| `VolumeHandler.ReturnedIndexHasRoom` | volume_handler.py:26-37 | any returned index is listed afterwards with the reported count, which is below NAMESPACES_PER_INDEX; with room available an existing index is returned and nothing is created |
| `VolumeHandler.NoCapacityIffExhausted` | volume_handler.py:35-39 | (None, None) exactly when every index is full and the project has at least INDEXES_PER_PROJECT indexes |
| `VolumeHandler.StatusOnlyAppends` | volume_handler.py:25-37 | the listing only gains at most one new, unlisted index at its end with count 0, so names stay distinct |
| `VolumeHandler.GetProjectStatus` | volume_handler.py:16-39 | answers and changes the account's listing as the first-fit / create / exhausted decision says, and touches no other account |
| `VolumeHandler.Allocate` | volume_handler.py:41-64 | a choice is recorded under QA1 with QA2 untouched, or under QA2 only when QA1 is exhausted and unchanged; both listings only grow at their ends |
| `VolumeHandler.SecondProjectOnlyAfterFirstExhausted` | volume_handler.py:48-57 | QA2 is consulted and chosen only when QA1 is exhausted; otherwise the choice is recorded under QA1 |
| `VolumeHandler.BothExhaustedRaises` | volume_handler.py:55-60 | main_function raises "Both projects are at capacity" exactly when both projects are exhausted, and then changes no listing |
| `VolumeHandler.ChoiceBelongsToProject` | volume_handler.py:48-63 | the chosen index is listed in the project recorded for it |
| `VolumeHandler.AllocationKeepsPlacementsConsistent` | volume_handler.py:41-64 | if every placement names an index of its recorded project before main_function, that still holds after it |
| `VolumeHandler.ReplacingAPlacedNamespace` | volume_handler.py:48-53 | for an already placed namespace, main_function may return a different index than the registry keeps, because the insert's refusal is ignored |
| `VolumeHandler.ChooseIndex` | volume_handler.py:48-60 | the choice and both listings are exactly those of `Allocate`: QA1 first, QA2 only when QA1 has no capacity, the exception when neither has |
| `VolumeHandler.MainFunction` | volume_handler.py:41-64 | tries QA1 then QA2; the index returned is the one passed to insert_case under that project; when raising, it inserts nothing and takes no connection |
| `PdfDailyTracker.Track` | pdf_daily_tracker.py:6-64 | succeeds exactly for a non-empty name with a working connection and statement; the row's count rises by one on success and no other count changes |
| `PdfDailyTracker.TrackCountsOneUse` | pdf_daily_tracker.py:18-62 | success exactly for a non-empty name with a working connection; the row's counter rises by one (a new row starts at 1); other rows and failed calls change nothing |
| `PdfDailyTracker.TrackTimesCounts` | pdf_daily_tracker.py:38-56 | n successful calls for one name and date add exactly n to that counter and no other |
| `PdfDailyTracker.FreshDayCountsCalls` | pdf_daily_tracker.py:48-56 | from no row, n successful calls leave the counter at n |
| `PdfDailyTracker.TrackPdfDailyUsage` | pdf_daily_tracker.py:6-64 | the table and result are those of the insert-or-increment; an empty name takes no connection; the connection goes back on every path |
| `AddOneColumn.WithoutUnderscores` | add_one_column.py:20 | the underscore-free name holds exactly the name's other characters and is no longer than it |
| `AddOneColumn.IsSafeColumnName` | add_one_column.py:20 | a name that passes holds only letters, digits and underscores, and some character other than an underscore |
| `AddOneColumn.SafeColumnNameIff` | add_one_column.py:18-21 | a name passes exactly when it uses only letters, digits and underscores and has some character other than an underscore |
| `AddOneColumn.UnderscoresOnlyRefused` | add_one_column.py:20-21 | the empty name and names made only of underscores are refused |
| `AddOneColumn.ErrorReply` | add_one_column.py:39-49 | every handled error is a failure, and the "already exists" message comes exactly for MySQL error 1060 |
| `AddOneColumn.ExecuteError` | add_one_column.py:30-35 | `cursor.execute` succeeds exactly when no fault occurs, the server parses the unquoted name, the name has at most 64 characters and no column has that name; an unparsable name is a generic database error, an over-long one error 1059, an existing column error 1060 |
| `AddOneColumn.AddColumn` | add_one_column.py:20-49 | the table gains at most the one new column; a refused name or a missing connection leaves it unchanged; a success always adds the column |
| `AddOneColumn.AddsExactlyOneColumn` | add_one_column.py:20-43 | the column is added exactly when ALTER TABLE takes effect (safe name, a connection, a parsable name of at most 64 characters, no execute fault, no column of that name, in any case), as INT NOT NULL DEFAULT 0; the reply is a success exactly when the commit also raises nothing |
| `AddOneColumn.CommitFailureKeepsColumn` | add_one_column.py:35-43 | a commit that raises after the ALTER ran is reported as a failure, yet the column has been added, since MySQL commits ALTER TABLE implicitly |
| `AddOneColumn.DigitsOnlyPassCheckButFail` | add_one_column.py:20-46 | a digit-only name such as "123" passes the allow-list but fails at the server as "Database error occurred" and adds nothing |
| `AddOneColumn.OverlongNameRefused` | add_one_column.py:20-43 | a name that passes the allow-list but is longer than 64 characters is refused with error 1059 as a "Database operational error" and adds nothing |
| `AddOneColumn.DuplicateColumnReported` | add_one_column.py:39-42 | an existing column, in any ASCII case, gives (False, "... already exists in the table") and no change |
| `AddOneColumn.AddTwiceReportsDuplicate` | add_one_column.py:30-42 | adding a column, then the same name again in any case, reports that it already exists |
| `AddOneColumn.AddKeepsColumnNamesDistinct` | add_one_column.py:30-42 | the helper never gives the table two column names that differ only in case |
| `AddOneColumn.AddOneToColumn` | add_one_column.py:4-55 | reply and schema are those of the check-then-alter, the column staying when only the commit fails; a refused name takes no connection; the connection goes back on every path |
| `Query.CredentialFor` | query.py:56-69 | exactly the tags QA1..QA4 have a credential |
| `Query.CredentialDispatch` | query.py:56-69 | exactly QA1..QA4 have a credential, and the four credentials are distinct |
| `Query.ExtractionIsUnique` | query.py:83-96 | the texts and metadata lists are determined by the matches |
| `Query.ExtractResults` | query.py:83-96 | texts and metadata line up with the matches in order, with "" and "Unknown" defaults and each match's score |
| `Query.PineconeVectorDatabaseQuery` | query.py:29-104 | usage is tracked before the lookup; an answer comes exactly when the placement has both index and project, the project is known and the search succeeds, and it is the extraction of the matches |

## Left out

- rag.py and document_processing.py are not part of this model: HTTP routing, API-key headers, PDF download, chunking, embedding and upload.
- Pinecone calls other than `create_index` (listing, `describe_index_stats`) always answer here. Their failures, which would raise through `main_function`, are not modelled.
- `count_namespaces_in_index` is read as the `namespaces` field of the listed index.
- Pinecone's listing order is not documented. A created index is assumed to be listed last.
- `existing_indexes` is iterated as objects with a `.name` (volume_handler.py:29-30), but pinecone_index_manager.py:59 tests a string against it. The model assumes that test compares names. `FreshIndexName` is fresh because of that assumption: it is what the loop intends, not what the text alone guarantees.
- UUID generation is the parameter `draws`. The naming loop has no bound, so termination rests on the assumption `FairDraws`: some draw gives an unlisted name.
- The date and its time zone are a parameter of `TrackPdfDailyUsage`.
- Calls are sequential. The pool's unlocked list and the unlocked read-then-write upsert are not modelled under concurrency.
- The tracker assumes at most one row per (pdf_name, date), which sequential calls keep.
- Disposal raising inside `release_connection` (connection.py:48-53) is not modelled: disposal always succeeds.
- Driver typing is not modelled: `getconnection` returns an engine, yet callers use `.cursor()` on it. Every such failure is the generic error branch (`sqlOk` false or an `executeFault`).
- Python's `str.isalnum` also accepts non-ASCII letters and digits. `IsAlnumChar` accepts only ASCII letters and digits.
- `PineconeIndexManager.InsertPlacement`, `PineconeIndexManager.FindByNamespace` and `PdfDailyTracker.Track` compare namespace and (pdf_name, date) keys exactly. This assumes a binary collation on those columns. The table definitions are not part of this model. Under MySQL's default case-insensitive collations, inserting "doc" next to a placed "Doc" would be refused as a duplicate, and lookups would match either case.
- `HasColumn` ignores ASCII case only, which covers every name that passes the allow-list.
- The server's reserved words are the `Database.keywords` field, not an enumerated list. Among other names MySQL cannot read unquoted, only digit-only names are modelled. Forms that lex as numbers, such as `1e5`, are not.
- Integer widths are not modelled: the SQL `INT` counter and namespace counts are unbounded.
- Cursor closing (add_one_column.py:52-53) is not modelled, since it has no state here.
- Missing environment variables (`KeyError`) are not modelled. `MainFunction` requires both API keys to name existing accounts.
- `TARGET_TOTAL_NAMESPACES` is declared but unused, so it is left out.
- The query text only feeds the embedding service and is not a parameter.
- The search answer is a parameter and is not tied to the index and credential chosen.
- Pydantic's type validation of `QueryResult` is not modelled.
- Similarity scores and numeric metadata are `real` values passed through unchanged.
- Logging, printing and `gc.collect()` are not modelled.
