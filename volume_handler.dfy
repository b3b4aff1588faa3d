/**
 * volume_handler.py: the capacity allocator. `get_project_status` picks the
 * first listed index of one project with room for another namespace,
 * creating an index when the project has none with room and is below its
 * index limit; `main_function` tries project QA1, then QA2, and records
 * the choice with `insert_case`.
 */
module VolumeHandler {
  import opened Wrappers
  import opened Connection
  import opened SqlTables
  import opened Pinecone
  import opened PineconeIndexManager

  const NAMESPACES_PER_INDEX: nat := 1
  const INDEXES_PER_PROJECT: nat := 20

  const PROJECT_1: string := "QA1"
  const PROJECT_2: string := "QA2"

  /** Environment variables holding the API keys of the two projects. */
  const FIRST_KEY: string := "PINECONE_API_KEY"
  const SECOND_KEY: string := "PINECONE_API_KEY_SECOND_PROJECT"

  const BOTH_FULL: string := "Both projects are at capacity. Cannot create more indexes."

  predicate IsFull(info: IndexInfo)
  {
    info.namespaces >= NAMESPACES_PER_INDEX
  }

  predicate AllFull(listing: seq<IndexInfo>)
  {
    forall j :: 0 <= j < |listing| ==> IsFull(listing[j])
  }

  /** First-fit: the position of the first listed index with room, if any. */
  function FirstFit(listing: seq<IndexInfo>): (k: Option<nat>)
    ensures k.Some? ==> k.value < |listing| && !IsFull(listing[k.value])
                        && forall j :: 0 <= j < k.value ==> IsFull(listing[j])
    ensures k.None? ==> AllFull(listing)
  {
    if listing == [] then None
    else if !IsFull(listing[0]) then Some(0)
    else
      match FirstFit(listing[1..])
      case None => None
      case Some(k) => Some(k + 1)
  }

  /** The scan of `get_project_status` over the listing, in listing order, stopping at the first index with room. */
  method ScanForCapacity(indexes: seq<IndexInfo>) returns (found: Option<nat>)
    ensures found == FirstFit(indexes)
  {
    var i := 0;
    while i < |indexes|
      invariant 0 <= i <= |indexes|
      invariant forall j :: 0 <= j < i ==> IsFull(indexes[j])
    {
      var nsCount := indexes[i].namespaces;
      if nsCount < NAMESPACES_PER_INDEX {
        return Some(i);
      }
      i := i + 1;
    }
    return None;
  }

  /** What `get_project_status` decides for a listing. */
  datatype Plan = UseExisting(at: nat) | CreateNew | Exhausted

  function Decide(listing: seq<IndexInfo>): (plan: Plan)
    ensures plan.UseExisting? ==> plan.at < |listing| && !IsFull(listing[plan.at])
                                  && forall j :: 0 <= j < plan.at ==> IsFull(listing[j])
    ensures plan.CreateNew? <==> AllFull(listing) && |listing| < INDEXES_PER_PROJECT
    ensures plan.Exhausted? <==> AllFull(listing) && |listing| >= INDEXES_PER_PROJECT
  {
    if listing == [] then CreateNew
    else
      match FirstFit(listing)
      case Some(k) => UseExisting(k)
      case None => if |listing| < INDEXES_PER_PROJECT then CreateNew else Exhausted
  }

  /** `get_project_status`'s answer: (index_name, namespace count), or (None, None). */
  datatype Status = Available(name: string, count: nat) | NoCapacity

  /** The environment's answers for one project: the random name draws and whether `create_index` succeeds. */
  datatype Attempt = Attempt(draws: seq<string>, createOk: bool)

  /** A project for which an index would be created gets draws that eventually name a new index. */
  predicate CanName(listing: seq<IndexInfo>, attempt: Attempt)
  {
    Decide(listing).CreateNew? ==> FairDraws(Names(listing), attempt.draws)
  }

  /** The answer of `get_project_status` and the project's listing afterwards. */
  datatype StatusStep = StatusStep(status: Outcome<Status>, listing: seq<IndexInfo>)

  /**
   * `get_project_status` on a listing: it raises only when it had to create
   * an index and creation failed, answers (None, None) only for an exhausted
   * project, and only ever appends to the listing.
   */
  function ProjectStatus(listing: seq<IndexInfo>, attempt: Attempt): (step: StatusStep)
    requires CanName(listing, attempt)
    ensures step.status.Raised? <==> Decide(listing).CreateNew? && !attempt.createOk
    ensures step.status == Returned(NoCapacity) <==> Decide(listing).Exhausted?
    ensures |listing| <= |step.listing| <= |listing| + 1 && step.listing[..|listing|] == listing
    ensures step.listing != listing ==> Decide(listing).CreateNew? && step.status.Returned?
  {
    match Decide(listing)
    case UseExisting(k) => StatusStep(Returned(Available(listing[k].name, listing[k].namespaces)), listing)
    case Exhausted => StatusStep(Returned(NoCapacity), listing)
    case CreateNew =>
      var c := NewIndex(listing, attempt.draws, attempt.createOk);
      match c.result
      case Returned(name) => StatusStep(Returned(Available(name, 0)), c.listing)
      case Raised(e) => StatusStep(Raised(e), c.listing)
  }

  /** A project without indexes gets a newly created one, reported with count 0. */
  lemma EmptyProjectGetsNewIndex(attempt: Attempt)
    requires CanName([], attempt) && attempt.createOk
    ensures var name := FreshIndexName([], attempt.draws);
      && IsGeneratedName(name)
      && ProjectStatus([], attempt) == StatusStep(Returned(Available(name, 0)), [IndexInfo(name, 0)])
  {
  }

  /**
   * Every index `get_project_status` returns is listed afterwards, with the
   * count it reports, and that count is below NAMESPACES_PER_INDEX; an
   * existing index is returned exactly when the listing has one with room.
   */
  lemma ReturnedIndexHasRoom(listing: seq<IndexInfo>, attempt: Attempt)
    requires CanName(listing, attempt)
    ensures var step := ProjectStatus(listing, attempt);
      && (step.status.Returned? && step.status.value.Available? ==>
            step.status.value.count < NAMESPACES_PER_INDEX
            && exists k :: 0 <= k < |step.listing| && step.listing[k] == IndexInfo(step.status.value.name, step.status.value.count))
      && (!AllFull(listing) ==> step.listing == listing && step.status.Returned? && step.status.value.Available?)
  {
    var step := ProjectStatus(listing, attempt);
    match Decide(listing)
    case UseExisting(k) =>
      assert step.listing[k] == IndexInfo(step.status.value.name, step.status.value.count);
    case Exhausted =>
    case CreateNew =>
      if step.status.Returned? {
        assert step.listing[|listing|] == IndexInfo(step.status.value.name, 0);
      }
  }

  /** (None, None) is returned exactly when every index is full and the project holds INDEXES_PER_PROJECT or more. */
  lemma NoCapacityIffExhausted(listing: seq<IndexInfo>, attempt: Attempt)
    requires CanName(listing, attempt)
    ensures ProjectStatus(listing, attempt).status == Returned(NoCapacity)
            <==> AllFull(listing) && |listing| >= INDEXES_PER_PROJECT
  {
  }

  /**
   * A listing only ever grows by one new, uniquely named index at its end,
   * so the names of a project's indexes stay distinct.
   */
  lemma StatusOnlyAppends(listing: seq<IndexInfo>, attempt: Attempt)
    requires CanName(listing, attempt)
    ensures var after := ProjectStatus(listing, attempt).listing;
      && |listing| <= |after| <= |listing| + 1
      && after[..|listing|] == listing
      && (|after| > |listing| ==> after[|listing|].namespaces == 0 && after[|listing|].name !in Names(listing))
      && (DistinctNames(listing) ==> DistinctNames(after))
  {
    if Decide(listing).CreateNew? {
      NewIndexIsUnique(listing, attempt.draws, attempt.createOk);
    }
  }

  /** `get_project_status` against the account reached through `apiKey`. */
  method GetProjectStatus(backend: Backend, apiKey: string, attempt: Attempt) returns (status: Outcome<Status>)
    requires apiKey in backend.accounts && CanName(backend.accounts[apiKey], attempt)
    modifies backend
    ensures var step := ProjectStatus(old(backend.accounts[apiKey]), attempt);
      status == step.status && backend.accounts == old(backend.accounts)[apiKey := step.listing]
  {
    var indexes := backend.accounts[apiKey];
    if indexes == [] {
      var created := CreateUniquePineconeIndex(backend, apiKey, attempt.draws, attempt.createOk);
      status := if created.Returned? then Returned(Available(created.value, 0)) else Raised(created.reason);
      return;
    }
    var found := ScanForCapacity(indexes);
    if found.Some? {
      return Returned(Available(indexes[found.value].name, indexes[found.value].namespaces));
    }
    if |indexes| < INDEXES_PER_PROJECT {
      var created := CreateUniquePineconeIndex(backend, apiKey, attempt.draws, attempt.createOk);
      status := if created.Returned? then Returned(Available(created.value, 0)) else Raised(created.reason);
      return;
    }
    return Returned(NoCapacity);
  }

  // ---------------------------------------------------------------------
  // main_function
  // ---------------------------------------------------------------------

  /** The index chosen for a namespace and the project recorded with it. */
  datatype Choice = Choice(indexName: string, project: string)

  /** What `main_function` decides, and the two projects' listings afterwards. */
  datatype Allocation = Allocation(outcome: Outcome<Choice>, first: seq<IndexInfo>, second: seq<IndexInfo>)

  /**
   * `main_function`'s decision: a choice is recorded under QA1 without
   * touching QA2, or under QA2 only when QA1 is exhausted and unchanged.
   */
  function Allocate(first: seq<IndexInfo>, second: seq<IndexInfo>, a1: Attempt, a2: Attempt): (a: Allocation)
    requires CanName(first, a1) && CanName(second, a2)
    ensures a.outcome.Returned? ==>
              (a.outcome.value.project == PROJECT_1 && a.second == second)
              || (a.outcome.value.project == PROJECT_2 && Decide(first).Exhausted? && a.first == first)
    ensures |first| <= |a.first| && a.first[..|first|] == first
    ensures |second| <= |a.second| && a.second[..|second|] == second
  {
    var s1 := ProjectStatus(first, a1);
    match s1.status
    case Raised(e) => Allocation(Raised(e), s1.listing, second)
    case Returned(Available(name, _)) => Allocation(Returned(Choice(name, PROJECT_1)), s1.listing, second)
    case Returned(NoCapacity) =>
      var s2 := ProjectStatus(second, a2);
      match s2.status
      case Raised(e) => Allocation(Raised(e), first, s2.listing)
      case Returned(Available(name, _)) => Allocation(Returned(Choice(name, PROJECT_2)), first, s2.listing)
      case Returned(NoCapacity) => Allocation(Raised(BOTH_FULL), first, second)
  }

  /**
   * QA2 is consulted, and chosen, only when QA1 is exhausted; otherwise the
   * second project's listing is untouched and any choice is recorded under QA1.
   */
  lemma SecondProjectOnlyAfterFirstExhausted(first: seq<IndexInfo>, second: seq<IndexInfo>, a1: Attempt, a2: Attempt)
    requires CanName(first, a1) && CanName(second, a2)
    ensures var a := Allocate(first, second, a1, a2);
      && (!Decide(first).Exhausted? ==> a.second == second && (a.outcome.Returned? ==> a.outcome.value.project == PROJECT_1))
      && (Decide(first).Exhausted? ==> a.first == first && (a.outcome.Returned? ==> a.outcome.value.project == PROJECT_2))
  {
    NoCapacityIffExhausted(first, a1);
  }

  /** Both projects exhausted: `main_function` raises and changes no listing; it raises that error for no other reason. */
  lemma BothExhaustedRaises(first: seq<IndexInfo>, second: seq<IndexInfo>, a1: Attempt, a2: Attempt)
    requires CanName(first, a1) && CanName(second, a2)
    ensures Allocate(first, second, a1, a2).outcome == Raised(BOTH_FULL)
            <==> Decide(first).Exhausted? && Decide(second).Exhausted?
    ensures Decide(first).Exhausted? && Decide(second).Exhausted? ==>
              Allocate(first, second, a1, a2) == Allocation(Raised(BOTH_FULL), first, second)
  {
    NoCapacityIffExhausted(first, a1);
    NoCapacityIffExhausted(second, a2);
    assert BOTH_FULL != CREATE_FAILED;
  }

  /** Every placement names an index listed in the project recorded with it. */
  ghost predicate PlacementsConsistent(rows: map<string, Placement>, first: seq<IndexInfo>, second: seq<IndexInfo>)
  {
    forall n :: n in rows ==>
      (rows[n].project == PROJECT_1 && rows[n].indexName in Names(first))
      || (rows[n].project == PROJECT_2 && rows[n].indexName in Names(second))
  }

  /** The index chosen is listed in the project recorded for it. */
  lemma ChoiceBelongsToProject(first: seq<IndexInfo>, second: seq<IndexInfo>, a1: Attempt, a2: Attempt)
    requires CanName(first, a1) && CanName(second, a2)
    ensures var a := Allocate(first, second, a1, a2);
      a.outcome.Returned? ==>
        var c := a.outcome.value;
        (c.project == PROJECT_1 && c.indexName in Names(a.first)) || (c.project == PROJECT_2 && c.indexName in Names(a.second))
  {
    var a := Allocate(first, second, a1, a2);
    ReturnedIndexHasRoom(first, a1);
    ReturnedIndexHasRoom(second, a2);
    if a.outcome.Returned? {
      var c := a.outcome.value;
      if c.project == PROJECT_1 {
        var step := ProjectStatus(first, a1);
        var k :| 0 <= k < |step.listing| && step.listing[k].name == c.indexName;
        assert Names(a.first)[k] == c.indexName;
      } else {
        var step := ProjectStatus(second, a2);
        var k :| 0 <= k < |step.listing| && step.listing[k].name == c.indexName;
        assert Names(a.second)[k] == c.indexName;
      }
    }
  }

  /** Listings only grow at their end, so a name listed before is listed after. */
  lemma ListedStaysListed(listing: seq<IndexInfo>, attempt: Attempt, name: string)
    requires CanName(listing, attempt) && name in Names(listing)
    ensures name in Names(ProjectStatus(listing, attempt).listing)
  {
    StatusOnlyAppends(listing, attempt);
    var after := ProjectStatus(listing, attempt).listing;
    var k :| 0 <= k < |listing| && Names(listing)[k] == name;
    assert after[k] == after[..|listing|][k] == listing[k];
    assert Names(after)[k] == name;
  }

  /**
   * Placement consistency is kept by `main_function`: whatever it inserts
   * names an index of the recorded project, and no listing loses an index.
   */
  lemma {:induction false} AllocationKeepsPlacementsConsistent(rows: map<string, Placement>, first: seq<IndexInfo>,
      second: seq<IndexInfo>, a1: Attempt, a2: Attempt, namespace: string, connected: bool, sqlOk: bool)
    requires CanName(first, a1) && CanName(second, a2)
    requires PlacementsConsistent(rows, first, second)
    ensures var a := Allocate(first, second, a1, a2);
      var after := if a.outcome.Returned?
                   then InsertPlacement(rows, namespace, a.outcome.value.indexName, a.outcome.value.project, connected, sqlOk).rows
                   else rows;
      PlacementsConsistent(after, a.first, a.second)
  {
    var a := Allocate(first, second, a1, a2);
    ChoiceBelongsToProject(first, second, a1, a2);
    forall n | n in rows
      ensures (rows[n].project == PROJECT_1 && rows[n].indexName in Names(a.first))
              || (rows[n].project == PROJECT_2 && rows[n].indexName in Names(a.second))
    {
      if rows[n].project == PROJECT_1 && rows[n].indexName in Names(first) {
        ListedStaysListed(first, a1, rows[n].indexName);
      } else {
        ListedStaysListed(second, a2, rows[n].indexName);
      }
    }
  }

  /**
   * `main_function` does not look for an earlier placement: asked again for
   * a placed namespace, it returns a freshly chosen index while the registry
   * keeps the earlier one.
   */
  lemma ReplacingAPlacedNamespace()
    ensures CanName([], Attempt(["0000000c"], true))
    ensures var rows := map["doc-1" := Placement("index-0000000a", PROJECT_1)];
      var first := [IndexInfo("index-0000000a", 1), IndexInfo("index-0000000b", 0)];
      var a := Allocate(first, [], Attempt([], true), Attempt(["0000000c"], true));
      && a.outcome == Returned(Choice("index-0000000b", PROJECT_1))
      && InsertPlacement(rows, "doc-1", "index-0000000b", PROJECT_1, true, true) == Insertion(false, rows)
  {
    var first := [IndexInfo("index-0000000a", 1), IndexInfo("index-0000000b", 0)];
    assert IsFull(first[0]) && !IsFull(first[1]);
    assert FirstFit(first) == Some(1);
    assert IsUuidPrefix("0000000c") && IndexName(["0000000c"][0]) !in Names([]);
  }

  /**
   * The selection part of `main_function`: QA1's status first, QA2's only
   * when QA1 has no capacity, and the exception when neither has.
   */
  method ChooseIndex(backend: Backend, a1: Attempt, a2: Attempt) returns (outcome: Outcome<Choice>)
    requires FIRST_KEY in backend.accounts && SECOND_KEY in backend.accounts
    requires CanName(backend.accounts[FIRST_KEY], a1) && CanName(backend.accounts[SECOND_KEY], a2)
    modifies backend
    ensures var a := Allocate(old(backend.accounts[FIRST_KEY]), old(backend.accounts[SECOND_KEY]), a1, a2);
      && outcome == a.outcome
      && backend.accounts == old(backend.accounts)[FIRST_KEY := a.first][SECOND_KEY := a.second]
  {
    ghost var first := backend.accounts[FIRST_KEY];
    ghost var second := backend.accounts[SECOND_KEY];
    ghost var s1 := ProjectStatus(first, a1);
    ghost var s2 := ProjectStatus(second, a2);
    assert FIRST_KEY != SECOND_KEY;

    var status := GetProjectStatus(backend, FIRST_KEY, a1);
    assert backend.accounts[SECOND_KEY] == second;
    if status.Raised? {
      return Raised(status.reason);
    }
    if status.value.Available? {
      return Returned(Choice(status.value.name, PROJECT_1));
    }
    assert s1.listing == first;
    status := GetProjectStatus(backend, SECOND_KEY, a2);
    if status.Raised? {
      return Raised(status.reason);
    }
    if status.value.Available? {
      return Returned(Choice(status.value.name, PROJECT_2));
    }
    assert s2.listing == second;
    return Raised(BOTH_FULL);
  }

  /**
   * `main_function`: tries QA1, then QA2; the chosen index is the one handed
   * to `insert_case` and the one returned, whatever the insert reports.
   */
  method MainFunction(backend: Backend, pool: ConnectionPool, db: Database, namespace: string,
                      a1: Attempt, a2: Attempt, io: DbCall) returns (result: Outcome<string>)
    requires pool.Valid()
    requires FIRST_KEY in backend.accounts && SECOND_KEY in backend.accounts
    requires CanName(backend.accounts[FIRST_KEY], a1) && CanName(backend.accounts[SECOND_KEY], a2)
    modifies backend, pool, db`placements
    ensures pool.Valid()
    ensures var a := Allocate(old(backend.accounts[FIRST_KEY]), old(backend.accounts[SECOND_KEY]), a1, a2);
      && backend.accounts == old(backend.accounts)[FIRST_KEY := a.first][SECOND_KEY := a.second]
      && (a.outcome.Raised? ==>
            result == Raised(a.outcome.reason) && db.placements == old(db.placements) && pool.State() == old(pool.State()))
      && (a.outcome.Returned? ==>
            && result == Returned(a.outcome.value.indexName)
            && pool.State() == RoundTrip(old(pool.State()), io.connectOk)
            && db.placements == InsertPlacement(old(db.placements), namespace, a.outcome.value.indexName, a.outcome.value.project,
                                                Connects(old(pool.State()), io.connectOk), io.sqlOk).rows)
    ensures PlacementsConsistent(old(db.placements), old(backend.accounts[FIRST_KEY]), old(backend.accounts[SECOND_KEY]))
            ==> PlacementsConsistent(db.placements, backend.accounts[FIRST_KEY], backend.accounts[SECOND_KEY])
  {
    ghost var rows := db.placements;
    ghost var first := backend.accounts[FIRST_KEY];
    ghost var second := backend.accounts[SECOND_KEY];
    ghost var connected := Connects(pool.State(), io.connectOk);
    if PlacementsConsistent(rows, first, second) {
      AllocationKeepsPlacementsConsistent(rows, first, second, a1, a2, namespace, connected, io.sqlOk);
    }
    var outcome := ChooseIndex(backend, a1, a2);
    if outcome.Raised? {
      return Raised(outcome.reason);
    }
    var _ := InsertCase(pool, db, namespace, outcome.value.indexName, outcome.value.project, io);
    result := Returned(outcome.value.indexName);
  }
}
