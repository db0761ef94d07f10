/**
 * App.tsx: the application state the handlers update. A fetch is replaced by
 * its outcome, passed in as a parameter.
 */
module App {
  import opened Wrappers
  import opened Types
  import opened Seqs
  import opened Text
  import opened PokeApi
  import opened PokemonList

  // ---------------------------------------------------------------------------
  // Categorical stage

  /** The three endpoints getPokemonByFilter is called with. */
  datatype Endpoint = TypeEndpoint | ColorEndpoint | EggGroupEndpoint

  datatype CategoryRequest = CategoryRequest(endpoint: Endpoint, value: string)

  /** `categoricalFilters`: one request per selected value, types first, then colours,
      then egg groups. */
  function CategoricalRequests(f: ActiveFilters): (r: seq<CategoryRequest>)
    ensures |r| == |f.types| + |f.colors| + |f.eggGroups|
    ensures r == [] <==> f.types == [] && f.colors == [] && f.eggGroups == []
    ensures forall i :: 0 <= i < |f.types| ==> r[i] == CategoryRequest(TypeEndpoint, f.types[i])
    ensures forall i :: 0 <= i < |f.colors| ==> r[|f.types| + i] == CategoryRequest(ColorEndpoint, f.colors[i])
    ensures forall i :: 0 <= i < |f.eggGroups| ==>
      r[|f.types| + |f.colors| + i] == CategoryRequest(EggGroupEndpoint, f.eggGroups[i])
  {
    seq(|f.types|, i requires 0 <= i < |f.types| => CategoryRequest(TypeEndpoint, f.types[i]))
    + seq(|f.colors|, i requires 0 <= i < |f.colors| => CategoryRequest(ColorEndpoint, f.colors[i]))
    + seq(|f.eggGroups|, i requires 0 <= i < |f.eggGroups| => CategoryRequest(EggGroupEndpoint, f.eggGroups[i]))
  }

  function EntryName(e: CategoryEntry): string { e.name }

  /** `new Set(res.map(p => p.name))`, in insertion order. */
  function NameSet(res: seq<CategoryEntry>): (r: seq<string>)
    ensures forall n :: n in r <==> exists e :: e in res && e.name == n
  {
    var names := Map(res, EntryName);
    assert forall n :: n in names <==> exists e :: e in res && e.name == n by {
      forall n ensures n in names <==> exists e :: e in res && e.name == n {
        if n in names {
          var i :| 0 <= i < |names| && names[i] == n;
          assert res[i] in res;
        }
        if e :| e in res && e.name == n {
          var i :| 0 <= i < |res| && res[i] == e;
          assert names[i] == n;
        }
      }
    }
    Dedup(names)
  }

  function InSet(s: seq<string>): string -> bool {
    (n: string) => n in s
  }

  /** `idSets.reduce((acc, s) => new Set([...acc].filter(name => s.has(name))))` */
  function Intersection(sets: seq<seq<string>>): seq<string>
    requires |sets| > 0
  {
    if |sets| == 1 then sets[0]
    else Filter(Intersection(sets[..|sets| - 1]), InSet(sets[|sets| - 1]))
  }

  /** A name survives the reduce exactly when every set holds it. */
  lemma {:induction false} IntersectionMembers(sets: seq<seq<string>>, n: string)
    requires |sets| > 0
    ensures n in Intersection(sets) <==> forall k :: 0 <= k < |sets| ==> n in sets[k]
  {
    if |sets| > 1 {
      var prefix := sets[..|sets| - 1];
      IntersectionMembers(prefix, n);
      assert forall k :: 0 <= k < |prefix| ==> prefix[k] == sets[k];
    }
  }

  /** `Array.from(intersection).map(name => masterListMap.get(name)).filter(p => !!p)`;
      the map built from the master list keeps the last entry of a name. */
  function MasterLookup(names: seq<string>, master: seq<ListItem>): (r: seq<ListItem>)
    ensures forall p :: p in r ==> p in master && p.name in names
  {
    if names == [] then []
    else
      var rest := MasterLookup(names[1..], master);
      match LastNamed(master, names[0])
      case Some(p) => [p] + rest
      case None => rest
  }

  /** Every selected name that the master list knows is found. */
  lemma {:induction false} MasterLookupFinds(names: seq<string>, master: seq<ListItem>, n: string)
    requires n in names && n in Names(master)
    ensures exists p :: p in MasterLookup(names, master) && p.name == n
  {
    if names[0] == n {
      assert LastNamed(master, n).Some?;
      assert LastNamed(master, n).value in MasterLookup(names, master);
    } else {
      MasterLookupFinds(names[1..], master, n);
    }
  }

  /** The result of the categorical stage. */
  function CategoricalStage(master: seq<ListItem>, results: seq<seq<CategoryEntry>>): seq<ListItem> {
    if |results| == 0 then master
    else MasterLookup(Intersection(Map(results, NameSet)), master)
  }

  /** With values selected, each result is a master entry that every single
      query returned (an intersection across all three dimensions), and every master
      name that every query returned is in the result. */
  lemma CategoricalStageIsIntersection(master: seq<ListItem>, results: seq<seq<CategoryEntry>>)
    requires |results| > 0
    ensures forall p :: p in CategoricalStage(master, results) ==>
      p in master && forall k :: 0 <= k < |results| ==> exists e :: e in results[k] && e.name == p.name
    ensures forall n :: n in Names(master) && (forall k :: 0 <= k < |results| ==> exists e :: e in results[k] && e.name == n) ==>
      exists p :: p in CategoricalStage(master, results) && p.name == n
  {
    var sets := Map(results, NameSet);
    forall p | p in CategoricalStage(master, results)
      ensures forall k :: 0 <= k < |results| ==> exists e :: e in results[k] && e.name == p.name
    {
      IntersectionMembers(sets, p.name);
      forall k | 0 <= k < |results| ensures exists e :: e in results[k] && e.name == p.name {
        assert p.name in NameSet(results[k]);
      }
    }
    forall n | n in Names(master) && (forall k :: 0 <= k < |results| ==> exists e :: e in results[k] && e.name == n)
      ensures exists p :: p in CategoricalStage(master, results) && p.name == n
    {
      IntersectionMembers(sets, n);
      MasterLookupFinds(Intersection(sets), master, n);
    }
  }

  // ---------------------------------------------------------------------------
  // Search stage

  /** `filters.search.toLowerCase().trim()` */
  function SearchTerm(f: ActiveFilters): string {
    Trim(Lower(f.search))
  }

  function Matches(term: string): ListItem -> bool {
    (p: ListItem) => Contains(Lower(p.name), term) || IntToString(p.id) == term
  }

  function SearchStage(list: seq<ListItem>, term: string): seq<ListItem> {
    if term == "" then list else Filter(list, Matches(term))
  }

  /** An empty term keeps the list; otherwise an entry is kept exactly when its lower-case
      name contains the term or its decimal id is the term; either way only entries
      are dropped. */
  lemma SearchStageMembers(list: seq<ListItem>, term: string)
    ensures term == "" ==> SearchStage(list, term) == list
    ensures term != "" ==> forall p :: p in SearchStage(list, term) <==>
      p in list && (Contains(Lower(p.name), term) || IntToString(p.id) == term)
    ensures IsSubsequence(SearchStage(list, term), list)
  {
    FilterIsSubsequence(list, Matches(term));
    SubsequenceRefl(list);
  }

  /** The id search finds an entry by its number. */
  lemma SearchById(list: seq<ListItem>, p: ListItem)
    requires p in list
    ensures p in SearchStage(list, IntToString(p.id))
  {
    assert IntToString(p.id) != "";
  }

  // ---------------------------------------------------------------------------
  // Detail cache

  /** The ids of a request that are not cached yet. */
  function ToFetch(ids: seq<int>, db: Database): seq<int> {
    Filter(ids, NotCached(db))
  }

  /** `newDetails.set(id, details)` for each fetched pair, in order. */
  function SetAll(db: Database, ids: seq<int>, details: seq<Details>): (r: Database)
    requires |ids| == |details|
    ensures r.Keys == db.Keys + set i | i in ids
  {
    if ids == [] then db
    else
      var n := |ids| - 1;
      assert ids == ids[..n] + [ids[n]];
      SetAll(db, ids[..n], details[..n])[ids[n] := details[n]]
  }

  /** The merge only adds: every cached entry is kept with its value unless the
      request fetched its id again, and each fetched id holds a fetched detail. */
  lemma {:induction false} SetAllGrows(db: Database, ids: seq<int>, details: seq<Details>)
    requires |ids| == |details|
    ensures forall id :: id in db && id !in ids ==> SetAll(db, ids, details)[id] == db[id]
    ensures forall id :: id in ids ==> exists i :: 0 <= i < |ids| && ids[i] == id && SetAll(db, ids, details)[id] == details[i]
  {
    if ids != [] {
      var n := |ids| - 1;
      SetAllGrows(db, ids[..n], details[..n]);
      assert ids == ids[..n] + [ids[n]];
      forall id | id in ids
        ensures exists i :: 0 <= i < |ids| && ids[i] == id && SetAll(db, ids, details)[id] == details[i]
      {
        if id != ids[n] {
          assert id in ids[..n];
          var i :| 0 <= i < n && ids[..n][i] == id && SetAll(db, ids[..n], details[..n])[id] == details[..n][i];
          assert ids[i] == id && details[i] == details[..n][i];
        }
      }
    }
  }

  /** The fetched ids are exactly the requested ids missing from the cache, in request order. */
  lemma ToFetchExact(ids: seq<int>, db: Database)
    ensures forall id :: id in ToFetch(ids, db) <==> id in ids && id !in db
    ensures IsSubsequence(ToFetch(ids, db), ids)
  {
    FilterIsSubsequence(ids, NotCached(db));
  }

  /** A request for cached ids only changes nothing. */
  lemma ToFetchCached(ids: seq<int>, db: Database)
    requires forall id :: id in ids ==> id in db
    ensures ToFetch(ids, db) == []
  {
    forall id | id in ids ensures !NotCached(db)(id) {
    }
    FilterNone(ids, NotCached(db));
  }

  /** `newDetails`: a copy of the cache with each fetched pair set in order. */
  method MergeDetails(db: Database, toFetch: seq<int>, results: seq<Details>) returns (newDetails: Database)
    requires |toFetch| == |results|
    ensures newDetails == SetAll(db, toFetch, results)
  {
    newDetails := db;
    for i := 0 to |toFetch|
      invariant newDetails == SetAll(db, toFetch[..i], results[..i])
    {
      assert toFetch[..i + 1][..i] == toFetch[..i] && results[..i + 1][..i] == results[..i];
      newDetails := newDetails[toFetch[i] := results[i]];
    }
    assert toFetch[..|toFetch|] == toFetch && results[..|results|] == results;
  }

  /** handleApplyFilters' `resultList`, stage by stage. */
  method FilterMaster(master: seq<ListItem>, filters: ActiveFilters, results: seq<seq<CategoryEntry>>)
    returns (resultList: seq<ListItem>)
    requires |results| == |CategoricalRequests(filters)|
    ensures resultList == SearchStage(CategoricalStage(master, results), SearchTerm(filters))
  {
    resultList := master;
    var categoricalFilters := CategoricalRequests(filters);
    if |categoricalFilters| > 0 {
      var idSets := Map(results, NameSet);
      var intersection := Intersection(idSets);
      resultList := MasterLookup(intersection, master);
    }
    var searchTerm := SearchTerm(filters);
    if searchTerm != "" {
      resultList := Filter(resultList, Matches(searchTerm));
    }
  }

  const InitialFailure := "Failed to load initial Pokémon data. Please try again later."
  const DetailsFailure := "Could not fetch some Pokémon details needed for filtering."
  const SelectFailure := "Could not load Pokémon details."

  /** The state of App. */
  class AppState {
    var masterPokemonList: seq<ListItem>
    var pokemonDatabase: Database
    var filteredPokemon: seq<ListItem>
    var selectedPokemon: Option<Details>
    var selectedPokemonId: Option<int>
    var isLoadingList: bool
    var isLoadingDetails: bool
    var isApplyingFilters: bool
    var error: Option<string>
    var filterOptions: Option<FilterOptions>
    var activeFilters: ActiveFilters
    var sortState: SortState

    /** The initial state; the module-level detail cache starts empty. */
    constructor()
      ensures masterPokemonList == [] && pokemonDatabase == map[] && filteredPokemon == []
      ensures selectedPokemon.None? && selectedPokemonId.None?
      ensures isLoadingList && !isLoadingDetails && !isApplyingFilters
      ensures error.None? && filterOptions.None?
      ensures activeFilters == InitialFilters && sortState == DefaultSort
    {
      masterPokemonList := [];
      pokemonDatabase := map[];
      filteredPokemon := [];
      selectedPokemon := None;
      selectedPokemonId := None;
      isLoadingList := true;
      isLoadingDetails := false;
      isApplyingFilters := false;
      error := None;
      filterOptions := None;
      activeFilters := InitialFilters;
      sortState := DefaultSort;
    }

    /** fetchInitialData with the outcomes of getAllPokemon and getFilterOptions. */
    method LoadInitialData(list: Result<seq<ListItem>>, options: Result<FilterOptions>)
      modifies this`isLoadingList, this`masterPokemonList, this`filteredPokemon, this`filterOptions, this`error
      ensures list.Success? && options.Success? ==>
        masterPokemonList == list.value && filteredPokemon == list.value
        && filterOptions == Some(options.value) && error == old(error)
      ensures !(list.Success? && options.Success?) ==>
        error == Some(InitialFailure) && masterPokemonList == old(masterPokemonList)
        && filteredPokemon == old(filteredPokemon) && filterOptions == old(filterOptions)
      ensures !isLoadingList
    {
      isLoadingList := true;
      if list.Success? && options.Success? {
        masterPokemonList := list.value;
        filteredPokemon := list.value;
        filterOptions := Some(options.value);
      } else {
        error := Some(InitialFailure);
      }
      isLoadingList := false;
    }

    /**
     * handleDetailsRequired. `fetched` holds the details of the ids not cached
     * yet, in request order, or None when one of the requests failed.
     */
    method DetailsRequired(ids: seq<int>, fetched: Option<seq<Details>>)
      requires fetched.Some? ==> |fetched.value| == |ToFetch(ids, pokemonDatabase)|
      modifies this`isApplyingFilters, this`pokemonDatabase, this`error
      ensures fetched.Some? ==>
        pokemonDatabase == SetAll(old(pokemonDatabase), ToFetch(ids, old(pokemonDatabase)), fetched.value)
        && error == old(error)
      ensures fetched.None? ==> pokemonDatabase == old(pokemonDatabase) && error == Some(DetailsFailure)
      ensures !isApplyingFilters
    {
      isApplyingFilters := true;
      var toFetch := ToFetch(ids, pokemonDatabase);
      if fetched.None? {
        error := Some(DetailsFailure);
      } else {
        var newDetails := MergeDetails(pokemonDatabase, toFetch, fetched.value);
        pokemonDatabase := newDetails;
      }
      isApplyingFilters := false;
    }

    /**
     * handleApplyFilters. `results` holds what getPokemonByFilter returned for
     * each categorical request, in request order (an empty list when it failed).
     */
    method ApplyFilters(filters: ActiveFilters, results: seq<seq<CategoryEntry>>)
      requires |results| == |CategoricalRequests(filters)|
      modifies this`filteredPokemon, this`activeFilters, this`isApplyingFilters
      ensures filteredPokemon == SearchStage(CategoricalStage(masterPokemonList, results), SearchTerm(filters))
      ensures activeFilters == filters && !isApplyingFilters
    {
      isApplyingFilters := true;
      activeFilters := filters;
      var resultList := FilterMaster(masterPokemonList, filters, results);
      filteredPokemon := resultList;
      isApplyingFilters := false;
    }

    /** handleResetFilters */
    method ResetFilters()
      modifies this`activeFilters, this`sortState, this`filteredPokemon
      ensures activeFilters == InitialFilters && sortState == DefaultSort
      ensures filteredPokemon == masterPokemonList
    {
      activeFilters := InitialFilters;
      sortState := DefaultSort;
      filteredPokemon := masterPokemonList;
    }

    /** onSortChange */
    method SetSort(s: SortState)
      modifies this`sortState
      ensures sortState == s
    {
      sortState := s;
    }

    /**
     * handlePokemonSelect up to its `await`. Ignored while a detail load is in
     * progress; a cached id completes at once; otherwise the load stays in
     * progress until CompleteSelect delivers the fetch outcome. Returns whether
     * a fetch was started.
     */
    method SelectPokemon(id: int) returns (fetch: bool)
      modifies this`isLoadingDetails, this`error, this`selectedPokemon, this`selectedPokemonId
      ensures old(isLoadingDetails) ==>
        !fetch && selectedPokemon == old(selectedPokemon) && selectedPokemonId == old(selectedPokemonId)
        && isLoadingDetails && error == old(error)
      ensures !old(isLoadingDetails) && id in pokemonDatabase ==>
        !fetch && selectedPokemon == Some(pokemonDatabase[id]) && selectedPokemonId == Some(id)
        && !isLoadingDetails && error.None?
      ensures !old(isLoadingDetails) && id !in pokemonDatabase ==>
        fetch && selectedPokemon.None? && selectedPokemonId == Some(id) && isLoadingDetails && error.None?
    {
      if isLoadingDetails {
        return false;
      }
      isLoadingDetails := true;
      error := None;
      selectedPokemon := None;
      selectedPokemonId := Some(id);
      if id in pokemonDatabase {
        selectedPokemon := Some(pokemonDatabase[id]);
        isLoadingDetails := false;
        return false;
      }
      return true;
    }

    /** The rest of handlePokemonSelect once getPokemonDetails(id) has settled. */
    method CompleteSelect(id: int, fetched: Result<Details>)
      requires isLoadingDetails
      modifies this`pokemonDatabase, this`selectedPokemon, this`selectedPokemonId, this`error, this`isLoadingDetails
      ensures fetched.Success? ==>
        pokemonDatabase == old(pokemonDatabase)[id := fetched.value]
        && selectedPokemon == Some(fetched.value)
        && selectedPokemonId == old(selectedPokemonId) && error == old(error)
      ensures fetched.Failure? ==>
        pokemonDatabase == old(pokemonDatabase) && selectedPokemon.None? && selectedPokemonId.None?
        && error == Some(if fetched.message != "" then fetched.message else SelectFailure)
      ensures !isLoadingDetails
    {
      match fetched {
        case Success(details) =>
          pokemonDatabase := pokemonDatabase[id := details];
          selectedPokemon := Some(details);
        case Failure(message) =>
          error := Some(if message != "" then message else SelectFailure);
          selectedPokemon := None;
          selectedPokemonId := None;
      }
      isLoadingDetails := false;
    }
  }

  /** Without a categorical value the categorical stage is the master list itself. */
  lemma NoCategoricalSelection(master: seq<ListItem>, f: ActiveFilters, results: seq<seq<CategoryEntry>>)
    requires |results| == |CategoricalRequests(f)|
    requires f.types == [] && f.colors == [] && f.eggGroups == []
    ensures CategoricalStage(master, results) == master
  {
  }
}
