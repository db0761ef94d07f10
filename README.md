# Pokédex explorer: filtering and derivation engine

A Dafny model of the client-side logic of a Pokédex web explorer. The explorer lists every
Pokémon and alternate form from PokéAPI. It filters the list by type, colour, egg group,
name/id search and inclusive numeric bounds on the base stats, and sorts it by id, name, a
stat, the stat total or the zero-skipping stat product. It also derives the detail record
of a Pokémon: base stats, in-battle stats in four fixed scenarios, Grass Knot power and
the flattened evolution chain.

The project has these files:

- `Types.dfy`: the records of `types.ts` (`StatSet`, `ActiveFilters`, `SortState`,
  `ChainLink`, `Details`, …), plus `Option`/`Result`.
- `Seqs.dfy`, `Text.dfy`: the JavaScript array and string operations the code relies
  on. These are `filter`, `map`, `new Set` order, `toLowerCase`, `trim`, `includes`,
  `split`/`join`, `parseInt`, `String(n)` and `localeCompare`.
- `PokemonUtils.dfy`: the stat formulas, the Grass Knot table, the trigger text, and the
  evolution-chain walk. The walk is a `while` loop proved against a specification
  function.
- `PokeApi.dfy`: the pure parts of the API service, with each HTTP response passed in
  already decoded. These are:
  - id extraction and type options;
  - the catalog merge, a two-loop method over an insertion-ordered map proved against a
    specification function;
  - detail assembly;
  - the two once-only caches, as a class.
- `PokemonList.dfy`:
  - when details are requested, and which ones;
  - the numeric-bound filter, a loop with early exits;
  - the comparator and the sort;
  - the display name.
- `FilterPanel.dfy`: the staged filter editor. Each transition is a pure function, and a
  class holds the two state fields.
- `App.tsx`'s handlers, in `App.dfy`: the state is a class whose fields are the React
  state. Fetch outcomes are method parameters.

## Model

| member | source | states |
|---|---|---|
| PokemonUtils.CalculateHP | utils/pokemonUtils.ts:4-7 | a base HP of 1 gives 1 at every level, IV and EV; any other non-negative base gives at least level + 10 |
| PokemonUtils.ApplyNature | utils/pokemonUtils.ts:11 | definition: `Math.floor(baseCalc * nature)` with the nature as an exact fraction; its properties are stated by NatureOrdered |
| PokemonUtils.CalculateOtherStat | utils/pokemonUtils.ts:9-12 | definition: the non-HP formula; its properties are stated by OtherStatLevelMonotone and OtherStatScenariosOrdered |
| PokemonUtils.Scenario | utils/pokemonUtils.ts:14-48 | definition: one scenario's six stats at a fixed IV, EV and nature; its properties are stated by ScenarioLevelMonotone |
| PokemonUtils.CalculateStats | utils/pokemonUtils.ts:14-48 | definition: the four scenarios; their properties are stated by ScenariosNonDecreasing and CalculateStatsLevelMonotone |
| PokemonUtils.HpLevelMonotone | utils/pokemonUtils.ts:4-7 | for fixed base, IV and EV, HP never decreases with the level |
| PokemonUtils.OtherStatLevelMonotone | utils/pokemonUtils.ts:9-12 | for fixed base, IV, EV and nature, a non-HP stat never decreases with the level |
| PokemonUtils.NatureOrdered | utils/pokemonUtils.ts:9-12 | on a non-negative value, floor(x·0.9) ≤ x ≤ floor(x·1.1) |
| PokemonUtils.HpScenariosOrdered | utils/pokemonUtils.ts:17-41 | for a non-negative base and level, HP is ordered across the IV/EV pairs (0, 0) ≤ (31, 0) ≤ (31, 252) |
| PokemonUtils.OtherStatScenariosOrdered | utils/pokemonUtils.ts:18-46 | each non-HP stat is ordered across the four (IV, EV, nature) scenarios |
| PokemonUtils.ScenariosNonDecreasing | utils/pokemonUtils.ts:14-48 | for non-negative bases every stat is non-decreasing from scenario 1 to 4, and HP is equal in scenarios 3 and 4 |
| PokemonUtils.CalculateStatsLevelMonotone | utils/pokemonUtils.ts:14-48 | each scenario of calculateStats is non-decreasing in the level, stat by stat |
| PokemonUtils.ScenarioLevelMonotone | utils/pokemonUtils.ts:14-48 | one scenario's six stats are all non-decreasing in the level |
| PokemonUtils.GrassKnotPower | utils/pokemonUtils.ts:52-59 | the power is one of 20, 40, …, 120 |
| PokemonUtils.GrassKnotCountsThresholds | utils/pokemonUtils.ts:52-59 | the power is 20 × (1 + the number of tier thresholds 100/250/500/1000/2000 hg the weight reaches), which is the tier table |
| PokemonUtils.GrassKnotMonotone | utils/pokemonUtils.ts:52-59 | a heavier Pokémon never gets less power |
| PokemonUtils.GrassKnotBoundaries | utils/pokemonUtils.ts:53-58 | thresholds are exclusive: just below 10 kg gives 20, exactly 10 kg gives 40; just below 200 kg gives 100, exactly 200 kg gives 120 |
| PokemonUtils.TriggerText | utils/pokemonUtils.ts:62-67 | "Special" without a detail or trigger; otherwise the text starts with the trigger name, hyphens turned into spaces |
| PokemonUtils.ClauseText | utils/pokemonUtils.ts:68-85 | a clause contributes text exactly when its field is set (truthy, or equal to the gender / relative-stats value tested) |
| PokemonUtils.ClauseInOrder | utils/pokemonUtils.ts:68-85 | every clause kind has its place in the fixed append order |
| PokemonUtils.ClausesEmptyIff | utils/pokemonUtils.ts:68-85 | the appended clauses are empty exactly when none of their fields is set |
| PokemonUtils.ClausesAppend | utils/pokemonUtils.ts:68-85 | appending one more clause kind appends exactly its text |
| PokemonUtils.TriggerTextWithoutClauses | utils/pokemonUtils.ts:62-88 | the text is the bare spaced trigger name exactly when no clause field is set |
| PokemonUtils.TriggerTextMentionsPresent | utils/pokemonUtils.ts:68-85 | the text of every set clause occurs in the trigger text |
| PokemonUtils.TextAfter | utils/pokemonUtils.ts:67-85 | definition: the text after the first k `+=` steps; its properties are stated by TextAfterIsPrefix and BuildTriggerTextIsTriggerText |
| PokemonUtils.TextAfterIsPrefix | utils/pokemonUtils.ts:67-85 | after the first k `+=` steps the text is the trigger name followed by the first k clauses of the order |
| PokemonUtils.BuildTriggerTextIsTriggerText | utils/pokemonUtils.ts:67-87 | the chain of `+=` steps yields exactly the trigger text |
| PokemonUtils.ArtworkUrl | utils/pokemonUtils.ts:96-97 | definition: the official-artwork URL of a species URL's last segment; its property is stated by ArtworkOfResourceUrl |
| PokemonUtils.ArtworkOfResourceUrl | utils/pokemonUtils.ts:96-97 | a species URL `…/n/` gives the official artwork of id n |
| PokemonUtils.StageOf | utils/pokemonUtils.ts:95-112 | definition: the stage pushed for one node; its properties are stated by BuildStage, ChainStages and StagesHaveAtMostOneTrigger |
| PokemonUtils.LinkTriggers | utils/pokemonUtils.ts:99-106 | a stage has at most one trigger; it is the text of `evolution_details[0]`, and that text is there whenever the entry exists and its text is non-empty |
| PokemonUtils.StagesHaveAtMostOneTrigger | utils/pokemonUtils.ts:99-127 | every emitted stage carries at most one trigger |
| PokemonUtils.Spine | utils/pokemonUtils.ts:94-139 | the walk starts at the root |
| PokemonUtils.SpineLinks | utils/pokemonUtils.ts:94-139 | each spine node has its successor as only child, and the last spine node does not have exactly one child |
| PokemonUtils.ChainNodes | utils/pokemonUtils.ts:90-143 | definition: the nodes the walk emits a stage for; their shape is stated by ChainShape |
| PokemonUtils.ChainShape | utils/pokemonUtils.ts:90-143 | the visited nodes are the spine followed by the children of the node where it stops |
| PokemonUtils.ChainStages | utils/pokemonUtils.ts:90-143 | one stage per visited node, in visiting order |
| PokemonUtils.LinearChain | utils/pokemonUtils.ts:136-139 | a chain that ends without branching yields one stage per node, root first |
| PokemonUtils.BranchingChain | utils/pokemonUtils.ts:115-135 | a first node with more than one child at depth d yields d + 1 spine stages plus one stage per child, and nothing deeper |
| PokemonUtils.TerminalChain | utils/pokemonUtils.ts:90-143 | a root without children yields exactly its own stage |
| PokemonUtils.BuildLinkTriggers | utils/pokemonUtils.ts:99-106 | the imperative trigger list equals the specified one |
| PokemonUtils.BuildStage | utils/pokemonUtils.ts:95-112 | the stage object built equals the specified stage |
| PokemonUtils.ParseEvolutionChain | utils/pokemonUtils.ts:90-143 | the loop with its inner branch loop emits exactly the specified stages |
| Text.Lower | App.tsx:115 | definition: `toLowerCase` on ASCII letters; used by SearchTerm and stated through SearchStageMembers |
| Text.Trim | App.tsx:115 | the result is a slice of the input with only whitespace cut from either end, it neither starts nor ends with whitespace, and it is empty exactly when the input is all whitespace |
| Text.Contains | App.tsx:118 | definition: `includes`; its meaning is stated by ContainsIff |
| Text.ContainsIff | App.tsx:118 | `includes` holds exactly when the term occurs at some position |
| Text.LexLeq | components/PokemonList.tsx:77 | definition: the lexicographic stand-in for `localeCompare`; its properties are stated by LexLeqTotal, LexLeqTransitive and LexLeqAntisymmetric |
| Text.LexLeqTotal | components/PokemonList.tsx:77 | any two names are comparable |
| Text.LexLeqTransitive | components/PokemonList.tsx:77 | the name order is transitive |
| Text.LexLeqAntisymmetric | components/PokemonList.tsx:77 | names ordered both ways are equal |
| Text.ParseInt | components/FilterPanel.tsx:59 | definition: `parseInt(s, 10)`: leading whitespace, an optional sign, then the digit run; its property is stated by ParseIntOfIntToString |
| Text.IntToString | App.tsx:119 | definition: `String(n)`; its properties are stated by ParseIntOfIntToString and SearchById |
| Text.ParseIntOfIntToString | components/FilterPanel.tsx:59 | parsing the decimal text of an integer gives the integer back |
| Text.JoinSplit | components/PokemonList.tsx:98 | joining the pieces of a split with the same separator gives back the string |
| Text.SplitConcat | components/PokemonList.tsx:98 | splitting at one separator splits both sides independently |
| Text.Split | components/PokemonList.tsx:98 | a split has at least one piece, and no piece holds the separator |
| Text.LastNonEmpty | services/pokeapi.ts:44 | `filter(Boolean).pop()` is the last non-empty piece (every later piece is empty), and is absent exactly when every piece is empty |
| Text.LastSegment | services/pokeapi.ts:44 | definition: `url.split('/').filter(Boolean).pop()`; its properties are stated by LastNonEmpty and LastSegmentOfResourceUrl |
| Text.LastSegmentOfResourceUrl | services/pokeapi.ts:44 | a resource URL `…/n/` ends in the segment n |
| PokeApi.IdFromUrl | services/pokeapi.ts:65 | definition: the id parsed from a URL's last segment, `'0'` when there is none; its properties are stated by IdFromResourceUrl and IdFromEmptyUrl |
| PokeApi.IdFromResourceUrl | services/pokeapi.ts:44 | a resource URL `…/n/` yields the id n |
| PokeApi.IdFromEmptyUrl | services/pokeapi.ts:65 | a URL with no non-empty segment falls back to "0", so to the id 0 |
| PokeApi.TypeOptions | services/pokeapi.ts:23 | the type options are a subsequence of the fetched names, and a name is kept exactly when it is neither `unknown` nor `shadow` |
| PokeApi.TypeOptionsKeepsListed | services/pokeapi.ts:23 | without `unknown` and `shadow` the names are kept unchanged, in order |
| PokeApi.CategoryEntries | services/pokeapi.ts:36-51 | a failed request gives `[]`; otherwise one entry per result, with its name and its id parsed from its URL |
| PokeApi.BaseListItem | services/pokeapi.ts:65-70 | definition: one base entry; its contents are stated by BaseList |
| PokeApi.BaseList | services/pokeapi.ts:64-71 | entry i carries the name of result i, the id parsed from its URL and the default sprite of that id |
| PokeApi.FormListItem | services/pokeapi.ts:81-87 | a form entry keeps id and name, and uses its front sprite when that is non-empty, the default sprite otherwise |
| PokeApi.AlternateForms | services/pokeapi.ts:77-88 | a form entry exists for every fulfilled request and for nothing else |
| PokeApi.AlternateFormsInOrder | services/pokeapi.ts:77-88 | the form entries are exactly the fulfilled requests' entries, once each, in settled order |
| PokeApi.LastNamed | services/pokeapi.ts:92 | the base entry left under a name is an entry with that name, and exists exactly when the name occurs; LastNamedIsLast states that it is the last one |
| PokeApi.LastNamedIsLast | services/pokeapi.ts:92 | the entry LastNamed picks is the last one with that name: no later entry carries it |
| PokeApi.BasePart | services/pokeapi.ts:91-92 | after the first loop each base name appears once, in first-insertion order, holding its last entry |
| Seqs.DedupFirstOccurrenceOrder | services/pokeapi.ts:91-92 | the distinct names are listed in the order of their first occurrence, the key order `Map.set` keeps |
| PokeApi.NewForms | services/pokeapi.ts:93-97 | the forms the second loop adds carry no base name and have distinct names |
| PokeApi.NewFormsInOrder | services/pokeapi.ts:93-97 | the added forms keep the order of the form list |
| PokeApi.NewFormNames | services/pokeapi.ts:93-97 | no added form carries a base name |
| PokeApi.NewFormsCoverNewNames | services/pokeapi.ts:93-97 | every form whose name is not a base name gets its name into the catalog |
| PokeApi.Catalog | services/pokeapi.ts:90-99 | definition: the base part followed by the new forms; its properties are stated by CatalogNamesUnique, CatalogBaseWins, CatalogAddsNewForms, CatalogOfUniqueBase and MergeCatalog |
| PokeApi.CatalogNamesUnique | services/pokeapi.ts:90-99 | the merged catalog has unique names |
| PokeApi.CatalogBaseWins | services/pokeapi.ts:90-99 | every base name is in the catalog, holding a base entry: a form never replaces one |
| PokeApi.CatalogAddsNewForms | services/pokeapi.ts:93-97 | every name carried only by forms reaches the catalog |
| PokeApi.CatalogOfUniqueBase | services/pokeapi.ts:90-99 | with unique base names the catalog is the base list, in order, followed by the new forms in order |
| PokeApi.UniqueLastNamed | services/pokeapi.ts:92 | with unique names, the entry a name leaves in the map is that name's own entry |
| PokeApi.BaseMergeStep | services/pokeapi.ts:92 | one `set` of a base entry keeps the first loop's invariant |
| PokeApi.FormMergeStep | services/pokeapi.ts:93-97 | one guarded `set` of a form keeps the second loop's invariant |
| PokeApi.MergeCatalog | services/pokeapi.ts:90-99 | the two `forEach` loops over an insertion-ordered map, then `values()`, produce exactly the specified catalog |
| PokeApi.CatalogFromEntries | services/pokeapi.ts:99 | reading the map's values back in key order gives the catalog |
| PokeApi.FindStat | services/pokeapi.ts:124-131 | a stat missing from the stats array reads as 0 |
| PokeApi.FindStatFirst | services/pokeapi.ts:124-131 | otherwise the value read is that of the first entry with the name |
| PokeApi.BaseStatsOf | services/pokeapi.ts:124-131 | definition: each of the six stats read by its API name; its properties are stated by MissingStatIsZero and FindStatFirst |
| PokeApi.MissingStatIsZero | services/pokeapi.ts:125-131 | each of the six base stats is 0 when its name is missing from the stats array |
| PokeApi.Sum | services/pokeapi.ts:134 | definition: the summing reduce; its meaning is stated by TotalOfStats |
| PokeApi.TotalOfStats | services/pokeapi.ts:134 | the total is the sum of the six stats |
| PokeApi.PositiveProduct | services/pokeapi.ts:135 | definition: the zero-skipping reduce; its properties are stated by PositiveProductIsProductOfPositives, PositiveProductAtLeastOne and ProductOfZeroStats |
| PokeApi.ProductSnoc | services/pokeapi.ts:135 | the reference product extends by multiplication |
| PokeApi.PositiveProductIsProductOfPositives | services/pokeapi.ts:135 | the zero-skipping reduce is the product of the strictly positive stats |
| PokeApi.PositiveProductAtLeastOne | services/pokeapi.ts:135 | the zero-skipping product is at least 1 |
| PokeApi.ProductOfZeroStats | services/pokeapi.ts:135 | stats none of which is positive give the empty product 1 |
| PokeApi.AssembleDetails | services/pokeapi.ts:124-154 | every field of the detail record, including artwork-or-front sprite, total, product, Grass Knot power of the weight and the parsed chain |
| PokeApi.ApiCache.constructor | services/pokeapi.ts:7-8 | both caches start empty |
| PokeApi.ApiCache.GetAllPokemon | services/pokeapi.ts:54-108 | a cached list is returned without anything else being consulted; a failed request fails with the fixed message and caches nothing; otherwise the merged catalog is returned and cached |
| PokeApi.ApiCache.GetFilterOptions | services/pokeapi.ts:18-34 | the same once-only caching for the three option lists; any failed list fails with the fixed message |
| PokemonList.Lookup | components/PokemonList.tsx:56 | `get` finds exactly the cached ids |
| PokemonList.IsNumericFilterActive | components/PokemonList.tsx:28-30 | definition: `isNumericFilterActive`; its meaning is stated by NumericFilterActiveIff |
| PokemonList.NumericFilterActiveIff | components/PokemonList.tsx:28-30 | the numeric filter is active exactly when some key has a non-null min or max |
| PokemonList.NumericKeysComplete | components/PokemonList.tsx:59-63 | the loop over `activeFilters.numeric` visits every numeric key |
| PokemonList.InBoundsInclusive | components/PokemonList.tsx:64-65 | bounds are inclusive and a null bound is open |
| PokemonList.Passes | components/PokemonList.tsx:55-67 | definition: the filter callback's verdict; its meaning is stated by PassesIff and CheckBounds |
| PokemonList.PassesIff | components/PokemonList.tsx:55-67 | an entry passes exactly when its details are cached and every key's value lies within its bounds |
| PokemonList.CheckBounds | components/PokemonList.tsx:55-67 | the `for…in` loop with its `continue` and early returns decides exactly that |
| PokemonList.FilterByBounds | components/PokemonList.tsx:54-69 | the filtering loop keeps exactly the passing entries, in order |
| PokemonList.Filtered | components/PokemonList.tsx:53-69 | definition: the numeric stage; its properties are stated by FilteredIsSubsequence, FilteredMembers and FilterByBounds |
| PokemonList.FilteredIsSubsequence | components/PokemonList.tsx:53-69 | the numeric filter output is a subsequence of the input, and the input itself while no bound is set |
| PokemonList.FilteredMembers | components/PokemonList.tsx:55-68 | while a bound is set, an entry stays exactly when it has cached details within every bound |
| PokemonList.Before | components/PokemonList.tsx:72-91 | definition: the corrected sort order; its properties are stated by BeforeTotal, BeforeTransitive, BeforeAgreesWithComparator and SortSorted |
| PokemonList.Comparator | components/PokemonList.tsx:72-91 | definition: the comparator as written; its properties are stated by ComparatorInconsistent and BeforeAgreesWithComparator |
| PokemonList.BeforeTotal | components/PokemonList.tsx:72-91 | the sort order relates any two entries |
| PokemonList.BeforeTransitive | components/PokemonList.tsx:72-91 | the sort order is transitive |
| PokemonList.ComparatorInconsistent | components/PokemonList.tsx:84-85 | two entries without details each compare after the other |
| PokemonList.BeforeAgreesWithComparator | components/PokemonList.tsx:72-91 | outside that case the sort order is exactly the comparator's `<= 0` |
| PokemonList.Insert | components/PokemonList.tsx:72 | inserting adds exactly one occurrence of the element |
| PokemonList.Sort | components/PokemonList.tsx:72 | the sort is a permutation |
| PokemonList.InsertSorted | components/PokemonList.tsx:72 | inserting into a sorted list keeps it sorted |
| PokemonList.SortSorted | components/PokemonList.tsx:72-91 | the sorted list is ordered by the comparator's order |
| PokemonList.SortKeepsTied | components/PokemonList.tsx:72 | for any class of entries that may all precede one another, the sorted list holds the class's members in their input order |
| PokemonList.SortStable | components/PokemonList.tsx:72 | the sort is stable: the entries the order ranks equal to any given entry appear in the output in their input order |
| PokemonList.ProcessList | components/PokemonList.tsx:50-95 | the processed list is a permutation of the filtered list, sorted |
| PokemonList.SortedByIdOrName | components/PokemonList.tsx:73-78 | by id or name the list ascends for `asc` and descends for `desc` |
| PokemonList.SortedByNumeric | components/PokemonList.tsx:80-90 | under a numeric key every entry with details precedes every entry without, in both directions, and entries with details follow their values in the chosen direction |
| PokemonList.NeedsDetails | components/PokemonList.tsx:34-37 | definition: the effect's condition; its use is stated by ListState.RequestDetails |
| PokemonList.MissingIds | components/PokemonList.tsx:38 | definition: the listed ids absent from the cache; stated by MissingIdsExact |
| PokemonList.MissingIdsExact | components/PokemonList.tsx:38 | the missing ids are, in list order, exactly the listed ids absent from the cache |
| PokemonList.ListState.constructor | components/PokemonList.tsx:26 | not fetching initially |
| PokemonList.ListState.RequestDetails | components/PokemonList.tsx:33-48 | details are requested exactly when the list is non-empty, a bound is set or the sort is not by id or name, and some id is missing; the request is the missing ids, and the fetching flag follows |
| PokemonList.FormatName | components/PokemonList.tsx:97-99 | definition: split, capitalise, join; its properties are stated by FormatNameAtHyphen and FormatNameIsTitleCase |
| PokemonList.TitleCase | components/PokemonList.tsx:97-99 | the independent reference for the display name: same length, each hyphen a space, each word's first letter upper-cased; FormatNameIsTitleCase ties it to FormatName |
| PokemonList.FormatNameAtHyphen | components/PokemonList.tsx:98 | the display name of a hyphenated name is its first word capitalised, a space, then the display name of the rest |
| PokemonList.FormatNameIsTitleCase | components/PokemonList.tsx:97-99 | split/capitalise/join equals the reference: each hyphen becomes a space and each word's first letter is upper-cased |
| FilterPanel.Toggle | components/FilterPanel.tsx:43-46 | a present value is removed (leaving a subsequence), an absent one appended at the end |
| FilterPanel.ToggleTwice | components/FilterPanel.tsx:43-46 | toggling an absent value twice restores the list |
| FilterPanel.WithDimension | components/FilterPanel.tsx:47 | only the named dimension changes |
| FilterPanel.ToggleCategorical | components/FilterPanel.tsx:41-49 | definition: the categorical edit; its effect is stated by ToggleCategoricalEffect |
| FilterPanel.ToggleCategoricalEffect | components/FilterPanel.tsx:41-49 | a toggle touches only its own dimension; search, numeric bounds and the other dimensions stay |
| FilterPanel.SelectAll | components/FilterPanel.tsx:51-56 | select-all empties the dimension when its count equals the option count and selects every option otherwise; nothing else changes |
| FilterPanel.SelectAllTwice | components/FilterPanel.tsx:51-56 | from an empty selection, select-all twice leaves it empty |
| FilterPanel.WithSide | components/FilterPanel.tsx:64 | only the named side of a bound changes |
| FilterPanel.WithBound | components/FilterPanel.tsx:62-65 | only the named key's bound changes |
| FilterPanel.NumericInput | components/FilterPanel.tsx:59 | definition: `''` gives null, anything else `parseInt(value, 10)`; stated through NumericChangeEffect and NumericEditOfNumber |
| FilterPanel.NumericChange | components/FilterPanel.tsx:58-67 | definition: the numeric edit; its effect is stated by NumericChangeEffect and NumericEditOfNumber |
| FilterPanel.NumericChangeEffect | components/FilterPanel.tsx:58-67 | a numeric edit sets only the named side of the named key, null for "" and the parsed number otherwise |
| FilterPanel.NumericEditOfNumber | components/FilterPanel.tsx:58-67 | typing a number's digits sets that side to the number |
| FilterPanel.NextSort | components/FilterPanel.tsx:69-75 | the active key flips direction; another key starts ascending |
| FilterPanel.NextSortTwice | components/FilterPanel.tsx:69-75 | clicking the active key twice restores the sort state |
| FilterPanel.ToggleSection | components/FilterPanel.tsx:82-84 | an open section closes; otherwise exactly that section opens |
| FilterPanel.ToggleSectionExclusive | components/FilterPanel.tsx:82-84 | opening a section closes whichever was open; toggling a closed one twice leaves it closed |
| FilterPanel.InitialFiltersEmpty | components/FilterPanel.tsx:13-24 | the initial filters have an empty search, no category and all eight bounds null; the default sort is id ascending |
| FilterPanel.FilterPanelState.constructor | components/FilterPanel.tsx:34-35 | initial staged filters, no open section |
| FilterPanel.FilterPanelState.SearchChange | components/FilterPanel.tsx:37-39 | only the search text changes |
| FilterPanel.FilterPanelState.CategoricalChange | components/FilterPanel.tsx:41-49 | the staged filters take the toggle |
| FilterPanel.FilterPanelState.SelectAllClicked | components/FilterPanel.tsx:51-56 | the staged filters take select-all |
| FilterPanel.FilterPanelState.NumericEdited | components/FilterPanel.tsx:58-67 | the staged filters take the numeric edit |
| FilterPanel.FilterPanelState.Reset | components/FilterPanel.tsx:77-80 | the staged filters return to the initial value |
| FilterPanel.FilterPanelState.SectionClicked | components/FilterPanel.tsx:82-84 | the open section toggles, the filters stay |
| App.CategoricalRequests | App.tsx:93-97 | one request per selected value: first the type values on the type endpoint, then the colours on the colour endpoint, then the egg groups on the egg-group endpoint, each in selection order; none exactly when nothing is selected |
| App.NameSet | App.tsx:105 | a result's name set holds exactly the names it returned |
| App.Intersection | App.tsx:106-108 | definition: the reduce without an initial value; its meaning is stated by IntersectionMembers |
| App.IntersectionMembers | App.tsx:106-108 | a name survives the reduce exactly when every result set holds it |
| App.MasterLookup | App.tsx:110-111 | the looked-up entries are master entries whose names were in the intersection |
| App.MasterLookupFinds | App.tsx:110-111 | every intersected name the master list knows is found |
| App.CategoricalStage | App.tsx:99-112 | definition: the categorical stage; its meaning is stated by CategoricalStageIsIntersection and NoCategoricalSelection |
| App.CategoricalStageIsIntersection | App.tsx:93-111 | with values selected the result holds exactly the master entries whose name every single query returned, across all three dimensions (intersection, no union) |
| App.NoCategoricalSelection | App.tsx:87-99 | with nothing selected the categorical stage is the master list itself |
| App.SearchTerm | App.tsx:115 | definition: `filters.search.toLowerCase().trim()`, whose trimming is stated by Trim |
| App.SearchStage | App.tsx:116-121 | definition: the search stage; its meaning is stated by SearchStageMembers and SearchById |
| App.SearchStageMembers | App.tsx:115-121 | an empty term keeps the list; otherwise an entry stays exactly when its lower-case name contains the term or its decimal id is the term; the result is a subsequence |
| App.SearchById | App.tsx:119 | searching an entry's id finds it |
| App.ToFetch | App.tsx:65-67 | definition: the ids the handler fetches; stated by ToFetchExact and ToFetchCached |
| App.ToFetchExact | App.tsx:65-67 | only ids absent from the cache are fetched, in request order |
| App.ToFetchCached | App.tsx:65-67 | a request of cached ids fetches nothing |
| App.SetAll | App.tsx:71-73 | the merged cache's keys are the old keys plus the fetched ids |
| App.SetAllGrows | App.tsx:62-81 | the merge only adds: unfetched entries keep their values and each fetched id holds a fetched detail |
| App.MergeDetails | App.tsx:64-73 | the `forEach` of `set` calls builds the specified merge |
| App.FilterMaster | App.tsx:87-121 | `resultList`, reassigned stage by stage, is the search stage applied to the categorical stage |
| App.AppState.constructor | App.tsx:31-42 | the initial state, with the initial filters and id-ascending sort |
| App.AppState.LoadInitialData | App.tsx:45-60 | both loads succeeding set the master and displayed lists and the options; otherwise only the error is set; loading ends either way |
| App.AppState.DetailsRequired | App.tsx:62-81 | success merges the fetched details into the cache; failure keeps the cache and sets the error; the filtering flag ends cleared |
| App.AppState.ApplyFilters | App.tsx:83-125 | the displayed list becomes the search stage of the categorical stage of the master list; the filters are recorded |
| App.AppState.ResetFilters | App.tsx:127-131 | initial filters, id-ascending sort, and the master list displayed |
| App.AppState.SetSort | App.tsx:177 | the sort state is replaced |
| App.AppState.SelectPokemon | App.tsx:133-147 | ignored while a detail load is in progress; a cache hit selects at once without a fetch; a miss starts a fetch with the selected record cleared and the id recorded |
| App.AppState.CompleteSelect | App.tsx:141-157 | a fetched detail enters the cache and is selected; a failure clears both selected record and id and sets the error message or the fallback text |

## Left out

- All HTTP: `fetch`, status checks, `response.json()` and URL construction to pokeapi.co. Each response is a decoded input value and a failed request is `None`/`Failure`. `console.error` logging is left out too.
- `Promise.all`/`Promise.allSettled` concurrency and async ordering. The model takes the sequential outcome: either all requests succeed, or one failure leaves the state unchanged. A settled form request is `Some` or `None`.
- Races between overlapping handlers are left out. `handlePokemonSelect` is split at its `await` into `SelectPokemon` and `CompleteSelect`, which does not model a stale selection being completed.
- `isLoadingList` is set to true at the start of `fetchInitialData`. That only matters while the `await` is pending, so only its final `false` is stated.
- PokemonUtils.CalculateOtherStat: the nature multipliers 0.9 and 1.1 are taken as exact fractions, floor(x·9/10) and floor(x·11/10), rather than floating point.
- PokemonUtils.GrassKnotPower: the weight is kept in hectograms as the API gives it, so the kilogram thresholds 10/25/50/100/200 become 100/250/500/1000/2000. `Details` also keeps height in decimetres and weight in hectograms, where the source divides both by 10.
- PokemonUtils.TextAfter: `buildTriggerText`'s eighteen successive `+=` steps are modelled as a left fold over the clause order rather than as a method that updates a local variable. The fold keeps each proof step to one clause. `BuildTriggerTextIsTriggerText` connects the fold to the specification.
- Text.LexLeq: `localeCompare` is modelled as lexicographic order on character codes, with no locale collation. `toLowerCase`, `toUpperCase` and `trim` are modelled on ASCII letters and ASCII whitespace only.
- Text.ParseInt: the radix-less `parseInt` of services/pokeapi.ts:65 is read as radix 10, so a `0x` prefix is not treated specially. Digits are ASCII only.
- PokeApi.BaseListItem: it requires its URL to yield an id. A NaN id in the base list is not modelled as a number; that id is `None` in `CategoryEntry`.
- FilterPanel.NumericInput: it requires an empty string or one that parses. The input is `type="number"`, so a non-numeric string that would give NaN is not modelled; neither is a fractional string such as ".5".
- PokemonList.Sort: JavaScript's in-place `Array.prototype.sort` is modelled as a stable insertion sort on a sequence; SortStable states the stability. The order is the comparator's, except for two entries without details (see Findings), which may be in either order. The model does not pin down the engine's actual placement of such entries.
- JavaScript numbers are modelled as unbounded integers: there is no floating-point rounding of large totals or products.
- Response decoding in getPokemonByFilter is not modelled: `CategoryEntries` takes each decoded entry's `{ name, url }` as given. For the `type` endpoint, PokéAPI lists entries as `{ pokemon, slot }` wrappers. For those, `entry.pokemon_species || entry` is the wrapper itself, so `url` is undefined and `url.split` throws inside the `try` (services/pokeapi.ts:39-45). The `catch` then returns `[]` (services/pokeapi.ts:47-50). Read that way, and not executed, every selected type adds an empty name set. Any type selection would then empty the categorical stage (App.tsx:105-111).
- The `known_move_type` and `party_type` evolution fields are never read by the source, so the model has no clause for them.
- Rendering and presentation are not part of this model: JSX, `StatChart.tsx` (timers, DOM measurement, animation; its total and product repeat services/pokeapi.ts:134-135), `PokemonDetailView.tsx` (audio, gender percentage), `InBattleStats.tsx` (a slider over `calculateStats`), `EvolutionChainDisplay.tsx`, the common components, `InfoPanel.tsx` and `constants.ts` (colour and label tables).

## Findings

| source | as written | input that shows it | evidently intended | confidence | as-written member | corrected member |
|---|---|---|---|---|---|---|
| components/PokemonList.tsx:84-85 | the comparator returns 1 whenever `a` has no cached details, even when `b` has none either | a numeric sort of two entries, neither in the cache: `compare(a, b) = 1` and `compare(b, a) = 1` | detail-less entries tie among themselves and go after every entry with details; that order is total and transitive (BeforeTotal, BeforeTransitive) and agrees with the comparator everywhere else (BeforeAgreesWithComparator) | not executed | PokemonList.ComparatorInconsistent | PokemonList.Before |
