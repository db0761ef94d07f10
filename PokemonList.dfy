/**
 * components/PokemonList.tsx: which details the list asks for, the numeric
 * filter over the partially filled detail cache, the sort and the display name.
 */
module PokemonList {
  import opened Wrappers
  import opened Types
  import opened Seqs
  import opened Text

  /** The detail cache, keyed by id. */
  type Database = map<int, Details>

  function Lookup(db: Database, id: int): (d: Option<Details>)
    ensures d.Some? <==> id in db
    ensures d.Some? ==> d.value == db[id]
  {
    if id in db then Some(db[id]) else None
  }

  // ---------------------------------------------------------------------------
  // Numeric filters

  /** The eight keys in the order the numeric filter record declares them,
      which is the order `for...in` visits them. */
  const NumericKeys: seq<NumericKey> := [BaseStat(Hp), BaseStat(Attack), BaseStat(Defense),
    BaseStat(SpecialAttack), BaseStat(SpecialDefense), BaseStat(Speed), Total, Product]

  lemma NumericKeysComplete(k: NumericKey)
    ensures k in NumericKeys
  {
    match k
    case BaseStat(Hp) => assert NumericKeys[0] == k;
    case BaseStat(Attack) => assert NumericKeys[1] == k;
    case BaseStat(Defense) => assert NumericKeys[2] == k;
    case BaseStat(SpecialAttack) => assert NumericKeys[3] == k;
    case BaseStat(SpecialDefense) => assert NumericKeys[4] == k;
    case BaseStat(Speed) => assert NumericKeys[5] == k;
    case Total => assert NumericKeys[6] == k;
    case Product => assert NumericKeys[7] == k;
  }

  /** A bound with a min or a max. */
  predicate IsSet(b: Bound) {
    b.min.Some? || b.max.Some?
  }

  /** `Object.values(numeric).some(f => f.min !== null || f.max !== null)` */
  function IsNumericFilterActive(nf: NumericFilters): bool {
    IsSet(nf.hp) || IsSet(nf.attack) || IsSet(nf.defense) || IsSet(nf.specialAttack)
    || IsSet(nf.specialDefense) || IsSet(nf.speed) || IsSet(nf.total) || IsSet(nf.product)
  }

  /** The numeric filter is active exactly when one of the eight bounds has a min or a max. */
  lemma NumericFilterActiveIff(nf: NumericFilters)
    ensures IsNumericFilterActive(nf) <==> exists k :: IsSet(BoundOf(nf, k))
  {
    if IsNumericFilterActive(nf) {
      if IsSet(nf.hp) { assert IsSet(BoundOf(nf, BaseStat(Hp))); }
      else if IsSet(nf.attack) { assert IsSet(BoundOf(nf, BaseStat(Attack))); }
      else if IsSet(nf.defense) { assert IsSet(BoundOf(nf, BaseStat(Defense))); }
      else if IsSet(nf.specialAttack) { assert IsSet(BoundOf(nf, BaseStat(SpecialAttack))); }
      else if IsSet(nf.specialDefense) { assert IsSet(BoundOf(nf, BaseStat(SpecialDefense))); }
      else if IsSet(nf.speed) { assert IsSet(BoundOf(nf, BaseStat(Speed))); }
      else if IsSet(nf.total) { assert IsSet(BoundOf(nf, Total)); }
      else { assert IsSet(BoundOf(nf, Product)); }
    }
  }

  /** The value a key reads: `total` and `product` their own fields, a stat its base stat. */
  function NumericValue(d: Details, k: NumericKey): int {
    match k
    case Total => d.baseStatTotal
    case Product => d.baseStatProduct
    case BaseStat(s) => StatOf(d.baseStats, s)
  }

  /** The two early returns of the filter callback, negated. */
  predicate InBounds(v: int, b: Bound) {
    !(b.min.Some? && v < b.min.value) && !(b.max.Some? && v > b.max.value)
  }

  /** Bounds are inclusive and a missing bound is open. */
  lemma InBoundsInclusive(v: int, b: Bound)
    ensures InBounds(v, b) <==> (b.min.None? || b.min.value <= v) && (b.max.None? || v <= b.max.value)
    ensures b.min == Some(v) ==> (InBounds(v, b) <==> b.max.None? || v <= b.max.value)
    ensures b == OpenBound ==> InBounds(v, b)
  {
  }

  /** The filter callback's verdict: the entry has details and every bound admits its value. */
  predicate Passes(details: Option<Details>, nf: NumericFilters) {
    details.Some? && forall k :: k in NumericKeys ==> InBounds(NumericValue(details.value, k), BoundOf(nf, k))
  }

  /** Every one of the eight keys is checked. */
  lemma PassesIff(details: Option<Details>, nf: NumericFilters)
    ensures Passes(details, nf) <==>
      details.Some? && forall k: NumericKey :: InBounds(NumericValue(details.value, k), BoundOf(nf, k))
  {
    if Passes(details, nf) {
      forall k: NumericKey ensures InBounds(NumericValue(details.value, k), BoundOf(nf, k)) {
        NumericKeysComplete(k);
      }
    }
  }

  /** The callback of `list.filter`: its `for...in` over the bounds with early returns. */
  method CheckBounds(details: Option<Details>, nf: NumericFilters) returns (keep: bool)
    ensures keep == Passes(details, nf)
  {
    if details.None? {
      return false;
    }
    var d := details.value;
    for i := 0 to |NumericKeys|
      invariant forall j :: 0 <= j < i ==> InBounds(NumericValue(d, NumericKeys[j]), BoundOf(nf, NumericKeys[j]))
    {
      var key := NumericKeys[i];
      var filter := BoundOf(nf, key);
      if filter.min.None? && filter.max.None? {
        continue;
      }
      var value := NumericValue(d, key);
      if filter.min.Some? && value < filter.min.value {
        return false;
      }
      if filter.max.Some? && value > filter.max.value {
        return false;
      }
    }
    return true;
  }

  function ItemPasses(db: Database, nf: NumericFilters): ListItem -> bool {
    (p: ListItem) => Passes(Lookup(db, p.id), nf)
  }

  /** The list after the numeric stage: filtered only while a bound is set. */
  function Filtered(list: seq<ListItem>, db: Database, nf: NumericFilters): seq<ListItem> {
    if IsNumericFilterActive(nf) then Filter(list, ItemPasses(db, nf)) else list
  }

  /** The numeric stage only drops entries, and keeps the rest in order. */
  lemma FilteredIsSubsequence(list: seq<ListItem>, db: Database, nf: NumericFilters)
    ensures IsSubsequence(Filtered(list, db, nf), list)
    ensures !IsNumericFilterActive(nf) ==> Filtered(list, db, nf) == list
  {
    FilterIsSubsequence(list, ItemPasses(db, nf));
    SubsequenceRefl(list);
  }

  /** While a bound is set, an entry survives exactly when its details are cached and
      each of its eight values lies within the bound for it. */
  lemma FilteredMembers(list: seq<ListItem>, db: Database, nf: NumericFilters, p: ListItem)
    requires IsNumericFilterActive(nf)
    ensures p in Filtered(list, db, nf) <==>
      p in list && p.id in db && forall k: NumericKey :: InBounds(NumericValue(db[p.id], k), BoundOf(nf, k))
  {
    PassesIff(Lookup(db, p.id), nf);
  }

  // ---------------------------------------------------------------------------
  // Sorting

  /** The detail value a numeric sort reads, when the details are cached. */
  function SortValue(db: Database, p: ListItem, k: NumericKey): Option<int> {
    if p.id in db then Some(NumericValue(db[p.id], k)) else None
  }

  /**
   * `a` may precede `b`: the comparator's verdict `<= 0`, except that two
   * entries without details are left in either order.
   */
  predicate Before(db: Database, s: SortState, a: ListItem, b: ListItem) {
    match s.sortBy
    case ById => if s.direction == Asc then a.id <= b.id else b.id <= a.id
    case ByName => if s.direction == Asc then LexLeq(a.name, b.name) else LexLeq(b.name, a.name)
    case ByNumeric(k) =>
      var va := SortValue(db, a, k);
      var vb := SortValue(db, b, k);
      if va.None? then vb.None?
      else if vb.None? then true
      else if s.direction == Asc then va.value <= vb.value
      else vb.value <= va.value
  }

  lemma BeforeTotal(db: Database, s: SortState, a: ListItem, b: ListItem)
    ensures Before(db, s, a, b) || Before(db, s, b, a)
  {
    if s.sortBy == ByName {
      LexLeqTotal(a.name, b.name);
    }
  }

  lemma BeforeTransitive(db: Database, s: SortState, a: ListItem, b: ListItem, c: ListItem)
    requires Before(db, s, a, b) && Before(db, s, b, c)
    ensures Before(db, s, a, c)
  {
    if s.sortBy == ByName {
      if s.direction == Asc {
        LexLeqTransitive(a.name, b.name, c.name);
      } else {
        LexLeqTransitive(c.name, b.name, a.name);
      }
    }
  }

  /** `a.localeCompare(b)` as -1, 0 or 1, read as lexicographic order. */
  function LocaleCompare(a: string, b: string): int {
    if a == b then 0 else if LexLeq(a, b) then -1 else 1
  }

  /** The comparator passed to `list.sort`, as written: a negative result puts `a` first. */
  function Comparator(db: Database, s: SortState, a: ListItem, b: ListItem): int {
    match s.sortBy
    case ById => if s.direction == Asc then a.id - b.id else b.id - a.id
    case ByName => if s.direction == Asc then LocaleCompare(a.name, b.name) else LocaleCompare(b.name, a.name)
    case ByNumeric(k) =>
      if a.id !in db then 1
      else if b.id !in db then -1
      else
        var va := NumericValue(db[a.id], k);
        var vb := NumericValue(db[b.id], k);
        if s.direction == Asc then va - vb else vb - va
  }

  /** Two entries without details each compare after the other: the comparator is
      not a consistent ordering there. */
  lemma ComparatorInconsistent(db: Database, s: SortState, a: ListItem, b: ListItem)
    requires s.sortBy.ByNumeric? && a.id !in db && b.id !in db
    ensures Comparator(db, s, a, b) > 0 && Comparator(db, s, b, a) > 0
  {
  }

  /** Everywhere else Before is exactly the comparator's `<= 0`. */
  lemma BeforeAgreesWithComparator(db: Database, s: SortState, a: ListItem, b: ListItem)
    requires !(s.sortBy.ByNumeric? && a.id !in db && b.id !in db)
    ensures Before(db, s, a, b) <==> Comparator(db, s, a, b) <= 0
  {
    if s.sortBy == ByName {
      LexLeqTotal(a.name, a.name);
      LexLeqTotal(b.name, b.name);
    }
  }

  predicate SortedBy(db: Database, s: SortState, r: seq<ListItem>) {
    forall i, j :: 0 <= i < j < |r| ==> Before(db, s, r[i], r[j])
  }

  /** `x` placed before the first element it may precede. */
  function Insert(db: Database, s: SortState, x: ListItem, r: seq<ListItem>): (t: seq<ListItem>)
    ensures multiset(t) == multiset(r) + multiset{x}
    ensures |t| == |r| + 1
  {
    if r == [] then [x]
    else if Before(db, s, x, r[0]) then [x] + r
    else
      assert r == [r[0]] + r[1..];
      [r[0]] + Insert(db, s, x, r[1..])
  }

  /** `list.sort(comparator)`, as a stable insertion sort. */
  function Sort(db: Database, s: SortState, r: seq<ListItem>): (t: seq<ListItem>)
    ensures multiset(t) == multiset(r)
  {
    if r == [] then []
    else
      assert r == [r[0]] + r[1..];
      Insert(db, s, r[0], Sort(db, s, r[1..]))
  }

  lemma {:induction false} InsertSorted(db: Database, s: SortState, x: ListItem, r: seq<ListItem>)
    requires SortedBy(db, s, r)
    ensures SortedBy(db, s, Insert(db, s, x, r))
  {
    if r != [] {
      if Before(db, s, x, r[0]) {
        InsertAtFront(db, s, x, r);
      } else {
        InsertSorted(db, s, x, r[1..]);
        InsertBehind(db, s, x, r);
      }
    }
  }

  lemma InsertAtFront(db: Database, s: SortState, x: ListItem, r: seq<ListItem>)
    requires SortedBy(db, s, r) && r != [] && Before(db, s, x, r[0])
    ensures SortedBy(db, s, [x] + r)
  {
    var t := [x] + r;
    forall j | 1 <= j < |t| ensures Before(db, s, x, t[j]) {
      if j > 1 {
        BeforeTransitive(db, s, x, r[0], r[j - 1]);
      }
    }
  }

  lemma InsertBehind(db: Database, s: SortState, x: ListItem, r: seq<ListItem>)
    requires SortedBy(db, s, r) && r != [] && !Before(db, s, x, r[0])
    requires SortedBy(db, s, Insert(db, s, x, r[1..]))
    ensures SortedBy(db, s, [r[0]] + Insert(db, s, x, r[1..]))
  {
    BeforeTotal(db, s, x, r[0]);
    var u := Insert(db, s, x, r[1..]);
    forall j | 0 <= j < |u| ensures Before(db, s, r[0], u[j]) {
      assert u[j] in multiset(u);
      if u[j] != x {
        assert u[j] in multiset(r[1..]);
        var m :| 0 <= m < |r[1..]| && r[1..][m] == u[j];
        assert r[m + 1] == u[j];
      }
    }
    var t := [r[0]] + u;
    forall i, j | 0 <= i < j < |t| ensures Before(db, s, t[i], t[j]) {
      if i > 0 {
        assert t[i] == u[i - 1] && t[j] == u[j - 1];
      }
    }
  }

  lemma {:induction false} SortSorted(db: Database, s: SortState, r: seq<ListItem>)
    ensures SortedBy(db, s, Sort(db, s, r))
  {
    if r != [] {
      SortSorted(db, s, r[1..]);
      InsertSorted(db, s, r[0], Sort(db, s, r[1..]));
    }
  }

  /** A set of entries any two of which may precede each other. */
  ghost predicate Tied(db: Database, s: SortState, e: ListItem -> bool) {
    forall y, z {:trigger Before(db, s, y, z)} :: e(y) && e(z) ==> Before(db, s, y, z)
  }

  /** Inserting `a` keeps the relative order within a tied class: `a` goes in front
      of every member of its own class. */
  lemma {:induction false} InsertKeepsTied(db: Database, s: SortState, e: ListItem -> bool, a: ListItem, u: seq<ListItem>)
    requires Tied(db, s, e)
    ensures Filter(Insert(db, s, a, u), e) == (if e(a) then [a] else []) + Filter(u, e)
  {
    if u != [] {
      if Before(db, s, a, u[0]) {
        FilterCons(a, u, e);
      } else {
        var t := Insert(db, s, a, u[1..]);
        var rest := Filter(u[1..], e);
        assert Insert(db, s, a, u) == [u[0]] + t;
        InsertKeepsTied(db, s, e, a, u[1..]);
        FilterCons(u[0], t, e);
        FilterCons(u[0], u[1..], e);
        assert [u[0]] + u[1..] == u;
        if e(a) {
          assert !e(u[0]);
          assert Filter(t, e) == [a] + rest;
          assert Filter(u, e) == rest;
        } else {
          assert Filter(t, e) == rest;
        }
      }
    }
  }

  /** Sorting keeps the input order within a tied class. */
  lemma {:induction false} SortKeepsTied(db: Database, s: SortState, e: ListItem -> bool, r: seq<ListItem>)
    requires Tied(db, s, e)
    ensures Filter(Sort(db, s, r), e) == Filter(r, e)
  {
    if r != [] {
      SortKeepsTied(db, s, e, r[1..]);
      InsertKeepsTied(db, s, e, r[0], Sort(db, s, r[1..]));
      FilterCons(r[0], r[1..], e);
      assert [r[0]] + r[1..] == r;
    }
  }

  /** The entries the order ranks equal to `x`: each may precede the other. */
  function SameRank(db: Database, s: SortState, x: ListItem): ListItem -> bool {
    y => Before(db, s, x, y) && Before(db, s, y, x)
  }

  /** The sort is stable: the entries of one rank keep their input order. */
  lemma SortStable(db: Database, s: SortState, x: ListItem, r: seq<ListItem>)
    ensures Filter(Sort(db, s, r), SameRank(db, s, x)) == Filter(r, SameRank(db, s, x))
  {
    var e := SameRank(db, s, x);
    forall y, z | e(y) && e(z) ensures Before(db, s, y, z) {
      BeforeTransitive(db, s, y, x, z);
    }
    SortKeepsTied(db, s, e, r);
  }

  /** `list.filter(callback)` with the bound-checking callback. */
  method FilterByBounds(list: seq<ListItem>, db: Database, nf: NumericFilters) returns (kept: seq<ListItem>)
    ensures kept == Filter(list, ItemPasses(db, nf))
  {
    kept := [];
    for i := 0 to |list|
      invariant kept == Filter(list[..i], ItemPasses(db, nf))
    {
      var p := list[i];
      var keep := CheckBounds(Lookup(db, p.id), nf);
      FilterSnoc(list[..i], p, ItemPasses(db, nf));
      assert list[..i + 1] == list[..i] + [p];
      if keep {
        kept := kept + [p];
      }
    }
    assert list[..|list|] == list;
  }

  /** The processed list: the numeric stage, then the sort (`processedList`). */
  method ProcessList(pokemonList: seq<ListItem>, db: Database, filters: ActiveFilters, sortState: SortState)
    returns (list: seq<ListItem>)
    ensures multiset(list) == multiset(Filtered(pokemonList, db, filters.numeric))
    ensures SortedBy(db, sortState, list)
    ensures list == Sort(db, sortState, Filtered(pokemonList, db, filters.numeric))
  {
    list := pokemonList;
    if IsNumericFilterActive(filters.numeric) {
      list := FilterByBounds(list, db, filters.numeric);
    }
    list := Sort(db, sortState, list);
    SortSorted(db, sortState, Filtered(pokemonList, db, filters.numeric));
  }

  /** By id the order is ascending for `asc` and descending for `desc`; by name likewise. */
  lemma SortedByIdOrName(db: Database, s: SortState, r: seq<ListItem>, i: nat, j: nat)
    requires SortedBy(db, s, r) && i < j < |r|
    ensures s == SortState(ById, Asc) ==> r[i].id <= r[j].id
    ensures s == SortState(ById, Desc) ==> r[i].id >= r[j].id
    ensures s == SortState(ByName, Asc) ==> LexLeq(r[i].name, r[j].name)
    ensures s == SortState(ByName, Desc) ==> LexLeq(r[j].name, r[i].name)
  {
    assert Before(db, s, r[i], r[j]);
  }

  /** Under a numeric sort every entry with details precedes every entry without,
      in both directions, and entries with details are ordered by their value. */
  lemma SortedByNumeric(db: Database, s: SortState, r: seq<ListItem>, i: nat, j: nat)
    requires SortedBy(db, s, r) && i < j < |r| && s.sortBy.ByNumeric?
    ensures r[j].id in db ==> r[i].id in db
    ensures r[i].id in db && r[j].id in db && s.direction == Asc ==>
      NumericValue(db[r[i].id], s.sortBy.key) <= NumericValue(db[r[j].id], s.sortBy.key)
    ensures r[i].id in db && r[j].id in db && s.direction == Desc ==>
      NumericValue(db[r[i].id], s.sortBy.key) >= NumericValue(db[r[j].id], s.sortBy.key)
  {
    assert Before(db, s, r[i], r[j]);
  }

  // ---------------------------------------------------------------------------
  // Requesting details

  function ItemId(p: ListItem): int { p.id }

  function NotCached(db: Database): int -> bool {
    (id: int) => id !in db
  }

  /** `pokemonList.map(p => p.id).filter(id => !pokemonDatabase.has(id))` */
  function MissingIds(list: seq<ListItem>, db: Database): seq<int> {
    Filter(Map(list, ItemId), NotCached(db))
  }

  /** The missing ids are exactly the list's ids without a cached detail, in list order. */
  lemma MissingIdsExact(list: seq<ListItem>, db: Database)
    ensures IsSubsequence(MissingIds(list, db), Map(list, ItemId))
    ensures forall id :: id in MissingIds(list, db) <==> id !in db && exists p :: p in list && p.id == id
  {
    FilterIsSubsequence(Map(list, ItemId), NotCached(db));
    var ids := Map(list, ItemId);
    forall id ensures id in ids <==> exists p :: p in list && p.id == id {
      if id in ids {
        var i :| 0 <= i < |ids| && ids[i] == id;
        assert list[i] in list && list[i].id == id;
      }
      if p :| p in list && p.id == id {
        var i :| 0 <= i < |list| && list[i] == p;
        assert ids[i] == id;
      }
    }
  }

  /** Details are needed when the list is not empty and a bound is set or the sort
      reads a stat. */
  predicate NeedsDetails(list: seq<ListItem>, nf: NumericFilters, s: SortState) {
    |list| > 0 && (IsNumericFilterActive(nf) || (s.sortBy != ById && s.sortBy != ByName))
  }

  /** The component's own state: whether it waits for requested details. */
  class ListState {
    var isFetchingDetails: bool

    constructor()
      ensures !isFetchingDetails
    {
      isFetchingDetails := false;
    }

    /** The effect: returns the ids passed to `onDetailsRequired`, if it is called. */
    method RequestDetails(list: seq<ListItem>, db: Database, nf: NumericFilters, s: SortState)
      returns (request: Option<seq<int>>)
      modifies this
      ensures request.Some? <==> NeedsDetails(list, nf, s) && MissingIds(list, db) != []
      ensures request.Some? ==> request.value == MissingIds(list, db)
      ensures isFetchingDetails == request.Some?
    {
      var needsDetailsForFiltering := IsNumericFilterActive(nf);
      var needsDetailsForSorting := s.sortBy != ById && s.sortBy != ByName;
      if |list| > 0 && (needsDetailsForFiltering || needsDetailsForSorting) {
        var missingIds := MissingIds(list, db);
        if |missingIds| > 0 {
          isFetchingDetails := true;
          request := Some(missingIds);
        } else {
          isFetchingDetails := false;
          request := None;
        }
      } else {
        isFetchingDetails := false;
        request := None;
      }
    }
  }

  // ---------------------------------------------------------------------------
  // Display name

  function Capitalize(word: string): string {
    if word == [] then [] else [UpperChar(word[0])] + word[1..]
  }

  /** `name.split('-').map(capitalize).join(' ')` */
  function FormatName(name: string): string {
    Join(Map(Split(name, '-'), Capitalize), ' ')
  }

  /** The display name character by character: hyphens become spaces and the first
      letter of each word is upper-cased. */
  function TitleCase(name: string): (r: string)
    ensures |r| == |name|
  {
    seq(|name|, i requires 0 <= i < |name| =>
      if name[i] == '-' then ' '
      else if i == 0 || name[i - 1] == '-' then UpperChar(name[i])
      else name[i])
  }

  lemma CapitalizeAt(w: string, k: nat)
    requires k < |w|
    ensures |Capitalize(w)| == |w|
    ensures Capitalize(w)[k] == if k == 0 then UpperChar(w[0]) else w[k]
  {
  }

  /** A word without hyphens is capitalised as a whole. */
  lemma TitleCaseOfWord(w: string)
    requires '-' !in w
    ensures TitleCase(w) == Capitalize(w)
  {
    forall k | 0 <= k < |w| ensures TitleCase(w)[k] == Capitalize(w)[k] {
      CapitalizeAt(w, k);
      assert w[k] != '-';
      if k > 0 { assert w[k - 1] != '-'; }
    }
  }

  /** At the first hyphen the title case of a name splits into its first word,
      a space and the rest. */
  lemma TitleCaseAtHyphen(name: string, i: nat)
    requires i < |name| && name[i] == '-'
    requires forall j :: 0 <= j < i ==> name[j] != '-'
    ensures TitleCase(name) == Capitalize(name[..i]) + [' '] + TitleCase(name[i + 1..])
  {
    var rest := name[i + 1..];
    var l := Capitalize(name[..i]) + [' '] + TitleCase(rest);
    assert |Capitalize(name[..i])| == i by {
      if i > 0 { CapitalizeAt(name[..i], 0); }
    }
    forall k | 0 <= k < |name| ensures TitleCase(name)[k] == l[k] {
      if k < i {
        CapitalizeAt(name[..i], k);
        if k > 0 { assert name[k - 1] != '-'; }
      } else if k > i + 1 {
        assert l[k] == TitleCase(rest)[k - i - 1];
        assert rest[k - i - 1] == name[k] && rest[k - i - 2] == name[k - 1];
      } else if k == i + 1 {
        assert l[k] == TitleCase(rest)[0];
      }
    }
  }

  lemma FormatNameAtHyphen(name: string, i: nat)
    requires i < |name| && IndexOf(name, '-') == i
    ensures FormatName(name) == Capitalize(name[..i]) + [' '] + FormatName(name[i + 1..])
  {
    var rest := Split(name[i + 1..], '-');
    SplitAtFirst(name, '-', i);
    MapCons(name[..i], rest, Capitalize);
    JoinCons(Capitalize(name[..i]), Map(rest, Capitalize), ' ');
  }

  /** The display name is the title case of the name. */
  lemma {:induction false} FormatNameIsTitleCase(name: string)
    ensures FormatName(name) == TitleCase(name)
    decreases |name|
  {
    var i := IndexOf(name, '-');
    if i == |name| {
      assert Split(name, '-') == [name];
      assert Map([name], Capitalize) == [Capitalize(name)];
      TitleCaseOfWord(name);
    } else {
      FormatNameIsTitleCase(name[i + 1..]);
      FormatNameAtHyphen(name, i);
      TitleCaseAtHyphen(name, i);
    }
  }
}
