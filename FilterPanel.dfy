/**
 * components/FilterPanel.tsx: the staged filter record the panel edits before it
 * is applied, the sort-click rule and the single open section.
 */
module FilterPanel {
  import opened Wrappers
  import opened Types
  import opened Seqs
  import opened Text

  /** `currentValues.includes(value) ? filter(v => v !== value) : [...currentValues, value]` */
  function Toggle(values: seq<string>, v: string): (r: seq<string>)
    ensures v in values ==> v !in r && forall x :: x in r <==> x in values && x != v
    ensures v in values ==> IsSubsequence(r, values)
    ensures v !in values ==> r == values + [v]
  {
    FilterIsSubsequence(values, Differs(v));
    if v in values then Filter(values, Differs(v)) else values + [v]
  }

  function Differs(v: string): string -> bool {
    (x: string) => x != v
  }

  /** Toggling an absent value twice gives the list back. */
  lemma ToggleTwice(values: seq<string>, v: string)
    requires v !in values
    ensures Toggle(Toggle(values, v), v) == values
  {
    FilterSnoc(values, v, Differs(v));
    FilterAll(values, Differs(v));
  }

  /** The record with one categorical dimension replaced. */
  function WithDimension(f: ActiveFilters, d: Dimension, values: seq<string>): (r: ActiveFilters)
    ensures DimensionOf(r, d) == values
    ensures forall e :: e != d ==> DimensionOf(r, e) == DimensionOf(f, e)
    ensures r.search == f.search && r.numeric == f.numeric
  {
    match d
    case TypeDim => f.(types := values)
    case ColorDim => f.(colors := values)
    case EggGroupDim => f.(eggGroups := values)
  }

  /** handleCategoricalChange */
  function ToggleCategorical(f: ActiveFilters, d: Dimension, v: string): ActiveFilters {
    WithDimension(f, d, Toggle(DimensionOf(f, d), v))
  }

  /** Toggling touches only its own dimension: a present value is removed, an absent
      one appended; search, numeric bounds and the other dimensions stay. */
  lemma ToggleCategoricalEffect(f: ActiveFilters, d: Dimension, v: string)
    ensures var r := ToggleCategorical(f, d, v);
      && (v in DimensionOf(f, d) ==> v !in DimensionOf(r, d))
      && (v !in DimensionOf(f, d) ==> DimensionOf(r, d) == DimensionOf(f, d) + [v])
      && (forall e :: e != d ==> DimensionOf(r, e) == DimensionOf(f, e))
      && r.search == f.search && r.numeric == f.numeric
  {
  }

  /** handleSelectAll: everything selected clears the dimension, otherwise it selects all options. */
  function SelectAll(f: ActiveFilters, options: FilterOptions, d: Dimension): (r: ActiveFilters)
    ensures |DimensionOf(f, d)| == |OptionsOf(options, d)| ==> DimensionOf(r, d) == []
    ensures |DimensionOf(f, d)| != |OptionsOf(options, d)| ==> DimensionOf(r, d) == OptionsOf(options, d)
    ensures forall e :: e != d ==> DimensionOf(r, e) == DimensionOf(f, e)
    ensures r.search == f.search && r.numeric == f.numeric
  {
    var allValues := OptionsOf(options, d);
    var newValues := if |DimensionOf(f, d)| == |allValues| then [] else allValues;
    WithDimension(f, d, newValues)
  }

  /** Select-all clicked twice from an empty selection (of a non-empty option list)
      leaves the dimension empty again. */
  lemma SelectAllTwice(f: ActiveFilters, options: FilterOptions, d: Dimension)
    requires DimensionOf(f, d) == [] && OptionsOf(options, d) != []
    ensures DimensionOf(SelectAll(SelectAll(f, options, d), options, d), d) == []
  {
  }

  datatype Side = Min | Max

  /** What a number input holds: the empty string clears the bound. */
  function NumericInput(value: string): Option<int>
    requires value == "" || ParseInt(value).Some?
  {
    if value == "" then None else ParseInt(value)
  }

  function WithSide(b: Bound, side: Side, v: Option<int>): (r: Bound)
    ensures side == Min ==> r.min == v && r.max == b.max
    ensures side == Max ==> r.max == v && r.min == b.min
  {
    match side
    case Min => b.(min := v)
    case Max => b.(max := v)
  }

  /** The numeric record with the bound of one key replaced. */
  function WithBound(nf: NumericFilters, k: NumericKey, b: Bound): (r: NumericFilters)
    ensures BoundOf(r, k) == b
    ensures forall j :: j != k ==> BoundOf(r, j) == BoundOf(nf, j)
  {
    match k
    case BaseStat(Hp) => nf.(hp := b)
    case BaseStat(Attack) => nf.(attack := b)
    case BaseStat(Defense) => nf.(defense := b)
    case BaseStat(SpecialAttack) => nf.(specialAttack := b)
    case BaseStat(SpecialDefense) => nf.(specialDefense := b)
    case BaseStat(Speed) => nf.(speed := b)
    case Total => nf.(total := b)
    case Product => nf.(product := b)
  }

  /** handleNumericChange */
  function NumericChange(f: ActiveFilters, k: NumericKey, side: Side, value: string): ActiveFilters
    requires value == "" || ParseInt(value).Some?
  {
    f.(numeric := WithBound(f.numeric, k, WithSide(BoundOf(f.numeric, k), side, NumericInput(value))))
  }

  /** A numeric edit sets only the named side of the named key: cleared for the empty
      string, the number read otherwise; nothing else changes. */
  lemma NumericChangeEffect(f: ActiveFilters, k: NumericKey, side: Side, value: string)
    requires value == "" || ParseInt(value).Some?
    ensures var b := BoundOf(NumericChange(f, k, side, value).numeric, k);
      && (side == Min ==> b.max == BoundOf(f.numeric, k).max && (value == "" ==> b.min.None?) && (value != "" ==> b.min == ParseInt(value)))
      && (side == Max ==> b.min == BoundOf(f.numeric, k).min && (value == "" ==> b.max.None?) && (value != "" ==> b.max == ParseInt(value)))
    ensures forall j :: j != k ==> BoundOf(NumericChange(f, k, side, value).numeric, j) == BoundOf(f.numeric, j)
    ensures var r := NumericChange(f, k, side, value);
      r.search == f.search && r.types == f.types && r.colors == f.colors && r.eggGroups == f.eggGroups
  {
  }

  /** Typing the digits of a number sets that side to the number. */
  lemma NumericEditOfNumber(f: ActiveFilters, k: NumericKey, side: Side, n: int)
    ensures ParseInt(IntToString(n)) == Some(n)
    ensures BoundOf(NumericChange(f, k, side, IntToString(n)).numeric, k) == WithSide(BoundOf(f.numeric, k), side, Some(n))
  {
    ParseIntOfIntToString(n);
  }

  function Flip(d: Direction): Direction {
    if d == Asc then Desc else Asc
  }

  /** handleSortClick: the active key flips its direction, another key starts ascending. */
  function NextSort(s: SortState, key: SortKey): (r: SortState)
    ensures r.sortBy == key
    ensures r.direction == if s.sortBy == key then Flip(s.direction) else Asc
  {
    if s.sortBy == key then SortState(key, Flip(s.direction)) else SortState(key, Asc)
  }

  /** Clicking the active key twice restores the sort; clicking a new key twice
      sorts by it descending. */
  lemma NextSortTwice(s: SortState, key: SortKey)
    ensures key == s.sortBy ==> NextSort(NextSort(s, key), key) == s
    ensures key != s.sortBy ==> NextSort(NextSort(s, key), key) == SortState(key, Desc)
  {
  }

  /** toggleSection: an open section closes, any other becomes the only open one. */
  function ToggleSection(open: Option<string>, section: string): (r: Option<string>)
    ensures open == Some(section) ==> r.None?
    ensures open != Some(section) ==> r == Some(section)
  {
    if open == Some(section) then None else Some(section)
  }

  /** Opening one section closes whichever was open, and toggling twice from closed
      leaves it closed. */
  lemma ToggleSectionExclusive(open: Option<string>, a: string, b: string)
    requires a != b
    ensures ToggleSection(ToggleSection(open, a), b) == Some(b)
    ensures open != Some(a) ==> ToggleSection(ToggleSection(open, a), a).None?
  {
  }

  /** The panel's own state. */
  class FilterPanelState {
    var stagedFilters: ActiveFilters
    var openSection: Option<string>

    constructor()
      ensures stagedFilters == InitialFilters && openSection.None?
    {
      stagedFilters := InitialFilters;
      openSection := None;
    }

    method SearchChange(value: string)
      modifies this
      ensures stagedFilters == old(stagedFilters).(search := value)
      ensures openSection == old(openSection)
    {
      stagedFilters := stagedFilters.(search := value);
    }

    method CategoricalChange(d: Dimension, value: string)
      modifies this
      ensures stagedFilters == ToggleCategorical(old(stagedFilters), d, value)
      ensures openSection == old(openSection)
    {
      stagedFilters := ToggleCategorical(stagedFilters, d, value);
    }

    method SelectAllClicked(options: FilterOptions, d: Dimension)
      modifies this
      ensures stagedFilters == SelectAll(old(stagedFilters), options, d)
      ensures openSection == old(openSection)
    {
      stagedFilters := SelectAll(stagedFilters, options, d);
    }

    method NumericEdited(k: NumericKey, side: Side, value: string)
      requires value == "" || ParseInt(value).Some?
      modifies this
      ensures stagedFilters == NumericChange(old(stagedFilters), k, side, value)
      ensures openSection == old(openSection)
    {
      stagedFilters := NumericChange(stagedFilters, k, side, value);
    }

    /** handleReset, the panel's half; the other half is the application's reset. */
    method Reset()
      modifies this
      ensures stagedFilters == InitialFilters
      ensures openSection == old(openSection)
    {
      stagedFilters := InitialFilters;
    }

    method SectionClicked(section: string)
      modifies this
      ensures openSection == ToggleSection(old(openSection), section)
      ensures stagedFilters == old(stagedFilters)
    {
      openSection := ToggleSection(openSection, section);
    }
  }

  /** The reset value has no search, no categories and no bound. */
  lemma InitialFiltersEmpty()
    ensures InitialFilters.search == "" && forall d :: DimensionOf(InitialFilters, d) == []
    ensures forall k :: BoundOf(InitialFilters.numeric, k) == Bound(None, None)
    ensures DefaultSort == SortState(ById, Asc)
  {
  }
}
