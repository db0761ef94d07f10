/** Option and Result, used wherever the source has `null`, `undefined` or an error path. */
module Wrappers {

  datatype Option<+T> = None | Some(value: T) {
    /** The value, or `default` when there is none (the source's `??`). */
    function GetOr(default: T): T {
      match this
      case Some(v) => v
      case None => default
    }
  }

  datatype Result<+T> = Success(value: T) | Failure(message: string)
}

/** The records of types.ts, as values. */
module Types {
  import opened Wrappers

  /** The six base stats of one species. */
  datatype StatSet = StatSet(
    hp: int,
    attack: int,
    defense: int,
    specialAttack: int,
    specialDefense: int,
    speed: int)

  /** The four fixed stat scenarios shown for one level. */
  datatype CalculatedStats = CalculatedStats(
    scenario1: StatSet,  // 0 IVs, 0 EVs, hindering nature
    scenario2: StatSet,  // 31 IVs, 0 EVs, neutral nature
    scenario3: StatSet,  // 31 IVs, 252 EVs, neutral nature
    scenario4: StatSet)  // 31 IVs, 252 EVs, benefiting nature

  /** One of the six fields of a StatSet. */
  datatype Stat = Hp | Attack | Defense | SpecialAttack | SpecialDefense | Speed

  function StatOf(s: StatSet, k: Stat): int {
    match k
    case Hp => s.hp
    case Attack => s.attack
    case Defense => s.defense
    case SpecialAttack => s.specialAttack
    case SpecialDefense => s.specialDefense
    case Speed => s.speed
  }

  /** The eight numeric filter keys: the six stats, `total` and `product`. */
  datatype NumericKey = BaseStat(stat: Stat) | Total | Product

  /** The sort keys: `id`, `name`, or one of the eight numeric keys. */
  datatype SortKey = ById | ByName | ByNumeric(key: NumericKey)

  datatype Direction = Asc | Desc

  datatype SortState = SortState(sortBy: SortKey, direction: Direction)

  /** `{ min: number | null, max: number | null }` */
  datatype Bound = Bound(min: Option<int>, max: Option<int>)

  datatype NumericFilters = NumericFilters(
    hp: Bound,
    attack: Bound,
    defense: Bound,
    specialAttack: Bound,
    specialDefense: Bound,
    speed: Bound,
    total: Bound,
    product: Bound)

  function BoundOf(nf: NumericFilters, k: NumericKey): Bound {
    match k
    case BaseStat(Hp) => nf.hp
    case BaseStat(Attack) => nf.attack
    case BaseStat(Defense) => nf.defense
    case BaseStat(SpecialAttack) => nf.specialAttack
    case BaseStat(SpecialDefense) => nf.specialDefense
    case BaseStat(Speed) => nf.speed
    case Total => nf.total
    case Product => nf.product
  }

  /** The three categorical dimensions of ActiveFilters. */
  datatype Dimension = TypeDim | ColorDim | EggGroupDim

  datatype ActiveFilters = ActiveFilters(
    search: string,
    types: seq<string>,
    colors: seq<string>,
    eggGroups: seq<string>,
    numeric: NumericFilters)

  function DimensionOf(f: ActiveFilters, d: Dimension): seq<string> {
    match d
    case TypeDim => f.types
    case ColorDim => f.colors
    case EggGroupDim => f.eggGroups
  }

  datatype FilterOptions = FilterOptions(types: seq<string>, colors: seq<string>, eggGroups: seq<string>)

  function OptionsOf(o: FilterOptions, d: Dimension): seq<string> {
    match d
    case TypeDim => o.types
    case ColorDim => o.colors
    case EggGroupDim => o.eggGroups
  }

  /** An entry of the master list. */
  datatype ListItem = ListItem(id: int, name: string, spriteUrl: string)

  datatype Ability = Ability(name: string, isHidden: bool)

  datatype EvolutionStage = EvolutionStage(name: string, spriteUrl: string, triggers: seq<string>)

  /** A `{ name, url }` reference as the API returns it. */
  datatype NamedResource = NamedResource(name: string, url: string)

  /**
   * How a species is reached. A reference field `{ name } | null` is kept as the
   * Option of its name; the fields buildTriggerText never reads are not kept.
   */
  datatype EvolutionDetail = EvolutionDetail(
    item: Option<string>,
    trigger: Option<string>,
    gender: Option<int>,
    heldItem: Option<string>,
    knownMove: Option<string>,
    location: Option<string>,
    minLevel: Option<int>,
    minHappiness: Option<int>,
    minBeauty: Option<int>,
    minAffection: Option<int>,
    needsOverworldRain: bool,
    partySpecies: Option<string>,
    relativePhysicalStats: Option<int>,
    timeOfDay: string,
    tradeSpecies: Option<string>,
    turnUpsideDown: bool)

  /** A node of an evolution-chain tree; the details say how this node is reached. */
  datatype ChainLink = ChainLink(
    species: NamedResource,
    evolvesTo: seq<ChainLink>,
    evolutionDetails: seq<EvolutionDetail>)

  /**
   * The detail record kept in the cache. Height and weight stay in the API's
   * decimetres and hectograms.
   */
  datatype Details = Details(
    id: int,
    name: string,
    spriteUrl: Option<string>,
    types: seq<string>,
    heightDm: int,
    weightHg: int,
    abilities: seq<Ability>,
    baseStats: StatSet,
    genderRatio: int,
    color: string,
    eggGroups: seq<string>,
    evolutionChain: seq<EvolutionStage>,
    grassKnotPower: int,
    baseStatTotal: int,
    baseStatProduct: int,
    cryUrl: Option<string>)

  /** The empty filter state: no search, no categories, all eight bounds open. */
  const OpenBound := Bound(None, None)
  const InitialNumeric := NumericFilters(OpenBound, OpenBound, OpenBound, OpenBound,
                                         OpenBound, OpenBound, OpenBound, OpenBound)
  const InitialFilters := ActiveFilters("", [], [], [], InitialNumeric)
  const DefaultSort := SortState(ById, Asc)
}
