/**
 * utils/pokemonUtils.ts: the in-battle stat formulas, the Grass Knot power
 * table, the evolution trigger text and the evolution-chain flattener.
 */
module PokemonUtils {
  import opened Wrappers
  import opened Types
  import opened Text
  import opened Seqs

  // ---------------------------------------------------------------------------
  // Stat formulas

  /** floor((2*base + iv + floor(ev/4)) * level / 100), the part both formulas share.
      Dafny's `/` by a positive divisor is the floor that `Math.floor` takes. */
  function ScaledBase(base: int, level: int, iv: int, ev: int): int {
    (2 * base + iv + ev / 4) * level / 100
  }

  /** The HP formula; a base HP of 1 always gives 1. */
  function CalculateHP(base: int, level: int, iv: int, ev: int): (hp: int)
    ensures base == 1 ==> hp == 1
    ensures base != 1 && 0 <= base && 0 <= iv && 0 <= ev && 0 <= level ==> hp >= level + 10
  {
    if base == 1 then 1 else ScaledBase(base, level, iv, ev) + level + 10
  }

  /** The three nature multipliers 0.9, 1.0 and 1.1. */
  datatype Nature = Hindering | Neutral | Benefiting

  /** floor(x * multiplier), with the multiplier taken as the exact fraction. */
  function ApplyNature(x: int, n: Nature): int {
    match n
    case Hindering => x * 9 / 10
    case Neutral => x
    case Benefiting => x * 11 / 10
  }

  /** The formula for the five stats other than HP. */
  function CalculateOtherStat(base: int, level: int, iv: int, ev: int, nature: Nature): int {
    ApplyNature(ScaledBase(base, level, iv, ev) + 5, nature)
  }

  /** One scenario: every stat computed with the same IV, EV and nature. */
  function Scenario(b: StatSet, level: int, iv: int, ev: int, nature: Nature): StatSet {
    StatSet(
      CalculateHP(b.hp, level, iv, ev),
      CalculateOtherStat(b.attack, level, iv, ev, nature),
      CalculateOtherStat(b.defense, level, iv, ev, nature),
      CalculateOtherStat(b.specialAttack, level, iv, ev, nature),
      CalculateOtherStat(b.specialDefense, level, iv, ev, nature),
      CalculateOtherStat(b.speed, level, iv, ev, nature))
  }

  /** The four fixed scenarios of calculateStats. */
  function CalculateStats(b: StatSet, level: int): CalculatedStats {
    CalculatedStats(
      Scenario(b, level, 0, 0, Hindering),
      Scenario(b, level, 31, 0, Neutral),
      Scenario(b, level, 31, 252, Neutral),
      Scenario(b, level, 31, 252, Benefiting))
  }

  predicate NonNegative(b: StatSet) {
    b.hp >= 0 && b.attack >= 0 && b.defense >= 0
    && b.specialAttack >= 0 && b.specialDefense >= 0 && b.speed >= 0
  }

  /** Every stat of `a` is at most the same stat of `b`. */
  predicate StatsAtMost(a: StatSet, b: StatSet) {
    a.hp <= b.hp && a.attack <= b.attack && a.defense <= b.defense
    && a.specialAttack <= b.specialAttack && a.specialDefense <= b.specialDefense && a.speed <= b.speed
  }

  lemma MulDivMonotone(x: int, y: int, level: int)
    requires x <= y && 0 <= level
    ensures x * level / 100 <= y * level / 100
  {
    assert (y - x) * level >= 0;
    assert x * level <= y * level;
  }

  lemma ScaledBaseNonNegative(base: int, level: int, iv: int, ev: int)
    requires 0 <= base && 0 <= iv && 0 <= ev && 0 <= level
    ensures ScaledBase(base, level, iv, ev) >= 0
  {
    MulDivMonotone(0, 2 * base + iv + ev / 4, level);
  }

  /** More IVs and EVs never lower the shared part. */
  lemma ScaledBaseMonotone(base: int, level: int, iv1: int, ev1: int, iv2: int, ev2: int)
    requires iv1 <= iv2 && ev1 <= ev2 && 0 <= level
    ensures ScaledBase(base, level, iv1, ev1) <= ScaledBase(base, level, iv2, ev2)
  {
    assert ev1 / 4 <= ev2 / 4;
    MulDivMonotone(2 * base + iv1 + ev1 / 4, 2 * base + iv2 + ev2 / 4, level);
  }

  /** A higher level never lowers the shared part, for a non-negative multiplier. */
  lemma ScaledBaseLevelMonotone(base: int, iv: int, ev: int, level1: int, level2: int)
    requires 0 <= base && 0 <= iv && 0 <= ev && level1 <= level2
    ensures ScaledBase(base, level1, iv, ev) <= ScaledBase(base, level2, iv, ev)
  {
    var a := 2 * base + iv + ev / 4;
    assert a * (level2 - level1) >= 0;
    assert a * level1 <= a * level2;
  }

  /** The nature multipliers are ordered 0.9 <= 1.0 <= 1.1 on non-negative values. */
  lemma NatureOrdered(x: int)
    requires x >= 0
    ensures ApplyNature(x, Hindering) <= ApplyNature(x, Neutral) <= ApplyNature(x, Benefiting)
  {
  }

  lemma NatureMonotone(x: int, y: int, n: Nature)
    requires x <= y
    ensures ApplyNature(x, n) <= ApplyNature(y, n)
  {
  }

  /** The HP of the four scenarios, for one non-negative base. */
  lemma HpScenariosOrdered(base: int, level: int)
    requires 0 <= base && 0 <= level
    ensures CalculateHP(base, level, 0, 0) <= CalculateHP(base, level, 31, 0) <= CalculateHP(base, level, 31, 252)
  {
    ScaledBaseMonotone(base, level, 0, 0, 31, 0);
    ScaledBaseMonotone(base, level, 31, 0, 31, 252);
  }

  /** A non-HP stat in the four scenarios, for one non-negative base. */
  lemma OtherStatScenariosOrdered(base: int, level: int)
    requires 0 <= base && 0 <= level
    ensures CalculateOtherStat(base, level, 0, 0, Hindering) <= CalculateOtherStat(base, level, 31, 0, Neutral)
    ensures CalculateOtherStat(base, level, 31, 0, Neutral) <= CalculateOtherStat(base, level, 31, 252, Neutral)
    ensures CalculateOtherStat(base, level, 31, 252, Neutral) <= CalculateOtherStat(base, level, 31, 252, Benefiting)
  {
    ScaledBaseMonotone(base, level, 0, 0, 31, 0);
    ScaledBaseMonotone(base, level, 31, 0, 31, 252);
    ScaledBaseNonNegative(base, level, 0, 0);
    ScaledBaseNonNegative(base, level, 31, 252);
    NatureOrdered(ScaledBase(base, level, 0, 0) + 5);
    NatureOrdered(ScaledBase(base, level, 31, 252) + 5);
  }

  /**
   * For non-negative bases and level, scenario 1 <= scenario 2 <= scenario 3 <=
   * scenario 4 stat by stat, and the HP of scenarios 3 and 4 is the same.
   */
  lemma ScenariosNonDecreasing(b: StatSet, level: int)
    requires NonNegative(b) && 0 <= level
    ensures var c := CalculateStats(b, level);
      && StatsAtMost(c.scenario1, c.scenario2)
      && StatsAtMost(c.scenario2, c.scenario3)
      && StatsAtMost(c.scenario3, c.scenario4)
      && c.scenario3.hp == c.scenario4.hp
  {
    HpScenariosOrdered(b.hp, level);
    OtherStatScenariosOrdered(b.attack, level);
    OtherStatScenariosOrdered(b.defense, level);
    OtherStatScenariosOrdered(b.specialAttack, level);
    OtherStatScenariosOrdered(b.specialDefense, level);
    OtherStatScenariosOrdered(b.speed, level);
  }

  /** For fixed base, IV, EV and nature, a higher level never lowers HP. */
  lemma HpLevelMonotone(base: int, iv: int, ev: int, level1: int, level2: int)
    requires 0 <= base && 0 <= iv && 0 <= ev && level1 <= level2
    ensures CalculateHP(base, level1, iv, ev) <= CalculateHP(base, level2, iv, ev)
  {
    ScaledBaseLevelMonotone(base, iv, ev, level1, level2);
  }

  /** For fixed base, IV, EV and nature, a higher level never lowers a non-HP stat. */
  lemma OtherStatLevelMonotone(base: int, iv: int, ev: int, nature: Nature, level1: int, level2: int)
    requires 0 <= base && 0 <= iv && 0 <= ev && level1 <= level2
    ensures CalculateOtherStat(base, level1, iv, ev, nature) <= CalculateOtherStat(base, level2, iv, ev, nature)
  {
    ScaledBaseLevelMonotone(base, iv, ev, level1, level2);
    NatureMonotone(ScaledBase(base, level1, iv, ev) + 5, ScaledBase(base, level2, iv, ev) + 5, nature);
  }

  /** One scenario is non-decreasing in the level, stat by stat. */
  lemma ScenarioLevelMonotone(b: StatSet, iv: int, ev: int, nature: Nature, level1: int, level2: int)
    requires NonNegative(b) && 0 <= iv && 0 <= ev && level1 <= level2
    ensures StatsAtMost(Scenario(b, level1, iv, ev, nature), Scenario(b, level2, iv, ev, nature))
  {
    HpLevelMonotone(b.hp, iv, ev, level1, level2);
    OtherStatLevelMonotone(b.attack, iv, ev, nature, level1, level2);
    OtherStatLevelMonotone(b.defense, iv, ev, nature, level1, level2);
    OtherStatLevelMonotone(b.specialAttack, iv, ev, nature, level1, level2);
    OtherStatLevelMonotone(b.specialDefense, iv, ev, nature, level1, level2);
    OtherStatLevelMonotone(b.speed, iv, ev, nature, level1, level2);
  }

  /** Each of the four scenarios is non-decreasing in the level. */
  lemma CalculateStatsLevelMonotone(b: StatSet, level1: int, level2: int)
    requires NonNegative(b) && level1 <= level2
    ensures var c1, c2 := CalculateStats(b, level1), CalculateStats(b, level2);
      && StatsAtMost(c1.scenario1, c2.scenario1)
      && StatsAtMost(c1.scenario2, c2.scenario2)
      && StatsAtMost(c1.scenario3, c2.scenario3)
      && StatsAtMost(c1.scenario4, c2.scenario4)
  {
    ScenarioLevelMonotone(b, 0, 0, Hindering, level1, level2);
    ScenarioLevelMonotone(b, 31, 0, Neutral, level1, level2);
    ScenarioLevelMonotone(b, 31, 252, Neutral, level1, level2);
    ScenarioLevelMonotone(b, 31, 252, Benefiting, level1, level2);
  }

  // ---------------------------------------------------------------------------
  // Grass Knot

  /** Grass Knot power by weight. The weight is in hectograms (the API's unit),
      so the kilogram thresholds 10/25/50/100/200 become 100/250/500/1000/2000. */
  function GrassKnotPower(weightHg: int): (power: int)
    ensures 20 <= power <= 120 && power % 20 == 0
  {
    if weightHg < 100 then 20
    else if weightHg < 250 then 40
    else if weightHg < 500 then 60
    else if weightHg < 1000 then 80
    else if weightHg < 2000 then 100
    else 120
  }

  const GrassKnotThresholds: seq<int> := [100, 250, 500, 1000, 2000]

  /** How many of `ts` are at most `w`. */
  function CountAtMost(ts: seq<int>, w: int): (n: nat)
    ensures n <= |ts|
  {
    if ts == [] then 0 else (if ts[0] <= w then 1 else 0) + CountAtMost(ts[1..], w)
  }

  /** Reference reading of the table: 20 plus 20 for every threshold reached. */
  lemma GrassKnotCountsThresholds(weightHg: int)
    ensures GrassKnotPower(weightHg) == 20 * (1 + CountAtMost(GrassKnotThresholds, weightHg))
  {
    var w := weightHg;
    assert [2000][1..] == [];
    assert CountAtMost([2000], w) == if 2000 <= w then 1 else 0;
    assert [1000, 2000][1..] == [2000];
    assert CountAtMost([1000, 2000], w) == (if 1000 <= w then 1 else 0) + CountAtMost([2000], w);
    assert [500, 1000, 2000][1..] == [1000, 2000];
    assert CountAtMost([500, 1000, 2000], w) == (if 500 <= w then 1 else 0) + CountAtMost([1000, 2000], w);
    assert [250, 500, 1000, 2000][1..] == [500, 1000, 2000];
    assert CountAtMost([250, 500, 1000, 2000], w) == (if 250 <= w then 1 else 0) + CountAtMost([500, 1000, 2000], w);
    assert GrassKnotThresholds[1..] == [250, 500, 1000, 2000];
  }

  lemma GrassKnotMonotone(w1: int, w2: int)
    requires w1 <= w2
    ensures GrassKnotPower(w1) <= GrassKnotPower(w2)
  {
  }

  /** 9.9 kg gives 20, 10 kg gives 40, 199.9 kg gives 100 and exactly 200 kg the top tier. */
  lemma GrassKnotBoundaries()
    ensures GrassKnotPower(99) == 20 && GrassKnotPower(100) == 40
    ensures GrassKnotPower(1999) == 100 && GrassKnotPower(2000) == 120
  {
  }

  // ---------------------------------------------------------------------------
  // Evolution trigger text

  /** The optional clauses of the trigger text, in the order they are appended. */
  datatype Clause =
    | AtLevel | UsingItem | HoldingItem | Happiness | Beauty | Affection | TimeOfDay
    | AtLocation | Female | Male | KnowingMove | Rain | UpsideDown | TradeFor
    | WithPartySpecies | AttackAboveDefense | AttackBelowDefense | AttackEqualsDefense

  const ClauseOrder: seq<Clause> := [
    AtLevel, UsingItem, HoldingItem, Happiness, Beauty, Affection, TimeOfDay,
    AtLocation, Female, Male, KnowingMove, Rain, UpsideDown, TradeFor,
    WithPartySpecies, AttackAboveDefense, AttackBelowDefense, AttackEqualsDefense]

  lemma ClauseInOrder(k: Clause)
    ensures k in ClauseOrder
  {
  }

  /** JavaScript truthiness of `number | null`. */
  predicate Truthy(n: Option<int>) {
    n.Some? && n.value != 0
  }

  /** A resource name with its hyphens turned into spaces. */
  function Spaced(name: string): string {
    ReplaceAll(name, '-', ' ')
  }

  /** Whether the field behind clause `k` is set (truthy, or equal to the tested value). */
  predicate Present(d: EvolutionDetail, k: Clause) {
    match k
    case AtLevel => Truthy(d.minLevel)
    case UsingItem => d.item.Some?
    case HoldingItem => d.heldItem.Some?
    case Happiness => Truthy(d.minHappiness)
    case Beauty => Truthy(d.minBeauty)
    case Affection => Truthy(d.minAffection)
    case TimeOfDay => d.timeOfDay != ""
    case AtLocation => d.location.Some?
    case Female => d.gender == Some(1)
    case Male => d.gender == Some(2)
    case KnowingMove => d.knownMove.Some?
    case Rain => d.needsOverworldRain
    case UpsideDown => d.turnUpsideDown
    case TradeFor => d.tradeSpecies.Some?
    case WithPartySpecies => d.partySpecies.Some?
    case AttackAboveDefense => d.relativePhysicalStats == Some(1)
    case AttackBelowDefense => d.relativePhysicalStats == Some(-1)
    case AttackEqualsDefense => d.relativePhysicalStats == Some(0)
  }

  /** The text clause `k` appends; empty when its field is not set. */
  function ClauseText(d: EvolutionDetail, k: Clause): (t: string)
    ensures t != "" <==> Present(d, k)
  {
    if !Present(d, k) then ""
    else match k
      case AtLevel => " at level " + IntToString(d.minLevel.value)
      case UsingItem => " using " + Spaced(d.item.value)
      case HoldingItem => " while holding " + Spaced(d.heldItem.value)
      case Happiness => " with high happiness"
      case Beauty => " with high beauty"
      case Affection => " with high affection"
      case TimeOfDay => " during the " + d.timeOfDay
      case AtLocation => " at " + Spaced(d.location.value)
      case Female => " (female)"
      case Male => " (male)"
      case KnowingMove => " while knowing " + Spaced(d.knownMove.value)
      case Rain => " in the rain"
      case UpsideDown => " by turning console upside down"
      case TradeFor => " by trading for a " + Spaced(d.tradeSpecies.value)
      case WithPartySpecies => " with " + Spaced(d.partySpecies.value) + " in party"
      case AttackAboveDefense => " (Attack > Defense)"
      case AttackBelowDefense => " (Attack < Defense)"
      case AttackEqualsDefense => " (Attack = Defense)"
  }

  /** The texts of the clauses `ks`, concatenated in order. */
  function Clauses(d: EvolutionDetail, ks: seq<Clause>): string {
    if ks == [] then "" else ClauseText(d, ks[0]) + Clauses(d, ks[1..])
  }

  /** The trigger text: "Special" without a detail or trigger, otherwise the
      spaced trigger name followed by the text of every clause in ClauseOrder;
      an absent clause contributes nothing. */
  function TriggerText(details: Option<EvolutionDetail>): (t: string)
    ensures details.None? || details.value.trigger.None? ==> t == "Special"
    ensures details.Some? && details.value.trigger.Some? ==> Spaced(details.value.trigger.value) <= t
  {
    if details.None? || details.value.trigger.None? then "Special"
    else Spaced(details.value.trigger.value) + Clauses(details.value, ClauseOrder)
  }

  /** The clauses add nothing exactly when none of their fields is set. */
  lemma {:induction false} ClausesEmptyIff(d: EvolutionDetail, ks: seq<Clause>)
    ensures Clauses(d, ks) == "" <==> forall i :: 0 <= i < |ks| ==> !Present(d, ks[i])
  {
    if ks != [] {
      ClausesEmptyIff(d, ks[1..]);
      assert forall i :: 0 < i < |ks| ==> ks[i] == ks[1..][i - 1];
    }
  }

  /** Each clause's text occurs in the concatenation. */
  lemma {:induction false} ClausesContainEach(d: EvolutionDetail, ks: seq<Clause>, i: nat)
    requires i < |ks|
    ensures Contains(Clauses(d, ks), ClauseText(d, ks[i]))
  {
    if i == 0 {
      ContainsPrefix(Clauses(d, ks), ClauseText(d, ks[0]));
    } else {
      ClausesContainEach(d, ks[1..], i - 1);
      ContainsAfterPrefix(ClauseText(d, ks[0]), Clauses(d, ks[1..]), ClauseText(d, ks[i]));
    }
  }

  /** With a trigger, the text is the trigger name alone exactly when no clause field is set. */
  lemma TriggerTextWithoutClauses(d: EvolutionDetail)
    requires d.trigger.Some?
    ensures TriggerText(Some(d)) == Spaced(d.trigger.value) <==> forall k :: !Present(d, k)
  {
    ClausesEmptyIff(d, ClauseOrder);
    if forall i :: 0 <= i < |ClauseOrder| ==> !Present(d, ClauseOrder[i]) {
      forall k ensures !Present(d, k) {
        ClauseInOrder(k);
      }
    }
  }

  /** Every clause whose field is set shows up in the trigger text. */
  lemma TriggerTextMentionsPresent(d: EvolutionDetail, k: Clause)
    requires d.trigger.Some? && Present(d, k)
    ensures Contains(TriggerText(Some(d)), ClauseText(d, k))
  {
    ClauseInOrder(k);
    var i :| 0 <= i < |ClauseOrder| && ClauseOrder[i] == k;
    ClausesContainEach(d, ClauseOrder, i);
    ContainsAfterPrefix(Spaced(d.trigger.value), Clauses(d, ClauseOrder), ClauseText(d, k));
  }

  lemma {:induction false} ClausesAppend(d: EvolutionDetail, ks: seq<Clause>, k: Clause)
    ensures Clauses(d, ks + [k]) == Clauses(d, ks) + ClauseText(d, k)
  {
    if ks != [] {
      assert (ks + [k])[1..] == ks[1..] + [k];
      ClausesAppend(d, ks[1..], k);
      AppendAssoc(ClauseText(d, ks[0]), Clauses(d, ks[1..]), ClauseText(d, k));
    }
  }

  /** buildTriggerText as it runs: the text once the first `k` clauses of
      ClauseOrder have been considered, each `+=` appending one clause. */
  function TextAfter(d: EvolutionDetail, k: nat): string
    requires d.trigger.Some? && k <= |ClauseOrder|
  {
    if k == 0 then Spaced(d.trigger.value)
    else TextAfter(d, k - 1) + ClauseText(d, ClauseOrder[k - 1])
  }

  /** Building left to right gives the trigger name followed by the clauses considered so far. */
  lemma {:induction false} TextAfterIsPrefix(d: EvolutionDetail, k: nat)
    requires d.trigger.Some? && k <= |ClauseOrder|
    ensures TextAfter(d, k) == Spaced(d.trigger.value) + Clauses(d, ClauseOrder[..k])
  {
    if k > 0 {
      TextAfterIsPrefix(d, k - 1);
      assert ClauseOrder[..k] == ClauseOrder[..k - 1] + [ClauseOrder[k - 1]];
      ClausesAppend(d, ClauseOrder[..k - 1], ClauseOrder[k - 1]);
      AppendAssoc(Spaced(d.trigger.value), Clauses(d, ClauseOrder[..k - 1]), ClauseText(d, ClauseOrder[k - 1]));
    }
  }

  /** buildTriggerText's successive `+=` over all clauses give the trigger text. */
  lemma BuildTriggerTextIsTriggerText(d: EvolutionDetail)
    requires d.trigger.Some?
    ensures TextAfter(d, |ClauseOrder|) == TriggerText(Some(d))
  {
    TextAfterIsPrefix(d, |ClauseOrder|);
    assert ClauseOrder[..|ClauseOrder|] == ClauseOrder;
  }

  // ---------------------------------------------------------------------------
  // Evolution chain

  const ArtworkPrefix := "https://raw.githubusercontent.com/PokeAPI/sprites/master/sprites/pokemon/other/official-artwork/"

  /** The artwork URL built from a species URL's last segment (`undefined` when there is none). */
  function ArtworkUrl(speciesUrl: string): string {
    ArtworkPrefix + LastSegment(speciesUrl).GetOr("undefined") + ".png"
  }

  /** A species URL `prefix/n/` gives the official artwork of id `n`. */
  lemma ArtworkOfResourceUrl(prefix: string, n: nat)
    ensures ArtworkUrl(prefix + "/" + NatToString(n) + "/") == ArtworkPrefix + NatToString(n) + ".png"
  {
    LastSegmentOfResourceUrl(prefix, n);
  }

  /** The triggers of one stage: the text of `evolution_details[0]`, if it is non-empty. */
  function LinkTriggers(link: ChainLink): (ts: seq<string>)
    ensures |ts| <= 1
    ensures ts != [] ==> |link.evolutionDetails| > 0 && ts == [TriggerText(Some(link.evolutionDetails[0]))]
    ensures |link.evolutionDetails| > 0 && TriggerText(Some(link.evolutionDetails[0])) != "" ==>
      ts == [TriggerText(Some(link.evolutionDetails[0]))]
  {
    if |link.evolutionDetails| > 0 && TriggerText(Some(link.evolutionDetails[0])) != ""
    then [TriggerText(Some(link.evolutionDetails[0]))]
    else []
  }

  function StageOf(link: ChainLink): EvolutionStage {
    EvolutionStage(link.species.name, ArtworkUrl(link.species.url), LinkTriggers(link))
  }

  /** The nodes the walk visits: the root and the only child of every node with one child. */
  function Spine(link: ChainLink): (s: seq<ChainLink>)
    ensures |s| >= 1 && s[0] == link
  {
    [link] + (if |link.evolvesTo| == 1 then Spine(link.evolvesTo[0]) else [])
  }

  function Last<T>(s: seq<T>): T
    requires |s| > 0
  {
    s[|s| - 1]
  }

  /** The nodes parseEvolutionChain emits a stage for: the node, then either all
      its children (when it has more than one, ending the walk) or the nodes of
      its only child. */
  function ChainNodes(link: ChainLink): seq<ChainLink> {
    [link]
    + (if |link.evolvesTo| > 1 then link.evolvesTo
       else if |link.evolvesTo| == 1 then ChainNodes(link.evolvesTo[0])
       else [])
  }

  /** The stages of parseEvolutionChain, one per emitted node. */
  function ChainStages(link: ChainLink): (stages: seq<EvolutionStage>)
    ensures |stages| == |ChainNodes(link)|
    ensures forall i :: 0 <= i < |stages| ==> stages[i] == StageOf(ChainNodes(link)[i])
  {
    Map(ChainNodes(link), StageOf)
  }

  /** The children of the last spine node when it branches, nothing otherwise. */
  function Branches(link: ChainLink): seq<ChainLink> {
    var last := Last(Spine(link));
    if |last.evolvesTo| > 1 then last.evolvesTo else []
  }

  /** Along the spine each node's only child is the next node; the last node has
      no child or several. */
  lemma {:induction false} SpineLinks(link: ChainLink)
    ensures forall i :: 0 <= i < |Spine(link)| - 1 ==> Spine(link)[i].evolvesTo == [Spine(link)[i + 1]]
    ensures |Last(Spine(link)).evolvesTo| != 1
  {
    if |link.evolvesTo| == 1 {
      SpineLinks(link.evolvesTo[0]);
      var s := Spine(link);
      assert s == [link] + Spine(link.evolvesTo[0]);
      assert link.evolvesTo == [link.evolvesTo[0]];
    }
  }

  /**
   * The shape of the output: the spine nodes in root-first order, then, when the
   * last spine node branches, each child of that node and nothing deeper.
   */
  lemma {:induction false} ChainShape(link: ChainLink)
    ensures ChainNodes(link) == Spine(link) + Branches(link)
  {
    if |link.evolvesTo| == 1 {
      var child := link.evolvesTo[0];
      ChainShape(child);
      assert Spine(link) == [link] + Spine(child);
      assert Last(Spine(link)) == Last(Spine(child));
    } else {
      assert Spine(link) == [link];
    }
  }

  /** A chain of n nodes without branching gives n stages, root first. */
  lemma LinearChain(link: ChainLink)
    requires |Last(Spine(link)).evolvesTo| == 0
    ensures |ChainStages(link)| == |Spine(link)|
    ensures forall i :: 0 <= i < |Spine(link)| ==> ChainStages(link)[i] == StageOf(Spine(link)[i])
  {
    ChainShape(link);
  }

  /** A branching node at depth d with k children gives d + 1 spine stages plus k child stages. */
  lemma BranchingChain(link: ChainLink)
    requires |Last(Spine(link)).evolvesTo| > 1
    ensures var last := Last(Spine(link));
      && |ChainStages(link)| == |Spine(link)| + |last.evolvesTo|
      && (forall i :: 0 <= i < |Spine(link)| ==> ChainStages(link)[i] == StageOf(Spine(link)[i]))
      && (forall j :: 0 <= j < |last.evolvesTo| ==>
            ChainStages(link)[|Spine(link)| + j] == StageOf(last.evolvesTo[j]))
  {
    ChainShape(link);
    var last := Last(Spine(link));
    assert forall j :: 0 <= j < |last.evolvesTo| ==> ChainNodes(link)[|Spine(link)| + j] == last.evolvesTo[j];
  }

  /** A chain without children gives a single stage; with no details its triggers are empty. */
  lemma TerminalChain(link: ChainLink)
    requires link.evolvesTo == []
    ensures ChainStages(link) == [StageOf(link)]
    ensures link.evolutionDetails == [] ==> ChainStages(link)[0].triggers == []
  {
  }

  /** Every stage carries at most one trigger, taken from the first evolution detail. */
  lemma StagesHaveAtMostOneTrigger(link: ChainLink)
    ensures forall i :: 0 <= i < |ChainStages(link)| ==> |ChainStages(link)[i].triggers| <= 1
  {
  }

  /** The triggers of one node, as the two inline blocks of the source compute them. */
  method BuildLinkTriggers(link: ChainLink) returns (triggers: seq<string>)
    ensures triggers == LinkTriggers(link)
  {
    triggers := [];
    if |link.evolutionDetails| > 0 {
      var trigger := TriggerText(Some(link.evolutionDetails[0]));
      if trigger != "" {
        triggers := triggers + [trigger];
      }
    }
  }

  /** The stage of one node, as the two inline object literals of the source build it. */
  method BuildStage(link: ChainLink) returns (stage: EvolutionStage)
    ensures stage == StageOf(link)
  {
    var triggers := BuildLinkTriggers(link);
    stage := EvolutionStage(link.species.name, ArtworkUrl(link.species.url), triggers);
  }

  /** parseEvolutionChain: walk the spine, and at the first branching node emit
      every child and stop. */
  method ParseEvolutionChain(chain: ChainLink) returns (stages: seq<EvolutionStage>)
    ensures stages == ChainStages(chain)
  {
    stages := [];
    ghost var emitted: seq<ChainLink> := [];
    var current: Option<ChainLink> := Some(chain);
    while current.Some?
      invariant stages == Map(emitted, StageOf)
      invariant current.Some? ==> emitted + ChainNodes(current.value) == ChainNodes(chain)
      invariant current.None? ==> emitted == ChainNodes(chain)
      decreases if current.Some? then |Spine(current.value)| else 0
    {
      var link := current.value;
      ghost var rest := if |link.evolvesTo| == 1 then ChainNodes(link.evolvesTo[0]) else [];
      assert ChainNodes(link) == [link] + (if |link.evolvesTo| > 1 then link.evolvesTo else rest);
      var stage := BuildStage(link);
      MapAppend(emitted, link, StageOf);
      AppendAssoc(emitted, [link], if |link.evolvesTo| > 1 then link.evolvesTo else rest);
      stages, emitted := stages + [stage], emitted + [link];
      if |link.evolvesTo| > 1 {
        assert emitted + link.evolvesTo == ChainNodes(chain);
        for i := 0 to |link.evolvesTo|
          invariant stages == Map(emitted, StageOf)
          invariant emitted + link.evolvesTo[i..] == ChainNodes(chain)
        {
          var next := link.evolvesTo[i];
          var branchStage := BuildStage(next);
          MapAppend(emitted, next, StageOf);
          assert link.evolvesTo[i..] == [next] + link.evolvesTo[i + 1..];
          AppendAssoc(emitted, [next], link.evolvesTo[i + 1..]);
          stages, emitted := stages + [branchStage], emitted + [next];
        }
        assert link.evolvesTo[|link.evolvesTo|..] == [];
        current := None;
      } else if |link.evolvesTo| == 1 {
        assert Spine(link) == [link] + Spine(link.evolvesTo[0]);
        assert emitted + rest == ChainNodes(chain);
        current := Some(link.evolvesTo[0]);
      } else {
        // `evolves_to[0]` of an empty array is undefined: the walk ends
        current := None;
      }
    }
  }
}
