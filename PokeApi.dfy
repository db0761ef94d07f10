/**
 * services/pokeapi.ts without its I/O: every HTTP response is an already
 * decoded input value, a failed request is `None`.
 */
module PokeApi {
  import opened Wrappers
  import opened Types
  import opened Seqs
  import opened Text
  import opened PokemonUtils

  // ---------------------------------------------------------------------------
  // Decoded responses

  /** An entry of the `stats` array of a Pokémon. */
  datatype StatEntry = StatEntry(name: string, baseStat: int)

  /** A fetched alternate form: id, name and `sprites.front_default`. */
  datatype FormData = FormData(id: int, name: string, frontDefault: Option<string>)

  /** The fields of a `/pokemon/{id}` response that getPokemonDetails reads. */
  datatype PokemonData = PokemonData(
    id: int,
    name: string,
    artwork: Option<string>,        // sprites.other['official-artwork'].front_default
    frontDefault: Option<string>,   // sprites.front_default
    types: seq<string>,
    heightDm: int,
    weightHg: int,
    abilities: seq<Ability>,
    stats: seq<StatEntry>,
    cry: Option<string>)            // cries?.latest

  /** The fields of a species response that getPokemonDetails reads. */
  datatype SpeciesData = SpeciesData(genderRate: int, color: string, eggGroups: seq<string>)

  /** One `{ id, name }` of getPokemonByFilter; an id that does not parse is NaN, here `None`. */
  datatype CategoryEntry = CategoryEntry(id: Option<int>, name: string)

  const SpriteBase := "https://raw.githubusercontent.com/PokeAPI/sprites/master/sprites/pokemon/"

  /** The default front sprite of an id. */
  function DefaultSprite(id: int): string {
    SpriteBase + IntToString(id) + ".png"
  }

  /** A JavaScript string that is neither null nor empty. */
  predicate Truthy(s: Option<string>) {
    s.Some? && s.value != ""
  }

  // ---------------------------------------------------------------------------
  // Ids and options

  /** `parseInt(url.split('/').filter(Boolean).pop() ?? '0', 10)` */
  function IdFromUrl(url: string): Option<int> {
    ParseInt(LastSegment(url).GetOr("0"))
  }

  /** A resource URL `prefix/n/`, as the API writes them, yields `n`. */
  lemma IdFromResourceUrl(prefix: string, n: nat)
    ensures IdFromUrl(prefix + "/" + NatToString(n) + "/") == Some(n)
  {
    LastSegmentOfResourceUrl(prefix, n);
    DigitsValueOfNatToString(n);
    ParseIntOfDigits(NatToString(n));
  }

  /** A URL with no non-empty segment falls back to "0". */
  lemma IdFromEmptyUrl(url: string)
    requires forall i :: 0 <= i < |url| ==> url[i] == '/'
    ensures IdFromUrl(url) == Some(0)
  {
    var parts := Split(url, '/');
    forall k | 0 <= k < |parts| ensures parts[k] == "" {
      if parts[k] != "" {
        JoinSplit(url, '/');
        PartInJoin(parts, k, '/');
        assert false;
      }
    }
    assert ParseInt("0") == Some(0) by {
      assert DigitRun("0") == 1;
      assert "0"[..1] == "0";
      assert DigitsValue("0") == DigitsValue("") * 10 + DigitValue('0');
    }
  }

  /** Every character of a piece also occurs in the joined string. */
  lemma {:induction false} PartInJoin(parts: seq<string>, k: nat, c: char)
    requires k < |parts| && parts[k] != ""
    ensures exists i :: 0 <= i < |Join(parts, c)| && Join(parts, c)[i] == parts[k][0]
  {
    if |parts| == 1 {
      assert Join(parts, c)[0] == parts[0][0];
    } else if k == 0 {
      assert Join(parts, c)[0] == parts[0][0];
    } else {
      PartInJoin(parts[1..], k - 1, c);
      var rest := Join(parts[1..], c);
      var i :| 0 <= i < |rest| && rest[i] == parts[k][0];
      var pre := parts[0] + [c];
      assert Join(parts, c) == pre + rest;
      assert Join(parts, c)[|pre| + i] == rest[i];
    }
  }

  predicate IsListedType(name: string) {
    name != "unknown" && name != "shadow"
  }

  /** The type options: the fetched names without `unknown` and `shadow`, in order. */
  function TypeOptions(names: seq<string>): (r: seq<string>)
    ensures IsSubsequence(r, names)
    ensures forall n :: n in r <==> n in names && IsListedType(n)
  {
    FilterIsSubsequence(names, IsListedType);
    Filter(names, IsListedType)
  }

  /** Listed names are all kept, in order. */
  lemma TypeOptionsKeepsListed(names: seq<string>)
    requires forall n :: n in names ==> IsListedType(n)
    ensures TypeOptions(names) == names
  {
    FilterAll(names, IsListedType);
  }

  /** getPokemonByFilter: a failed request gives `[]`, otherwise one entry per result. */
  function CategoryEntries(response: Option<seq<NamedResource>>): (r: seq<CategoryEntry>)
    ensures response.None? ==> r == []
    ensures response.Some? ==>
      |r| == |response.value| &&
      forall i :: 0 <= i < |r| ==> r[i].name == response.value[i].name && r[i].id == IdFromUrl(response.value[i].url)
  {
    match response
    case None => []
    case Some(rs) => seq(|rs|, i requires 0 <= i < |rs| => CategoryEntry(IdFromUrl(rs[i].url), rs[i].name))
  }

  // ---------------------------------------------------------------------------
  // The catalog

  function Names(items: seq<ListItem>): (ns: seq<string>)
    ensures |ns| == |items|
    ensures forall i :: 0 <= i < |items| ==> ns[i] == items[i].name
  {
    seq(|items|, i requires 0 <= i < |items| => items[i].name)
  }

  lemma NamesSnoc(items: seq<ListItem>, p: ListItem)
    ensures Names(items + [p]) == Names(items) + [p.name]
  {
  }

  lemma NamesConcat(a: seq<ListItem>, b: seq<ListItem>)
    ensures Names(a + b) == Names(a) + Names(b)
  {
  }

  /** An entry of the base list, with the id its URL gives. */
  function BaseListItem(r: NamedResource): (item: ListItem)
    requires IdFromUrl(r.url).Some?
  {
    var id := IdFromUrl(r.url).value;
    ListItem(id, r.name, DefaultSprite(id))
  }

  function BaseList(results: seq<NamedResource>): (items: seq<ListItem>)
    requires forall r :: r in results ==> IdFromUrl(r.url).Some?
    ensures Names(items) == Map(results, (r: NamedResource) => r.name)
    ensures forall i :: 0 <= i < |results| ==>
      && items[i].id == IdFromUrl(results[i].url).value
      && items[i].name == results[i].name
      && items[i].spriteUrl == DefaultSprite(items[i].id)
  {
    seq(|results|, i requires 0 <= i < |results| => BaseListItem(results[i]))
  }

  /** An alternate form's entry: its own front sprite, or the default sprite when that is empty. */
  function FormListItem(f: FormData): (item: ListItem)
    ensures item.id == f.id && item.name == f.name
    ensures Truthy(f.frontDefault) ==> item.spriteUrl == f.frontDefault.value
    ensures !Truthy(f.frontDefault) ==> item.spriteUrl == DefaultSprite(f.id)
  {
    ListItem(f.id, f.name, if Truthy(f.frontDefault) then f.frontDefault.value else DefaultSprite(f.id))
  }

  /** What a settled form request contributes: its entry when fulfilled. */
  function SettledEntry(o: Option<FormData>): Option<ListItem> {
    if o.Some? then Some(FormListItem(o.value)) else None
  }

  function IsSomeEntry(o: Option<ListItem>): bool { o.Some? }

  function SomeEntry(item: ListItem): Option<ListItem> { Some(item) }

  /** The entries of the fulfilled form requests, in order; rejected ones are dropped. */
  function AlternateForms(settled: seq<Option<FormData>>): (items: seq<ListItem>)
    ensures |items| <= |settled|
    ensures forall item :: item in items ==> exists f :: Some(f) in settled && item == FormListItem(f)
    ensures forall f :: Some(f) in settled ==> FormListItem(f) in items
  {
    if settled == [] then []
    else
      var rest := AlternateForms(settled[1..]);
      assert forall x :: x in settled[1..] ==> x in settled;
      match settled[0]
      case None => rest
      case Some(f) => [FormListItem(f)] + rest
  }

  /** The form entries are those of the fulfilled requests, once each, in settled order. */
  lemma {:induction false} AlternateFormsInOrder(settled: seq<Option<FormData>>)
    ensures Map(AlternateForms(settled), SomeEntry) == Filter(Map(settled, SettledEntry), IsSomeEntry)
  {
    if settled != [] {
      AlternateFormsInOrder(settled[1..]);
      var rest := AlternateForms(settled[1..]);
      assert settled == [settled[0]] + settled[1..];
      MapCons(settled[0], settled[1..], SettledEntry);
      if settled[0].Some? {
        MapCons(FormListItem(settled[0].value), rest, SomeEntry);
      }
    }
  }

  /** The last entry of `items` named `n`: the one `Map.set` leaves in place. */
  function LastNamed(items: seq<ListItem>, n: string): (r: Option<ListItem>)
    ensures r.Some? <==> n in Names(items)
    ensures r.Some? ==> r.value in items && r.value.name == n
  {
    if items == [] then None
    else
      var prefix := items[..|items| - 1];
      NamesSnoc(prefix, items[|items| - 1]);
      assert prefix + [items[|items| - 1]] == items;
      if items[|items| - 1].name == n then Some(items[|items| - 1]) else LastNamed(prefix, n)
  }

  /** The entry LastNamed picks is the last one with the name: no later entry carries it. */
  lemma {:induction false} LastNamedIsLast(items: seq<ListItem>, n: string)
    ensures LastNamed(items, n).Some? ==>
      exists i :: 0 <= i < |items| && items[i] == LastNamed(items, n).value
        && forall j :: i < j < |items| ==> items[j].name != n
  {
    if items != [] && items[|items| - 1].name != n {
      var prefix := items[..|items| - 1];
      LastNamedIsLast(prefix, n);
      if LastNamed(prefix, n).Some? {
        var i :| 0 <= i < |prefix| && prefix[i] == LastNamed(prefix, n).value
          && forall j :: i < j < |prefix| ==> prefix[j].name != n;
        assert items[i] == prefix[i];
        assert forall j :: i < j < |items| ==> items[j].name != n;
      }
    }
  }

  /** The first `Map.values()` part: each base name once, at its first position,
      holding the last base entry of that name. */
  function BasePart(base: seq<ListItem>): (r: seq<ListItem>)
    ensures Names(r) == Dedup(Names(base))
    ensures forall i :: 0 <= i < |r| ==> LastNamed(base, r[i].name) == Some(r[i])
  {
    var ns := Dedup(Names(base));
    seq(|ns|, k requires 0 <= k < |ns| => LastNamed(base, ns[k]).value)
  }

  /** The forms the second loop adds: those whose name is neither a base name nor
      the name of an earlier added form. */
  function NewForms(baseNames: seq<string>, forms: seq<ListItem>): (r: seq<ListItem>)
    ensures forall f :: f in r ==> f in forms && f.name !in baseNames
    ensures NoDuplicates(Names(r))
  {
    if forms == [] then []
    else
      var prev := NewForms(baseNames, forms[..|forms| - 1]);
      var f := forms[|forms| - 1];
      assert forall g :: g in forms[..|forms| - 1] ==> g in forms;
      if f.name in baseNames || f.name in Names(prev) then prev
      else
        NamesSnoc(prev, f);
        prev + [f]
  }

  /** The added forms keep the order of the form list. */
  lemma {:induction false} NewFormsInOrder(baseNames: seq<string>, forms: seq<ListItem>)
    ensures IsSubsequence(NewForms(baseNames, forms), forms)
  {
    if forms != [] {
      var p := forms[..|forms| - 1];
      var f := forms[|forms| - 1];
      var prev := NewForms(baseNames, p);
      NewFormsInOrder(baseNames, p);
      assert p + [f] == forms;
      if f.name in baseNames || f.name in Names(prev) {
        SubsequenceAppend(prev, p, [], [f]);
        assert prev + [] == prev;
      } else {
        SubsequenceRefl([f]);
        SubsequenceAppend(prev, p, [f], [f]);
      }
    }
  }

  /** `Array.from(combinedMap.values())` after both loops. */
  function Catalog(base: seq<ListItem>, forms: seq<ListItem>): seq<ListItem> {
    BasePart(base) + NewForms(Names(base), forms)
  }

  /** Every name of the catalog is distinct. */
  lemma CatalogNamesUnique(base: seq<ListItem>, forms: seq<ListItem>)
    ensures NoDuplicates(Names(Catalog(base, forms)))
  {
    var nf := NewForms(Names(base), forms);
    NamesConcat(BasePart(base), nf);
    forall x | x in Names(BasePart(base)) ensures x !in Names(nf) {
      NewFormNames(Names(base), forms, x);
    }
    NoDuplicatesConcat(Names(BasePart(base)), Names(nf));
  }

  /** Every base name is in the catalog, and under a base name it holds the last
      base entry of that name: a form never replaces a base entry. */
  lemma CatalogBaseWins(base: seq<ListItem>, forms: seq<ListItem>)
    ensures forall n :: n in Names(base) ==> n in Names(Catalog(base, forms))
    ensures forall i :: 0 <= i < |Catalog(base, forms)| && Catalog(base, forms)[i].name in Names(base) ==>
      LastNamed(base, Catalog(base, forms)[i].name) == Some(Catalog(base, forms)[i])
  {
    var c := Catalog(base, forms);
    var bp := BasePart(base);
    var nf := NewForms(Names(base), forms);
    NamesConcat(bp, nf);
    forall i | 0 <= i < |c| && c[i].name in Names(base)
      ensures LastNamed(base, c[i].name) == Some(c[i])
    {
      NewFormNames(Names(base), forms, c[i].name);
    }
  }

  /** No added form carries a base name. */
  lemma NewFormNames(baseNames: seq<string>, forms: seq<ListItem>, n: string)
    requires n in baseNames
    ensures n !in Names(NewForms(baseNames, forms))
  {
    var nf := NewForms(baseNames, forms);
    forall i | 0 <= i < |nf| ensures Names(nf)[i] != n {
      assert nf[i] in nf;
    }
  }

  /** A form whose name is not a base name reaches the catalog (the first such form of that name). */
  lemma {:induction false} NewFormsCoverNewNames(baseNames: seq<string>, forms: seq<ListItem>)
    ensures forall f :: f in forms && f.name !in baseNames ==> f.name in Names(NewForms(baseNames, forms))
  {
    if forms != [] {
      var prefix := forms[..|forms| - 1];
      NewFormsCoverNewNames(baseNames, prefix);
      var prev := NewForms(baseNames, prefix);
      var last := forms[|forms| - 1];
      NamesSnoc(prev, last);
      forall f | f in forms && f.name !in baseNames ensures f.name in Names(NewForms(baseNames, forms)) {
        if f != last {
          assert f in prefix by {
            var i :| 0 <= i < |forms| && forms[i] == f;
            assert i < |forms| - 1 && prefix[i] == f;
          }
        }
      }
    }
  }

  lemma CatalogAddsNewForms(base: seq<ListItem>, forms: seq<ListItem>)
    ensures forall f :: f in forms && f.name !in Names(base) ==> f.name in Names(Catalog(base, forms))
  {
    NewFormsCoverNewNames(Names(base), forms);
    NamesConcat(BasePart(base), NewForms(Names(base), forms));
  }

  /** With unique base names the catalog starts with the base list, in order,
      followed by the new forms. */
  lemma CatalogOfUniqueBase(base: seq<ListItem>, forms: seq<ListItem>)
    requires NoDuplicates(Names(base))
    ensures Catalog(base, forms) == base + NewForms(Names(base), forms)
  {
    var bp := BasePart(base);
    DedupOfUnique(Names(base));
    assert Names(bp) == Names(base);
    forall i | 0 <= i < |base| ensures bp[i] == base[i] {
      assert bp[i].name == Names(bp)[i] == Names(base)[i] == base[i].name;
      UniqueLastNamed(base, i);
    }
    assert bp == base;
  }

  lemma {:induction false} UniqueLastNamed(items: seq<ListItem>, i: nat)
    requires NoDuplicates(Names(items)) && i < |items|
    ensures LastNamed(items, items[i].name) == Some(items[i])
  {
    var prefix := items[..|items| - 1];
    if i < |items| - 1 {
      assert Names(items)[i] != Names(items)[|items| - 1];
      assert NoDuplicates(Names(prefix)) by {
        assert forall k :: 0 <= k < |prefix| ==> Names(prefix)[k] == Names(items)[k];
      }
      UniqueLastNamed(prefix, i);
    }
  }

  /** The map after the first loop has seen `base[..i]`. */
  ghost predicate BaseMerged(base: seq<ListItem>, i: nat, keys: seq<string>, entries: map<string, ListItem>)
    requires i <= |base|
  {
    && keys == Dedup(Names(base[..i]))
    && (forall n :: n in entries <==> n in keys)
    && (forall n :: n in entries ==> LastNamed(base[..i], n) == Some(entries[n]))
  }

  /** The map after the second loop has seen `forms[..j]`. */
  ghost predicate FormsMerged(base: seq<ListItem>, forms: seq<ListItem>, j: nat,
                        keys: seq<string>, entries: map<string, ListItem>)
    requires j <= |forms|
  {
    var nf := NewForms(Names(base), forms[..j]);
    && keys == Dedup(Names(base)) + Names(nf)
    && (forall n :: n in entries <==> n in keys)
    && (forall n :: n in entries && n in Names(base) ==> LastNamed(base, n) == Some(entries[n]))
    && (forall k :: 0 <= k < |nf| ==> nf[k].name in entries && entries[nf[k].name] == nf[k])
  }

  /** `combinedMap.set(p.name, p)` for the next base entry. */
  lemma BaseMergeStep(base: seq<ListItem>, i: nat, keys: seq<string>, entries: map<string, ListItem>)
    requires i < |base| && BaseMerged(base, i, keys, entries)
    ensures BaseMerged(base, i + 1,
      if base[i].name in entries then keys else keys + [base[i].name],
      entries[base[i].name := base[i]])
  {
    var p := base[i];
    NamesSnoc(base[..i], p);
    assert base[..i + 1] == base[..i] + [p];
    assert (Names(base[..i]) + [p.name])[..i] == Names(base[..i]);
    assert base[..i + 1][..i] == base[..i];
  }

  /** The second loop's step for the next form: set only when the name is new. */
  lemma FormMergeStep(base: seq<ListItem>, forms: seq<ListItem>, j: nat,
                      keys: seq<string>, entries: map<string, ListItem>)
    requires j < |forms| && FormsMerged(base, forms, j, keys, entries)
    ensures forms[j].name in entries ==> FormsMerged(base, forms, j + 1, keys, entries)
    ensures forms[j].name !in entries ==>
      FormsMerged(base, forms, j + 1, keys + [forms[j].name], entries[forms[j].name := forms[j]])
  {
    var p := forms[j];
    var prev := NewForms(Names(base), forms[..j]);
    assert forms[..j + 1][..j] == forms[..j];
    assert forms[..j + 1][j] == p;
    if p.name !in entries {
      NamesSnoc(prev, p);
      AppendAssoc(Dedup(Names(base)), Names(prev), [p.name]);
      assert NewForms(Names(base), forms[..j + 1]) == prev + [p];
    } else {
      assert NewForms(Names(base), forms[..j + 1]) == prev;
    }
  }

  /**
   * The two `forEach` loops over `combinedMap`: `keys` is the map's insertion
   * order and `entries` its contents; `set` on a present key replaces the value
   * in place, as a JavaScript Map does.
   */
  method MergeCatalog(base: seq<ListItem>, forms: seq<ListItem>) returns (list: seq<ListItem>)
    ensures list == Catalog(base, forms)
  {
    var keys: seq<string> := [];
    var entries: map<string, ListItem> := map[];
    for i := 0 to |base|
      invariant BaseMerged(base, i, keys, entries)
    {
      var p := base[i];
      BaseMergeStep(base, i, keys, entries);
      if p.name !in entries {
        keys := keys + [p.name];
      }
      entries := entries[p.name := p];
    }
    assert base[..|base|] == base;
    assert forms[..0] == [];
    for j := 0 to |forms|
      invariant FormsMerged(base, forms, j, keys, entries)
    {
      var p := forms[j];
      FormMergeStep(base, forms, j, keys, entries);
      if p.name !in entries {
        keys := keys + [p.name];
        entries := entries[p.name := p];
      }
    }
    assert forms[..|forms|] == forms;
    list := seq(|keys|, k requires 0 <= k < |keys| => entries[keys[k]]);
    CatalogFromEntries(base, forms, Dedup(Names(base)), keys, entries, list);
  }

  /** The final `values()` read back against the catalog. */
  lemma CatalogFromEntries(base: seq<ListItem>, forms: seq<ListItem>, baseKeys: seq<string>,
                           keys: seq<string>, entries: map<string, ListItem>, list: seq<ListItem>)
    requires baseKeys == Dedup(Names(base))
    requires keys == baseKeys + Names(NewForms(Names(base), forms))
    requires forall n :: n in entries <==> n in keys
    requires forall n :: n in entries && n in Names(base) ==> LastNamed(base, n) == Some(entries[n])
    requires var nf := NewForms(Names(base), forms);
      forall k :: 0 <= k < |nf| ==> nf[k].name in entries && entries[nf[k].name] == nf[k]
    requires |list| == |keys| && forall k :: 0 <= k < |keys| ==> keys[k] in entries && list[k] == entries[keys[k]]
    ensures list == Catalog(base, forms)
  {
    var bp := BasePart(base);
    var nf := NewForms(Names(base), forms);
    forall k | 0 <= k < |list| ensures list[k] == Catalog(base, forms)[k] {
      if k < |bp| {
        assert Names(bp)[k] == keys[k];
        assert keys[k] in Names(base);
      } else {
        assert keys[k] == nf[k - |bp|].name;
      }
    }
  }

  // ---------------------------------------------------------------------------
  // Details

  /** `stats.find(s => s.stat.name === name)?.base_stat ?? 0` */
  function FindStat(stats: seq<StatEntry>, name: string): (v: int)
    ensures (forall i :: 0 <= i < |stats| ==> stats[i].name != name) ==> v == 0
  {
    if stats == [] then 0
    else if stats[0].name == name then stats[0].baseStat
    else FindStat(stats[1..], name)
  }

  /** The value read is that of the first entry with the name. */
  lemma {:induction false} FindStatFirst(stats: seq<StatEntry>, name: string, i: nat)
    requires i < |stats| && stats[i].name == name
    requires forall j :: 0 <= j < i ==> stats[j].name != name
    ensures FindStat(stats, name) == stats[i].baseStat
  {
    if i > 0 {
      FindStatFirst(stats[1..], name, i - 1);
    }
  }

  /** The six base stats, each read by its API name. */
  function BaseStatsOf(stats: seq<StatEntry>): StatSet {
    StatSet(
      FindStat(stats, "hp"),
      FindStat(stats, "attack"),
      FindStat(stats, "defense"),
      FindStat(stats, "special-attack"),
      FindStat(stats, "special-defense"),
      FindStat(stats, "speed"))
  }

  /** A stat missing from the array reads as 0. */
  lemma MissingStatIsZero(stats: seq<StatEntry>)
    ensures (forall i :: 0 <= i < |stats| ==> stats[i].name != "hp") ==> BaseStatsOf(stats).hp == 0
    ensures (forall i :: 0 <= i < |stats| ==> stats[i].name != "attack") ==> BaseStatsOf(stats).attack == 0
    ensures (forall i :: 0 <= i < |stats| ==> stats[i].name != "defense") ==> BaseStatsOf(stats).defense == 0
    ensures (forall i :: 0 <= i < |stats| ==> stats[i].name != "special-attack") ==>
      BaseStatsOf(stats).specialAttack == 0
    ensures (forall i :: 0 <= i < |stats| ==> stats[i].name != "special-defense") ==>
      BaseStatsOf(stats).specialDefense == 0
    ensures (forall i :: 0 <= i < |stats| ==> stats[i].name != "speed") ==> BaseStatsOf(stats).speed == 0
  {
  }

  /** `Object.values(baseStats)`, in declaration order. */
  function StatValues(b: StatSet): seq<int> {
    [b.hp, b.attack, b.defense, b.specialAttack, b.specialDefense, b.speed]
  }

  /** `reduce((sum, val) => sum + val, 0)` */
  function Sum(vals: seq<int>): int {
    if vals == [] then 0 else Sum(vals[..|vals| - 1]) + vals[|vals| - 1]
  }

  /** `reduce((prod, val) => val > 0 ? prod * val : prod, 1)` */
  function PositiveProduct(vals: seq<int>): int {
    if vals == [] then 1
    else
      var p := PositiveProduct(vals[..|vals| - 1]);
      if vals[|vals| - 1] > 0 then p * vals[|vals| - 1] else p
  }

  /** The plain product of a sequence, the reference for PositiveProduct. */
  function Product(vals: seq<int>): int {
    if vals == [] then 1 else vals[0] * Product(vals[1..])
  }

  function IsPositive(v: int): bool { v > 0 }

  lemma {:induction false} ProductSnoc(vals: seq<int>, v: int)
    ensures Product(vals + [v]) == Product(vals) * v
  {
    if vals != [] {
      assert (vals + [v])[1..] == vals[1..] + [v];
      ProductSnoc(vals[1..], v);
    }
  }

  /** The zero-skipping product is the product of the strictly positive values. */
  lemma {:induction false} PositiveProductIsProductOfPositives(vals: seq<int>)
    ensures PositiveProduct(vals) == Product(Filter(vals, IsPositive))
  {
    if vals != [] {
      var prefix := vals[..|vals| - 1];
      var v := vals[|vals| - 1];
      PositiveProductIsProductOfPositives(prefix);
      assert prefix + [v] == vals;
      FilterSnoc(prefix, v, IsPositive);
      if v > 0 {
        ProductSnoc(Filter(prefix, IsPositive), v);
        assert Filter(vals, IsPositive) == Filter(prefix, IsPositive) + [v];
        assert PositiveProduct(vals) == PositiveProduct(prefix) * v;
      } else {
        assert Filter(vals, IsPositive) == Filter(prefix, IsPositive);
      }
    }
  }

  /** Skipping the non-positive values keeps the product at least 1. */
  lemma {:induction false} PositiveProductAtLeastOne(vals: seq<int>)
    ensures PositiveProduct(vals) >= 1
  {
    if vals != [] {
      var prefix := vals[..|vals| - 1];
      var v := vals[|vals| - 1];
      PositiveProductAtLeastOne(prefix);
      if v > 0 {
        var p := PositiveProduct(prefix);
        MulAtLeastOne(p, v);
      }
    }
  }

  lemma MulAtLeastOne(p: int, v: int)
    requires p >= 1 && v >= 1
    ensures p * v >= 1
  {
  }

  lemma SumSnoc(vals: seq<int>, v: int)
    ensures Sum(vals + [v]) == Sum(vals) + v
  {
    assert (vals + [v])[..|vals|] == vals;
  }

  /** The total is the sum of the six stats. */
  lemma TotalOfStats(b: StatSet)
    ensures Sum(StatValues(b)) == b.hp + b.attack + b.defense + b.specialAttack + b.specialDefense + b.speed
  {
    var v := StatValues(b);
    SumSnoc([], v[0]);
    assert [] + [v[0]] == v[..1];
    SumSnoc(v[..1], v[1]);
    assert v[..1] + [v[1]] == v[..2];
    SumSnoc(v[..2], v[2]);
    assert v[..2] + [v[2]] == v[..3];
    SumSnoc(v[..3], v[3]);
    assert v[..3] + [v[3]] == v[..4];
    SumSnoc(v[..4], v[4]);
    assert v[..4] + [v[4]] == v[..5];
    SumSnoc(v[..5], v[5]);
    assert v[..5] + [v[5]] == v;
  }

  /** The product ignores zero stats: stats none of which is positive give 1. */
  lemma ProductOfZeroStats(b: StatSet)
    requires forall v :: v in StatValues(b) ==> v <= 0
    ensures PositiveProduct(StatValues(b)) == 1
  {
    var v := StatValues(b);
    PositiveProductIsProductOfPositives(v);
    FilterNone(v, IsPositive);
  }

  /** The detail record getPokemonDetails builds from the three decoded responses. */
  method AssembleDetails(p: PokemonData, s: SpeciesData, chain: ChainLink) returns (d: Details)
    ensures d.id == p.id && d.name == p.name
    ensures d.spriteUrl == if Truthy(p.artwork) then p.artwork else p.frontDefault
    ensures d.types == p.types && d.abilities == p.abilities
    ensures d.heightDm == p.heightDm && d.weightHg == p.weightHg
    ensures d.baseStats == BaseStatsOf(p.stats)
    ensures d.genderRatio == s.genderRate && d.color == s.color && d.eggGroups == s.eggGroups
    ensures d.evolutionChain == ChainStages(chain)
    ensures d.grassKnotPower == GrassKnotPower(p.weightHg)
    ensures d.baseStatTotal == Sum(StatValues(d.baseStats))
    ensures d.baseStatProduct == PositiveProduct(StatValues(d.baseStats))
    ensures d.cryUrl == p.cry
  {
    var baseStats := BaseStatsOf(p.stats);
    var stages := ParseEvolutionChain(chain);
    d := Details(
      p.id, p.name,
      if Truthy(p.artwork) then p.artwork else p.frontDefault,
      p.types, p.heightDm, p.weightHg, p.abilities, baseStats,
      s.genderRate, s.color, s.eggGroups, stages,
      GrassKnotPower(p.weightHg),
      Sum(StatValues(baseStats)),
      PositiveProduct(StatValues(baseStats)),
      p.cry);
  }

  // ---------------------------------------------------------------------------
  // Once-only caches

  const ListFailure := "Could not fetch the list of Pokémon."
  const OptionsFailure := "Could not load filter options."

  /** The two module-level caches. */
  class ApiCache {
    var pokemonListCache: Option<seq<ListItem>>
    var filterOptionsCache: Option<FilterOptions>

    constructor()
      ensures pokemonListCache == None && filterOptionsCache == None
    {
      pokemonListCache := None;
      filterOptionsCache := None;
    }

    /**
     * getAllPokemon. `response` is the decoded list (None when the request
     * fails) and `settled` the alternate-form requests; a cached list is
     * returned as is and nothing else is consulted.
     */
    method GetAllPokemon(response: Option<seq<NamedResource>>, settled: seq<Option<FormData>>)
      returns (r: Result<seq<ListItem>>)
      requires response.Some? ==> forall x :: x in response.value ==> IdFromUrl(x.url).Some?
      modifies this
      ensures old(pokemonListCache).Some? ==>
        r == Success(old(pokemonListCache).value) && pokemonListCache == old(pokemonListCache)
      ensures old(pokemonListCache).None? && response.None? ==>
        r == Failure(ListFailure) && pokemonListCache == None
      ensures old(pokemonListCache).None? && response.Some? ==>
        r == Success(Catalog(BaseList(response.value), AlternateForms(settled)))
        && pokemonListCache == Some(r.value)
      ensures filterOptionsCache == old(filterOptionsCache)
    {
      if pokemonListCache.Some? {
        return Success(pokemonListCache.value);
      }
      if response.None? {
        return Failure(ListFailure);
      }
      var baseList := BaseList(response.value);
      var alternateForms := AlternateForms(settled);
      var finalList := MergeCatalog(baseList, alternateForms);
      pokemonListCache := Some(finalList);
      return Success(finalList);
    }

    /** getFilterOptions: the three decoded option lists, any failure failing all. */
    method GetFilterOptions(types: Option<seq<string>>, colors: Option<seq<string>>, eggGroups: Option<seq<string>>)
      returns (r: Result<FilterOptions>)
      modifies this
      ensures old(filterOptionsCache).Some? ==>
        r == Success(old(filterOptionsCache).value) && filterOptionsCache == old(filterOptionsCache)
      ensures old(filterOptionsCache).None? && (types.None? || colors.None? || eggGroups.None?) ==>
        r == Failure(OptionsFailure) && filterOptionsCache == None
      ensures old(filterOptionsCache).None? && types.Some? && colors.Some? && eggGroups.Some? ==>
        r == Success(FilterOptions(TypeOptions(types.value), colors.value, eggGroups.value))
        && filterOptionsCache == Some(r.value)
      ensures pokemonListCache == old(pokemonListCache)
    {
      if filterOptionsCache.Some? {
        return Success(filterOptionsCache.value);
      }
      if types.None? || colors.None? || eggGroups.None? {
        return Failure(OptionsFailure);
      }
      var options := FilterOptions(TypeOptions(types.value), colors.value, eggGroups.value);
      filterOptionsCache := Some(options);
      return Success(options);
    }
  }
}
