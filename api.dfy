/** The PokéAPI client and the normalizer that turns a Pokémon resource into
    the flat record the store is filled from.

    The network is a value: one map per kind of resource, from URL to the
    decoded JSON document. A URL absent from its map is a request that failed
    (connection error, timeout, HTTP error status); the fetch then yields None
    instead of raising. */
module Api {
  import opened Wrappers
  import opened Text
  import opened Collections

  const BaseUrl: string := "https://pokeapi.co/api/v2"

  // ---------------------------------------------------------------------
  // JSON documents of the remote API. A key read with `[...]` is a plain
  // field; a key read with `.get(...)` or checked with `in` is an Option.

  /** `{"name": ..., "url": ...}` */
  datatype NamedRef = NamedRef(name: string, url: string)

  /** An element of a Pokémon's `types`: `{"type": {...}}`. */
  datatype TypeSlot = TypeSlot(typeRef: NamedRef)

  /** An element of a Pokémon's `abilities`. */
  datatype AbilitySlot = AbilitySlot(ability: NamedRef, isHidden: Option<bool>, slot: Option<int>)

  /** An element of a move entry's `version_group_details`. */
  datatype VersionGroupDetail = VersionGroupDetail(levelLearnedAt: int, moveLearnMethod: NamedRef, versionGroup: NamedRef)

  /** An element of a Pokémon's `moves`. */
  datatype MoveEntry = MoveEntry(move: NamedRef, versionGroupDetails: Option<seq<VersionGroupDetail>>)

  /** An element of a Pokémon's `stats`. */
  datatype StatEntry = StatEntry(baseStat: int, stat: NamedRef)

  /** An element of a species' `flavor_text_entries`. */
  datatype FlavorText = FlavorText(flavorText: string, language: NamedRef)

  /** An element of an ability's or a move's `effect_entries`. */
  datatype EffectEntry = EffectEntry(effect: string, shortEffect: string, language: NamedRef)

  /** An element of a species' `varieties`. */
  datatype Variety = Variety(isDefault: bool, pokemon: NamedRef)

  /** `/pokemon/{id}/`. `spriteFront` is `sprites.front_default`,
      `artworkFront` is `sprites.other["official-artwork"].front_default`
      (both may be null), `criesLatest` is `cries.latest`. */
  datatype PokemonPayload = PokemonPayload(
    name: string,
    species: NamedRef,
    height: int,
    weight: int,
    baseExperience: Option<int>,
    spriteFront: Option<string>,
    artworkFront: Option<string>,
    criesLatest: Option<string>,
    types: seq<TypeSlot>,
    abilities: seq<AbilitySlot>,
    moves: Option<seq<MoveEntry>>,
    stats: Option<seq<StatEntry>>)

  /** `/pokemon-species/{id}/`. `evolutionChainUrl` is `evolution_chain.url`;
      `generation` is None when the key is absent or null. */
  datatype SpeciesPayload = SpeciesPayload(
    name: string,
    flavorTextEntries: seq<FlavorText>,
    isLegendary: Option<bool>,
    isMythical: Option<bool>,
    evolutionChainUrl: Option<string>,
    generation: Option<NamedRef>,
    varieties: Option<seq<Variety>>)

  /** `/generation/{id}/` */
  datatype GenerationPayload = GenerationPayload(mainRegion: Option<NamedRef>, pokemonSpecies: Option<seq<NamedRef>>)

  /** `/region/{id}/` */
  datatype RegionPayload = RegionPayload(mainGeneration: Option<NamedRef>)

  /** `/ability/{name}/` */
  datatype AbilityPayload = AbilityPayload(effectEntries: Option<seq<EffectEntry>>)

  /** `/move/{name}/`. `typeRef` is the move's `type`. */
  datatype MovePayload = MovePayload(
    id: int,
    name: string,
    power: Option<int>,
    pp: Option<int>,
    accuracy: Option<int>,
    damageClass: NamedRef,
    effectChance: Option<int>,
    effectEntries: seq<EffectEntry>,
    typeRef: NamedRef)

  /** A paginated list resource: its `results`. */
  datatype ListPayload = ListPayload(results: seq<NamedRef>)

  /** What the remote API answers, per kind of resource and URL. */
  datatype Remote = Remote(
    pokemon: map<string, PokemonPayload>,
    species: map<string, SpeciesPayload>,
    generations: map<string, GenerationPayload>,
    regions: map<string, RegionPayload>,
    abilities: map<string, AbilityPayload>,
    moves: map<string, MovePayload>,
    lists: map<string, ListPayload>)

  // ---------------------------------------------------------------------
  // _fetch_data: the document at a URL, or None when the request failed

  function FetchPokemon(remote: Remote, url: string): Option<PokemonPayload> {
    if url in remote.pokemon then Some(remote.pokemon[url]) else None
  }

  function FetchSpecies(remote: Remote, url: string): Option<SpeciesPayload> {
    if url in remote.species then Some(remote.species[url]) else None
  }

  function FetchGeneration(remote: Remote, url: string): Option<GenerationPayload> {
    if url in remote.generations then Some(remote.generations[url]) else None
  }

  function FetchRegion(remote: Remote, url: string): Option<RegionPayload> {
    if url in remote.regions then Some(remote.regions[url]) else None
  }

  function FetchList(remote: Remote, url: string): Option<ListPayload> {
    if url in remote.lists then Some(remote.lists[url]) else None
  }

  // ---------------------------------------------------------------------
  // List and lookup endpoints

  function RegionListUrl(): string { BaseUrl + "/region?limit=100" }
  function SpeciesListUrl(): string { BaseUrl + "/pokemon-species?limit=10000" }
  function AbilityUrl(name: string): string { BaseUrl + "/ability/" + name + "/" }
  function MoveUrl(name: string): string { BaseUrl + "/move/" + name + "/" }

  /** `get_regions`: the regions listed by the API, or none when the list cannot be fetched. */
  function GetRegions(remote: Remote): (r: seq<NamedRef>)
    ensures RegionListUrl() !in remote.lists ==> r == []
    ensures RegionListUrl() in remote.lists ==> r == remote.lists[RegionListUrl()].results
  {
    match FetchList(remote, RegionListUrl())
    case Some(data) => data.results
    case None => []
  }

  /** `get_all_pokemon_species_names`: every species the API lists, or none. */
  function GetAllPokemonSpeciesNames(remote: Remote): (r: seq<NamedRef>)
    ensures SpeciesListUrl() !in remote.lists ==> r == []
    ensures SpeciesListUrl() in remote.lists ==> r == remote.lists[SpeciesListUrl()].results
  {
    match FetchList(remote, SpeciesListUrl())
    case Some(data) => data.results
    case None => []
  }

  /** `get_species_varieties`: a species' varieties, or none when the species
      cannot be fetched or lists no varieties. */
  function GetSpeciesVarieties(remote: Remote, speciesUrl: string): (r: seq<Variety>)
    ensures speciesUrl !in remote.species || remote.species[speciesUrl].varieties.None? ==> r == []
    ensures speciesUrl in remote.species && remote.species[speciesUrl].varieties.Some? ==>
      r == remote.species[speciesUrl].varieties.value
  {
    match FetchSpecies(remote, speciesUrl)
    case Some(s) => s.varieties.GetOr([])
    case None => []
  }

  /** `get_pokemon_list_by_region`: the species of a region's main
      generation, reached in two hops, when both hops succeed (none listed
      gives the empty list); any missing hop gives the empty list. */
  function GetPokemonListByRegion(remote: Remote, regionUrl: string): (r: seq<NamedRef>)
    ensures r != [] ==>
      && regionUrl in remote.regions
      && remote.regions[regionUrl].mainGeneration.Some?
      && remote.regions[regionUrl].mainGeneration.value.url in remote.generations
      && remote.generations[remote.regions[regionUrl].mainGeneration.value.url].pokemonSpecies
         == Some(r)
    ensures (regionUrl in remote.regions && remote.regions[regionUrl].mainGeneration.Some? &&
             remote.regions[regionUrl].mainGeneration.value.url in remote.generations) ==>
      r == remote.generations[remote.regions[regionUrl].mainGeneration.value.url].pokemonSpecies.GetOr([])
  {
    match FetchRegion(remote, regionUrl)
    case None => []
    case Some(region) =>
      match region.mainGeneration
      case None => []
      case Some(gen) =>
        match FetchGeneration(remote, gen.url)
        case None => []
        case Some(genData) => genData.pokemonSpecies.GetOr([])
  }

  /** `get_ability_details(name)` */
  function GetAbilityDetails(remote: Remote, name: string): Option<AbilityPayload> {
    if AbilityUrl(name) in remote.abilities then Some(remote.abilities[AbilityUrl(name)]) else None
  }

  /** `get_move_details(name)` */
  function GetMoveDetails(remote: Remote, name: string): Option<MovePayload> {
    if MoveUrl(name) in remote.moves then Some(remote.moves[MoveUrl(name)]) else None
  }

  // ---------------------------------------------------------------------
  // Ids inside resource URLs

  /** `int(url.split("/")[-2])`: the id in a URL such as
      `.../pokemon-species/25/`; None where Python raises IndexError (fewer
      than two pieces) or ValueError (the piece is not an integer). */
  function UrlId(url: string): Option<int> {
    var parts := Split(url, '/');
    if |parts| < 2 then None else ParseInt(parts[|parts| - 2])
  }

  /** The id written into a resource URL is the id read back from it. */
  lemma UrlIdRoundTrip(prefix: string, id: int)
    ensures UrlId(prefix + "/" + IntToString(id) + "/") == Some(id)
  {
    var x := IntToString(id);
    var url := prefix + "/" + x + "/";
    SplitConcat(prefix, x + "/", '/');
    assert url == prefix + ['/'] + (x + "/");
    SplitConcat(x, "", '/');
    assert x + "/" == x + ['/'] + "";
    SplitNoSep(x, '/');
    var parts := Split(url, '/');
    assert parts == Split(prefix, '/') + [x] + [""];
    assert parts[|parts| - 2] == x;
    ParseIntToString(id);
  }

  // ---------------------------------------------------------------------
  // The normalizer

  /** `name_or_id`: a name, or an id that is interpolated into the URL. */
  datatype NameOrId = ByName(name: string) | ById(id: int) {
    /** Python truthiness: an empty name and the id 0 are false. */
    predicate Truthy() {
      match this
      case ByName(n) => n != ""
      case ById(i) => i != 0
    }

    function Text(): string {
      match this
      case ByName(n) => n
      case ById(i) => IntToString(i)
    }
  }

  /** The URL `get_pokemon_details` fetches: an explicit (non-empty) URL wins,
      then a (truthy) name or id; with neither there is nothing to fetch. */
  function PokemonUrl(nameOrId: Option<NameOrId>, pokemonUrl: Option<string>): (r: Option<string>)
    ensures pokemonUrl.Some? && pokemonUrl.value != "" ==> r == pokemonUrl
    ensures r.None? <==> (pokemonUrl.None? || pokemonUrl.value == "") && (nameOrId.None? || !nameOrId.value.Truthy())
  {
    if pokemonUrl.Some? && pokemonUrl.value != "" then pokemonUrl
    else if nameOrId.Some? && nameOrId.value.Truthy() then Some(BaseUrl + "/pokemon/" + nameOrId.value.Text() + "/")
    else None
  }

  /** A learnable move, one per distinct (name, method, level, version group). */
  datatype MoveRecord = MoveRecord(name: string, url: string, learnMethod: string, levelLearnedAt: int, versionGroup: string)

  /** The record `get_pokemon_details` returns: the Pokémon document with the
      keys it adds (`form_name`, `description`, ..., `detailed_moves`, the
      renamed stats, `cry_url`). `stats` holds the keys written by the stats
      loop. */
  datatype Details = Details(
    name: string,
    formName: string,
    description: string,
    height: int,
    weight: int,
    baseExperience: Option<int>,
    spriteFront: Option<string>,
    artworkFront: Option<string>,
    cryUrl: Option<string>,
    isLegendary: bool,
    isMythical: bool,
    speciesUrl: string,
    evolutionChainUrl: Option<string>,
    regionName: Option<string>,
    types: seq<TypeSlot>,
    abilities: seq<AbilitySlot>,
    detailedMoves: seq<MoveRecord>,
    stats: map<string, int>)
  {
    /** `details.get(key)` for a stat key. */
    function Stat(key: string): Option<int> {
      if key in stats then Some(stats[key]) else None
    }
  }

  /** The form part of a Pokémon name: every occurrence of the species name
      removed, then leading and trailing '-' stripped. */
  function FormName(fullName: string, baseName: string): (r: string)
    ensures r == [] || (r[0] != '-' && r[|r| - 1] != '-')
  {
    Strip(ReplaceAll(fullName, baseName, ""), '-')
  }

  /** The form feed character, `"\f"` in Python. */
  const FormFeed: char := '\U{000C}'

  /** Line feeds, then form feeds, replaced by spaces. */
  function CleanText(t: string): string {
    ReplaceAll(ReplaceAll(t, "\n", " "), [FormFeed], " ")
  }

  function FlavorLanguage(e: FlavorText): string { e.language.name }

  /** `get_pokemon_description`: the first English flavor text with line
      feeds and form feeds turned into spaces, or a fixed text when there is none. */
  function DescriptionOf(entries: seq<FlavorText>): (r: string)
    ensures '\n' !in r && FormFeed !in r
    ensures (forall k :: 0 <= k < |entries| ==> entries[k].language.name != "en") ==>
      r == "No description available."
    ensures forall k :: (0 <= k < |entries| && entries[k].language.name == "en" &&
      (forall j :: 0 <= j < k ==> entries[j].language.name != "en")) ==> r == CleanText(entries[k].flavorText)
  {
    match FirstWith(entries, FlavorLanguage, "en")
    case Some(k) =>
      CleanTextHasNoBreaks(entries[k].flavorText);
      CleanText(entries[k].flavorText)
    case None => "No description available."
  }

  lemma CleanTextHasNoBreaks(t: string)
    ensures '\n' !in CleanText(t) && FormFeed !in CleanText(t)
  {
    var r1 := ReplaceAll(t, "\n", " ");
    ReplaceCharRemoves(t, '\n', ' ');
    ReplaceCharRemoves(r1, FormFeed, ' ');
    ReplaceCharKeepsAbsent(r1, FormFeed, ' ', '\n');
  }

  /** `get_pokemon_description`, written as the search loop of the source. */
  method GetPokemonDescription(species: SpeciesPayload) returns (r: string)
    ensures r == DescriptionOf(species.flavorTextEntries)
  {
    var entries := species.flavorTextEntries;
    var i := 0;
    while i < |entries|
      invariant 0 <= i <= |entries|
      invariant forall k :: 0 <= k < i ==> entries[k].language.name != "en"
    {
      if entries[i].language.name == "en" {
        return CleanText(entries[i].flavorText);
      }
      i := i + 1;
    }
    return "No description available.";
  }

  /** The region of a species: `generation`, then the generation's
      `main_region`; None when either hop is missing. */
  function RegionNameOf(remote: Remote, species: SpeciesPayload): (r: Option<string>)
    ensures r.Some? <==>
      && species.generation.Some?
      && species.generation.value.url in remote.generations
      && remote.generations[species.generation.value.url].mainRegion.Some?
    ensures r.Some? ==> r.value == remote.generations[species.generation.value.url].mainRegion.value.name
  {
    match species.generation
    case None => None
    case Some(gen) =>
      match FetchGeneration(remote, gen.url)
      case None => None
      case Some(genData) =>
        match genData.mainRegion
        case None => None
        case Some(region) => Some(region.name)
  }

  type MoveKeyTuple = (string, string, int, string)

  function MoveRecordOf(move: NamedRef, d: VersionGroupDetail): MoveRecord {
    MoveRecord(move.name, move.url, d.moveLearnMethod.name, d.levelLearnedAt, d.versionGroup.name)
  }

  /** The de-duplication key (name, method, level, version group). */
  function RecordKey(r: MoveRecord): MoveKeyTuple {
    (r.name, r.learnMethod, r.levelLearnedAt, r.versionGroup)
  }

  /** One record per version-group detail of a move entry, before de-duplication. */
  function RawMoves(e: MoveEntry): (r: seq<MoveRecord>)
    ensures |r| == |e.versionGroupDetails.GetOr([])|
    ensures forall k :: 0 <= k < |r| ==> r[k] == MoveRecordOf(e.move, e.versionGroupDetails.GetOr([])[k])
  {
    var ds := e.versionGroupDetails.GetOr([]);
    seq(|ds|, k requires 0 <= k < |ds| => MoveRecordOf(e.move, ds[k]))
  }

  /** The records one move entry contributes: the first of each key. */
  function EntryMoves(e: MoveEntry): seq<MoveRecord> {
    Dedup(RawMoves(e), RecordKey)
  }

  /** `detailed_moves`: the entries' records one after the other; the set of
      keys already seen starts empty for every entry. */
  function MovesOf(entries: seq<MoveEntry>): seq<MoveRecord>
    decreases |entries|
  {
    if entries == [] then [] else EntryMoves(entries[0]) + MovesOf(entries[1..])
  }

  /** The key a stat is stored under: "special-" becomes "sp_". */
  function StatKey(statName: string): string {
    ReplaceAll(statName, "special-", "sp_")
  }

  /** The stats loop: each entry writes its base stat under its key, so a
      later entry with the same key overwrites an earlier one. */
  function StatsFrom(m: map<string, int>, entries: seq<StatEntry>): map<string, int>
    decreases |entries|
  {
    if entries == [] then m
    else StatsFrom(m[StatKey(entries[0].stat.name) := entries[0].baseStat], entries[1..])
  }

  /** `get_pokemon_details(name_or_id, pokemon_url)`. */
  function DetailsSpec(remote: Remote, nameOrId: Option<NameOrId>, pokemonUrl: Option<string>): Option<Details> {
    match PokemonUrl(nameOrId, pokemonUrl)
    case None => None
    case Some(url) =>
      match FetchPokemon(remote, url)
      case None => None
      case Some(p) => Some(BuildDetails(remote, p))
  }

  /** What the species document contributes to the record. */
  datatype SpeciesFacts = SpeciesFacts(
    description: string,
    isLegendary: bool,
    isMythical: bool,
    evolutionChainUrl: Option<string>,
    regionName: Option<string>)

  /** The species contribution, with the fallbacks used when the species
      document cannot be fetched. */
  function SpeciesFactsOf(remote: Remote, species: Option<SpeciesPayload>): SpeciesFacts {
    match species
    case Some(s) =>
      SpeciesFacts(DescriptionOf(s.flavorTextEntries), s.isLegendary.GetOr(false), s.isMythical.GetOr(false),
                   s.evolutionChainUrl, RegionNameOf(remote, s))
    case None =>
      SpeciesFacts("No description available.", false, false, None, None)
  }

  /** `form_name`: derived from the species name, or "" without a species document. */
  function FormNameOf(fullName: string, species: Option<SpeciesPayload>): string {
    match species
    case Some(s) => FormName(fullName, s.name)
    case None => ""
  }

  /** The record built from a fetched Pokémon document. */
  function BuildDetails(remote: Remote, p: PokemonPayload): Details {
    var species := FetchSpecies(remote, p.species.url);
    var facts := SpeciesFactsOf(remote, species);
    Details(p.name, FormNameOf(p.name, species), facts.description, p.height, p.weight, p.baseExperience,
            p.spriteFront, p.artworkFront, p.criesLatest, facts.isLegendary, facts.isMythical,
            p.species.url, facts.evolutionChainUrl, facts.regionName, p.types, p.abilities,
            MovesOf(p.moves.GetOr([])), StatsFrom(map[], p.stats.GetOr([])))
  }

  /** `get_pokemon_details`, step by step as the source fills the document. */
  method GetPokemonDetails(remote: Remote, nameOrId: Option<NameOrId>, pokemonUrl: Option<string>)
    returns (r: Option<Details>)
    ensures r == DetailsSpec(remote, nameOrId, pokemonUrl)
  {
    var url: string;
    if pokemonUrl.Some? && pokemonUrl.value != "" {
      url := pokemonUrl.value;
    } else if nameOrId.Some? && nameOrId.value.Truthy() {
      url := BaseUrl + "/pokemon/" + nameOrId.value.Text() + "/";
    } else {
      return None;
    }
    var fetched := FetchPokemon(remote, url);
    if fetched.None? {
      return None;
    }
    var p := fetched.value;
    var formName := "";
    var speciesForName := FetchSpecies(remote, p.species.url);
    if speciesForName.Some? {
      formName := FormName(p.name, speciesForName.value.name);
    }
    var facts := SpeciesFacts("No description available.", false, false, None, None);
    var species := FetchSpecies(remote, p.species.url);
    if species.Some? {
      facts := ReadSpecies(remote, species.value);
    }
    var moves := CollectMoves(p.moves.GetOr([]));
    var stats := CollectStats(p.stats.GetOr([]));
    r := Some(Details(p.name, formName, facts.description, p.height, p.weight, p.baseExperience,
                      p.spriteFront, p.artworkFront, p.criesLatest, facts.isLegendary, facts.isMythical,
                      p.species.url, facts.evolutionChainUrl, facts.regionName, p.types, p.abilities,
                      moves, stats));
  }

  /** The species part of `get_pokemon_details`: description, flags,
      evolution chain and the region hop. */
  method ReadSpecies(remote: Remote, s: SpeciesPayload) returns (facts: SpeciesFacts)
    ensures facts == SpeciesFactsOf(remote, Some(s))
  {
    var description := GetPokemonDescription(s);
    var regionName: Option<string> := None;
    if s.generation.Some? {
      var genData := FetchGeneration(remote, s.generation.value.url);
      if genData.Some? && genData.value.mainRegion.Some? {
        regionName := Some(genData.value.mainRegion.value.name);
      }
    }
    facts := SpeciesFacts(description, s.isLegendary.GetOr(false), s.isMythical.GetOr(false),
                          s.evolutionChainUrl, regionName);
  }

  /** The move loop of `get_pokemon_details`: for each move entry a fresh set
      of seen keys, and a record appended for each detail whose key is new. */
  method CollectMoves(entries: seq<MoveEntry>) returns (movesData: seq<MoveRecord>)
    ensures movesData == MovesOf(entries)
  {
    movesData := [];
    var i := 0;
    while i < |entries|
      invariant 0 <= i <= |entries|
      invariant MovesOf(entries) == movesData + MovesOf(entries[i..])
    {
      var records := CollectEntryMoves(entries[i]);
      assert entries[i..][0] == entries[i] && entries[i..][1..] == entries[i + 1..];
      AppendAssoc(movesData, records, MovesOf(entries[i + 1..]));
      movesData := movesData + records;
      i := i + 1;
    }
    assert entries[i..] == [];
  }

  /** The inner loop over one move entry's `version_group_details`, with the
      set of keys seen for that entry. */
  method CollectEntryMoves(e: MoveEntry) returns (records: seq<MoveRecord>)
    ensures records == EntryMoves(e)
  {
    var details := e.versionGroupDetails.GetOr([]);
    ghost var raw := RawMoves(e);
    records := [];
    var seen: set<MoveKeyTuple> := {};
    var j := 0;
    while j < |details|
      invariant 0 <= j <= |details|
      invariant Dedup(raw, RecordKey) == records + DedupFrom(raw[j..], RecordKey, seen)
    {
      var record := MoveRecordOf(e.move, details[j]);
      assert raw[j..][0] == record && raw[j..][1..] == raw[j + 1..];
      var key := RecordKey(record);
      if key !in seen {
        records := records + [record];
        seen := seen + {key};
      }
      j := j + 1;
    }
    assert raw[j..] == [];
  }

  /** The stats loop of `get_pokemon_details`. */
  method CollectStats(entries: seq<StatEntry>) returns (stats: map<string, int>)
    ensures stats == StatsFrom(map[], entries)
  {
    stats := map[];
    var i := 0;
    while i < |entries|
      invariant 0 <= i <= |entries|
      invariant StatsFrom(map[], entries) == StatsFrom(stats, entries[i..])
    {
      assert entries[i..][0] == entries[i] && entries[i..][1..] == entries[i + 1..];
      stats := stats[StatKey(entries[i].stat.name) := entries[i].baseStat];
      i := i + 1;
    }
    assert entries[i..] == [];
  }
}
