/** What the normalizer guarantees about the record it builds. */
module ApiLemmas {
  import opened Wrappers
  import opened Text
  import opened Collections
  import opened Api

  // ---------------------------------------------------------------------
  // Which document is fetched

  /** Nothing to fetch, or a failed fetch, gives no record; otherwise the
      record is built from the document at the chosen URL, and an explicit
      URL is preferred to the name or id. */
  lemma DetailsTarget(remote: Remote, nameOrId: Option<NameOrId>, pokemonUrl: Option<string>)
    ensures PokemonUrl(nameOrId, pokemonUrl).None? ==> DetailsSpec(remote, nameOrId, pokemonUrl).None?
    ensures pokemonUrl.Some? && pokemonUrl.value != "" ==>
      DetailsSpec(remote, nameOrId, pokemonUrl) ==
        (if pokemonUrl.value in remote.pokemon
         then Some(BuildDetails(remote, remote.pokemon[pokemonUrl.value]))
         else None)
    ensures (pokemonUrl.None? || pokemonUrl.value == "") && nameOrId == Some(ById(0)) ==>
      DetailsSpec(remote, nameOrId, pokemonUrl).None?
  {
  }

  // ---------------------------------------------------------------------
  // form_name

  /** The default form of a species has an empty form name. */
  lemma FormNameOfDefaultForm(name: string)
    ensures FormName(name, name) == ""
  {
    ReplaceWholeIsEmpty(name);
  }

  /** A name made of the species name, '-' and a suffix yields the suffix,
      provided the suffix neither starts nor ends with '-' and does not
      contain the first letter of the species name. */
  lemma FormNameOfSuffix(base: string, suffix: string)
    requires base != [] && base[0] != '-' && base[0] !in suffix
    requires suffix != [] && suffix[0] != '-' && suffix[|suffix| - 1] != '-'
    ensures FormName(base + "-" + suffix, base) == suffix
  {
    var tail := "-" + suffix;
    ReplacePrefix(base, tail, "");
    assert base + "-" + suffix == base + tail;
    assert base[0] !in tail;
    ReplaceAbsent(tail, base, "");
    assert ReplaceAll(base + tail, base, "") == tail;
    assert tail == seq(1, _ => '-') + suffix;
    StripAround(suffix, '-', 1);
  }

  /** "charizard-mega-x" is the form "mega-x" of "charizard". */
  lemma FormNameExample()
    ensures FormName("charizard-mega-x", "charizard") == "mega-x"
  {
    assert "charizard-mega-x" == "charizard" + "-" + "mega-x";
    FormNameOfSuffix("charizard", "mega-x");
  }

  /** Without a species document the form name is empty, whatever the name. */
  lemma FormNameWithoutSpecies(remote: Remote, p: PokemonPayload)
    requires p.species.url !in remote.species
    ensures BuildDetails(remote, p).formName == ""
  {
  }

  // ---------------------------------------------------------------------
  // Species fallbacks and the region hop

  /** When the species document cannot be fetched the record still has its
      species URL, and the fixed fallbacks for everything the species gives. */
  lemma SpeciesFallbacks(remote: Remote, p: PokemonPayload)
    requires p.species.url !in remote.species
    ensures var d := BuildDetails(remote, p);
      && d.description == "No description available."
      && !d.isLegendary && !d.isMythical
      && d.regionName.None? && d.evolutionChainUrl.None?
      && d.speciesUrl == p.species.url
  {
  }

  /** The record has a region name exactly when the species, its
      `generation` and the generation's `main_region` are all present. */
  lemma RegionNameHops(remote: Remote, p: PokemonPayload)
    ensures BuildDetails(remote, p).regionName.Some? <==>
      && p.species.url in remote.species
      && remote.species[p.species.url].generation.Some?
      && remote.species[p.species.url].generation.value.url in remote.generations
      && remote.generations[remote.species[p.species.url].generation.value.url].mainRegion.Some?
  {
    var species := FetchSpecies(remote, p.species.url);
    if species.Some? {
      assert BuildDetails(remote, p).regionName == RegionNameOf(remote, species.value);
    }
  }

  /** The description never contains a line feed or a form feed. */
  lemma DescriptionHasNoBreaks(remote: Remote, p: PokemonPayload)
    ensures '\n' !in BuildDetails(remote, p).description
    ensures FormFeed !in BuildDetails(remote, p).description
  {
    var species := FetchSpecies(remote, p.species.url);
    var entries := if species.Some? then species.value.flavorTextEntries else [];
    assert BuildDetails(remote, p).description == DescriptionOf(entries);
  }

  // ---------------------------------------------------------------------
  // De-duplication of learn entries

  /** Within one move entry: the records have pairwise different keys, every
      key of the entry's details occurs, each record is the first detail with
      its key, the records keep the order of the details, and every record
      carries the entry's move name and URL. */
  lemma EntryMovesDedup(e: MoveEntry)
    ensures forall i, j :: 0 <= i < j < |EntryMoves(e)| ==> RecordKey(EntryMoves(e)[i]) != RecordKey(EntryMoves(e)[j])
    ensures KeySet(EntryMoves(e), RecordKey) == KeySet(RawMoves(e), RecordKey)
    ensures forall k :: 0 <= k < |EntryMoves(e)| ==> KeptFirst(RawMoves(e), RecordKey, EntryMoves(e)[k])
    ensures IsSubseq(EntryMoves(e), RawMoves(e))
    ensures forall r :: r in EntryMoves(e) ==> r.name == e.move.name && r.url == e.move.url
  {
    var raw := RawMoves(e);
    DedupDistinct(raw, RecordKey, {});
    DedupKeys(raw, RecordKey, {});
    DedupKeepsFirst(raw, RecordKey, {});
    DedupSubseq(raw, RecordKey, {});
    SubseqMembers(EntryMoves(e), raw);
    forall r | r in EntryMoves(e) ensures r.name == e.move.name && r.url == e.move.url {
      assert r in raw;
    }
  }

  /** The seen-set is reset for every move entry: the records of a list of
      entries are those of its parts, one after the other. */
  lemma {:induction false} MovesOfAppend(a: seq<MoveEntry>, b: seq<MoveEntry>)
    ensures MovesOf(a + b) == MovesOf(a) + MovesOf(b)
    decreases |a|
  {
    if a == [] {
      assert a + b == b;
    } else {
      assert (a + b)[0] == a[0];
      assert (a + b)[1..] == a[1..] + b;
      MovesOfAppend(a[1..], b);
    }
  }

  /** Consequently the same key in two entries is kept twice. */
  lemma RepeatedEntryKeptTwice(e: MoveEntry)
    ensures MovesOf([e, e]) == EntryMoves(e) + EntryMoves(e)
  {
    MovesOfAppend([e], [e]);
    assert MovesOf([e]) == EntryMoves(e) + MovesOf([]);
  }

  // ---------------------------------------------------------------------
  // Stats

  /** "special-" in front of a stat name becomes "sp_". */
  lemma StatKeySpecial(rest: string)
    ensures StatKey("special-" + rest) == "sp_" + StatKey(rest)
  {
    ReplacePrefix("special-", rest, "sp_");
  }

  /** A stat name without "special-" is stored under its own name. */
  lemma StatKeyPlain(name: string)
    requires !IsSubstring("special-", name)
    ensures StatKey(name) == name
  {
    ReplaceNoOccurrence(name, "special-", "sp_");
  }

  /** The two special stats of the API, "special-attack" and
      "special-defense", are stored as "sp_attack" and "sp_defense". */
  lemma StatKeysOfSpecialStats()
    ensures StatKey("special-" + "attack") == "sp_" + "attack"
    ensures StatKey("special-" + "defense") == "sp_" + "defense"
  {
    StatKeySpecial("attack");
    LongerNotSubstring("special-", "attack");
    StatKeyPlain("attack");
    StatKeySpecial("defense");
    LongerNotSubstring("special-", "defense");
    StatKeyPlain("defense");
  }

  /** The four other stats of the API keep their names. */
  lemma StatKeysOfPlainStats()
    ensures StatKey("hp") == "hp" && StatKey("attack") == "attack"
    ensures StatKey("defense") == "defense" && StatKey("speed") == "speed"
  {
    LongerNotSubstring("special-", "hp");
    StatKeyPlain("hp");
    LongerNotSubstring("special-", "attack");
    StatKeyPlain("attack");
    LongerNotSubstring("special-", "defense");
    StatKeyPlain("defense");
    LongerNotSubstring("special-", "speed");
    StatKeyPlain("speed");
  }

  /** A key that no entry writes keeps what it had before. */
  lemma {:induction false} StatsUntouched(m: map<string, int>, entries: seq<StatEntry>, key: string)
    requires forall k :: 0 <= k < |entries| ==> StatKey(entries[k].stat.name) != key
    ensures (key in StatsFrom(m, entries)) == (key in m)
    ensures key in m ==> StatsFrom(m, entries)[key] == m[key]
    decreases |entries|
  {
    if entries != [] {
      StatsUntouched(m[StatKey(entries[0].stat.name) := entries[0].baseStat], entries[1..], key);
    }
  }

  /** The value stored under a key is the base stat of the last entry with that key. */
  lemma {:induction false} StatsLastWins(m: map<string, int>, entries: seq<StatEntry>, j: int)
    requires 0 <= j < |entries|
    requires forall k :: j < k < |entries| ==> StatKey(entries[k].stat.name) != StatKey(entries[j].stat.name)
    ensures StatKey(entries[j].stat.name) in StatsFrom(m, entries)
    ensures StatsFrom(m, entries)[StatKey(entries[j].stat.name)] == entries[j].baseStat
    decreases |entries|
  {
    var m' := m[StatKey(entries[0].stat.name) := entries[0].baseStat];
    if j == 0 {
      StatsUntouched(m', entries[1..], StatKey(entries[0].stat.name));
    } else {
      StatsLastWins(m', entries[1..], j - 1);
    }
  }
}
