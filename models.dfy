/** The relational schema of the local Pokédex store: one row type per
    table, the database as a value, and the constraints the schema declares
    (primary keys, unique names, the composite keys of the join tables) plus
    the foreign keys the application keeps in place. */
module Models {
  import opened Wrappers
  import opened Collections

  /** A point in time: `datetime.min` or a reading of the clock. */
  datatype Timestamp = MinTime | At(clock: int)

  /** Table `regions`: the id is assigned on insert, the name is unique. */
  datatype RegionRow = RegionRow(id: int, name: string)

  /** Table `types`. */
  datatype TypeRow = TypeRow(id: int, name: string)

  /** Table `abilities`. */
  datatype AbilityRow = AbilityRow(id: int, name: string, description: string, shortDescription: string)

  /** Table `moves`: the id is the remote move id, the name is unique and
      `typeId` refers to a row of `types`. */
  datatype MoveRow = MoveRow(
    id: int,
    name: string,
    power: Option<int>,
    pp: Option<int>,
    accuracy: Option<int>,
    damageClass: string,
    effectChance: Option<int>,
    description: string,
    typeId: int)

  /** Table `pokemon`, without its primary key (the key of the map that holds
      the rows). A column that may be NULL is an Option; `regionId` refers to
      a row of `regions`. */
  datatype PokemonRow = PokemonRow(
    name: string,
    formName: string,
    description: Option<string>,
    height: Option<int>,
    weight: Option<int>,
    baseExperience: Option<int>,
    spriteUrl: Option<string>,
    artworkUrl: Option<string>,
    cryUrl: Option<string>,
    isLegendary: bool,
    isMythical: bool,
    speciesUrl: Option<string>,
    evolutionChainUrl: Option<string>,
    hp: Option<int>,
    attack: Option<int>,
    defense: Option<int>,
    specialAttack: Option<int>,
    specialDefense: Option<int>,
    speed: Option<int>,
    regionId: Option<int>)

  /** Table `pokemon_types`, keyed by the whole row. */
  datatype PokemonTypeRow = PokemonTypeRow(pokemonId: int, typeId: int)

  /** Table `pokemon_abilities`, keyed by (pokemonId, abilityId). */
  datatype PokemonAbilityRow = PokemonAbilityRow(pokemonId: int, abilityId: int, isHidden: bool, slot: Option<int>)

  /** Table `pokemon_moves`, keyed by the whole row. */
  datatype PokemonMoveRow = PokemonMoveRow(
    pokemonId: int,
    moveId: int,
    learnMethod: string,
    levelLearnedAt: int,
    versionGroup: string)

  /** Table `sync_info`: the application keeps at most one row. */
  datatype SyncInfo = SyncInfo(lastSync: Timestamp, status: string)

  /** The whole store. Named tables are kept in insertion order; join tables
      are sets of rows. */
  datatype Db = Db(
    regions: seq<RegionRow>,
    pokemon: map<int, PokemonRow>,
    types: seq<TypeRow>,
    abilities: seq<AbilityRow>,
    moves: seq<MoveRow>,
    pokemonTypes: set<PokemonTypeRow>,
    pokemonAbilities: set<PokemonAbilityRow>,
    pokemonMoves: set<PokemonMoveRow>,
    syncInfo: Option<SyncInfo>)

  /** The freshly created database: every table empty. */
  function EmptyDb(): (db: Db)
    ensures DbValid(db)
  {
    Db([], map[], [], [], [], {}, {}, {}, None)
  }

  /** An insert or a commit that the database refused: the row broke the
      unique constraint (or primary key) of `table`. */
  datatype StoreError = UniqueViolation(table: string)

  /** The message of the error, as it appears in the sync status. */
  function ErrorText(e: StoreError): (t: string)
    ensures |t| > |e.table| && t[|t| - |e.table|..] == e.table
  {
    "UNIQUE constraint failed: " + e.table
  }

  // ---------------------------------------------------------------------
  // Keys of the named tables

  function RegionName(r: RegionRow): string { r.name }
  function RegionKey(r: RegionRow): int { r.id }
  function TypeName(t: TypeRow): string { t.name }
  function TypeKey(t: TypeRow): int { t.id }
  function AbilityName(a: AbilityRow): string { a.name }
  function AbilityKey(a: AbilityRow): int { a.id }
  function MoveName(m: MoveRow): string { m.name }
  function MoveKey(m: MoveRow): int { m.id }

  /** Ids assigned by the database on insert: 1, 2, 3, ... in insertion
      order (an integer primary key in a table nothing is deleted from). */
  predicate SequentialIds<T>(rows: seq<T>, id: T -> int) {
    forall i :: 0 <= i < |rows| ==> id(rows[i]) == i + 1
  }

  /** A unique column: no two rows share a value. */
  predicate Unique<T, K(==)>(rows: seq<T>, key: T -> K) {
    forall i, j :: 0 <= i < j < |rows| ==> key(rows[i]) != key(rows[j])
  }

  /** Rows appended with the next ids in order keep the ids sequential. */
  lemma AppendSequential<T>(a: seq<T>, b: seq<T>, id: T -> int)
    requires SequentialIds(a, id)
    requires forall k :: 0 <= k < |b| ==> id(b[k]) == |a| + k + 1
    ensures SequentialIds(a + b, id)
  {
    forall i | 0 <= i < |a + b| ensures id((a + b)[i]) == i + 1 {
      if i >= |a| { assert (a + b)[i] == b[i - |a|]; }
    }
  }

  /** Appending rows with distinct values none of which is stored yet keeps
      a column unique. */
  lemma AppendUnique<T, K>(a: seq<T>, b: seq<T>, key: T -> K)
    requires Unique(a, key) && Unique(b, key)
    requires forall k :: 0 <= k < |b| ==> FirstWith(a, key, key(b[k])).None?
    ensures Unique(a + b, key)
  {
    forall i, j | 0 <= i < j < |a + b| ensures key((a + b)[i]) != key((a + b)[j]) {
      if j >= |a| {
        assert (a + b)[j] == b[j - |a|];
        if i >= |a| {
          assert (a + b)[i] == b[i - |a|];
        } else {
          assert (a + b)[i] == a[i];
          FirstWithMissing(a, key, key(b[j - |a|]), i);
        }
      } else {
        assert (a + b)[i] == a[i] && (a + b)[j] == a[j];
      }
    }
  }

  /** The ids present in the `moves` table. */
  function MoveIds(moves: seq<MoveRow>): set<int> {
    set i | 0 <= i < |moves| :: moves[i].id
  }

  /** The constraints of the schema, and the foreign keys the application
      maintains (SQLite does not enforce them by default). */
  predicate DbValid(db: Db) {
    && SequentialIds(db.regions, RegionKey) && Unique(db.regions, RegionName)
    && SequentialIds(db.types, TypeKey) && Unique(db.types, TypeName)
    && SequentialIds(db.abilities, AbilityKey) && Unique(db.abilities, AbilityName)
    && Unique(db.moves, MoveKey) && Unique(db.moves, MoveName)
    && (forall i :: 0 <= i < |db.moves| ==> 1 <= db.moves[i].typeId <= |db.types|)
    && (forall p :: p in db.pokemon && db.pokemon[p].regionId.Some? ==>
          1 <= db.pokemon[p].regionId.value <= |db.regions|)
    && (forall t :: t in db.pokemonTypes ==>
          t.pokemonId in db.pokemon && 1 <= t.typeId <= |db.types|)
    && (forall a :: a in db.pokemonAbilities ==>
          a.pokemonId in db.pokemon && 1 <= a.abilityId <= |db.abilities|)
    && AbilityKeysUnique(db.pokemonAbilities)
    && (forall m :: m in db.pokemonMoves ==>
          m.pokemonId in db.pokemon && m.moveId in MoveIds(db.moves))
  }

  /** The primary key (pokemonId, abilityId) of `pokemon_abilities`. */
  predicate AbilityKeysUnique(rows: set<PokemonAbilityRow>) {
    forall a, b :: a in rows && b in rows && a.pokemonId == b.pokemonId && a.abilityId == b.abilityId ==> a == b
  }

  // ---------------------------------------------------------------------
  // Rows the application creates with column defaults

  /** A species stub: the id, name, species URL and sprite URL are given;
      `form_name`, `is_legendary` and `is_mythical` take their column defaults
      and every other column is NULL. */
  function Stub(name: string, speciesUrl: string, spriteUrl: string): (row: PokemonRow)
    ensures row.formName == "" && !row.isLegendary && !row.isMythical
    ensures row.name == name && row.speciesUrl == Some(speciesUrl) && row.spriteUrl == Some(spriteUrl)
    ensures row.description.None? && row.height.None? && row.weight.None? && row.artworkUrl.None?
    ensures row.hp.None? && row.regionId.None?
  {
    PokemonRow(name, "", None, None, None, None, Some(spriteUrl), None, None, false, false,
               Some(speciesUrl), None, None, None, None, None, None, None, None)
  }

  // ---------------------------------------------------------------------
  // A Pokémon together with its relationships, as the ORM loads it

  /** The `pokemon` object of the ORM: its row and the rows its
      relationships `types`, `abilities`, `moves` and `region` load. */
  datatype PokemonRecord = PokemonRecord(
    row: PokemonRow,
    types: set<PokemonTypeRow>,
    abilities: set<PokemonAbilityRow>,
    moves: set<PokemonMoveRow>,
    region: Option<RegionRow>)

  /** `session.query(Pokemon).filter_by(id=id).first()`. */
  function Record(db: Db, id: int): (r: Option<PokemonRecord>)
    ensures r.Some? <==> id in db.pokemon
    ensures r.Some? ==> r.value.row == db.pokemon[id]
    ensures r.Some? ==> forall t :: t in r.value.types <==> t in db.pokemonTypes && t.pokemonId == id
    ensures r.Some? ==> forall a :: a in r.value.abilities <==> a in db.pokemonAbilities && a.pokemonId == id
    ensures r.Some? ==> forall m :: m in r.value.moves <==> m in db.pokemonMoves && m.pokemonId == id
  {
    if id !in db.pokemon then None
    else
      var row := db.pokemon[id];
      Some(PokemonRecord(
        row,
        (set t | t in db.pokemonTypes && t.pokemonId == id),
        (set a | a in db.pokemonAbilities && a.pokemonId == id),
        (set m | m in db.pokemonMoves && m.pokemonId == id),
        RegionOf(db, row.regionId)))
  }

  /** The row a `region_id` refers to, if there is one. */
  function RegionOf(db: Db, regionId: Option<int>): (r: Option<RegionRow>)
    ensures r.Some? <==> regionId.Some? && 1 <= regionId.value <= |db.regions|
    ensures r.Some? ==> r.value == db.regions[regionId.value - 1]
  {
    if regionId.Some? && 1 <= regionId.value <= |db.regions| then Some(db.regions[regionId.value - 1]) else None
  }
}
