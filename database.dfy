/** The sync engine as functions on the database value: the completeness
    test, the deep update of one Pokémon and the two-phase synchronisation.
    Each function describes the state the store is in once the operation
    has finished (every change committed, or rolled back after an error). */
module Database {
  import opened Wrappers
  import opened Text
  import opened Collections
  import opened Models
  import opened Api

  // ---------------------------------------------------------------------
  // is_pokemon_data_complete

  /** Whether each of the eleven critical columns is set: description,
      height, weight, sprite, artwork and the six base stats. */
  function CriticalFieldsPresent(row: PokemonRow): (flags: seq<bool>)
    ensures |flags| == 11
  {
    [row.description.Some?, row.height.Some?, row.weight.Some?, row.spriteUrl.Some?, row.artworkUrl.Some?,
     row.hp.Some?, row.attack.Some?, row.defense.Some?, row.specialAttack.Some?, row.specialDefense.Some?,
     row.speed.Some?]
  }

  /** `is_pokemon_data_complete(pokemon)`: a Pokémon is complete when it
      exists, no critical column is NULL, and it has types, abilities, moves
      and a region. */
  function IsPokemonDataComplete(pokemon: Option<PokemonRecord>): bool {
    if pokemon.None? then false
    else
      var flags := CriticalFieldsPresent(pokemon.value.row);
      if exists i :: 0 <= i < |flags| && !flags[i] then false
      else if pokemon.value.types == {} then false
      else if pokemon.value.abilities == {} then false
      else if pokemon.value.moves == {} then false
      else pokemon.value.region.Some?
  }

  /** The completeness of the Pokémon with this id as currently stored. */
  function Complete(db: Db, id: int): bool {
    IsPokemonDataComplete(Record(db, id))
  }

  // ---------------------------------------------------------------------
  // Looking up by name before creating

  /** The id of the first row whose name is `n`, or 0 when there is none. */
  function IdOf<T>(rows: seq<T>, name: T -> string, id: T -> int, n: string): int {
    match FirstWith(rows, name, n)
    case Some(i) => id(rows[i])
    case None => 0
  }

  /** The `types` row named `name`, created when missing (query, then add
      and flush). Returns the new state and the id. */
  function LookupOrCreateType(db: Db, name: string): (r: (Db, int))
    ensures r.1 == IdOf(r.0.types, TypeName, TypeKey, name)
    ensures FirstWith(r.0.types, TypeName, name).Some?
    ensures FirstWith(db.types, TypeName, name).Some? ==> r.0 == db
    ensures FirstWith(db.types, TypeName, name).None? ==>
      r.0 == db.(types := db.types + [TypeRow(|db.types| + 1, name)])
  {
    match FirstWith(db.types, TypeName, name)
    case Some(i) => (db, db.types[i].id)
    case None =>
      var types := db.types + [TypeRow(|db.types| + 1, name)];
      FirstWithAppend(db.types, [TypeRow(|db.types| + 1, name)], TypeName, name);
      (db.(types := types), |db.types| + 1)
  }

  function EffectLanguage(e: EffectEntry): string { e.language.name }

  /** The description and short description of a new ability: those of the
      first English effect entry, or "No description." for both. */
  function AbilityTexts(details: Option<AbilityPayload>): (texts: (string, string))
    ensures details.None? || details.value.effectEntries.None? ==> texts == ("No description.", "No description.")
    ensures details.Some? && details.value.effectEntries.Some? ==>
      var entries := details.value.effectEntries.value;
      (forall k :: 0 <= k < |entries| ==> entries[k].language.name != "en") ==>
        texts == ("No description.", "No description.")
    ensures details.Some? && details.value.effectEntries.Some? ==>
      var entries := details.value.effectEntries.value;
      forall k :: (0 <= k < |entries| && entries[k].language.name == "en" &&
        (forall j :: 0 <= j < k ==> entries[j].language.name != "en")) ==>
        texts == (entries[k].effect, entries[k].shortEffect)
  {
    if details.Some? && details.value.effectEntries.Some? then
      var entries := details.value.effectEntries.value;
      match FirstWith(entries, EffectLanguage, "en")
      case Some(k) => (entries[k].effect, entries[k].shortEffect)
      case None => ("No description.", "No description.")
    else
      ("No description.", "No description.")
  }

  /** The `abilities` row named `name`, created from the remote ability
      document when missing. */
  function LookupOrCreateAbility(db: Db, remote: Remote, name: string): (r: (Db, int))
    ensures r.1 == IdOf(r.0.abilities, AbilityName, AbilityKey, name)
    ensures FirstWith(r.0.abilities, AbilityName, name).Some?
    ensures FirstWith(db.abilities, AbilityName, name).Some? ==> r.0 == db
    ensures FirstWith(db.abilities, AbilityName, name).None? ==>
      var texts := AbilityTexts(GetAbilityDetails(remote, name));
      r.0 == db.(abilities := db.abilities + [AbilityRow(|db.abilities| + 1, name, texts.0, texts.1)])
  {
    match FirstWith(db.abilities, AbilityName, name)
    case Some(i) => (db, db.abilities[i].id)
    case None =>
      var texts := AbilityTexts(GetAbilityDetails(remote, name));
      var row := AbilityRow(|db.abilities| + 1, name, texts.0, texts.1);
      FirstWithAppend(db.abilities, [row], AbilityName, name);
      (db.(abilities := db.abilities + [row]), |db.abilities| + 1)
  }

  /** A move's description: the first effect entry's text whatever its
      language, or "No description." when there is none. */
  function MoveDescription(entries: seq<EffectEntry>): string {
    if entries != [] then entries[0].effect else "No description."
  }

  /** The `moves` row built from a move document. */
  function MoveRowOf(m: MovePayload, typeId: int): MoveRow {
    MoveRow(m.id, m.name, m.power, m.pp, m.accuracy, m.damageClass.name, m.effectChance,
            MoveDescription(m.effectEntries), typeId)
  }

  /** Whether a row with this id or this name is already in `moves`. */
  predicate MoveClashes(moves: seq<MoveRow>, row: MoveRow) {
    exists i :: 0 <= i < |moves| && (moves[i].id == row.id || moves[i].name == row.name)
  }

  /** `add_to_db(session, Region(name=name))`: the row is committed, or
      nothing is when the name is taken, and None is returned. */
  function AddRegionToDb(db: Db, name: string): Option<Db> {
    if FirstWith(db.regions, RegionName, name).Some? then None
    else Some(db.(regions := db.regions + [RegionRow(|db.regions| + 1, name)]))
  }

  // ---------------------------------------------------------------------
  // update_pokemon_data

  /** The region a record names: looked up by name, and created (and
      committed at once) when missing. A missing or empty name gives none. */
  function RegionFor(db: Db, regionName: Option<string>): (r: (Db, Option<int>))
    ensures regionName.None? || regionName.value == "" ==> r == (db, None)
    ensures regionName.Some? && regionName.value != "" ==>
      r.1 == Some(IdOf(r.0.regions, RegionName, RegionKey, regionName.value)) &&
      FirstWith(r.0.regions, RegionName, regionName.value).Some?
    ensures regionName.Some? && FirstWith(db.regions, RegionName, regionName.value).Some? ==> r.0 == db
    ensures regionName.Some? && regionName.value != "" && FirstWith(db.regions, RegionName, regionName.value).None? ==>
      r.0 == db.(regions := db.regions + [RegionRow(|db.regions| + 1, regionName.value)])
  {
    if regionName.Some? && regionName.value != "" then
      var name := regionName.value;
      match FirstWith(db.regions, RegionName, name)
      case Some(i) => (db, Some(db.regions[i].id))
      case None =>
        var row := RegionRow(|db.regions| + 1, name);
        FirstWithAppend(db.regions, [row], RegionName, name);
        (db.(regions := db.regions + [row]), Some(|db.regions| + 1))
    else
      (db, None)
  }

  /** Every column of the row, overwritten from the record. */
  function PokemonRowOf(d: Details, regionId: Option<int>): PokemonRow {
    PokemonRow(d.name, d.formName, Some(d.description), Some(d.height), Some(d.weight), d.baseExperience,
               d.spriteFront, d.artworkFront, d.cryUrl, d.isLegendary, d.isMythical, Some(d.speciesUrl),
               d.evolutionChainUrl, d.Stat("hp"), d.Stat("attack"), d.Stat("defense"),
               d.Stat("sp_attack"), d.Stat("sp_defense"), d.Stat("speed"), regionId)
  }

  /** The type rows of one Pokémon, inserted one slot after the other; a
      slot naming a type twice breaks the primary key. */
  function AddTypes(db: Db, pid: int, slots: seq<TypeSlot>): Result<Db, StoreError>
    decreases |slots|
  {
    if slots == [] then Success(db)
    else
      var (db1, tid) := LookupOrCreateType(db, slots[0].typeRef.name);
      var row := PokemonTypeRow(pid, tid);
      if row in db1.pokemonTypes then Failure(UniqueViolation("pokemon_types"))
      else AddTypes(db1.(pokemonTypes := db1.pokemonTypes + {row}), pid, slots[1..])
  }

  /** Whether the key (pid, aid) of `pokemon_abilities` is taken. */
  predicate HasAbilityKey(rows: set<PokemonAbilityRow>, pid: int, aid: int) {
    exists a :: a in rows && a.pokemonId == pid && a.abilityId == aid
  }

  /** The join row an ability slot gives: `is_hidden` defaults to False. */
  function AbilityJoin(pid: int, aid: int, slot: AbilitySlot): PokemonAbilityRow {
    PokemonAbilityRow(pid, aid, slot.isHidden.GetOr(false), slot.slot)
  }

  /** The ability rows of one Pokémon. */
  function AddAbilities(db: Db, remote: Remote, pid: int, slots: seq<AbilitySlot>): Result<Db, StoreError>
    decreases |slots|
  {
    if slots == [] then Success(db)
    else
      var (db1, aid) := LookupOrCreateAbility(db, remote, slots[0].ability.name);
      if HasAbilityKey(db1.pokemonAbilities, pid, aid) then Failure(UniqueViolation("pokemon_abilities"))
      else
        var row := AbilityJoin(pid, aid, slots[0]);
        AddAbilities(db1.(pokemonAbilities := db1.pokemonAbilities + {row}), remote, pid, slots[1..])
  }

  /** The join row a move record gives, for the move with id `moveId`. */
  function MoveJoin(pid: int, moveId: int, rec: MoveRecord): PokemonMoveRow {
    PokemonMoveRow(pid, moveId, rec.learnMethod, rec.levelLearnedAt, rec.versionGroup)
  }

  /** Insert one row into `pokemon_moves`. */
  function InsertMoveJoin(db: Db, row: PokemonMoveRow): Result<Db, StoreError> {
    if row in db.pokemonMoves then Failure(UniqueViolation("pokemon_moves"))
    else Success(db.(pokemonMoves := db.pokemonMoves + {row}))
  }

  /** One learnable move: the move is looked up by name, else fetched and
      created (with its type looked up or created); when it can be neither
      found nor fetched the record is dropped. */
  function AddMove(db: Db, remote: Remote, pid: int, rec: MoveRecord): Result<Db, StoreError> {
    match FirstWith(db.moves, MoveName, rec.name)
    case Some(i) => InsertMoveJoin(db, MoveJoin(pid, db.moves[i].id, rec))
    case None =>
      match GetMoveDetails(remote, rec.name)
      case None => Success(db)
      case Some(m) =>
        var (db1, tid) := LookupOrCreateType(db, m.typeRef.name);
        var row := MoveRowOf(m, tid);
        if MoveClashes(db1.moves, row) then Failure(UniqueViolation("moves"))
        else InsertMoveJoin(db1.(moves := db1.moves + [row]), MoveJoin(pid, m.id, rec))
  }

  /** The id of the move a learnable move record is linked to, for the
      `moves` table as the record finds it: the first stored move with the
      record's name, else the id of the fetched move; none when the move is
      neither stored nor fetchable. */
  function ResolvedMoveId(moves: seq<MoveRow>, remote: Remote, name: string): Option<int> {
    match FirstWith(moves, MoveName, name)
    case Some(i) => Some(moves[i].id)
    case None =>
      match GetMoveDetails(remote, name)
      case None => None
      case Some(m) => Some(m.id)
  }

  /** Every fetchable move of the records is a document of the name it was
      fetched by, as PokeAPI's are: a move created for one record is then
      found by name by the later records of the same move, and by no other. */
  predicate NamedAsFetched(remote: Remote, recs: seq<MoveRecord>) {
    forall k :: 0 <= k < |recs| && GetMoveDetails(remote, recs[k].name).Some? ==>
      GetMoveDetails(remote, recs[k].name).value.name == recs[k].name
  }

  /** The move rows of one Pokémon. */
  function AddMoves(db: Db, remote: Remote, pid: int, recs: seq<MoveRecord>): Result<Db, StoreError>
    decreases |recs|
  {
    if recs == [] then Success(db)
    else
      match AddMove(db, remote, pid, recs[0])
      case Failure(e) => Failure(e)
      case Success(db1) => AddMoves(db1, remote, pid, recs[1..])
  }

  function WithoutTypesOf(rows: set<PokemonTypeRow>, pid: int): set<PokemonTypeRow> {
    set t | t in rows && t.pokemonId != pid
  }

  function WithoutAbilitiesOf(rows: set<PokemonAbilityRow>, pid: int): set<PokemonAbilityRow> {
    set a | a in rows && a.pokemonId != pid
  }

  function WithoutMovesOf(rows: set<PokemonMoveRow>, pid: int): set<PokemonMoveRow> {
    set m | m in rows && m.pokemonId != pid
  }

  /** The part of the update after the region: the row is (created and)
      overwritten, then each kind of join row is deleted and re-inserted. */
  function ApplyDetails(db: Db, remote: Remote, pid: int, d: Details, regionId: Option<int>): Result<Db, StoreError> {
    var db1 := db.(pokemon := db.pokemon[pid := PokemonRowOf(d, regionId)]);
    match AddTypes(db1.(pokemonTypes := WithoutTypesOf(db1.pokemonTypes, pid)), pid, d.types)
    case Failure(e) => Failure(e)
    case Success(db2) =>
      match AddAbilities(db2.(pokemonAbilities := WithoutAbilitiesOf(db2.pokemonAbilities, pid)), remote, pid, d.abilities)
      case Failure(e) => Failure(e)
      case Success(db3) =>
        AddMoves(db3.(pokemonMoves := WithoutMovesOf(db3.pokemonMoves, pid)), remote, pid, d.detailedMoves)
  }

  /** What `update_pokemon_data` returns: the Pokémon untouched because it
      was complete, None because nothing could be fetched, the updated
      Pokémon, or an error raised from the commit. */
  datatype UpdateOutcome = AlreadyComplete | NoDetails | Updated | Failed(error: StoreError)

  datatype UpdateResult = UpdateResult(outcome: UpdateOutcome, db: Db)

  /** `update_pokemon_data(session, id, pokemon_url)`. On an error the new
      region, which was committed on its own, stays; every other change is
      rolled back by the caller. */
  function UpdateSpec(db: Db, remote: Remote, id: int, pokemonUrl: Option<string>): UpdateResult {
    if Complete(db, id) then UpdateResult(AlreadyComplete, db)
    else
      match DetailsSpec(remote, Some(ById(id)), pokemonUrl)
      case None => UpdateResult(NoDetails, db)
      case Some(d) =>
        var (db1, regionId) := RegionFor(db, d.regionName);
        match ApplyDetails(db1, remote, id, d, regionId)
        case Success(db2) => UpdateResult(Updated, db2)
        case Failure(e) => UpdateResult(Failed(e), db1)
  }

  // ---------------------------------------------------------------------
  // sync_database

  /** A call of the progress callback. */
  datatype Progress = Progress(current: int, total: int)

  /** The sync record, created as "in_progress" at `datetime.min` when missing. */
  function EnsureSyncInfo(db: Db): (r: Db)
    ensures r.syncInfo.Some?
    ensures db.syncInfo.Some? ==> r == db
    ensures db.syncInfo.None? ==> r == db.(syncInfo := Some(SyncInfo(MinTime, "in_progress")))
  {
    if db.syncInfo.None? then db.(syncInfo := Some(SyncInfo(MinTime, "in_progress"))) else db
  }

  /** The listed region names that are not stored yet, in list order. Names
      are checked against the store only, so a name listed twice is kept twice. */
  function RegionsToAdd(regions: seq<RegionRow>, entries: seq<NamedRef>): (names: seq<string>)
    ensures forall k :: 0 <= k < |names| ==> FirstWith(regions, RegionName, names[k]).None?
    decreases |entries|
  {
    if entries == [] then []
    else
      var rest := RegionsToAdd(regions, entries[1..]);
      if FirstWith(regions, RegionName, entries[0].name).None? then [entries[0].name] + rest else rest
  }

  /** The rows `Region(name=...)` for new names, numbered after the last id. */
  function NewRegionRows(start: int, names: seq<string>): (rows: seq<RegionRow>)
    ensures |rows| == |names|
    ensures forall k :: 0 <= k < |rows| ==> rows[k] == RegionRow(start + k + 1, names[k])
  {
    seq(|names|, k requires 0 <= k < |names| => RegionRow(start + k + 1, names[k]))
  }

  predicate HasDuplicates(names: seq<string>) {
    exists i, j :: 0 <= i < j < |names| && names[i] == names[j]
  }

  /** `add_all_to_db` for regions: all rows are committed, or none when
      one of them breaks the unique name (the error is swallowed and None
      returned). */
  function AddAllRegions(db: Db, names: seq<string>): Option<Db> {
    if HasDuplicates(names) || exists k :: 0 <= k < |names| && FirstWith(db.regions, RegionName, names[k]).Some? then None
    else Some(db.(regions := db.regions + NewRegionRows(|db.regions|, names)))
  }

  /** Step 1 of the sync: store the regions the API lists and the store lacks. */
  function SyncRegions(db: Db, remote: Remote): Db {
    var names := RegionsToAdd(db.regions, GetRegions(remote));
    if names == [] then db
    else match AddAllRegions(db, names)
      case None => db
      case Some(db1) => db1
  }

  /** The sprite URL given to a stub. */
  function SpriteUrl(id: int): string {
    "https://raw.githubusercontent.com/PokeAPI/sprites/master/sprites/pokemon/" + IntToString(id) + ".png"
  }

  datatype StubRow = StubRow(id: int, row: PokemonRow)

  /** Step 2 of the sync: a stub for every listed species whose id can be
      read from its URL and is not among the ids stored when the step began.
      Entries without an id are skipped. */
  function CollectStubs(species: seq<NamedRef>, existing: set<int>): (stubs: seq<StubRow>)
    ensures forall k :: 0 <= k < |stubs| ==> stubs[k].id !in existing
    decreases |species|
  {
    if species == [] then []
    else EntryStub(species[0], existing) + CollectStubs(species[1..], existing)
  }

  /** A species entry whose URL yields an id that is not stored yet. */
  predicate NewSpecies(e: NamedRef, existing: set<int>) {
    UrlId(e.url).Some? && UrlId(e.url).value !in existing
  }

  /** The stub made from a species entry: its id read from the URL, the
      entry's name and URL, and the sprite URL of the id. */
  predicate StubFrom(e: NamedRef, s: StubRow) {
    UrlId(e.url) == Some(s.id) && s.row == Stub(e.name, e.url, SpriteUrl(s.id))
  }

  /** The stub of one species entry: one exactly for a new species. */
  function EntryStub(e: NamedRef, existing: set<int>): (s: seq<StubRow>)
    ensures |s| <= 1
    ensures s != [] <==> NewSpecies(e, existing)
    ensures s != [] ==> StubFrom(e, s[0]) && s[0].id !in existing
  {
    match UrlId(e.url)
    case None => []
    case Some(id) => if id in existing then [] else [StubRow(id, Stub(e.name, e.url, SpriteUrl(id)))]
  }

  /** The progress calls at the indices lo, lo+1, ..., n-1 that the stride divides. */
  function StrideEvents(lo: nat, n: nat, stride: nat, total: int): seq<Progress>
    requires stride > 0
    decreases n - lo
  {
    if lo >= n then []
    else (if lo % stride == 0 then [Progress(lo, total)] else []) + StrideEvents(lo + 1, n, stride, total)
  }

  const BatchSize: nat := 500

  /** One batch of stubs, committed together: a stub whose id is already
      stored breaks the primary key and the whole batch fails. */
  function InsertBatch(db: Db, batch: seq<StubRow>): Result<Db, StoreError>
    decreases |batch|
  {
    if batch == [] then Success(db)
    else if batch[0].id in db.pokemon then Failure(UniqueViolation("pokemon"))
    else InsertBatch(db.(pokemon := db.pokemon[batch[0].id := batch[0].row]), batch[1..])
  }

  /** The stubs cut into consecutive batches of `BatchSize` (the last one
      may be shorter). */
  function Batches(stubs: seq<StubRow>): seq<seq<StubRow>>
    decreases |stubs|
  {
    if stubs == [] then []
    else
      var n := if |stubs| < BatchSize then |stubs| else BatchSize;
      [stubs[..n]] + Batches(stubs[n..])
  }

  /** The committed state after the batches, and the error that stopped them. */
  datatype BatchRun = BatchRun(db: Db, error: Option<StoreError>)

  /** The batches one after the other, each committed on its own: a failed
      batch leaves the earlier ones in place and stops the phase. */
  function InsertBatches(db: Db, batches: seq<seq<StubRow>>): BatchRun
    decreases |batches|
  {
    if batches == [] then BatchRun(db, None)
    else
      match InsertBatch(db, batches[0])
      case Failure(e) => BatchRun(db, Some(e))
      case Success(db1) => InsertBatches(db1, batches[1..])
  }

  /** The deep phase: the state after it, the progress calls, and the error that stopped it. */
  datatype DeepRun = DeepRun(db: Db, events: seq<Progress>, error: Option<StoreError>)

  /** One Pokémon of step 3: updated only when incomplete. */
  function DeepStep(db: Db, remote: Remote, id: int): UpdateResult {
    if Complete(db, id) then UpdateResult(AlreadyComplete, db) else UpdateSpec(db, remote, id, None)
  }

  /** Step 3 of the sync over the ids from index `i` on: each incomplete
      Pokémon is updated, then a progress call is made at every tenth index. */
  function DeepSync(db: Db, remote: Remote, ids: seq<int>, i: nat, report: bool, total: int): DeepRun
    decreases |ids|
  {
    if ids == [] then DeepRun(db, [], None)
    else
      var r := DeepStep(db, remote, ids[0]);
      if r.outcome.Failed? then DeepRun(r.db, [], Some(r.outcome.error))
      else
        var rest := DeepSync(r.db, remote, ids[1..], i + 1, report, total);
        var event := if report && i % 10 == 0 then [Progress(i, total)] else [];
        DeepRun(rest.db, event + rest.events, rest.error)
  }

  /** The outcome of a sync: the final state and the progress calls made. */
  datatype SyncRun = SyncRun(db: Db, events: seq<Progress>)

  /** The sync record after a successful run. */
  function Succeeded(db: Db, now: int): Db {
    db.(syncInfo := Some(SyncInfo(At(now), "success")))
  }

  /** The sync record after a failed run, from the committed record `info`. */
  function FailedWith(db: Db, info: SyncInfo, e: StoreError): Db {
    db.(syncInfo := Some(info.(status := "failed: " + ErrorText(e))))
  }

  /** Steps 1 and 2 of the sync: the sync record, the regions, then the stubs in batches. */
  function StubPhase(db: Db, remote: Remote): BatchRun {
    var db2 := SyncRegions(EnsureSyncInfo(db), remote);
    InsertBatches(db2, Batches(CollectStubs(GetAllPokemonSpeciesNames(remote), db2.pokemon.Keys)))
  }

  /** The progress calls of step 2: every hundredth species index, with `background` and a callback. */
  function StubEvents(remote: Remote, background: bool, hasCallback: bool): seq<Progress> {
    var n := |GetAllPokemonSpeciesNames(remote)|;
    if background && hasCallback then StrideEvents(0, n, 100, n) else []
  }

  /** Step 3 of the sync over every stored id, in ascending order. */
  function DeepPhase(db: Db, remote: Remote, hasCallback: bool): DeepRun {
    var ids := SortedIds(db.pokemon.Keys);
    DeepSync(db, remote, ids, 0, hasCallback, |ids|)
  }

  /** `sync_database(background, progress_callback)` with the clock reading `now`. */
  function SyncSpec(db: Db, remote: Remote, background: bool, hasCallback: bool, now: int): SyncRun {
    var info := EnsureSyncInfo(db).syncInfo.value;
    var stubEvents := StubEvents(remote, background, hasCallback);
    var batches := StubPhase(db, remote);
    if batches.error.Some? then
      SyncRun(FailedWith(batches.db, info, batches.error.value), stubEvents)
    else if !background then
      SyncRun(Succeeded(batches.db, now), stubEvents)
    else
      var deep := DeepPhase(batches.db, remote, hasCallback);
      match deep.error
      case Some(e) => SyncRun(FailedWith(deep.db, info, e), stubEvents + deep.events)
      case None => SyncRun(Succeeded(deep.db, now), stubEvents + deep.events)
  }
}
